/** In which order a box starts its components and tears them down, written out. */
module BoxOrder {
  import opened CleanupScope
  import opened BoxStart
  import opened BoxTeardown

  // ----- What was carried out -----

  lemma {:induction false} KeptHas(plan: seq<Step>, replies: nat -> Reply, n: nat, k: nat)
    requires k < Tried(plan, replies, n) && k < |plan| && CarriedOut(plan[k], replies(n + k))
    ensures plan[k] in KeptSteps(plan, replies, n)
    decreases k
  {
    if k == 0 {
    } else {
      KeptHas(plan[1..], replies, n + 1, k - 1);
      assert plan[1..][k - 1] == plan[k];
    }
  }

  lemma {:induction false} KeptFrom(plan: seq<Step>, replies: nat -> Reply, n: nat, step: Step) returns (k: nat)
    requires step in KeptSteps(plan, replies, n)
    ensures k < Tried(plan, replies, n) && k < |plan| && plan[k] == step && CarriedOut(step, replies(n + k))
  {
    if step in KeptStep(plan[0], replies(n)) {
      k := 0;
    } else {
      var rest := KeptFrom(plan[1..], replies, n + 1, step);
      k := rest + 1;
    }
  }

  lemma {:induction false} TriesThePlan(plan: seq<Step>, replies: nat -> Reply, n: nat)
    ensures Tried(plan, replies, n) <= |plan|
  {
    if plan == [] {
    } else {
      TriesThePlan(plan[1..], replies, n + 1);
    }
  }

  /** A component was invoked at a stage exactly if the start came to that step and no context was cancelled by then;
      the box acquired something exactly if it came to that step, that succeeded, and the thing was not an absent debug
      server. */
  lemma CarriedOutExactly(internal: seq<Component>, ntp: bool, replies: nat -> Reply, step: Step)
    ensures var plan := StartPlan(internal, ntp);
            var p := RunPlan(Progress(0, [], []), plan, replies);
            && p.tried <= |plan|
            && (step in p.done <==>
                  exists k :: 0 <= k < p.tried && plan[k] == step &&
                    if step.Launch? then !replies(k).interrupted
                    else replies(k).ok && (step.id != DEBUG_SERVER || !replies(k).absent))
  {
    CarriedOutOf(StartPlan(internal, ntp), replies, step);
  }

  lemma CarriedOutOf(plan: seq<Step>, replies: nat -> Reply, step: Step)
    ensures var p := RunPlan(Progress(0, [], []), plan, replies);
            && p.tried <= |plan|
            && (step in p.done <==> exists k :: 0 <= k < p.tried && plan[k] == step && CarriedOut(step, replies(k)))
  {
    RunTries(Progress(0, [], []), plan, replies);
    TriesThePlan(plan, replies, 0);
    DoneAreKept(plan, replies);
    KeptExactly(plan, replies, step);
  }

  lemma KeptSomewhere(plan: seq<Step>, replies: nat -> Reply, step: Step)
    requires Tried(plan, replies, 0) <= |plan| && step in KeptSteps(plan, replies, 0)
    ensures exists k :: 0 <= k < Tried(plan, replies, 0) && plan[k] == step && CarriedOut(step, replies(k))
  {
    var k := KeptFrom(plan, replies, 0, step);
    assert plan[k] == step && CarriedOut(step, replies(k));
  }

  lemma KeptExactly(plan: seq<Step>, replies: nat -> Reply, step: Step)
    requires Tried(plan, replies, 0) <= |plan|
    ensures step in KeptSteps(plan, replies, 0) <==>
              exists k :: 0 <= k < Tried(plan, replies, 0) && plan[k] == step && CarriedOut(step, replies(k))
  {
    if step in KeptSteps(plan, replies, 0) {
      KeptSomewhere(plan, replies, step);
    }
    forall k | 0 <= k < Tried(plan, replies, 0) && plan[k] == step && CarriedOut(step, replies(k))
      ensures step in KeptSteps(plan, replies, 0)
    {
      KeptHas(plan, replies, 0, k);
    }
  }

  lemma DoneAreKept(plan: seq<Step>, replies: nat -> Reply)
    ensures RunPlan(Progress(0, [], []), plan, replies).done == KeptSteps(plan, replies, 0)
  {
    RunKeeps(Progress(0, [], []), plan, replies);
    assert [] + KeptSteps(plan, replies, 0) == KeptSteps(plan, replies, 0);
  }

  // ----- The order of a start without failure -----

  /** The launches among some steps. */
  function Launched(steps: seq<Step>): seq<Step> {
    if steps == [] then [] else IfLaunch(steps[0]) + Launched(steps[1..])
  }

  function IfLaunch(step: Step): seq<Step> {
    if step.Launch? then [step] else []
  }

  lemma LaunchedHead(step: Step, rest: seq<Step>)
    ensures Launched([step] + rest) == IfLaunch(step) + Launched(rest)
  {
    assert ([step] + rest)[0] == step && ([step] + rest)[1..] == rest;
  }

  lemma {:induction false} LaunchedConcat(a: seq<Step>, b: seq<Step>)
    ensures Launched(a + b) == Launched(a) + Launched(b)
  {
    if a == [] {
      assert a + b == b;
    } else {
      assert (a + b)[0] == a[0] && (a + b)[1..] == a[1..] + b;
      LaunchedConcat(a[1..], b);
      Assoc(IfLaunch(a[0]), Launched(a[1..]), Launched(b));
    }
  }

  lemma {:induction false} LaunchedAll(stage: Stage, comps: seq<Component>)
    ensures Launched(LaunchAll(stage, comps)) == LaunchAll(stage, comps)
  {
    if comps == [] {
    } else {
      assert LaunchAll(stage, comps)[1..] == LaunchAll(stage, comps[1..]);
      LaunchedAll(stage, comps[1..]);
    }
  }

  /** Every step of the plan succeeds. */
  predicate AllSucceed(plan: seq<Step>, replies: nat -> Reply, n: nat) {
    plan == [] || (Succeeds(plan[0], replies(n)) && AllSucceed(plan[1..], replies, n + 1))
  }

  lemma {:induction false} SuccessOfAll(p: Progress, plan: seq<Step>, replies: nat -> Reply)
    requires PlanSucceeds(p, plan, replies)
    ensures AllSucceed(plan, replies, p.tried)
    decreases |plan|
  {
    if plan == [] {
    } else {
      RunStepKeeps(p, plan[0], replies(p.tried));
      SuccessOfAll(RunStep(p, plan[0], replies(p.tried)), plan[1..], replies);
    }
  }

  lemma {:induction false} KeptLaunches(plan: seq<Step>, replies: nat -> Reply, n: nat)
    requires AllSucceed(plan, replies, n)
    ensures Launched(KeptSteps(plan, replies, n)) == Launched(plan)
  {
    if plan == [] {
    } else {
      KeptLaunches(plan[1..], replies, n + 1);
      LaunchedKept(plan[0], replies(n), KeptSteps(plan[1..], replies, n + 1));
    }
  }

  lemma LaunchedKept(step: Step, reply: Reply, rest: seq<Step>)
    requires Succeeds(step, reply)
    ensures Launched(KeptStep(step, reply) + rest) == IfLaunch(step) + Launched(rest)
  {
    if CarriedOut(step, reply) {
      LaunchedHead(step, rest);
    } else {
      assert KeptStep(step, reply) + rest == rest;
    }
  }

  lemma AllAfter(stage: Stage, a: seq<Component>, b: seq<Component>)
    ensures LaunchAll(stage, a) + LaunchAll(stage, b) == LaunchAll(stage, a + b)
  {
  }

  lemma PlannedLaunches(internal: seq<Component>, ntp: bool)
    ensures Launched(StartPlan(internal, ntp)) ==
              LaunchAll(Initialize, internal + INITIALIZE_ALL)
              + LaunchAll(StartStage, START_EARLY + internal + START_LATE)
              + LaunchAll(PostStart, POST_START_ALL + internal)
              + LaunchAll(Started, FINISH_ALL + internal)
  {
    PreStartLaunches(internal);
    RestLaunches(internal, ntp);
    FinishLaunches(internal);
    LaunchedConcat(PreStartPlan(internal), RestPlan(internal, ntp));
    LaunchedConcat(PreStartPlan(internal) + RestPlan(internal, ntp), FinishPlan(internal));
    AllAfter(Initialize, internal, INITIALIZE_ALL);
    AllAfter(StartStage, START_EARLY, internal);
    AllAfter(StartStage, START_EARLY + internal, START_LATE);
    AllAfter(PostStart, POST_START_ALL, internal);
    AllAfter(Started, FINISH_ALL, internal);
    Together(LaunchAll(Initialize, internal + INITIALIZE_ALL), LaunchAll(StartStage, START_EARLY),
             LaunchAll(StartStage, internal), LaunchAll(StartStage, START_LATE),
             LaunchAll(PostStart, POST_START_ALL), LaunchAll(PostStart, internal),
             LaunchAll(Started, FINISH_ALL), LaunchAll(Started, internal));
  }

  lemma Together(a: seq<Step>, b: seq<Step>, c: seq<Step>, d: seq<Step>, e: seq<Step>, f: seq<Step>, g: seq<Step>,
                 h: seq<Step>)
    ensures a + b + (c + d) + (e + f + g + h) == a + (b + c + d) + (e + f) + (g + h)
  {
  }

  lemma LaunchedParts(a: seq<Step>, b: seq<Step>, c: seq<Step>, d: seq<Step>)
    ensures Launched(a + b + c + d) == Launched(a) + Launched(b) + Launched(c) + Launched(d)
  {
    LaunchedConcat(a, b);
    LaunchedConcat(a + b, c);
    LaunchedConcat(a + b + c, d);
  }

  lemma LaunchesAfter(own: seq<Step>, a: seq<Step>, b: seq<Step>, c: seq<Step>)
    requires Launched(own) == [] && Launched(a) == a && Launched(b) == b && Launched(c) == c
    ensures Launched(own + a + b + c) == a + b + c
  {
    LaunchedParts(own, a, b, c);
    assert [] + a == a;
  }

  lemma OwnLaunchesNothing()
    ensures Launched([Acquire(LOG_FACTORY), Acquire(DEBUG_SERVER)]) == [] && Launched([Acquire(NTP_SERVICE)]) == []
  {
    assert [Acquire(LOG_FACTORY), Acquire(DEBUG_SERVER)] == [Acquire(LOG_FACTORY)] + [Acquire(DEBUG_SERVER)];
    LaunchedHead(Acquire(LOG_FACTORY), [Acquire(DEBUG_SERVER)]);
    assert [Acquire(DEBUG_SERVER)][1..] == [] && [Acquire(NTP_SERVICE)][1..] == [];
  }

  lemma PreStartLaunches(internal: seq<Component>)
    ensures Launched(PreStartPlan(internal)) ==
              LaunchAll(Initialize, internal) + LaunchAll(Initialize, INITIALIZE_ALL)
              + LaunchAll(StartStage, START_EARLY)
  {
    var own := [Acquire(LOG_FACTORY), Acquire(DEBUG_SERVER)];
    OwnLaunchesNothing();
    var a, b := LaunchAll(Initialize, internal), LaunchAll(Initialize, INITIALIZE_ALL);
    var c := LaunchAll(StartStage, START_EARLY);
    LaunchedAll(Initialize, internal);
    LaunchedAll(Initialize, INITIALIZE_ALL);
    LaunchedAll(StartStage, START_EARLY);
    LaunchesAfter(own, a, b, c);
  }

  lemma RestLaunches(internal: seq<Component>, ntp: bool)
    ensures Launched(RestPlan(internal, ntp)) == LaunchAll(StartStage, internal) + LaunchAll(StartStage, START_LATE)
  {
    var own := if ntp then [Acquire(NTP_SERVICE)] else [];
    OwnLaunchesNothing();
    LaunchedConcat(LaunchAll(StartStage, internal), own);
    LaunchedConcat(LaunchAll(StartStage, internal) + own, LaunchAll(StartStage, START_LATE));
    LaunchedAll(StartStage, internal);
    LaunchedAll(StartStage, START_LATE);
  }

  lemma FinishLaunches(internal: seq<Component>)
    ensures Launched(FinishPlan(internal)) ==
              LaunchAll(PostStart, POST_START_ALL) + LaunchAll(PostStart, internal)
              + LaunchAll(Started, FINISH_ALL) + LaunchAll(Started, internal)
  {
    var a, b := LaunchAll(PostStart, POST_START_ALL), LaunchAll(PostStart, internal);
    var c, d := LaunchAll(Started, FINISH_ALL), LaunchAll(Started, internal);
    LaunchedParts(a, b, c, d);
    LaunchedAll(PostStart, POST_START_ALL);
    LaunchedAll(PostStart, internal);
    LaunchedAll(Started, FINISH_ALL);
    LaunchedAll(Started, internal);
  }

  /** In a start without failure the components are invoked in this order. */
  lemma StartOrder(internal: seq<Component>, ntp: bool, replies: nat -> Reply)
    requires PlanSucceeds(Progress(0, [], []), StartPlan(internal, ntp), replies)
    ensures Launched(RunPlan(Progress(0, [], []), StartPlan(internal, ntp), replies).done) ==
              LaunchAll(Initialize, internal + [HTTP_CLIENT, NETWORK, DNS_TRANSPORT, DNS_ROUTER, CONNECTION, ROUTER,
                                                OUTBOUND, ENDPOINT, CERTIFICATE_PROVIDER, INBOUND, SERVICE])
              + LaunchAll(StartStage, [OUTBOUND, DNS_TRANSPORT, NETWORK, CONNECTION, HTTP_CLIENT, ROUTER, DNS_ROUTER]
                                      + internal + [ENDPOINT, CERTIFICATE_PROVIDER, INBOUND, SERVICE])
              + LaunchAll(PostStart, [OUTBOUND, NETWORK, DNS_TRANSPORT, DNS_ROUTER, CONNECTION, ROUTER, ENDPOINT,
                                      CERTIFICATE_PROVIDER, INBOUND, SERVICE] + internal)
              + LaunchAll(Started, [NETWORK, DNS_TRANSPORT, DNS_ROUTER, CONNECTION, ROUTER, OUTBOUND, ENDPOINT,
                                    CERTIFICATE_PROVIDER, INBOUND, SERVICE] + internal)
  {
    var p, plan := Progress(0, [], []), StartPlan(internal, ntp);
    DoneAreKept(plan, replies);
    SuccessOfAll(p, plan, replies);
    KeptLaunches(plan, replies, 0);
    PlannedLaunches(internal, ntp);
  }

  // ----- The order of a teardown after it -----

  function OwnersFrom(owners: seq<Owner>, steps: seq<Step>): seq<Owner>
    decreases |steps|
  {
    if steps == [] then owners else OwnersFrom(AddOwner(owners, steps[0]), steps[1..])
  }

  lemma {:induction false} OwnersSplit(a: seq<Step>, b: seq<Step>)
    ensures Owners(a + b) == OwnersFrom(Owners(a), b)
    decreases |b|
  {
    if b == [] {
      assert a + b == a;
    } else {
      assert a + b == (a + [b[0]]) + b[1..];
      OwnersSplit(a + [b[0]], b[1..]);
      OwnersOne(a, b[0]);
    }
  }

  lemma {:induction false} OwnersFromSplit(owners: seq<Owner>, a: seq<Step>, b: seq<Step>)
    ensures OwnersFrom(owners, a + b) == OwnersFrom(OwnersFrom(owners, a), b)
    decreases |a|
  {
    if a == [] {
      assert a + b == b;
    } else {
      assert (a + b)[1..] == a[1..] + b;
      OwnersFromSplit(AddOwner(owners, a[0]), a[1..], b);
    }
  }

  function ComponentOwners(comps: seq<Component>): seq<Owner> {
    seq(|comps|, i requires 0 <= i < |comps| => OfComponent(comps[i]))
  }

  /** Components that are launched for the first time come in the order of their launches. */
  lemma {:induction false} FirstLaunches(owners: seq<Owner>, stage: Stage, comps: seq<Component>)
    requires AllDifferent(comps) && forall i :: 0 <= i < |comps| ==> OfComponent(comps[i]) !in owners
    ensures OwnersFrom(owners, LaunchAll(stage, comps)) == owners + ComponentOwners(comps)
    decreases |comps|
  {
    if comps == [] {
    } else {
      var owners' := owners + [OfComponent(comps[0])];
      assert LaunchAll(stage, comps)[1..] == LaunchAll(stage, comps[1..]);
      FirstLaunches(owners', stage, comps[1..]);
      assert owners' + ComponentOwners(comps[1..]) == owners + ComponentOwners(comps);
    }
  }

  /** Further launches change nothing. */
  lemma {:induction false} LaterLaunches(owners: seq<Owner>, stage: Stage, comps: seq<Component>)
    requires forall i :: 0 <= i < |comps| ==> OfComponent(comps[i]) in owners
    ensures OwnersFrom(owners, LaunchAll(stage, comps)) == owners
    decreases |comps|
  {
    if comps == [] {
    } else {
      assert LaunchAll(stage, comps)[1..] == LaunchAll(stage, comps[1..]);
      LaterLaunches(owners, stage, comps[1..]);
    }
  }

  lemma {:induction false} AllKept(plan: seq<Step>, replies: nat -> Reply, n: nat)
    requires AllSucceed(plan, replies, n) && forall k :: 0 <= k < |plan| ==> plan[k] != Acquire(DEBUG_SERVER)
    ensures KeptSteps(plan, replies, n) == plan
  {
    if plan == [] {
    } else {
      AllKept(plan[1..], replies, n + 1);
      assert plan[0] != Acquire(DEBUG_SERVER);
      assert KeptStep(plan[0], replies(n)) == [plan[0]];
    }
  }

  /** The plan after the logger and the debug server. */
  function LaterPlan(internal: seq<Component>, ntp: bool): seq<Step> {
    LaunchAll(Initialize, internal) + LaunchAll(Initialize, INITIALIZE_ALL) + LaunchAll(StartStage, START_EARLY)
    + RestPlan(internal, ntp) + FinishPlan(internal)
  }

  predicate KnownAll(owners: seq<Owner>, comps: seq<Component>) {
    forall i :: 0 <= i < |comps| ==> OfComponent(comps[i]) in owners
  }

  /** Everything that is started later has been initialized first. */
  lemma InitializedFirst(owners: seq<Owner>, internal: seq<Component>, ntp: bool)
    requires AllDifferent(internal) && (forall i :: 0 <= i < |internal| ==> internal[i] >= FIRST_INTERNAL)
    requires forall o :: o in owners ==> o.OfBox?
    ensures OwnersFrom(owners, LaterPlan(internal, ntp)) ==
              owners + ComponentOwners(internal + INITIALIZE_ALL) + if ntp then [OfBox(NTP_SERVICE)] else []
  {
    var all := owners + ComponentOwners(internal + INITIALIZE_ALL);
    var first := LaunchAll(Initialize, internal) + LaunchAll(Initialize, INITIALIZE_ALL);
    AllAfter(Initialize, internal, INITIALIZE_ALL);
    ListsDiffer();
    forall i, j | 0 <= i < j < |internal + INITIALIZE_ALL|
      ensures (internal + INITIALIZE_ALL)[i] != (internal + INITIALIZE_ALL)[j]
    {
      if j >= |internal| {
        ListMembers(INITIALIZE_ALL[j - |internal|]);
      }
    }
    FirstLaunches(owners, Initialize, internal + INITIALIZE_ALL);
    OwnersFromSplit(owners, first, LaunchAll(StartStage, START_EARLY));
    OwnersFromSplit(owners, first + LaunchAll(StartStage, START_EARLY), RestPlan(internal, ntp));
    OwnersFromSplit(owners, first + LaunchAll(StartStage, START_EARLY) + RestPlan(internal, ntp), FinishPlan(internal));
    AllKnown(owners, internal);
    LaterLaunches(all, StartStage, START_EARLY);
    RestOwners(all, internal, ntp);
    var more := all + if ntp then [OfBox(NTP_SERVICE)] else [];
    FinishOwners(more, internal);
  }

  lemma AllKnown(owners: seq<Owner>, internal: seq<Component>)
    ensures var all := owners + ComponentOwners(internal + INITIALIZE_ALL);
            KnownAll(all, internal) && KnownAll(all, START_EARLY) && KnownAll(all, START_LATE) &&
            KnownAll(all, POST_START_ALL) && KnownAll(all, FINISH_ALL)
  {
    var all, comps := owners + ComponentOwners(internal + INITIALIZE_ALL), internal + INITIALIZE_ALL;
    forall i | 0 <= i < |comps|
      ensures OfComponent(comps[i]) in all
    {
      assert all[|owners| + i] == OfComponent(comps[i]);
    }
    forall i | 0 <= i < |internal|
      ensures OfComponent(internal[i]) in all
    {
      assert comps[i] == internal[i];
    }
    forall c: Component | c < FIRST_INTERNAL
      ensures OfComponent(c) in all
    {
      assert comps[|internal| + c] == INITIALIZE_ALL[c] == c;
    }
  }

  lemma RestOwners(owners: seq<Owner>, internal: seq<Component>, ntp: bool)
    requires KnownAll(owners, internal) && KnownAll(owners, START_LATE)
    ensures OwnersFrom(owners, RestPlan(internal, ntp)) == owners + if ntp then [OfBox(NTP_SERVICE)] else []
  {
    var own := if ntp then [Acquire(NTP_SERVICE)] else [];
    var more := owners + if ntp then [OfBox(NTP_SERVICE)] else [];
    OwnersFromSplit(owners, LaunchAll(StartStage, internal) + own, LaunchAll(StartStage, START_LATE));
    OwnersFromSplit(owners, LaunchAll(StartStage, internal), own);
    LaterLaunches(owners, StartStage, internal);
    assert [Acquire(NTP_SERVICE)][1..] == [] && owners + [] == owners;
    assert OwnersFrom(owners, own) == more;
    LaterLaunches(more, StartStage, START_LATE);
  }

  lemma FinishOwners(owners: seq<Owner>, internal: seq<Component>)
    requires KnownAll(owners, internal) && KnownAll(owners, POST_START_ALL) && KnownAll(owners, FINISH_ALL)
    ensures OwnersFrom(owners, FinishPlan(internal)) == owners
  {
    var a, b := LaunchAll(PostStart, POST_START_ALL), LaunchAll(PostStart, internal);
    var c, d := LaunchAll(Started, FINISH_ALL), LaunchAll(Started, internal);
    OwnersFromSplit(owners, a + b + c, d);
    OwnersFromSplit(owners, a + b, c);
    OwnersFromSplit(owners, a, b);
    LaterLaunches(owners, PostStart, POST_START_ALL);
    LaterLaunches(owners, PostStart, internal);
    LaterLaunches(owners, Started, FINISH_ALL);
    LaterLaunches(owners, Started, internal);
  }

  lemma NoDebugLater(internal: seq<Component>, ntp: bool)
    ensures var later := LaterPlan(internal, ntp); forall k :: 0 <= k < |later| ==> later[k] != Acquire(DEBUG_SERVER)
  {
  }

  lemma KeptOnSuccess(internal: seq<Component>, ntp: bool, replies: nat -> Reply)
    requires PlanSucceeds(Progress(0, [], []), StartPlan(internal, ntp), replies)
    ensures KeptSteps(StartPlan(internal, ntp), replies, 0) ==
              [Acquire(LOG_FACTORY)] + (if replies(1).absent then [] else [Acquire(DEBUG_SERVER)])
              + LaterPlan(internal, ntp)
  {
    LogFirst(internal, ntp);
    NoDebugLater(internal, ntp);
    SuccessOfAll(Progress(0, [], []), StartPlan(internal, ntp), replies);
    KeptFirstTwo(Acquire(LOG_FACTORY), Acquire(DEBUG_SERVER), LaterPlan(internal, ntp), replies);
    var debug := if replies(1).absent then [] else [Acquire(DEBUG_SERVER)];
    assert KeptStep(Acquire(LOG_FACTORY), replies(0)) == [Acquire(LOG_FACTORY)];
    assert KeptStep(Acquire(DEBUG_SERVER), replies(1)) == debug;
    Assoc([Acquire(LOG_FACTORY)], debug, LaterPlan(internal, ntp));
  }

  lemma LogFirst(internal: seq<Component>, ntp: bool)
    ensures StartPlan(internal, ntp) == [Acquire(LOG_FACTORY)] + ([Acquire(DEBUG_SERVER)] + LaterPlan(internal, ntp))
  {
  }

  lemma KeptHead(step: Step, rest: seq<Step>, replies: nat -> Reply, n: nat)
    requires Succeeds(step, replies(n))
    ensures KeptSteps([step] + rest, replies, n) == KeptStep(step, replies(n)) + KeptSteps(rest, replies, n + 1)
  {
    assert ([step] + rest)[1..] == rest;
  }

  lemma SucceedsHead(step: Step, rest: seq<Step>, replies: nat -> Reply, n: nat)
    requires AllSucceed([step] + rest, replies, n)
    ensures Succeeds(step, replies(n)) && AllSucceed(rest, replies, n + 1)
  {
    assert ([step] + rest)[1..] == rest;
  }

  lemma KeptFirstTwo(a: Step, b: Step, later: seq<Step>, replies: nat -> Reply)
    requires AllSucceed([a] + ([b] + later), replies, 0)
    requires forall k :: 0 <= k < |later| ==> later[k] != Acquire(DEBUG_SERVER)
    ensures Succeeds(a, replies(0)) && Succeeds(b, replies(1))
    ensures KeptSteps([a] + ([b] + later), replies, 0) == KeptStep(a, replies(0)) + (KeptStep(b, replies(1)) + later)
  {
    SucceedsHead(a, [b] + later, replies, 0);
    SucceedsHead(b, later, replies, 1);
    AllKept(later, replies, 2);
    KeptHead(a, [b] + later, replies, 0);
    KeptHead(b, later, replies, 1);
  }

  lemma ReverseOne<T>(x: T)
    ensures Reverse([x]) == [x]
  {
    assert [x][1..] == [];
  }

  lemma ReversedManagers()
    ensures Reverse(ComponentOwners(INITIALIZE_ALL)) ==
              ComponentOwners([SERVICE, INBOUND, CERTIFICATE_PROVIDER, ENDPOINT, OUTBOUND, ROUTER, CONNECTION,
                               DNS_ROUTER, DNS_TRANSPORT, NETWORK, HTTP_CLIENT])
  {
    ReversedAt(ComponentOwners(INITIALIZE_ALL));
  }

  lemma {:induction false} ReversedAt<T>(s: seq<T>)
    ensures |Reverse(s)| == |s|
    ensures forall k :: 0 <= k < |s| ==> Reverse(s)[k] == s[|s| - 1 - k]
  {
    if s == [] {
    } else {
      ReversedAt(s[1..]);
    }
  }

  /** After a start without failure the parts of a teardown are these, in this order: the NTP service, the managers from
      the services back to the HTTP client, the internal services from the last to the first, the debug server if there
      is one, and the logger. */
  lemma TeardownOrder(internal: seq<Component>, ntp: bool, replies: nat -> Reply)
    requires PlanSucceeds(Progress(0, [], []), StartPlan(internal, ntp), replies)
    requires AllDifferent(internal) && forall i :: 0 <= i < |internal| ==> internal[i] >= FIRST_INTERNAL
    ensures var nodes := RunPlan(Progress(0, [], []), StartPlan(internal, ntp), replies).nodes;
            && CloseOrder(nodes) == Joined(Blocks(nodes))
            && BlockOwners(Blocks(nodes)) ==
                 (if ntp then [OfBox(NTP_SERVICE)] else [])
                 + ComponentOwners([SERVICE, INBOUND, CERTIFICATE_PROVIDER, ENDPOINT, OUTBOUND, ROUTER, CONNECTION,
                                    DNS_ROUTER, DNS_TRANSPORT, NETWORK, HTTP_CLIENT])
                 + Reverse(ComponentOwners(internal))
                 + (if replies(1).absent then [] else [OfBox(DEBUG_SERVER)])
                 + [OfBox(LOG_FACTORY)]
  {
    TeardownMirrorsStart(internal, ntp, replies);
    KeptOnSuccess(internal, ntp, replies);
    SuccessOwners(internal, ntp, replies(1).absent);
    var own := [OfBox(LOG_FACTORY)] + if replies(1).absent then [] else [OfBox(DEBUG_SERVER)];
    ReverseOwners(own, internal, ntp, replies(1).absent);
  }

  lemma SuccessOwners(internal: seq<Component>, ntp: bool, absent: bool)
    requires AllDifferent(internal) && forall i :: 0 <= i < |internal| ==> internal[i] >= FIRST_INTERNAL
    ensures Owners([Acquire(LOG_FACTORY)] + (if absent then [] else [Acquire(DEBUG_SERVER)])
                   + LaterPlan(internal, ntp)) ==
              [OfBox(LOG_FACTORY)] + (if absent then [] else [OfBox(DEBUG_SERVER)])
              + ComponentOwners(internal + INITIALIZE_ALL) + if ntp then [OfBox(NTP_SERVICE)] else []
  {
    var own := [Acquire(LOG_FACTORY)] + if absent then [] else [Acquire(DEBUG_SERVER)];
    OwnersSplit(own, LaterPlan(internal, ntp));
    OwnOwners(absent);
    InitializedFirst(Owners(own), internal, ntp);
  }

  lemma OwnOwners(absent: bool)
    ensures Owners([Acquire(LOG_FACTORY)] + if absent then [] else [Acquire(DEBUG_SERVER)]) ==
              [OfBox(LOG_FACTORY)] + if absent then [] else [OfBox(DEBUG_SERVER)]
  {
    OwnersOne([], Acquire(LOG_FACTORY));
    assert [] + [Acquire(LOG_FACTORY)] == [Acquire(LOG_FACTORY)];
    if absent {
      assert [Acquire(LOG_FACTORY)] + [] == [Acquire(LOG_FACTORY)];
    } else {
      OwnersOne([Acquire(LOG_FACTORY)], Acquire(DEBUG_SERVER));
    }
  }

  lemma ReverseOwners(own: seq<Owner>, internal: seq<Component>, ntp: bool, absent: bool)
    requires own == [OfBox(LOG_FACTORY)] + if absent then [] else [OfBox(DEBUG_SERVER)]
    ensures Reverse(own + ComponentOwners(internal + INITIALIZE_ALL) + if ntp then [OfBox(NTP_SERVICE)] else []) ==
              (if ntp then [OfBox(NTP_SERVICE)] else [])
              + ComponentOwners([SERVICE, INBOUND, CERTIFICATE_PROVIDER, ENDPOINT, OUTBOUND, ROUTER, CONNECTION,
                                 DNS_ROUTER, DNS_TRANSPORT, NETWORK, HTTP_CLIENT])
              + Reverse(ComponentOwners(internal))
              + (if absent then [] else [OfBox(DEBUG_SERVER)])
              + [OfBox(LOG_FACTORY)]
  {
    var last: seq<Owner> := if ntp then [OfBox(NTP_SERVICE)] else [];
    var debug: seq<Owner> := if absent then [] else [OfBox(DEBUG_SERVER)];
    var comps := ComponentOwners(internal + INITIALIZE_ALL);
    ReverseConcat(own + comps, last);
    ReverseConcat(own, comps);
    ReverseConcat([OfBox(LOG_FACTORY)], debug);
    assert comps == ComponentOwners(internal) + ComponentOwners(INITIALIZE_ALL);
    ReverseConcat(ComponentOwners(internal), ComponentOwners(INITIALIZE_ALL));
    ReversedManagers();
    ReverseOne(OfBox(NTP_SERVICE));
    ReverseOne(OfBox(DEBUG_SERVER));
    ReverseOne(OfBox(LOG_FACTORY));
    assert Reverse(last) == last && Reverse(debug) == debug;
    Shuffle(last, Reverse(ComponentOwners(INITIALIZE_ALL)), Reverse(ComponentOwners(internal)), debug,
            [OfBox(LOG_FACTORY)]);
  }

  lemma Shuffle<T>(a: seq<T>, b: seq<T>, c: seq<T>, d: seq<T>, e: seq<T>)
    ensures a + ((b + c) + (d + e)) == a + b + c + d + e
  {
  }
}
