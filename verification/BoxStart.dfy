/**
 The staged start of a box and its teardown.  The box starts its managers and internal services stage by stage in one
 scope and stops at the first error; closing the box closes the scope.
 */
module BoxStart {
  import opened CleanupScope

  datatype Stage = Initialize | StartStage | PostStart | Started

  // The managers; internal services are the components from FIRST_INTERNAL on.
  const HTTP_CLIENT: Component := 0
  const NETWORK: Component := 1
  const DNS_TRANSPORT: Component := 2
  const DNS_ROUTER: Component := 3
  const CONNECTION: Component := 4
  const ROUTER: Component := 5
  const OUTBOUND: Component := 6
  const ENDPOINT: Component := 7
  const CERTIFICATE_PROVIDER: Component := 8
  const INBOUND: Component := 9
  const SERVICE: Component := 10
  const FIRST_INTERNAL: Component := 11

  // The cleanups that the box registers itself.
  const LOG_FACTORY := 0
  const DEBUG_SERVER := 1
  const NTP_SERVICE := 2

  /** A step of the start: a component is started at a stage, or the box acquires something of its own. */
  datatype Step = Launch(comp: Component, stage: Stage) | Acquire(id: nat)

  /** How a step goes: a context may have been cancelled by then, in which case a component is not started at all;
      the component does `body` in its scope; the step succeeds or fails.  Only the debug server may be absent. */
  datatype Reply = Reply(interrupted: bool, absent: bool, body: seq<Act>, ok: bool)

  /** The box so far: how many steps it has tried, those that were carried out, and its scope. */
  datatype Progress = Progress(tried: nat, done: seq<Step>, nodes: seq<Node>)

  predicate Succeeds(step: Step, reply: Reply) {
    reply.ok && (step.Launch? ==> !reply.interrupted)
  }

  function RunStep(p: Progress, step: Step, reply: Reply): Progress {
    match step
    case Launch(comp, _) =>
      if reply.interrupted then p.(tried := p.tried + 1)
      else Progress(p.tried + 1, p.done + [step], GrowOne(p.nodes, Start(comp, false, reply.body)))
    case Acquire(id) =>
      if !reply.ok || (id == DEBUG_SERVER && reply.absent) then p.(tried := p.tried + 1)
      else Progress(p.tried + 1, p.done + [step], p.nodes + [Leaf(id)])
  }

  /** Runs the steps of a plan until one of them fails. */
  function RunPlan(p: Progress, plan: seq<Step>, replies: nat -> Reply): Progress
    decreases |plan|
  {
    if plan == [] then p else
    var p' := RunStep(p, plan[0], replies(p.tried));
    if Succeeds(plan[0], replies(p.tried)) then RunPlan(p', plan[1..], replies) else p'
  }

  predicate PlanSucceeds(p: Progress, plan: seq<Step>, replies: nat -> Reply)
    decreases |plan|
  {
    plan == [] ||
    (Succeeds(plan[0], replies(p.tried)) && PlanSucceeds(RunStep(p, plan[0], replies(p.tried)), plan[1..], replies))
  }

  lemma {:induction false} PlansCompose(p: Progress, plan: seq<Step>, more: seq<Step>, replies: nat -> Reply)
    ensures PlanSucceeds(p, plan + more, replies) <==>
              PlanSucceeds(p, plan, replies) && PlanSucceeds(RunPlan(p, plan, replies), more, replies)
    ensures RunPlan(p, plan + more, replies) ==
              if PlanSucceeds(p, plan, replies) then RunPlan(RunPlan(p, plan, replies), more, replies)
              else RunPlan(p, plan, replies)
    decreases |plan|
  {
    if plan == [] {
      assert plan + more == more;
    } else {
      assert (plan + more)[1..] == plan[1..] + more;
      PlansCompose(RunStep(p, plan[0], replies(p.tried)), plan[1..], more, replies);
    }
  }

  // ----- The plan of the box -----

  function LaunchAll(stage: Stage, comps: seq<Component>): seq<Step> {
    seq(|comps|, i requires 0 <= i < |comps| => Launch(comps[i], stage))
  }

  const INITIALIZE_ALL := [HTTP_CLIENT, NETWORK, DNS_TRANSPORT, DNS_ROUTER, CONNECTION, ROUTER, OUTBOUND, ENDPOINT,
                           CERTIFICATE_PROVIDER, INBOUND, SERVICE]
  const START_EARLY := [OUTBOUND, DNS_TRANSPORT, NETWORK, CONNECTION, HTTP_CLIENT, ROUTER, DNS_ROUTER]
  const START_LATE := [ENDPOINT, CERTIFICATE_PROVIDER, INBOUND, SERVICE]
  const POST_START_ALL := [OUTBOUND, NETWORK, DNS_TRANSPORT, DNS_ROUTER, CONNECTION, ROUTER, ENDPOINT,
                           CERTIFICATE_PROVIDER, INBOUND, SERVICE]
  const FINISH_ALL := [NETWORK, DNS_TRANSPORT, DNS_ROUTER, CONNECTION, ROUTER, OUTBOUND, ENDPOINT,
                       CERTIFICATE_PROVIDER, INBOUND, SERVICE]

  function PreStartPlan(internal: seq<Component>): seq<Step> {
    [Acquire(LOG_FACTORY), Acquire(DEBUG_SERVER)]
    + LaunchAll(Initialize, internal) + LaunchAll(Initialize, INITIALIZE_ALL) + LaunchAll(StartStage, START_EARLY)
  }

  function RestPlan(internal: seq<Component>, ntp: bool): seq<Step> {
    LaunchAll(StartStage, internal)
    + (if ntp then [Acquire(NTP_SERVICE)] else [])
    + LaunchAll(StartStage, START_LATE)
  }

  function FinishPlan(internal: seq<Component>): seq<Step> {
    LaunchAll(PostStart, POST_START_ALL) + LaunchAll(PostStart, internal)
    + LaunchAll(Started, FINISH_ALL) + LaunchAll(Started, internal)
  }

  function StartPlan(internal: seq<Component>, ntp: bool): seq<Step> {
    PreStartPlan(internal) + RestPlan(internal, ntp) + FinishPlan(internal)
  }

  // ----- The box -----

  class Box {
    const scope: Scope
    const internal: seq<Component>
    const ntp: bool
    const replies: nat -> Reply
    const outcomes: nat -> Outcome
    var tried: nat
    var done: seq<Step>
    var quiesced: bool
    var quiesceCalls: nat

    constructor (internal: seq<Component>, ntp: bool, replies: nat -> Reply, outcomes: nat -> Outcome)
      ensures Valid() && fresh(scope.Repr) && Value() == Progress(0, [], []) && !quiesced && quiesceCalls == 0
      ensures this.internal == internal && this.ntp == ntp && this.replies == replies && this.outcomes == outcomes
    {
      this.internal, this.ntp, this.replies, this.outcomes := internal, ntp, replies, outcomes;
      tried, done, quiesced, quiesceCalls := 0, [], false, 0;
      scope := new Scope();
    }

    ghost predicate Valid()
      reads this, scope, scope.Repr
    {
      scope.Valid() && !scope.cancelled && this !in scope.Repr
    }

    ghost function Value(): Progress
      reads this, scope
    {
      Progress(tried, done, scope.tree)
    }

    method Launches(comp: Component, stage: Stage) returns (ok: bool)
      requires Valid()
      modifies this`tried, this`done, scope.Repr
      ensures Valid() && fresh(scope.Repr - old(scope.Repr))
      ensures Value() == RunStep(old(Value()), Launch(comp, stage), replies(old(tried)))
      ensures ok <==> Succeeds(Launch(comp, stage), replies(old(tried)))
    {
      var reply := replies(tried);
      tried := tried + 1;
      var invoked := scope.StartComponent(comp, reply.interrupted, reply.body);
      if !invoked {
        return false;
      }
      done := done + [Launch(comp, stage)];
      ok := reply.ok;
    }

    method Acquires(id: nat) returns (ok: bool)
      requires Valid()
      modifies this`tried, this`done, scope.Repr
      ensures Valid() && fresh(scope.Repr - old(scope.Repr))
      ensures Value() == RunStep(old(Value()), Acquire(id), replies(old(tried)))
      ensures ok <==> Succeeds(Acquire(id), replies(old(tried)))
    {
      var reply := replies(tried);
      tried := tried + 1;
      if !reply.ok {
        return false;
      }
      if id != DEBUG_SERVER || !reply.absent {
        scope.AddCleanup(id);
        done := done + [Acquire(id)];
      }
      ok := true;
    }

    /** Starts some components one after the other up to the first that fails or that a cancelled context keeps from
        being started; only the latter is not invoked. */
    method StartComponents(stage: Stage, comps: seq<Component>) returns (ok: bool)
      requires Valid()
      modifies this`tried, this`done, scope.Repr
      ensures Valid() && fresh(scope.Repr - old(scope.Repr))
      ensures Value() == RunPlan(old(Value()), LaunchAll(stage, comps), replies)
      ensures ok <==> PlanSucceeds(old(Value()), LaunchAll(stage, comps), replies)
      ensures ok ==> forall k :: old(tried) <= k < tried ==> replies(k).ok && !replies(k).interrupted
      ensures !ok ==> tried > old(tried) && (!replies(tried - 1).ok || replies(tried - 1).interrupted)
    {
      LaunchesStop(Value(), stage, comps, replies);
      for k := 0 to |comps|
        invariant Valid() && fresh(scope.Repr - old(scope.Repr))
        invariant Value() == RunPlan(old(Value()), LaunchAll(stage, comps[..k]), replies)
        invariant PlanSucceeds(old(Value()), LaunchAll(stage, comps[..k]), replies)
      {
        LaunchesCompose(old(Value()), stage, comps, k, replies);
        ok := Launches(comps[k], stage);
        if !ok {
          return;
        }
      }
      assert comps[..|comps|] == comps;
      ok := true;
    }

    method PreStart() returns (ok: bool)
      requires Valid()
      modifies this`tried, this`done, scope.Repr
      ensures Valid() && fresh(scope.Repr - old(scope.Repr))
      ensures Value() == RunPlan(old(Value()), PreStartPlan(internal), replies)
      ensures ok <==> PlanSucceeds(old(Value()), PreStartPlan(internal), replies)
    {
      ghost var p, plan := Value(), [Acquire(LOG_FACTORY)];
      PlanOfOne(p, Acquire(LOG_FACTORY), replies);
      ok := Acquires(LOG_FACTORY);
      PlanOfOne(Value(), Acquire(DEBUG_SERVER), replies);
      PlansCompose(p, plan, [Acquire(DEBUG_SERVER)], replies);
      if ok {
        ok := Acquires(DEBUG_SERVER);
      }
      plan := [Acquire(LOG_FACTORY), Acquire(DEBUG_SERVER)];
      PlansCompose(p, plan, LaunchAll(Initialize, internal), replies);
      if ok {
        ok := StartComponents(Initialize, internal);
      }
      plan := plan + LaunchAll(Initialize, internal);
      PlansCompose(p, plan, LaunchAll(Initialize, INITIALIZE_ALL), replies);
      if ok {
        ok := StartComponents(Initialize, INITIALIZE_ALL);
      }
      plan := plan + LaunchAll(Initialize, INITIALIZE_ALL);
      PlansCompose(p, plan, LaunchAll(StartStage, START_EARLY), replies);
      if ok {
        ok := StartComponents(StartStage, START_EARLY);
      }
    }

    /** The rest of the start stage. */
    method StartRest() returns (ok: bool)
      requires Valid()
      modifies this`tried, this`done, scope.Repr
      ensures Valid() && fresh(scope.Repr - old(scope.Repr))
      ensures Value() == RunPlan(old(Value()), RestPlan(internal, ntp), replies)
      ensures ok <==> PlanSucceeds(old(Value()), RestPlan(internal, ntp), replies)
    {
      ghost var p, plan := Value(), LaunchAll(StartStage, internal);
      ok := StartComponents(StartStage, internal);
      PlanOfOne(Value(), Acquire(NTP_SERVICE), replies);
      PlansCompose(p, plan, if ntp then [Acquire(NTP_SERVICE)] else [], replies);
      if ok && ntp {
        ok := Acquires(NTP_SERVICE);
      }
      plan := plan + if ntp then [Acquire(NTP_SERVICE)] else [];
      PlansCompose(p, plan, LaunchAll(StartStage, START_LATE), replies);
      if ok {
        ok := StartComponents(StartStage, START_LATE);
      }
    }

    /** The last two stages. */
    method Finish() returns (ok: bool)
      requires Valid()
      modifies this`tried, this`done, scope.Repr
      ensures Valid() && fresh(scope.Repr - old(scope.Repr))
      ensures Value() == RunPlan(old(Value()), FinishPlan(internal), replies)
      ensures ok <==> PlanSucceeds(old(Value()), FinishPlan(internal), replies)
    {
      ghost var p, plan := Value(), LaunchAll(PostStart, POST_START_ALL);
      ok := StartComponents(PostStart, POST_START_ALL);
      PlansCompose(p, plan, LaunchAll(PostStart, internal), replies);
      if ok {
        ok := StartComponents(PostStart, internal);
      }
      plan := plan + LaunchAll(PostStart, internal);
      PlansCompose(p, plan, LaunchAll(Started, FINISH_ALL), replies);
      if ok {
        ok := StartComponents(Started, FINISH_ALL);
      }
      plan := plan + LaunchAll(Started, FINISH_ALL);
      PlansCompose(p, plan, LaunchAll(Started, internal), replies);
      if ok {
        ok := StartComponents(Started, internal);
      }
    }

    /** Starts everything: before the start, the start, and after it.  Stops at the first error. */
    method StartAll() returns (ok: bool)
      requires Valid()
      modifies this`tried, this`done, scope.Repr
      ensures Valid() && fresh(scope.Repr - old(scope.Repr))
      ensures Value() == RunPlan(old(Value()), StartPlan(internal, ntp), replies)
      ensures ok <==> PlanSucceeds(old(Value()), StartPlan(internal, ntp), replies)
    {
      ghost var p := Value();
      ok := PreStart();
      PlansCompose(p, PreStartPlan(internal), RestPlan(internal, ntp), replies);
      if ok {
        ok := StartRest();
      }
      PlansCompose(p, PreStartPlan(internal) + RestPlan(internal, ntp), FinishPlan(internal), replies);
      if ok {
        ok := Finish();
      }
    }

    /** Starts the box; a failed start closes it again. */
    method StartBox() returns (ok: bool, ran: seq<Mark>)
      requires Valid()
      modifies this, scope.Repr
      ensures Progress(tried, done, []) == RunPlan(old(Value()), StartPlan(internal, ntp), replies).(nodes := [])
      ensures ok <==> PlanSucceeds(old(Value()), StartPlan(internal, ntp), replies)
      ensures ok ==> forall k :: old(tried) <= k < tried ==> replies(k).ok
      ensures !ok ==> tried > old(tried) && (!replies(tried - 1).ok || replies(tried - 1).interrupted)
      ensures !ok ==> forall k :: old(tried) <= k < tried - 1 ==> replies(k).ok
      ensures var nodes := RunPlan(old(Value()), StartPlan(internal, ntp), replies).nodes;
              if ok then Valid() && scope.tree == nodes && ran == []
              else scope.Valid() && scope.cancelled && scope.tree == [] && ran == CloseOrder(nodes)
    {
      StopsAtFirstError(Value(), StartPlan(internal, ntp), replies);
      ran := [];
      ok := StartAll();
      if !ok {
        var failures;
        ran, failures := CloseBox();
      }
    }

    /** Closes the box; returns what ran and what failed.  Only the first call quiesces the router. */
    method CloseBox() returns (ran: seq<Mark>, failures: seq<Failure>)
      requires scope.Valid() && this !in scope.Repr
      modifies this`quiesced, this`quiesceCalls, scope.Repr
      ensures scope.Valid() && scope.cancelled && scope.tree == [] && scope.Repr == old(scope.Repr)
      ensures ran == CloseOrder(old(scope.tree)) && Causes(failures) == Reported(ran, outcomes)
      ensures quiesced && quiesceCalls == old(quiesceCalls) + if old(quiesced) then 0 else 1
    {
      if !quiesced {
        quiesced := true;
        quiesceCalls := quiesceCalls + 1;
      }
      ran, failures := scope.Close(outcomes);
    }
  }

  /** A plan is tried step by step, and its last step tried is the first one that fails: the step returned an error, or
      a cancelled context kept a component from being started. */
  lemma {:induction false} StopsAtFirstError(p: Progress, plan: seq<Step>, replies: nat -> Reply)
    ensures var n := RunPlan(p, plan, replies).tried - p.tried;
            && 0 <= n <= |plan|
            && (PlanSucceeds(p, plan, replies) ==> n == |plan|)
            && (forall k :: p.tried <= k < p.tried + n && (k < p.tried + n - 1 || PlanSucceeds(p, plan, replies)) ==>
                  replies(k).ok && (plan[k - p.tried].Launch? ==> !replies(k).interrupted))
            && (!PlanSucceeds(p, plan, replies) ==>
                  && n > 0
                  && var last := replies(p.tried + n - 1); !last.ok || (plan[n - 1].Launch? && last.interrupted))
    decreases |plan|
  {
    if plan == [] {
    } else if Succeeds(plan[0], replies(p.tried)) {
      var p', rest := RunStep(p, plan[0], replies(p.tried)), plan[1..];
      StopsAtFirstError(p', rest, replies);
      var n := RunPlan(p, plan, replies).tried - p.tried;
      forall k | p.tried <= k < p.tried + n && (k < p.tried + n - 1 || PlanSucceeds(p, plan, replies))
        ensures replies(k).ok && (plan[k - p.tried].Launch? ==> !replies(k).interrupted)
      {
        if k > p.tried {
          assert plan[k - p.tried] == rest[k - p'.tried];
        }
      }
    } else {
    }
  }

  lemma LaunchesStop(p: Progress, stage: Stage, comps: seq<Component>, replies: nat -> Reply)
    ensures var p' := RunPlan(p, LaunchAll(stage, comps), replies);
            if PlanSucceeds(p, LaunchAll(stage, comps), replies)
            then forall k :: p.tried <= k < p'.tried ==> replies(k).ok && !replies(k).interrupted
            else p'.tried > p.tried && (!replies(p'.tried - 1).ok || replies(p'.tried - 1).interrupted)
  {
    StopsAtFirstError(p, LaunchAll(stage, comps), replies);
  }

  lemma PlanOfOne(p: Progress, step: Step, replies: nat -> Reply)
    ensures RunPlan(p, [step], replies) == RunStep(p, step, replies(p.tried))
    ensures PlanSucceeds(p, [step], replies) <==> Succeeds(step, replies(p.tried))
  {
    assert [step][1..] == [];
  }

  lemma LaunchesCompose(p: Progress, stage: Stage, comps: seq<Component>, k: nat, replies: nat -> Reply)
    requires k < |comps| && PlanSucceeds(p, LaunchAll(stage, comps[..k]), replies)
    ensures var p' := RunPlan(p, LaunchAll(stage, comps[..k]), replies);
            var step, reply := Launch(comps[k], stage), replies(p'.tried);
            && RunPlan(p, LaunchAll(stage, comps[..k + 1]), replies) == RunStep(p', step, reply)
            && (PlanSucceeds(p, LaunchAll(stage, comps[..k + 1]), replies) <==> Succeeds(step, reply))
            && (!Succeeds(step, reply) ==>
                  && RunPlan(p, LaunchAll(stage, comps), replies) == RunStep(p', step, reply)
                  && !PlanSucceeds(p, LaunchAll(stage, comps), replies))
  {
    var step := Launch(comps[k], stage);
    assert LaunchAll(stage, comps[..k + 1]) == LaunchAll(stage, comps[..k]) + [step];
    assert LaunchAll(stage, comps) == LaunchAll(stage, comps[..k]) + ([step] + LaunchAll(stage, comps[k + 1..]));
    assert [step][1..] == [];
    PlansCompose(p, LaunchAll(stage, comps[..k]), [step], replies);
    PlansCompose(p, LaunchAll(stage, comps[..k]), [step] + LaunchAll(stage, comps[k + 1..]), replies);
  }
}
