/** What a start and a teardown of the box have to do with each other, wherever the start failed. */
module BoxTeardown {
  import opened CleanupScope
  import opened BoxStart

  datatype Owner = OfComponent(comp: Component) | OfBox(id: nat)

  function NodeOwner(node: Node): Owner {
    if node.Child? then OfComponent(node.comp) else OfBox(node.id)
  }

  /** Whom the cleanups of a scope belong to, in the order in which they will be closed last. */
  function TopOwners(nodes: seq<Node>): seq<Owner> {
    seq(|nodes|, i requires 0 <= i < |nodes| => NodeOwner(nodes[i]))
  }

  function AddOwner(owners: seq<Owner>, step: Step): seq<Owner> {
    match step
    case Launch(comp, _) => if OfComponent(comp) in owners then owners else owners + [OfComponent(comp)]
    case Acquire(id) => owners + [OfBox(id)]
  }

  /** The components that were started, in the order of their first start, and what the box acquired in between. */
  function Owners(done: seq<Step>): seq<Owner> {
    if done == [] then [] else AddOwner(Owners(done[..|done| - 1]), done[|done| - 1])
  }

  /** A step is carried out unless a cancelled context keeps a component from being started, or what the box wants
      to acquire is not to be had. */
  predicate CarriedOut(step: Step, reply: Reply) {
    if step.Launch? then !reply.interrupted else reply.ok && !(step.id == DEBUG_SERVER && reply.absent)
  }

  /** The steps up to and including the first one that fails. */
  function Tried(plan: seq<Step>, replies: nat -> Reply, n: nat): nat {
    if plan == [] then 0
    else if Succeeds(plan[0], replies(n)) then 1 + Tried(plan[1..], replies, n + 1)
    else 1
  }

  function KeptStep(step: Step, reply: Reply): seq<Step> {
    if CarriedOut(step, reply) then [step] else []
  }

  function KeptSteps(plan: seq<Step>, replies: nat -> Reply, n: nat): seq<Step> {
    if plan == [] then [] else
    KeptStep(plan[0], replies(n)) + if Succeeds(plan[0], replies(n)) then KeptSteps(plan[1..], replies, n + 1) else []
  }

  lemma RunStepKeeps(p: Progress, step: Step, reply: Reply)
    ensures RunStep(p, step, reply).tried == p.tried + 1
    ensures RunStep(p, step, reply).done == p.done + KeptStep(step, reply)
  {
  }

  lemma {:induction false} RunTries(p: Progress, plan: seq<Step>, replies: nat -> Reply)
    ensures RunPlan(p, plan, replies).tried == p.tried + Tried(plan, replies, p.tried)
    decreases |plan|
  {
    if plan == [] {
    } else {
      RunStepKeeps(p, plan[0], replies(p.tried));
      RunTries(RunStep(p, plan[0], replies(p.tried)), plan[1..], replies);
    }
  }

  lemma Regroup<X>(a: seq<X>, b: seq<X>, c: seq<X>)
    ensures a + (b + c) == (a + b) + c
  {
  }

  lemma {:induction false} RunKeeps(p: Progress, plan: seq<Step>, replies: nat -> Reply)
    ensures RunPlan(p, plan, replies).done == p.done + KeptSteps(plan, replies, p.tried)
    decreases |plan|
  {
    if plan == [] {
    } else {
      var p' := RunStep(p, plan[0], replies(p.tried));
      RunStepKeeps(p, plan[0], replies(p.tried));
      if Succeeds(plan[0], replies(p.tried)) {
        RunKeeps(p', plan[1..], replies);
        Regroup(p.done, KeptStep(plan[0], replies(p.tried)), KeptSteps(plan[1..], replies, p'.tried));
      } else {
        Regroup(p.done, KeptStep(plan[0], replies(p.tried)), []);
      }
    }
  }

  lemma OwnersOne(done: seq<Step>, step: Step)
    ensures Owners(done + [step]) == AddOwner(Owners(done), step)
  {
    assert (done + [step])[..|done|] == done;
  }

  lemma StepOwners(p: Progress, step: Step, reply: Reply)
    requires TopOwners(p.nodes) == Owners(p.done)
    ensures var p' := RunStep(p, step, reply); TopOwners(p'.nodes) == Owners(p'.done)
  {
    OwnersOne(p.done, step);
    if step.Launch? && !reply.interrupted {
      var i := Find(p.nodes, step.comp);
      assert i < |p.nodes| ==> TopOwners(p.nodes)[i] == OfComponent(step.comp);
      assert OfComponent(step.comp) in TopOwners(p.nodes) <==> i < |p.nodes|;
    }
  }

  lemma {:induction false} PlanOwners(p: Progress, plan: seq<Step>, replies: nat -> Reply)
    requires TopOwners(p.nodes) == Owners(p.done)
    ensures var p' := RunPlan(p, plan, replies); TopOwners(p'.nodes) == Owners(p'.done)
    decreases |plan|
  {
    if plan == [] {
    } else {
      StepOwners(p, plan[0], replies(p.tried));
      PlanOwners(RunStep(p, plan[0], replies(p.tried)), plan[1..], replies);
    }
  }

  lemma {:induction false} OwnersOnce(done: seq<Step>)
    ensures forall i, j :: 0 <= i < j < |Owners(done)| && Owners(done)[i].OfComponent? ==>
              Owners(done)[i] != Owners(done)[j]
    ensures forall comp :: OfComponent(comp) in Owners(done) <==>
              exists k :: 0 <= k < |done| && done[k].Launch? && done[k].comp == comp
  {
    if done == [] {
    } else {
      OwnersOnce(done[..|done| - 1]);
    }
  }

  // ----- Closing goes owner by owner -----

  /** The parts of a teardown, one for each owner, last registered first. */
  function Blocks(nodes: seq<Node>): seq<seq<Mark>> {
    if nodes == [] then [] else Blocks(nodes[1..]) + [CloseNode(nodes[0])]
  }

  function Joined(blocks: seq<seq<Mark>>): seq<Mark> {
    if blocks == [] then [] else Joined(blocks[..|blocks| - 1]) + blocks[|blocks| - 1]
  }

  /** Whose part of the teardown it is. */
  function BlockOwner(block: seq<Mark>): Owner {
    if block != [] && block[0].Turn? then OfComponent(block[0].comp)
    else if block != [] then OfBox(block[0].id) else OfBox(0)
  }

  function BlockOwners(blocks: seq<seq<Mark>>): seq<Owner> {
    seq(|blocks|, i requires 0 <= i < |blocks| => BlockOwner(blocks[i]))
  }

  lemma {:induction false} CloseInBlocks(nodes: seq<Node>)
    ensures CloseOrder(nodes) == Joined(Blocks(nodes))
  {
    if nodes == [] {
    } else {
      CloseInBlocks(nodes[1..]);
      var blocks := Blocks(nodes[1..]) + [CloseNode(nodes[0])];
      assert blocks[..|blocks| - 1] == Blocks(nodes[1..]);
      assert blocks[|blocks| - 1] == CloseNode(nodes[0]);
    }
  }

  lemma CloseNodeOwner(node: Node)
    ensures BlockOwner(CloseNode(node)) == NodeOwner(node)
  {
    match node
    case Leaf(_) =>
    case Child(comp, nodes) => assert CloseNode(node)[0] == Turn(comp);
  }

  lemma {:induction false} BlocksOfOwners(nodes: seq<Node>)
    ensures BlockOwners(Blocks(nodes)) == Reverse(TopOwners(nodes))
  {
    if nodes == [] {
    } else {
      BlocksOfOwners(nodes[1..]);
      CloseNodeOwner(nodes[0]);
      assert TopOwners(nodes)[1..] == TopOwners(nodes[1..]);
      var before, block := Blocks(nodes[1..]), CloseNode(nodes[0]);
      assert BlockOwners(before + [block]) == BlockOwners(before) + [BlockOwner(block)];
    }
  }

  /** For every list of internal services and every way the start may go: the teardown consists of one part for each
      component whose start was invoked, the one that failed included, and for each thing the box acquired, in the
      reverse of the order in which they first came up. */
  lemma TeardownMirrorsStart(internal: seq<Component>, ntp: bool, replies: nat -> Reply)
    ensures var plan := StartPlan(internal, ntp);
            var p := RunPlan(Progress(0, [], []), plan, replies);
            var blocks := Blocks(p.nodes);
            && p.tried == Tried(plan, replies, 0)
            && p.done == KeptSteps(plan, replies, 0)
            && CloseOrder(p.nodes) == Joined(blocks)
            && BlockOwners(blocks) == Reverse(Owners(p.done))
  {
    var plan := StartPlan(internal, ntp);
    var p := RunPlan(Progress(0, [], []), plan, replies);
    RunTries(Progress(0, [], []), plan, replies);
    RunKeeps(Progress(0, [], []), plan, replies);
    assert TopOwners([]) == Owners([]);
    PlanOwners(Progress(0, [], []), plan, replies);
    CloseInBlocks(p.nodes);
    BlocksOfOwners(p.nodes);
  }

  // ----- The stages each component goes through -----

  function StagesOf(steps: seq<Step>, comp: Component): seq<Stage> {
    if steps == [] then [] else
    (if steps[0].Launch? && steps[0].comp == comp then [steps[0].stage] else []) + StagesOf(steps[1..], comp)
  }

  lemma {:induction false} StagesConcat(steps: seq<Step>, more: seq<Step>, comp: Component)
    ensures StagesOf(steps + more, comp) == StagesOf(steps, comp) + StagesOf(more, comp)
  {
    if steps == [] {
      assert steps + more == more;
    } else {
      assert (steps + more)[1..] == steps[1..] + more;
      StagesConcat(steps[1..], more, comp);
    }
  }

  function Count(comps: seq<Component>, comp: Component): nat {
    if comps == [] then 0 else (if comps[0] == comp then 1 else 0) + Count(comps[1..], comp)
  }

  function Repeat(stage: Stage, n: nat): seq<Stage> {
    seq(n, _ => stage)
  }

  lemma {:induction false} StagesOfLaunches(stage: Stage, comps: seq<Component>, comp: Component)
    ensures StagesOf(LaunchAll(stage, comps), comp) == Repeat(stage, Count(comps, comp))
  {
    if comps == [] {
    } else {
      assert LaunchAll(stage, comps)[1..] == LaunchAll(stage, comps[1..]);
      StagesOfLaunches(stage, comps[1..], comp);
    }
  }

  ghost predicate AllDifferent(comps: seq<Component>) {
    forall i, j :: 0 <= i < j < |comps| ==> comps[i] != comps[j]
  }

  lemma {:induction false} CountDifferent(comps: seq<Component>, comp: Component)
    requires AllDifferent(comps)
    ensures Count(comps, comp) == if comp in comps then 1 else 0
  {
    if comps == [] {
    } else {
      CountDifferent(comps[1..], comp);
    }
  }

  /** A step that succeeds has the stages of the plan's step: what is absent has none anyway. */
  lemma KeptStepStages(step: Step, reply: Reply, comp: Component)
    requires Succeeds(step, reply)
    ensures StagesOf(KeptStep(step, reply), comp) == StagesOf([step], comp)
  {
    StagesOfOne(step, comp);
  }

  lemma StagesOfHead(steps: seq<Step>, comp: Component)
    requires steps != []
    ensures StagesOf(steps, comp) == StagesOf([steps[0]], comp) + StagesOf(steps[1..], comp)
  {
    StagesOfOne(steps[0], comp);
  }

  lemma {:induction false} KeptStages(p: Progress, plan: seq<Step>, replies: nat -> Reply, comp: Component)
    requires PlanSucceeds(p, plan, replies)
    ensures StagesOf(KeptSteps(plan, replies, p.tried), comp) == StagesOf(plan, comp)
    decreases |plan|
  {
    if plan == [] {
    } else {
      var step, reply := plan[0], replies(p.tried);
      RunStepKeeps(p, step, reply);
      KeptStages(RunStep(p, step, reply), plan[1..], replies, comp);
      StagesConcat(KeptStep(step, reply), KeptSteps(plan[1..], replies, p.tried + 1), comp);
      KeptStepStages(step, reply, comp);
      StagesOfHead(plan, comp);
    }
  }

  lemma StagesOfOne(step: Step, comp: Component)
    ensures StagesOf([step], comp) == if step.Launch? && step.comp == comp then [step.stage] else []
  {
    assert [step][1..] == [];
  }

  /** Once the start has succeeded, the steps carried out have the stages of the plan. */
  lemma StagesOfSuccess(internal: seq<Component>, ntp: bool, replies: nat -> Reply, comp: Component)
    requires PlanSucceeds(Progress(0, [], []), StartPlan(internal, ntp), replies)
    ensures StagesOf(RunPlan(Progress(0, [], []), StartPlan(internal, ntp), replies).done, comp) ==
              StagesOf(StartPlan(internal, ntp), comp)
  {
    var p, plan := Progress(0, [], []), StartPlan(internal, ntp);
    RunKeeps(p, plan, replies);
    assert [] + KeptSteps(plan, replies, 0) == KeptSteps(plan, replies, 0);
    KeptStages(p, plan, replies, comp);
  }

  lemma ListsDiffer()
    ensures AllDifferent(INITIALIZE_ALL) && AllDifferent(START_EARLY) && AllDifferent(START_LATE)
    ensures AllDifferent(POST_START_ALL) && AllDifferent(FINISH_ALL)
  {
  }

  lemma ListMembers(comp: Component)
    ensures comp in INITIALIZE_ALL <==> comp < FIRST_INTERNAL
    ensures comp in START_EARLY <==> comp < ENDPOINT
    ensures comp in START_LATE <==> ENDPOINT <= comp < FIRST_INTERNAL
    ensures comp in POST_START_ALL <==> 0 < comp < FIRST_INTERNAL
    ensures comp in FINISH_ALL <==> 0 < comp < FIRST_INTERNAL
  {
    assert comp < FIRST_INTERNAL ==> INITIALIZE_ALL[comp] == comp;
    var early := [4, 2, 1, 6, 3, 5, 0];
    assert comp < ENDPOINT ==> START_EARLY[early[comp]] == comp;
    assert ENDPOINT <= comp < FIRST_INTERNAL ==> START_LATE[comp - ENDPOINT] == comp;
    var post := [0, 1, 2, 3, 4, 5, 0, 6, 7, 8, 9];
    assert 0 < comp < FIRST_INTERNAL ==> POST_START_ALL[post[comp]] == comp;
    assert 0 < comp < FIRST_INTERNAL ==> FINISH_ALL[comp - 1] == comp;
  }

  /** How often a manager is listed. */
  lemma ManagerCounts(comp: Component)
    ensures Count(INITIALIZE_ALL, comp) == if comp < FIRST_INTERNAL then 1 else 0
    ensures Count(START_EARLY, comp) + Count(START_LATE, comp) == if comp < FIRST_INTERNAL then 1 else 0
    ensures Count(POST_START_ALL, comp) == if 0 < comp < FIRST_INTERNAL then 1 else 0
    ensures Count(FINISH_ALL, comp) == if 0 < comp < FIRST_INTERNAL then 1 else 0
  {
    ListsDiffer();
    ListMembers(comp);
    CountDifferent(INITIALIZE_ALL, comp);
    CountDifferent(START_EARLY, comp);
    CountDifferent(START_LATE, comp);
    CountDifferent(POST_START_ALL, comp);
    CountDifferent(FINISH_ALL, comp);
  }

  /** The stages that the plan has for a component, manager or internal service. */
  lemma PlannedStages(internal: seq<Component>, ntp: bool, comp: Component)
    ensures var n := Count(internal, comp);
            StagesOf(StartPlan(internal, ntp), comp) ==
              Stages(n, Count(INITIALIZE_ALL, comp), Count(START_EARLY, comp), Count(START_LATE, comp),
                     Count(POST_START_ALL, comp), Count(FINISH_ALL, comp))
  {
    PreStartStages(internal, comp);
    RestStages(internal, ntp, comp);
    FinishStages(internal, comp);
    StagesConcat(PreStartPlan(internal), RestPlan(internal, ntp), comp);
    StagesConcat(PreStartPlan(internal) + RestPlan(internal, ntp), FinishPlan(internal), comp);
  }

  lemma PreStartStages(internal: seq<Component>, comp: Component)
    ensures StagesOf(PreStartPlan(internal), comp) ==
              Repeat(Initialize, Count(internal, comp)) + Repeat(Initialize, Count(INITIALIZE_ALL, comp))
              + Repeat(StartStage, Count(START_EARLY, comp))
  {
    var own := [Acquire(LOG_FACTORY), Acquire(DEBUG_SERVER)];
    assert own[1..] == [Acquire(DEBUG_SERVER)] && own[1..][1..] == [];
    var a, b := LaunchAll(Initialize, internal), LaunchAll(Initialize, INITIALIZE_ALL);
    var c := LaunchAll(StartStage, START_EARLY);
    StagesConcat(own, a, comp);
    StagesConcat(own + a, b, comp);
    StagesConcat(own + a + b, c, comp);
    StagesOfLaunches(Initialize, internal, comp);
    StagesOfLaunches(Initialize, INITIALIZE_ALL, comp);
    StagesOfLaunches(StartStage, START_EARLY, comp);
  }

  lemma RestStages(internal: seq<Component>, ntp: bool, comp: Component)
    ensures StagesOf(RestPlan(internal, ntp), comp) ==
              Repeat(StartStage, Count(internal, comp)) + Repeat(StartStage, Count(START_LATE, comp))
  {
    var own := if ntp then [Acquire(NTP_SERVICE)] else [];
    assert [Acquire(NTP_SERVICE)][1..] == [];
    StagesConcat(LaunchAll(StartStage, internal), own, comp);
    StagesConcat(LaunchAll(StartStage, internal) + own, LaunchAll(StartStage, START_LATE), comp);
    StagesOfLaunches(StartStage, internal, comp);
    StagesOfLaunches(StartStage, START_LATE, comp);
  }

  lemma FinishStages(internal: seq<Component>, comp: Component)
    ensures StagesOf(FinishPlan(internal), comp) ==
              Repeat(PostStart, Count(POST_START_ALL, comp)) + Repeat(PostStart, Count(internal, comp))
              + Repeat(Started, Count(FINISH_ALL, comp)) + Repeat(Started, Count(internal, comp))
  {
    var a, b, c, d := LaunchAll(PostStart, POST_START_ALL), LaunchAll(PostStart, internal),
                      LaunchAll(Started, FINISH_ALL), LaunchAll(Started, internal);
    StagesConcat(a, b, comp);
    StagesConcat(a + b, c, comp);
    StagesConcat(a + b + c, d, comp);
    StagesOfLaunches(PostStart, POST_START_ALL, comp);
    StagesOfLaunches(PostStart, internal, comp);
    StagesOfLaunches(Started, FINISH_ALL, comp);
    StagesOfLaunches(Started, internal, comp);
  }

  /** How the parts of the plan add up for a component with `n` entries among the internal services and the given
      numbers of entries in the lists of managers. */
  function Stages(n: nat, initialize: nat, early: nat, late: nat, post: nat, finish: nat): seq<Stage> {
    Repeat(Initialize, n) + Repeat(Initialize, initialize) + Repeat(StartStage, early)
    + (Repeat(StartStage, n) + Repeat(StartStage, late))
    + (Repeat(PostStart, post) + Repeat(PostStart, n) + Repeat(Started, finish) + Repeat(Started, n))
  }

  lemma StagesOnce(n: nat, initialize: nat, early: nat, late: nat, post: nat, finish: nat)
    requires n + initialize == early + n + late == 1
    ensures n + post == n + finish == 1 ==>
              Stages(n, initialize, early, late, post, finish) == [Initialize, StartStage, PostStart, Started]
    ensures n + post == n + finish == 0 ==>
              Stages(n, initialize, early, late, post, finish) == [Initialize, StartStage]
  {
  }

  /** In a start without failure every manager goes through all four stages once, in order; the HTTP client service
      only through the first two.  So does every internal service that is listed once. */
  lemma EveryStageOnce(internal: seq<Component>, ntp: bool, replies: nat -> Reply, comp: Component)
    requires PlanSucceeds(Progress(0, [], []), StartPlan(internal, ntp), replies)
    requires Count(internal, comp) == if comp < FIRST_INTERNAL then 0 else 1
    ensures StagesOf(RunPlan(Progress(0, [], []), StartPlan(internal, ntp), replies).done, comp) ==
              if comp == HTTP_CLIENT then [Initialize, StartStage] else [Initialize, StartStage, PostStart, Started]
  {
    StagesOfSuccess(internal, ntp, replies, comp);
    PlannedStages(internal, ntp, comp);
    ManagerCounts(comp);
    StagesOnce(Count(internal, comp), Count(INITIALIZE_ALL, comp), Count(START_EARLY, comp), Count(START_LATE, comp),
               Count(POST_START_ALL, comp), Count(FINISH_ALL, comp));
  }
}
