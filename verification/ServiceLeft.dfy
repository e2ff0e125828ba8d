/** Which services are left at starting when all calls have returned. */
module ServiceLeft {
  import opened Prelude
  import opened ServiceState
  import opened ServiceProtocol
  import opened ServiceInvariant
  import opened ServiceTheorems

  /** A call is about to run section `sec`. */
  predicate Runs(s: State, a: Action, sec: Section) {
    a.Step? && a.t < |s.pcs| && s.pcs[a.t] == InService(sec)
  }

  /** A start finds the service closed while an abandoned start has left the status at starting, and returns. */
  predicate Leaves(s: State, a: Action) {
    Runs(s, a, Take) && s.f.closed && s.f.status == Starting
  }

  /** An error is shown, or a stop takes over: then the status is no longer starting. */
  predicate ClearsUp(s: State, a: Action) {
    Runs(s, a, SetFatal) || Runs(s, a, StopTake)
  }

  function LeftAfter(s: State, left: bool, a: Action): bool {
    !ClearsUp(s, a) && (left || Leaves(s, a))
  }

  /** Some start of the run has left the status at starting, and nothing has cleared it up since. */
  predicate Left(s: State, left: bool, run: seq<Action>)
    requires Possible(s, run)
    decreases |run|
  {
    if run == [] then left else Left(Act(s, run[0]), LeftAfter(s, left, run[0]), run[1..])
  }

  /** Where the lifecycle's owner can be while the status is left at starting. */
  predicate LeftPhase(owner: Pc) {
    owner.Done? || owner.ReleaseLifecycle? || (AtSection(owner) && (owner.sec.Take? || owner.sec.StopTake?))
  }

  predicate LeftFields(f: Fields, owner: Pc) {
    f.closed && f.status == Starting && f.instance.None? && LeftPhase(owner)
  }

  ghost predicate LeftInv(s: State, left: bool) {
    && Inv(s)
    && (left ==> LeftFields(s.f, OwnerPc(s)))
    && (Hanging(s.f, OwnerPc(s)) ==> left || HasWaiter(s))
  }

  // ----- Every step keeps it -----

  lemma OwnerKeepsLeft(f: Fields, pc: Pc, ok: bool, created: nat, left: bool)
    requires PhaseFields(f, pc) && HoldsLifecycle(pc) && (left ==> LeftFields(f, pc))
    ensures var pc' := NextPc(f, pc, ok, created);
            var owner := if HoldsLifecycle(pc') then pc' else Done;
            var leaves := pc == InService(Take) && f.closed && f.status == Starting;
            && ((left || leaves) && pc != InService(StopTake) ==> LeftFields(NextFields(f, pc), owner))
            && (Hanging(NextFields(f, pc), owner) ==>
                  ((left || leaves) && pc != InService(StopTake)) || (!left && Hanging(f, pc)))
  {
  }

  lemma OtherKeepsLeft(f: Fields, owner: Pc, pc: Pc, left: bool)
    requires PhaseFields(f, owner) && !HoldsLifecycle(pc) && (left ==> LeftFields(f, owner))
    ensures left && pc != InService(SetFatal) ==> LeftFields(NextFields(f, pc), owner)
    ensures Hanging(NextFields(f, pc), owner) ==>
              || (left && pc != InService(SetFatal))
              || (!left && Hanging(f, owner))
              || (pc.InService? && pc.sec.Interrupt?)
  {
  }

  lemma StepKeepsLeft(s: State, left: bool, t: nat, ok: bool)
    requires LeftInv(s, left) && Enabled(s, t)
    ensures LeftInv(Act(s, Step(t, ok)), LeftAfter(s, left, Step(t, ok)))
  {
    ActKeepsInv(s, Step(t, ok));
    OwnerAfter(s, t, ok);
    var s', pc := Exec(s, t, ok), s.pcs[t];
    if s.lifecycle == Some(t) {
      OwnerKeepsLeft(s.f, pc, ok, |s.instances|, left);
    } else if !pc.AwaitLifecycle? {
      OtherKeepsLeft(s.f, OwnerPc(s), pc, left);
    }
    if !pc.AwaitLifecycle? {
      if pc.InService? && pc.sec.Interrupt? {
        assert s'.pcs[t].AwaitLifecycle?;
      } else if HasWaiter(s) {
        WaitersStay(s, t, ok);
      }
    }
  }

  lemma SpawnKeepsLeft(s: State, left: bool, call: Call)
    requires LeftInv(s, left)
    ensures LeftInv(Act(s, Spawn(call)), left)
  {
    SpawnKeepsInv(s, call);
    if HasWaiter(s) {
      var w :| 0 <= w < |s.pcs| && s.pcs[w].AwaitLifecycle?;
      assert Act(s, Spawn(call)).pcs[w].AwaitLifecycle?;
    }
  }

  lemma {:induction false} RunKeepsLeft(s: State, left: bool, run: seq<Action>)
    requires LeftInv(s, left) && Possible(s, run)
    ensures LeftInv(After(s, run), Left(s, left, run))
    decreases |run|
  {
    if run == [] {
    } else {
      match run[0] {
        case Spawn(call) => SpawnKeepsLeft(s, left, call);
        case Step(t, ok) => StepKeepsLeft(s, left, t, ok);
      }
      RunKeepsLeft(Act(s, run[0]), LeftAfter(s, left, run[0]), run[1..]);
    }
  }

  /** Once all calls have returned, the status is starting if and only if a start found it so on a closed service and
      neither an error nor a stop came after that. */
  lemma StartingExactlyIfLeft(run: seq<Action>)
    requires Possible(START, run) && Quiet(After(START, run))
    ensures After(START, run).f.status == Starting <==> Left(START, false, run)
  {
    RunKeepsLeft(START, false, run);
  }
}
