/** The inductive invariant of the service lifecycle, and the proof that every step of every thread keeps it. */
module ServiceInvariant {
  import opened Prelude
  import opened ServiceState
  import opened ServiceProtocol

  // ----- Locks -----

  ghost predicate OwnerInv(s: State, owner: Option<nat>, holds: Pc -> bool) {
    && (owner.Some? ==> owner.value < |s.pcs|)
    && forall t :: 0 <= t < |s.pcs| ==> (owner == Some(t) <==> holds(s.pcs[t]))
  }

  ghost predicate LockInv(s: State) {
    && OwnerInv(s, s.lifecycle, HoldsLifecycle)
    && OwnerInv(s, s.writer, HoldsService)
    && OwnerInv(s, s.logger, HoldsLog)
    && (forall t :: t in s.readers <==> 0 <= t < |s.pcs| && s.pcs[t].InRead?)
    && (s.writer.Some? ==> s.readers == {})
  }

  /** What the owner of the lifecycle lock is doing; `Done` when nobody owns it. */
  function OwnerPc(s: State): Pc {
    if s.lifecycle.Some? && s.lifecycle.value < |s.pcs| then s.pcs[s.lifecycle.value] else Done
  }

  // ----- The shared fields, by what the owner of the lifecycle lock is doing -----

  /** The fields when no start or stop is in progress. */
  predicate Resting(f: Fields) {
    && !f.startInterrupted
    && f.status != Stopping
    && (f.status == Started ==> f.instance.Some?)
    && (f.status == Starting || f.status == Idle ==> f.instance.None?)
  }

  predicate Cleared(f: Fields) {
    f.instance.None? && !f.startInterrupted
  }

  predicate OneOf(f: Fields, status: Status) {
    f.status == status || f.status == Fatal
  }

  predicate SectionFields(f: Fields, sec: Section) {
    match sec
    case Take => Resting(f)
    case StopTake => Resting(f)
    case Begin(reload) =>
      Cleared(f) && if reload then OneOf(f, Stopping) else f.status != Started && f.status != Stopping
    case CreateError => Cleared(f) && OneOf(f, Starting)
    case Publish(_) => Cleared(f) && OneOf(f, Starting)
    case Decide(i, _) => f.instance == Some(i) && OneOf(f, Starting)
    case StopEnd => Cleared(f) && OneOf(f, Stopping)
    case _ => true
  }

  predicate PhaseFields(f: Fields, pc: Pc) {
    match pc
    case AwaitService(sec) => SectionFields(f, sec)
    case InService(sec) => SectionFields(f, sec)
    case AwaitLog(_) => Cleared(f) && OneOf(f, Starting)
    case InLog(_) => Cleared(f) && OneOf(f, Starting)
    case CallNew => Cleared(f) && OneOf(f, Starting)
    case CallStart(i) => f.instance == Some(i) && OneOf(f, Starting)
    case CallClose(target, next) =>
      && Cleared(f)
      && OneOf(f, if next.ThenReturn? then Starting else Stopping)
      && (target.None? ==> next.ThenStopEnd?)
    case ReleaseLifecycle(op) => if op.StartOp? then Resting(f) else Cleared(f) && OneOf(f, Idle)
    case _ => Resting(f)
  }

  ghost predicate FieldInv(s: State)
    requires LockInv(s)
  {
    && TimeFits(s.f)
    && PhaseFields(s.f, OwnerPc(s))
  }

  // ----- Instances -----

  predicate AtSection(pc: Pc) {
    pc.AwaitService? || pc.InService?
  }

  predicate PublishPhase(pc: Pc) {
    AtSection(pc) && pc.sec.Publish?
  }

  predicate StartPhase(pc: Pc) {
    pc.CallStart? || (AtSection(pc) && pc.sec.Decide?)
  }

  /** The instance that a thread at `pc` has published and is starting, up to its decision. */
  function BeingStarted(pc: Pc): Option<nat> {
    match pc
    case CallStart(i) => Some(i)
    case AwaitService(Decide(i, _)) => Some(i)
    case InService(Decide(i, _)) => Some(i)
    case _ => None
  }

  predicate AbandonPhase(pc: Pc) {
    pc.CallClose? && pc.next.ThenReturn?
  }

  /** The one instance that may be open: the published one, or the one in the hands of the lifecycle's owner. */
  function LiveOf(f: Fields, owner: Pc): Option<nat> {
    match owner
    case CallClose(target, _) => target
    case AwaitService(Publish(i)) => Some(i)
    case InService(Publish(i)) => Some(i)
    case _ => f.instance
  }

  ghost function Live(s: State): Option<nat>
    requires LockInv(s)
  {
    LiveOf(s.f, OwnerPc(s))
  }

  /** An instance's history, given whether it is the live one. */
  predicate RecordInv(r: Record, live: bool) {
    && (r.closers == [] <==> live)
    && |r.closers| <= 1
    && !(r.cancelled && r.started)
    && (r.cancelled && r.closers != [] ==> r.closers == [r.creator])
  }

  /** The live instance belongs to the start that is under way, or else the service did start with it. */
  predicate LiveInv(f: Fields, owner: Option<nat>, pc: Pc, r: Record) {
    if PublishPhase(pc) then
      owner == Some(r.creator) && !r.cancelled && !r.started
    else if StartPhase(pc) then
      owner == Some(r.creator) && !r.started && (r.cancelled <==> f.startInterrupted)
    else if AbandonPhase(pc) then
      owner == Some(r.creator) && !r.started && (r.cancelled || f.status == Fatal)
    else
      r.started && !r.cancelled
  }

  /** What is known of instance `i` with history `r`. */
  predicate Known(f: Fields, t: Option<nat>, owner: Pc, i: nat, r: Record) {
    RecordInv(r, LiveOf(f, owner) == Some(i)) && (LiveOf(f, owner) == Some(i) ==> LiveInv(f, t, owner, r))
  }

  ghost predicate InstanceInv(s: State)
    requires LockInv(s)
  {
    && (Live(s).Some? ==> Live(s).value < |s.instances|)
    && forall i :: 0 <= i < |s.instances| ==> Known(s.f, s.lifecycle, OwnerPc(s), i, s.instances[i])
  }

  // ----- No start is left hanging -----

  ghost predicate HasWaiter(s: State) {
    exists w :: 0 <= w < |s.pcs| && s.pcs[w].AwaitLifecycle?
  }

  /** A start has been interrupted and the status does not say yet that it is over. */
  predicate Hanging(f: Fields, owner: Pc) {
    f.startInterrupted || (f.status == Starting && (AbandonPhase(owner) || owner.ReleaseLifecycle? || owner.Done?))
  }

  ghost predicate WaitInv(s: State)
    requires LockInv(s)
  {
    Hanging(s.f, OwnerPc(s)) ==> s.f.closed || HasWaiter(s)
  }

  ghost predicate Inv(s: State) {
    LockInv(s) && FieldInv(s) && InstanceInv(s) && WaitInv(s)
  }

  // ----- Preservation -----

  lemma OwnerKept(s: State, owner: Option<nat>, holds: Pc -> bool, t: nat, s': State, pc': Pc)
    requires OwnerInv(s, owner, holds)
    requires t < |s.pcs| && s'.pcs == s.pcs[t := pc']
    requires holds(pc') && !holds(s.pcs[t]) ==> owner.None?
    ensures OwnerInv(s', Owner(owner, t, holds(pc')), holds)
  {
  }

  lemma StepKeepsLocks(s: State, t: nat, ok: bool)
    requires LockInv(s) && Enabled(s, t)
    ensures LockInv(Exec(s, t, ok))
  {
    var s' := Exec(s, t, ok);
    var pc' := s'.pcs[t];
    OwnerKept(s, s.lifecycle, HoldsLifecycle, t, s', pc');
    OwnerKept(s, s.writer, HoldsService, t, s', pc');
    OwnerKept(s, s.logger, HoldsLog, t, s', pc');
  }

  /** Who owns the lifecycle lock after a step, and where that thread is. */
  lemma OwnerAfter(s: State, t: nat, ok: bool)
    requires LockInv(s) && Enabled(s, t)
    ensures LockInv(Exec(s, t, ok))
    ensures var s', pc' := Exec(s, t, ok), NextPc(s.f, s.pcs[t], ok, |s.instances|);
            if s.pcs[t].AwaitLifecycle? then
              s.lifecycle.None? && s'.lifecycle == Some(t) && OwnerPc(s') == pc'
            else if s.lifecycle == Some(t) then
              if HoldsLifecycle(pc') then s'.lifecycle == Some(t) && OwnerPc(s') == pc'
              else s'.lifecycle.None? && OwnerPc(s') == Done
            else
              s'.lifecycle == s.lifecycle && OwnerPc(s') == OwnerPc(s)
    ensures HoldsLifecycle(OwnerPc(s)) || OwnerPc(s) == Done
    ensures s.lifecycle == Some(t) <==> HoldsLifecycle(s.pcs[t])
  {
    StepKeepsLocks(s, t, ok);
  }

  /** The sections of the lifecycle's owner. */
  lemma SectionStepFields(f: Fields, sec: Section)
    requires SectionFields(f, sec) && OwnedSection(sec)
    ensures HoldsLifecycle(AfterSection(f, sec)) && PhaseFields(NextFields(f, InService(sec)), AfterSection(f, sec))
  {
  }

  /** The owner's own steps. */
  lemma OwnerStepFields(f: Fields, pc: Pc, ok: bool, created: nat)
    requires PhaseFields(f, pc) && HoldsLifecycle(pc)
    ensures var pc' := NextPc(f, pc, ok, created);
            PhaseFields(NextFields(f, pc), if HoldsLifecycle(pc') then pc' else Done)
  {
    if pc.InService? {
      SectionStepFields(f, pc.sec);
    }
  }

  /** Everybody else's steps: an interrupt, an error, a close. */
  lemma OtherStepFields(f: Fields, owner: Pc, pc: Pc)
    requires PhaseFields(f, owner) && !HoldsLifecycle(pc)
    ensures PhaseFields(NextFields(f, pc), owner)
  {
  }

  /** The start time is set with the status that needs it and cleared with the one that excludes it. */
  predicate TimeFits(f: Fields) {
    (f.status == Started ==> f.startedAt) && (f.status == Idle ==> !f.startedAt)
  }

  lemma StepKeepsTime(f: Fields, pc: Pc)
    requires TimeFits(f)
    ensures TimeFits(NextFields(f, pc))
  {
  }

  lemma StepKeepsFields(s: State, t: nat, ok: bool)
    requires LockInv(s) && FieldInv(s) && Enabled(s, t)
    ensures LockInv(Exec(s, t, ok)) && FieldInv(Exec(s, t, ok))
  {
    OwnerAfter(s, t, ok);
    StepKeepsTime(s.f, s.pcs[t]);
    if s.lifecycle == Some(t) {
      OwnerStepFields(s.f, s.pcs[t], ok, |s.instances|);
    } else if !s.pcs[t].AwaitLifecycle? {
      OtherStepFields(s.f, OwnerPc(s), s.pcs[t]);
    }
  }

  /** Only a start that is under way can be interrupted. */
  lemma InterruptibleIsStarting(f: Fields, owner: Pc)
    requires PhaseFields(f, owner) && Interruptible(f) && (HoldsLifecycle(owner) || owner.Done?)
    ensures StartPhase(owner) && LiveOf(f, owner) == f.instance
  {
  }

  lemma OwnerStepInstance(f: Fields, t: nat, pc: Pc, ok: bool, created: nat, i: nat, r: Record)
    requires PhaseFields(f, pc) && HoldsLifecycle(pc) && i < created
    requires Known(f, Some(t), pc, i, r)
    ensures var pc' := NextPc(f, pc, ok, created);
            var held := HoldsLifecycle(pc');
            Known(NextFields(f, pc), if held then Some(t) else None, if held then pc' else Done, i,
                  NextRecord(f, pc, t, i, r))
  {
  }

  lemma OtherStepInstance(f: Fields, owner: Option<nat>, ownerPc: Pc, t: nat, pc: Pc, i: nat, r: Record)
    requires PhaseFields(f, ownerPc) && (HoldsLifecycle(ownerPc) || ownerPc.Done?) && !HoldsLifecycle(pc)
    requires Known(f, owner, ownerPc, i, r)
    ensures Known(NextFields(f, pc), owner, ownerPc, i, NextRecord(f, pc, t, i, r))
  {
    if Interruptible(f) {
      InterruptibleIsStarting(f, ownerPc);
    }
  }

  lemma StepKeepsInstance(s: State, t: nat, ok: bool, i: nat)
    requires LockInv(s) && FieldInv(s) && Enabled(s, t) && i < |s.instances|
    requires Known(s.f, s.lifecycle, OwnerPc(s), i, s.instances[i])
    ensures var s' := Exec(s, t, ok);
            LockInv(s') && Known(s'.f, s'.lifecycle, OwnerPc(s'), i, NextRecord(s.f, s.pcs[t], t, i, s.instances[i]))
  {
    OwnerAfter(s, t, ok);
    if s.lifecycle == Some(t) {
      OwnerStepInstance(s.f, t, s.pcs[t], ok, |s.instances|, i, s.instances[i]);
    } else {
      OtherStepInstance(s.f, s.lifecycle, OwnerPc(s), t, s.pcs[t], i, s.instances[i]);
    }
  }

  lemma OwnerStepLive(f: Fields, pc: Pc, ok: bool, created: nat)
    requires PhaseFields(f, pc) && HoldsLifecycle(pc)
    ensures var pc' := NextPc(f, pc, ok, created);
            var live' := LiveOf(NextFields(f, pc), if HoldsLifecycle(pc') then pc' else Done);
            live'.None? || live' == LiveOf(f, pc) || (pc.CallNew? && ok && live' == Some(created))
  {
  }

  lemma OtherStepLive(f: Fields, owner: Pc, pc: Pc)
    requires !HoldsLifecycle(pc)
    ensures LiveOf(NextFields(f, pc), owner) == LiveOf(f, owner)
  {
  }

  lemma StepKeepsLive(s: State, t: nat, ok: bool)
    requires LockInv(s) && FieldInv(s) && Enabled(s, t)
    requires Live(s).Some? ==> Live(s).value < |s.instances|
    ensures var s' := Exec(s, t, ok); LockInv(s') && (Live(s').Some? ==> Live(s').value < |s'.instances|)
  {
    OwnerAfter(s, t, ok);
    if s.lifecycle == Some(t) {
      OwnerStepLive(s.f, s.pcs[t], ok, |s.instances|);
    } else {
      OtherStepLive(s.f, OwnerPc(s), s.pcs[t]);
    }
  }

  lemma StepKeepsInstances(s: State, t: nat, ok: bool)
    requires LockInv(s) && FieldInv(s) && InstanceInv(s) && Enabled(s, t)
    ensures LockInv(Exec(s, t, ok)) && InstanceInv(Exec(s, t, ok))
  {
    StepKeepsLive(s, t, ok);
    var s' := Exec(s, t, ok);
    forall i | 0 <= i < |s'.instances|
      ensures Known(s'.f, s'.lifecycle, OwnerPc(s'), i, s'.instances[i])
    {
      if i < |s.instances| {
        StepKeepsInstance(s, t, ok, i);
      } else {
        OwnerAfter(s, t, ok);
      }
    }
  }

  lemma WaitersStay(s: State, t: nat, ok: bool)
    requires Enabled(s, t) && HasWaiter(s) && !s.pcs[t].AwaitLifecycle?
    ensures HasWaiter(Exec(s, t, ok))
  {
    var w :| 0 <= w < |s.pcs| && s.pcs[w].AwaitLifecycle?;
    assert Exec(s, t, ok).pcs[w].AwaitLifecycle?;
  }

  lemma OwnerStepHanging(f: Fields, pc: Pc, ok: bool, created: nat)
    requires PhaseFields(f, pc) && HoldsLifecycle(pc)
    ensures var pc' := NextPc(f, pc, ok, created);
            Hanging(NextFields(f, pc), if HoldsLifecycle(pc') then pc' else Done) ==> f.closed || Hanging(f, pc)
  {
  }

  lemma OtherStepHanging(f: Fields, owner: Pc, pc: Pc)
    requires !HoldsLifecycle(pc) && Hanging(NextFields(f, pc), owner)
    ensures Hanging(f, owner) || (pc.InService? && pc.sec.Interrupt?)
  {
  }

  lemma StepKeepsWaiters(s: State, t: nat, ok: bool)
    requires LockInv(s) && FieldInv(s) && WaitInv(s) && Enabled(s, t)
    ensures LockInv(Exec(s, t, ok)) && WaitInv(Exec(s, t, ok))
  {
    OwnerAfter(s, t, ok);
    var s', pc := Exec(s, t, ok), s.pcs[t];
    if Hanging(s'.f, OwnerPc(s')) && !s.f.closed && !pc.AwaitLifecycle? {
      if s.lifecycle == Some(t) {
        OwnerStepHanging(s.f, pc, ok, |s.instances|);
      } else {
        OtherStepHanging(s.f, OwnerPc(s), pc);
      }
      if pc.InService? && pc.sec.Interrupt? {
        assert s'.pcs[t].AwaitLifecycle?;
      } else {
        WaitersStay(s, t, ok);
      }
    }
  }

  // ----- Every reachable state -----

  lemma ActKeepsInv(s: State, a: Action)
    requires Inv(s) && CanAct(s, a)
    ensures Inv(Act(s, a))
  {
    match a
    case Spawn(call) => SpawnKeepsInv(s, call);
    case Step(t, ok) =>
      StepKeepsFields(s, t, ok);
      StepKeepsInstances(s, t, ok);
      StepKeepsWaiters(s, t, ok);
  }

  lemma SpawnKeepsInv(s: State, call: Call)
    requires Inv(s)
    ensures Inv(Act(s, Spawn(call)))
  {
    var s' := Act(s, Spawn(call));
    assert forall t :: 0 <= t < |s.pcs| ==> s'.pcs[t] == s.pcs[t];
    assert s'.pcs[|s.pcs|] == Entry(call);
  }

  lemma {:induction false} RunKeepsInv(s: State, run: seq<Action>)
    requires Inv(s) && Possible(s, run)
    ensures Inv(After(s, run))
    decreases |run|
  {
    if run == [] {
    } else {
      ActKeepsInv(s, run[0]);
      RunKeepsInv(Act(s, run[0]), run[1..]);
    }
  }

  lemma ReachableInv(s: State)
    requires Reachable(s)
    ensures Inv(s)
  {
    var run :| Possible(START, run) && After(START, run) == s;
    RunKeepsInv(START, run);
  }
}
