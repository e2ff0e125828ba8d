/** What the service lifecycle guarantees in every reachable state and over every run. */
module ServiceTheorems {
  import opened Prelude
  import opened ServiceState
  import opened ServiceProtocol
  import opened ServiceInvariant

  predicate Open(r: Record) {
    r.closers == []
  }

  predicate ClosedOnce(r: Record) {
    |r.closers| == 1
  }

  /** Nobody has anything left to do. */
  ghost predicate Quiet(s: State) {
    forall t :: 0 <= t < |s.pcs| ==> s.pcs[t] == Done
  }

  // ----- Instances -----

  /** At most one instance is open, and no instance is ever closed twice. */
  lemma AtMostOneOpen(s: State, i: nat, j: nat)
    requires Reachable(s) && i < |s.instances| && j < |s.instances|
    ensures |s.instances[i].closers| <= 1
    ensures Open(s.instances[i]) && Open(s.instances[j]) ==> i == j
  {
    ReachableInv(s);
    assert Known(s.f, s.lifecycle, OwnerPc(s), i, s.instances[i]);
    assert Known(s.f, s.lifecycle, OwnerPc(s), j, s.instances[j]);
  }

  /** When an instance is about to be created, every earlier one has been closed exactly once. */
  lemma AllClosedBeforeNext(s: State, t: nat, i: nat)
    requires Reachable(s) && t < |s.pcs| && s.pcs[t] == CallNew && i < |s.instances|
    ensures ClosedOnce(s.instances[i])
  {
    ReachableInv(s);
    assert HoldsLifecycle(s.pcs[t]);
    assert Known(s.f, s.lifecycle, OwnerPc(s), i, s.instances[i]);
  }

  /** When a stop returns there is no instance, the status says so, and everything created is closed. */
  lemma StopLeavesNothing(s: State, t: nat)
    requires Reachable(s) && t < |s.pcs| && s.pcs[t] == ReleaseLifecycle(StopOp)
    ensures s.f.instance.None? && (s.f.status == Idle || s.f.status == Fatal)
    ensures forall i :: 0 <= i < |s.instances| ==> ClosedOnce(s.instances[i])
  {
    ReachableInv(s);
    assert HoldsLifecycle(s.pcs[t]);
    forall i | 0 <= i < |s.instances|
      ensures ClosedOnce(s.instances[i])
    {
      assert Known(s.f, s.lifecycle, OwnerPc(s), i, s.instances[i]);
    }
  }

  // ----- Interrupts -----

  /** A cancelled instance never becomes the started one, and only its own start closes it. */
  lemma CancelledNeverStarts(s: State, i: nat)
    requires Reachable(s) && i < |s.instances| && s.instances[i].cancelled
    ensures !s.instances[i].started
    ensures Open(s.instances[i]) || s.instances[i].closers == [s.instances[i].creator]
    ensures Quiet(s) ==> s.instances[i].closers == [s.instances[i].creator]
  {
    ReachableInv(s);
    assert Known(s.f, s.lifecycle, OwnerPc(s), i, s.instances[i]);
  }

  /** A start gives up exactly when its own instance was cancelled: no interrupt is lost or hits a later start. */
  lemma AbandonsExactlyWhenCancelled(s: State, t: nat, i: nat, ok: bool)
    requires Reachable(s) && t < |s.pcs| && s.pcs[t] == InService(Decide(i, ok))
    ensures i < |s.instances| && s.instances[i].creator == t && Open(s.instances[i]) && s.f.instance == Some(i)
    ensures DecisionOf(s.f, ok) == Abandon <==> s.instances[i].cancelled
  {
    ReachableInv(s);
    assert HoldsLifecycle(s.pcs[t]);
    assert Known(s.f, s.lifecycle, OwnerPc(s), i, s.instances[i]);
  }

  /** The flag is up only while the owner of the lifecycle lock is starting the cancelled instance. */
  lemma FlagOnlyDuringStart(s: State)
    requires Reachable(s) && s.f.startInterrupted
    ensures s.f.instance.Some? && BeingStarted(OwnerPc(s)) == s.f.instance
    ensures s.f.instance.value < |s.instances| && s.instances[s.f.instance.value].cancelled
  {
    ReachableInv(s);
    assert Known(s.f, s.lifecycle, OwnerPc(s), s.f.instance.value, s.instances[s.f.instance.value]);
  }

  // ----- What a reader sees -----

  /** Status, instance and locks agree in every reachable state. */
  lemma StatusMeansWhatItSays(s: State)
    requires Reachable(s)
    ensures s.f.status == Started ==>
              && s.f.startedAt && s.f.instance.Some? && s.f.instance.value < |s.instances|
              && Open(s.instances[s.f.instance.value])
    ensures s.f.status == Starting && s.f.instance.Some? ==>
              BeingStarted(OwnerPc(s)) == s.f.instance
    ensures s.f.status == Stopping ==> s.lifecycle.Some?
    ensures s.f.status == Idle ==> s.f.instance.None? && !s.f.startedAt
    ensures s.f.instance.Some? ==> s.f.instance.value < |s.instances| && Open(s.instances[s.f.instance.value])
  {
    ReachableInv(s);
    if s.f.instance.Some? {
      assert Live(s) == s.f.instance;
      assert Known(s.f, s.lifecycle, OwnerPc(s), s.f.instance.value, s.instances[s.f.instance.value]);
    }
  }

  /** Once all threads have finished, a service that has not been closed is not left starting or stopping. */
  lemma QuietIsSettled(s: State)
    requires Reachable(s) && Quiet(s)
    ensures s.f.status != Stopping && !s.f.startInterrupted
    ensures s.f.status == Starting ==> s.f.closed && s.f.instance.None?
    ensures s.f.instance.None? ==> forall i :: 0 <= i < |s.instances| ==> ClosedOnce(s.instances[i])
  {
    ReachableInv(s);
    if s.f.instance.None? {
      forall i | 0 <= i < |s.instances|
        ensures ClosedOnce(s.instances[i])
      {
        assert Known(s.f, s.lifecycle, OwnerPc(s), i, s.instances[i]);
      }
    }
  }
}
