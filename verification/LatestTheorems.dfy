/** What the latest-value pipeline guarantees over every run. */
module LatestTheorems {
  import opened Prelude
  import opened LatestStatus

  function Start<T>(n: nat): State<T> {
    State(seq(n, _ => Source([], Idle, None, false, Waiting)), [], map[], [], Collecting(0), false, false)
  }

  predicate Possible<T>(s: State<T>, run: seq<Action<T>>)
    decreases |run|
  {
    run == [] || (CanAct(s, run[0]) && Possible(Act(s, run[0]), run[1..]))
  }

  function After<T>(s: State<T>, run: seq<Action<T>>): State<T>
    requires Possible(s, run)
    decreases |run|
  {
    if run == [] then s else After(Act(s, run[0]), run[1..])
  }

  ghost predicate Reachable<T(!new)>(n: nat, s: State<T>) {
    exists run :: Possible(Start(n), run) && After(Start(n), run) == s
  }

  lemma {:induction false} RunKeepsInv<T>(s: State<T>, run: seq<Action<T>>)
    requires Inv(s) && Possible(s, run)
    ensures Inv(After(s, run))
    decreases |run|
  {
    if run == [] {
    } else {
      ActKeepsInv(s, run[0]);
      RunKeepsInv(Act(s, run[0]), run[1..]);
    }
  }

  lemma StartInv<T>(n: nat)
    ensures Inv(Start<T>(n))
  {
    forall i | 0 <= i < n
      ensures PathInv(Start<T>(n), i)
    {
      assert Path(Start<T>(n), i) == [];
    }
  }

  lemma ReachableInv<T(!new)>(n: nat, s: State<T>)
    requires Reachable(n, s)
    ensures Inv(s)
  {
    var run :| Possible(Start(n), run) && After(Start(n), run) == s;
    StartInv<T>(n);
    RunKeepsInv(Start(n), run);
  }

  /** Statuses are overtaken but never reordered, and until its relay has quit, which it does only when the stream is
      cancelled, the newest status of a source is never lost: read from the client to the producer, what is on its way
      is a part of the production in its order, and it ends with the last status produced.  The last resort of a store,
      to give up its status, is never taken. */
  lemma NewestIsNeverLost<T(!new)>(n: nat, s: State<T>, i: nat)
    requires Reachable(n, s) && i < |s.sources|
    ensures !s.dropped
    ensures InOrder(Path(s, i), s.sources[i].produced)
    ensures !s.sources[i].relay.Gone? ==> EndsInLast(Path(s, i), s.sources[i].produced)
    ensures s.sources[i].relay.Gone? ==> s.cancelled
  {
    ReachableInv(n, s);
    assert PathInv(s, i);
  }

  /** The stream's map only moves forward. */
  lemma StatusesOnlyAdvance<T(!new)>(n: nat, s: State<T>, a: Action<T>, i: nat)
    requires Reachable(n, s) && CanAct(s, a) && i < |s.sources| && i in s.statuses
    ensures i in Act(s, a).statuses && s.statuses[i].n <= Act(s, a).statuses[i].n
  {
    ReachableInv(n, s);
    assert PathInv(s, i);
    if a.Deliver? && s.updates[0].tag == i {
      DeliveredIsNewer(s, i);
    }
  }

  /** Nothing inside the pipeline can move. */
  ghost predicate Settled<T(!new)>(s: State<T>) {
    && !CanAct(s, Deliver)
    && forall i :: 0 <= i < |s.sources| ==>
         !CanAct(s, StoreStep(i)) && !CanAct(s, RelayTake(i)) && !CanAct(s, RelayPut(i))
  }

  /** When the pipeline has come to rest, the client has the newest status of every source that produced one and
      whose relay has not quit. */
  lemma SettledShowsNewest<T(!new)>(n: nat, s: State<T>, i: nat)
    requires Reachable(n, s) && Settled(s) && s.main.Following?
    requires i < |s.sources| && s.sources[i].produced != [] && !s.sources[i].relay.Gone?
    ensures i in s.statuses && s.statuses[i].value == s.sources[i].produced[|s.sources[i].produced| - 1]
  {
    ReachableInv(n, s);
    RestHasNewest(s, i);
  }

  lemma RestHasNewest<T(!new)>(s: State<T>, i: nat)
    requires Inv(s) && Settled(s) && s.main.Following?
    requires i < |s.sources| && s.sources[i].produced != [] && !s.sources[i].relay.Gone?
    ensures i in s.statuses && s.statuses[i].value == s.sources[i].produced[|s.sources[i].produced| - 1]
  {
    assert PathInv(s, i);
    assert !CanAct(s, StoreStep(i)) && !CanAct(s, RelayTake(i)) && !CanAct(s, RelayPut(i));
    assert OfTag(s.updates, i) == [] && OfSource(s.sources[i]) == [];
    assert Path(s, i) == OfStatus(s.statuses, i);
  }

  // ----- It does come to rest -----

  function StoreWork<T>(store: Store<T>): nat {
    match store
    case Idle => 0
    case TrySend(_) => 6
    case Discard(_) => 5
    case Resend(_) => 4
  }

  function SourceWork<T>(source: Source<T>): nat {
    StoreWork(source.store) + (if source.slot.Some? then 3 else 0) + if source.relay.Holding? then 2 else 0
  }

  function SourcesWork<T>(sources: seq<Source<T>>): nat {
    if sources == [] then 0 else SourceWork(sources[0]) + SourcesWork(sources[1..])
  }

  function Work<T>(s: State<T>): nat {
    SourcesWork(s.sources) + |s.updates|
  }

  lemma {:induction false} WorkUpdate<T>(sources: seq<Source<T>>, i: nat, source: Source<T>)
    requires i < |sources|
    ensures SourcesWork(sources[i := source]) == SourcesWork(sources) - SourceWork(sources[i]) + SourceWork(source)
  {
    if i == 0 {
      assert sources[i := source][1..] == sources[1..];
    } else {
      assert sources[i := source][1..] == sources[1..][i - 1 := source];
      WorkUpdate(sources[1..], i - 1, source);
    }
  }

  predicate Inside<T>(a: Action<T>) {
    a.StoreStep? || a.RelayTake? || a.RelayPut? || a.Deliver?
  }

  lemma InsideWorks<T>(s: State<T>, a: Action<T>)
    requires CanAct(s, a) && Inside(a)
    ensures Work(Act(s, a)) < Work(s)
  {
    if !a.Deliver? {
      WorkUpdate(s.sources, a.i, Act(s, a).sources[a.i]);
    }
  }

  /** Without new statuses the pipeline comes to rest within a bounded number of steps. */
  lemma {:induction false} PipelineSettles<T>(s: State<T>, run: seq<Action<T>>)
    requires Possible(s, run) && forall k :: 0 <= k < |run| ==> Inside(run[k])
    ensures |run| + Work(After(s, run)) <= Work(s)
    decreases |run|
  {
    if run == [] {
    } else {
      InsideWorks(s, run[0]);
      PipelineSettles(Act(s, run[0]), run[1..]);
    }
  }

  // ----- Why one producer per slot -----

  /** With two producers on one slot the newest status can be lost: both find the slot full, one of them empties it
      and refills it, and the other one, with the newer status, finds it full again. */
  lemma TwoProducersCanLoseTheNewest<T>(x: T, y: T, z: T)
    ensures var (slot1, first1, _) := StoreOp(Some(Item(0, x)), TrySend(Item(1, y)));
            var (slot2, second1, _) := StoreOp(slot1, TrySend(Item(2, z)));
            var (slot3, first2, _) := StoreOp(slot2, first1);
            var (slot4, second2, _) := StoreOp(slot3, second1);
            var (slot5, first3, _) := StoreOp(slot4, first2);
            var (slot6, second3, dropped) := StoreOp(slot5, second2);
            first3.Idle? && second3.Idle? && dropped && slot6 == Some(Item(1, y))
  {
  }
}
