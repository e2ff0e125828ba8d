/** What the ring and the log of a run hold, told from the operations and the actions alone. */
module LogRuns {
  import opened Prelude
  import opened LogRing
  import opened LogStream

  // ----- The ring -----

  /** The last reset is number `k`, or there is none and `k` is -1. */
  predicate LastReset<T>(ops: seq<Op<T>>, k: int) {
    -1 <= k < |ops| && (k >= 0 ==> ops[k].Reset?) && forall j :: k < j < |ops| ==> ops[j].Push?
  }

  lemma {:induction false} EntriesSince<T>(ops: seq<Op<T>>, k: int)
    requires LastReset(ops, k)
    ensures |SinceReset(ops)| == |ops| - 1 - k
    ensures forall j :: 0 <= j < |SinceReset(ops)| ==> ops[k + 1 + j] == Push(SinceReset(ops)[j])
  {
    if k == |ops| - 1 {
    } else {
      var before := ops[..|ops| - 1];
      assert ops[|ops| - 1].Push?;
      EntriesSince(before, k);
      forall j | 0 <= j < |SinceReset(ops)|
        ensures ops[k + 1 + j] == Push(SinceReset(ops)[j])
      {
        assert j < |SinceReset(before)| ==> before[k + 1 + j] == ops[k + 1 + j];
      }
    }
  }

  /** The ring lists the entries of the last operations, as many as it has lines and as there were since the last
      reset, oldest first. */
  lemma RingContents<T>(ops: seq<Op<T>>, k: int, maxLines: int)
    requires LastReset(ops, k)
    ensures var lines, since := Listed(Run(ops, maxLines)), |ops| - 1 - k;
            && |lines| == (if maxLines <= 0 then 0 else if since <= maxLines then since else maxLines)
            && forall i :: 0 <= i < |lines| ==> ops[|ops| - |lines| + i] == Push(lines[i])
  {
    RingKeepsTheLast(ops, maxLines);
    EntriesSince(ops, k);
    LastOfEntries(ops, k, SinceReset(ops), maxLines);
  }

  lemma LastOfEntries<T>(ops: seq<Op<T>>, k: int, all: seq<T>, maxLines: int)
    requires -1 <= k < |ops| && |all| == |ops| - 1 - k && forall j :: 0 <= j < |all| ==> ops[k + 1 + j] == Push(all[j])
    ensures var lines := Last(all, maxLines);
            && |lines| == (if maxLines <= 0 then 0 else if |all| <= maxLines then |all| else maxLines)
            && forall i :: 0 <= i < |lines| ==> ops[|ops| - |lines| + i] == Push(lines[i])
  {
    var lines := Last(all, maxLines);
    forall i | 0 <= i < |lines|
      ensures ops[|ops| - |lines| + i] == Push(lines[i])
    {
      assert lines[i] == all[|all| - |lines| + i];
    }
  }

  /** What a call does to the ring. */
  function OpOf(c: Setup, t: nat): Op<nat> {
    if t < |c.kinds| && c.kinds[t] == Clear then Reset else Push(t)
  }

  function Ops(c: Setup, calls: seq<nat>): seq<Op<nat>> {
    seq(|calls|, i requires 0 <= i < |calls| => OpOf(c, calls[i]))
  }

  lemma {:induction false} NotedIsSinceReset(c: Setup, calls: seq<nat>)
    ensures Noted([], Items(c, calls)) == SinceReset(Ops(c, calls))
  {
    if calls == [] {
    } else {
      var n := |calls| - 1;
      assert Items(c, calls)[..n] == Items(c, calls[..n]) && Ops(c, calls)[..n] == Ops(c, calls[..n]);
      NotedIsSinceReset(c, calls[..n]);
    }
  }

  // ----- The actions of a run -----

  /** The calls in the order in which they took the lock. */
  function Applies(run: seq<Action>): seq<nat> {
    if run == [] then [] else AppliedBy(run[0]) + Applies(run[1..])
  }

  function AppliedBy(a: Action): seq<nat> {
    if a.Apply? then [a.t] else []
  }

  /** The calls in the order in which they notified the observer. */
  function Emits(run: seq<Action>): seq<nat> {
    if run == [] then [] else EmittedBy(run[0]) + Emits(run[1..])
  }

  function EmittedBy(a: Action): seq<nat> {
    if a.Emit? then [a.t] else []
  }

  function Deliveries(run: seq<Action>): nat {
    if run == [] then 0 else (if run[0].Deliver? then 1 else 0) + Deliveries(run[1..])
  }

  /** Some calls have taken the lock, some have notified the observer, and some notifications were delivered. */
  ghost predicate Went(s: State, s': State, applied: seq<nat>, emitted: seq<nat>, delivered: nat) {
    && s'.history == s.history + applied
    && s'.sent + s'.queue == s.sent + s.queue + emitted
    && |s'.sent| == |s.sent| + delivered
  }

  lemma WentTwice(a: State, b: State, c: State, applied: seq<nat>, emitted: seq<nat>, delivered: nat,
                  applied': seq<nat>, emitted': seq<nat>, delivered': nat)
    requires Went(a, b, applied, emitted, delivered) && Went(b, c, applied', emitted', delivered')
    ensures Went(a, c, applied + applied', emitted + emitted', delivered + delivered')
  {
  }

  lemma ActDoes(c: Setup, s: State, a: Action)
    requires Enabled(s, a)
    ensures Went(s, Act(c, s, a), AppliedBy(a), EmittedBy(a), if a.Deliver? then 1 else 0)
  {
  }

  lemma {:induction false} RunDoes(c: Setup, s: State, run: seq<Action>)
    requires Possible(c, s, run)
    ensures Went(s, After(c, s, run), Applies(run), Emits(run), Deliveries(run))
    decreases |run|
  {
    if run == [] {
    } else {
      var s', rest := Act(c, s, run[0]), run[1..];
      ActDoes(c, s, run[0]);
      RunDoes(c, s', rest);
      WentTwice(s, s', After(c, s', rest), AppliedBy(run[0]), EmittedBy(run[0]), if run[0].Deliver? then 1 else 0,
                Applies(rest), Emits(rest), Deliveries(rest));
    }
  }

  lemma {:induction false} SnapshotStays(c: Setup, s: State, run: seq<Action>)
    requires Possible(c, s, run)
    ensures s.sub.Some? ==> After(c, s, run).sub == s.sub
    ensures s.sub.None? && Subscribe !in run ==> After(c, s, run).sub == None
    decreases |run|
  {
    if run == [] {
    } else {
      SnapshotStays(c, Act(c, s, run[0]), run[1..]);
    }
  }

  /** The log of a run: the history is the calls in the order in which they took the lock, the ring is the ring after
      their operations, and the notifications are delivered in the order in which they were given to the observer. */
  lemma LogOfRun(c: Setup, run: seq<Action>)
    requires Possible(c, Start(c), run)
    ensures var s := After(c, Start(c), run);
            && s.history == Applies(run)
            && (Subscribe !in run ==> s.sub == None)
            && s.ring == Listed(Run(Ops(c, Applies(run)), c.maxLines))
            && Deliveries(run) <= |Emits(run)|
            && s.sent == Emits(run)[..Deliveries(run)] && s.queue == Emits(run)[Deliveries(run)..]
  {
    var s := After(c, Start(c), run);
    RunDoes(c, Start(c), run);
    SnapshotStays(c, Start(c), run);
    ReachedInv(c, run);
    NotedIsSinceReset(c, s.history);
    RingKeepsTheLast(Ops(c, s.history), c.maxLines);
    assert s.sent + s.queue == Emits(run);
    assert (s.sent + s.queue)[..|s.sent|] == s.sent;
  }

  lemma {:induction false} CallOfRun(c: Setup, s: State, run: seq<Action>, t: nat)
    requires Possible(c, s, run) && t < |s.pcs|
    ensures |After(c, s, run).pcs| == |s.pcs|
    ensures s.pcs[t] != Ready ==> Apply(t) !in run
    ensures s.pcs[t] == Emitted ==> Emit(t) !in run
    ensures s.pcs[t] == Ready && Emit(t) in run ==> Apply(t) in run
    ensures After(c, s, run).pcs[t] ==
              if Emit(t) in run then Emitted else if Apply(t) in run then Applied else s.pcs[t]
    decreases |run|
  {
    if run == [] {
    } else {
      CallOfRun(c, Act(c, s, run[0]), run[1..], t);
      assert run == [run[0]] + run[1..];
    }
  }

  /** Nobody is kept waiting: a call that has not taken the lock can, one that has and has not notified the observer
      can, whatever the others do; a notification can be delivered as long as one is there, and a subscriber can come
      once. */
  lemma NextExactly(c: Setup, run: seq<Action>, t: nat)
    requires Possible(c, Start(c), run) && t < |c.kinds|
    ensures var s := After(c, Start(c), run);
            && (Enabled(s, Apply(t)) <==> Apply(t) !in run)
            && (Enabled(s, Emit(t)) <==> Apply(t) in run && Emit(t) !in run)
            && (Enabled(s, Deliver) <==> Deliveries(run) < |Emits(run)|)
            && (Enabled(s, Subscribe) <==> Subscribe !in run)
  {
    LogOfRun(c, run);
    CallOfRun(c, Start(c), run, t);
    Subscribed(c, Start(c), run);
  }

  lemma {:induction false} Subscribed(c: Setup, s: State, run: seq<Action>)
    requires Possible(c, s, run)
    ensures After(c, s, run).sub.Some? <==> s.sub.Some? || Subscribe in run
    decreases |run|
  {
    if run == [] {
    } else {
      Subscribed(c, Act(c, s, run[0]), run[1..]);
      assert run == [run[0]] + run[1..];
    }
  }

  /** The snapshot of a subscriber is taken where it subscribes and not changed after. */
  lemma SnapshotOfRun(c: Setup, run: seq<Action>, more: seq<Action>)
    requires Possible(c, Start(c), run) && Enabled(After(c, Start(c), run), Subscribe)
    requires Possible(c, Act(c, After(c, Start(c), run), Subscribe), more)
    ensures After(c, Act(c, After(c, Start(c), run), Subscribe), more).sub ==
              Some(Snapshot(Listed(Run(Ops(c, Applies(run)), c.maxLines)), |Applies(run)|, Deliveries(run)))
  {
    LogOfRun(c, run);
    SnapshotStays(c, Act(c, After(c, Start(c), run), Subscribe), more);
  }
}
