/** What a subscriber of the log gets, and when its lines are those of the ring. */
module LogTheorems {
  import opened Prelude
  import opened LogRing
  import opened LogStream

  /** Nothing is on its way to the subscriber. */
  predicate Settled(s: State) {
    s.queue == [] && forall t :: 0 <= t < |s.pcs| ==> s.pcs[t] != Applied
  }

  lemma {:induction false} SameCalls(c: Setup, s: State, run: seq<Action>)
    requires Possible(c, s, run)
    ensures |After(c, s, run).pcs| == |s.pcs|
    decreases |run|
  {
    if run == [] {
    } else {
      SameCalls(c, Act(c, s, run[0]), run[1..]);
    }
  }

  /** How often a notification that is no longer under way has reached the subscriber: once if its call took the lock
      after the snapshot, once if it took the lock before but was only delivered afterwards, and never otherwise. */
  lemma StreamIsExact(c: Setup, run: seq<Action>, t: nat)
    requires Possible(c, Start(c), run) && t < |c.kinds|
    requires After(c, Start(c), run).sub.Some?
    ensures var s := After(c, Start(c), run);
            var snap := s.sub.value;
            && snap.from <= |s.sent| && snap.cut <= |s.history| && t < |s.pcs|
            && (s.pcs[t] == Emitted && t !in s.queue ==>
                  Count(Stream(s), t) ==
                    Count(s.history[snap.cut..], t) + One(t in s.history[..snap.cut] && t !in s.sent[..snap.from]))
  {
    ReachedInv(c, run);
    SameCalls(c, Start(c), run);
    var s := After(c, Start(c), run);
    assert CallInv(s, t);
    CountSplit(s.sent, s.sub.value.from, t);
    CountSplit(s.history, s.sub.value.cut, t);
  }

  /** No gap: a call that took the lock after the snapshot and whose notification is no longer under way has reached
      the subscriber, once. */
  lemma NoGap(c: Setup, run: seq<Action>, p: nat)
    requires Possible(c, Start(c), run)
    requires var s := After(c, Start(c), run); s.sub.Some? && s.sub.value.cut <= p < |s.history|
    ensures var s := After(c, Start(c), run);
            var t := s.history[p];
            && s.sub.value.from <= |s.sent| && t < |s.pcs|
            && (s.pcs[t] == Emitted && t !in s.queue ==> Count(Stream(s), t) == 1)
  {
    ReachedInv(c, run);
    SameCalls(c, Start(c), run);
    var s := After(c, Start(c), run);
    var t, cut := s.history[p], s.sub.value.cut;
    assert t in s.history;
    assert CallInv(s, t);
    CountSplit(s.history, cut, t);
    assert s.history[cut..][p - cut] == t;
    assert Count(s.history[cut..], t) > 0;
    StreamIsExact(c, run, t);
    assert Count(s.history[..cut], t) == 0;
  }

  // ----- The lines of the client and the lines of the ring -----

  /** The client's lines: what was saved and then what was delivered. */
  function ClientLines(c: Setup, s: State): seq<nat>
    requires s.sub.Some? && s.sub.value.from <= |s.sent|
  {
    Noted(s.sub.value.saved, Items(c, Stream(s)))
  }

  /** Every call that had taken the lock before the snapshot had also been delivered by then. */
  ghost predicate NothingUnderWay(s: State)
    requires s.sub.Some? && s.sub.value.cut <= |s.history| && s.sub.value.from <= |s.sent|
  {
    forall t :: t in s.history[..s.sub.value.cut] ==> t in s.sent[..s.sub.value.from]
  }

  /** Those of `calls` that are in the stream are there in the same order. */
  ghost predicate InLockOrder(calls: seq<nat>, stream: seq<nat>) {
    forall p, q, i, j ::
      0 <= p < q < |calls| && 0 <= i < |stream| && 0 <= j < |stream| &&
      stream[i] == calls[p] && stream[j] == calls[q] ==>
        i < j
  }

  ghost predicate Once(s: seq<nat>) {
    forall i, j :: 0 <= i < j < |s| ==> s[i] != s[j]
  }

  lemma CountedOnce(s: seq<nat>)
    requires forall t :: Count(s, t) <= 1
    ensures Once(s)
  {
    forall i, j | 0 <= i < j < |s|
      ensures s[i] != s[j]
    {
      CountSplit(s, j, s[j]);
      assert s[..j][i] == s[i] && s[j..][0] == s[j];
      assert Count(s[j..], s[j]) > 0;
    }
  }

  lemma TailMembers(s: seq<nat>)
    requires Once(s) && s != []
    ensures forall t :: t in s[1..] <==> t in s && t != s[0]
  {
    assert s == [s[0]] + s[1..];
    assert s[0] !in s[1..];
  }

  /** The same elements in the same order are the same sequence. */
  lemma {:induction false} SameOrder(calls: seq<nat>, stream: seq<nat>)
    requires Once(calls) && Once(stream) && InLockOrder(calls, stream)
    requires forall t :: t in calls <==> t in stream
    ensures calls == stream
  {
    assert stream != [] ==> stream[0] in calls;
    if calls == [] {
    } else {
      assert calls[0] in stream;
      var i :| 0 <= i < |stream| && stream[i] == calls[0];
      var p :| 0 <= p < |calls| && calls[p] == stream[0];
      assert i == 0;
      TailMembers(calls);
      TailMembers(stream);
      SameOrder(calls[1..], stream[1..]);
    }
  }

  lemma DeliveredOnce(c: Setup, run: seq<Action>)
    requires Possible(c, Start(c), run) && After(c, Start(c), run).sub.Some?
    ensures var s := After(c, Start(c), run);
            var snap := s.sub.value;
            && snap.from <= |s.sent| && snap.cut <= |s.history|
            && Once(s.history[snap.cut..]) && Once(Stream(s))
  {
    ReachedInv(c, run);
    var s := After(c, Start(c), run);
    forall t: nat
      ensures Count(s.history[s.sub.value.cut..], t) <= 1 && Count(Stream(s), t) <= 1
    {
      CountSplit(s.history, s.sub.value.cut, t);
      CountSplit(s.sent, s.sub.value.from, t);
      if t < |s.pcs| {
        assert CallInv(s, t);
      } else {
        NotCounted(s.history, |s.pcs|, t);
        NotCounted(s.sent, |s.pcs|, t);
      }
    }
    CountedOnce(s.history[s.sub.value.cut..]);
    CountedOnce(Stream(s));
  }

  lemma NotCounted(s: seq<nat>, n: nat, t: nat)
    requires Below(s, n) && n <= t
    ensures Count(s, t) == 0
  {
    assert t !in s;
  }

  /** When nothing is under way, the calls after the snapshot and the deliveries to the subscriber have the same members
      exactly if nothing was under way at the snapshot either. */
  lemma SameMembers(c: Setup, run: seq<Action>)
    requires Possible(c, Start(c), run)
    requires After(c, Start(c), run).sub.Some? && Settled(After(c, Start(c), run))
    ensures var s := After(c, Start(c), run);
            var snap := s.sub.value;
            && snap.from <= |s.sent| && snap.cut <= |s.history|
            && (NothingUnderWay(s) <==> forall t :: t in s.history[snap.cut..] <==> t in Stream(s))
  {
    ReachedInv(c, run);
    SameCalls(c, Start(c), run);
    var s := After(c, Start(c), run);
    var cut, from := s.sub.value.cut, s.sub.value.from;
    forall t | t in s.history || t in s.sent
      ensures (t in s.history[..cut] ==> t in s.sent[..from]) <==> (t in s.history[cut..] <==> t in Stream(s))
    {
      assert t < |s.pcs|;
      assert CallInv(s, t);
      CountSplit(s.history, cut, t);
      CountSplit(s.sent, from, t);
      StreamIsExact(c, run, t);
    }
    assert forall t :: t in s.history[..cut] || t in s.history[cut..] ==> t in s.history;
    assert forall t :: t in Stream(s) ==> t in s.sent;
  }

  /** When nothing is under way any more, the subscriber has got exactly the calls after its snapshot, in the order in
      which they took the lock, if and only if nothing was under way at the snapshot and those calls notified the
      observer in that order. */
  lemma StreamIsTheRest(c: Setup, run: seq<Action>)
    requires Possible(c, Start(c), run)
    requires After(c, Start(c), run).sub.Some? && Settled(After(c, Start(c), run))
    ensures var s := After(c, Start(c), run);
            var snap := s.sub.value;
            && snap.from <= |s.sent| && snap.cut <= |s.history|
            && (Stream(s) == s.history[snap.cut..] <==>
                  NothingUnderWay(s) && InLockOrder(s.history[snap.cut..], Stream(s)))
  {
    DeliveredOnce(c, run);
    SameMembers(c, run);
    var s := After(c, Start(c), run);
    if NothingUnderWay(s) && InLockOrder(s.history[s.sub.value.cut..], Stream(s)) {
      SameOrder(s.history[s.sub.value.cut..], Stream(s));
    }
  }

  /** Then the client has the lines of the ring. */
  lemma ClientHasTheRing(c: Setup, run: seq<Action>)
    requires Possible(c, Start(c), run)
    requires After(c, Start(c), run).sub.Some? && Settled(After(c, Start(c), run))
    ensures var s := After(c, Start(c), run);
            var snap := s.sub.value;
            && snap.from <= |s.sent| && snap.cut <= |s.history|
            && (NothingUnderWay(s) && InLockOrder(s.history[snap.cut..], Stream(s)) ==>
                  Last(ClientLines(c, s), c.maxLines) == s.ring)
  {
    StreamIsTheRest(c, run);
    ReachedInv(c, run);
    var s := After(c, Start(c), run);
    if Stream(s) == s.history[s.sub.value.cut..] {
      var before, after := s.history[..s.sub.value.cut], s.history[s.sub.value.cut..];
      assert Items(c, s.history) == Items(c, before) + Items(c, after);
      NotedTwice([], Items(c, before), Items(c, after));
      NotedLast(Noted([], Items(c, before)), Items(c, after), c.maxLines);
    }
  }

  lemma {:induction false} NotedWrites(c: Setup, view: seq<nat>, calls: seq<nat>)
    requires forall t :: 0 <= t < |c.kinds| ==> c.kinds[t] == Write
    ensures Noted(view, Items(c, calls)) == view + calls
  {
    if calls == [] {
    } else {
      var n := |calls| - 1;
      assert calls[..n] + [calls[n]] == calls;
      ItemsMore(c, calls[..n], calls[n]);
      assert Items(c, calls)[..n] == Items(c, calls[..n]);
      NotedWrites(c, view, calls[..n]);
    }
  }

  lemma OnlyWrites(c: Setup, s: State)
    requires RingInv(c, s) && s.sub.Some? && |s.history| <= c.maxLines
    requires forall t :: 0 <= t < |c.kinds| ==> c.kinds[t] == Write
    ensures s.ring == s.history && ClientLines(c, s) == s.history[..s.sub.value.cut] + Stream(s)
  {
    var before := s.history[..s.sub.value.cut];
    NotedWrites(c, [], s.history);
    NotedWrites(c, [], before);
    NotedWrites(c, before, Stream(s));
    assert [] + s.history == s.history && [] + before == before;
  }

  lemma SameRest(history: seq<nat>, cut: nat, rest: seq<nat>)
    requires cut <= |history|
    ensures history[..cut] + rest == history <==> rest == history[cut..]
  {
    if history[..cut] + rest == history {
      assert rest == (history[..cut] + rest)[cut..];
    } else {
      assert history[..cut] + history[cut..] == history;
    }
  }

  /** As long as there was no reset and the ring has dropped nothing, the client has the lines of the ring only then. */
  lemma ClientHasTheRingOnlyThen(c: Setup, run: seq<Action>)
    requires Possible(c, Start(c), run)
    requires After(c, Start(c), run).sub.Some? && Settled(After(c, Start(c), run))
    requires forall t :: 0 <= t < |c.kinds| ==> c.kinds[t] == Write
    requires |After(c, Start(c), run).history| <= c.maxLines
    ensures var s := After(c, Start(c), run);
            var snap := s.sub.value;
            && snap.from <= |s.sent| && snap.cut <= |s.history|
            && (ClientLines(c, s) == s.ring <==> NothingUnderWay(s) && InLockOrder(s.history[snap.cut..], Stream(s)))
  {
    StreamIsTheRest(c, run);
    ReachedInv(c, run);
    var s := After(c, Start(c), run);
    OnlyWrites(c, s);
    SameRest(s.history, s.sub.value.cut, Stream(s));
  }

  // ----- Both conditions are needed -----

  /** A run goes on with one more action. */
  lemma {:induction false} Extend(c: Setup, s: State, run: seq<Action>, a: Action)
    requires Possible(c, s, run) && Enabled(After(c, s, run), a)
    ensures Possible(c, s, run + [a]) && After(c, s, run + [a]) == Act(c, After(c, s, run), a)
    decreases |run|
  {
    if run == [] {
      assert run + [a] == [a];
    } else {
      assert (run + [a])[1..] == run[1..] + [a];
      Extend(c, Act(c, s, run[0]), run[1..], a);
    }
  }

  lemma Then(c: Setup, before: seq<Action>, a: Action, s: State, next: State) returns (run: seq<Action>)
    requires Possible(c, Start(c), before) && After(c, Start(c), before) == s
    requires Enabled(s, a) && Act(c, s, a) == next
    ensures Possible(c, Start(c), run) && After(c, Start(c), run) == next
  {
    Extend(c, Start(c), before, a);
    run := before + [a];
  }

  const ONE_WRITE := [Write]
  const PUSHED := State([Applied], [0], [0], [], [], None)
  const SNAPPED := PUSHED.(sub := Some(Snapshot([0], 1, 0)))
  const NOTIFIED := SNAPPED.(pcs := [Emitted], queue := [0])
  const SHOWN_TWICE := NOTIFIED.(queue := [], sent := [0])

  lemma ReachNotified(c: Setup) returns (run: seq<Action>)
    requires c.kinds == ONE_WRITE && c.maxLines >= 1
    ensures Possible(c, Start(c), run) && After(c, Start(c), run) == NOTIFIED
  {
    assert Noted([], [Some(0)]) == [0];
    run := Then(c, [], Apply(0), Start(c), PUSHED);
    run := Then(c, run, Subscribe, PUSHED, SNAPPED);
    run := Then(c, run, Emit(0), SNAPPED, NOTIFIED);
  }

  lemma LinesTwice(c: Setup)
    requires c.kinds == ONE_WRITE && c.maxLines >= 2
    ensures Last(ClientLines(c, SHOWN_TWICE), c.maxLines) == [0, 0]
  {
    assert Items(c, Stream(SHOWN_TWICE)) == [Some(0)];
    assert Noted([0], [Some(0)]) == [0] + [0];
  }

  /** An entry that was under way at the snapshot is shown twice. */
  lemma EntryUnderWayIsShownTwice(c: Setup) returns (run: seq<Action>)
    requires c.kinds == ONE_WRITE && c.maxLines >= 2
    ensures Possible(c, Start(c), run) && After(c, Start(c), run) == SHOWN_TWICE && Settled(SHOWN_TWICE)
    ensures !NothingUnderWay(SHOWN_TWICE) && InLockOrder(SHOWN_TWICE.history[1..], Stream(SHOWN_TWICE))
    ensures SHOWN_TWICE.ring == [0] && Last(ClientLines(c, SHOWN_TWICE), c.maxLines) == [0, 0]
  {
    run := ReachNotified(c);
    run := Then(c, run, Deliver, NOTIFIED, SHOWN_TWICE);
    assert 0 in SHOWN_TWICE.history[..1] && SHOWN_TWICE.sent[..0] == [];
    LinesTwice(c);
  }

  const WRITE_AND_CLEAR := [Write, Clear]
  const WATCHED := State([Ready, Ready], [], [], [], [], Some(Snapshot([], 0, 0)))
  const WRITTEN := WATCHED.(pcs := [Applied, Ready], ring := [0], history := [0])
  const CLEARED := WRITTEN.(pcs := [Applied, Applied], ring := [], history := [0, 1])
  const OVERTAKEN := CLEARED.(pcs := [Applied, Emitted], queue := [1])
  const BOTH := OVERTAKEN.(pcs := [Emitted, Emitted], queue := [1, 0])
  const RESET_SENT := BOTH.(queue := [0], sent := [1])
  const ALL_SENT := RESET_SENT.(queue := [], sent := [1, 0])

  lemma ReachCleared(c: Setup) returns (run: seq<Action>)
    requires c.kinds == WRITE_AND_CLEAR && c.maxLines >= 1
    ensures Possible(c, Start(c), run) && After(c, Start(c), run) == CLEARED
  {
    assert Noted([], [Some(0)]) == [0] && Noted([0], [None]) == [];
    run := Then(c, [], Subscribe, Start(c), WATCHED);
    run := Then(c, run, Apply(0), WATCHED, WRITTEN);
    run := Then(c, run, Apply(1), WRITTEN, CLEARED);
  }

  lemma ReachBoth(c: Setup) returns (run: seq<Action>)
    requires c.kinds == WRITE_AND_CLEAR && c.maxLines >= 1
    ensures Possible(c, Start(c), run) && After(c, Start(c), run) == BOTH
  {
    run := ReachCleared(c);
    run := Then(c, run, Emit(1), CLEARED, OVERTAKEN);
    run := Then(c, run, Emit(0), OVERTAKEN, BOTH);
  }

  lemma LinesAfterReset(c: Setup)
    requires c.kinds == WRITE_AND_CLEAR && c.maxLines >= 1
    ensures Last(ClientLines(c, ALL_SENT), c.maxLines) == [0]
  {
    assert Items(c, Stream(ALL_SENT)) == [None, Some(0)];
    assert [None, Some(0)][..1] == [None] && Noted<nat>([], [None]) == [];
  }

  lemma ResetCameFirst()
    ensures NothingUnderWay(ALL_SENT) && !InLockOrder([0, 1], Stream(ALL_SENT)) && ALL_SENT.history[0..] == [0, 1]
  {
    assert Stream(ALL_SENT) == [1, 0];
    assert [0, 1][0] == [1, 0][1] && [0, 1][1] == [1, 0][0];
  }

  /** An entry whose writer is overtaken by a reset is gone from the ring and stays with the client. */
  lemma OvertakenEntryStays(c: Setup) returns (run: seq<Action>)
    requires c.kinds == WRITE_AND_CLEAR && c.maxLines >= 1
    ensures Possible(c, Start(c), run) && After(c, Start(c), run) == ALL_SENT && Settled(ALL_SENT)
    ensures NothingUnderWay(ALL_SENT) && !InLockOrder([0, 1], Stream(ALL_SENT)) && ALL_SENT.history[0..] == [0, 1]
    ensures ALL_SENT.ring == [] && Last(ClientLines(c, ALL_SENT), c.maxLines) == [0]
  {
    run := ReachAllSent(c);
    ResetCameFirst();
    LinesAfterReset(c);
  }

  lemma ReachAllSent(c: Setup) returns (run: seq<Action>)
    requires c.kinds == WRITE_AND_CLEAR && c.maxLines >= 1
    ensures Possible(c, Start(c), run) && After(c, Start(c), run) == ALL_SENT
  {
    run := ReachBoth(c);
    run := Then(c, run, Deliver, BOTH, RESET_SENT);
    run := Then(c, run, Deliver, RESET_SENT, ALL_SENT);
  }
}
