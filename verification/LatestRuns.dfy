/** What a run of the latest-value pipeline has done, told from its actions alone. */
module LatestRuns {
  import opened Prelude
  import opened LatestStatus
  import opened LatestTheorems

  // ----- The actions of a run -----

  /** The statuses source `i` produced, in order. */
  function ProducedIn<T>(run: seq<Action<T>>, i: nat): seq<T> {
    if run == [] then [] else ProducedBy(run[0], i) + ProducedIn(run[1..], i)
  }

  function ProducedBy<T>(a: Action<T>, i: nat): seq<T> {
    if a.Produce? && a.i == i then [a.value] else []
  }

  function Collects<T>(run: seq<Action<T>>): nat {
    if run == [] then 0 else (if run[0].Collect? then 1 else 0) + Collects(run[1..])
  }

  function Sends<T>(run: seq<Action<T>>): nat {
    if run == [] then 0 else (if run[0].SendFirst? || run[0].Deliver? then 1 else 0) + Sends(run[1..])
  }

  ghost predicate Has<T(!new)>(run: seq<Action<T>>, a: Action<T>) {
    exists k :: 0 <= k < |run| && run[k] == a
  }

  lemma HasHead<T(!new)>(run: seq<Action<T>>, a: Action<T>)
    requires run != []
    ensures Has(run, a) <==> run[0] == a || Has(run[1..], a)
  {
    if k :| 0 <= k < |run| && run[k] == a {
      if k > 0 {
        assert run[1..][k - 1] == a;
      }
    }
    if k :| 0 <= k < |run[1..]| && run[1..][k] == a {
      assert run[k + 1] == a;
    }
  }

  /** Where the stream is: it collects one source after the other, then sends what it has and follows, until it
      stops. */
  ghost function MainAfter<T(!new)>(main: Main, run: seq<Action<T>>): Main {
    if main.Stopped? || Has(run, Stop) then Stopped
    else if main.Following? || Has(run, SendFirst) then Following
    else Collecting(main.next + Collects(run))
  }

  lemma ActMain<T>(s: State<T>, a: Action<T>)
    requires CanAct(s, a)
    ensures var s' := Act(s, a);
            && |s'.sources| == |s.sources|
            && (s'.cancelled <==> s.cancelled || a.Cancel?)
            && |s'.sent| == |s.sent| + (if a.SendFirst? || a.Deliver? then 1 else 0)
            && (a.Stop? ==> s'.main.Stopped?)
            && (a.SendFirst? ==> s.main.Collecting? && s'.main.Following?)
            && (a.Collect? ==> s.main.Collecting? && s'.main == Collecting(s.main.next + 1))
            && (!a.Stop? && !a.SendFirst? && !a.Collect? ==> s'.main == s.main)
  {
  }

  lemma ActSource<T>(s: State<T>, a: Action<T>, i: nat)
    requires CanAct(s, a) && i < |s.sources|
    ensures |Act(s, a).sources| == |s.sources|
    ensures var source, source' := s.sources[i], Act(s, a).sources[i];
            Grown(source, source', ProducedBy(a, i), a.Finish? && a.i == i, a.RelayQuit? && a.i == i)
  {
    if a.Cancel? || a.Stop? || a.SendFirst? || a.Deliver? {
      assert Act(s, a).sources == s.sources;
    } else if a.Collect? {
      assert ProducedBy(a, i) == [];
    }
  }

  /** A source has produced something, and perhaps finished, and its relay perhaps quit. */
  ghost predicate Grown<T>(source: Source<T>, source': Source<T>, made: seq<T>, finished: bool, quit: bool) {
    && source'.produced == source.produced + made
    && (source'.finished <==> source.finished || finished)
    && (source'.relay.Gone? <==> source.relay.Gone? || quit)
  }

  lemma GrownTwice<T>(a: Source<T>, b: Source<T>, c: Source<T>, made: seq<T>, finished: bool, quit: bool,
                      made': seq<T>, finished': bool, quit': bool)
    requires Grown(a, b, made, finished, quit) && Grown(b, c, made', finished', quit')
    ensures Grown(a, c, made + made', finished || finished', quit || quit')
  {
  }

  lemma {:induction false} MainIs<T(!new)>(s: State<T>, run: seq<Action<T>>)
    requires Possible(s, run)
    ensures After(s, run).main == MainAfter(s.main, run)
    ensures |After(s, run).sent| == |s.sent| + Sends(run)
    ensures After(s, run).cancelled <==> s.cancelled || Has(run, Cancel)
    ensures |After(s, run).sources| == |s.sources|
    decreases |run|
  {
    if run == [] {
    } else {
      HasHead(run, Stop);
      HasHead(run, SendFirst);
      HasHead(run, Cancel);
      ActMain(s, run[0]);
      MainIs(Act(s, run[0]), run[1..]);
    }
  }

  lemma {:induction false} SourceIs<T(!new)>(s: State<T>, run: seq<Action<T>>, i: nat)
    requires Possible(s, run) && i < |s.sources|
    ensures |After(s, run).sources| == |s.sources|
    ensures var source, source' := s.sources[i], After(s, run).sources[i];
            Grown(source, source', ProducedIn(run, i), Has(run, Finish(i)), Has(run, RelayQuit(i)))
    decreases |run|
  {
    if run == [] {
    } else {
      var a, rest, s' := run[0], run[1..], Act(s, run[0]);
      HasHead(run, Finish(i));
      HasHead(run, RelayQuit(i));
      ActSource(s, a, i);
      SourceIs(s', rest, i);
      GrownTwice(s.sources[i], s'.sources[i], After(s', rest).sources[i],
                 ProducedBy(a, i), a.Finish? && a.i == i, a.RelayQuit? && a.i == i,
                 ProducedIn(rest, i), Has(rest, Finish(i)), Has(rest, RelayQuit(i)));
    }
  }

  /** A run that has sent the first statuses and was not stopped follows the updates. */
  lemma FollowsOnceSent<T(!new)>(n: nat, run: seq<Action<T>>)
    requires Possible(Start(n), run)
    ensures var s := After(Start(n), run);
            && (Has(run, Stop) ==> s.main.Stopped?)
            && (Has(run, SendFirst) && !Has(run, Stop) ==> s.main.Following?)
            && (!Has(run, SendFirst) && !Has(run, Stop) ==> s.main == Collecting(Collects(run)))
            && |s.sent| == Sends(run)
            && (s.cancelled <==> Has(run, Cancel))
  {
    MainIs(Start<T>(n), run);
  }

  /** What a source has produced is what the run says it produced. */
  lemma ProducedSoFar<T(!new)>(n: nat, run: seq<Action<T>>, i: nat)
    requires Possible(Start(n), run) && i < n
    ensures var s := After(Start(n), run);
            && |s.sources| == n
            && s.sources[i].produced == ProducedIn(run, i)
            && (s.sources[i].finished <==> Has(run, Finish(i)))
            && (s.sources[i].relay.Gone? <==> Has(run, RelayQuit(i)))
  {
    MainIs(Start<T>(n), run);
    SourceIs(Start<T>(n), run, i);
  }

  // ----- What the client was sent -----

  /** What was sent last is what the stream has, and nothing is sent before everything is collected. */
  ghost predicate SendInv<T>(s: State<T>) {
    && (s.main.Collecting? ==> s.sent == [])
    && (s.main.Following? ==> s.sent != [] && s.sent[|s.sent| - 1] == s.statuses)
  }

  /** Every source that was collected gave a status, unless it had finished. */
  predicate FirstInv<T>(s: State<T>) {
    forall i :: 0 <= i < |s.sources| && !s.sources[i].finished ==>
      && (s.main.Collecting? && i < s.main.next ==> i in s.statuses)
      && (s.sent != [] ==> i in s.sent[0])
  }

  /** What was sent is older than what the stream has, or the same, and what was sent first is the older. */
  ghost predicate ForwardInv<T>(s: State<T>) {
    && (forall k :: 0 <= k < |s.sent| ==> NotNewer(s.sent[k], s.statuses))
    && (forall j, k :: 0 <= j < k < |s.sent| ==> NotNewer(s.sent[j], s.sent[k]))
  }

  ghost predicate NotNewer<T>(early: map<nat, Item<T>>, late: map<nat, Item<T>>) {
    forall i :: i in early ==> i in late && early[i].n <= late[i].n
  }

  ghost predicate IsGenuine<T>(s: State<T>, statuses: map<nat, Item<T>>) {
    forall i :: i in statuses ==>
      && i < |s.sources|
      && statuses[i].n < |s.sources[i].produced|
      && statuses[i].value == s.sources[i].produced[statuses[i].n]
  }

  ghost predicate GenuineInv<T>(s: State<T>) {
    (forall i :: i in s.statuses ==> i < |s.sources|) && forall k :: 0 <= k < |s.sent| ==> IsGenuine(s, s.sent[k])
  }

  ghost predicate ClientInv<T>(s: State<T>) {
    Inv(s) && SendInv(s) && FirstInv(s) && ForwardInv(s) && GenuineInv(s)
  }

  lemma ActSends<T>(s: State<T>, a: Action<T>)
    requires CanAct(s, a) && SendInv(s) && FirstInv(s)
    ensures SendInv(Act(s, a)) && FirstInv(Act(s, a))
  {
  }

  /** A step sends nothing, or the statuses it leaves. */
  lemma ActSent<T>(s: State<T>, a: Action<T>)
    requires CanAct(s, a)
    ensures Act(s, a).sent == s.sent || Act(s, a).sent == s.sent + [Act(s, a).statuses]
  {
  }

  lemma ActForward<T>(s: State<T>, a: Action<T>)
    requires CanAct(s, a) && Inv(s) && SendInv(s) && ForwardInv(s)
    ensures ForwardInv(Act(s, a))
  {
    var s' := Act(s, a);
    ActSent(s, a);
    if s.sent != [] {
      ActAdvances(s, a);
      forall k | 0 <= k < |s.sent|
        ensures NotNewer(s.sent[k], s'.statuses)
      {
        NotNewerTwice(s.sent[k], s.statuses, s'.statuses);
      }
    }
  }

  lemma NotNewerTwice<T>(a: map<nat, Item<T>>, b: map<nat, Item<T>>, c: map<nat, Item<T>>)
    requires NotNewer(a, b) && NotNewer(b, c)
    ensures NotNewer(a, c)
  {
  }

  lemma ActAdvances<T>(s: State<T>, a: Action<T>)
    requires CanAct(s, a) && Inv(s) && !s.main.Collecting?
    ensures NotNewer(s.statuses, Act(s, a).statuses)
  {
    if a.Deliver? {
      var i := s.updates[0].tag;
      if i in s.statuses {
        assert PathInv(s, i);
        DeliveredIsNewer(s, i);
      }
    }
  }

  lemma StatusesAreGenuine<T>(s: State<T>)
    requires Inv(s) && forall i :: i in s.statuses ==> i < |s.sources|
    ensures IsGenuine(s, s.statuses)
  {
    forall i | i in s.statuses
      ensures s.statuses[i].n < |s.sources[i].produced|
      ensures s.statuses[i].value == s.sources[i].produced[s.statuses[i].n]
    {
      assert PathInv(s, i);
      assert Path(s, i)[0] == s.statuses[i];
    }
  }

  lemma StaysGenuine<T>(s: State<T>, a: Action<T>, statuses: map<nat, Item<T>>)
    requires CanAct(s, a) && IsGenuine(s, statuses)
    ensures IsGenuine(Act(s, a), statuses)
  {
    forall i | i in statuses
      ensures i < |Act(s, a).sources| && statuses[i].n < |Act(s, a).sources[i].produced|
      ensures statuses[i].value == Act(s, a).sources[i].produced[statuses[i].n]
    {
      ActSource(s, a, i);
    }
  }

  lemma ActGenuine<T>(s: State<T>, a: Action<T>)
    requires CanAct(s, a) && Inv(s) && GenuineInv(s)
    ensures GenuineInv(Act(s, a))
  {
    var s' := Act(s, a);
    ActSent(s, a);
    ActKeepsInv(s, a);
    ActTags(s, a);
    StatusesAreGenuine(s');
    forall k | 0 <= k < |s'.sent|
      ensures IsGenuine(s', s'.sent[k])
    {
      if k < |s.sent| {
        StaysGenuine(s, a, s.sent[k]);
      }
    }
  }

  lemma ActTags<T>(s: State<T>, a: Action<T>)
    requires CanAct(s, a) && Inv(s) && forall i :: i in s.statuses ==> i < |s.sources|
    ensures forall i :: i in Act(s, a).statuses ==> i < |Act(s, a).sources|
  {
  }

  lemma {:induction false} RunKeepsClient<T>(s: State<T>, run: seq<Action<T>>)
    requires Possible(s, run) && ClientInv(s)
    ensures ClientInv(After(s, run))
    decreases |run|
  {
    if run == [] {
    } else {
      ActKeepsInv(s, run[0]);
      ActSends(s, run[0]);
      ActForward(s, run[0]);
      ActGenuine(s, run[0]);
      RunKeepsClient(Act(s, run[0]), run[1..]);
    }
  }

  lemma RunFromStart<T>(n: nat, run: seq<Action<T>>)
    requires Possible(Start(n), run)
    ensures ClientInv(After(Start(n), run))
  {
    StartInv<T>(n);
    RunKeepsClient(Start<T>(n), run);
  }

  /** Nothing is sent before all sources are collected.  The first message has a status of every source that did not
      finish. */
  lemma FirstHasAll<T(!new)>(n: nat, run: seq<Action<T>>, i: nat)
    requires Possible(Start(n), run) && i < n
    ensures var s := After(Start(n), run);
            && (s.sent != [] ==> Has(run, SendFirst))
            && (s.sent != [] && !Has(run, Finish(i)) ==> i in s.sent[0])
  {
    ProducedSoFar(n, run, i);
    RunFromStart(n, run);
    if !Has(run, SendFirst) {
      NothingBefore(Start<T>(n), run);
    }
  }

  lemma {:induction false} NothingBefore<T(!new)>(s: State<T>, run: seq<Action<T>>)
    requires Possible(s, run) && !s.main.Following? && !Has(run, SendFirst)
    ensures After(s, run).sent == s.sent
    decreases |run|
  {
    if run == [] {
    } else {
      HasHead(run, SendFirst);
      NothingBefore(Act(s, run[0]), run[1..]);
    }
  }

  /** Every status in a message is one that its source did produce, and from message to message a source loses no status
      and never goes back to an earlier one. */
  lemma MessagesMoveForward<T(!new)>(n: nat, run: seq<Action<T>>, j: nat, k: nat, i: nat)
    requires Possible(Start(n), run) && j <= k < |After(Start(n), run).sent| && i in After(Start(n), run).sent[j]
    ensures i in After(Start(n), run).sent[k]
    ensures var s, made := After(Start(n), run), ProducedIn(run, i);
            var early, late := s.sent[j][i], s.sent[k][i];
            early.n <= late.n < |made| && early.value == made[early.n] && late.value == made[late.n]
  {
    RunFromStart(n, run);
    var s := After(Start(n), run);
    assert IsGenuine(s, s.sent[j]) && IsGenuine(s, s.sent[k]);
    MainIs(Start<T>(n), run);
    ProducedSoFar(n, run, i);
  }

  // ----- Who waits for what -----

  /** The stream waits for a source that is between two stores exactly if that has produced nothing and has not
      finished: no other source can hold it up. */
  lemma CollectWaitsExactly<T(!new)>(n: nat, run: seq<Action<T>>, i: nat)
    requires Possible(Start(n), run) && i < n && After(Start(n), run).main == Collecting(i)
    requires i < |After(Start(n), run).sources| ==> After(Start(n), run).sources[i].store.Idle?
    ensures CanAct(After(Start(n), run), Collect) <==> ProducedIn(run, i) != [] || Has(run, Finish(i))
  {
    ProducedSoFar(n, run, i);
    RunFromStart(n, run);
    CollectWaits(After(Start(n), run), i);
  }

  lemma CollectWaits<T>(s: State<T>, i: nat)
    requires Inv(s) && s.main == Collecting(i) && i < |s.sources| && s.sources[i].store.Idle?
    ensures s.sources[i].slot.Some? <==> s.sources[i].produced != []
  {
    assert PathInv(s, i);
    var slot := s.sources[i].slot;
    assert Path(s, i) == OfSource(s.sources[i]) == if slot.Some? then [slot.value] else [];
    if slot.Some? {
      assert Path(s, i)[0] == slot.value;
    }
  }

  /** A producer never waits: between two stores it can produce until it finishes, and it can finish; and a store can
      always go on, to its end within three channel operations. */
  lemma ProducersNeverWait<T(!new)>(n: nat, run: seq<Action<T>>, i: nat, value: T)
    requires Possible(Start(n), run) && i < n
    ensures var s := After(Start(n), run);
            && |s.sources| == n
            && (s.sources[i].store.Idle? ==>
                  (CanAct(s, Produce(i, value)) <==> !Has(run, Finish(i))) && CanAct(s, Finish(i)))
            && (!s.sources[i].store.Idle? ==>
                  && CanAct(s, StoreStep(i))
                  && OperationsLeft(Act(s, StoreStep(i)).sources[i].store) < OperationsLeft(s.sources[i].store) <= 3)
  {
    ProducedSoFar(n, run, i);
  }

  function OperationsLeft<T>(store: Store<T>): nat {
    match store
    case Idle => 0
    case TrySend(_) => 3
    case Discard(_) => 2
    case Resend(_) => 1
  }

  /** A relay takes what is in its slot as soon as all are collected and it has nothing else, and quits when the stream
      was cancelled. */
  lemma RelaysMoveExactly<T(!new)>(n: nat, run: seq<Action<T>>, i: nat)
    requires Possible(Start(n), run) && i < n
    ensures var s := After(Start(n), run);
            && |s.sources| == n
            && (CanAct(s, RelayTake(i)) <==>
                  (Has(run, SendFirst) || Has(run, Stop)) && s.sources[i].relay.Waiting? && s.sources[i].slot.Some?)
            && (CanAct(s, RelayQuit(i)) <==> (Has(run, SendFirst) || Has(run, Stop)) && Has(run, Cancel))
            && CanAct(s, Cancel) && CanAct(s, Stop)
            && (CanAct(s, SendFirst) <==> !Has(run, SendFirst) && !Has(run, Stop) && Collects(run) == n)
  {
    ProducedSoFar(n, run, i);
    FollowsOnceSent(n, run);
  }

  lemma {:induction false} RoomForAll<T>(s: State<T>, run: seq<Action<T>>)
    requires Possible(s, run) && |s.updates| <= |s.sources|
    ensures |After(s, run).updates| <= |After(s, run).sources| == |s.sources|
    decreases |run|
  {
    if run == [] {
    } else {
      ActMain(s, run[0]);
      RoomForAll(Act(s, run[0]), run[1..]);
    }
  }

  /** A relay with a status waits exactly while as many updates as there are sources wait for the client, and then a
      stream that follows has something to deliver. */
  lemma PutWaitsExactly<T(!new)>(n: nat, run: seq<Action<T>>, i: nat)
    requires Possible(Start(n), run) && i < |After(Start(n), run).sources|
    requires After(Start(n), run).sources[i].relay.Holding?
    ensures var s := After(Start(n), run);
            && |s.updates| <= n
            && (!CanAct(s, RelayPut(i)) <==> |s.updates| == n)
            && (!CanAct(s, RelayPut(i)) && s.main.Following? ==> CanAct(s, Deliver))
  {
    RoomForAll(Start<T>(n), run);
    MainIs(Start<T>(n), run);
  }

  lemma Before<T>(s: State<T>, a: Action<T>, run: seq<Action<T>>)
    requires CanAct(s, a) && Possible(Act(s, a), run)
    ensures Possible(s, [a] + run) && After(s, [a] + run) == After(Act(s, a), run)
  {
    assert ([a] + run)[1..] == run;
  }

  /** A source that finishes without a status is passed over: the first message is then empty. */
  lemma FinishedIsPassedOver<T(!new)>(run: seq<Action<T>>)
    requires run == [Finish(0)] + ([Collect] + ([SendFirst] + []))
    ensures Possible(Start(1), run) && After(Start(1), run).sent == [map[]]
  {
    var s1 := Act(Start<T>(1), Finish(0));
    var s2 := Act(s1, Collect);
    Before(s2, SendFirst, []);
    Before(s1, Collect, [SendFirst] + []);
    Before(Start<T>(1), Finish(0), [Collect] + ([SendFirst] + []));
  }

  // ----- The newest status arrives -----

  /** The pipeline cannot go on by itself. */
  ghost predicate AtRest<T(!new)>(s: State<T>) {
    forall a :: Inside(a) ==> !CanAct(s, a)
  }

  lemma {:induction false} InsideOnly<T(!new)>(run: seq<Action<T>>, i: nat)
    requires forall k :: 0 <= k < |run| ==> Inside(run[k])
    ensures !Has(run, Stop) && !Has(run, RelayQuit(i)) && ProducedIn(run, i) == []
  {
    if run == [] {
    } else {
      assert Inside(run[0]);
      InsideOnly(run[1..], i);
      HasHead(run, Stop);
      HasHead(run, RelayQuit(i));
    }
  }

  /** Whatever happened before, once the first statuses were sent and while the stream is not stopped: when the pipeline
      has moved on until it cannot go on, by whatever steps, the last message has the newest status of every source that
      produced one and whose relay did not quit; and it gets there within a bounded number of steps. */
  lemma RestShowsNewest<T(!new)>(n: nat, run: seq<Action<T>>, more: seq<Action<T>>, i: nat)
    requires Possible(Start(n), run) && Has(run, SendFirst) && !Has(run, Stop)
    requires Possible(After(Start(n), run), more) && (forall k :: 0 <= k < |more| ==> Inside(more[k]))
    requires AtRest(After(After(Start(n), run), more))
    requires i < n && ProducedIn(run, i) != [] && !Has(run, RelayQuit(i))
    ensures |more| <= Work(After(Start(n), run))
    ensures var s, made := After(After(Start(n), run), more), ProducedIn(run, i);
            && s.main.Following? && s.sent != [] && s.sent[|s.sent| - 1] == s.statuses
            && i in s.statuses && s.statuses[i].value == made[|made| - 1]
  {
    var s := After(Start(n), run);
    FollowsOnceSent(n, run);
    ProducedSoFar(n, run, i);
    InsideKeeps(s, more, i);
    PipelineSettles(s, more);
    ClientThen(n, run, more);
    RestOf(After(s, more), i);
  }

  lemma ClientThen<T(!new)>(n: nat, run: seq<Action<T>>, more: seq<Action<T>>)
    requires Possible(Start(n), run) && Possible(After(Start(n), run), more)
    ensures ClientInv(After(After(Start(n), run), more))
  {
    RunFromStart(n, run);
    RunKeepsClient(After(Start(n), run), more);
  }

  lemma RestOf<T(!new)>(s: State<T>, i: nat)
    requires ClientInv(s) && AtRest(s) && s.main.Following?
    requires i < |s.sources| && s.sources[i].produced != [] && !s.sources[i].relay.Gone?
    ensures s.sent != [] && s.sent[|s.sent| - 1] == s.statuses
    ensures i in s.statuses && s.statuses[i].value == s.sources[i].produced[|s.sources[i].produced| - 1]
  {
    AtRestIsSettled(s);
    RestHasNewest(s, i);
  }

  lemma InsideKeeps<T(!new)>(s: State<T>, more: seq<Action<T>>, i: nat)
    requires Possible(s, more) && (forall k :: 0 <= k < |more| ==> Inside(more[k])) && i < |s.sources|
    ensures s.main.Following? ==> After(s, more).main.Following?
    ensures i < |After(s, more).sources| && After(s, more).sources[i].produced == s.sources[i].produced
    ensures After(s, more).sources[i].relay.Gone? ==> s.sources[i].relay.Gone?
  {
    InsideOnly(more, i);
    MainIs(s, more);
    SourceIs(s, more, i);
  }

  lemma AtRestIsSettled<T(!new)>(s: State<T>)
    requires AtRest(s)
    ensures Settled(s)
  {
    var deliver: Action<T> := Deliver;
    assert Inside(deliver);
    forall i: nat
      ensures !CanAct(s, StoreStep(i)) && !CanAct(s, RelayTake(i)) && !CanAct(s, RelayPut(i))
    {
      var store: Action<T>, take: Action<T>, put: Action<T> := StoreStep(i), RelayTake(i), RelayPut(i);
      assert Inside(store) && Inside(take) && Inside(put);
    }
  }

  /** There is always such a way to come to rest. */
  lemma {:induction false} ComesToRest<T(!new)>(s: State<T>) returns (more: seq<Action<T>>)
    ensures Possible(s, more) && (forall k :: 0 <= k < |more| ==> Inside(more[k])) && AtRest(After(s, more))
    decreases Work(s)
  {
    if a :| Inside(a) && CanAct(s, a) {
      InsideWorks(s, a);
      var rest := ComesToRest(Act(s, a));
      more := [a] + rest;
      assert more[1..] == rest;
    } else {
      more := [];
    }
  }
}
