/**
 The latest-value pipeline: every source stores its newest status in a slot that holds one value, a relay per source
 moves it into a shared channel, and the stream keeps the newest status of every tag.  Sources, relays and the stream
 run at the same time, one channel operation at a step.
 */
module LatestStatus {
  import opened Prelude

  /** A status and its place in the production of its source. */
  datatype Item<T> = Item(n: nat, value: T)

  /** Where a call of `storeLatestStatus` is: before its first, second or third channel operation. */
  datatype Store<T> = Idle | TrySend(item: Item<T>) | Discard(item: Item<T>) | Resend(item: Item<T>)

  datatype Relay<T> = Waiting | Holding(item: Item<T>) | Gone

  datatype Source<T> = Source(
    produced: seq<T>,
    store: Store<T>,
    slot: Option<Item<T>>,
    finished: bool,
    relay: Relay<T>)

  /** The stream first collects one status per source, then follows the updates. */
  datatype Main = Collecting(next: nat) | Following | Stopped

  datatype Update<T> = Update(tag: nat, item: Item<T>)

  /** Sources are numbered and the number stands for the tag.  `sent` is what the client was sent, in order. */
  datatype State<T> = State(
    sources: seq<Source<T>>,
    updates: seq<Update<T>>,
    statuses: map<nat, Item<T>>,
    sent: seq<map<nat, Item<T>>>,
    main: Main,
    cancelled: bool,
    dropped: bool)

  // ----- Storing -----

  /** One channel operation of `storeLatestStatus` on a slot: the new slot, where the call is then, and whether it
      gave up its status. */
  function StoreOp<T>(slot: Option<Item<T>>, store: Store<T>): (Option<Item<T>>, Store<T>, bool)
    requires !store.Idle?
  {
    match store
    case TrySend(item) => if slot.None? then (Some(item), Idle, false) else (slot, Discard(item), false)
    case Discard(item) => (None, Resend(item), false)
    case Resend(item) => if slot.None? then (Some(item), Idle, false) else (slot, Idle, true)
  }

  // ----- Steps -----

  datatype Action<T> =
    | Produce(i: nat, value: T)
    | StoreStep(i: nat)
    | Finish(i: nat)
    | Collect
    | SendFirst
    | RelayTake(i: nat)
    | RelayPut(i: nat)
    | RelayQuit(i: nat)
    | Deliver
    | Cancel
    | Stop

  predicate CanAct<T>(s: State<T>, a: Action<T>) {
    match a
    case Produce(i, _) => i < |s.sources| && s.sources[i].store.Idle? && !s.sources[i].finished
    case StoreStep(i) => i < |s.sources| && !s.sources[i].store.Idle?
    case Finish(i) => i < |s.sources| && s.sources[i].store.Idle?
    case Collect =>
      s.main.Collecting? && s.main.next < |s.sources| &&
      (s.sources[s.main.next].slot.Some? || s.sources[s.main.next].finished)
    case SendFirst => s.main.Collecting? && s.main.next == |s.sources|
    case RelayTake(i) =>
      !s.main.Collecting? && i < |s.sources| && s.sources[i].relay.Waiting? && s.sources[i].slot.Some?
    case RelayPut(i) => i < |s.sources| && s.sources[i].relay.Holding? && |s.updates| < |s.sources|
    case RelayQuit(i) => !s.main.Collecting? && i < |s.sources| && s.cancelled
    case Deliver => s.main.Following? && s.updates != []
    case Cancel => true
    case Stop => true
  }

  function Set<T>(s: State<T>, i: nat, source: Source<T>): State<T>
    requires i < |s.sources|
  {
    s.(sources := s.sources[i := source])
  }

  function DoCollect<T>(s: State<T>): State<T>
    requires CanAct(s, Collect)
  {
    var i := s.main.next;
    var s' := s.(main := Collecting(i + 1));
    if s.sources[i].slot.None? then s'
    else Set(s', i, s.sources[i].(slot := None)).(statuses := s.statuses[i := s.sources[i].slot.value])
  }

  function Act<T>(s: State<T>, a: Action<T>): State<T>
    requires CanAct(s, a)
  {
    match a
    case Produce(i, value) =>
      var source := s.sources[i];
      Set(s, i, source.(produced := source.produced + [value], store := TrySend(Item(|source.produced|, value))))
    case StoreStep(i) =>
      var (slot, store, dropped) := StoreOp(s.sources[i].slot, s.sources[i].store);
      Set(s, i, s.sources[i].(slot := slot, store := store)).(dropped := s.dropped || dropped)
    case Finish(i) => Set(s, i, s.sources[i].(finished := true))
    case Collect => DoCollect(s)
    case SendFirst => s.(main := Following, sent := s.sent + [s.statuses])
    case RelayTake(i) => Set(s, i, s.sources[i].(relay := Holding(s.sources[i].slot.value), slot := None))
    case RelayPut(i) =>
      Set(s, i, s.sources[i].(relay := Waiting)).(updates := s.updates + [Update(i, s.sources[i].relay.item)])
    case RelayQuit(i) => Set(s, i, s.sources[i].(relay := Gone))
    case Deliver =>
      var statuses := s.statuses[s.updates[0].tag := s.updates[0].item];
      s.(statuses := statuses, updates := s.updates[1..], sent := s.sent + [statuses])
    case Cancel => s.(cancelled := true)
    case Stop => s.(main := Stopped)
  }

  // ----- The way of a status -----

  function OfTag<T>(updates: seq<Update<T>>, i: nat): seq<Item<T>> {
    if updates == [] then []
    else
      OfTag(updates[..|updates| - 1], i) +
      if updates[|updates| - 1].tag == i then [updates[|updates| - 1].item] else []
  }

  function OfStatus<T>(statuses: map<nat, Item<T>>, i: nat): seq<Item<T>> {
    if i in statuses then [statuses[i]] else []
  }

  /** What is on its way in a source itself: in its relay, its slot and an unfinished store. */
  function OfSource<T>(source: Source<T>): seq<Item<T>> {
    (if source.relay.Holding? then [source.relay.item] else []) +
    (if source.slot.Some? then [source.slot.value] else []) +
    (if source.store.Idle? then [] else [source.store.item])
  }

  /** All statuses of source `i` between the client and the producer, read from the client's side. */
  function Path<T>(s: State<T>, i: nat): seq<Item<T>>
    requires i < |s.sources|
  {
    OfStatus(s.statuses, i) + OfTag(s.updates, i) + OfSource(s.sources[i])
  }

  /** In the order of production, without repetition, and genuine. */
  ghost predicate InOrder<T>(path: seq<Item<T>>, produced: seq<T>) {
    && (forall k :: 0 <= k < |path| ==> path[k].n < |produced| && path[k].value == produced[path[k].n])
    && (forall j, k :: 0 <= j < k < |path| ==> path[j].n < path[k].n)
  }

  ghost predicate EndsInLast<T>(path: seq<Item<T>>, produced: seq<T>) {
    produced != [] ==> path != [] && path[|path| - 1].n == |produced| - 1
  }

  ghost predicate WayInv<T>(path: seq<Item<T>>, source: Source<T>) {
    && InOrder(path, source.produced)
    && (!source.relay.Gone? ==> EndsInLast(path, source.produced))
  }

  predicate LocalInv<T>(s: State<T>, i: nat)
    requires i < |s.sources|
  {
    var source := s.sources[i];
    && (source.store.Resend? ==> source.slot.None?)
    && (s.main.Collecting? ==> source.relay.Waiting? && s.updates == [] && (s.main.next <= i ==> i !in s.statuses))
    && (source.relay.Gone? ==> s.cancelled)
  }

  ghost predicate PathInv<T>(s: State<T>, i: nat)
    requires i < |s.sources|
  {
    WayInv(Path(s, i), s.sources[i]) && LocalInv(s, i)
  }

  ghost predicate Inv<T>(s: State<T>) {
    && !s.dropped
    && (forall i :: 0 <= i < |s.sources| ==> PathInv(s, i))
    && (forall k :: 0 <= k < |s.updates| ==> s.updates[k].tag < |s.sources|)
  }

  // ----- Every step keeps the way in order -----

  lemma Without<T>(path: seq<Item<T>>, k: nat, produced: seq<T>)
    requires InOrder(path, produced) && k < |path|
    ensures InOrder(path[..k] + path[k + 1..], produced)
    ensures EndsInLast(path, produced) && k < |path| - 1 ==> EndsInLast(path[..k] + path[k + 1..], produced)
  {
  }

  lemma WithoutFirst<T>(path: seq<Item<T>>, produced: seq<T>)
    requires InOrder(path, produced) && |path| > 1
    ensures InOrder(path[1..], produced)
    ensures EndsInLast(path, produced) ==> EndsInLast(path[1..], produced)
  {
  }

  lemma WithNew<T>(path: seq<Item<T>>, produced: seq<T>, value: T)
    requires InOrder(path, produced)
    ensures InOrder(path + [Item(|produced|, value)], produced + [value])
    ensures EndsInLast(path + [Item(|produced|, value)], produced + [value])
  {
  }

  lemma OfTagOne<T>(updates: seq<Update<T>>, u: Update<T>, i: nat)
    ensures OfTag(updates + [u], i) == OfTag(updates, i) + if u.tag == i then [u.item] else []
  {
    assert (updates + [u])[..|updates|] == updates;
  }

  lemma {:induction false} OfTagHead<T>(updates: seq<Update<T>>, i: nat)
    requires updates != []
    ensures OfTag(updates, i) == (if updates[0].tag == i then [updates[0].item] else []) + OfTag(updates[1..], i)
  {
    var n := |updates| - 1;
    if n == 0 {
    } else {
      OfTagHead(updates[..n], i);
      assert updates[..n][1..] == updates[1..][..n - 1];
    }
  }

  lemma ProduceKeeps<T>(s: State<T>, i: nat, value: T)
    requires CanAct(s, Produce(i, value)) && PathInv(s, i)
    ensures PathInv(Act(s, Produce(i, value)), i)
  {
    var s', source := Act(s, Produce(i, value)), s.sources[i];
    assert Path(s', i) == Path(s, i) + [Item(|source.produced|, value)];
    WithNew(Path(s, i), source.produced, value);
  }

  /** A channel operation of a store leaves the way as it is, or takes the older of two statuses away. */
  lemma StoreWay<T>(source: Source<T>)
    requires !source.store.Idle? && (source.store.Resend? ==> source.slot.None?)
    ensures var (slot, store, dropped) := StoreOp(source.slot, source.store);
            var way, way' := OfSource(source), OfSource(source.(slot := slot, store := store));
            && !dropped && (store.Resend? ==> slot.None?)
            && if source.store.Discard? && source.slot.Some?
               then |way| >= 2 && way' == way[..|way| - 2] + way[|way| - 1..]
               else way' == way
  {
  }

  lemma SecondLast<X>(a: seq<X>, b: seq<X>)
    requires |b| >= 2
    ensures var k := |a + b| - 2; a + (b[..|b| - 2] + b[|b| - 1..]) == (a + b)[..k] + (a + b)[k + 1..]
  {
  }

  lemma StoreKeepsWay<T>(ahead: seq<Item<T>>, source: Source<T>)
    requires !source.store.Idle? && (source.store.Resend? ==> source.slot.None?)
    requires WayInv(ahead + OfSource(source), source)
    ensures var (slot, store, _) := StoreOp(source.slot, source.store);
            var source' := source.(slot := slot, store := store);
            WayInv(ahead + OfSource(source'), source')
  {
    StoreWay(source);
    var way := OfSource(source);
    if source.store.Discard? && source.slot.Some? {
      SecondLast(ahead, way);
      Without(ahead + way, |ahead + way| - 2, source.produced);
    }
  }

  lemma StoreKeeps<T>(s: State<T>, i: nat)
    requires CanAct(s, StoreStep(i)) && PathInv(s, i) && !s.dropped
    ensures PathInv(Act(s, StoreStep(i)), i) && !Act(s, StoreStep(i)).dropped
  {
    StoreWay(s.sources[i]);
    StoreKeepsWay(OfStatus(s.statuses, i) + OfTag(s.updates, i), s.sources[i]);
  }

  lemma CollectKeeps<T>(s: State<T>)
    requires CanAct(s, Collect) && PathInv(s, s.main.next)
    ensures PathInv(Act(s, Collect), s.main.next)
  {
    assert Path(Act(s, Collect), s.main.next) == Path(s, s.main.next);
  }

  lemma TakeKeeps<T>(s: State<T>, i: nat)
    requires CanAct(s, RelayTake(i)) && PathInv(s, i)
    ensures PathInv(Act(s, RelayTake(i)), i)
  {
    assert Path(Act(s, RelayTake(i)), i) == Path(s, i);
  }

  lemma Regroup<X>(a: seq<X>, b: seq<X>, c: seq<X>, d: seq<X>)
    ensures a + (b + c) + d == a + b + (c + d)
  {
  }

  lemma PutPath<T>(s: State<T>, i: nat, j: nat)
    requires CanAct(s, RelayPut(i)) && j < |s.sources|
    ensures Path(Act(s, RelayPut(i)), j) == Path(s, j)
  {
    var source := s.sources[i];
    OfTagOne(s.updates, Update(i, source.relay.item), j);
    if i == j {
      var source' := source.(relay := Waiting);
      assert OfSource(source) == [source.relay.item] + OfSource(source');
      Regroup(OfStatus(s.statuses, i), OfTag(s.updates, i), [source.relay.item], OfSource(source'));
    } else {
      assert OfTag(s.updates, j) + [] == OfTag(s.updates, j);
    }
  }

  lemma PutKeeps<T>(s: State<T>, i: nat, j: nat)
    requires CanAct(s, RelayPut(i)) && j < |s.sources| && LocalInv(s, i) && PathInv(s, j)
    ensures PathInv(Act(s, RelayPut(i)), j)
  {
    PutPath(s, i, j);
  }

  lemma QuitKeeps<T>(s: State<T>, i: nat)
    requires CanAct(s, RelayQuit(i)) && PathInv(s, i)
    ensures PathInv(Act(s, RelayQuit(i)), i)
  {
    QuitKeepsWay(OfStatus(s.statuses, i) + OfTag(s.updates, i), s.sources[i]);
  }

  lemma QuitKeepsWay<T>(ahead: seq<Item<T>>, source: Source<T>)
    requires WayInv(ahead + OfSource(source), source)
    ensures var source' := source.(relay := Gone); WayInv(ahead + OfSource(source'), source')
  {
    if source.relay.Holding? {
      var way := OfSource(source.(relay := Gone));
      assert OfSource(source) == [source.relay.item] + way;
      Without(ahead + OfSource(source), |ahead|, source.produced);
      Between(ahead, source.relay.item, way);
    } else {
      assert OfSource(source.(relay := Gone)) == OfSource(source);
    }
  }

  lemma Between<X>(a: seq<X>, x: X, b: seq<X>)
    ensures var all := a + ([x] + b); all[..|a|] + all[|a| + 1..] == a + b
  {
  }

  lemma Shift<X>(a: seq<X>, b: seq<X>, c: seq<X>)
    requires |a| <= 1
    ensures b + c == if |a| == 1 then (a + b + c)[1..] else a + b + c
  {
  }

  lemma DeliverPath<T>(s: State<T>, j: nat)
    requires CanAct(s, Deliver) && j < |s.sources|
    ensures Path(Act(s, Deliver), j) == if s.updates[0].tag == j && j in s.statuses then Path(s, j)[1..] else Path(s, j)
  {
    OfTagHead(s.updates, j);
    if s.updates[0].tag == j {
      Shift(OfStatus(s.statuses, j), OfTag(s.updates, j), OfSource(s.sources[j]));
    } else {
      assert [] + OfTag(s.updates[1..], j) == OfTag(s.updates[1..], j);
    }
  }

  lemma DeliverKeeps<T>(s: State<T>, j: nat)
    requires CanAct(s, Deliver) && j < |s.sources| && PathInv(s, j)
    ensures PathInv(Act(s, Deliver), j)
  {
    var path := Path(s, j);
    DeliverPath(s, j);
    if s.updates[0].tag == j && j in s.statuses {
      DeliveredIsNewer(s, j);
      WithoutFirst(path, s.sources[j].produced);
    }
  }

  /** What is delivered comes after what was there. */
  lemma DeliveredIsNewer<T>(s: State<T>, j: nat)
    requires CanAct(s, Deliver) && j < |s.sources| && PathInv(s, j) && s.updates[0].tag == j && j in s.statuses
    ensures s.statuses[j].n < s.updates[0].item.n && |Path(s, j)| > 1
  {
    OfTagHead(s.updates, j);
    assert Path(s, j)[0] == s.statuses[j] && Path(s, j)[1] == s.updates[0].item;
  }

  /** A step that does not concern source `j` leaves its way alone. */
  lemma ElsewhereKeeps<T>(s: State<T>, s': State<T>, j: nat)
    requires j < |s.sources| == |s'.sources| && s'.sources[j] == s.sources[j] && PathInv(s, j)
    requires OfStatus(s'.statuses, j) == OfStatus(s.statuses, j) && s'.updates == s.updates
    requires s.cancelled ==> s'.cancelled
    requires s'.main.Collecting? ==> s.main.Collecting? && (s'.main.next <= j ==> s.main.next <= j)
    ensures PathInv(s', j)
  {
    assert Path(s', j) == Path(s, j);
  }

  lemma SourceKeeps<T>(s: State<T>, a: Action<T>, j: nat)
    requires CanAct(s, a) && j < |s.sources| && PathInv(s, j) && !s.dropped
    requires a.Produce? || a.StoreStep? || a.RelayTake? || a.RelayQuit?
    ensures PathInv(Act(s, a), j)
  {
    if a.i != j {
      ElsewhereKeeps(s, Act(s, a), j);
    } else {
      match a
      case Produce(i, value) => ProduceKeeps(s, i, value);
      case StoreStep(i) => StoreKeeps(s, i);
      case RelayTake(i) => TakeKeeps(s, i);
      case RelayQuit(i) => QuitKeeps(s, i);
    }
  }

  lemma ActKeepsPath<T>(s: State<T>, a: Action<T>, j: nat)
    requires Inv(s) && CanAct(s, a) && j < |s.sources|
    ensures PathInv(Act(s, a), j)
  {
    assert PathInv(s, j);
    match a
    case Finish(i) => FinishKeeps(s, i, j);
    case Collect =>
      if s.main.next == j {
        CollectKeeps(s);
      } else {
        ElsewhereKeeps(s, Act(s, a), j);
      }
    case RelayPut(i) =>
      assert PathInv(s, i);
      PutKeeps(s, i, j);
    case Deliver => DeliverKeeps(s, j);
    case SendFirst => ElsewhereKeeps(s, Act(s, a), j);
    case Cancel => ElsewhereKeeps(s, Act(s, a), j);
    case Stop => ElsewhereKeeps(s, Act(s, a), j);
    case _ => SourceKeeps(s, a, j);
  }

  lemma FinishKeeps<T>(s: State<T>, i: nat, j: nat)
    requires CanAct(s, Finish(i)) && j < |s.sources| && PathInv(s, j)
    ensures PathInv(Act(s, Finish(i)), j)
  {
    assert OfSource(Act(s, Finish(i)).sources[j]) == OfSource(s.sources[j]);
  }

  lemma ActKeepsInv<T>(s: State<T>, a: Action<T>)
    requires Inv(s) && CanAct(s, a)
    ensures Inv(Act(s, a))
  {
    if a.StoreStep? {
      StoreKeeps(s, a.i);
    }
    forall i | 0 <= i < |Act(s, a).sources|
      ensures PathInv(Act(s, a), i)
    {
      ActKeepsPath(s, a, i);
    }
  }
}
