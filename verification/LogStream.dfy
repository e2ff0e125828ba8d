/** The log as a subscriber sees it: the saved lines, then batches of what was written since. */
module LogStream {
  import opened Prelude
  import opened LogRing

  /** A notification: a new entry, or none for a reset of the log. */
  type Item<T> = Option<T>

  /** A message of the stream: the client clears its lines if `reset` is set and then appends `messages`. */
  datatype Log<T> = Log(messages: seq<T>, reset: bool)

  function Shown<T>(view: seq<T>, message: Log<T>): seq<T> {
    (if message.reset then [] else view) + message.messages
  }

  function ShownAll<T>(view: seq<T>, messages: seq<Log<T>>): seq<T> {
    if messages == [] then view
    else Shown(ShownAll(view, messages[..|messages| - 1]), messages[|messages| - 1])
  }

  /** The lines after some notifications, taken one by one. */
  function Noted<T>(view: seq<T>, items: seq<Item<T>>): seq<T> {
    if items == [] then view
    else
      match items[|items| - 1]
      case Some(entry) => Noted(view, items[..|items| - 1]) + [entry]
      case None => []
  }

  lemma {:induction false} NotedTwice<T>(view: seq<T>, items: seq<Item<T>>, more: seq<Item<T>>)
    ensures Noted(view, items + more) == Noted(Noted(view, items), more)
  {
    if more == [] {
      assert items + more == items;
    } else {
      assert (items + more)[..|items + more| - 1] == items + more[..|more| - 1];
      NotedTwice(view, items, more[..|more| - 1]);
    }
  }

  /** Lines that were dropped early make no difference to the last ones. */
  lemma {:induction false} NotedLast<T>(view: seq<T>, items: seq<Item<T>>, n: int)
    ensures Last(Noted(Last(view, n), items), n) == Last(Noted(view, items), n)
  {
    if items != [] && items[|items| - 1].Some? {
      var before, entry := items[..|items| - 1], items[|items| - 1].value;
      NotedLast(view, before, n);
      LastAgain(Noted(Last(view, n), before), [entry], n);
      LastAgain(Noted(view, before), [entry], n);
    } else if items == [] {
      LastAgain(view, [], n);
      assert Last(view, n) + [] == Last(view, n) && view + [] == view;
    }
  }

  // ----- Batching -----

  /** A message with the entries after the last reset sums the items up. */
  lemma {:induction false} SumsUp<T>(view: seq<T>, items: seq<Item<T>>, raw: Log<T>, last: int)
    requires -1 <= last < |items| && (raw.reset <==> last >= 0) && (last >= 0 ==> items[last].None?)
    requires |raw.messages| == |items| - 1 - last
    requires forall j :: 0 <= j < |raw.messages| ==> items[last + 1 + j] == Some(raw.messages[j])
    ensures Shown(view, raw) == Noted(view, items)
  {
    if raw.messages == [] {
    } else {
      var n, m := |items| - 1, |raw.messages| - 1;
      var before := raw.(messages := raw.messages[..m]);
      SumsUp(view, items[..n], before, last);
      assert items[n] == items[last + 1 + m] == Some(raw.messages[m]);
      assert raw.messages == before.messages + [raw.messages[m]];
      Further(if raw.reset then [] else view, before.messages, raw.messages[m]);
    }
  }

  lemma Further<T>(view: seq<T>, messages: seq<T>, entry: T)
    ensures view + (messages + [entry]) == view + messages + [entry]
  {
  }

  /** Drains what has queued up into one message, which shows any client what the items would have shown it.  It has
      the entries after the last reset, number `last`, and resets exactly if there is one. */
  method Drain<T(!new)>(items: seq<Item<T>>) returns (raw: Log<T>, ghost last: int)
    requires items != []
    ensures forall view: seq<T> :: Shown(view, raw) == Noted(view, items)
    ensures -1 <= last < |items| && (raw.reset <==> last >= 0) && (last >= 0 ==> items[last].None?)
    ensures |raw.messages| == |items| - 1 - last
    ensures forall j :: 0 <= j < |raw.messages| ==> items[last + 1 + j] == Some(raw.messages[j])
  {
    raw, last := Log([], false), -1;
    var message := items[0];
    if message.None? {
      raw, last := raw.(reset := true), 0;
    } else {
      raw := raw.(messages := raw.messages + [message.value]);
    }
    var i := 1;
    while i < |items|
      invariant 1 <= i <= |items|
      invariant -1 <= last < i && (raw.reset <==> last >= 0) && (last >= 0 ==> items[last].None?)
      invariant |raw.messages| == i - 1 - last
      invariant forall j :: 0 <= j < |raw.messages| ==> items[last + 1 + j] == Some(raw.messages[j])
    {
      message := items[i];
      if message.None? {
        raw, last := Log([], true), i;
      } else {
        raw := raw.(messages := raw.messages + [message.value]);
      }
      i := i + 1;
    }
    forall view: seq<T>
      ensures Shown(view, raw) == Noted(view, items)
    {
      SumsUp(view, items, raw, last);
    }
  }

  function Flat<T>(batches: seq<seq<Item<T>>>): seq<Item<T>> {
    if batches == [] then [] else Flat(batches[..|batches| - 1]) + batches[|batches| - 1]
  }

  /** A subscription: the saved lines, then one message for each batch that was found in the channel. A client that
      held anything before shows the saved lines followed by the notifications, however they fell into batches. */
  method SubscribeLog<T(!new)>(saved: seq<T>, batches: seq<seq<Item<T>>>) returns (sent: seq<Log<T>>)
    requires forall i :: 0 <= i < |batches| ==> |batches[i]| > 0
    ensures forall view: seq<T> :: ShownAll(view, sent) == Noted(saved, Flat(batches))
    ensures |sent| == 1 + |batches| && sent[0] == Log(saved, true)
  {
    sent := [Log(saved, true)];
    var i := 0;
    while i < |batches|
      invariant 0 <= i <= |batches| && |sent| == 1 + i && sent[0] == Log(saved, true)
      invariant forall view: seq<T> :: ShownAll(view, sent) == Noted(saved, Flat(batches[..i]))
    {
      var raw, _ := Drain(batches[i]);
      assert batches[..i + 1][..i] == batches[..i];
      NotedTwice(saved, Flat(batches[..i]), batches[i]);
      assert (sent + [raw])[..|sent|] == sent;
      sent := sent + [raw];
      i := i + 1;
    }
    assert batches[..|batches|] == batches;
  }

  // ----- Writers, resets and the subscriber -----

  /** What a call does: write an entry, or reset the log. */
  datatype Kind = Write | Clear

  /** A call has not begun, has changed the ring under the lock, or has also notified the observer. */
  datatype Pc = Ready | Applied | Emitted

  /** The locked snapshot of a subscriber: the saved lines, and how much had been applied and delivered by then. */
  datatype Snapshot = Snapshot(saved: seq<nat>, cut: nat, from: nat)

  /** Call `t` writes the entry numbered `t`. `history` are the calls in the order in which they took the lock, `queue`
      the notifications the observer has yet to deliver and `sent` those it has delivered. */
  datatype State = State(
    pcs: seq<Pc>,
    ring: seq<nat>,
    history: seq<nat>,
    queue: seq<nat>,
    sent: seq<nat>,
    sub: Option<Snapshot>)

  datatype Setup = Setup(kinds: seq<Kind>, maxLines: int)

  datatype Action = Apply(t: nat) | Emit(t: nat) | Deliver | Subscribe

  function ItemOf(c: Setup, t: nat): Item<nat> {
    if t < |c.kinds| && c.kinds[t] == Clear then None else Some(t)
  }

  function Items(c: Setup, calls: seq<nat>): seq<Item<nat>> {
    seq(|calls|, i requires 0 <= i < |calls| => ItemOf(c, calls[i]))
  }

  predicate Enabled(s: State, a: Action) {
    match a
    case Apply(t) => t < |s.pcs| && s.pcs[t] == Ready
    case Emit(t) => t < |s.pcs| && s.pcs[t] == Applied
    case Deliver => s.queue != []
    case Subscribe => s.sub == None
  }

  function Act(c: Setup, s: State, a: Action): State
    requires Enabled(s, a)
  {
    match a
    case Apply(t) =>
      s.(pcs := s.pcs[t := Applied],
         ring := Last(Noted(s.ring, [ItemOf(c, t)]), c.maxLines),
         history := s.history + [t])
    case Emit(t) => s.(pcs := s.pcs[t := Emitted], queue := s.queue + [t])
    case Deliver => s.(queue := s.queue[1..], sent := s.sent + [s.queue[0]])
    case Subscribe => s.(sub := Some(Snapshot(s.ring, |s.history|, |s.sent|)))
  }

  function Start(c: Setup): State {
    State(seq(|c.kinds|, i => Ready), [], [], [], [], None)
  }

  predicate Possible(c: Setup, s: State, run: seq<Action>)
    decreases |run|
  {
    run == [] || (Enabled(s, run[0]) && Possible(c, Act(c, s, run[0]), run[1..]))
  }

  function After(c: Setup, s: State, run: seq<Action>): State
    requires Possible(c, s, run)
    decreases |run|
  {
    if run == [] then s else After(c, Act(c, s, run[0]), run[1..])
  }

  /** What the observer has delivered to the subscriber. */
  function Stream(s: State): seq<nat>
    requires s.sub.Some? && s.sub.value.from <= |s.sent|
  {
    s.sent[s.sub.value.from..]
  }

  // ----- Invariant -----

  function Count(s: seq<nat>, t: nat): nat {
    multiset(s)[t]
  }

  function One(b: bool): nat {
    if b then 1 else 0
  }

  predicate Below(s: seq<nat>, n: nat) {
    forall i :: 0 <= i < |s| ==> s[i] < n
  }

  /** A call is in the history from its first step on; its notification is then in exactly one place. */
  predicate CallInv(s: State, t: nat)
    requires t < |s.pcs|
  {
    && Count(s.history, t) == One(s.pcs[t] != Ready)
    && Count(s.sent, t) + Count(s.queue, t) + One(s.pcs[t] == Applied) == One(s.pcs[t] != Ready)
  }

  ghost predicate CallsInv(s: State) {
    && Below(s.queue, |s.pcs|) && Below(s.sent, |s.pcs|) && Below(s.history, |s.pcs|)
    && forall t :: 0 <= t < |s.pcs| ==> CallInv(s, t)
  }

  /** The ring is the bounded form of the history; the snapshot was taken of an earlier one. */
  ghost predicate RingInv(c: Setup, s: State) {
    && s.ring == Last(Noted([], Items(c, s.history)), c.maxLines)
    && (s.sub.Some? ==>
          var snap := s.sub.value;
          && snap.cut <= |s.history| && snap.from <= |s.sent|
          && snap.saved == Last(Noted([], Items(c, s.history[..snap.cut])), c.maxLines)
          && forall t :: t in s.sent[..snap.from] ==> t in s.history[..snap.cut])
  }

  lemma CountMore(s: seq<nat>, u: nat, t: nat)
    ensures Count(s + [u], t) == Count(s, t) + One(t == u)
  {
  }

  lemma CountSplit(s: seq<nat>, k: nat, t: nat)
    requires k <= |s|
    ensures Count(s, t) == Count(s[..k], t) + Count(s[k..], t)
  {
    assert s == s[..k] + s[k..];
  }

  lemma ActKeepsCall(c: Setup, s: State, a: Action, t: nat)
    requires t < |s.pcs| && CallInv(s, t) && Enabled(s, a)
    ensures |Act(c, s, a).pcs| == |s.pcs| && CallInv(Act(c, s, a), t)
  {
    match a
    case Apply(u) => CountMore(s.history, u, t);
    case Emit(u) => CountMore(s.queue, u, t);
    case Deliver =>
      CountMore(s.sent, s.queue[0], t);
      CountSplit(s.queue, 1, t);
      assert s.queue[..1] == [s.queue[0]];
    case Subscribe =>
  }

  lemma ActKeepsCalls(c: Setup, s: State, a: Action)
    requires CallsInv(s) && Enabled(s, a)
    ensures CallsInv(Act(c, s, a))
  {
    forall t | 0 <= t < |s.pcs|
      ensures CallInv(Act(c, s, a), t)
    {
      ActKeepsCall(c, s, a, t);
    }
  }

  lemma ItemsMore(c: Setup, calls: seq<nat>, t: nat)
    ensures Items(c, calls + [t]) == Items(c, calls) + [ItemOf(c, t)]
  {
  }

  /** The ring after one more call is the bounded form of the longer history. */
  lemma RingMore(c: Setup, history: seq<nat>, ring: seq<nat>, t: nat)
    requires ring == Last(Noted([], Items(c, history)), c.maxLines)
    ensures Last(Noted(ring, [ItemOf(c, t)]), c.maxLines) == Last(Noted([], Items(c, history + [t])), c.maxLines)
  {
    ItemsMore(c, history, t);
    NotedTwice([], Items(c, history), [ItemOf(c, t)]);
    NotedLast(Noted([], Items(c, history)), [ItemOf(c, t)], c.maxLines);
  }

  lemma SentWasApplied(s: State, t: nat)
    requires CallsInv(s) && t in s.sent
    ensures t in s.history
  {
    assert CallInv(s, t);
    assert Count(s.sent, t) > 0;
    assert Count(s.history, t) > 0;
  }

  lemma ActKeepsRing(c: Setup, s: State, a: Action)
    requires CallsInv(s) && RingInv(c, s) && Enabled(s, a)
    ensures RingInv(c, Act(c, s, a))
  {
    match a {
      case Apply(t) =>
        RingMore(c, s.history, s.ring, t);
        if s.sub.Some? {
          assert (s.history + [t])[..s.sub.value.cut] == s.history[..s.sub.value.cut];
        }
      case Emit(t) =>
      case Deliver =>
        if s.sub.Some? {
          assert (s.sent + [s.queue[0]])[..s.sub.value.from] == s.sent[..s.sub.value.from];
        }
      case Subscribe =>
        assert s.history[..|s.history|] == s.history && s.sent[..|s.sent|] == s.sent;
        forall t | t in s.sent
          ensures t in s.history
        {
          SentWasApplied(s, t);
        }
    }
  }

  lemma {:induction false} RunKeepsInv(c: Setup, s: State, run: seq<Action>)
    requires CallsInv(s) && RingInv(c, s) && Possible(c, s, run)
    ensures CallsInv(After(c, s, run)) && RingInv(c, After(c, s, run))
    decreases |run|
  {
    if run == [] {
    } else {
      ActKeepsCalls(c, s, run[0]);
      ActKeepsRing(c, s, run[0]);
      RunKeepsInv(c, Act(c, s, run[0]), run[1..]);
    }
  }

  lemma ReachedInv(c: Setup, run: seq<Action>)
    requires Possible(c, Start(c), run)
    ensures CallsInv(After(c, Start(c), run)) && RingInv(c, After(c, Start(c), run))
  {
    RunKeepsInv(c, Start(c), run);
  }
}
