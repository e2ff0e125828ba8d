/** Whole runs of the connection stream: from the first message through any mix of events and ticks. */
module ConnectionRun {
  import opened Prelude
  import opened ConnectionStream

  /** What wakes the stream up: a batch of manager events, or the timer, with the tables read at that moment. */
  datatype Input =
    | Drained(events: seq<TrackerEvent>, now: int)
    | Tick(active: seq<Metadata>, closed: seq<Metadata>, now: int)

  /** The manager's tables have one entry per connection, its clock works, and a connection it has listed as closed
      does not become active again. */
  ghost predicate Proper(input: Input, gone: set<Id>) {
    input.now != 0 &&
    match input
    case Drained(events, _) => forall e :: e in events ==> ProperEvent(e)
    case Tick(active, closed, _) =>
      DistinctIds(active) && Ids(active) !! gone && forall m :: m in closed ==> ProperTime(m.closedAt)
  }

  /** The client's view after the messages, and that each of them made sense when it came. */
  function ViewOf(messages: seq<seq<Event>>): View {
    if messages == [] then map[] else Replay(ViewOf(messages[..|messages| - 1]), messages[|messages| - 1])
  }

  predicate MessagesLegal(messages: seq<seq<Event>>) {
    messages == [] ||
    (var n := |messages| - 1; MessagesLegal(messages[..n]) && AllLegal(ViewOf(messages[..n]), messages[n]))
  }

  lemma MoreMessages(messages: seq<seq<Event>>, events: seq<Event>)
    requires MessagesLegal(messages) && AllLegal(ViewOf(messages), events)
    ensures MessagesLegal(messages + [events])
    ensures ViewOf(messages + [events]) == Replay(ViewOf(messages), events)
  {
    assert (messages + [events])[..|messages|] == messages;
  }

  // ----- The counters since a connection was announced -----

  datatype Counters = Counters(up: int, down: int)

  const NOTHING := Counters(0, 0)

  function CountersOf(m: Metadata): Counters {
    Counters(m.upload, m.download)
  }

  /** For every connection that is announced, its counters as read since then, in order. */
  type Spans = map<Id, seq<Counters>>

  function SpanOf(spans: Spans, id: Id): seq<Counters> {
    if id in spans then spans[id] else []
  }

  /** A connection is announced unless it is already, and it is over when the manager says that it was closed. */
  function EventSpans(spans: Spans, e: TrackerEvent): Spans {
    match e.kind
    case TrackerNew => if e.id in spans then spans else spans[e.id := [CountersOf(e.metadata)]]
    case TrackerClosed => spans - {e.id}
    case TrackerOther => spans
  }

  function BatchSpans(spans: Spans, events: seq<TrackerEvent>): Spans {
    if events == [] then spans else EventSpans(BatchSpans(spans, events[..|events| - 1]), events[|events| - 1])
  }

  /** A tick reads the counters of what is active, and everything else is over. */
  function TickSpans(spans: Spans, active: seq<Metadata>): Spans {
    if active == [] then map[] else
    var m := active[|active| - 1];
    TickSpans(spans, active[..|active| - 1])[m.id := SpanOf(spans, m.id) + [CountersOf(m)]]
  }

  function InputSpans(spans: Spans, input: Input): Spans {
    match input
    case Drained(events, _) => BatchSpans(spans, events)
    case Tick(active, _, _) => TickSpans(spans, active)
  }

  function SpansAfter(spans: Spans, inputs: seq<Input>): Spans {
    if inputs == [] then spans else InputSpans(SpansAfter(spans, inputs[..|inputs| - 1]), inputs[|inputs| - 1])
  }

  predicate GoesBack(before: Counters, after: Counters) {
    after.up < before.up || after.down < before.down
  }

  /** The change of the counters at the readings at which one of them went backwards, which the stream does not pass
      on to the client. */
  function Missed(span: seq<Counters>): Counters {
    if |span| < 2 then NOTHING else
    var n, missed := |span| - 1, Missed(span[..|span| - 1]);
    if GoesBack(span[n - 1], span[n])
    then Counters(missed.up + span[n].up - span[n - 1].up, missed.down + span[n].down - span[n - 1].down)
    else missed
  }

  /** Nothing is missed while no counter goes backwards. */
  lemma {:induction false} SteadyMissesNothing(span: seq<Counters>)
    requires forall i :: 0 < i < |span| ==> !GoesBack(span[i - 1], span[i])
    ensures Missed(span) == NOTHING
  {
    if |span| < 2 {
    } else {
      var n := |span| - 1;
      forall i | 0 < i < n
        ensures !GoesBack(span[..n][i - 1], span[..n][i])
      {
        assert !GoesBack(span[i - 1], span[i]);
      }
      SteadyMissesNothing(span[..n]);
      assert !GoesBack(span[n - 1], span[n]);
    }
  }

  lemma MissedMore(span: seq<Counters>, next: Counters)
    requires span != []
    ensures var last, missed := span[|span| - 1], Missed(span);
            Missed(span + [next]) ==
              if GoesBack(last, next) then Counters(missed.up + next.up - last.up, missed.down + next.down - last.down)
              else missed
  {
    assert (span + [next])[..|span|] == span;
  }

  lemma {:induction false} TickSpansKeys(spans: Spans, active: seq<Metadata>)
    ensures TickSpans(spans, active).Keys == Ids(active)
  {
    if active == [] {
    } else {
      TickSpansKeys(spans, active[..|active| - 1]);
    }
  }

  lemma {:induction false} TickSpansAt(spans: Spans, active: seq<Metadata>, k: nat)
    requires DistinctIds(active) && k < |active|
    ensures active[k].id in TickSpans(spans, active)
    ensures TickSpans(spans, active)[active[k].id] == SpanOf(spans, active[k].id) + [CountersOf(active[k])]
  {
    if k == |active| - 1 {
    } else {
      TickSpansAt(spans, active[..|active| - 1], k);
    }
  }

  /** The snapshots are the last readings. */
  ghost predicate Follows(snapshots: Snapshots, spans: Spans) {
    && snapshots.Keys == spans.Keys
    && forall id :: id in spans ==>
         spans[id] != [] && spans[id][|spans[id]| - 1] == Counters(snapshots[id].uplink, snapshots[id].downlink)
  }

  /** The client's totals are the last readings without what was missed. */
  predicate Lags(snapshots: Snapshots, v: View, spans: Spans, id: Id) {
    id in Active(v) && id in snapshots && id in spans ==>
      && v[id].upTotal == snapshots[id].uplink - Missed(spans[id]).up
      && v[id].downTotal == snapshots[id].downlink - Missed(spans[id]).down
  }

  /** The client shows the manager's totals of a connection. */
  predicate ShowsTotals(v: View, m: Metadata) {
    m.id in v && v[m.id].upTotal == m.upload && v[m.id].downTotal == m.download
  }

  /** The client shows exactly the manager's table. */
  ghost predicate Shows(v: View, active: seq<Metadata>) {
    Active(v) == Ids(active) && forall i :: 0 <= i < |active| ==> ShowsTotals(v, active[i])
  }

  /** A tick on synchronised totals of a connection leaves the client with the manager's totals if and only if the
      connection had not been announced or none of its counters went backwards. */
  lemma TickExactnessOne(snapshots: Snapshots, v: View, m: Metadata, snapshots': Snapshots, v': View)
    requires Ticked(snapshots, v, m, snapshots', v')
    requires m.id in snapshots ==> m.id in Active(v) && SameTotals(snapshots[m.id], v[m.id])
    ensures ShowsTotals(v', m) <==> (m.id in snapshots ==> !Backwards(snapshots[m.id], m))
  {
  }

  /** So the client has exactly the manager's table if and only if that holds for every connection in it. */
  lemma TickExactness(snapshots: Snapshots, v: View, active: seq<Metadata>, snapshots': Snapshots, v': View)
    requires Ready(snapshots, v, active) && TotalsInStep(snapshots, v) && Active(v') == Ids(active)
    requires forall i :: 0 <= i < |active| ==> Ticked(snapshots, v, active[i], snapshots', v')
    ensures Shows(v', active) <==>
            forall i :: 0 <= i < |active| && active[i].id in snapshots ==>
              !Backwards(snapshots[active[i].id], active[i])
  {
    forall i | 0 <= i < |active|
      ensures ShowsTotals(v', active[i]) <==>
                (active[i].id in snapshots ==> !Backwards(snapshots[active[i].id], active[i]))
    {
      ReadyAt(snapshots, v, active, i);
      assert TotalsAt(snapshots, v, active[i].id);
      TickExactnessOne(snapshots, v, active[i], snapshots', v');
    }
  }

  // ----- The stream -----

  /** The client shows the manager's totals of a connection without what was missed. */
  predicate ShowsBut(v: View, m: Metadata, missed: Counters) {
    m.id in v && v[m.id].upTotal == m.upload - missed.up && v[m.id].downTotal == m.download - missed.down
  }

  /** And as its rate the change since the last reading: none right after it was announced, or when a counter went
      backwards. */
  predicate ShowsRate(v: View, id: Id, span: seq<Counters>) {
    id in v && span != [] &&
    var n := |span| - 1;
    if n == 0 || span[n].up < span[n - 1].up || span[n].down < span[n - 1].down then v[id].up == 0 && v[id].down == 0
    else v[id].up == span[n].up - span[n - 1].up && v[id].down == span[n].down - span[n - 1].down
  }

  /** What the client sees after an input: after a tick the manager's active connections, and of each of them the
      manager's totals without what was missed since it was last announced, and its rate. */
  ghost predicate Serves(input: Input, v: View, spans: Spans) {
    input.Tick? ==>
      && Active(v) == Ids(input.active)
      && forall i :: 0 <= i < |input.active| ==> ShowsOne(v, input.active[i], spans)
  }

  predicate ShowsOne(v: View, m: Metadata, spans: Spans) {
    m.id in spans && ShowsBut(v, m, Missed(spans[m.id])) && ShowsRate(v, m.id, spans[m.id])
  }

  /** So the client has the manager's totals of a connection if and only if what was missed of it adds up to nothing. */
  lemma TotalsExactlyIf(input: Input, v: View, spans: Spans, i: nat)
    requires input.Tick? && Serves(input, v, spans) && i < |input.active|
    ensures var m := input.active[i]; m.id in spans && (ShowsTotals(v, m) <==> Missed(spans[m.id]) == NOTHING)
  {
    assert ShowsOne(v, input.active[i], spans);
  }

  /** What holds between two inputs. */
  ghost predicate Going(snapshots: Snapshots, v: View, gone: set<Id>, spans: Spans) {
    InStep(snapshots, v, gone) && Follows(snapshots, spans) && forall id :: Lags(snapshots, v, spans, id)
  }

  /** A message is about one connection. */
  lemma ApplyElsewhere(v: View, e: Event, id: Id)
    requires id != e.id
    ensures id in Apply(v, e) <==> id in v
    ensures id in v ==> Apply(v, e)[id] == v[id]
  {
  }

  lemma GoingAfterEvent(snapshots: Snapshots, v: View, gone: set<Id>, spans: Spans, e: TrackerEvent,
                        snapshots': Snapshots, message: Option<Event>)
    requires Going(snapshots, v, gone, spans)
    requires snapshots' ==
               match e.kind
               case TrackerNew => if e.id in snapshots then snapshots else snapshots[e.id := Noted(e.metadata)]
               case TrackerClosed => snapshots - {e.id}
               case TrackerOther => snapshots
    requires message.Some? ==> message.value.id == e.id
    requires message.None? <==> e.kind.TrackerOther? || (e.kind.TrackerNew? && e.id in snapshots)
    requires e.kind.TrackerNew? && message.Some? ==> Apply(v, message.value) == v[e.id := Build(e.metadata)]
    requires InStep(snapshots', if message.Some? then Apply(v, message.value) else v, gone)
    ensures Going(snapshots', if message.Some? then Apply(v, message.value) else v, gone, EventSpans(spans, e))
  {
    var v', spans' := if message.Some? then Apply(v, message.value) else v, EventSpans(spans, e);
    forall id
      ensures Lags(snapshots', v', spans', id)
    {
      assert Lags(snapshots, v, spans, id);
      if message.Some? && id != e.id {
        ApplyElsewhere(v, message.value, id);
      }
    }
  }

  // ----- One closing time -----

  /** Whatever this input says of the end of connection `id`, it says that it was closed at `t`; and a tick that does
      not find it active still finds it among the closed ones. */
  ghost predicate ClosesAt(input: Input, id: Id, t: int) {
    match input
    case Drained(events, _) =>
      forall e :: e in events && e.kind.TrackerClosed? && e.id == id ==>
        e.closedAt == Some(t) || (e.closedAt.None? && e.metadata.closedAt == Some(t))
    case Tick(active, closed, _) =>
      id in Ids(active) || (id in Ids(closed) && forall m :: m in closed && m.id == id ==> m.closedAt == Some(t))
  }

  /** The client shows the connection as active, or as closed at `t`. */
  predicate ClosedOnlyAt(v: View, id: Id, t: int) {
    id in v ==> v[id].closedAt == 0 || v[id].closedAt == t
  }

  lemma {:induction false} ReplayElsewhere(v: View, events: seq<Event>, id: Id)
    requires forall k :: 0 <= k < |events| ==> events[k].id != id
    ensures id in Replay(v, events) <==> id in v
    ensures id in v ==> Replay(v, events)[id] == v[id]
  {
    if events == [] {
    } else {
      var n := |events| - 1;
      ReplayElsewhere(v, events[..n], id);
      ApplyElsewhere(Replay(v, events[..n]), events[n], id);
    }
  }

  lemma ClosingAfterTick(snapshots: Snapshots, v: View, active: seq<Metadata>, closed: seq<Metadata>, now: int,
                         snapshots': Snapshots, events: seq<Event>, id: Id, t: int)
    requires ClosedOnlyAt(v, id, t) && ClosesAt(Tick(active, closed, now), id, t) && Ready(snapshots, v, active)
    requires OnePerId(events, snapshots.Keys + Ids(active))
    requires forall i :: 0 <= i < |active| ==> Ticked(snapshots, v, active[i], snapshots', Replay(v, events))
    requires id in snapshots.Keys - Ids(active) ==> ClosedInTick(v, Replay(v, events), id, closed, now)
    ensures ClosedOnlyAt(Replay(v, events), id, t)
  {
    if id in Ids(active) {
      IdsAt(active, id);
      var i :| 0 <= i < |active| && active[i].id == id;
      ReadyAt(snapshots, v, active, i);
      assert Ticked(snapshots, v, active[i], snapshots', Replay(v, events));
    } else if id !in snapshots {
      ReplayElsewhere(v, events, id);
    }
  }

  /** Handles a batch of manager events. */
  method Drain(s: Subscription, events: seq<TrackerEvent>, now: int, ghost v: View, ghost gone: set<Id>,
               ghost spans: Spans, ghost id: Id, ghost t: int)
    returns (pending: seq<Event>)
    requires Going(s.snapshots, v, gone, spans) && Proper(Drained(events, now), gone)
    modifies s
    ensures AllLegal(v, pending) && Going(s.snapshots, Replay(v, pending), gone, BatchSpans(spans, events))
    ensures ClosedOnlyAt(v, id, t) && ClosesAt(Drained(events, now), id, t) ==> ClosedOnlyAt(Replay(v, pending), id, t)
  {
    pending := [];
    for k := 0 to |events|
      invariant AllLegal(v, pending) && Going(s.snapshots, Replay(v, pending), gone, BatchSpans(spans, events[..k]))
      invariant ClosedOnlyAt(v, id, t) && ClosesAt(Drained(events, now), id, t) ==>
                  ClosedOnlyAt(Replay(v, pending), id, t)
    {
      assert events[k] in events && events[..k + 1][..k] == events[..k];
      ghost var before, v' := s.snapshots, Replay(v, pending);
      var message := s.ApplyConnectionEvent(events[k], now, v', gone);
      GoingAfterEvent(before, v', gone, BatchSpans(spans, events[..k]), events[k], s.snapshots, message);
      if message != None {
        Send(v, pending, message.value);
        if events[k].id != id {
          ApplyElsewhere(v', message.value, id);
        }
        pending := pending + [message.value];
      }
    }
    assert events[..|events|] == events;
  }

  lemma TickReady(snapshots: Snapshots, v: View, gone: set<Id>, active: seq<Metadata>)
    requires InStep(snapshots, v, gone) && Ids(active) !! gone
    ensures Ready(snapshots, v, active)
  {
  }

  /** One connection in a tick: what the client has not got of it is what was missed. */
  lemma LagAfterTick(snapshots: Snapshots, v: View, gone: set<Id>, spans: Spans, active: seq<Metadata>,
                     snapshots': Snapshots, v': View, i: nat)
    requires Going(snapshots, v, gone, spans) && Ready(snapshots, v, active) && DistinctIds(active) && i < |active|
    requires Ticked(snapshots, v, active[i], snapshots', v')
    ensures var m, spans' := active[i], TickSpans(spans, active);
            && ShowsOne(v', m, spans')
            && spans'[m.id] != [] && spans'[m.id][|spans'[m.id]| - 1] == CountersOf(m)
            && snapshots'[m.id].uplink == m.upload && snapshots'[m.id].downlink == m.download
  {
    var m := active[i];
    TickSpansAt(spans, active, i);
    ReadyAt(snapshots, v, active, i);
    if m.id in spans {
      MissedMore(spans[m.id], CountersOf(m));
      assert Lags(snapshots, v, spans, m.id);
    }
  }

  lemma GoingAfterTick(snapshots: Snapshots, v: View, gone: set<Id>, spans: Spans, active: seq<Metadata>,
                       snapshots': Snapshots, v': View)
    requires Going(snapshots, v, gone, spans) && Ready(snapshots, v, active) && DistinctIds(active)
    requires snapshots'.Keys == Active(v') == Ids(active) && InStep(snapshots', v', gone)
    requires forall i :: 0 <= i < |active| ==> Ticked(snapshots, v, active[i], snapshots', v')
    ensures var spans' := TickSpans(spans, active);
            && Going(snapshots', v', gone, spans')
            && forall i :: 0 <= i < |active| ==> ShowsOne(v', active[i], spans')
  {
    var spans' := TickSpans(spans, active);
    TickSpansKeys(spans, active);
    forall i | 0 <= i < |active|
      ensures ShowsOne(v', active[i], spans')
    {
      LagAfterTick(snapshots, v, gone, spans, active, snapshots', v', i);
    }
    forall id | id in spans'
      ensures spans'[id] != []
      ensures spans'[id][|spans'[id]| - 1] == Counters(snapshots'[id].uplink, snapshots'[id].downlink)
      ensures Lags(snapshots', v', spans', id)
    {
      IdsAt(active, id);
      var i :| 0 <= i < |active| && active[i].id == id;
      LagAfterTick(snapshots, v, gone, spans, active, snapshots', v', i);
    }
  }

  /** Handles one input. */
  method Serve(s: Subscription, input: Input, ghost v: View, ghost gone: set<Id>, ghost spans: Spans,
               ghost id: Id, ghost t: int)
    returns (events: seq<Event>)
    requires Going(s.snapshots, v, gone, spans) && Proper(input, gone)
    modifies s
    ensures AllLegal(v, events)
    ensures Going(s.snapshots, Replay(v, events), gone, InputSpans(spans, input))
    ensures Serves(input, Replay(v, events), InputSpans(spans, input))
    ensures ClosedOnlyAt(v, id, t) && ClosesAt(input, id, t) ==> ClosedOnlyAt(Replay(v, events), id, t)
  {
    match input {
      case Drained(batch, now) =>
        events := Drain(s, batch, now, v, gone, spans, id, t);
      case Tick(active, closed, now) =>
        ghost var before := s.snapshots;
        TickReady(s.snapshots, v, gone, active);
        events := s.BuildTrafficUpdates(active, closed, now, v);
        GoingAfterTick(before, v, gone, spans, active, s.snapshots, Replay(v, events));
        if ClosedOnlyAt(v, id, t) && ClosesAt(input, id, t) {
          ClosingAfterTick(before, v, active, closed, now, s.snapshots, events, id, t);
        }
    }
  }

  /** After each of the inputs the client sees what it should; the first message, which announces `spans`, comes before
      the inputs. */
  ghost predicate AllServed(inputs: seq<Input>, messages: seq<seq<Event>>, spans: Spans) {
    && |messages| == |inputs| + 1
    && forall k :: 0 <= k < |inputs| ==> ServedAt(inputs, messages, spans, k)
  }

  /** Input `k` was followed by message `k + 1`, and the client then saw what it should. */
  ghost predicate ServedAt(inputs: seq<Input>, messages: seq<seq<Event>>, spans: Spans, k: nat)
    requires k < |inputs| && k + 2 <= |messages|
  {
    Serves(inputs[k], ViewOf(messages[..k + 2]), SpansAfter(spans, inputs[..k + 1]))
  }

  /** What comes later makes no difference. */
  lemma ServedBefore(inputs: seq<Input>, messages: seq<seq<Event>>, spans: Spans, k: nat, n: nat, message: seq<Event>)
    requires k < n < |inputs| && k + 2 <= |messages| && ServedAt(inputs[..n], messages, spans, k)
    ensures ServedAt(inputs[..n + 1], messages + [message], spans, k)
  {
    assert (messages + [message])[..k + 2] == messages[..k + 2];
    assert inputs[..n][..k + 1] == inputs[..k + 1] == inputs[..n + 1][..k + 1];
  }

  lemma ServedOne(inputs: seq<Input>, n: nat, messages: seq<seq<Event>>, message: seq<Event>, spans: Spans)
    requires n < |inputs| && AllServed(inputs[..n], messages, spans)
    requires Serves(inputs[n], ViewOf(messages + [message]), SpansAfter(spans, inputs[..n + 1]))
    ensures AllServed(inputs[..n + 1], messages + [message], spans)
  {
    var inputs', messages' := inputs[..n + 1], messages + [message];
    forall k | 0 <= k < n
      ensures ServedAt(inputs', messages', spans, k)
    {
      ServedBefore(inputs, messages, spans, k, n, message);
    }
    assert messages'[..n + 2] == messages';
    assert inputs'[..n + 1] == inputs';
    assert ServedAt(inputs', messages', spans, n);
  }

  /** A subscription from its first message on.  Whatever events were lost, late or repeated in between: every
      message makes sense when it comes, and after every tick the client has exactly the manager's active connections,
      and of each the manager's totals without what was missed since it was last announced.  And if whatever the manager
      says of the end of connection `id` is that it was closed at `t`, then the client never shows another time. */
  method SubscribeConnections(active: seq<Metadata>, closed: seq<Metadata>, inputs: seq<Input>, ghost id: Id,
                              ghost t: int)
    returns (messages: seq<seq<Event>>)
    requires DistinctIds(active) && forall m :: m in closed ==> ProperTime(m.closedAt)
    requires forall k :: 0 <= k < |inputs| ==> Proper(inputs[k], Ids(active) * Ids(closed))
    ensures MessagesLegal(messages)
    ensures messages != [] && Active(ViewOf(messages[..1])) == Ids(active) - Ids(closed)
    ensures AllServed(inputs, messages, TickSpans(map[], active))
    ensures (forall m :: m in closed && m.id == id ==> m.closedAt == Some(t)) &&
            (forall k :: 0 <= k < |inputs| ==> ClosesAt(inputs[k], id, t)) ==>
              ClosedOnlyAt(ViewOf(messages), id, t)
  {
    var s := new Subscription();
    var events := s.BuildInitialConnectionState(active, closed);
    GoingAfterInitial(active, closed, s.snapshots, Replay(map[], events));
    MoreMessages([], events);
    assert [] + [events] == [events];
    if forall m :: m in closed && m.id == id ==> m.closedAt == Some(t) {
      InitialClosing(active, closed, Replay(map[], events), id, t);
    }
    messages := ServeAll(s, events, inputs, Ids(active) * Ids(closed), TickSpans(map[], active), id, t);
  }

  /** The loop of a subscription after its first message. */
  method ServeAll(s: Subscription, first: seq<Event>, inputs: seq<Input>, ghost gone: set<Id>, ghost spans: Spans,
                  ghost id: Id, ghost t: int)
    returns (messages: seq<seq<Event>>)
    requires MessagesLegal([first]) && forall k :: 0 <= k < |inputs| ==> Proper(inputs[k], gone)
    requires Going(s.snapshots, ViewOf([first]), gone, spans)
    modifies s
    ensures MessagesLegal(messages) && messages != [] && messages[..1] == [first]
    ensures AllServed(inputs, messages, spans)
    ensures ClosedOnlyAt(ViewOf([first]), id, t) && (forall k :: 0 <= k < |inputs| ==> ClosesAt(inputs[k], id, t)) ==>
              ClosedOnlyAt(ViewOf(messages), id, t)
  {
    messages := [first];
    for k := 0 to |inputs|
      invariant MessagesLegal(messages) && AllServed(inputs[..k], messages, spans) && messages[0] == first
      invariant Going(s.snapshots, ViewOf(messages), gone, SpansAfter(spans, inputs[..k]))
      invariant ClosedOnlyAt(ViewOf([first]), id, t) &&
                (forall j :: 0 <= j < |inputs| ==> ClosesAt(inputs[j], id, t)) ==>
                  ClosedOnlyAt(ViewOf(messages), id, t)
    {
      assert inputs[..k + 1][..k] == inputs[..k];
      var message := Serve(s, inputs[k], ViewOf(messages), gone, SpansAfter(spans, inputs[..k]), id, t);
      MoreMessages(messages, message);
      ServedOne(inputs, k, messages, message, spans);
      messages := messages + [message];
    }
    assert inputs[..|inputs|] == inputs;
  }

  lemma InitialClosing(active: seq<Metadata>, closed: seq<Metadata>, v: View, id: Id, t: int)
    requires Active(v) == Ids(active) - Ids(closed) && v.Keys <= Ids(active) + Ids(closed)
    requires forall i :: i in Ids(closed) ==> Listed(v, i, closed)
    requires forall m :: m in closed && m.id == id ==> m.closedAt == Some(t)
    ensures ClosedOnlyAt(v, id, t)
  {
    if id in Ids(closed) {
      assert Listed(v, id, closed);
    } else {
      assert id in v ==> id in Active(v);
    }
  }

  lemma GoingAfterInitial(active: seq<Metadata>, closed: seq<Metadata>, snapshots: Snapshots, v: View)
    requires DistinctIds(active) && snapshots == NotedAll(map[], map[], active)
    requires InStep(snapshots, v, Ids(active) * Ids(closed)) && TotalsInStep(snapshots, v)
    ensures Going(snapshots, v, Ids(active) * Ids(closed), TickSpans(map[], active))
  {
    var spans := TickSpans(map[], active);
    TickSpansKeys(map[], active);
    SeenKeys(map[], map[], active);
    forall id | id in spans
      ensures spans[id] == [Counters(snapshots[id].uplink, snapshots[id].downlink)]
    {
      IdsAt(active, id);
      var k :| 0 <= k < |active| && active[k].id == id;
      TickSpansAt(map[], active, k);
      SeenAt(map[], map[], active, k);
    }
    forall id
      ensures Lags(snapshots, v, spans, id)
    {
      assert TotalsAt(snapshots, v, id);
    }
  }
}
