/**
 The connection stream: the daemon turns the tables of its traffic manager, and events about them that may be lost,
 late or repeated, into NEW, UPDATE and CLOSED messages, and a client rebuilds the connections from them.
 The client is the accumulator of `experimental/libbox`.
 */
module ConnectionStream {
  import opened Prelude

  /** A connection's UUID; `NIL` is the nil UUID. */
  type Id = nat

  const NIL: Id := 0

  /** A point in time in Unix milliseconds; `None` is Go's zero time. */
  type Time = Option<int>

  const ZERO_MILLIS := -62135596800000

  function Millis(t: Time): int {
    if t.Some? then t.value else ZERO_MILLIS
  }

  /** What the traffic manager knows of a connection. */
  datatype Metadata = Metadata(id: Id, upload: int, download: int, closedAt: Time)

  /** What the client knows: totals, the last deltas, and when it was closed (zero while it is active). */
  datatype Connection = Connection(upTotal: int, downTotal: int, up: int, down: int, closedAt: int)

  datatype Event =
    | New(id: Id, conn: Connection)
    | Update(id: Id, up: int, down: int)
    | Closed(id: Id, closedAt: int, info: Option<Connection>)

  function Build(m: Metadata): Connection {
    Connection(m.upload, m.download, 0, 0, 0)
  }

  // ----- The client -----

  type View = map<Id, Connection>

  function Apply(v: View, e: Event): View {
    match e
    case New(id, conn) => v[id := conn]
    case Update(id, up, down) =>
      if id !in v then v else
      v[id := v[id].(up := up, down := down, upTotal := v[id].upTotal + up, downTotal := v[id].downTotal + down)]
    case Closed(id, closedAt, info) =>
      if info.Some? then v[id := info.value.(closedAt := closedAt, up := 0, down := 0)]
      else if id in v then v[id := v[id].(closedAt := closedAt, up := 0, down := 0)]
      else v
  }

  /** The view after all of `events`. */
  function Replay(v: View, events: seq<Event>): View {
    if events == [] then v else Apply(Replay(v, events[..|events| - 1]), events[|events| - 1])
  }

  function Active(v: View): set<Id> {
    set id | id in v && v[id].closedAt == 0
  }

  predicate Busy(c: Connection) {
    c.up != 0 || c.down != 0
  }

  /** A message that makes sense to a client with view `v`: an active connection is announced only when it is not
      active already, only active connections are updated, traffic never shrinks, and an update without traffic only
      ends a period of traffic. */
  predicate Legal(v: View, e: Event) {
    match e
    case New(id, conn) => (conn.closedAt == 0 ==> id !in Active(v)) && !Busy(conn)
    case Update(id, up, down) =>
      && id in Active(v)
      && up >= 0 && down >= 0
      && (up == 0 && down == 0 ==> Busy(v[id]))
    case Closed(_, closedAt, _) => closedAt != 0
  }

  predicate AllLegal(v: View, events: seq<Event>) {
    events == [] ||
    (var n := |events| - 1; AllLegal(v, events[..n]) && Legal(Replay(v, events[..n]), events[n]))
  }

  /** One more message. */
  lemma Send(v: View, events: seq<Event>, e: Event)
    requires AllLegal(v, events) && Legal(Replay(v, events), e)
    ensures AllLegal(v, events + [e])
    ensures Replay(v, events + [e]) == Apply(Replay(v, events), e)
  {
    assert (events + [e])[..|events|] == events;
  }

  class Connections {
    var connectionMap: View

    constructor ()
      ensures connectionMap == map[]
    {
      connectionMap := map[];
    }

    method ApplyEvents(reset: bool, events: seq<Event>)
      modifies this
      ensures connectionMap == Replay(if reset then map[] else old(connectionMap), events)
    {
      if reset {
        connectionMap := map[];
      }
      ghost var before := connectionMap;
      for k := 0 to |events|
        invariant connectionMap == Replay(before, events[..k])
      {
        match events[k] {
          case New(id, conn) =>
            connectionMap := connectionMap[id := conn];
          case Update(id, up, down) =>
            if id in connectionMap {
              var conn := connectionMap[id];
              connectionMap :=
                connectionMap[id := Connection(conn.upTotal + up, conn.downTotal + down, up, down, conn.closedAt)];
            }
          case Closed(id, closedAt, info) =>
            if info != None {
              connectionMap := connectionMap[id := info.value.(closedAt := closedAt, up := 0, down := 0)];
            } else if id in connectionMap {
              connectionMap := connectionMap[id := connectionMap[id].(closedAt := closedAt, up := 0, down := 0)];
            }
        }
        assert events[..k + 1][..k] == events[..k];
      }
      assert events[..|events|] == events;
    }
  }

  // ----- The daemon -----

  datatype Snapshot = Snapshot(uplink: int, downlink: int, hadTraffic: bool)

  type Snapshots = map<Id, Snapshot>

  function Noted(m: Metadata): Snapshot {
    Snapshot(m.upload, m.download, false)
  }

  function Ids(table: seq<Metadata>): set<Id> {
    if table == [] then {} else Ids(table[..|table| - 1]) + {table[|table| - 1].id}
  }

  lemma IdsOne(table: seq<Metadata>, k: nat)
    requires k < |table|
    ensures Ids(table[..k + 1]) == Ids(table[..k]) + {table[k].id}
  {
    assert table[..k + 1][..k] == table[..k];
  }

  lemma {:induction false} IdsAt(table: seq<Metadata>, id: Id)
    ensures id in Ids(table) <==> exists i :: 0 <= i < |table| && table[i].id == id
  {
    if table == [] {
    } else {
      IdsAt(table[..|table| - 1], id);
    }
  }

  ghost predicate DistinctIds(table: seq<Metadata>) {
    forall i, j :: 0 <= i < j < |table| ==> table[i].id != table[j].id
  }

  /** A clock reading or a recorded time: any moment but the Unix epoch itself. */
  predicate ProperTime(t: Time) {
    t != Some(0)
  }

  /** The daemon remembers the last counters it told the client, and whether the last message brought traffic. */
  predicate Tracks(s: Snapshot, c: Connection) {
    s.hadTraffic <==> Busy(c)
  }

  predicate SameTotals(s: Snapshot, c: Connection) {
    s.uplink == c.upTotal && s.downlink == c.downTotal
  }

  /** The daemon and the client agree on what is active, except for connections the client knows to be closed. */
  ghost predicate InStep(snapshots: Snapshots, v: View, stale: set<Id>) {
    && Active(v) <= snapshots.Keys <= Active(v) + stale
    && forall id :: id in Active(v) ==> Tracks(snapshots[id], v[id])
  }

  predicate TotalsAt(snapshots: Snapshots, v: View, id: Id) {
    id in Active(v) && id in snapshots ==> SameTotals(snapshots[id], v[id])
  }

  ghost predicate TotalsInStep(snapshots: Snapshots, v: View) {
    forall id :: TotalsAt(snapshots, v, id)
  }

  predicate Backwards(s: Snapshot, m: Metadata) {
    m.upload < s.uplink || m.download < s.downlink
  }

  /** What a tick should make the client see of an active connection: exactly the traffic since the last time, and
      no traffic when a counter went backwards. */
  function Seen(snapshots: Snapshots, v: View, m: Metadata): Connection {
    if m.id !in snapshots || m.id !in v then Build(m) else
    var s, c := snapshots[m.id], v[m.id];
    if Backwards(s, m) then c.(up := 0, down := 0)
    else Connection(c.upTotal + m.upload - s.uplink, c.downTotal + m.download - s.downlink,
                    m.upload - s.uplink, m.download - s.downlink, c.closedAt)
  }

  /** All active connections seen like that, and the snapshots that go with it. */
  function SeenAll(snapshots: Snapshots, v: View, active: seq<Metadata>): View {
    if active == [] then v else
    var m := active[|active| - 1];
    SeenAll(snapshots, v, active[..|active| - 1])[m.id := Seen(snapshots, v, m)]
  }

  function NotedAll(snapshots: Snapshots, v: View, active: seq<Metadata>): Snapshots {
    if active == [] then snapshots else
    var m := active[|active| - 1];
    NotedAll(snapshots, v, active[..|active| - 1])[m.id := Snapshot(m.upload, m.download, Busy(Seen(snapshots, v, m)))]
  }

  lemma {:induction false} SeenElsewhere(snapshots: Snapshots, v: View, active: seq<Metadata>, id: Id)
    requires id !in Ids(active)
    ensures id in SeenAll(snapshots, v, active) <==> id in v
    ensures id in v ==> SeenAll(snapshots, v, active)[id] == v[id]
    ensures id in NotedAll(snapshots, v, active) <==> id in snapshots
    ensures id in snapshots ==> NotedAll(snapshots, v, active)[id] == snapshots[id]
  {
    if active == [] {
    } else {
      SeenElsewhere(snapshots, v, active[..|active| - 1], id);
    }
  }

  lemma SeenOne(snapshots: Snapshots, v: View, active: seq<Metadata>, k: nat)
    requires k < |active| && active[k].id !in Ids(active[..k])
    ensures var m, seen, noted := active[k], SeenAll(snapshots, v, active[..k]), NotedAll(snapshots, v, active[..k]);
            && (m.id in noted <==> m.id in snapshots) && (m.id in seen <==> m.id in v)
            && (m.id in v ==> seen[m.id] == v[m.id])
            && (m.id in snapshots ==> noted[m.id] == snapshots[m.id])
            && SeenAll(snapshots, v, active[..k + 1]) == seen[m.id := Seen(noted, seen, m)]
            && NotedAll(snapshots, v, active[..k + 1]) ==
                 noted[m.id := Snapshot(m.upload, m.download, Busy(Seen(noted, seen, m)))]
  {
    SeenElsewhere(snapshots, v, active[..k], active[k].id);
    assert active[..k + 1][..k] == active[..k];
  }

  lemma {:induction false} SeenAt(snapshots: Snapshots, v: View, active: seq<Metadata>, k: nat)
    requires k < |active| && DistinctIds(active)
    ensures var m := active[k];
            && m.id in SeenAll(snapshots, v, active) && m.id in NotedAll(snapshots, v, active)
            && SeenAll(snapshots, v, active)[m.id] == Seen(snapshots, v, m)
            && NotedAll(snapshots, v, active)[m.id] == Snapshot(m.upload, m.download, Busy(Seen(snapshots, v, m)))
  {
    if k == |active| - 1 {
    } else {
      SeenAt(snapshots, v, active[..|active| - 1], k);
    }
  }

  lemma {:induction false} SeenKeys(snapshots: Snapshots, v: View, active: seq<Metadata>)
    ensures SeenAll(snapshots, v, active).Keys == v.Keys + Ids(active)
    ensures NotedAll(snapshots, v, active).Keys == snapshots.Keys + Ids(active)
  {
    if active == [] {
    } else {
      SeenKeys(snapshots, v, active[..|active| - 1]);
    }
  }

  /** The active connections a tick may find already announced are active for the client too. */
  ghost predicate Ready(snapshots: Snapshots, v: View, active: seq<Metadata>) {
    && Active(v) <= snapshots.Keys
    && forall id :: id in snapshots && id in Ids(active) ==> id in Active(v) && Tracks(snapshots[id], v[id])
  }

  lemma ReadyAt(snapshots: Snapshots, v: View, active: seq<Metadata>, k: nat)
    requires Ready(snapshots, v, active) && k < |active|
    ensures active[k].id in snapshots ==> active[k].id in Active(v) && Tracks(snapshots[active[k].id], v[active[k].id])
  {
    IdsAt(active, active[k].id);
  }

  /** At most one message per connection, all about `ids`. */
  ghost predicate OnePerId(events: seq<Event>, ids: set<Id>) {
    && (forall k :: 0 <= k < |events| ==> events[k].id in ids)
    && (forall i, j :: 0 <= i < j < |events| ==> events[i].id != events[j].id)
  }

  lemma OnePerIdMore(events: seq<Event>, ids: set<Id>, message: Option<Event>, id: Id)
    requires OnePerId(events, ids) && id !in ids && (message.Some? ==> message.value.id == id)
    ensures OnePerId(if message.Some? then events + [message.value] else events, ids + {id})
  {
  }

  lemma OnePerIdAll(events: seq<Event>, ids: set<Id>, more: seq<Event>, others: set<Id>)
    requires OnePerId(events, ids) && OnePerId(more, others) && ids !! others
    ensures OnePerId(events + more, ids + others)
  {
  }

  lemma {:induction false} SendAll(v: View, events: seq<Event>, more: seq<Event>)
    requires AllLegal(v, events) && AllLegal(Replay(v, events), more)
    ensures AllLegal(v, events + more) && Replay(v, events + more) == Replay(Replay(v, events), more)
  {
    if more == [] {
      assert events + more == events;
    } else {
      var n := |more| - 1;
      SendAll(v, events, more[..n]);
      assert (events + more)[..|events| + n] == events + more[..n];
    }
  }

  /** From `v` to `v'` the connections `ids` have been closed and nothing else has changed. */
  ghost predicate Closes(v: View, v': View, ids: set<Id>) {
    forall id :: if id in ids then id !in Active(v') else (id in v <==> id in v') && (id in v ==> v'[id] == v[id])
  }

  lemma ClosesOne(v: View, v': View, ids: set<Id>, e: Event)
    requires Closes(v, v', ids) && e.Closed? && e.closedAt != 0
    ensures Closes(v, Apply(v', e), ids + {e.id})
  {
  }

  /** Connection `m` has been dealt with in a tick that began with `snapshots` and view `v`. */
  predicate Ticked(snapshots: Snapshots, v: View, m: Metadata, snapshots': Snapshots, v': View) {
    && m.id in v' && v'[m.id] == Seen(snapshots, v, m)
    && m.id in snapshots' && snapshots'[m.id] == Snapshot(m.upload, m.download, Busy(v'[m.id]))
  }

  lemma AfterTick(snapshots: Snapshots, v: View, active: seq<Metadata>, snapshots': Snapshots, v': View)
    requires DistinctIds(active) && Ready(snapshots, v, active)
    requires snapshots' == NotedAll(snapshots, v, active) - (snapshots.Keys + Ids(active) - Ids(active))
    requires Closes(SeenAll(snapshots, v, active), v', snapshots.Keys + Ids(active) - Ids(active))
    ensures snapshots'.Keys == Active(v') == Ids(active)
    ensures forall i :: 0 <= i < |active| ==> Ticked(snapshots, v, active[i], snapshots', v')
    ensures InStep(snapshots', v', {})
  {
    SeenKeys(snapshots, v, active);
    forall i | 0 <= i < |active|
      ensures Ticked(snapshots, v, active[i], snapshots', v') && active[i].id in Active(v')
    {
      SeenAt(snapshots, v, active, i);
      IdsAt(active, active[i].id);
    }
    forall id
      ensures id in Active(v') <==> id in Ids(active)
      ensures id in Active(v') ==> id in snapshots' && Tracks(snapshots'[id], v'[id])
    {
      IdsAt(active, id);
      if id !in Ids(active) {
        SeenElsewhere(snapshots, v, active, id);
      }
    }
  }

  lemma MoveOne(snapshots: Snapshots, stale: set<Id>, pending: set<Id>, id: Id)
    requires id in pending && pending <= stale
    ensures stale - (pending - {id}) == stale - pending + {id}
    ensures (snapshots - (stale - pending)) - {id} == snapshots - (stale - (pending - {id}))
  {
  }

  /** What the client keeps of a connection that the manager has forgotten: the totals it had. */
  predicate Ended(v: View, v': View, id: Id, closedAt: int) {
    (id in v <==> id in v') && (id in v ==> v'[id] == v[id].(closedAt := closedAt, up := 0, down := 0))
  }

  /** And of one that the manager remembers: its last totals and when it was closed. */
  predicate KeepsOf(c: Connection, m: Metadata, now: int) {
    && c.upTotal == m.upload && c.downTotal == m.download && c.up == 0 && c.down == 0
    && c.closedAt == if m.closedAt.Some? then m.closedAt.value else now
  }

  predicate Remembers(v: View, v': View, id: Id, index: map<Id, Metadata>, now: int) {
    if id in index then id in v' && KeepsOf(v'[id], index[id], now) else Ended(v, v', id, now)
  }

  lemma RemembersOne(v: View, v': View, done: set<Id>, id: Id, index: map<Id, Metadata>, now: int)
    requires now != 0 && (id in index ==> ProperTime(index[id].closedAt))
    requires Closes(v, v', done) && id !in done && forall d :: d in done ==> Remembers(v, v', d, index, now)
    ensures forall d :: d in done + {id} ==> Remembers(v, Apply(v', ClosedMessage(id, index, now)), d, index, now)
  {
  }

  /** `m` is the last one of its connection in the table. */
  ghost predicate LastOf(table: seq<Metadata>, m: Metadata) {
    exists k :: 0 <= k < |table| && table[k] == m && forall j :: k < j < |table| ==> table[j].id != m.id
  }

  /** In a tick, `id` has been closed: it was not in the table of active connections. */
  ghost predicate ClosedInTick(v: View, v': View, id: Id, closed: seq<Metadata>, now: int) {
    if id in Ids(closed) then exists m :: LastOf(closed, m) && m.id == id && id in v' && KeepsOf(v'[id], m, now)
    else Ended(v, v', id, now)
  }

  lemma AfterStale(snapshots: Snapshots, v: View, active: seq<Metadata>, v': View, id: Id, closed: seq<Metadata>,
                   index: map<Id, Metadata>, now: int)
    requires id !in Ids(active) && Remembers(SeenAll(snapshots, v, active), v', id, index, now)
    requires index.Keys == Ids(closed) && (id in index ==> index[id].id == id && LastOf(closed, index[id]))
    ensures ClosedInTick(v, v', id, closed, now)
  {
    SeenElsewhere(snapshots, v, active, id);
  }

  /** The message for a connection that is no longer active: with what is remembered of it, if anything. */
  function ClosedMessage(id: Id, index: map<Id, Metadata>, now: int): (e: Event)
    requires now != 0 && (id in index ==> ProperTime(index[id].closedAt))
    ensures e.Closed? && e.id == id && e.closedAt != 0
  {
    if id !in index then Closed(id, now, None) else
    var closedAt := if index[id].closedAt.Some? then index[id].closedAt.value else now;
    Closed(id, closedAt, Some(Build(index[id]).(closedAt := closedAt)))
  }

  /** The messages close exactly the connections `done`, one message each. */
  ghost predicate ClosedAll(v: View, events: seq<Event>, done: set<Id>, index: map<Id, Metadata>, now: int) {
    && AllLegal(v, events) && OnePerId(events, done)
    && Closes(v, Replay(v, events), done)
    && forall id :: id in done ==> Remembers(v, Replay(v, events), id, index, now)
  }

  lemma ClosedOne(v: View, events: seq<Event>, done: set<Id>, id: Id, index: map<Id, Metadata>, now: int)
    requires now != 0 && (id in index ==> ProperTime(index[id].closedAt))
    requires ClosedAll(v, events, done, index, now) && id !in done
    ensures ClosedAll(v, events + [ClosedMessage(id, index, now)], done + {id}, index, now)
  {
    var e := ClosedMessage(id, index, now);
    Send(v, events, e);
    OnePerIdMore(events, done, Some(e), id);
    ClosesOne(v, Replay(v, events), done, e);
    RemembersOne(v, Replay(v, events), done, id, index, now);
  }

  /** What an active connection finds in a tick, and what is to come of it. */
  lemma UpdateStep(snapshots: Snapshots, v: View, active: seq<Metadata>, k: nat)
    requires DistinctIds(active) && Ready(snapshots, v, active) && k < |active|
    ensures var m, noted, seen := active[k], NotedAll(snapshots, v, active[..k]), SeenAll(snapshots, v, active[..k]);
            && m.id !in Ids(active[..k]) && Ids(active[..k + 1]) == Ids(active[..k]) + {m.id}
            && (if m.id in noted then m.id in Active(seen) && Tracks(noted[m.id], seen[m.id])
                else m.id !in Active(seen))
            && SeenAll(snapshots, v, active[..k + 1]) == seen[m.id := Seen(noted, seen, m)]
            && NotedAll(snapshots, v, active[..k + 1]) ==
                 noted[m.id := Snapshot(m.upload, m.download, Busy(Seen(noted, seen, m)))]
  {
    IdsOne(active, k);
    IdsAt(active[..k], active[k].id);
    ReadyAt(snapshots, v, active, k);
    SeenOne(snapshots, v, active, k);
  }

  /** One more message, or none. */
  lemma MaybeSend(v: View, events: seq<Event>, message: Option<Event>, ids: set<Id>, id: Id)
    requires AllLegal(v, events) && OnePerId(events, ids) && id !in ids
    requires message.Some? ==> message.value.id == id && Legal(Replay(v, events), message.value)
    ensures var events' := if message.Some? then events + [message.value] else events;
            && AllLegal(v, events') && OnePerId(events', ids + {id})
            && Replay(v, events') ==
                 if message.Some? then Apply(Replay(v, events), message.value) else Replay(v, events)
  {
    OnePerIdMore(events, ids, message, id);
    if message.Some? {
      Send(v, events, message.value);
    }
  }

  lemma AfterInitial(active: seq<Metadata>, closed: seq<Metadata>, v: View)
    requires DistinctIds(active) && Closes(SeenAll(map[], map[], active), v, Ids(closed))
    ensures var snapshots := NotedAll(map[], map[], active);
            && snapshots.Keys == Ids(active)
            && Active(v) == Ids(active) - Ids(closed)
            && InStep(snapshots, v, Ids(active) * Ids(closed))
            && (InStep(snapshots, v, {}) <==> Ids(active) !! Ids(closed))
            && TotalsInStep(snapshots, v) && v.Keys <= Ids(active) + Ids(closed)
  {
    SeenKeys(map[], map[], active);
    forall id | id in Ids(active)
      ensures var seen, snapshots := SeenAll(map[], map[], active), NotedAll(map[], map[], active);
              id in Active(seen) && Tracks(snapshots[id], seen[id]) && SameTotals(snapshots[id], seen[id])
    {
      IdsAt(active, id);
      var k :| 0 <= k < |active| && active[k].id == id;
      SeenAt(map[], map[], active, k);
    }
  }

  /** The client shows `id` as one of the closed connections. */
  ghost predicate Listed(v: View, id: Id, closed: seq<Metadata>) {
    exists m :: LastOf(closed, m) && m.id == id && id in v &&
                v[id] == Connection(m.upload, m.download, 0, 0,
                                    if m.closedAt.Some? then m.closedAt.value else -62135596800000)
  }

  lemma ListedMore(v: View, closed: seq<Metadata>, k: nat)
    requires k < |closed| && forall id :: id in Ids(closed[..k]) ==> Listed(v, id, closed[..k])
    ensures var m := closed[k];
            var v' := v[m.id := Build(m).(closedAt := Millis(m.closedAt))];
            forall id :: id in Ids(closed[..k]) + {m.id} ==> Listed(v', id, closed[..k + 1])
  {
    LastOfMore(closed, k);
  }

  /** The closed connections of the first message. */
  method AnnounceClosed(closed: seq<Metadata>, ghost v: View) returns (events: seq<Event>)
    requires forall m :: m in closed ==> ProperTime(m.closedAt)
    ensures AllLegal(v, events) && Closes(v, Replay(v, events), Ids(closed))
    ensures forall id :: id in Ids(closed) ==> Listed(Replay(v, events), id, closed)
  {
    events := [];
    ghost var v' := v;
    for k := 0 to |closed|
      invariant AllLegal(v, events) && v' == Replay(v, events)
      invariant Closes(v, v', Ids(closed[..k]))
      invariant forall id :: id in Ids(closed[..k]) ==> Listed(v', id, closed[..k])
    {
      var m := closed[k];
      IdsOne(closed, k);
      var e := New(m.id, Build(m).(closedAt := Millis(m.closedAt)));
      Send(v, events, e);
      ListedMore(v', closed, k);
      v' := Apply(v', e);
      events := events + [e];
    }
    assert closed[..|closed|] == closed;
  }

  lemma LastOfMore(table: seq<Metadata>, k: nat)
    requires k < |table|
    ensures LastOf(table[..k + 1], table[k])
    ensures forall m :: LastOf(table[..k], m) && m.id != table[k].id ==> LastOf(table[..k + 1], m)
  {
    assert table[..k + 1][k] == table[k];
    forall m | LastOf(table[..k], m) && m.id != table[k].id
      ensures LastOf(table[..k + 1], m)
    {
      var i :| 0 <= i < k && table[..k][i] == m && forall j :: i < j < k ==> table[..k][j].id != m.id;
      assert table[..k + 1][i] == m;
    }
  }

  /** The index of closed connections that a tick builds when it needs one. */
  method IndexClosed(closed: seq<Metadata>) returns (index: map<Id, Metadata>)
    ensures index.Keys == Ids(closed)
    ensures forall id :: id in index ==> index[id].id == id && LastOf(closed, index[id])
  {
    index := map[];
    for k := 0 to |closed|
      invariant index.Keys == Ids(closed[..k])
      invariant forall id :: id in index ==> index[id].id == id && LastOf(closed[..k], index[id])
    {
      IdsOne(closed, k);
      LastOfMore(closed, k);
      index := index[closed[k].id := closed[k]];
    }
    assert closed[..|closed|] == closed;
  }

  datatype TrackerKind = TrackerNew | TrackerClosed | TrackerOther

  /** An event of the traffic manager. */
  datatype TrackerEvent = TrackerEvent(kind: TrackerKind, id: Id, metadata: Metadata, closedAt: Time)

  predicate ProperEvent(event: TrackerEvent) {
    ProperTime(event.closedAt) && ProperTime(event.metadata.closedAt)
  }

  class Subscription {
    var snapshots: Snapshots

    constructor ()
      ensures snapshots == map[]
    {
      snapshots := map[];
    }

    /** The first message: everything active, then everything the manager remembers as closed. */
    method BuildInitialConnectionState(active: seq<Metadata>, closed: seq<Metadata>) returns (events: seq<Event>)
      requires snapshots == map[]
      requires DistinctIds(active) && forall m :: m in closed ==> ProperTime(m.closedAt)
      modifies this
      ensures snapshots == NotedAll(map[], map[], active) && snapshots.Keys == Ids(active)
      ensures AllLegal(map[], events)
      ensures var v := Replay(map[], events);
              && Active(v) == Ids(active) - Ids(closed)
              && InStep(snapshots, v, Ids(active) * Ids(closed))
              && (InStep(snapshots, v, {}) <==> Ids(active) !! Ids(closed))
              && TotalsInStep(snapshots, v) && v.Keys <= Ids(active) + Ids(closed)
              && forall id :: id in Ids(closed) ==> Listed(v, id, closed)
    {
      events := [];
      ghost var v := map[];
      for k := 0 to |active|
        invariant v == SeenAll(map[], map[], active[..k]) && snapshots == NotedAll(map[], map[], active[..k])
        invariant AllLegal(map[], events) && v == Replay(map[], events)
      {
        var m := active[k];
        IdsAt(active[..k], m.id);
        SeenOne(map[], map[], active, k);
        Send(map[], events, New(m.id, Build(m)));
        v := Apply(v, New(m.id, Build(m)));
        events := events + [New(m.id, Build(m))];
        snapshots := snapshots[m.id := Snapshot(m.upload, m.download, false)];
      }
      assert active[..|active|] == active;
      var more := AnnounceClosed(closed, v);
      SendAll(map[], events, more);
      AfterInitial(active, closed, Replay(v, more));
      events := events + more;
    }

    /** One active connection in a tick. */
    method UpdateOne(m: Metadata, ghost v: View) returns (message: Option<Event>)
      requires if m.id in snapshots then m.id in Active(v) && Tracks(snapshots[m.id], v[m.id]) else m.id !in Active(v)
      modifies this
      ensures snapshots == old(snapshots)[m.id := Snapshot(m.upload, m.download, Busy(Seen(old(snapshots), v, m)))]
      ensures message.Some? ==> message.value.id == m.id && Legal(v, message.value)
      ensures v[m.id := Seen(old(snapshots), v, m)] == if message.Some? then Apply(v, message.value) else v
    {
      if m.id !in snapshots {
        snapshots := snapshots[m.id := Snapshot(m.upload, m.download, false)];
        return Some(New(m.id, Build(m)));
      }
      var snapshot := snapshots[m.id];
      var upDelta, downDelta := m.upload - snapshot.uplink, m.download - snapshot.downlink;
      if upDelta < 0 || downDelta < 0 {
        snapshots := snapshots[m.id := Snapshot(m.upload, m.download, false)];
        return if snapshot.hadTraffic then Some(Update(m.id, 0, 0)) else None;
      }
      if upDelta > 0 || downDelta > 0 {
        snapshots := snapshots[m.id := Snapshot(m.upload, m.download, true)];
        return Some(Update(m.id, upDelta, downDelta));
      }
      if snapshot.hadTraffic {
        snapshots := snapshots[m.id := Snapshot(m.upload, m.download, false)];
        return Some(Update(m.id, 0, 0));
      }
      message := None;
    }

    /** The part of a tick that goes through the active connections. */
    method UpdateActive(active: seq<Metadata>, ghost v: View) returns (events: seq<Event>)
      requires DistinctIds(active) && Ready(snapshots, v, active)
      modifies this
      ensures snapshots == NotedAll(old(snapshots), v, active)
      ensures AllLegal(v, events) && Replay(v, events) == SeenAll(old(snapshots), v, active)
      ensures OnePerId(events, Ids(active))
    {
      events := [];
      ghost var before := snapshots;
      for k := 0 to |active|
        invariant snapshots == NotedAll(before, v, active[..k]) && Replay(v, events) == SeenAll(before, v, active[..k])
        invariant AllLegal(v, events) && OnePerId(events, Ids(active[..k]))
      {
        UpdateStep(before, v, active, k);
        var message := UpdateOne(active[k], Replay(v, events));
        MaybeSend(v, events, message, Ids(active[..k]), active[k].id);
        if message != None {
          events := events + [message.value];
        }
      }
      assert active[..|active|] == active;
    }

    /** The part of a tick that closes what is no longer active, in any order. */
    method CloseStale(active: set<Id>, index: map<Id, Metadata>, now: int, ghost v: View) returns (events: seq<Event>)
      requires now != 0 && forall id :: id in index ==> ProperTime(index[id].closedAt)
      modifies this
      ensures snapshots == old(snapshots) - (old(snapshots).Keys - active)
      ensures AllLegal(v, events)
      ensures Closes(v, Replay(v, events), old(snapshots).Keys - active)
      ensures forall id :: id in old(snapshots).Keys - active ==> Remembers(v, Replay(v, events), id, index, now)
      ensures OnePerId(events, old(snapshots).Keys - active)
    {
      events := [];
      ghost var before, stale := snapshots, snapshots.Keys - active;
      var pending := snapshots.Keys - active;
      assert stale - pending == {} && before - {} == before;
      while pending != {}
        invariant pending <= stale && snapshots == before - (stale - pending)
        invariant ClosedAll(v, events, stale - pending, index, now)
        decreases pending
      {
        var id :| id in pending;
        ClosedOne(v, events, stale - pending, id, index, now);
        MoveOne(before, stale, pending, id);
        events := events + [ClosedMessage(id, index, now)];
        snapshots := snapshots - {id};
        pending := pending - {id};
      }
      assert stale - {} == stale;
    }

    /** A tick of the stream's timer. */
    method BuildTrafficUpdates(active: seq<Metadata>, closed: seq<Metadata>, now: int, ghost v: View)
      returns (events: seq<Event>)
      requires DistinctIds(active) && Ready(snapshots, v, active)
      requires now != 0 && forall m :: m in closed ==> ProperTime(m.closedAt)
      modifies this
      ensures snapshots.Keys == Ids(active)
      ensures AllLegal(v, events) && OnePerId(events, old(snapshots).Keys + Ids(active))
      ensures Active(Replay(v, events)) == Ids(active)
      ensures forall i :: 0 <= i < |active| ==> Ticked(old(snapshots), v, active[i], snapshots, Replay(v, events))
      ensures InStep(snapshots, Replay(v, events), {})
      ensures forall id :: id in old(snapshots).Keys - Ids(active) ==>
                ClosedInTick(v, Replay(v, events), id, closed, now)
    {
      ghost var before := snapshots;
      events := UpdateActive(active, v);
      ghost var v1 := SeenAll(before, v, active);
      SeenKeys(before, v, active);
      var index := IndexClosed(closed);
      var stale := CloseStale(Ids(active), index, now, v1);
      AfterTick(before, v, active, snapshots, Replay(v1, stale));
      forall id | id in before.Keys - Ids(active)
        ensures ClosedInTick(v, Replay(v1, stale), id, closed, now)
      {
        AfterStale(before, v, active, Replay(v1, stale), id, closed, index, now);
      }
      SendAll(v, events, stale);
      OnePerIdAll(events, Ids(active), stale, before.Keys + Ids(active) - Ids(active));
      events := events + stale;
    }

    /** An event of the traffic manager arrives. */
    method ApplyConnectionEvent(event: TrackerEvent, now: int, ghost v: View, ghost stale: set<Id>)
      returns (message: Option<Event>)
      requires InStep(snapshots, v, stale) && ProperEvent(event) && now != 0
      modifies this
      ensures snapshots ==
                match event.kind
                case TrackerNew => if event.id in old(snapshots) then old(snapshots)
                                   else old(snapshots)[event.id := Noted(event.metadata)]
                case TrackerClosed => old(snapshots) - {event.id}
                case TrackerOther => old(snapshots)
      ensures message.Some? ==> message.value.id == event.id && Legal(v, message.value)
      ensures message.None? <==> event.kind.TrackerOther? || (event.kind.TrackerNew? && event.id in old(snapshots))
      ensures event.kind.TrackerClosed? ==>
                && message.Some? && message.value.Closed?
                && (event.closedAt.Some? ==> message.value.closedAt == event.closedAt.value)
                && (event.closedAt.None? && event.metadata.closedAt.Some? ==>
                      message.value.closedAt == event.metadata.closedAt.value)
                && (event.closedAt.None? && event.metadata.closedAt.None? ==> message.value.closedAt == now)
      ensures var v' := if message.Some? then Apply(v, message.value) else v;
              && InStep(snapshots, v', stale)
              && (forall id :: TotalsAt(old(snapshots), v, id) ==> TotalsAt(snapshots, v', id))
              && (event.kind.TrackerClosed? && event.metadata.id != NIL ==>
                    event.id in v' && v'[event.id] == Connection(event.metadata.upload, event.metadata.download, 0, 0,
                                                                 message.value.closedAt))
              && (event.kind.TrackerClosed? && event.metadata.id == NIL ==>
                    && (event.id in v' <==> event.id in v)
                    && (event.id in v ==>
                          v'[event.id] == v[event.id].(closedAt := message.value.closedAt, up := 0, down := 0)))
              && (event.kind.TrackerNew? && event.id !in old(snapshots) ==> v' == v[event.id := Build(event.metadata)])
    {
      match event.kind {
        case TrackerNew =>
          if event.id in snapshots {
            return None;
          }
          snapshots := snapshots[event.id := Snapshot(event.metadata.upload, event.metadata.download, false)];
          return Some(New(event.id, Build(event.metadata)));
        case TrackerClosed =>
          snapshots := snapshots - {event.id};
          var closedAt := event.closedAt;
          if closedAt == None && event.metadata.closedAt != None {
            closedAt := event.metadata.closedAt;
          }
          if closedAt == None {
            closedAt := Some(now);
          }
          var info := None;
          if event.metadata.id != NIL {
            info := Some(Build(event.metadata).(closedAt := closedAt.value));
          }
          return Some(Closed(event.id, closedAt.value, info));
        case TrackerOther =>
          return None;
      }
    }
  }
}
