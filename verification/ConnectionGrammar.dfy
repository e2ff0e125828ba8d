/** What the messages about one connection look like to somebody who only reads them. */
module ConnectionGrammar {
  import opened Prelude
  import opened ConnectionRun
  import opened ConnectionStream

  /** All events of the messages, in the order in which they are sent. */
  function Flat(messages: seq<seq<Event>>): seq<Event> {
    if messages == [] then [] else Flat(messages[..|messages| - 1]) + messages[|messages| - 1]
  }

  lemma {:induction false} FlatLegal(messages: seq<seq<Event>>)
    requires MessagesLegal(messages)
    ensures AllLegal(map[], Flat(messages)) && Replay(map[], Flat(messages)) == ViewOf(messages)
  {
    if messages == [] {
    } else {
      var n := |messages| - 1;
      FlatLegal(messages[..n]);
      SendAll(map[], Flat(messages[..n]), messages[n]);
    }
  }

  /** The place of the last event about `id`. */
  function LastAbout(events: seq<Event>, id: Id): (p: Option<nat>)
    ensures p.Some? ==> p.value < |events| && events[p.value].id == id
    ensures p.Some? ==> forall k :: p.value < k < |events| ==> events[k].id != id
    ensures p.None? ==> forall k :: 0 <= k < |events| ==> events[k].id != id
  {
    if events == [] then None
    else if events[|events| - 1].id == id then Some(|events| - 1)
    else LastAbout(events[..|events| - 1], id)
  }

  /** What the last event about a connection says of it. */
  lemma {:induction false} LastTells(events: seq<Event>, id: Id)
    requires AllLegal(map[], events)
    ensures var v, p := Replay(map[], events), LastAbout(events, id);
            && (p.None? ==> id !in v)
            && (p.Some? && events[p.value].New? ==> id in v && v[id] == events[p.value].conn)
            && (p.Some? && events[p.value].Update? ==>
                  id in Active(v) && v[id].up == events[p.value].up && v[id].down == events[p.value].down)
            && (p.Some? && events[p.value].Closed? ==>
                  var e := events[p.value];
                  && (id in v ==> v[id].closedAt == e.closedAt != 0 && v[id].up == 0 && v[id].down == 0)
                  && (e.info.Some? ==>
                        id in v && v[id].upTotal == e.info.value.upTotal && v[id].downTotal == e.info.value.downTotal))
  {
    if events == [] {
    } else {
      var n := |events| - 1;
      LastTells(events[..n], id);
      if events[n].id != id {
        ApplyElsewhere(Replay(map[], events[..n]), events[n], id);
      }
    }
  }

  lemma {:induction false} LegalAt(v: View, events: seq<Event>, k: nat)
    requires AllLegal(v, events) && k < |events|
    ensures AllLegal(v, events[..k]) && Legal(Replay(v, events[..k]), events[k])
  {
    var n := |events| - 1;
    if k == n {
    } else {
      LegalAt(v, events[..n], k);
      assert events[..n][..k] == events[..k];
    }
  }

  /** In all that is ever sent: the deltas of an UPDATE are not negative, and it comes after the announcement of its
      connection with nothing in between but other UPDATEs; an UPDATE without traffic comes right after one with
      traffic; and a connection is announced only at first or after its end. */
  lemma Grammar(messages: seq<seq<Event>>, k: nat)
    requires MessagesLegal(messages) && k < |Flat(messages)|
    ensures var events := Flat(messages);
            var e, p := events[k], LastAbout(events[..k], events[k].id);
            && (e.Update? ==>
                  && e.up >= 0 && e.down >= 0
                  && p.Some?
                  && ((events[p.value].New? && events[p.value].conn.closedAt == 0) || events[p.value].Update?))
            && (e.Update? && e.up == 0 && e.down == 0 ==>
                  p.Some? && events[p.value].Update? && (events[p.value].up != 0 || events[p.value].down != 0))
            && (e.New? && e.conn.closedAt == 0 ==>
                  p.None? || events[p.value].Closed? || (events[p.value].New? && events[p.value].conn.closedAt != 0))
  {
    var events := Flat(messages);
    FlatLegal(messages);
    LegalAt(map[], events, k);
    LastTells(events[..k], events[k].id);
    var p := LastAbout(events[..k], events[k].id);
    if p.Some? {
      assert events[..k][p.value] == events[p.value];
      LegalAt(map[], events, p.value);
    }
  }
}
