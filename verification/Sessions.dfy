/** One subscribe-and-pump cycle of each bus task, as the loop it is. `None` is a message whose
    payload could not be read or decoded. */
module Sessions {
  import opened Wrappers
  import opened RouteTables
  import F = Fanout

  /** A message, and what the storage read it triggers gives, if that read works. */
  datatype Delivery = Delivery(event: Option<Invalidation>, loaded: Option<seq<Route>>)

  /** Reads of a group return that group's routes. */
  predicate ReadsOwnGroup(ds: seq<Delivery>) {
    forall d, x :: d in ds && d.event.Some? && d.loaded.Some? && x in d.loaded.value ==> x.group == d.event.value.group
  }

  function Applied(t: Table, d: Delivery): Table {
    if d.event.None? then t
    else
      var e := d.event.value;
      Table(if d.loaded.Some? then Without(t.routes, e.group) + d.loaded.value else t.routes,
            Evicted(t.artifacts, e.routes))
  }

  function Pumped(t: Table, ds: seq<Delivery>): Table
    decreases |ds|
  {
    if ds == [] then t else Applied(Pumped(t, ds[..|ds| - 1]), ds[|ds| - 1])
  }

  /** Resync, then apply each message in order; a bad message is skipped, not the end. */
  method RunRouteSession(table: RouteTable, all: Option<seq<Route>>, stream: seq<Delivery>)
    modifies table
    ensures table.View() == Pumped(if all.Some? then Table(all.value, map[]) else old(table.View()), stream)
  {
    table.ReloadAll(all);
    ghost var synced := table.View();
    var i := 0;
    while i < |stream|
      invariant 0 <= i <= |stream| && table.View() == Pumped(synced, stream[..i])
    {
      match stream[i].event {
        case None =>
        case Some(e) => table.ApplyInvalidation(e, stream[i].loaded);
      }
      assert stream[..i + 1][..i] == stream[..i];
      i := i + 1;
    }
    assert stream[..i] == stream;
  }

  predicate ReReads(d: Delivery, g: GroupId) {
    d.event.Some? && d.event.value.group == g && d.loaded.Some?
  }

  /** Delivery `i` is the last one that re-read group `g`; -1 if none did. */
  predicate LastRead(ds: seq<Delivery>, g: GroupId, i: int) {
    && -1 <= i < |ds| && (i >= 0 ==> ReReads(ds[i], g)) && forall j :: i < j < |ds| ==> !ReReads(ds[j], g)
  }

  lemma AppliedTo(t: Table, d: Delivery, g: GroupId)
    requires ReadsOwnGroup([d])
    ensures OfGroup(Applied(t, d).routes, g) == if ReReads(d, g) then d.loaded.value else OfGroup(t.routes, g)
  {
    assert d in [d];
    if d.event.Some? && d.loaded.Some? {
      ReloadReplacesOneGroup(t.routes, d.event.value.group, d.loaded.value, g);
    }
  }

  lemma EarlierRead(ds: seq<Delivery>, g: GroupId, i: int)
    requires ReadsOwnGroup(ds) && LastRead(ds, g, i) && i < |ds| - 1
    ensures ReadsOwnGroup(ds[..|ds| - 1]) && LastRead(ds[..|ds| - 1], g, i) && !ReReads(ds[|ds| - 1], g)
    ensures i >= 0 ==> ds[..|ds| - 1][i] == ds[i]
  {
    assert forall x :: x in ds[..|ds| - 1] ==> x in ds;
  }

  lemma PumpedLast(t: Table, ds: seq<Delivery>, g: GroupId)
    requires ReadsOwnGroup(ds) && ds != []
    ensures
      var before, d := ds[..|ds| - 1], ds[|ds| - 1];
      OfGroup(Pumped(t, ds).routes, g) == if ReReads(d, g) then d.loaded.value else OfGroup(Pumped(t, before).routes, g)
  {
    assert ds[|ds| - 1] in ds;
    AppliedTo(Pumped(t, ds[..|ds| - 1]), ds[|ds| - 1], g);
  }

  /** After a session each group holds exactly what the last working read of it gave, or what the
      resync gave if none did, whatever messages for other groups came in between. */
  lemma {:induction false} SessionKeepsLatestRead(t: Table, ds: seq<Delivery>, g: GroupId, i: int)
    requires ReadsOwnGroup(ds) && LastRead(ds, g, i)
    ensures OfGroup(Pumped(t, ds).routes, g) == if i < 0 then OfGroup(t.routes, g) else ds[i].loaded.value
    decreases |ds|
  {
    if ds != [] {
      PumpedLast(t, ds, g);
      if i < |ds| - 1 {
        EarlierRead(ds, g, i);
        SessionKeepsLatestRead(t, ds[..|ds| - 1], g, i);
      }
    }
  }

  /** And of the artifacts exactly those of routes no message named are left. */
  lemma {:induction false} SessionEvictsNamed(t: Table, ds: seq<Delivery>, id: RouteId)
    ensures
      var after := Pumped(t, ds).artifacts;
      && (id in after <==>
            id in t.artifacts && forall d :: d in ds && d.event.Some? ==> id !in d.event.value.routes)
      && (id in after ==> after[id] == t.artifacts[id])
    decreases |ds|
  {
    if ds != [] {
      var n := |ds| - 1;
      SessionEvictsNamed(t, ds[..n], id);
      assert forall d :: d in ds <==> d in ds[..n] || d == ds[n];
    }
  }

  /** The events of other origins, in order. */
  function Foreign(stream: seq<Option<F.Wire>>, origin: F.Origin): seq<F.EventId>
    decreases |stream|
  {
    if stream == [] then []
    else
      var last := stream[|stream| - 1];
      Foreign(stream[..|stream| - 1], origin) +
      if last.Some? && last.value.origin != origin then [last.value.event] else []
  }

  class JournalBus {
    const origin: F.Origin
    var local: seq<F.EventId>

    constructor (origin: F.Origin)
      ensures this.origin == origin && local == []
    {
      this.origin := origin;
      local := [];
    }

    /** Local delivery at once; on a distributed store also the copy to publish. */
    method Publish(event: F.EventId, distributed: bool) returns (wire: Option<F.Wire>)
      modifies this
      ensures local == old(local) + [event]
      ensures wire == if distributed then Some(F.Wire(origin, event)) else None
    {
      local := local + [event];
      wire := if distributed then Some(F.Wire(origin, event)) else None;
    }

    /** Pump what the subscription yields into the local broadcast, dropping our own. */
    method RunJournalSession(stream: seq<Option<F.Wire>>)
      modifies this
      ensures local == old(local) + Foreign(stream, origin)
    {
      var i := 0;
      while i < |stream|
        invariant 0 <= i <= |stream| && local == old(local) + Foreign(stream[..i], origin)
      {
        match stream[i] {
          case None =>
          case Some(wire) =>
            if wire.origin != origin {
              local := local + [wire.event];
            }
        }
        assert stream[..i + 1][..i] == stream[..i];
        i := i + 1;
      }
      assert stream[..i] == stream;
    }
  }

  function Readable(queue: seq<F.Wire>): seq<Option<F.Wire>> {
    if queue == [] then [] else [Some(queue[0])] + Readable(queue[1..])
  }

  /** Handling a replica's queue step by step in the fan-out model is this pump. */
  lemma {:induction false} PumpIsHandling(rep: F.Replica)
    ensures Drained(rep).local == rep.local + Foreign(Readable(rep.queue), rep.origin)
    decreases |rep.queue|
  {
    if rep.queue != [] {
      PumpIsHandling(F.Handled(rep));
      ForeignHead(rep.queue[0], Readable(rep.queue[1..]), rep.origin);
    }
  }

  function Drained(rep: F.Replica): F.Replica
    decreases |rep.queue|
  {
    if rep.queue == [] then rep else Drained(F.Handled(rep))
  }

  lemma ForeignStep(before: seq<Option<F.Wire>>, last: Option<F.Wire>, origin: F.Origin)
    ensures Foreign(before + [last], origin) ==
      Foreign(before, origin) + if last.Some? && last.value.origin != origin then [last.value.event] else []
  {
    assert (before + [last])[..|before|] == before;
  }

  lemma {:induction false} ForeignSplits(first: Option<F.Wire>, rest: seq<Option<F.Wire>>, origin: F.Origin)
    ensures Foreign([first] + rest, origin) == Foreign([first], origin) + Foreign(rest, origin)
    decreases |rest|
  {
    if rest == [] {
      assert [first] + rest == [first];
    } else {
      var before, last := rest[..|rest| - 1], rest[|rest| - 1];
      assert rest == before + [last] && [first] + rest == ([first] + before) + [last];
      ForeignStep(before, last, origin);
      ForeignStep([first] + before, last, origin);
      ForeignSplits(first, before, origin);
    }
  }

  lemma ForeignHead(w: F.Wire, rest: seq<Option<F.Wire>>, origin: F.Origin)
    ensures Foreign([Some(w)] + rest, origin) == (if w.origin != origin then [w.event] else []) + Foreign(rest, origin)
  {
    ForeignSplits(Some(w), rest, origin);
    ForeignStep([], Some(w), origin);
    assert [] + [Some(w)] == [Some(w)];
  }
}
