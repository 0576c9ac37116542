/** The in-memory route table of one replica, and the edits every API call and
    every invalidation makes to it. The bus protocol (module RouteBus) runs on
    the specification functions of this module. */
module RouteTables {
  import opened Wrappers

  type GroupId = nat
  type RouteId = nat

  /** A route record. `body` stands for what artifacts are compiled from. */
  datatype Route = Route(id: RouteId, group: GroupId, groupName: string, body: string)

  datatype Invalidation = Invalidation(group: GroupId, routes: seq<RouteId>)

  /** What a replica serves from: its records and the compiled artifacts, keyed by route id. */
  datatype Table = Table(routes: seq<Route>, artifacts: map<RouteId, string>)

  // ---- Sequence edits --------------------------------------------------

  function OfGroup(rs: seq<Route>, g: GroupId): (r: seq<Route>)
    ensures forall x :: x in r <==> x in rs && x.group == g
  {
    if rs == [] then []
    else (if rs[0].group == g then [rs[0]] else []) + OfGroup(rs[1..], g)
  }

  function Without(rs: seq<Route>, g: GroupId): (r: seq<Route>)
    ensures forall x :: x in r <==> x in rs && x.group != g
  {
    if rs == [] then []
    else (if rs[0].group != g then [rs[0]] else []) + Without(rs[1..], g)
  }

  function WithoutId(rs: seq<Route>, id: RouteId): (r: seq<Route>)
    ensures forall x :: x in r <==> x in rs && x.id != id
  {
    if rs == [] then []
    else (if rs[0].id != id then [rs[0]] else []) + WithoutId(rs[1..], id)
  }

  /** Overwrite the first slot holding this id, or append. */
  function PutFirst(rs: seq<Route>, route: Route): (r: seq<Route>)
    ensures route in r
    ensures forall x :: x in r ==> x == route || x in rs
  {
    if rs == [] then [route]
    else if rs[0].id == route.id then [route] + rs[1..]
    else [rs[0]] + PutFirst(rs[1..], route)
  }

  function Renamed(rs: seq<Route>, g: GroupId, name: string): (r: seq<Route>)
    ensures forall x :: x in r ==>
      exists y :: y in rs && x == (if y.group == g then y.(groupName := name) else y)
  {
    if rs == [] then []
    else
      var rest := Renamed(rs[1..], g, name);
      assert forall x :: x in rest ==>
        exists y :: y in rs && x == (if y.group == g then y.(groupName := name) else y);
      assert rs[0] in rs;
      [if rs[0].group == g then rs[0].(groupName := name) else rs[0]] + rest
  }

  function Ids(rs: seq<Route>): (r: seq<RouteId>)
    ensures |r| == |rs| && forall i :: 0 <= i < |rs| ==> r[i] == rs[i].id
  {
    seq(|rs|, i requires 0 <= i < |rs| => rs[i].id)
  }

  function Evicted(artifacts: map<RouteId, string>, ids: seq<RouteId>): map<RouteId, string> {
    map id | id in artifacts && id !in ids :: artifacts[id]
  }

  lemma OfGroupConcat(a: seq<Route>, b: seq<Route>, g: GroupId)
    ensures OfGroup(a + b, g) == OfGroup(a, g) + OfGroup(b, g)
  {
    if a == [] {
      assert a + b == b;
    } else {
      assert (a + b)[1..] == a[1..] + b;
      OfGroupConcat(a[1..], b, g);
    }
  }

  lemma OfGroupAll(rs: seq<Route>, g: GroupId)
    requires forall x :: x in rs ==> x.group == g
    ensures OfGroup(rs, g) == rs
  {
    if rs != [] { OfGroupAll(rs[1..], g); }
  }

  lemma OfGroupNone(rs: seq<Route>, g: GroupId)
    requires forall x :: x in rs ==> x.group != g
    ensures OfGroup(rs, g) == []
  {
  }

  lemma WithoutGroup(rs: seq<Route>, g: GroupId, h: GroupId)
    ensures OfGroup(Without(rs, g), h) == if g == h then [] else OfGroup(rs, h)
  {
    if rs == [] {
    } else {
      WithoutGroup(rs[1..], g, h);
      var first := if rs[0].group != g then [rs[0]] else [];
      OfGroupConcat(first, Without(rs[1..], g), h);
    }
  }

  /** Swapping in a freshly read group replaces exactly that group. */
  lemma ReloadReplacesOneGroup(rs: seq<Route>, g: GroupId, loaded: seq<Route>, h: GroupId)
    requires forall x :: x in loaded ==> x.group == g
    ensures OfGroup(Without(rs, g) + loaded, h) == if g == h then loaded else OfGroup(rs, h)
  {
    OfGroupConcat(Without(rs, g), loaded, h);
    WithoutGroup(rs, g, h);
    if g == h { OfGroupAll(loaded, h); } else { OfGroupNone(loaded, h); }
  }

  lemma WithoutIdOtherGroup(rs: seq<Route>, id: RouteId, h: GroupId)
    requires forall x :: x in rs && x.id == id ==> x.group != h
    ensures OfGroup(WithoutId(rs, id), h) == OfGroup(rs, h)
  {
    if rs == [] {
    } else {
      WithoutIdOtherGroup(rs[1..], id, h);
      var first := if rs[0].id != id then [rs[0]] else [];
      OfGroupConcat(first, WithoutId(rs[1..], id), h);
    }
  }

  lemma PutFirstOtherGroup(rs: seq<Route>, route: Route, h: GroupId)
    requires route.group != h
    requires forall x :: x in rs && x.id == route.id ==> x.group != h
    ensures OfGroup(PutFirst(rs, route), h) == OfGroup(rs, h)
  {
    if rs == [] {
    } else if rs[0].id == route.id {
    } else {
      PutFirstOtherGroup(rs[1..], route, h);
    }
  }

  lemma RenamedOtherGroup(rs: seq<Route>, g: GroupId, name: string, h: GroupId)
    requires g != h
    ensures OfGroup(Renamed(rs, g, name), h) == OfGroup(rs, h)
  {
    if rs != [] { RenamedOtherGroup(rs[1..], g, name, h); }
  }

  lemma PutFirstAt(rs: seq<Route>, route: Route, i: nat)
    requires i <= |rs|
    requires forall k :: 0 <= k < i ==> rs[k].id != route.id
    requires i < |rs| ==> rs[i].id == route.id
    ensures PutFirst(rs, route) == if i < |rs| then rs[i := route] else rs + [route]
  {
    if rs == [] {
    } else if i == 0 {
      assert rs[0 := route] == [route] + rs[1..];
    } else {
      PutFirstAt(rs[1..], route, i - 1);
    }
  }

  // ---- Table edits -----------------------------------------------------

  /** What an API call did to storage, and so what its local refresh must do. */
  datatype Change = Created(route: Route) | Deleted(id: RouteId) | Updated(route: Route)
                  | Cascaded | GroupRenamed(name: string)

  /** The local refresh that follows a committed change to group `g`. */
  function Refresh(t: Table, g: GroupId, c: Change): Table {
    match c
    case Created(route) => t.(routes := t.routes + [route])
    case Deleted(id) => Table(WithoutId(t.routes, id), Evicted(t.artifacts, [id]))
    case Updated(route) => Table(PutFirst(t.routes, route), Evicted(t.artifacts, [route.id]))
    case Cascaded => Table(Without(t.routes, g), Evicted(t.artifacts, Ids(OfGroup(t.routes, g))))
    case GroupRenamed(name) => t.(routes := Renamed(t.routes, g, name))
  }

  /** The invalidation that refresh publishes; a cascade names what this replica had cached. */
  function Notice(t: Table, g: GroupId, c: Change): Invalidation {
    match c
    case Created(_) => Invalidation(g, [])
    case Deleted(id) => Invalidation(g, [id])
    case Updated(route) => Invalidation(g, [route.id])
    case Cascaded => Invalidation(g, Ids(OfGroup(t.routes, g)))
    case GroupRenamed(_) => Invalidation(g, [])
  }

  /** The refresh touches no other group's records, given that ids never move between groups. */
  lemma RefreshOtherGroup(t: Table, g: GroupId, c: Change, h: GroupId)
    requires g != h
    requires c.Created? || c.Updated? ==> c.route.group == g
    requires c.Deleted? ==> forall x :: x in t.routes && x.id == c.id ==> x.group == g
    requires c.Updated? ==> forall x :: x in t.routes && x.id == c.route.id ==> x.group == g
    ensures OfGroup(Refresh(t, g, c).routes, h) == OfGroup(t.routes, h)
  {
    match c
    case Created(route) => OfGroupConcat(t.routes, [route], h);
    case Deleted(id) => WithoutIdOtherGroup(t.routes, id, h);
    case Updated(route) => PutFirstOtherGroup(t.routes, route, h);
    case Cascaded => WithoutGroup(t.routes, g, h);
    case GroupRenamed(name) => RenamedOtherGroup(t.routes, g, name, h);
  }

  /** The table object itself. Storage reads are passed in as the records read;
      `None` is a read that failed, after which the cached set is kept. */
  class RouteTable {
    var routes: seq<Route>
    var artifacts: map<RouteId, string>

    function View(): Table
      reads this
    {
      Table(routes, artifacts)
    }

    constructor Warm(loaded: seq<Route>)
      ensures View() == Table(loaded, map[])
    {
      routes, artifacts := loaded, map[];
    }

    method ReloadGroup(g: GroupId, loaded: Option<seq<Route>>) returns (reloaded: bool)
      modifies this
      ensures reloaded == loaded.Some?
      ensures loaded.None? ==> View() == old(View())
      ensures loaded.Some? && (forall x :: x in loaded.value ==> x.group == g) ==>
        forall h :: OfGroup(routes, h) == if h == g then loaded.value else OfGroup(old(routes), h)
      ensures loaded.Some? ==> routes == Without(old(routes), g) + loaded.value
      ensures artifacts == old(artifacts)
    {
      if loaded.None? {
        return false;
      }
      ghost var was := routes;
      routes := Without(routes, g) + loaded.value;
      reloaded := true;
      assert (forall x :: x in loaded.value ==> x.group == g) ==>
        forall h :: OfGroup(routes, h) == if h == g then loaded.value else OfGroup(was, h)
      by {
        if forall x :: x in loaded.value ==> x.group == g {
          forall h ensures OfGroup(routes, h) == if h == g then loaded.value else OfGroup(was, h) {
            ReloadReplacesOneGroup(was, g, loaded.value, h);
          }
        }
      }
    }

    method ReloadAll(loaded: Option<seq<Route>>)
      modifies this
      ensures View() == if loaded.Some? then Table(loaded.value, map[]) else old(View())
    {
      if loaded.None? {
        return;
      }
      routes := loaded.value;
      artifacts := map[];
    }

    /** Evict the named artifacts, then reload the group's records. Returns
        nothing to publish: an invalidation never loops between replicas. */
    method ApplyInvalidation(e: Invalidation, loaded: Option<seq<Route>>)
      modifies this
      ensures artifacts == Evicted(old(artifacts), e.routes)
      ensures routes == if loaded.Some? then Without(old(routes), e.group) + loaded.value else old(routes)
    {
      artifacts := Evicted(artifacts, e.routes);
      var _ := ReloadGroup(e.group, loaded);
    }

    method RefreshAfterCreate(route: Route) returns (e: Invalidation)
      modifies this
      ensures View() == Refresh(old(View()), route.group, Created(route))
      ensures e == Notice(old(View()), route.group, Created(route))
    {
      routes := routes + [route];
      e := Invalidation(route.group, []);
    }

    method RefreshAfterDelete(g: GroupId, id: RouteId) returns (e: Invalidation)
      modifies this
      ensures View() == Refresh(old(View()), g, Deleted(id))
      ensures e == Notice(old(View()), g, Deleted(id))
    {
      routes := WithoutId(routes, id);
      artifacts := Evicted(artifacts, [id]);
      e := Invalidation(g, [id]);
    }

    /** Scan for the first slot with this id and overwrite it; push when there is none. */
    method RefreshAfterUpdate(route: Route) returns (e: Invalidation)
      modifies this
      ensures View() == Refresh(old(View()), route.group, Updated(route))
      ensures e == Notice(old(View()), route.group, Updated(route))
    {
      var i := 0;
      while i < |routes| && routes[i].id != route.id
        invariant 0 <= i <= |routes|
        invariant forall k :: 0 <= k < i ==> routes[k].id != route.id
      {
        i := i + 1;
      }
      PutFirstAt(routes, route, i);
      routes := if i < |routes| then routes[i := route] else routes + [route];
      artifacts := Evicted(artifacts, [route.id]);
      e := Invalidation(route.group, [route.id]);
    }

    /** Deliberately publishes even when nothing of the group was cached here. */
    method RefreshAfterCascade(g: GroupId) returns (e: Invalidation)
      modifies this
      ensures View() == Refresh(old(View()), g, Cascaded)
      ensures forall x :: x in routes <==> x in old(routes) && x.group != g
      ensures forall x :: x in old(routes) && x.group == g ==> x.id !in artifacts
      ensures e == Notice(old(View()), g, Cascaded)
    {
      var toDrop := Ids(OfGroup(routes, g));
      if toDrop != [] {
        routes := Without(routes, g);
        artifacts := Evicted(artifacts, toDrop);
        forall x | x in old(routes) && x.group == g ensures x.id in toDrop {
          var dropped := OfGroup(old(routes), g);
          var i :| 0 <= i < |dropped| && dropped[i] == x;
          assert toDrop[i] == x.id;
        }
      } else {
        NothingToDrop(routes, g);
        assert Evicted(artifacts, toDrop) == artifacts;
      }
      e := Invalidation(g, toDrop);
    }

    method RefreshAfterGroupRename(g: GroupId, name: string) returns (e: Invalidation)
      modifies this
      ensures View() == Refresh(old(View()), g, GroupRenamed(name))
      ensures e == Notice(old(View()), g, GroupRenamed(name))
    {
      routes := Renamed(routes, g, name);
      e := Invalidation(g, []);
    }

    /** The artifact served for a route record: the cached one, or one compiled from the record. */
    method ComponentFor(route: Route) returns (artifact: string)
      modifies this
      ensures artifact == (if route.id in old(artifacts) then old(artifacts)[route.id] else route.body)
      ensures routes == old(routes) && artifacts == old(artifacts)[route.id := artifact]
    {
      if route.id in artifacts {
        artifact := artifacts[route.id];
        assert artifacts[route.id := artifact] == artifacts;
      } else {
        artifact := route.body;
        artifacts := artifacts[route.id := artifact];
      }
    }
  }

  lemma NothingToDrop(rs: seq<Route>, g: GroupId)
    requires OfGroup(rs, g) == []
    ensures Without(rs, g) == rs
  {
    if rs != [] { NothingToDrop(rs[1..], g); }
  }
}
