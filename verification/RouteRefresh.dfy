/** What the local refresh owes the commit it follows, with no bus to help: a table that was what
    storage holds is again what storage holds. */
module RouteRefresh {
  import opened Wrappers
  import opened RouteTables
  import opened RouteBus
  import opened Sessions

  // ---- The changed group ------------------------------------------------------------------

  lemma {:induction false} WithoutIdConcat(a: seq<Route>, b: seq<Route>, id: RouteId)
    ensures WithoutId(a + b, id) == WithoutId(a, id) + WithoutId(b, id)
  {
    if a == [] {
      assert a + b == b;
    } else {
      assert (a + b)[0] == a[0] && (a + b)[1..] == a[1..] + b;
      WithoutIdConcat(a[1..], b, id);
    }
  }

  lemma OfOne(x: Route, g: GroupId, id: RouteId)
    ensures OfGroup([x], g) == if x.group == g then [x] else []
    ensures WithoutId([x], id) == if x.id != id then [x] else []
  {
    assert [x][1..] == [];
  }

  lemma {:induction false} WithoutIdOfGroup(rs: seq<Route>, id: RouteId, g: GroupId)
    ensures OfGroup(WithoutId(rs, id), g) == WithoutId(OfGroup(rs, g), id)
  {
    if rs != [] {
      var x, rest := rs[0], rs[1..];
      WithoutIdOfGroup(rest, id, g);
      OfOne(x, g, id);
      assert rs == [x] + rest;
      WithoutIdConcat([x], rest, id);
      OfGroupConcat([x], rest, g);
      OfGroupConcat(WithoutId([x], id), WithoutId(rest, id), g);
      WithoutIdConcat(OfGroup([x], g), OfGroup(rest, g), id);
    }
  }

  lemma {:induction false} WithoutIdDistinct(rs: seq<Route>, id: RouteId)
    requires Distinct(rs)
    ensures Distinct(WithoutId(rs, id))
  {
    if rs != [] {
      assert forall i :: 0 <= i < |rs[1..]| ==> rs[1..][i] == rs[i + 1];
      WithoutIdDistinct(rs[1..], id);
      forall x | x in WithoutId(rs[1..], id) ensures x.id != rs[0].id {
        var k :| 0 <= k < |rs[1..]| && rs[1..][k] == x;
      }
    }
  }

  lemma PutFirstSteps(x: Route, rest: seq<Route>, route: Route)
    ensures PutFirst([x] + rest, route) == if x.id == route.id then [route] + rest else [x] + PutFirst(rest, route)
  {
    assert ([x] + rest)[1..] == rest;
  }

  lemma OfGroupSteps(x: Route, rest: seq<Route>, g: GroupId)
    ensures OfGroup([x] + rest, g) == if x.group == g then [x] + OfGroup(rest, g) else OfGroup(rest, g)
  {
    assert ([x] + rest)[1..] == rest;
  }

  lemma PutFirstHere(x: Route, rest: seq<Route>, route: Route)
    requires x.id == route.id && x.group == route.group
    ensures OfGroup(PutFirst([x] + rest, route), route.group) == PutFirst(OfGroup([x] + rest, route.group), route)
  {
    PutFirstSteps(x, rest, route);
    OfGroupSteps(x, rest, route.group);
    OfGroupSteps(route, rest, route.group);
    PutFirstSteps(x, OfGroup(rest, route.group), route);
  }

  lemma PutFirstPast(x: Route, rest: seq<Route>, route: Route)
    requires x.id != route.id
    requires OfGroup(PutFirst(rest, route), route.group) == PutFirst(OfGroup(rest, route.group), route)
    ensures OfGroup(PutFirst([x] + rest, route), route.group) == PutFirst(OfGroup([x] + rest, route.group), route)
  {
    PutFirstSteps(x, rest, route);
    OfGroupSteps(x, rest, route.group);
    OfGroupSteps(x, PutFirst(rest, route), route.group);
    PutFirstSteps(x, OfGroup(rest, route.group), route);
  }

  lemma {:induction false} PutFirstOfGroup(rs: seq<Route>, route: Route)
    requires forall x :: x in rs && x.id == route.id ==> x.group == route.group
    ensures OfGroup(PutFirst(rs, route), route.group) == PutFirst(OfGroup(rs, route.group), route)
  {
    if rs == [] {
      OfOne(route, route.group, 0);
    } else {
      assert rs == [rs[0]] + rs[1..];
      if rs[0].id == route.id {
        PutFirstHere(rs[0], rs[1..], route);
      } else {
        PutFirstOfGroup(rs[1..], route);
        PutFirstPast(rs[0], rs[1..], route);
      }
    }
  }

  lemma {:induction false} PutFirstReplaces(rs: seq<Route>, route: Route)
    requires Distinct(rs)
    ensures Distinct(PutFirst(rs, route))
    ensures forall x :: x in PutFirst(rs, route) <==> x == route || (x in rs && x.id != route.id)
  {
    if rs != [] {
      assert forall i :: 0 <= i < |rs[1..]| ==> rs[1..][i] == rs[i + 1];
      if rs[0].id == route.id {
        assert forall x :: x in rs[1..] ==> x.id != route.id;
      } else {
        PutFirstReplaces(rs[1..], route);
        assert forall x :: x in rs[1..] ==> x.id != rs[0].id;
      }
    }
  }

  function WithName(x: Route, name: string): Route { x.(groupName := name) }

  lemma RenamedHead(x: Route, rest: seq<Route>, g: GroupId)
    ensures OfGroup([x] + rest, g) == (if x.group == g then [x] else []) + OfGroup(rest, g)
  {
    assert ([x] + rest)[1..] == rest;
  }

  predicate AreRenamed(was: seq<Route>, now: seq<Route>, name: string) {
    |now| == |was| && forall i :: 0 <= i < |was| ==> now[i] == WithName(was[i], name)
  }

  lemma NamesJoin(x: Route, was: seq<Route>, now: seq<Route>, name: string)
    requires AreRenamed(was, now, name)
    ensures AreRenamed([x] + was, [WithName(x, name)] + now, name) && [] + was == was && [] + now == now
  {
  }

  lemma {:induction false} RenamedOfGroup(rs: seq<Route>, g: GroupId, name: string)
    ensures AreRenamed(OfGroup(rs, g), OfGroup(Renamed(rs, g, name), g), name)
  {
    if rs != [] {
      var x, rest := rs[0], Renamed(rs[1..], g, name);
      RenamedOfGroup(rs[1..], g, name);
      RenamedHead(if x.group == g then WithName(x, name) else x, rest, g);
      assert Renamed(rs, g, name) == [if x.group == g then WithName(x, name) else x] + rest;
      RenamedHead(x, rs[1..], g);
      assert rs == [x] + rs[1..];
      NamesJoin(x, OfGroup(rs[1..], g), OfGroup(rest, g), name);
    }
  }

  /** `Current` record by record. */
  ghost predicate Holds(storage: map<RouteId, Route>, g: GroupId, x: Route) {
    x.group == g && x.id in storage && storage[x.id] == x
  }

  /** `rs` is exactly the group, record by record. */
  ghost predicate IsGroup(storage: map<RouteId, Route>, rs: seq<Route>, g: GroupId) {
    Distinct(rs) && forall x :: x in rs <==> Holds(storage, g, x)
  }

  lemma CurrentBy(storage: map<RouteId, Route>, rs: seq<Route>, g: GroupId)
    requires forall id :: id in storage ==> storage[id].id == id
    ensures Current(storage, rs, g) <==> IsGroup(storage, rs, g)
  {
    if Current(storage, rs, g) {
      forall x ensures x in rs <==> Holds(storage, g, x) {
        assert Holds(storage, g, x) ==> storage[x.id] in rs;
      }
    }
    if forall x :: x in rs <==> Holds(storage, g, x) {
      forall id | id in storage && storage[id].group == g ensures storage[id] in rs {
        assert Holds(storage, g, storage[id]);
      }
    }
  }

  lemma WriteKeepsKeys(sh: Shared, call: Call)
    requires SharedOk(sh) && MayCommit(sh, call)
    ensures
      var after := Write(sh.storage, call.group, call.change);
      forall id :: id in after ==> after[id].id == id
  {
  }

  lemma AddedIsGroup(storage: map<RouteId, Route>, was: seq<Route>, route: Route)
    requires IsGroup(storage, was, route.group) && route.id !in storage
    ensures IsGroup(storage[route.id := route], was + [route], route.group)
  {
    var g, after := route.group, storage[route.id := route];
    forall i | 0 <= i < |was| ensures was[i].id != route.id {
      assert was[i] in was && Holds(storage, g, was[i]);
    }
    forall x ensures x in was + [route] <==> Holds(after, g, x) {
      assert x in was <==> Holds(storage, g, x);
    }
  }

  lemma ReplacedIsGroup(storage: map<RouteId, Route>, was: seq<Route>, route: Route)
    requires IsGroup(storage, was, route.group)
    ensures IsGroup(storage[route.id := route], PutFirst(was, route), route.group)
  {
    var g, after := route.group, storage[route.id := route];
    PutFirstReplaces(was, route);
    forall x ensures x in PutFirst(was, route) <==> Holds(after, g, x) {
      assert x in was <==> Holds(storage, g, x);
    }
  }

  lemma RemovedIsGroup(storage: map<RouteId, Route>, was: seq<Route>, g: GroupId, id: RouteId)
    requires IsGroup(storage, was, g)
    ensures IsGroup(storage - {id}, WithoutId(was, id), g)
  {
    WithoutIdDistinct(was, id);
    forall x ensures x in WithoutId(was, id) <==> Holds(storage - {id}, g, x) {
      assert x in was <==> Holds(storage, g, x);
    }
  }

  lemma DeletedIsGroup(sh: Shared, rs: seq<Route>, g: GroupId, id: RouteId)
    requires IsGroup(sh.storage, OfGroup(rs, g), g)
    ensures IsGroup(sh.storage - {id}, OfGroup(WithoutId(rs, id), g), g)
  {
    WithoutIdOfGroup(rs, id, g);
    RemovedIsGroup(sh.storage, OfGroup(rs, g), g, id);
  }

  lemma RenamedIsGroup(sh: Shared, rs: seq<Route>, g: GroupId, name: string)
    requires SharedOk(sh)
    requires IsGroup(sh.storage, OfGroup(rs, g), g)
    ensures IsGroup(Write(sh.storage, g, GroupRenamed(name)), OfGroup(Renamed(rs, g, name), g), g)
  {
    RenamedOfGroup(rs, g, name);
    var was, now, after := OfGroup(rs, g), OfGroup(Renamed(rs, g, name), g), Write(sh.storage, g, GroupRenamed(name));
    forall i | 0 <= i < |was| ensures Holds(after, g, now[i]) && now[i].id == was[i].id {
      assert was[i] in was && Holds(sh.storage, g, was[i]);
    }
    forall x | Holds(after, g, x) ensures x in now {
      assert Holds(sh.storage, g, sh.storage[x.id]);
      var i :| 0 <= i < |was| && was[i] == sh.storage[x.id];
      assert now[i] == x;
    }
  }

  /** If the cached group was what storage held before the commit, after the refresh it is what
      storage holds. */
  lemma RefreshFollowsCommit(sh: Shared, call: Call, t: Table)
    requires SharedOk(sh) && Homed(sh.home, t.routes) && MayCommit(sh, call)
    requires Current(sh.storage, OfGroup(t.routes, call.group), call.group)
    ensures
      Current(Write(sh.storage, call.group, call.change),
              OfGroup(Refresh(t, call.group, call.change).routes, call.group), call.group)
  {
    CurrentBy(sh.storage, OfGroup(t.routes, call.group), call.group);
    WriteKeepsKeys(sh, call);
    var after, t' := Write(sh.storage, call.group, call.change), Refresh(t, call.group, call.change);
    CurrentBy(after, OfGroup(t'.routes, call.group), call.group);
    match call.change
    case Created(route) =>
      OfGroupConcat(t.routes, [route], route.group);
      OfOne(route, route.group, 0);
      AddedIsGroup(sh.storage, OfGroup(t.routes, route.group), route);
    case Deleted(id) => DeletedIsGroup(sh, t.routes, call.group, id);
    case Updated(route) =>
      PutFirstOfGroup(t.routes, route);
      ReplacedIsGroup(sh.storage, OfGroup(t.routes, route.group), route);
    case Cascaded => WithoutGroup(t.routes, call.group, call.group);
    case GroupRenamed(name) => RenamedIsGroup(sh, t.routes, call.group, name);
  }

  // ---- Artifacts -------------------------------------------------------------------------------

  /** The change removes the route or what it is compiled from. */
  predicate Touches(storage: map<RouteId, Route>, g: GroupId, c: Change, id: RouteId) {
    match c
    case Deleted(x) => x == id
    case Updated(route) => route.id == id
    case Cascaded => id in storage && storage[id].group == g
    case _ => false
  }

  /** The refresh drops the artifacts of changed and removed routes, and those alone. */
  lemma RefreshDropsTouched(sh: Shared, call: Call, t: Table, id: RouteId)
    requires SharedOk(sh) && Current(sh.storage, OfGroup(t.routes, call.group), call.group)
    ensures
      var after := Refresh(t, call.group, call.change).artifacts;
      && (id in after <==> id in t.artifacts && !Touches(sh.storage, call.group, call.change, id))
      && (id in after ==> after[id] == t.artifacts[id])
  {
    if call.change.Cascaded? {
      CachedIds(sh, t.routes, call.group, id);
    }
  }

  lemma CachedIds(sh: Shared, rs: seq<Route>, g: GroupId, id: RouteId)
    requires SharedOk(sh) && Current(sh.storage, OfGroup(rs, g), g)
    ensures id in Ids(OfGroup(rs, g)) <==> id in sh.storage && sh.storage[id].group == g
  {
    var cached := OfGroup(rs, g);
    if id in sh.storage && sh.storage[id].group == g {
      var i :| 0 <= i < |cached| && cached[i] == sh.storage[id];
      assert Ids(cached)[i] == id;
    }
    if id in Ids(cached) {
      var i :| 0 <= i < |cached| && Ids(cached)[i] == id;
      assert cached[i] in cached;
    }
  }

  /** What an announcement names is what the change touches, if the announcing table was level. */
  lemma NoticeNamesTouched(sh: Shared, call: Call, t: Table, id: RouteId)
    requires SharedOk(sh) && Current(sh.storage, OfGroup(t.routes, call.group), call.group)
    ensures
      var e := Notice(t, call.group, call.change);
      e.group == call.group && (id in e.routes <==> Touches(sh.storage, call.group, call.change, id))
  {
    if call.change.Cascaded? {
      CachedIds(sh, t.routes, call.group, id);
    }
  }

  // ---- The whole table ---------------------------------------------------------------------------

  /** The table holds exactly storage, each record once, and each artifact is of a stored record. */
  ghost predicate Level(sh: Shared, t: Table) {
    && CurrentAll(sh.storage, t.routes)
    && forall id :: id in t.artifacts ==> id in sh.storage && t.artifacts[id] == sh.storage[id].body
  }

  function Committed(sh: Shared, call: Call): Shared {
    sh.(storage := Write(sh.storage, call.group, call.change),
        home := if call.change.Created? then sh.home[call.change.route.id := call.group] else sh.home)
  }

  lemma CommittedOk(sh: Shared, call: Call)
    requires SharedOk(sh) && sh.committed == multiset{} && MayCommit(sh, call)
    ensures SharedOk(Committed(sh, call))
  {
  }

  lemma LevelArtifacts(sh: Shared, call: Call, artifacts: map<RouteId, string>, after: map<RouteId, string>)
    requires SharedOk(sh) && MayCommit(sh, call)
    requires forall id :: id in artifacts ==> id in sh.storage && artifacts[id] == sh.storage[id].body
    requires forall id :: id in after ==>
      id in artifacts && after[id] == artifacts[id] && !Touches(sh.storage, call.group, call.change, id)
    ensures forall id :: id in after ==>
      && id in Committed(sh, call).storage && after[id] == Committed(sh, call).storage[id].body
  {
  }

  lemma LevelRecords(sh: Shared, call: Call, was: seq<Route>, now: seq<Route>)
    requires SharedOk(sh) && sh.committed == multiset{} && MayCommit(sh, call) && CurrentAll(sh.storage, was)
    requires Current(Committed(sh, call).storage, OfGroup(now, call.group), call.group)
    requires forall h :: h != call.group ==> OfGroup(now, h) == OfGroup(was, h)
    ensures CurrentAll(Committed(sh, call).storage, now)
  {
    CommittedOk(sh, call);
    forall h ensures Current(Committed(sh, call).storage, OfGroup(now, h), h) {
      if h != call.group {
        CurrentAllSplits(sh.storage, was, h);
        WriteElsewhere(sh, call, OfGroup(was, h), h);
      }
    }
    CurrentGroupsMakeCurrent(Committed(sh, call), now);
  }

  /** So a level table is level again after a commit and its refresh. */
  lemma RefreshStaysLevel(sh: Shared, call: Call, t: Table)
    requires SharedOk(sh) && sh.committed == multiset{} && MayCommit(sh, call) && Level(sh, t)
    ensures Level(Committed(sh, call), Refresh(t, call.group, call.change))
  {
    var t' := Refresh(t, call.group, call.change);
    assert Homed(sh.home, t.routes);
    CurrentAllSplits(sh.storage, t.routes, call.group);
    RefreshFollowsCommit(sh, call, t);
    forall h | h != call.group ensures OfGroup(t'.routes, h) == OfGroup(t.routes, h) {
      RefreshOtherGroup(t, call.group, call.change, h);
    }
    LevelRecords(sh, call, t.routes, t'.routes);
    forall id | id in t'.artifacts
      ensures id in t.artifacts && t'.artifacts[id] == t.artifacts[id]
           && !Touches(sh.storage, call.group, call.change, id)
    {
      RefreshDropsTouched(sh, call, t, id);
    }
    LevelArtifacts(sh, call, t.artifacts, t'.artifacts);
  }

  /** And a level sibling is level again once it has applied the announcement. */
  lemma SiblingStaysLevel(sh: Shared, call: Call, t: Table, sibling: Table, loaded: seq<Route>)
    requires SharedOk(sh) && sh.committed == multiset{} && MayCommit(sh, call) && Level(sh, t) && Level(sh, sibling)
    requires Current(Committed(sh, call).storage, loaded, call.group)
    ensures
      Level(Committed(sh, call), Applied(sibling, Delivery(Some(Notice(t, call.group, call.change)), Some(loaded))))
  {
    var e := Notice(t, call.group, call.change);
    var after := Applied(sibling, Delivery(Some(e), Some(loaded)));
    CurrentAllSplits(sh.storage, t.routes, call.group);
    NoticeNamesTouched(sh, call, t, 0);
    forall h ensures OfGroup(after.routes, h) == if h == call.group then loaded else OfGroup(sibling.routes, h) {
      ReloadReplacesOneGroup(sibling.routes, call.group, loaded, h);
    }
    LevelRecords(sh, call, sibling.routes, after.routes);
    forall id | id in after.artifacts
      ensures id in sibling.artifacts && !Touches(sh.storage, call.group, call.change, id)
    {
      NoticeNamesTouched(sh, call, t, id);
    }
    LevelArtifacts(sh, call, sibling.artifacts, after.artifacts);
  }

  // ---- One replica on its own ------------------------------------------------------------------

  datatype Event = Changed(call: Call) | Served(route: Route)

  /** A request for a cached record compiles its artifact unless there is one. */
  function Serve(t: Table, route: Route): Table {
    if route.id in t.artifacts then t else t.(artifacts := t.artifacts[route.id := route.body])
  }

  ghost predicate Lives(sh: Shared, t: Table, events: seq<Event>, sh': Shared, t': Table)
    decreases |events|
  {
    if events == [] then sh' == sh && t' == t
    else
      match events[0]
      case Changed(call) =>
        MayCommit(sh, call) &&
        Lives(Committed(sh, call), Refresh(t, call.group, call.change), events[1..], sh', t')
      case Served(route) => route in t.routes && Lives(sh, Serve(t, route), events[1..], sh', t')
  }

  /** On a store with no bus, over any mix of changes and requests, the table always holds exactly what
      storage holds and serves each route from the stored record. */
  lemma {:induction false} LoneReplicaStaysLevel(sh: Shared, t: Table, events: seq<Event>, sh': Shared, t': Table)
    requires SharedOk(sh) && sh.committed == multiset{} && Level(sh, t) && Lives(sh, t, events, sh', t')
    ensures Level(sh', t')
    decreases |events|
  {
    if events != [] {
      match events[0]
      case Changed(call) =>
        RefreshStaysLevel(sh, call, t);
        CommittedOk(sh, call);
        LoneReplicaStaysLevel(Committed(sh, call), Refresh(t, call.group, call.change), events[1..], sh', t');
      case Served(route) =>
        LoneReplicaStaysLevel(sh, Serve(t, route), events[1..], sh', t');
    }
  }
}
