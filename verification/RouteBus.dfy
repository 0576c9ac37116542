/** The route-invalidation bus as steps over shared storage, replicas and their
    pub/sub queues. A commit, its local refresh and its publish are separate steps
    of one API call; a delivery evicts, reads storage and writes the table in three
    steps; a resubscribe reads, writes and clears in three steps; read-through
    reloads and artifact compiles run on request threads in between. */
module RouteBus {
  import opened Wrappers
  import opened RouteTables

  type ReplicaId = nat

  datatype Work = Work(event: Invalidation, snap: Option<seq<Route>>)

  /** Where the subscriber session of a replica stands. */
  datatype Link = Down | Subscribed | Reread(snap: seq<Route>) | Rewritten | Live

  /** `missed*` and `clobbered*` are history: what a failed publish left behind here, and what a
      request thread last wrote from a superseded read. A mark goes when the replica is brought
      level again: by a re-read, a resync, an eviction, or a later write of what is stored. */
  datatype Replica = Replica(
    table: Table,
    link: Link,
    queue: seq<Invalidation>,
    work: Option<Work>,
    fetched: multiset<(GroupId, seq<Route>)>,
    compiling: multiset<Route>,
    missed: set<GroupId>,
    missedIds: set<RouteId>,
    clobbered: set<GroupId>,
    clobberedIds: set<RouteId>)

  datatype Call = Call(origin: ReplicaId, group: GroupId, change: Change)

  /** `home` is history: the group each route id was ever created in. */
  datatype Shared = Shared(
    storage: map<RouteId, Route>,
    home: map<RouteId, GroupId>,
    committed: multiset<Call>,
    outgoing: multiset<Invalidation>)

  datatype State = State(shared: Shared, replicas: map<ReplicaId, Replica>)

  datatype Step =
    | Commit(call: Call)
    | LocalRefresh(call: Call)
    | Publish(event: Invalidation)
    | PublishFail(event: Invalidation)
    | Disconnect(r: ReplicaId)
    | Subscribe(r: ReplicaId)
    | ReadAll(r: ReplicaId, snap: seq<Route>)
    | WriteAll(r: ReplicaId)
    | ClearArtifacts(r: ReplicaId)
    | Pop(r: ReplicaId)
    | ReadGroup(r: ReplicaId, snap: seq<Route>)
    | WriteGroup(r: ReplicaId)
    | ThroughRead(r: ReplicaId, g: GroupId, snap: seq<Route>)
    | ThroughWrite(r: ReplicaId, g: GroupId, snap: seq<Route>)
    | TakeRecord(r: ReplicaId, route: Route)
    | StoreArtifact(r: ReplicaId, route: Route)

  // ---- Storage ----------------------------------------------------------

  ghost predicate Distinct(rs: seq<Route>) {
    forall i, j :: 0 <= i < j < |rs| ==> rs[i].id != rs[j].id
  }

  /** `rs` holds exactly group `g` of storage, each record once, in some order. */
  ghost predicate Current(storage: map<RouteId, Route>, rs: seq<Route>, g: GroupId) {
    && (forall x :: x in rs ==> x.group == g && x.id in storage && storage[x.id] == x)
    && (forall id :: id in storage && storage[id].group == g ==> storage[id] in rs)
    && Distinct(rs)
  }

  /** `rs` holds exactly storage, each record once, in some order. */
  ghost predicate CurrentAll(storage: map<RouteId, Route>, rs: seq<Route>) {
    && (forall x :: x in rs ==> x.id in storage && storage[x.id] == x)
    && (forall id :: id in storage ==> storage[id] in rs)
    && Distinct(rs)
  }

  function Write(storage: map<RouteId, Route>, g: GroupId, c: Change): map<RouteId, Route> {
    match c
    case Created(route) => storage[route.id := route]
    case Deleted(id) => storage - {id}
    case Updated(route) => storage[route.id := route]
    case Cascaded => map id | id in storage && storage[id].group != g :: storage[id]
    case GroupRenamed(name) =>
      map id | id in storage ::
        if storage[id].group == g then storage[id].(groupName := name) else storage[id]
  }

  ghost predicate MayCommit(s: Shared, call: Call) {
    match call.change
    case Created(route) => route.id !in s.home && route.group == call.group
    case Deleted(id) => id in s.storage && s.storage[id].group == call.group
    case Updated(route) =>
      route.id in s.storage && s.storage[route.id].group == route.group == call.group
    case Cascaded => true
    case GroupRenamed(_) => true
  }

  // ---- Steps ------------------------------------------------------------

  ghost predicate Enabled(s: State, step: Step) {
    match step
    case Commit(call) => call.origin in s.replicas && MayCommit(s.shared, call)
    case LocalRefresh(call) => call in s.shared.committed && call.origin in s.replicas
    case Publish(e) => e in s.shared.outgoing
    case PublishFail(e) => e in s.shared.outgoing
    case Disconnect(r) => r in s.replicas
    case Subscribe(r) => r in s.replicas && s.replicas[r].link.Down? && s.replicas[r].work.None?
    case ReadAll(r, snap) =>
      r in s.replicas && s.replicas[r].link.Subscribed? && CurrentAll(s.shared.storage, snap)
    case WriteAll(r) => r in s.replicas && s.replicas[r].link.Reread?
    case ClearArtifacts(r) => r in s.replicas && s.replicas[r].link.Rewritten?
    case Pop(r) =>
      r in s.replicas && s.replicas[r].link.Live? && s.replicas[r].work.None? && s.replicas[r].queue != []
    case ReadGroup(r, snap) =>
      && r in s.replicas && s.replicas[r].work.Some? && s.replicas[r].work.value.snap.None?
      && Current(s.shared.storage, snap, s.replicas[r].work.value.event.group)
    case WriteGroup(r) =>
      r in s.replicas && s.replicas[r].work.Some? && s.replicas[r].work.value.snap.Some?
    case ThroughRead(r, g, snap) => r in s.replicas && Current(s.shared.storage, snap, g)
    case ThroughWrite(r, g, snap) => r in s.replicas && (g, snap) in s.replicas[r].fetched
    case TakeRecord(r, route) => r in s.replicas && route in s.replicas[r].table.routes
    case StoreArtifact(r, route) => r in s.replicas && route in s.replicas[r].compiling
  }

  /** What the step does to the one replica it runs on. */
  ghost function OnReplica(sh: Shared, rep: Replica, step: Step): Replica {
    match step
    case Disconnect(_) => rep.(link := Down, queue := [])
    case Subscribe(_) => rep.(link := Subscribed, queue := [])
    case ReadAll(_, snap) => rep.(link := Reread(snap), missed := {})
    case WriteAll(_) =>
      if rep.link.Reread?
      then rep.(link := Rewritten, table := rep.table.(routes := rep.link.snap), clobbered := {})
      else rep
    case ClearArtifacts(_) =>
      rep.(link := Live, table := rep.table.(artifacts := map[]), missedIds := {}, clobberedIds := {},
           missed := (set g | g in rep.missed && !GroupCurrent(sh, rep, g)),
           clobbered := (set g | g in rep.clobbered && !GroupCurrent(sh, rep, g)))
    case Pop(_) =>
      if rep.queue == [] then rep
      else
        var e := rep.queue[0];
        rep.(queue := rep.queue[1..], work := Some(Work(e, None)),
             table := rep.table.(artifacts := Evicted(rep.table.artifacts, e.routes)),
             missedIds := rep.missedIds - (set id | id in e.routes),
             clobberedIds := rep.clobberedIds - (set id | id in e.routes))
    case ReadGroup(_, snap) =>
      if rep.work.None? then rep
      else rep.(work := Some(rep.work.value.(snap := Some(snap))),
                missed := rep.missed - {rep.work.value.event.group})
    case WriteGroup(_) =>
      if rep.work.None? || rep.work.value.snap.None? then rep
      else
        var g := rep.work.value.event.group;
        rep.(work := None,
             table := rep.table.(routes := Without(rep.table.routes, g) + rep.work.value.snap.value),
             clobbered := rep.clobbered - {g},
             missed := if Current(sh.storage, rep.work.value.snap.value, g) then rep.missed - {g} else rep.missed)
    case ThroughRead(_, g, snap) => rep.(fetched := rep.fetched + multiset{(g, snap)})
    case ThroughWrite(_, g, snap) =>
      rep.(fetched := rep.fetched - multiset{(g, snap)},
           table := rep.table.(routes := Without(rep.table.routes, g) + snap),
           clobbered := if Current(sh.storage, snap, g) then rep.clobbered - {g} else rep.clobbered + {g},
           missed := if rep.link.Live? && !BeingApplied(rep, g) then rep.missed - {g} else rep.missed)
    case TakeRecord(_, route) => rep.(compiling := rep.compiling + multiset{route})
    case StoreArtifact(_, route) =>
      rep.(compiling := rep.compiling - multiset{route},
           table := rep.table.(artifacts := rep.table.artifacts[route.id := route.body]),
           missedIds := rep.missedIds - {route.id},
           clobberedIds :=
             if route.id in sh.storage && sh.storage[route.id].body != route.body
             then rep.clobberedIds + {route.id} else rep.clobberedIds - {route.id})
    case _ => rep
  }

  /** A publish reaches every replica whose subscription is up, the origin included. */
  ghost function Heard(rep: Replica, e: Invalidation): Replica {
    if rep.link.Down? then rep else rep.(queue := rep.queue + [e])
  }

  /** A failed publish leaves behind what this replica does not hold as stored anyway. */
  ghost function NotTold(sh: Shared, rep: Replica, e: Invalidation): Replica {
    var same := set id | id in e.routes && rep.link.Live? && ArtifactCurrent(sh, rep, id);
    var told := rep.(missedIds := rep.missedIds + (set id | id in e.routes) - same,
                     clobberedIds := rep.clobberedIds - same);
    if Level(sh, rep, e.group) then told.(missed := rep.missed - {e.group}, clobbered := rep.clobbered - {e.group})
    else told.(missed := rep.missed + {e.group})
  }

  /** A connected replica holds the group as stored and is not about to overwrite it. */
  ghost predicate Level(sh: Shared, rep: Replica, g: GroupId) {
    rep.link.Live? && !BeingApplied(rep, g) && GroupCurrent(sh, rep, g)
  }

  ghost function Next(s: State, step: Step): State
    requires Enabled(s, step)
  {
    match step
    case Commit(call) =>
      var c := call.change;
      s.(shared := s.shared.(
           storage := Write(s.shared.storage, call.group, c),
           home := if c.Created? then s.shared.home[c.route.id := call.group] else s.shared.home,
           committed := s.shared.committed + multiset{call}))
    case LocalRefresh(call) =>
      var rep := s.replicas[call.origin];
      State(s.shared.(
              committed := s.shared.committed - multiset{call},
              outgoing := s.shared.outgoing + multiset{Notice(rep.table, call.group, call.change)}),
            s.replicas[call.origin := rep.(table := Refresh(rep.table, call.group, call.change))])
    case Publish(e) =>
      State(s.shared.(outgoing := s.shared.outgoing - multiset{e}),
            map r | r in s.replicas :: Heard(s.replicas[r], e))
    case PublishFail(e) =>
      State(s.shared.(outgoing := s.shared.outgoing - multiset{e}),
            map r | r in s.replicas :: NotTold(s.shared, s.replicas[r], e))
    case _ =>
      s.(replicas := s.replicas[step.r := OnReplica(s.shared, s.replicas[step.r], step)])
  }

  // ---- What may excuse a stale cache --------------------------------------

  ghost predicate GroupInFlight(sh: Shared, g: GroupId) {
    || (exists c :: c in sh.committed && c.group == g)
    || (exists e :: e in sh.outgoing && e.group == g)
  }

  ghost predicate IdInFlight(sh: Shared, id: RouteId) {
    || (exists c :: c in sh.committed && c.change.Updated? && c.change.route.id == id)
    || (exists e :: e in sh.outgoing && id in e.routes)
  }

  ghost predicate Queued(q: seq<Invalidation>, g: GroupId) {
    exists e :: e in q && e.group == g
  }

  ghost predicate QueuedId(q: seq<Invalidation>, id: RouteId) {
    exists e :: e in q && id in e.routes
  }

  /** News of group `g` is still to come, or was lost to a failed publish. */
  ghost predicate Coming(sh: Shared, rep: Replica, g: GroupId) {
    GroupInFlight(sh, g) || Queued(rep.queue, g) || g in rep.missed
  }

  ghost predicate IdComing(sh: Shared, rep: Replica, id: RouteId) {
    IdInFlight(sh, id) || QueuedId(rep.queue, id) || id in rep.missedIds
  }

  ghost predicate BeingApplied(rep: Replica, g: GroupId) {
    rep.work.Some? && rep.work.value.event.group == g
  }

  ghost predicate GroupCurrent(sh: Shared, rep: Replica, g: GroupId) {
    Current(sh.storage, OfGroup(rep.table.routes, g), g)
  }

  ghost predicate ArtifactCurrent(sh: Shared, rep: Replica, id: RouteId) {
    id in rep.table.artifacts && id in sh.storage ==> rep.table.artifacts[id] == sh.storage[id].body
  }

  // ---- Invariant ----------------------------------------------------------

  ghost predicate Homed(home: map<RouteId, GroupId>, rs: seq<Route>) {
    forall x :: x in rs ==> x.id in home && home[x.id] == x.group
  }

  ghost predicate SharedOk(sh: Shared) {
    && (forall id :: id in sh.storage ==>
          sh.storage[id].id == id && id in sh.home && sh.home[id] == sh.storage[id].group)
    && (forall c :: c in sh.committed ==> CallOk(sh.home, c))
  }

  ghost predicate CallOk(home: map<RouteId, GroupId>, c: Call) {
    match c.change
    case Created(route) => route.group == c.group && Homed(home, [route])
    case Deleted(id) => id in home && home[id] == c.group
    case Updated(route) => route.group == c.group && Homed(home, [route])
    case Cascaded => true
    case GroupRenamed(_) => true
  }

  ghost predicate AllIn(rs: seq<Route>, g: GroupId) {
    forall x :: x in rs ==> x.group == g
  }

  ghost predicate RepShape(home: map<RouteId, GroupId>, rep: Replica) {
    && Homed(home, rep.table.routes)
    && rep.table.artifacts.Keys <= home.Keys
    && (rep.link.Reread? ==> Homed(home, rep.link.snap))
    && (rep.work.Some? && rep.work.value.snap.Some? ==>
          Homed(home, rep.work.value.snap.value) && AllIn(rep.work.value.snap.value, rep.work.value.event.group))
    && (forall p :: p in rep.fetched ==> Homed(home, p.1) && AllIn(p.1, p.0))
    && (forall x :: x in rep.compiling ==> x.id in home)
  }

  ghost predicate RecordsOk(sh: Shared, rep: Replica) {
    && (rep.link.Reread? ==>
          forall g :: Current(sh.storage, OfGroup(rep.link.snap, g), g) || Coming(sh, rep, g))
    && (rep.link.Rewritten? || rep.link.Live? ==>
          forall g :: GroupCurrent(sh, rep, g) || Coming(sh, rep, g) || g in rep.clobbered || BeingApplied(rep, g))
    && (rep.link.Live? && rep.work.Some? && rep.work.value.snap.Some? ==>
          var g := rep.work.value.event.group;
          Current(sh.storage, rep.work.value.snap.value, g) || Coming(sh, rep, g))
    && (rep.work.Some? ==> rep.link.Live? || rep.link.Down?)
  }

  ghost predicate ArtifactsOk(sh: Shared, rep: Replica) {
    rep.link.Live? ==>
      forall id :: ArtifactCurrent(sh, rep, id) || IdComing(sh, rep, id) || id in rep.clobberedIds
  }

  ghost predicate RepOk(sh: Shared, rep: Replica) {
    RepShape(sh.home, rep) && RecordsOk(sh, rep) && ArtifactsOk(sh, rep)
  }

  ghost predicate Inv(s: State) {
    SharedOk(s.shared) && forall r :: r in s.replicas ==> RepOk(s.shared, s.replicas[r])
  }

  // ---- Each step keeps the invariant --------------------------------------

  lemma DistinctOfGroup(rs: seq<Route>, g: GroupId)
    requires Distinct(rs)
    ensures Distinct(OfGroup(rs, g))
  {
    if rs != [] {
      DistinctOfGroup(rs[1..], g);
      var rest := OfGroup(rs[1..], g);
      forall i | 0 <= i < |rest| ensures rs[0].id != rest[i].id {
        assert rest[i] in rs[1..];
      }
    }
  }

  lemma CurrentAllSplits(storage: map<RouteId, Route>, rs: seq<Route>, g: GroupId)
    requires CurrentAll(storage, rs)
    ensures Current(storage, OfGroup(rs, g), g)
  {
    DistinctOfGroup(rs, g);
  }

  /** A commit to group `g` leaves every other group's current reads current. */
  lemma WriteElsewhere(sh: Shared, call: Call, rs: seq<Route>, h: GroupId)
    requires SharedOk(sh) && MayCommit(sh, call) && h != call.group
    requires Current(sh.storage, rs, h)
    ensures Current(Write(sh.storage, call.group, call.change), rs, h)
  {
    var after := Write(sh.storage, call.group, call.change);
    forall id | id in after && after[id].group == h ensures after[id] in rs {
      assert id in sh.storage && sh.storage[id] == after[id];
    }
  }

  lemma CommitKeepsRecords(sh: Shared, call: Call, rep: Replica, sh': Shared)
    requires SharedOk(sh) && MayCommit(sh, call) && RepOk(sh, rep)
    requires sh' == sh.(storage := Write(sh.storage, call.group, call.change), home := sh'.home,
                        committed := sh.committed + multiset{call})
    ensures RecordsOk(sh', rep)
  {
    assert call in sh'.committed && GroupInFlight(sh', call.group);
    assert forall c :: c in sh.committed ==> c in sh'.committed;
    assert forall g :: Coming(sh, rep, g) ==> Coming(sh', rep, g);
    forall rs, h | h != call.group && Current(sh.storage, rs, h) ensures Current(sh'.storage, rs, h) {
      WriteElsewhere(sh, call, rs, h);
    }
  }

  lemma CommitKeepsReplica(s: State, call: Call, rep: Replica)
    requires SharedOk(s.shared) && Enabled(s, Commit(call)) && RepOk(s.shared, rep)
    ensures RepOk(Next(s, Commit(call)).shared, rep)
  {
    var sh, sh' := s.shared, Next(s, Commit(call)).shared;
    CommitKeepsRecords(sh, call, rep, sh');
    assert call in sh'.committed;
    assert forall c :: c in sh.committed ==> c in sh'.committed;
    assert forall id :: IdInFlight(sh, id) ==> IdInFlight(sh', id);
    forall id | ArtifactCurrent(sh, rep, id) ensures ArtifactCurrent(sh', rep, id) || IdInFlight(sh', id) {
    }
  }

  lemma CommitKeepsShared(sh: Shared, call: Call, sh': Shared)
    requires SharedOk(sh) && MayCommit(sh, call)
    requires sh' == sh.(
        storage := Write(sh.storage, call.group, call.change),
        home := if call.change.Created? then sh.home[call.change.route.id := call.group] else sh.home,
        committed := sh.committed + multiset{call})
    ensures SharedOk(sh')
  {
    forall id | id in sh'.storage
      ensures sh'.storage[id].id == id && id in sh'.home && sh'.home[id] == sh'.storage[id].group
    {
    }
    forall c | c in sh'.committed ensures CallOk(sh'.home, c) {
      assert c == call || c in sh.committed;
      if c == call && call.change.Deleted? {
        assert call.change.id in sh.storage;
      }
    }
  }

  /** Records and artifacts are untouched; only news in flight moved, and none was dropped. */
  lemma NewsMoved(sh: Shared, sh': Shared, rep: Replica, rep': Replica)
    requires RepOk(sh, rep)
    requires sh'.storage == sh.storage && sh'.home == sh.home
    requires rep' == rep.(queue := rep'.queue, missed := rep'.missed, missedIds := rep'.missedIds)
    requires !rep.link.Down? ==> forall g :: Coming(sh, rep, g) ==> Coming(sh', rep', g)
    requires !rep.link.Down? ==> forall id :: IdComing(sh, rep, id) ==> IdComing(sh', rep', id)
    ensures RepOk(sh', rep')
  {
  }

  lemma RefreshMovesNews(sh: Shared, call: Call, t: Table)
    requires call in sh.committed
    ensures var sh' := sh.(committed := sh.committed - multiset{call},
                           outgoing := sh.outgoing + multiset{Notice(t, call.group, call.change)});
      && (forall g :: GroupInFlight(sh, g) ==> GroupInFlight(sh', g))
      && (forall id :: IdInFlight(sh, id) ==> IdInFlight(sh', id))
      && GroupInFlight(sh', call.group)
  {
    var e := Notice(t, call.group, call.change);
    var sh' := sh.(committed := sh.committed - multiset{call}, outgoing := sh.outgoing + multiset{e});
    assert e in sh'.outgoing;
    assert forall c :: c in sh.committed && c != call ==> c in sh'.committed;
    assert forall x :: x in sh.outgoing ==> x in sh'.outgoing;
  }

  lemma RefreshKeepsHomed(home: map<RouteId, GroupId>, t: Table, call: Call)
    requires Homed(home, t.routes) && CallOk(home, call)
    ensures Homed(home, Refresh(t, call.group, call.change).routes)
  {
  }

  lemma RefreshKeepsOrigin(s: State, call: Call)
    requires Inv(s) && Enabled(s, LocalRefresh(call))
    ensures RepOk(Next(s, LocalRefresh(call)).shared, Next(s, LocalRefresh(call)).replicas[call.origin])
  {
    var s' := Next(s, LocalRefresh(call));
    var sh, sh' := s.shared, s'.shared;
    var rep, rep' := s.replicas[call.origin], s'.replicas[call.origin];
    RefreshMovesNews(sh, call, rep.table);
    RefreshKeepsHomed(sh.home, rep.table, call);
    assert CallOk(sh.home, call);
    assert forall g :: Coming(sh, rep, g) ==> Coming(sh', rep', g);
    forall h | h != call.group ensures OfGroup(rep'.table.routes, h) == OfGroup(rep.table.routes, h) {
      RefreshOtherGroup(rep.table, call.group, call.change, h);
    }
    assert forall id :: ArtifactCurrent(sh, rep, id) ==> ArtifactCurrent(sh', rep', id);
  }

  lemma RefreshKeepsInv(s: State, call: Call)
    requires Inv(s) && Enabled(s, LocalRefresh(call))
    ensures Inv(Next(s, LocalRefresh(call)))
  {
    var s' := Next(s, LocalRefresh(call));
    RefreshMovesNews(s.shared, call, s.replicas[call.origin].table);
    RefreshKeepsOrigin(s, call);
    forall r | r in s'.replicas && r != call.origin ensures RepOk(s'.shared, s'.replicas[r]) {
      NewsMoved(s.shared, s'.shared, s.replicas[r], s'.replicas[r]);
    }
  }

  lemma HearingKeepsReplica(sh: Shared, e: Invalidation, rep: Replica)
    requires RepOk(sh, rep) && e in sh.outgoing
    ensures RepOk(sh.(outgoing := sh.outgoing - multiset{e}), Heard(rep, e))
  {
    var sh' := sh.(outgoing := sh.outgoing - multiset{e});
    var rep' := Heard(rep, e);
    assert forall x :: x in sh.outgoing && x != e ==> x in sh'.outgoing;
    if !rep.link.Down? {
      assert e in rep'.queue && forall x :: x in rep.queue ==> x in rep'.queue;
      forall g | Coming(sh, rep, g) ensures Coming(sh', rep', g) {
        assert GroupInFlight(sh, g) ==> GroupInFlight(sh', g) || g == e.group;
      }
      forall id | IdComing(sh, rep, id) ensures IdComing(sh', rep', id) {
        assert IdInFlight(sh, id) ==> IdInFlight(sh', id) || id in e.routes;
      }
    }
    NewsMoved(sh, sh', rep, rep');
  }

  lemma FailingLeavesBehind(sh: Shared, e: Invalidation, rep: Replica)
    requires e in sh.outgoing
    ensures
      var sh', rep' := sh.(outgoing := sh.outgoing - multiset{e}), NotTold(sh, rep, e);
      && (forall g :: Coming(sh, rep, g) ==> Coming(sh', rep', g) || Level(sh, rep, g))
      && (forall id :: IdComing(sh, rep, id) ==>
          IdComing(sh', rep', id) || (rep.link.Live? && ArtifactCurrent(sh, rep, id)))
  {
    var sh', rep' := sh.(outgoing := sh.outgoing - multiset{e}), NotTold(sh, rep, e);
    assert forall x :: x in sh.outgoing && x != e ==> x in sh'.outgoing;
    forall g | Coming(sh, rep, g) ensures Coming(sh', rep', g) || Level(sh, rep, g) {
      assert GroupInFlight(sh, g) ==> GroupInFlight(sh', g) || g == e.group;
    }
    forall id | IdComing(sh, rep, id)
      ensures IdComing(sh', rep', id) || (rep.link.Live? && ArtifactCurrent(sh, rep, id))
    {
      assert IdInFlight(sh, id) ==> IdInFlight(sh', id) || id in e.routes;
    }
  }

  lemma FailingKeepsReplica(sh: Shared, e: Invalidation, rep: Replica)
    requires RepOk(sh, rep) && e in sh.outgoing
    ensures RepOk(sh.(outgoing := sh.outgoing - multiset{e}), NotTold(sh, rep, e))
  {
    var sh', rep' := sh.(outgoing := sh.outgoing - multiset{e}), NotTold(sh, rep, e);
    FailingLeavesBehind(sh, e, rep);
    assert forall g :: GroupCurrent(sh, rep, g) ==> GroupCurrent(sh', rep', g);
    assert forall id :: ArtifactCurrent(sh, rep, id) ==> ArtifactCurrent(sh', rep', id);
  }

  lemma PublishKeepsInv(s: State, e: Invalidation)
    requires Inv(s) && e in s.shared.outgoing
    ensures Inv(Next(s, Publish(e))) && Inv(Next(s, PublishFail(e)))
  {
    var sent, failed := Next(s, Publish(e)), Next(s, PublishFail(e));
    forall r | r in s.replicas
      ensures RepOk(sent.shared, sent.replicas[r]) && RepOk(failed.shared, failed.replicas[r])
    {
      HearingKeepsReplica(s.shared, e, s.replicas[r]);
      FailingKeepsReplica(s.shared, e, s.replicas[r]);
    }
  }

  lemma SessionStepKeepsReplica(s: State, step: Step)
    requires Inv(s) && Enabled(s, step)
    requires step.Disconnect? || step.Subscribe? || step.ReadAll? || step.WriteAll? || step.ClearArtifacts?
    ensures RepOk(s.shared, OnReplica(s.shared, s.replicas[step.r], step))
  {
    var sh, rep := s.shared, s.replicas[step.r];
    var rep' := OnReplica(sh, rep, step);
    if step.ReadAll? {
      forall g ensures Current(sh.storage, OfGroup(step.snap, g), g) {
        CurrentAllSplits(sh.storage, step.snap, g);
      }
    } else if step.WriteAll? {
      assert forall g :: Coming(sh, rep, g) ==> Coming(sh, rep', g);
    }
  }

  lemma PopKeepsReplica(s: State, r: ReplicaId)
    requires Inv(s) && Enabled(s, Pop(r))
    ensures RepOk(s.shared, OnReplica(s.shared, s.replicas[r], Pop(r)))
  {
    var sh, rep := s.shared, s.replicas[r];
    var rep' := OnReplica(sh, rep, Pop(r));
    var e := rep.queue[0];
    assert rep.queue == [e] + rep'.queue;
    assert forall g :: Coming(sh, rep, g) ==> Coming(sh, rep', g) || BeingApplied(rep', g);
    forall id ensures ArtifactCurrent(sh, rep', id) || IdComing(sh, rep', id) || id in rep'.clobberedIds {
      if id !in e.routes {
        assert QueuedId(rep.queue, id) ==> QueuedId(rep'.queue, id);
      }
    }
  }

  lemma WriteGroupKeepsRecords(sh: Shared, rep: Replica, r: ReplicaId)
    requires RepOk(sh, rep) && rep.work.Some? && rep.work.value.snap.Some?
    ensures RecordsOk(sh, OnReplica(sh, rep, WriteGroup(r)))
  {
    var rep' := OnReplica(sh, rep, WriteGroup(r));
    var g, snap := rep.work.value.event.group, rep.work.value.snap.value;
    if rep.link.Live? {
      forall h ensures GroupCurrent(sh, rep', h) || Coming(sh, rep', h) || h in rep'.clobbered {
        ReloadReplacesOneGroup(rep.table.routes, g, snap, h);
        assert Coming(sh, rep, h) ==> Coming(sh, rep', h) || (h == g && Current(sh.storage, snap, g));
        if h == g {
          assert Current(sh.storage, snap, g) || Coming(sh, rep, g);
        } else {
          assert GroupCurrent(sh, rep, h) || Coming(sh, rep, h) || h in rep.clobbered;
        }
      }
    }
  }

  lemma WriteGroupKeepsReplica(s: State, r: ReplicaId)
    requires Inv(s) && Enabled(s, WriteGroup(r))
    ensures RepOk(s.shared, OnReplica(s.shared, s.replicas[r], WriteGroup(r)))
  {
    var sh, rep := s.shared, s.replicas[r];
    var rep' := OnReplica(sh, rep, WriteGroup(r));
    WriteGroupKeepsRecords(sh, rep, r);
    assert forall id :: IdComing(sh, rep, id) ==> IdComing(sh, rep', id);
    assert forall id :: ArtifactCurrent(sh, rep, id) ==> ArtifactCurrent(sh, rep', id);
  }

  lemma ReadGroupKeepsReplica(s: State, r: ReplicaId, snap: seq<Route>)
    requires Inv(s) && Enabled(s, ReadGroup(r, snap))
    ensures RepOk(s.shared, OnReplica(s.shared, s.replicas[r], ReadGroup(r, snap)))
  {
    var sh, rep := s.shared, s.replicas[r];
    var rep' := OnReplica(sh, rep, ReadGroup(r, snap));
    var g := rep.work.value.event.group;
    assert forall h :: h != g && Coming(sh, rep, h) ==> Coming(sh, rep', h);
    assert forall id :: IdComing(sh, rep, id) ==> IdComing(sh, rep', id);
    assert forall id :: ArtifactCurrent(sh, rep, id) ==> ArtifactCurrent(sh, rep', id);
  }

  lemma ThroughReadKeepsReplica(s: State, r: ReplicaId, g: GroupId, snap: seq<Route>)
    requires Inv(s) && Enabled(s, ThroughRead(r, g, snap))
    ensures RepOk(s.shared, OnReplica(s.shared, s.replicas[r], ThroughRead(r, g, snap)))
  {
    var sh, rep := s.shared, s.replicas[r];
    var rep' := OnReplica(sh, rep, ThroughRead(r, g, snap));
    assert forall h :: Coming(sh, rep, h) ==> Coming(sh, rep', h);
    assert forall id :: IdComing(sh, rep, id) ==> IdComing(sh, rep', id);
    assert forall id :: ArtifactCurrent(sh, rep, id) ==> ArtifactCurrent(sh, rep', id);
  }

  lemma ThroughWriteKeepsRecords(sh: Shared, rep: Replica, r: ReplicaId, g: GroupId, snap: seq<Route>)
    requires RepOk(sh, rep) && AllIn(snap, g)
    ensures RecordsOk(sh, OnReplica(sh, rep, ThroughWrite(r, g, snap)))
  {
    var rep' := OnReplica(sh, rep, ThroughWrite(r, g, snap));
    assert forall h :: h != g && Coming(sh, rep, h) ==> Coming(sh, rep', h);
    assert !(rep.link.Live? && !BeingApplied(rep, g)) && Coming(sh, rep, g) ==> Coming(sh, rep', g);
    if rep.link.Rewritten? || rep.link.Live? {
      forall h
        ensures GroupCurrent(sh, rep', h) || Coming(sh, rep', h) || h in rep'.clobbered || BeingApplied(rep', h)
      {
        ReloadReplacesOneGroup(rep.table.routes, g, snap, h);
        assert h != g ==> GroupCurrent(sh, rep, h) || Coming(sh, rep, h) || h in rep.clobbered || BeingApplied(rep, h);
      }
    }
  }

  lemma ThroughWriteKeepsReplica(s: State, r: ReplicaId, g: GroupId, snap: seq<Route>)
    requires Inv(s) && Enabled(s, ThroughWrite(r, g, snap))
    ensures RepOk(s.shared, OnReplica(s.shared, s.replicas[r], ThroughWrite(r, g, snap)))
  {
    var sh, rep := s.shared, s.replicas[r];
    var rep' := OnReplica(sh, rep, ThroughWrite(r, g, snap));
    assert (g, snap) in rep.fetched && AllIn((g, snap).1, (g, snap).0);
    ThroughWriteKeepsRecords(sh, rep, r, g, snap);
    assert forall id :: IdComing(sh, rep, id) ==> IdComing(sh, rep', id);
    assert forall id :: ArtifactCurrent(sh, rep, id) ==> ArtifactCurrent(sh, rep', id);
  }

  lemma TakeRecordKeepsReplica(s: State, r: ReplicaId, route: Route)
    requires Inv(s) && Enabled(s, TakeRecord(r, route))
    ensures RepOk(s.shared, OnReplica(s.shared, s.replicas[r], TakeRecord(r, route)))
  {
    var sh, rep := s.shared, s.replicas[r];
    var rep' := OnReplica(sh, rep, TakeRecord(r, route));
    assert forall h :: Coming(sh, rep, h) ==> Coming(sh, rep', h);
    assert forall id :: IdComing(sh, rep, id) ==> IdComing(sh, rep', id);
    assert forall id :: ArtifactCurrent(sh, rep, id) ==> ArtifactCurrent(sh, rep', id);
  }

  lemma StoreArtifactKeepsReplica(s: State, r: ReplicaId, route: Route)
    requires Inv(s) && Enabled(s, StoreArtifact(r, route))
    ensures RepOk(s.shared, OnReplica(s.shared, s.replicas[r], StoreArtifact(r, route)))
  {
    var sh, rep := s.shared, s.replicas[r];
    var rep' := OnReplica(sh, rep, StoreArtifact(r, route));
    assert forall h :: Coming(sh, rep, h) ==> Coming(sh, rep', h);
    assert forall id :: id != route.id && IdComing(sh, rep, id) ==> IdComing(sh, rep', id);
    assert forall id :: id != route.id && ArtifactCurrent(sh, rep, id) ==> ArtifactCurrent(sh, rep', id);
    assert ArtifactCurrent(sh, rep', route.id) || route.id in rep'.clobberedIds;
  }

  lemma CommitKeepsInv(s: State, call: Call)
    requires Inv(s) && Enabled(s, Commit(call))
    ensures Inv(Next(s, Commit(call)))
  {
    var s' := Next(s, Commit(call));
    CommitKeepsShared(s.shared, call, s'.shared);
    forall r | r in s'.replicas ensures RepOk(s'.shared, s'.replicas[r]) {
      CommitKeepsReplica(s, call, s.replicas[r]);
    }
  }

  lemma LocalStepKeepsReplica(s: State, step: Step)
    requires Inv(s) && Enabled(s, step)
    requires !step.Commit? && !step.LocalRefresh? && !step.Publish? && !step.PublishFail?
    ensures RepOk(s.shared, OnReplica(s.shared, s.replicas[step.r], step))
  {
    match step
    case Pop(r) => PopKeepsReplica(s, r);
    case ReadGroup(r, snap) => ReadGroupKeepsReplica(s, r, snap);
    case WriteGroup(r) => WriteGroupKeepsReplica(s, r);
    case ThroughRead(r, g, snap) => ThroughReadKeepsReplica(s, r, g, snap);
    case ThroughWrite(r, g, snap) => ThroughWriteKeepsReplica(s, r, g, snap);
    case TakeRecord(r, route) => TakeRecordKeepsReplica(s, r, route);
    case StoreArtifact(r, route) => StoreArtifactKeepsReplica(s, r, route);
    case _ => SessionStepKeepsReplica(s, step);
  }

  lemma LocalStepKeepsInv(s: State, step: Step)
    requires Inv(s) && Enabled(s, step)
    requires !step.Commit? && !step.LocalRefresh? && !step.Publish? && !step.PublishFail?
    ensures Inv(Next(s, step))
  {
    LocalStepKeepsReplica(s, step);
    assert Next(s, step) == s.(replicas := s.replicas[step.r := OnReplica(s.shared, s.replicas[step.r], step)]);
  }

  lemma StepKeepsInv(s: State, step: Step)
    requires Inv(s) && Enabled(s, step)
    ensures Inv(Next(s, step))
  {
    match step
    case Commit(call) => CommitKeepsInv(s, call);
    case LocalRefresh(call) => RefreshKeepsInv(s, call);
    case Publish(e) => PublishKeepsInv(s, e);
    case PublishFail(e) => PublishKeepsInv(s, e);
    case _ => LocalStepKeepsInv(s, step);
  }

  // ---- Whole runs -----------------------------------------------------------

  /** Any number of replicas, none subscribed yet, each warmed with whatever it read at boot. */
  ghost predicate Init(s: State) {
    && s.shared.committed == multiset{} && s.shared.outgoing == multiset{}
    && SharedOk(s.shared)
    && forall r :: r in s.replicas ==>
         var rep := s.replicas[r];
         && rep.link.Down? && rep.work.None? && rep.fetched == multiset{} && rep.compiling == multiset{}
         && Homed(s.shared.home, rep.table.routes) && rep.table.artifacts.Keys <= s.shared.home.Keys
  }

  ghost predicate Run(s: State, steps: seq<Step>, end: State)
    decreases |steps|
  {
    if steps == [] then s == end
    else Enabled(s, steps[0]) && Run(Next(s, steps[0]), steps[1..], end)
  }

  lemma {:induction false} RunKeepsInv(s: State, steps: seq<Step>, end: State)
    requires Inv(s) && Run(s, steps, end)
    ensures Inv(end)
    decreases |steps|
  {
    if steps != [] {
      StepKeepsInv(s, steps[0]);
      RunKeepsInv(Next(s, steps[0]), steps[1..], end);
    }
  }

  /** In every run, a replica that finished its post-subscribe reload is stale for a
      group only if news of the group is still on its way to it, a publish naming the
      group failed since it last read storage, or a request thread wrote back a
      superseded read; and it serves a stale artifact only for the same three causes
      at the level of the route id. */
  lemma StaleOnlyForCause(s: State, steps: seq<Step>, end: State, r: ReplicaId, g: GroupId, id: RouteId)
    requires Init(s) && Run(s, steps, end)
    requires r in end.replicas && end.replicas[r].link.Live?
    ensures var sh, rep := end.shared, end.replicas[r];
      && (GroupCurrent(sh, rep, g)
          || GroupInFlight(sh, g) || Queued(rep.queue, g) || BeingApplied(rep, g)
          || g in rep.missed || g in rep.clobbered)
      && (ArtifactCurrent(sh, rep, id)
          || IdInFlight(sh, id) || QueuedId(rep.queue, id)
          || id in rep.missedIds || id in rep.clobberedIds)
  {
    RunKeepsInv(s, steps, end);
  }

  /** Nothing committed is unannounced and nothing announced is undelivered. */
  ghost predicate Quiescent(s: State) {
    && s.shared.committed == multiset{} && s.shared.outgoing == multiset{}
    && forall r :: r in s.replicas ==> s.replicas[r].queue == [] && s.replicas[r].work.None?
  }

  ghost predicate NothingLost(rep: Replica) {
    rep.missed == {} && rep.missedIds == {} && rep.clobbered == {} && rep.clobberedIds == {}
  }

  lemma DistinctSuffix(a: seq<Route>, b: seq<Route>)
    requires Distinct(a + b)
    ensures Distinct(b)
    ensures forall x, y :: x in a && y in b ==> x.id != y.id
  {
    forall i, j | 0 <= i < j < |b| ensures b[i].id != b[j].id {
      assert (a + b)[|a| + i] == b[i] && (a + b)[|a| + j] == b[j];
    }
    forall i, j | 0 <= i < |a| && 0 <= j < |b| ensures a[i].id != b[j].id {
      assert (a + b)[i] == a[i] && (a + b)[|a| + j] == b[j];
    }
  }

  lemma {:induction false} DistinctAcrossGroups(rs: seq<Route>, i: nat, j: nat)
    requires i < j < |rs| && rs[i].group == rs[j].group
    requires Distinct(OfGroup(rs, rs[i].group))
    ensures rs[i].id != rs[j].id
  {
    var g := rs[i].group;
    var first := if rs[0].group == g then [rs[0]] else [];
    DistinctSuffix(first, OfGroup(rs[1..], g));
    assert rs[1..][j - 1] == rs[j];
    if i == 0 {
      assert rs[0] in first && rs[j] in OfGroup(rs[1..], g);
    } else {
      assert rs[1..][i - 1] == rs[i];
      DistinctAcrossGroups(rs[1..], i - 1, j - 1);
    }
  }

  lemma CurrentGroupsMakeCurrent(sh: Shared, rs: seq<Route>)
    requires SharedOk(sh)
    requires forall g :: Current(sh.storage, OfGroup(rs, g), g)
    ensures CurrentAll(sh.storage, rs)
  {
    forall x | x in rs ensures x.id in sh.storage && sh.storage[x.id] == x {
      assert Current(sh.storage, OfGroup(rs, x.group), x.group) && x in OfGroup(rs, x.group);
    }
    forall id | id in sh.storage ensures sh.storage[id] in rs {
      var g := sh.storage[id].group;
      assert Current(sh.storage, OfGroup(rs, g), g) && sh.storage[id] in OfGroup(rs, g);
    }
    forall i, j | 0 <= i < j < |rs| ensures rs[i].id != rs[j].id {
      assert rs[i] in rs && rs[j] in rs;
      if rs[i].id == rs[j].id {
        assert Current(sh.storage, OfGroup(rs, rs[i].group), rs[i].group);
        DistinctAcrossGroups(rs, i, j);
      }
    }
  }

  lemma NothingComing(s: State, r: ReplicaId, g: GroupId, id: RouteId)
    requires Quiescent(s) && r in s.replicas && NothingLost(s.replicas[r])
    ensures !Coming(s.shared, s.replicas[r], g) && !IdComing(s.shared, s.replicas[r], id)
  {
  }

  lemma CurrentAtRest(s: State, r: ReplicaId, g: GroupId, id: RouteId)
    requires Inv(s) && Quiescent(s) && r in s.replicas && s.replicas[r].link.Live? && NothingLost(s.replicas[r])
    ensures Current(s.shared.storage, OfGroup(s.replicas[r].table.routes, g), g)
    ensures ArtifactCurrent(s.shared, s.replicas[r], id)
  {
    var sh, rep := s.shared, s.replicas[r];
    NothingComing(s, r, g, id);
    assert RecordsOk(sh, rep) && ArtifactsOk(sh, rep);
    assert GroupCurrent(sh, rep, g) || Coming(sh, rep, g) || g in rep.clobbered || BeingApplied(rep, g);
  }

  /** At quiescence every connected replica that lost nothing serves exactly storage,
      each record once, with artifacts compiled from the stored records. */
  lemma QuiescentCachesEqualStorage(s: State, steps: seq<Step>, end: State, r: ReplicaId)
    requires Init(s) && Run(s, steps, end) && Quiescent(end)
    requires r in end.replicas && end.replicas[r].link.Live? && NothingLost(end.replicas[r])
    ensures CurrentAll(end.shared.storage, end.replicas[r].table.routes)
    ensures forall id :: ArtifactCurrent(end.shared, end.replicas[r], id)
  {
    RunKeepsInv(s, steps, end);
    var rep := end.replicas[r];
    var storage, rs := end.shared.storage, rep.table.routes;
    assert forall g :: Current(storage, OfGroup(rs, g), g) by {
      forall g ensures Current(storage, OfGroup(rs, g), g) { CurrentAtRest(end, r, g, 0); }
    }
    assert forall id :: ArtifactCurrent(end.shared, rep, id) by {
      forall id ensures ArtifactCurrent(end.shared, rep, id) { CurrentAtRest(end, r, 0, id); }
    }
    assert CurrentAll(storage, rs) by { CurrentGroupsMakeCurrent(end.shared, rs); }
  }

  // ---- Two races the bus does not heal ------------------------------------------

  lemma {:induction false} RunsJoin(s: State, xs: seq<Step>, mid: State, ys: seq<Step>, end: State)
    requires Run(s, xs, mid) && Run(mid, ys, end)
    ensures Run(s, xs + ys, end)
    decreases |xs|
  {
    if xs == [] {
      assert xs + ys == ys;
    } else {
      var all := xs + ys;
      assert all[0] == xs[0] && all[1..] == xs[1..] + ys;
      RunsJoin(Next(s, all[0]), xs[1..], mid, ys, end);
    }
  }

  ghost predicate Leads(s: State, step: Step, next: State) {
    Enabled(s, step) && Next(s, step) == next
  }

  lemma Chain(a: State, w: Step, b: State, x: Step, c: State, y: Step, d: State, z: Step, e: State)
    requires Leads(a, w, b) && Leads(b, x, c) && Leads(c, y, d) && Leads(d, z, e)
    ensures Run(a, [w, x, y, z], e)
  {
    assert Run(d, [z], e) by { assert [z][1..] == []; }
    assert Run(c, [y, z], e) by { assert [y, z][1..] == [z]; }
    assert Run(b, [x, y, z], e) by { assert [x, y, z][1..] == [y, z]; }
    assert [w, x, y, z][1..] == [x, y, z];
  }

  const OLD := Route(7, 3, "n", "v1")
  const NEW := Route(7, 3, "n", "v2")
  const NEWS := Invalidation(3, [7])

  function Idle(rs: seq<Route>): Replica {
    Replica(Table(rs, map[]), Down, [], None, multiset{}, multiset{}, {}, {}, {}, {})
  }

  function Quiet(storage: map<RouteId, Route>): Shared {
    Shared(storage, map[7 := 3], multiset{}, multiset{})
  }

  function At(sh: Shared, others: map<ReplicaId, Replica>, rep: Replica): State {
    State(sh, others[0 := rep])
  }

  /** A step that runs on replica 0 alone. */
  lemma LeadsLocally(sh: Shared, others: map<ReplicaId, Replica>, rep: Replica, step: Step)
    requires !step.Commit? && !step.LocalRefresh? && !step.Publish? && !step.PublishFail?
    requires step.r == 0 && Enabled(At(sh, others, rep), step)
    ensures Leads(At(sh, others, rep), step, At(sh, others, OnReplica(sh, rep, step)))
  {
    var next := OnReplica(sh, rep, step);
    assert others[0 := rep][0 := next] == others[0 := next];
  }

  /** Replica 0, warmed with current records, subscribes and resyncs. */
  lemma Connects(others: map<ReplicaId, Replica>) returns (steps: seq<Step>)
    ensures Run(At(Quiet(map[7 := OLD]), others, Idle([OLD])), steps,
                At(Quiet(map[7 := OLD]), others, Idle([OLD]).(link := Live)))
  {
    var sh, rep := Quiet(map[7 := OLD]), Idle([OLD]);
    var subscribed, reread, rewritten := rep.(link := Subscribed), rep.(link := Reread([OLD])), rep.(link := Rewritten);
    LeadsLocally(sh, others, rep, Subscribe(0));
    LeadsLocally(sh, others, subscribed, ReadAll(0, [OLD]));
    LeadsLocally(sh, others, reread, WriteAll(0));
    LeadsLocally(sh, others, rewritten, ClearArtifacts(0));
    assert OnReplica(sh, rewritten, ClearArtifacts(0)) == rep.(link := Live) by {
      assert (set g | g in rewritten.missed && !GroupCurrent(sh, rewritten, g)) == {};
      assert (set g | g in rewritten.clobbered && !GroupCurrent(sh, rewritten, g)) == {};
    }
    Chain(At(sh, others, rep), Subscribe(0), At(sh, others, subscribed), ReadAll(0, [OLD]),
          At(sh, others, reread), WriteAll(0), At(sh, others, rewritten), ClearArtifacts(0),
          At(sh, others, rep.(link := Live)));
    steps := [Subscribe(0), ReadAll(0, [OLD]), WriteAll(0), ClearArtifacts(0)];
  }

  lemma OldEdits()
    ensures Without([OLD], 3) == []
    ensures Refresh(Table([OLD], map[]), 3, Deleted(7)) == Table([], map[])
    ensures Refresh(Table([OLD], map[]), 3, Updated(NEW)) == Table([NEW], map[])
    ensures Write(map[7 := OLD], 3, Deleted(7)) == map[]
    ensures Write(map[7 := OLD], 3, Updated(NEW)) == map[7 := NEW]
    ensures forall t: map<RouteId, string> :: t == map[] ==> Evicted(t, [7]) == map[]
  {
    var one := [OLD];
    assert one[1..] == [];
    assert WithoutId(one, 7) == WithoutId(one[1..], 7) == [];
    assert Evicted(map[], [7]) == map[];
  }

  /** What replica 1, never subscribed itself, can do to route 7, and what is left of it. */
  predicate Outcome(change: Change, storage: map<RouteId, Route>, rs: seq<Route>) {
    || (change == Deleted(7) && storage == map[] && rs == [])
    || (change == Updated(NEW) && storage == map[7 := NEW] && rs == [NEW])
  }

  lemma CommitLeads(rep: Replica, change: Change, storage: map<RouteId, Route>, rs: seq<Route>)
    requires Outcome(change, storage, rs)
    ensures Leads(At(Quiet(map[7 := OLD]), map[1 := Idle([OLD])], rep), Commit(Call(1, 3, change)),
                  At(Quiet(storage).(committed := multiset{Call(1, 3, change)}), map[1 := Idle([OLD])], rep))
  {
    OldEdits();
  }

  lemma RefreshLeads(rep: Replica, change: Change, storage: map<RouteId, Route>, rs: seq<Route>)
    requires Outcome(change, storage, rs)
    ensures Leads(At(Quiet(storage).(committed := multiset{Call(1, 3, change)}), map[1 := Idle([OLD])], rep),
                  LocalRefresh(Call(1, 3, change)),
                  At(Quiet(storage).(outgoing := multiset{NEWS}), map[1 := Idle(rs)], rep))
  {
    OldEdits();
    var call := Call(1, 3, change);
    assert multiset{call} - multiset{call} == multiset{};
    assert map[1 := Idle([OLD])][0 := rep][1 := Idle(rs)] == map[1 := Idle(rs)][0 := rep];
  }

  lemma PublishLeads(rep: Replica, storage: map<RouteId, Route>, rs: seq<Route>)
    requires rep.link.Live? && rep.queue == []
    ensures Leads(At(Quiet(storage).(outgoing := multiset{NEWS}), map[1 := Idle(rs)], rep), Publish(NEWS),
                  At(Quiet(storage), map[1 := Idle(rs)], rep.(queue := [NEWS])))
  {
    assert multiset{NEWS} - multiset{NEWS} == multiset{};
    var told := map[1 := Idle(rs)][0 := rep];
    var heard := map r | r in told :: Heard(told[r], NEWS);
    assert [] + [NEWS] == [NEWS];
    assert heard[0] == rep.(queue := [NEWS]) && heard[1] == Idle(rs);
    assert heard == map[1 := Idle(rs)][0 := rep.(queue := [NEWS])];
  }

  lemma PopLeads(rep: Replica, storage: map<RouteId, Route>, rs: seq<Route>)
    requires rep.link.Live? && rep.queue == [] && rep.work.None? && rep.table.artifacts == map[]
    requires rep.missedIds == {} && rep.clobberedIds == {}
    ensures Leads(At(Quiet(storage), map[1 := Idle(rs)], rep.(queue := [NEWS])), Pop(0),
                  At(Quiet(storage), map[1 := Idle(rs)], rep.(work := Some(Work(NEWS, None)))))
  {
    var told := rep.(queue := [NEWS]);
    LeadsLocally(Quiet(storage), map[1 := Idle(rs)], told, Pop(0));
    OldEdits();
    assert OnReplica(Quiet(storage), told, Pop(0)) == rep.(work := Some(Work(NEWS, None)));
  }

  /** The change is made and announced; replica 0 pops the event. */
  lemma Announces(rep: Replica, change: Change, storage: map<RouteId, Route>, rs: seq<Route>) returns (steps: seq<Step>)
    requires Outcome(change, storage, rs)
    requires rep.link.Live? && rep.queue == [] && rep.work.None? && rep.table.artifacts == map[]
    requires rep.missedIds == {} && rep.clobberedIds == {}
    ensures Run(At(Quiet(map[7 := OLD]), map[1 := Idle([OLD])], rep), steps,
                At(Quiet(storage), map[1 := Idle(rs)], rep.(work := Some(Work(NEWS, None)))))
  {
    var call := Call(1, 3, change);
    var told, popped := rep.(queue := [NEWS]), rep.(work := Some(Work(NEWS, None)));
    CommitLeads(rep, change, storage, rs);
    RefreshLeads(rep, change, storage, rs);
    PublishLeads(rep, storage, rs);
    PopLeads(rep, storage, rs);
    Chain(At(Quiet(map[7 := OLD]), map[1 := Idle([OLD])], rep), Commit(call),
          At(Quiet(storage).(committed := multiset{call}), map[1 := Idle([OLD])], rep), LocalRefresh(call),
          At(Quiet(storage).(outgoing := multiset{NEWS}), map[1 := Idle(rs)], rep), Publish(NEWS),
          At(Quiet(storage), map[1 := Idle(rs)], told), Pop(0),
          At(Quiet(storage), map[1 := Idle(rs)], popped));
    steps := [Commit(call), LocalRefresh(call), Publish(NEWS), Pop(0)];
  }

  function UndoStart(): State { At(Quiet(map[7 := OLD]), map[1 := Idle([OLD])], Idle([OLD])) }

  lemma StartsIdle()
    ensures Init(UndoStart())
  {
  }

  function UndoEnd(): State {
    At(Quiet(map[]), map[1 := Idle([])], Idle([OLD]).(link := Live, clobbered := {3}))
  }

  function Held(work: Option<Work>): Replica {
    Idle([OLD]).(link := Live, fetched := multiset{(3, [OLD])}, work := work)
  }

  lemma UndoReads() returns (steps: seq<Step>)
    ensures Run(UndoStart(), steps, At(Quiet(map[7 := OLD]), map[1 := Idle([OLD])], Held(None)))
  {
    var up := Idle([OLD]).(link := Live);
    steps := Connects(map[1 := Idle([OLD])]);
    LeadsLocally(Quiet(map[7 := OLD]), map[1 := Idle([OLD])], up, ThroughRead(0, 3, [OLD]));
    assert OnReplica(Quiet(map[7 := OLD]), up, ThroughRead(0, 3, [OLD])) == Held(None);
    steps := RunOne(UndoStart(), steps, At(Quiet(map[7 := OLD]), map[1 := Idle([OLD])], up),
                    ThroughRead(0, 3, [OLD]), At(Quiet(map[7 := OLD]), map[1 := Idle([OLD])], Held(None)));
  }

  lemma UndoRuns() returns (steps: seq<Step>)
    ensures Run(UndoStart(), steps, UndoEnd())
  {
    var read := At(Quiet(map[7 := OLD]), map[1 := Idle([OLD])], Held(None));
    var popped := At(Quiet(map[]), map[1 := Idle([])], Held(Some(Work(NEWS, None))));
    var xs := UndoReads();
    var ys := Announces(Held(None), Deleted(7), map[], []);
    var zs := UndoApplies();
    RunsJoin(UndoStart(), xs, read, ys, popped);
    RunsJoin(UndoStart(), xs + ys, popped, zs, UndoEnd());
    steps := xs + ys + zs;
  }

  /** The read-through reload reads storage outside the table lock: one that read before a
      delete and writes after the delete's invalidation was applied brings the route back,
      with nothing lost on the bus and nothing left in flight. */
  lemma ReadThroughCanUndoInvalidation() returns (s: State, steps: seq<Step>, end: State)
    ensures Init(s) && Run(s, steps, end) && Quiescent(end)
    ensures 0 in end.replicas && end.replicas[0].link.Live?
    ensures end.replicas[0].missed == {} && end.replicas[0].missedIds == {}
    ensures end.shared.storage == map[] && end.replicas[0].table.routes == [OLD]
  {
    s, end := UndoStart(), UndoEnd();
    steps := UndoRuns();
    StartsIdle();
  }

  lemma RunOne(s: State, steps: seq<Step>, mid: State, step: Step, end: State) returns (more: seq<Step>)
    requires Run(s, steps, mid) && Leads(mid, step, end)
    ensures more == steps + [step] && Run(s, more, end)
  {
    assert Run(mid, [step], end) by { assert [step][1..] == []; }
    RunsJoin(s, steps, mid, [step], end);
    more := steps + [step];
  }

  lemma DeleteReads()
    ensures Leads(At(Quiet(map[]), map[1 := Idle([])], Held(Some(Work(NEWS, None)))), ReadGroup(0, []),
                  At(Quiet(map[]), map[1 := Idle([])], Held(Some(Work(NEWS, Some([]))))))
  {
    LeadsLocally(Quiet(map[]), map[1 := Idle([])], Held(Some(Work(NEWS, None))), ReadGroup(0, []));
    assert OnReplica(Quiet(map[]), Held(Some(Work(NEWS, None))), ReadGroup(0, [])) == Held(Some(Work(NEWS, Some([]))));
  }

  lemma DeleteWrites()
    ensures Leads(At(Quiet(map[]), map[1 := Idle([])], Held(Some(Work(NEWS, Some([]))))), WriteGroup(0),
                  At(Quiet(map[]), map[1 := Idle([])], Held(None).(table := Table([], map[]))))
  {
    OldEdits();
    var read := Held(Some(Work(NEWS, Some([]))));
    LeadsLocally(Quiet(map[]), map[1 := Idle([])], read, WriteGroup(0));
    assert OnReplica(Quiet(map[]), read, WriteGroup(0)) == Held(None).(table := Table([], map[]));
  }

  lemma OldReadWrites()
    ensures Leads(At(Quiet(map[]), map[1 := Idle([])], Held(None).(table := Table([], map[]))),
                  ThroughWrite(0, 3, [OLD]), UndoEnd())
  {
    var sh, applied := Quiet(map[]), Held(None).(table := Table([], map[]));
    LeadsLocally(sh, map[1 := Idle([])], applied, ThroughWrite(0, 3, [OLD]));
    assert [] + [OLD] == [OLD];
    assert Without([], 3) == [];
    assert !Current(sh.storage, [OLD], 3) by { assert OLD in [OLD]; }
    assert multiset{(3, [OLD])} - multiset{(3, [OLD])} == multiset{};
    assert OnReplica(sh, applied, ThroughWrite(0, 3, [OLD])) == Idle([OLD]).(link := Live, clobbered := {3});
  }

  /** The delete is applied, and then the old read is written back. */
  lemma UndoApplies() returns (steps: seq<Step>)
    ensures Run(At(Quiet(map[]), map[1 := Idle([])], Held(Some(Work(NEWS, None)))), steps, UndoEnd())
  {
    var sh, others := Quiet(map[]), map[1 := Idle([])];
    var start := At(sh, others, Held(Some(Work(NEWS, None))));
    var read := At(sh, others, Held(Some(Work(NEWS, Some([])))));
    var applied := At(sh, others, Held(None).(table := Table([], map[])));
    DeleteReads();
    DeleteWrites();
    OldReadWrites();
    steps := RunOne(start, [], start, ReadGroup(0, []), read);
    steps := RunOne(start, steps, read, WriteGroup(0), applied);
    steps := RunOne(start, steps, applied, ThroughWrite(0, 3, [OLD]), UndoEnd());
  }

  function StaleEnd(): State {
    At(Quiet(map[7 := NEW]), map[1 := Idle([NEW])],
       Idle([OLD]).(link := Live, table := Table([NEW], map[7 := "v1"]), clobberedIds := {7}))
  }

  lemma StaleRuns() returns (steps: seq<Step>)
    ensures Run(UndoStart(), steps, StaleEnd())
  {
    var up := Idle([OLD]).(link := Live);
    var connected := At(Quiet(map[7 := OLD]), map[1 := Idle([OLD])], up);
    var popped := At(Quiet(map[7 := NEW]), map[1 := Idle([NEW])], up.(work := Some(Work(NEWS, None))));
    var xs := Connects(map[1 := Idle([OLD])]);
    var ys := Announces(up, Updated(NEW), map[7 := NEW], [NEW]);
    var zs := StaleCompile();
    RunsJoin(UndoStart(), xs, connected, ys, popped);
    RunsJoin(UndoStart(), xs + ys, popped, zs, StaleEnd());
    steps := xs + ys + zs;
  }

  /** A delivery evicts before it reloads: a request dispatched in between compiles the old
      record back into the cache, and the new record is then served by the old artifact. */
  lemma DeliveryCanKeepStaleArtifact() returns (s: State, steps: seq<Step>, end: State)
    ensures Init(s) && Run(s, steps, end) && Quiescent(end)
    ensures 0 in end.replicas && end.replicas[0].link.Live?
    ensures end.replicas[0].missed == {} && end.replicas[0].missedIds == {}
    ensures CurrentAll(end.shared.storage, end.replicas[0].table.routes)
    ensures 7 in end.shared.storage && !ArtifactCurrent(end.shared, end.replicas[0], 7)
  {
    s, end := UndoStart(), StaleEnd();
    steps := StaleRuns();
    StartsIdle();
  }

  function Popped(): Replica { Idle([OLD]).(link := Live, work := Some(Work(NEWS, None))) }

  function Compiled(): Replica { Popped().(table := Table([OLD], map[7 := "v1"]), clobberedIds := {7}) }

  lemma OldCompiles()
    ensures
      var sh, others := Quiet(map[7 := NEW]), map[1 := Idle([NEW])];
      && Leads(At(sh, others, Popped()), TakeRecord(0, OLD), At(sh, others, Popped().(compiling := multiset{OLD})))
      && Leads(At(sh, others, Popped().(compiling := multiset{OLD})), StoreArtifact(0, OLD), At(sh, others, Compiled()))
  {
    var sh, others := Quiet(map[7 := NEW]), map[1 := Idle([NEW])];
    LeadsLocally(sh, others, Popped(), TakeRecord(0, OLD));
    var taken := Popped().(compiling := multiset{OLD});
    assert OnReplica(sh, Popped(), TakeRecord(0, OLD)) == taken;
    LeadsLocally(sh, others, taken, StoreArtifact(0, OLD));
    assert multiset{OLD} - multiset{OLD} == multiset{};
    assert OnReplica(sh, taken, StoreArtifact(0, OLD)) == Compiled();
  }

  function NewHeld(): Replica { Compiled().(work := Some(Work(NEWS, Some([NEW])))) }

  lemma NewIsRead()
    ensures Leads(At(Quiet(map[7 := NEW]), map[1 := Idle([NEW])], Compiled()), ReadGroup(0, [NEW]),
                  At(Quiet(map[7 := NEW]), map[1 := Idle([NEW])], NewHeld()))
  {
    LeadsLocally(Quiet(map[7 := NEW]), map[1 := Idle([NEW])], Compiled(), ReadGroup(0, [NEW]));
    assert OnReplica(Quiet(map[7 := NEW]), Compiled(), ReadGroup(0, [NEW])) == NewHeld();
  }

  lemma NewIsWritten()
    ensures Leads(At(Quiet(map[7 := NEW]), map[1 := Idle([NEW])], NewHeld()), WriteGroup(0), StaleEnd())
  {
    LeadsLocally(Quiet(map[7 := NEW]), map[1 := Idle([NEW])], NewHeld(), WriteGroup(0));
    OldEdits();
    assert [] + [NEW] == [NEW];
    assert OnReplica(Quiet(map[7 := NEW]), NewHeld(), WriteGroup(0))
        == Idle([OLD]).(link := Live, table := Table([NEW], map[7 := "v1"]), clobberedIds := {7});
  }

  /** Between the eviction and the reload, a request compiles the record it still sees. */
  lemma StaleCompile() returns (steps: seq<Step>)
    ensures Run(At(Quiet(map[7 := NEW]), map[1 := Idle([NEW])], Popped()), steps, StaleEnd())
  {
    var sh, others := Quiet(map[7 := NEW]), map[1 := Idle([NEW])];
    OldCompiles();
    NewIsRead();
    NewIsWritten();
    Chain(At(sh, others, Popped()), TakeRecord(0, OLD),
          At(sh, others, Popped().(compiling := multiset{OLD})), StoreArtifact(0, OLD),
          At(sh, others, Compiled()), ReadGroup(0, [NEW]),
          At(sh, others, NewHeld()), WriteGroup(0), StaleEnd());
    steps := [TakeRecord(0, OLD), StoreArtifact(0, OLD), ReadGroup(0, [NEW]), WriteGroup(0)];
  }
}
