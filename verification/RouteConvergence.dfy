/** When exactly a connected cache equals storage at quiescence, and which runs get there. */
module RouteConvergence {
  import opened Wrappers
  import opened RouteTables
  import opened RouteBus

  ghost predicate OnItsWay(sh: Shared, rep: Replica, g: GroupId) {
    GroupInFlight(sh, g) || Queued(rep.queue, g) || BeingApplied(rep, g)
  }

  ghost predicate IdOnItsWay(sh: Shared, rep: Replica, id: RouteId) {
    IdInFlight(sh, id) || QueuedId(rep.queue, id)
  }

  ghost predicate GroupMarked(rep: Replica, g: GroupId) {
    g in rep.missed || g in rep.clobbered
  }

  ghost predicate IdMarked(rep: Replica, id: RouteId) {
    id in rep.missedIds || id in rep.clobberedIds
  }

  ghost predicate GroupMarkOk(sh: Shared, rep: Replica, g: GroupId) {
    GroupMarked(rep, g) ==> !GroupCurrent(sh, rep, g) || OnItsWay(sh, rep, g)
  }

  ghost predicate IdMarkOk(sh: Shared, rep: Replica, id: RouteId) {
    IdMarked(rep, id) ==>
      id in sh.home && (id in sh.storage ==> !ArtifactCurrent(sh, rep, id) || IdOnItsWay(sh, rep, id))
  }

  /** On a connected replica, what is marked is stale, unless news of it is on its way. */
  ghost predicate MarksStale(sh: Shared, rep: Replica) {
    rep.link.Live? ==> (forall g :: GroupMarkOk(sh, rep, g)) && (forall id :: IdMarkOk(sh, rep, id))
  }

  ghost predicate Exact(s: State) {
    Inv(s) && forall r :: r in s.replicas ==> MarksStale(s.shared, s.replicas[r])
  }

  // ---- Each step keeps it -----------------------------------------------------

  /** A commit to group `g` makes no other group's read current that was not. */
  lemma StaleElsewhere(sh: Shared, call: Call, rs: seq<Route>, h: GroupId)
    requires SharedOk(sh) && MayCommit(sh, call) && h != call.group
    requires Current(Write(sh.storage, call.group, call.change), rs, h)
    ensures Current(sh.storage, rs, h)
  {
    var after := Write(sh.storage, call.group, call.change);
    forall x | x in rs ensures x.group == h && x.id in sh.storage && sh.storage[x.id] == x {
      assert x.id in after && after[x.id] == x;
    }
    forall id | id in sh.storage && sh.storage[id].group == h ensures sh.storage[id] in rs {
      assert id in after && after[id] == sh.storage[id];
    }
  }

  lemma CommitKeepsGroupMark(s: State, call: Call, rep: Replica, g: GroupId)
    requires SharedOk(s.shared) && Enabled(s, Commit(call)) && GroupMarkOk(s.shared, rep, g)
    ensures GroupMarkOk(Next(s, Commit(call)).shared, rep, g)
  {
    var sh, sh' := s.shared, Next(s, Commit(call)).shared;
    assert call in sh'.committed && forall c :: c in sh.committed ==> c in sh'.committed;
    assert GroupInFlight(sh, g) ==> GroupInFlight(sh', g);
    if g != call.group && GroupCurrent(sh', rep, g) {
      StaleElsewhere(sh, call, OfGroup(rep.table.routes, g), g);
    }
  }

  lemma CommitKeepsIdMark(s: State, call: Call, rep: Replica, id: RouteId)
    requires SharedOk(s.shared) && Enabled(s, Commit(call)) && IdMarkOk(s.shared, rep, id)
    ensures IdMarkOk(Next(s, Commit(call)).shared, rep, id)
  {
    var sh, sh' := s.shared, Next(s, Commit(call)).shared;
    assert call in sh'.committed && forall c :: c in sh.committed ==> c in sh'.committed;
    assert IdInFlight(sh, id) ==> IdInFlight(sh', id);
    if IdMarked(rep, id) && id in sh'.storage {
      assert id in sh.storage;
      assert sh'.storage[id].body == sh.storage[id].body || (call.change.Updated? && call.change.route.id == id);
    }
  }

  lemma CommitKeepsExact(s: State, call: Call)
    requires Exact(s) && Enabled(s, Commit(call))
    ensures Exact(Next(s, Commit(call)))
  {
    var s' := Next(s, Commit(call));
    StepKeepsInv(s, Commit(call));
    forall r | r in s'.replicas ensures MarksStale(s'.shared, s'.replicas[r]) {
      var rep := s.replicas[r];
      assert MarksStale(s.shared, rep);
      if rep.link.Live? {
        forall g ensures GroupMarkOk(s'.shared, rep, g) { CommitKeepsGroupMark(s, call, rep, g); }
        forall id ensures IdMarkOk(s'.shared, rep, id) { CommitKeepsIdMark(s, call, rep, id); }
      }
    }
  }

  /** Records, artifacts and marks untouched, and no news dropped. */
  lemma NewsMovedKeeps(sh: Shared, sh': Shared, rep: Replica, rep': Replica)
    requires MarksStale(sh, rep) && sh'.storage == sh.storage && sh'.home == sh.home
    requires rep' == rep.(queue := rep'.queue)
    requires rep.link.Live? ==> forall g :: OnItsWay(sh, rep, g) ==> OnItsWay(sh', rep', g)
    requires rep.link.Live? ==> forall id :: IdOnItsWay(sh, rep, id) ==> IdOnItsWay(sh', rep', id)
    ensures MarksStale(sh', rep')
  {
    if rep.link.Live? {
      forall g ensures GroupMarkOk(sh', rep', g) { assert GroupMarkOk(sh, rep, g); }
      forall id ensures IdMarkOk(sh', rep', id) { assert IdMarkOk(sh, rep, id); }
    }
  }

  lemma RefreshKeepsOriginExact(s: State, call: Call)
    requires Exact(s) && Enabled(s, LocalRefresh(call))
    ensures MarksStale(Next(s, LocalRefresh(call)).shared, Next(s, LocalRefresh(call)).replicas[call.origin])
  {
    var s' := Next(s, LocalRefresh(call));
    var sh, sh', rep, rep' := s.shared, s'.shared, s.replicas[call.origin], s'.replicas[call.origin];
    var e := Notice(rep.table, call.group, call.change);
    RefreshMovesNews(sh, call, rep.table);
    assert e in sh'.outgoing && CallOk(sh.home, call) && MarksStale(sh, rep);
    if rep.link.Live? {
      forall g ensures GroupMarkOk(sh', rep', g) {
        assert GroupMarkOk(sh, rep, g);
        if g != call.group { RefreshOtherGroup(rep.table, call.group, call.change, g); }
      }
      forall id ensures IdMarkOk(sh', rep', id) {
        assert IdMarkOk(sh, rep, id);
        assert id in e.routes ==> IdInFlight(sh', id);
      }
    }
  }

  lemma RefreshKeepsExact(s: State, call: Call)
    requires Exact(s) && Enabled(s, LocalRefresh(call))
    ensures Exact(Next(s, LocalRefresh(call)))
  {
    var s' := Next(s, LocalRefresh(call));
    StepKeepsInv(s, LocalRefresh(call));
    RefreshMovesNews(s.shared, call, s.replicas[call.origin].table);
    RefreshKeepsOriginExact(s, call);
    forall r | r in s'.replicas && r != call.origin ensures MarksStale(s'.shared, s'.replicas[r]) {
      NewsMovedKeeps(s.shared, s'.shared, s.replicas[r], s'.replicas[r]);
    }
  }

  lemma HearingKeeps(sh: Shared, e: Invalidation, rep: Replica)
    requires MarksStale(sh, rep) && e in sh.outgoing
    ensures MarksStale(sh.(outgoing := sh.outgoing - multiset{e}), Heard(rep, e))
  {
    var sh', rep' := sh.(outgoing := sh.outgoing - multiset{e}), Heard(rep, e);
    assert forall x :: x in sh.outgoing && x != e ==> x in sh'.outgoing;
    if rep.link.Live? {
      assert e in rep'.queue && forall x :: x in rep.queue ==> x in rep'.queue;
      forall g | OnItsWay(sh, rep, g) ensures OnItsWay(sh', rep', g) {
        assert GroupInFlight(sh, g) ==> GroupInFlight(sh', g) || g == e.group;
      }
      forall id | IdOnItsWay(sh, rep, id) ensures IdOnItsWay(sh', rep', id) {
        assert IdInFlight(sh, id) ==> IdInFlight(sh', id) || id in e.routes;
      }
    }
    NewsMovedKeeps(sh, sh', rep, rep');
  }

  /** A failed publish marks just what is not level. */
  lemma FailingKeeps(sh: Shared, e: Invalidation, rep: Replica)
    requires SharedOk(sh) && MarksStale(sh, rep) && e in sh.outgoing
    ensures MarksStale(sh.(outgoing := sh.outgoing - multiset{e}), NotTold(sh, rep, e))
  {
    var sh', rep' := sh.(outgoing := sh.outgoing - multiset{e}), NotTold(sh, rep, e);
    assert forall x :: x in sh.outgoing && x != e ==> x in sh'.outgoing;
    if rep.link.Live? {
      forall g ensures GroupMarkOk(sh', rep', g) {
        assert GroupMarkOk(sh, rep, g);
        assert g != e.group ==> (GroupInFlight(sh, g) ==> GroupInFlight(sh', g));
      }
      forall id ensures IdMarkOk(sh', rep', id) {
        assert IdMarkOk(sh, rep, id);
        assert id !in e.routes ==> (IdInFlight(sh, id) ==> IdInFlight(sh', id));
      }
    }
  }

  lemma PublishKeepsExact(s: State, e: Invalidation)
    requires Exact(s) && e in s.shared.outgoing
    ensures Exact(Next(s, Publish(e))) && Exact(Next(s, PublishFail(e)))
  {
    StepKeepsInv(s, Publish(e));
    StepKeepsInv(s, PublishFail(e));
    var sent, failed := Next(s, Publish(e)), Next(s, PublishFail(e));
    forall r | r in s.replicas
      ensures MarksStale(sent.shared, sent.replicas[r]) && MarksStale(failed.shared, failed.replicas[r])
    {
      HearingKeeps(s.shared, e, s.replicas[r]);
      FailingKeeps(s.shared, e, s.replicas[r]);
    }
  }

  lemma PopKeeps(sh: Shared, rep: Replica, r: ReplicaId)
    requires MarksStale(sh, rep) && rep.work.None? && rep.queue != []
    ensures MarksStale(sh, OnReplica(sh, rep, Pop(r)))
  {
    var rep' := OnReplica(sh, rep, Pop(r));
    var e := rep.queue[0];
    assert rep.queue == [e] + rep'.queue;
    if rep.link.Live? {
      forall g ensures GroupMarkOk(sh, rep', g) {
        assert GroupMarkOk(sh, rep, g);
        assert Queued(rep.queue, g) ==> Queued(rep'.queue, g) || g == e.group;
      }
      forall id ensures IdMarkOk(sh, rep', id) {
        assert IdMarkOk(sh, rep, id);
        assert id !in e.routes && QueuedId(rep.queue, id) ==> QueuedId(rep'.queue, id);
      }
    }
  }

  lemma WriteGroupKeeps(sh: Shared, rep: Replica, r: ReplicaId)
    requires RepOk(sh, rep) && MarksStale(sh, rep) && rep.work.Some? && rep.work.value.snap.Some?
    ensures MarksStale(sh, OnReplica(sh, rep, WriteGroup(r)))
  {
    var rep' := OnReplica(sh, rep, WriteGroup(r));
    if rep.link.Live? {
      forall h ensures GroupMarkOk(sh, rep', h) {
        assert GroupMarkOk(sh, rep, h);
        ReloadReplacesOneGroup(rep.table.routes, rep.work.value.event.group, rep.work.value.snap.value, h);
      }
      forall id ensures IdMarkOk(sh, rep', id) { assert IdMarkOk(sh, rep, id); }
    }
  }

  lemma ThroughWriteSets(sh: Shared, rep: Replica, r: ReplicaId, g: GroupId, snap: seq<Route>)
    requires AllIn(snap, g)
    ensures
      var rep' := OnReplica(sh, rep, ThroughWrite(r, g, snap));
      && rep'.queue == rep.queue && rep'.work == rep.work
      && (GroupCurrent(sh, rep', g) <==> Current(sh.storage, snap, g))
      && (rep.link.Live? ==> (g in rep'.clobbered ==> !GroupCurrent(sh, rep', g)))
      && (rep.link.Live? ==> (g in rep'.missed ==> BeingApplied(rep', g)))
  {
    ReloadReplacesOneGroup(rep.table.routes, g, snap, g);
  }

  lemma ThroughWriteMarksItsGroup(sh: Shared, rep: Replica, r: ReplicaId, g: GroupId, snap: seq<Route>)
    requires rep.link.Live? && AllIn(snap, g)
    ensures GroupMarkOk(sh, OnReplica(sh, rep, ThroughWrite(r, g, snap)), g)
  {
    ThroughWriteSets(sh, rep, r, g, snap);
  }

  lemma ThroughWriteKeepsOtherMark(sh: Shared, rep: Replica, r: ReplicaId, g: GroupId, snap: seq<Route>, h: GroupId)
    requires rep.link.Live? && AllIn(snap, g) && GroupMarkOk(sh, rep, h) && h != g
    ensures GroupMarkOk(sh, OnReplica(sh, rep, ThroughWrite(r, g, snap)), h)
  {
    var rep' := OnReplica(sh, rep, ThroughWrite(r, g, snap));
    ReloadReplacesOneGroup(rep.table.routes, g, snap, h);
    assert GroupMarked(rep', h) <==> GroupMarked(rep, h);
    assert GroupCurrent(sh, rep', h) <==> GroupCurrent(sh, rep, h);
    assert rep'.queue == rep.queue && rep'.work == rep.work;
  }

  lemma ThroughWriteKeeps(sh: Shared, rep: Replica, r: ReplicaId, g: GroupId, snap: seq<Route>)
    requires RepOk(sh, rep) && MarksStale(sh, rep) && (g, snap) in rep.fetched
    ensures MarksStale(sh, OnReplica(sh, rep, ThroughWrite(r, g, snap)))
  {
    var rep' := OnReplica(sh, rep, ThroughWrite(r, g, snap));
    assert AllIn((g, snap).1, (g, snap).0);
    if rep.link.Live? {
      forall h ensures GroupMarkOk(sh, rep', h) {
        assert GroupMarkOk(sh, rep, h);
        if h == g {
          ThroughWriteMarksItsGroup(sh, rep, r, g, snap);
        } else {
          ThroughWriteKeepsOtherMark(sh, rep, r, g, snap, h);
        }
      }
      forall id ensures IdMarkOk(sh, rep', id) { assert IdMarkOk(sh, rep, id); }
    }
  }

  lemma ReadKeeps(sh: Shared, rep: Replica, step: Step)
    requires MarksStale(sh, rep) && (step.ReadGroup? || step.ThroughRead? || step.TakeRecord?)
    ensures MarksStale(sh, OnReplica(sh, rep, step))
  {
    var rep' := OnReplica(sh, rep, step);
    if rep.link.Live? {
      forall g ensures GroupMarkOk(sh, rep', g) { assert GroupMarkOk(sh, rep, g); }
      forall id ensures IdMarkOk(sh, rep', id) { assert IdMarkOk(sh, rep, id); }
    }
  }

  lemma StoreArtifactKeeps(sh: Shared, rep: Replica, r: ReplicaId, route: Route)
    requires RepOk(sh, rep) && MarksStale(sh, rep) && route in rep.compiling
    ensures MarksStale(sh, OnReplica(sh, rep, StoreArtifact(r, route)))
  {
    var rep' := OnReplica(sh, rep, StoreArtifact(r, route));
    if rep.link.Live? {
      forall g ensures GroupMarkOk(sh, rep', g) { assert GroupMarkOk(sh, rep, g); }
      forall id ensures IdMarkOk(sh, rep', id) { assert IdMarkOk(sh, rep, id); }
    }
  }

  lemma SessionKeeps(sh: Shared, rep: Replica, step: Step)
    requires step.Disconnect? || step.Subscribe? || step.ReadAll? || (step.WriteAll? && rep.link.Reread?)
      || step.ClearArtifacts?
    ensures MarksStale(sh, OnReplica(sh, rep, step))
  {
    var rep' := OnReplica(sh, rep, step);
    if step.ClearArtifacts? {
      forall g ensures GroupMarkOk(sh, rep', g) {}
    }
  }

  lemma LocalStepKeepsExact(s: State, step: Step)
    requires Exact(s) && Enabled(s, step)
    requires !step.Commit? && !step.LocalRefresh? && !step.Publish? && !step.PublishFail?
    ensures Exact(Next(s, step))
  {
    StepKeepsInv(s, step);
    var sh, rep := s.shared, s.replicas[step.r];
    assert MarksStale(sh, OnReplica(sh, rep, step)) by {
      assert MarksStale(sh, rep);
      match step
      case Pop(r) => PopKeeps(sh, rep, r);
      case ReadGroup(_, _) => ReadKeeps(sh, rep, step);
      case ThroughRead(_, _, _) => ReadKeeps(sh, rep, step);
      case TakeRecord(_, _) => ReadKeeps(sh, rep, step);
      case WriteGroup(r) => WriteGroupKeeps(sh, rep, r);
      case ThroughWrite(r, g, snap) => ThroughWriteKeeps(sh, rep, r, g, snap);
      case StoreArtifact(r, route) => StoreArtifactKeeps(sh, rep, r, route);
      case _ => SessionKeeps(sh, rep, step);
    }
    assert Next(s, step) == s.(replicas := s.replicas[step.r := OnReplica(sh, rep, step)]);
  }

  lemma StepKeepsExact(s: State, step: Step)
    requires Exact(s) && Enabled(s, step)
    ensures Exact(Next(s, step))
  {
    match step
    case Commit(call) => CommitKeepsExact(s, call);
    case LocalRefresh(call) => RefreshKeepsExact(s, call);
    case Publish(e) => PublishKeepsExact(s, e);
    case PublishFail(e) => PublishKeepsExact(s, e);
    case _ => LocalStepKeepsExact(s, step);
  }

  lemma {:induction false} RunKeepsExact(s: State, steps: seq<Step>, end: State)
    requires Exact(s) && Run(s, steps, end)
    ensures Exact(end)
    decreases |steps|
  {
    if steps != [] {
      StepKeepsExact(s, steps[0]);
      RunKeepsExact(Next(s, steps[0]), steps[1..], end);
    }
  }

  // ---- The exact condition --------------------------------------------------------

  lemma SettledGroup(sh: Shared, rep: Replica, g: GroupId)
    requires RecordsOk(sh, rep) && MarksStale(sh, rep) && rep.link.Live? && !OnItsWay(sh, rep, g)
    ensures GroupCurrent(sh, rep, g) <==> !GroupMarked(rep, g)
  {
    assert GroupMarkOk(sh, rep, g);
    assert GroupCurrent(sh, rep, g) || Coming(sh, rep, g) || g in rep.clobbered || BeingApplied(rep, g);
  }

  lemma SettledId(sh: Shared, rep: Replica, id: RouteId)
    requires ArtifactsOk(sh, rep) && MarksStale(sh, rep) && rep.link.Live? && !IdOnItsWay(sh, rep, id)
      && id in sh.storage
    ensures ArtifactCurrent(sh, rep, id) <==> !IdMarked(rep, id)
  {
    assert IdMarkOk(sh, rep, id);
    assert ArtifactCurrent(sh, rep, id) || IdComing(sh, rep, id) || id in rep.clobberedIds;
  }

  /** In every run, a connected replica with no news of a group on its way holds exactly that group
      of storage if and only if neither a failed publish nor a superseded write left it behind; and
      likewise serves a stored route from its stored record if and only if neither left its artifact
      behind. */
  lemma StaleExactly(s: State, steps: seq<Step>, end: State, r: ReplicaId, g: GroupId, id: RouteId)
    requires Init(s) && Run(s, steps, end)
    requires r in end.replicas && end.replicas[r].link.Live?
    ensures !OnItsWay(end.shared, end.replicas[r], g) ==>
      (GroupCurrent(end.shared, end.replicas[r], g) <==> !GroupMarked(end.replicas[r], g))
    ensures !IdOnItsWay(end.shared, end.replicas[r], id) && id in end.shared.storage ==>
      (ArtifactCurrent(end.shared, end.replicas[r], id) <==> !IdMarked(end.replicas[r], id))
  {
    RunKeepsExact(s, steps, end);
    var sh, rep := end.shared, end.replicas[r];
    assert RepOk(sh, rep) && MarksStale(sh, rep);
    if !OnItsWay(sh, rep, g) { SettledGroup(sh, rep, g); }
    if !IdOnItsWay(sh, rep, id) && id in sh.storage { SettledId(sh, rep, id); }
  }

  lemma AtRest(s: State, r: ReplicaId, g: GroupId, id: RouteId)
    requires Quiescent(s) && r in s.replicas
    ensures !OnItsWay(s.shared, s.replicas[r], g) && !IdOnItsWay(s.shared, s.replicas[r], id)
  {
  }

  lemma QuiescentGroup(s: State, steps: seq<Step>, end: State, r: ReplicaId, g: GroupId)
    requires Init(s) && Run(s, steps, end) && Quiescent(end)
    requires r in end.replicas && end.replicas[r].link.Live?
    ensures GroupCurrent(end.shared, end.replicas[r], g) <==> !GroupMarked(end.replicas[r], g)
  {
    AtRest(end, r, g, 0);
    StaleExactly(s, steps, end, r, g, 0);
  }

  lemma QuiescentId(s: State, steps: seq<Step>, end: State, r: ReplicaId, id: RouteId)
    requires Init(s) && Run(s, steps, end) && Quiescent(end)
    requires r in end.replicas && end.replicas[r].link.Live? && id in end.shared.storage
    ensures ArtifactCurrent(end.shared, end.replicas[r], id) <==> !IdMarked(end.replicas[r], id)
  {
    AtRest(end, r, 0, id);
    StaleExactly(s, steps, end, r, 0, id);
  }

  /** So at quiescence a connected cache equals storage if and only if nothing is marked: each
      record once, and each artifact compiled from the stored record. */
  lemma QuiescentEqualsStorageIff(s: State, steps: seq<Step>, end: State, r: ReplicaId)
    requires Init(s) && Run(s, steps, end) && Quiescent(end)
    requires r in end.replicas && end.replicas[r].link.Live?
    ensures CurrentAll(end.shared.storage, end.replicas[r].table.routes) <==>
      end.replicas[r].missed == {} && end.replicas[r].clobbered == {}
    ensures (forall id :: ArtifactCurrent(end.shared, end.replicas[r], id)) <==>
      end.replicas[r].missedIds + end.replicas[r].clobberedIds !! end.shared.storage.Keys
  {
    var sh, rep := end.shared, end.replicas[r];
    assert SharedOk(sh) by { RunKeepsInv(s, steps, end); }
    forall g ensures GroupCurrent(sh, rep, g) <==> !GroupMarked(rep, g) { QuiescentGroup(s, steps, end, r, g); }
    forall id | id in sh.storage ensures ArtifactCurrent(sh, rep, id) <==> !IdMarked(rep, id) {
      QuiescentId(s, steps, end, r, id);
    }
    AllGroupsCurrent(sh, rep);
    AllIdsCurrent(sh, rep);
  }

  lemma AllGroupsCurrent(sh: Shared, rep: Replica)
    requires SharedOk(sh) && forall g :: GroupCurrent(sh, rep, g) <==> !GroupMarked(rep, g)
    ensures CurrentAll(sh.storage, rep.table.routes) <==> rep.missed == {} && rep.clobbered == {}
  {
    if CurrentAll(sh.storage, rep.table.routes) {
      forall g: GroupId ensures g !in rep.missed && g !in rep.clobbered {
        CurrentAllSplits(sh.storage, rep.table.routes, g);
        assert GroupCurrent(sh, rep, g) && !GroupMarked(rep, g);
      }
    }
    if rep.missed == {} && rep.clobbered == {} {
      forall g ensures Current(sh.storage, OfGroup(rep.table.routes, g), g) {
        assert !GroupMarked(rep, g) && GroupCurrent(sh, rep, g);
      }
      CurrentGroupsMakeCurrent(sh, rep.table.routes);
    }
  }

  lemma AllIdsCurrent(sh: Shared, rep: Replica)
    requires forall id :: id in sh.storage ==> (ArtifactCurrent(sh, rep, id) <==> !IdMarked(rep, id))
    ensures (forall id :: ArtifactCurrent(sh, rep, id)) <==> rep.missedIds + rep.clobberedIds !! sh.storage.Keys
  {
    var marks := rep.missedIds + rep.clobberedIds;
    if marks !! sh.storage.Keys {
      forall id ensures ArtifactCurrent(sh, rep, id) {
        assert id in sh.storage ==> id in sh.storage.Keys && id !in marks;
        assert IdMarked(rep, id) <==> id in marks;
      }
    }
    forall id: RouteId | id in marks && id in sh.storage.Keys ensures !ArtifactCurrent(sh, rep, id) {
      assert IdMarked(rep, id);
    }
  }

  // ---- Runs that converge ------------------------------------------------------------

  /** No publish fails, and request threads write only what is still what storage holds. */
  ghost predicate CleanStep(s: State, step: Step) {
    && !step.PublishFail?
    && (step.ThroughWrite? ==> Current(s.shared.storage, step.snap, step.g))
    && (step.StoreArtifact? && step.route.id in s.shared.storage ==>
        s.shared.storage[step.route.id].body == step.route.body)
  }

  ghost predicate CleanRun(s: State, steps: seq<Step>, end: State)
    decreases |steps|
  {
    if steps == [] then s == end
    else Enabled(s, steps[0]) && CleanStep(s, steps[0]) && CleanRun(Next(s, steps[0]), steps[1..], end)
  }

  /** Since the resync nothing was missed and nothing clobbered. */
  ghost predicate Clean(rep: Replica) {
    && (rep.link.Reread? || rep.link.Rewritten? || rep.link.Live? ==> rep.missed == {})
    && (rep.link.Rewritten? || rep.link.Live? ==> rep.clobbered == {})
    && (rep.link.Live? ==> rep.missedIds == {} && rep.clobberedIds == {})
  }

  lemma LocalStepKeepsClean(s: State, step: Step)
    requires Enabled(s, step) && CleanStep(s, step)
    requires !step.Commit? && !step.LocalRefresh? && !step.Publish? && !step.PublishFail?
    requires Clean(s.replicas[step.r])
    ensures Clean(OnReplica(s.shared, s.replicas[step.r], step))
  {
  }

  lemma CleanStepKeepsClean(s: State, step: Step)
    requires Enabled(s, step) && CleanStep(s, step) && forall r :: r in s.replicas ==> Clean(s.replicas[r])
    ensures forall r :: r in Next(s, step).replicas ==> Clean(Next(s, step).replicas[r])
  {
    if !step.Commit? && !step.LocalRefresh? && !step.Publish? {
      LocalStepKeepsClean(s, step);
      assert Next(s, step) == s.(replicas := s.replicas[step.r := OnReplica(s.shared, s.replicas[step.r], step)]);
    }
  }

  lemma {:induction false} CleanRunIsRun(s: State, steps: seq<Step>, end: State)
    requires CleanRun(s, steps, end) && forall r :: r in s.replicas ==> Clean(s.replicas[r])
    ensures Run(s, steps, end) && forall r :: r in end.replicas ==> Clean(end.replicas[r])
    decreases |steps|
  {
    if steps != [] {
      CleanStepKeepsClean(s, steps[0]);
      CleanRunIsRun(Next(s, steps[0]), steps[1..], end);
    }
  }

  /** In every run in which no publish fails and no request thread writes a superseded read or
      artifact, every connected cache equals storage at quiescence. */
  lemma CleanRunsConverge(s: State, steps: seq<Step>, end: State, r: ReplicaId)
    requires Init(s) && CleanRun(s, steps, end) && Quiescent(end)
    requires r in end.replicas && end.replicas[r].link.Live?
    ensures CurrentAll(end.shared.storage, end.replicas[r].table.routes)
    ensures forall id :: ArtifactCurrent(end.shared, end.replicas[r], id)
  {
    assert forall q :: q in s.replicas ==> Clean(s.replicas[q]);
    CleanRunIsRun(s, steps, end);
    assert Clean(end.replicas[r]);
    QuiescentEqualsStorageIff(s, steps, end, r);
  }
}
