/** One sweep pass over the registry: which groups are gone, and what cascading them removes. */
module SweepPass {
  import opened Wrappers

  type GroupId = int
  type RouteId = int

  /** A group hash that decodes, or one left with stray fields and no id. */
  datatype GroupHash = Whole | Partial

  datatype RegistryError = NotFound | Malformed

  datatype SweepStats = SweepStats(groupsSwept: nat, routesReaped: nat)

  /** `groupOf` are the readable route records; `kv` the routes with private state, `gkv` the
      groups with shared state, journal or counters; `byName` the name index, which a group
      reference falls back to. */
  datatype Store = Store(
    groups: map<GroupId, GroupHash>,
    byName: map<GroupId, GroupId>,
    groupOf: map<RouteId, GroupId>,
    listed: set<RouteId>,
    inGroup: map<GroupId, set<RouteId>>,
    kv: set<(GroupId, RouteId)>,
    gkv: set<GroupId>)

  function RoutesIn(s: Store, g: GroupId): set<RouteId> {
    if g in s.inGroup then s.inGroup[g] else {}
  }

  function ReadGroup(s: Store, g: GroupId): Result<(), RegistryError> {
    if g !in s.groups then Err(NotFound) else if s.groups[g].Partial? then Err(Malformed) else Ok(())
  }

  /** An id with a record, or else a name. */
  function ReadGroupByRef(s: Store, g: GroupId): Result<(), RegistryError> {
    if g in s.groups && s.groups[g].Whole? then ReadGroup(s, g)
    else if g in s.byName then ReadGroup(s, s.byName[g])
    else Err(NotFound)
  }

  /** Everything of these groups' children removed. */
  function Swept(s: Store, gs: set<GroupId>): Store {
    Store(s.groups, s.byName,
          (map r | r in s.groupOf && s.groupOf[r] !in gs :: s.groupOf[r]),
          (set r | r in s.listed && (r in s.groupOf ==> s.groupOf[r] !in gs)),
          (map g | g in s.inGroup && g !in gs :: s.inGroup[g]),
          (set p | p in s.kv && (p.0 !in gs || p.1 !in RoutesIn(s, p.0))),
          s.gkv - gs)
  }

  /** The listing, the records and the per-group sets agree. */
  ghost predicate Agrees(s: Store) {
    && (forall r :: r in s.groupOf <==> r in s.listed)
    && (forall r :: r in s.groupOf ==> r in RoutesIn(s, s.groupOf[r]))
    && (forall g, r :: r in RoutesIn(s, g) ==> r in s.groupOf && s.groupOf[r] == g)
  }

  ghost predicate HasRoutes(s: Store, g: GroupId) {
    exists r :: r in s.groupOf && s.groupOf[r] == g
  }

  /** A group with routes that no longer resolves. */
  ghost predicate Gone(s: Store, g: GroupId) {
    HasRoutes(s, g) && ReadGroupByRef(s, g).Err?
  }

  ghost function GoneGroups(s: Store): set<GroupId> {
    set r | r in s.groupOf && Gone(s, s.groupOf[r]) :: s.groupOf[r]
  }

  /** The routes of these groups. */
  function RoutesOf(s: Store, gs: set<GroupId>): set<RouteId> {
    set r | r in s.groupOf && s.groupOf[r] in gs
  }

  lemma SweptAgrees(s: Store, gs: set<GroupId>)
    requires Agrees(s)
    ensures Agrees(Swept(s, gs)) && forall g :: g !in gs ==> RoutesIn(Swept(s, gs), g) == RoutesIn(s, g)
  {
    assert forall g :: g !in gs ==> RoutesIn(Swept(s, gs), g) == RoutesIn(s, g);
  }

  lemma SweepOneMore(s: Store, gs: set<GroupId>, g: GroupId)
    requires Agrees(s) && g !in gs
    ensures Swept(Swept(s, gs), {g}) == Swept(s, gs + {g})
  {
    SweptAgrees(s, gs);
    var twice, both := Swept(Swept(s, gs), {g}), Swept(s, gs + {g});
    forall r ensures r in twice.groupOf <==> r in both.groupOf {}
    assert twice.groupOf == both.groupOf;
    forall r ensures r in twice.listed <==> r in both.listed {}
    forall h ensures h in twice.inGroup <==> h in both.inGroup {}
    assert twice.inGroup == both.inGroup;
    forall p ensures p in twice.kv <==> p in both.kv {}
    forall h ensures h in twice.gkv <==> h in both.gkv {}
    assert twice.listed == both.listed && twice.kv == both.kv && twice.gkv == both.gkv;
  }

  lemma CountOneMore(s: Store, gs: set<GroupId>, g: GroupId)
    requires Agrees(s) && g !in gs
    ensures |RoutesOf(s, gs + {g})| == |RoutesOf(s, gs)| + |RoutesIn(s, g)|
  {
    var all, before, now := RoutesOf(s, gs + {g}), RoutesOf(s, gs), RoutesIn(s, g);
    forall r: RouteId ensures r in all <==> r in before || r in now {}
    assert all == before + now;
    forall r: RouteId ensures !(r in before && r in now) {}
    assert before !! now;
  }

  lemma GoneAreSeen(s: Store, seen: set<GroupId>)
    requires Agrees(s) && forall x :: x in s.listed ==> s.groupOf[x] in seen
    ensures forall g :: Gone(s, g) ==> g in seen
  {
    forall g | Gone(s, g) ensures g in seen {
      var x :| x in s.groupOf && s.groupOf[x] == g;
      assert x in s.listed;
    }
  }

  lemma InGoneGroups(s: Store, g: GroupId)
    ensures g in GoneGroups(s) <==> Gone(s, g)
  {
    if Gone(s, g) {
      var x :| x in s.groupOf && s.groupOf[x] == g;
    }
  }

  lemma GoneGroupsAre(s: Store, gs: set<GroupId>)
    requires forall g :: g in gs <==> Gone(s, g)
    ensures gs == GoneGroups(s)
  {
    forall g: GroupId ensures g in gs <==> g in GoneGroups(s) { InGoneGroups(s, g); }
  }

  lemma SomeGone(s: Store, gs: set<GroupId>, g: GroupId)
    requires Gone(s, g) && g !in gs && forall h :: h in gs ==> Gone(s, h)
    ensures gs < GoneGroups(s)
  {
    forall h | h in gs + {g} ensures h in GoneGroups(s) { InGoneGroups(s, h); }
  }

  lemma SweepNothing(s: Store)
    ensures Swept(s, {}) == s && RoutesOf(s, {}) == {}
  {
    assert Swept(s, {}).groupOf == s.groupOf && Swept(s, {}).listed == s.listed;
    assert Swept(s, {}).inGroup == s.inGroup && Swept(s, {}).kv == s.kv;
  }

  ghost predicate IsWhole(s: Store, g: GroupId) {
    g in s.groups && s.groups[g] == Whole
  }

  /** Neither as an id nor as a name does it lead to a whole record. */
  ghost predicate Unresolved(s: Store, g: GroupId) {
    !IsWhole(s, g) && !(g in s.byName && IsWhole(s, s.byName[g]))
  }

  /** A pass takes exactly the routes of the groups that resolve neither by id nor by name, with their
      private state, their listing and their groups' state, and leaves the others whole. */
  lemma PassTakesExactlyTheOrphans(s: Store, r: RouteId, g: GroupId)
    requires Agrees(s)
    ensures Gone(s, g) <==> HasRoutes(s, g) && Unresolved(s, g)
    ensures
      var s' := Swept(s, GoneGroups(s));
      && (r in s'.groupOf <==> r in s.groupOf && !Gone(s, s.groupOf[r])) && (r in s'.listed <==> r in s'.groupOf)
      && (r in s'.groupOf ==> s'.groupOf[r] == s.groupOf[r])
      && ((g, r) in s'.kv <==> (g, r) in s.kv && !(Gone(s, g) && r in RoutesIn(s, g)))
      && RoutesIn(s', g) == (if Gone(s, g) then {} else RoutesIn(s, g))
      && (g in s'.gkv <==> g in s.gkv && !Gone(s, g))
      && s'.groups == s.groups && s'.byName == s.byName
  {
    InGoneGroups(s, g);
    if r in s.groupOf { InGoneGroups(s, s.groupOf[r]); }
  }

  /** After a pass no group is gone, so an immediate second pass removes nothing and counts nothing. */
  lemma SecondPassIsNoOp(s: Store)
    requires Agrees(s)
    ensures
      var s' := Swept(s, GoneGroups(s));
      GoneGroups(s') == {} && Swept(s', GoneGroups(s')) == s' && RoutesOf(s', GoneGroups(s')) == {}
  {
    var s' := Swept(s, GoneGroups(s));
    forall g: GroupId ensures !Gone(s', g) {
      if x :| x in s'.groupOf && s'.groupOf[x] == g {
        InGoneGroups(s, g);
        assert HasRoutes(s, g);
      }
    }
    GoneGroupsAre(s', {});
    SweepNothing(s');
  }

  /** A dispatch stamps its activity on the group's hash, whether or not the hash is still there. */
  function Hit(s: Store, g: GroupId): Store {
    if g in s.groups then s else s.(groups := s.groups[g := Partial])
  }

  /** A stamp neither revives a group nor takes one away. */
  lemma HitMovesNoGroup(s: Store, hit: GroupId, g: GroupId)
    ensures Gone(Hit(s, hit), g) <==> Gone(s, g)
    ensures Hit(s, hit).groups.Keys == s.groups.Keys + {hit}
    ensures forall h :: h in s.groups ==> Hit(s, hit).groups[h] == s.groups[h]
  {
    assert HasRoutes(Hit(s, hit), g) <==> HasRoutes(s, g);
  }

  /** A group that is gone but whose hash has come back as stray fields: the case in which a
      pass fails. */
  ghost predicate Blocked(s: Store, g: GroupId) {
    Gone(s, g) && g in s.groups
  }

  /** What one pass can do: with no gone group blocked it succeeds and sweeps them all, otherwise it
      fails after some of the others, in whatever order the listing yields the routes. */
  ghost predicate Pass(s: Store, s': Store, ok: bool) {
    if forall g :: !Blocked(s, g) then ok && s' == Swept(s, GoneGroups(s))
    else !ok && exists gs :: PassedOver(s, s', gs)
  }

  ghost predicate PassedOver(s: Store, s': Store, gs: set<GroupId>) {
    gs < GoneGroups(s) && gs !! s.groups.Keys && s' == Swept(s, gs)
  }

  /** Passes with their outcomes, and dispatches in between. */
  datatype Event = PassTo(ok: bool, next: Store) | Dispatch(g: GroupId)

  ghost predicate Sweeps(s: Store, events: seq<Event>, end: Store)
    decreases |events|
  {
    if events == [] then s == end
    else
      match events[0]
      case PassTo(ok, next) => Pass(s, next, ok) && Sweeps(next, events[1..], end)
      case Dispatch(g) => Sweeps(Hit(s, g), events[1..], end)
  }

  /** One dispatch to a cached route after its group expired blocks the group. */
  lemma LateHitBlocks(s: Store, g: GroupId)
    requires Gone(s, g)
    ensures Blocked(Hit(s, g), g)
  {
    var x :| x in s.groupOf && s.groupOf[x] == g;
    assert HasRoutes(Hit(s, g), g);
  }

  lemma BlockedStays(s: Store, g: GroupId, event: Event)
    requires Agrees(s) && Blocked(s, g)
    requires event.PassTo? ==> Pass(s, event.next, event.ok)
    ensures
      var next := if event.PassTo? then event.next else Hit(s, event.g);
      && Agrees(next) && Blocked(next, g) && RoutesIn(next, g) == RoutesIn(s, g)
      && (event.PassTo? ==> !event.ok)
  {
    var x :| x in s.groupOf && s.groupOf[x] == g;
    if event.PassTo? {
      var gs :| PassedOver(s, event.next, gs);
      SweptAgrees(s, gs);
      assert g in s.groups.Keys && g !in gs;
      assert x in event.next.groupOf && HasRoutes(event.next, g);
    } else {
      assert HasRoutes(Hit(s, event.g), g);
      assert forall h :: RoutesIn(Hit(s, event.g), h) == RoutesIn(s, h);
    }
  }

  /** From then on every pass fails, however many there are and whatever else is dispatched, and none
      of the group's routes ever goes. */
  lemma {:induction false} BlockedFailsEveryPass(s: Store, events: seq<Event>, end: Store, g: GroupId, i: nat)
    requires Agrees(s) && Blocked(s, g) && Sweeps(s, events, end)
    ensures Blocked(end, g) && RoutesIn(end, g) == RoutesIn(s, g)
    ensures i < |events| && events[i].PassTo? ==> !events[i].ok
    decreases |events|
  {
    if events != [] {
      BlockedStays(s, g, events[0]);
      var next := if events[0].PassTo? then events[0].next else Hit(s, events[0].g);
      BlockedFailsEveryPass(next, events[1..], end, g, if i == 0 then 0 else i - 1);
    }
  }

  /** Deleting the stray hash ends it: if it was the only one, the next pass succeeds and takes the
      group's routes. */
  lemma ClearingHashUnblocks(s: Store, g: GroupId, next: Store, ok: bool)
    requires Agrees(s) && Blocked(s, g) && forall h :: Blocked(s, h) ==> h == g
    requires Pass(s.(groups := s.groups - {g}), next, ok)
    ensures ok && RoutesIn(next, g) == {}
  {
    var c := s.(groups := s.groups - {g});
    forall h ensures !Blocked(c, h) {
      if Gone(c, h) && h in c.groups {
        var x :| x in c.groupOf && c.groupOf[x] == h;
        assert HasRoutes(s, h) && Blocked(s, h);
      }
    }
    var x :| x in s.groupOf && s.groupOf[x] == g;
    assert HasRoutes(c, g) && Gone(c, g);
    assert Agrees(c) by { assert forall h :: RoutesIn(c, h) == RoutesIn(s, h); }
    InGoneGroups(c, g);
  }

  lemma CascadedIsSwept(s: Store, s': Store, g: GroupId)
    requires Agrees(s) && s'.groups == s.groups && s'.byName == s.byName
    requires s'.groupOf == map r | r in s.groupOf && r !in RoutesIn(s, g) :: s.groupOf[r]
    requires s'.listed == s.listed - RoutesIn(s, g) && s'.inGroup == s.inGroup - {g} && s'.gkv == s.gkv - {g}
    requires s'.kv == set p | p in s.kv && (p.0 != g || p.1 !in RoutesIn(s, g))
    ensures s' == Swept(s, {g})
  {
    var t := Swept(s, {g});
    forall r: RouteId ensures r in s'.groupOf <==> r in t.groupOf {
      assert r in s.groupOf ==> (s.groupOf[r] == g <==> r in RoutesIn(s, g));
    }
    assert s'.groupOf == t.groupOf;
    forall h: GroupId ensures h in s'.inGroup <==> h in t.inGroup {}
    assert s'.inGroup == t.inGroup;
    forall h: GroupId ensures h in s'.gkv <==> h in t.gkv {}
    forall r: RouteId ensures r in s'.listed <==> r in t.listed {}
    forall p: (GroupId, RouteId) ensures p in s'.kv <==> p in t.kv {}
    assert s'.listed == t.listed;
    assert s'.kv == t.kv;
    assert s'.gkv == t.gkv;
  }

  class Sweeper {
    var groups: map<GroupId, GroupHash>
    var byName: map<GroupId, GroupId>
    var groupOf: map<RouteId, GroupId>
    var listed: set<RouteId>
    var inGroup: map<GroupId, set<RouteId>>
    var kv: set<(GroupId, RouteId)>
    var gkv: set<GroupId>

    ghost function State(): Store
      reads this
    {
      Store(groups, byName, groupOf, listed, inGroup, kv, gkv)
    }

    function Read(g: GroupId): (r: Result<(), RegistryError>)
      reads this
      ensures r == ReadGroup(State(), g)
    {
      if g !in groups then Err(NotFound) else if groups[g] == Whole then Ok(()) else Err(Malformed)
    }

    function ReadByRef(g: GroupId): (r: Result<(), RegistryError>)
      reads this
      ensures r == ReadGroupByRef(State(), g)
    {
      if g in groups && groups[g].Whole? then Read(g)
      else if g in byName then Read(byName[g])
      else Err(NotFound)
    }

    /** Scrub the children of a group that does not resolve. A hash left with stray fields stops it. */
    method CascadeDeleteGroup(g: GroupId) returns (r: Result<nat, RegistryError>)
      requires Agrees(State()) && ReadGroupByRef(State(), g).Err?
      modifies this`groupOf, this`listed, this`inGroup, this`kv, this`gkv
      ensures r == if ReadGroup(State(), g) == Err(Malformed) then Err(Malformed) else Ok(|RoutesIn(old(State()), g)|)
      ensures State() == if r.Ok? then Swept(old(State()), {g}) else old(State())
    {
      if Read(g) == Err(Malformed) {
        return Err(Malformed);
      }
      ghost var s := State();
      var ids := if g in inGroup then inGroup[g] else {};
      var todo := ids;
      while todo != {}
        invariant todo <= ids && groups == s.groups && byName == s.byName && inGroup == s.inGroup && gkv == s.gkv
        invariant groupOf == map r | r in s.groupOf && r !in ids - todo :: s.groupOf[r]
        invariant listed == s.listed - (ids - todo)
        invariant kv == set p | p in s.kv && (p.0 != g || p.1 !in ids - todo)
        decreases todo
      {
        EmptyOrHasMember(todo);
        var route :| route in todo;
        kv := set p | p in kv && p != (g, route);
        groupOf := groupOf - {route};
        listed := listed - {route};
        todo := todo - {route};
      }
      inGroup := inGroup - {g};
      gkv := gkv - {g};
      r := Ok(|ids|);
      CascadedIsSwept(s, State(), g);
    }

    /** Cascade one more gone group, after those already swept. */
    method CascadeNext(ghost s: Store, ghost gone: set<GroupId>, g: GroupId) returns (r: Result<nat, RegistryError>)
      requires Agrees(s) && State() == Swept(s, gone) && gone !! s.groups.Keys
      requires Gone(s, g) && g !in gone && forall h :: h in gone ==> Gone(s, h)
      modifies this`groupOf, this`listed, this`inGroup, this`kv, this`gkv
      ensures r.Err? <==> g in s.groups
      ensures r.Ok? ==>
        && State() == Swept(s, gone + {g}) && Agrees(State())
        && r.value + |RoutesOf(s, gone)| == |RoutesOf(s, gone + {g})|
      ensures r.Err? ==> State() == Swept(s, gone) && gone < GoneGroups(s)
    {
      SweptAgrees(s, gone);
      SweepOneMore(s, gone, g);
      CountOneMore(s, gone, g);
      SomeGone(s, gone, g);
      SweptAgrees(s, gone + {g});
      r := CascadeDeleteGroup(g);
    }

    /** Probe each route's group once, in whatever order the listing yields the routes. */
    method SinglePass() returns (r: Result<SweepStats, RegistryError>)
      requires Agrees(State())
      modifies this`groupOf, this`listed, this`inGroup, this`kv, this`gkv
      ensures r.Ok? <==> forall g :: !Blocked(old(State()), g)
      ensures Pass(old(State()), State(), r.Ok?)
      ensures r.Ok? ==>
        && State() == Swept(old(State()), GoneGroups(old(State())))
        && r.value.groupsSwept == |GoneGroups(old(State()))|
        && r.value.routesReaped == |RoutesOf(old(State()), GoneGroups(old(State())))|
    {
      ghost var s := State();
      var todo := listed;
      var route := groupOf;
      var seen: set<GroupId> := {};
      ghost var gone: set<GroupId> := {};
      var swept, reaped := 0, 0;
      SweepNothing(s);
      while todo != {}
        invariant todo <= s.listed && route == s.groupOf
        invariant forall x :: x in s.listed - todo ==> s.groupOf[x] in seen
        invariant forall g :: g in gone <==> g in seen && Gone(s, g)
        invariant gone !! s.groups.Keys && State() == Swept(s, gone) && Agrees(State())
        invariant swept == |gone| && reaped == |RoutesOf(s, gone)|
        decreases todo
      {
        EmptyOrHasMember(todo);
        var x :| x in todo;
        todo := todo - {x};
        var g := route[x];
        if g !in seen {
          seen := seen + {g};
          assert HasRoutes(s, g) && (Gone(s, g) <==> ReadGroupByRef(s, g).Err?);
          if ReadByRef(g).Err? {
            var n := CascadeNext(s, gone, g);
            if n.Err? {
              assert Blocked(s, g) && PassedOver(s, State(), gone);
              return Err(n.error);
            }
            gone := gone + {g};
            swept, reaped := swept + 1, reaped + n.value;
          }
        }
      }
      GoneAreSeen(s, seen);
      GoneGroupsAre(s, gone);
      assert forall g :: Blocked(s, g) ==> g in gone && g in s.groups.Keys;
      r := Ok(SweepStats(swept, reaped));
    }
  }
}
