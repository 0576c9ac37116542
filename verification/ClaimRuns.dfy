/** Runs in which an adopting bootstrap breaks the promises, and so exactly when they hold. */
module ClaimRuns {
  import opened Wrappers
  import opened AccountClaim
  import opened ClaimUniqueness
  import opened ClaimAdoption
  import opened ClaimConvergence

  // ---- Building runs ------------------------------------------------------------------

  lemma {:induction false} RunsJoin(s: State, a: seq<(ProcId, UserId)>, t: State, b: seq<(ProcId, UserId)>, end: State)
    requires Run(s, a, t) && Run(t, b, end)
    ensures Run(s, a + b, end)
    decreases |a|
  {
    if a == [] {
      assert a + b == b;
    } else {
      RunsJoin(Next(s, a[0].0, a[0].1), a[1..], t, b, end);
      assert (a + b)[1..] == a[1..] + b;
    }
  }

  lemma LeadsTrans(s: State, t: State, end: State)
    requires Leads(s, t) && Leads(t, end)
    ensures Leads(s, end)
  {
    var a :| Run(s, a, t);
    var b :| Run(t, b, end);
    RunsJoin(s, a, t, b, end);
  }

  /** `s` with call `p` at `pc` and the given store. */
  function At(s: State, p: ProcId, store: Store, pc: Pc): State
    requires p in s.procs
  {
    State(store, s.procs[p := s.procs[p].(pc := pc)])
  }

  lemma Start(s: State)
    ensures Leads(s, s)
  {
    assert Run(s, [], s);
  }

  /** One more operation of the call. */
  lemma Step(s: State, p: ProcId, store: Store, pc: Pc, pick: UserId)
    requires p in s.procs && Leads(s, At(s, p, store, pc)) && !pc.Done? && Picks(pc, pick)
    ensures
      var (store', pc') := Act(store, s.procs[p].(pc := pc), pick);
      Leads(s, At(s, p, store', pc'))
  {
    var t := At(s, p, store, pc);
    LeadsOn(s, t, p, pick);
    var (store', pc') := Act(store, s.procs[p].(pc := pc), pick);
    assert Next(t, p, pick).procs == At(s, p, store', pc').procs;
  }

  lemma Here(s: State, p: ProcId)
    requires p in s.procs
    ensures Leads(s, At(s, p, s.store, s.procs[p].pc))
  {
    Start(s);
    assert At(s, p, s.store, s.procs[p].pc) == s by {
      assert At(s, p, s.store, s.procs[p].pc).procs == s.procs;
    }
  }

  ghost predicate Unknown(s: Store, e: string) {
    && e !in s.byEmail
    && (forall id :: id in s.listed ==> ReadUser(s, id).Good? && !IsUser(s, id, e))
  }

  lemma {:induction false} ScanMisses(s: State, p: ProcId, round: nat, todo: set<UserId>)
    requires p in s.procs && Unknown(s.store, s.procs[p].email) && todo <= s.store.listed
    requires Leads(s, At(s, p, s.store, Scan(round, todo)))
    ensures Leads(s, At(s, p, s.store, Miss(round)))
    decreases |todo|
  {
    if todo == {} {
      Step(s, p, s.store, Scan(round, todo), 0);
    } else {
      EmptyOrHasMember(todo);
      var pick: UserId :| pick in todo;
      assert ReadUser(s.store, pick).Good? && !IsUser(s.store, pick, s.procs[p].email);
      Step(s, p, s.store, Scan(round, todo), pick);
      ScanMisses(s, p, round, todo - {pick});
    }
  }

  lemma LookupMisses(s: State, p: ProcId, round: nat)
    requires p in s.procs && Unknown(s.store, s.procs[p].email)
    requires Leads(s, At(s, p, s.store, GetIndex(round)))
    ensures Leads(s, At(s, p, s.store, Miss(round)))
  {
    Step(s, p, s.store, GetIndex(round), 0);
    Step(s, p, s.store, ListAll(round), 0);
    ScanMisses(s, p, round, s.store.listed);
  }

  /** A bootstrap gets as far as finding the legacy record without an e-mail. */
  lemma FindsLegacy(s: State, p: ProcId, u: UserId)
    requires p in s.procs && s.procs[p].pc == GetIndex(0) && Unknown(s.store, s.procs[p].email)
    requires s.store.byName == Some(u) && ReadUser(s.store, u).Good? && !HasEmail(s.store, u)
    ensures Leads(s, At(s, p, s.store, SetEmail(u)))
  {
    Here(s, p);
    LookupMisses(s, p, 0);
    Step(s, p, s.store, GetName, 0);
    Step(s, p, s.store, ReadNamed(u), 0);
    Step(s, p, s.store, ReadFields(u), 0);
  }

  function Complete(e: string): Record { Record(Some(e), None, ALL_FIELDS) }

  function Written(s: Store, me: UserId, e: string, k: nat): Store {
    if k == 0 then s else s.(users := s.users[me := Record(if k == 1 then None else Some(e), None, k)])
  }

  function Listed(s: Store, me: UserId, e: string): Store {
    Store(s.users[me := Complete(e)], s.byEmail[e := me], s.byName, s.listed + {me})
  }

  lemma {:induction false} Writes(s: State, p: ProcId, k: nat)
    requires p in s.procs && k < ALL_FIELDS
    requires Leads(s, At(s, p, Written(s.store, s.procs[p].me, s.procs[p].email, k), WriteField(k)))
    ensures Leads(s, At(s, p, Written(s.store, s.procs[p].me, s.procs[p].email, ALL_FIELDS), Claim))
    decreases ALL_FIELDS - k
  {
    var me, e := s.procs[p].me, s.procs[p].email;
    Step(s, p, Written(s.store, me, e, k), WriteField(k), 0);
    var users' := Act(Written(s.store, me, e, k), s.procs[p].(pc := WriteField(k)), 0).0.users;
    assert users' == Written(s.store, me, e, k + 1).users;
    if k + 1 < ALL_FIELDS {
      Writes(s, p, k + 1);
    }
  }

  /** The inner lookup of a write misses, and the call creates and lists its record. */
  lemma Creates(s: State, p: ProcId)
    requires p in s.procs && Unknown(s.store, s.procs[p].email)
    requires Leads(s, At(s, p, s.store, GetIndex(1)))
    ensures Leads(s, At(s, p, Listed(s.store, s.procs[p].me, s.procs[p].email), Done(Created)))
  {
    var me, e := s.procs[p].me, s.procs[p].email;
    LookupMisses(s, p, 1);
    Writes(s, p, 0);
    var written := Written(s.store, me, e, ALL_FIELDS);
    Step(s, p, written, Claim, 0);
    Step(s, p, written.(byEmail := written.byEmail[e := me]), AddToAll, 0);
  }

  function WithEmail(s: Store, u: UserId, e: string): Store
    requires u in s.users
  {
    s.(users := s.users[u := s.users[u].(primary := Some(e))])
  }

  function Adoption(s: Store, u: UserId, e: string): Store
    requires u in s.users
  {
    Store(s.users[u := s.users[u].(primary := Some(e))], s.byEmail[e := u], None, s.listed)
  }

  lemma FinishesAdoption(s: State, p: ProcId, u: UserId)
    requires p in s.procs && s.procs[p].pc == SetEmail(u) && u in s.store.users
    ensures Leads(s, At(s, p, Adoption(s.store, u, s.procs[p].email), Done(Adopted)))
  {
    var e := s.procs[p].email;
    Here(s, p);
    Step(s, p, s.store, SetEmail(u), 0);
    Step(s, p, WithEmail(s.store, u, e), SetIndex(u), 0);
    Step(s, p, WithEmail(s.store, u, e).(byEmail := s.store.byEmail[e := u]), DropName, 0);
  }

  // ---- Two accounts -----------------------------------------------------------------------

  lemma IndexReaches(s: Store, e: string)
    ensures e in s.byEmail ==> Exists(s, e)
  {
    if e in s.byEmail { assert Reachable(s, s.byEmail[e], e); }
  }

  lemma NewMeansUnknown(s: State, e: string)
    requires Init(s) && !Exists(s.store, e)
    ensures Unknown(s.store, e)
  {
    forall id | id in s.store.listed ensures !IsUser(s.store, id, e) {
      assert !Reachable(s.store, id, e);
    }
    IndexReaches(s.store, e);
  }

  /** Two listed records with one e-mail. */
  ghost predicate Doubled(s: Store, e: string, i: UserId, j: UserId) {
    i != j && i in s.listed && j in s.listed && IsUser(s, i, e) && IsUser(s, j, e)
  }

  /** A bootstrap about to set its e-mail on the legacy record, after another call created it. */
  lemma AdoptsAfterCreation(s: State, p: ProcId, u: UserId, e: string, me: UserId) returns (end: State)
    requires p in s.procs && s.procs[p].pc == SetEmail(u) && s.procs[p].email == e
    requires u in s.store.listed && ReadUser(s.store, u).Good?
    requires me != u && me in s.store.listed && IsUser(s.store, me, e)
    ensures Leads(s, end) && Doubled(end.store, e, u, me)
  {
    Here(s, p);
    Step(s, p, s.store, SetEmail(u), 0);
    end := At(s, p, WithEmail(s.store, u, e), SetIndex(u));
  }

  lemma CreationBesideAdoption(s: State, p: ProcId, q: ProcId, e: string) returns (end: State)
    requires Init(s) && Legacy(s.store).Some? && Live(s, p) && s.procs[p].email == e
    requires q in s.procs && q != p && s.procs[q].email == e && s.procs[q].kind.Create?
    ensures Leads(s, end) && Doubled(end.store, e, Legacy(s.store).value, s.procs[q].me)
  {
    var u, me := Legacy(s.store).value, s.procs[q].me;
    NewMeansUnknown(s, e);
    FindsLegacy(s, p, u);
    var s1 := At(s, p, s.store, SetEmail(u));
    Here(s1, q);
    Creates(s1, q);
    var s2 := At(s1, q, Listed(s.store, me, e), Done(Created));
    end := AdoptsAfterCreation(s2, p, u, e, me);
    LeadsTrans(s, s1, s2);
    LeadsTrans(s, s2, end);
  }

  /** A bootstrap of a third e-mail adopts while two look at the old record. */
  lemma AdoptedByAnother(s: State, p: ProcId, r: ProcId, e: string, u: UserId) returns (mid: State)
    requires Init(s) && Legacy(s.store) == Some(u) && Live(s, p) && s.procs[p].email == e
    requires Live(s, r) && s.procs[r].email != e
    ensures Leads(s, mid) && mid.store == Adoption(s.store, u, s.procs[r].email)
    ensures mid.procs == s.procs[p := s.procs[p].(pc := SetEmail(u))][r := s.procs[r].(pc := Done(Adopted))]
  {
    var f := s.procs[r].email;
    NewMeansUnknown(s, e);
    NewMeansUnknown(s, f);
    FindsLegacy(s, p, u);
    var s1 := At(s, p, s.store, SetEmail(u));
    FindsLegacy(s1, r, u);
    var s2 := At(s1, r, s.store, SetEmail(u));
    FinishesAdoption(s2, r, u);
    mid := At(s2, r, Adoption(s.store, u, f), Done(Adopted));
    LeadsTrans(s, s1, s2);
    LeadsTrans(s, s2, mid);
  }

  lemma StaysUnknown(s: Store, u: UserId, f: string, e: string)
    requires Unknown(s, e) && f != e && u in s.users && ReadUser(s, u).Good?
    ensures Unknown(Adoption(s, u, f), e)
  {
    assert forall id :: id != u ==> ReadUser(Adoption(s, u, f), id) == ReadUser(s, id);
  }

  /** With nothing left to adopt a bootstrap creates. */
  lemma BootstrapCreates(s: State, p: ProcId)
    requires p in s.procs && s.procs[p].pc == GetIndex(0) && Unknown(s.store, s.procs[p].email) && s.store.byName.None?
    ensures Leads(s, At(s, p, Listed(s.store, s.procs[p].me, s.procs[p].email), Done(Created)))
  {
    Here(s, p);
    LookupMisses(s, p, 0);
    Step(s, p, s.store, GetName, 0);
    Creates(s, p);
  }

  lemma CreationAfterAnotherAdoption(s: State, p: ProcId, q: ProcId, r: ProcId, e: string) returns (end: State)
    requires Init(s) && Legacy(s.store).Some? && Live(s, p) && s.procs[p].email == e
    requires q in s.procs && q != p && s.procs[q].email == e && s.procs[q].kind.Bootstrap?
    requires Live(s, r) && s.procs[r].email != e
    ensures Leads(s, end) && Doubled(end.store, e, Legacy(s.store).value, s.procs[q].me)
  {
    var u, me := Legacy(s.store).value, s.procs[q].me;
    NewMeansUnknown(s, e);
    var mid := AdoptedByAnother(s, p, r, e, u);
    StaysUnknown(s.store, u, s.procs[r].email, e);
    BootstrapCreates(mid, q);
    var made := At(mid, q, Listed(mid.store, me, e), Done(Created));
    end := AdoptsAfterCreation(made, p, u, e, me);
    LeadsTrans(s, mid, made);
    LeadsTrans(s, made, end);
  }

  /** Whenever an e-mail is contested some interleaving leaves two listed users with it. */
  lemma ContestedDoubles(s: State, e: string) returns (end: State, i: UserId, j: UserId)
    requires Init(s) && Contested(s, e)
    ensures Leads(s, end) && Doubled(end.store, e, i, j)
  {
    var p, q :|
      && Live(s, p) && s.procs[p].email == e
      && q in s.procs && q != p && s.procs[q].email == e
      && (s.procs[q].kind.Create? || !OnlyAdopter(s, e));
    i, j := Legacy(s.store).value, s.procs[q].me;
    if s.procs[q].kind.Create? {
      end := CreationBesideAdoption(s, p, q, e);
    } else {
      var r :| Live(s, r) && s.procs[r].email != e;
      end := CreationAfterAnotherAdoption(s, p, q, r, e);
    }
  }

  /** An e-mail keeps at most one account in every interleaving if and only if it is not contested. */
  lemma UniqueIffUncontested(s: State, e: string)
    requires Init(s)
    ensures (forall end :: Leads(s, end) ==> AtMostOne(end.store, e)) <==> !Contested(s, e)
  {
    if Contested(s, e) {
      var end, i, j := ContestedDoubles(s, e);
      assert Reachable(end.store, i, e) && Reachable(end.store, j, e);
    } else {
      forall end | Leads(s, end) ensures AtMostOne(end.store, e) {
        var picks :| Run(s, picks, end);
        AtMostOneAccount(s, picks, end, e);
      }
    }
  }

  // ---- No account ----------------------------------------------------------------------------

  lemma TakenLeavesNoAccount(s: Store, u: UserId, e: string, f: string)
    requires Unknown(s, e) && f != e && u in s.users && ReadUser(s, u).Good?
    ensures !HasAccount(WithEmail(Adoption(s, u, e), u, f), e)
  {
    var taken := WithEmail(Adoption(s, u, e), u, f);
    assert forall id :: id != u ==> ReadUser(taken, id) == ReadUser(s, id);
    assert !IsUser(taken, u, e);
  }

  lemma AdoptionIsOverwritten(s: State, p: ProcId, r: ProcId, e: string) returns (end: State)
    requires Init(s) && Legacy(s.store).Some? && Live(s, p) && s.procs[p].email == e
    requires Live(s, r) && s.procs[r].email != e
    ensures Leads(s, end) && p in end.procs && end.procs[p] == s.procs[p].(pc := Done(Adopted))
    ensures !HasAccount(end.store, e)
  {
    var u := Legacy(s.store).value;
    NewMeansUnknown(s, e);
    var mid := AdoptedByAnother(s, r, p, s.procs[r].email, u);
    Here(mid, r);
    Step(mid, r, mid.store, SetEmail(u), 0);
    end := At(mid, r, WithEmail(mid.store, u, s.procs[r].email), SetIndex(u));
    LeadsTrans(s, mid, end);
    TakenLeavesNoAccount(s.store, u, e, s.procs[r].email);
  }

  lemma HandleIsFound(s: State, p: ProcId)
    requires Init(s) && Legacy(s.store).Some? && p in s.procs && s.procs[p].email == HANDLE
    ensures HANDLE !in s.store.byEmail && Leads(s, At(s, p, s.store, Hit(s.procs[p])))
  {
    var u := Legacy(s.store).value;
    forall f | f in s.store.byEmail ensures s.store.byEmail[f] != u {
      assert s.store.byEmail[f] in s.store.byEmail.Values;
    }
    HandleIsNoAddress();
    Here(s, p);
    var round := s.procs[p].pc.round;
    Step(s, p, s.store, GetIndex(round), 0);
    Step(s, p, s.store, ListAll(round), 0);
    Step(s, p, s.store, Scan(round, s.store.listed), u);
  }

  lemma TakenFromHandle(s: State, r: ProcId, u: UserId) returns (end: State)
    requires r in s.procs && s.procs[r].pc == GetIndex(0) && Unknown(s.store, s.procs[r].email)
    requires s.store.byName == Some(u) && !HasEmail(s.store, u) && u in s.store.users && ReadUser(s.store, u).Good?
    ensures Leads(s, end) && end == At(s, r, WithEmail(s.store, u, s.procs[r].email), SetIndex(u))
  {
    FindsLegacy(s, r, u);
    Step(s, r, s.store, SetEmail(u), 0);
    end := At(s, r, WithEmail(s.store, u, s.procs[r].email), SetIndex(u));
  }

  lemma HandleIsTaken(s: State, p: ProcId, r: ProcId) returns (end: State)
    requires Init(s) && Legacy(s.store).Some? && p in s.procs && s.procs[p].email == HANDLE
    requires Live(s, r) && s.procs[r].email != HANDLE
    ensures Leads(s, end) && p in end.procs && end.procs[p] == s.procs[p].(pc := Hit(s.procs[p]))
    ensures !HasAccount(end.store, HANDLE)
  {
    var u, e := Legacy(s.store).value, s.procs[r].email;
    HandleIsFound(s, p);
    NewMeansUnknown(s, e);
    var found := At(s, p, s.store, Hit(s.procs[p]));
    end := TakenFromHandle(found, r, u);
    LeadsTrans(s, found, end);
    assert forall id :: id != u ==> ReadUser(end.store, id) == ReadUser(s.store, id);
    forall id ensures !Account(end.store, id, HANDLE) {
      assert id in s.store.listed && IsUser(s.store, id, HANDLE) ==> id == u;
    }
  }

  ghost predicate FinishedFor(s: State, e: string) {
    exists p :: p in s.procs && s.procs[p].email == e && s.procs[p].pc.Done?
  }

  /** Whenever a bootstrap of another e-mail can take the record a call found, some interleaving
      leaves a finished call's e-mail without an account. */
  lemma OverwrittenLoses(s: State, e: string) returns (end: State)
    requires Init(s) && Overwritten(s, e)
    ensures Leads(s, end) && FinishedFor(end, e) && !HasAccount(end.store, e)
  {
    var r :| Live(s, r) && s.procs[r].email != e;
    var p :| p in s.procs && s.procs[p].email == e && (Live(s, p) || e == HANDLE);
    if e == HANDLE {
      end := HandleIsTaken(s, p, r);
    } else {
      end := AdoptionIsOverwritten(s, p, r, e);
    }
    assert end.procs[p].email == e && end.procs[p].pc.Done?;
  }

  /** A finished call always leaves its e-mail an account if and only if no bootstrap of another
      e-mail can take it. */
  lemma AccountIffNotOverwritten(s: State, e: string)
    requires Init(s)
    ensures (forall end :: Leads(s, end) && FinishedFor(end, e) ==> HasAccount(end.store, e)) <==> !Overwritten(s, e)
  {
    if Overwritten(s, e) {
      var end := OverwrittenLoses(s, e);
    } else {
      forall end | Leads(s, end) && FinishedFor(end, e) ensures HasAccount(end.store, e) {
        var picks :| Run(s, picks, end);
        var p :| p in end.procs && end.procs[p].email == e && end.procs[p].pc.Done?;
        FinishedHasAccount(s, picks, end, p);
      }
    }
  }

  /** A deployment from before e-mails that restarts while somebody first signs up with the
      configured e-mail. */
  function Restart(e: string): State {
    State(Store(map[1 := Record(None, Some(HANDLE), ALL_FIELDS)], map[], Some(1), {1}),
          map[1 := Proc(Bootstrap, e, 2, GetIndex(0)), 2 := Proc(Create, e, 3, GetIndex(1))])
  }

  /** Its two calls can leave two listed users with one e-mail. */
  lemma RestartDoubles(e: string) returns (end: State, i: UserId, j: UserId)
    requires e != HANDLE
    ensures Init(Restart(e)) && Leads(Restart(e), end) && Doubled(end.store, e, i, j)
  {
    var s := Restart(e);
    assert Adoptable(s.store, 1);
    assert forall id :: !Reachable(s.store, id, e);
    assert Live(s, 1) && s.procs[1].email == e && 2 in s.procs && s.procs[2].email == e && s.procs[2].kind.Create?;
    end, i, j := ContestedDoubles(s, e);
  }
}
