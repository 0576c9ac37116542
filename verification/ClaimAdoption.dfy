/** Bootstraps that adopt the record from before e-mails were identifiers, among other calls. */
module ClaimAdoption {
  import opened Wrappers
  import opened AccountClaim
  import opened ClaimUniqueness

  /** A bootstrap whose e-mail has no account when the calls start. */
  ghost predicate Live(s: State, p: ProcId) {
    p in s.procs && s.procs[p].kind.Bootstrap? && !Exists(s.store, s.procs[p].email)
  }

  ghost predicate Adopts(pc: Pc) {
    pc.SetEmail? || pc.SetIndex? || pc.DropName?
  }

  lemma LegacyIsItsHandle(s: State)
    requires Init(s) && Legacy(s.store).Some?
    ensures Exists(s.store, HANDLE)
    ensures forall e :: Reachable(s.store, Legacy(s.store).value, e) ==> e == HANDLE
  {
    var u := Legacy(s.store).value;
    assert Reachable(s.store, u, HANDLE);
    forall e | e in s.store.byEmail ensures s.store.byEmail[e] != u {
      assert s.store.byEmail[e] in s.store.byEmail.Values;
    }
  }

  lemma SettledNeverAdopts(s: State, legacy: Option<UserId>, e: string, v: UserId, p: ProcId)
    requires Settled(s, legacy, e, v) && p in s.procs && s.procs[p].email == e
    ensures !Adopts(s.procs[p].pc)
  {
    assert SettledProc(s.store, e, v, s.procs[p]);
  }

  lemma QuietNeverAdopts(s: State, legacy: Option<UserId>, e: string, p: ProcId)
    requires Quiet(s, legacy, e) && p in s.procs && s.procs[p].email == e
    ensures !Adopts(s.procs[p].pc)
  {
    assert QuietProc(s.store, legacy, e, s.procs[p]);
  }

  /** Only such a bootstrap ever gets to adopt. */
  lemma AdoptersAreLive(s: State, picks: seq<(ProcId, UserId)>, end: State, p: ProcId)
    requires Init(s) && Run(s, picks, end) && p in end.procs && Adopts(end.procs[p].pc)
    ensures Live(s, p) && end.procs[p].email == s.procs[p].email != HANDLE && Legacy(s.store).Some?
  {
    var legacy, e := Legacy(s.store), end.procs[p].email;
    InitIsBase(s);
    RunKeepsBase(s, legacy, picks, end);
    RunKeepsCalls(s, picks, end);
    assert ProcBase(end.store, legacy, end.procs[p]);
    if e == HANDLE {
      RunStaysQuiet(s, picks, end, e);
      QuietNeverAdopts(end, legacy, e, p);
    }
    LegacyIsItsHandle(s);
    if Exists(s.store, e) {
      var v :| Reachable(s.store, v, e);
      RunStaysSettled(s, picks, end, e, v);
      SettledNeverAdopts(end, legacy, e, v, p);
    }
  }

  // ---- One e-mail to adopt for --------------------------------------------------------

  ghost predicate OnlyAdopter(s: State, e: string) {
    forall r :: Live(s, r) ==> s.procs[r].email == e
  }

  ghost predicate OneEmailProc(s: Store, e: string, q: Proc)
    requires q.email == e
  {
    match q.pc
    case ReadIndexed(_, id) => IsUser(s, id, e) && HasAccount(s, e)
    case DropIndex(_) => false
    case Heal(_, id) => IsUser(s, id, e)
    case Done(_) => HasAccount(s, e)
    case _ => true
  }

  /** The legacy record is as it was or carries `e`; a finished call leaves an account. */
  ghost predicate OneEmail(s: State, u: UserId, e: string) {
    && (HasEmail(s.store, u) ==> IsUser(s.store, u, e))
    && (e in s.store.byEmail ==> IsUser(s.store, s.store.byEmail[e], e))
    && (forall p :: p in s.procs && s.procs[p].email == e ==> OneEmailProc(s.store, e, s.procs[p]))
  }

  /** Whoever is that user stays so. */
  ghost predicate UsersStay(s: Store, s': Store, p: Proc, e: string) {
    forall id :: (id != p.me || !p.pc.WriteField?) && IsUser(s, id, e) ==> IsUser(s', id, e)
  }

  lemma OneEmailStays(s: State, u: UserId, e: string, p: ProcId, pick: UserId)
    requires Base(s, Some(u)) && OneEmail(s, u, e) && Enabled(s, p, pick) && e != HANDLE
    requires s.procs[p].pc.SetEmail? ==> s.procs[p].email == e
    ensures UsersStay(s.store, Next(s, p, pick).store, s.procs[p], e)
  {
    ActKeepsBase(s, Some(u), p, pick);
  }

  lemma AccountStays(s: Store, s': Store, u: UserId, e: string, p: Proc, pick: UserId)
    requires StoreBase(s, Some(u)) && ProcBase(s, Some(u), p) && Picks(p.pc, pick) && s' == Act(s, p, pick).0
    requires UsersStay(s, s', p, e) && HasAccount(s, e) && (p.email == e ==> OneEmailProc(s, e, p))
    requires p.email == e && p.pc.SetIndex? ==> IsUser(s, u, e)
    ensures HasAccount(s', e)
  {
    ActMoves(s, Some(u), p, pick);
    var id :| Account(s, id, e);
    assert e in s.byEmail ==> s.byEmail[e] in s.byEmail.Values;
    if p.email == e && p.pc.Heal? {
      assert Account(s', p.pc.id, e);
    } else if p.email == e && p.pc.SetIndex? {
      assert Account(s', u, e);
    } else {
      assert Account(s', id, e);
    }
  }

  lemma OwnLookupKeepsOneEmail(s: Store, u: UserId, e: string, q: Proc, pick: UserId)
    requires StoreBase(s, Some(u)) && ProcBase(s, Some(u), q) && Picks(q.pc, pick) && Looking(q.pc)
    requires q.email == e && OneEmailProc(s, e, q) && (e in s.byEmail ==> IsUser(s, s.byEmail[e], e))
    ensures
      var (s', pc) := Act(s, q, pick);
      OneEmailProc(s', e, q.(pc := pc)) && (e in s'.byEmail ==> IsUser(s', s'.byEmail[e], e))
  {
    var (s', pc) := Act(s, q, pick);
    assert forall id :: IsUser(s', id, e) <==> IsUser(s, id, e);
    assert e in s.byEmail ==> Account(s, s.byEmail[e], e);
    assert q.pc.Scan? && q.pc.todo != {} && pc.Done? ==> Account(s', pick, e);
    assert q.pc.Heal? ==> Account(s', q.pc.id, e);
  }

  lemma OwnStepKeepsOneEmail(s: Store, u: UserId, e: string, q: Proc, pick: UserId)
    requires StoreBase(s, Some(u)) && ProcBase(s, Some(u), q) && Picks(q.pc, pick) && e != HANDLE
    requires q.email == e && OneEmailProc(s, e, q) && (e in s.byEmail ==> IsUser(s, s.byEmail[e], e))
    requires HasEmail(s, u) ==> IsUser(s, u, e)
    ensures
      var (s', pc) := Act(s, q, pick);
      OneEmailProc(s', e, q.(pc := pc)) && (e in s'.byEmail ==> IsUser(s', s'.byEmail[e], e))
  {
    if Looking(q.pc) {
      OwnLookupKeepsOneEmail(s, u, e, q, pick);
    } else {
      var (s', pc) := Act(s, q, pick);
      ActMoves(s, Some(u), q, pick);
      assert e in s.byEmail ==> s.byEmail[e] in s.byEmail.Values;
      assert q.pc.DropName? ==> Account(s', u, e);
      assert q.pc.AddToAll? ==> Account(s', q.me, e);
      assert q.pc.Claim? && pc.Done? ==> Account(s', s'.byEmail[e], e);
      assert q.pc.Done? ==> s' == s;
    }
  }

  lemma StepKeepsOneEmail(s: State, u: UserId, e: string, p: ProcId, pick: UserId)
    requires Base(s, Some(u)) && OneEmail(s, u, e) && Enabled(s, p, pick) && e != HANDLE
    requires s.procs[p].pc.SetEmail? ==> s.procs[p].email == e
    ensures OneEmail(Next(s, p, pick), u, e)
  {
    var s', q := Next(s, p, pick), s.procs[p];
    ActKeepsBase(s, Some(u), p, pick);
    OneEmailStays(s, u, e, p, pick);
    assert ProcBase(s.store, Some(u), q);
    assert e in s.store.byEmail ==> s.store.byEmail[e] in s.store.byEmail.Values;
    if q.email == e {
      OwnStepKeepsOneEmail(s.store, u, e, q, pick);
    }
    if HasAccount(s.store, e) {
      AccountStays(s.store, s'.store, u, e, q, pick);
    }
    forall r | r in s'.procs && r != p && s'.procs[r].email == e ensures OneEmailProc(s'.store, e, s'.procs[r]) {
      assert OneEmailProc(s.store, e, s.procs[r]) && ProcBase(s.store, Some(u), s.procs[r]);
      assert Apart(s.procs[r], q) && Apart(q, s.procs[r]);
    }
  }

  lemma RunKeepsOneEmail(s: State, picks: seq<(ProcId, UserId)>, end: State, e: string)
    requires Init(s) && Run(s, picks, end) && Legacy(s.store).Some?
    requires e != HANDLE && OnlyAdopter(s, e)
    ensures Base(end, Legacy(s.store)) && OneEmail(end, Legacy(s.store).value, e)
  {
    var u := Legacy(s.store).value;
    InitIsBase(s);
    var inv := t => Base(t, Some(u)) && OneEmail(t, u, e);
    forall t, p, pick {:trigger Enabled(t, p, pick)} | Leads(s, t) && inv(t) && Enabled(t, p, pick)
      ensures inv(Next(t, p, pick))
    {
      if t.procs[p].pc.SetEmail? {
        var before :| Run(s, before, t);
        AdoptersAreLive(s, before, t, p);
      }
      ActKeepsBase(t, Some(u), p, pick);
      StepKeepsOneEmail(t, u, e, p, pick);
    }
    RunKeepsFrom(inv, s, picks, end);
  }

  // ---- Only bootstraps of that e-mail -----------------------------------------------------

  ghost predicate AdoptProc(s: Store, u: UserId, q: Proc) {
    q.kind.Bootstrap? &&
    match q.pc
    case GetIndex(round) => round != 0 ==> HasEmail(s, u)
    case ReadIndexed(round, id) => id == u
    case DropIndex(_) => false
    case ListAll(round) => round != 0 ==> HasEmail(s, u)
    case Scan(round, todo) => round != 0 ==> HasEmail(s, u) && u in todo
    case Heal(_, id) => id == u
    case ReadNamed(id) => id == u
    case ReadFields(id) => id == u
    case WriteField(_) => false
    case Claim => false
    case AddToAll => false
    case Done(o) => o != Created
    case _ => true
  }

  ghost predicate OnlyReaches(s: Store, e: string, u: UserId) {
    forall id :: Reachable(s, id, e) ==> id == u
  }

  /** No call for `e` writes a record of its own. */
  ghost predicate AllAdopt(s: State, u: UserId, e: string) {
    && OnlyReaches(s.store, e, u)
    && (forall p :: p in s.procs && s.procs[p].email == e ==> AdoptProc(s.store, u, s.procs[p]))
  }

  lemma OwnStepAdopts(s: Store, u: UserId, e: string, q: Proc, pick: UserId)
    requires StoreBase(s, Some(u)) && ProcBase(s, Some(u), q) && Picks(q.pc, pick) && q.email == e
    requires HasEmail(s, u) ==> IsUser(s, u, e)
    requires OneEmailProc(s, e, q) && OnlyReaches(s, e, u) && AdoptProc(s, u, q)
    ensures var (s', pc) := Act(s, q, pick); OnlyReaches(s', e, u) && AdoptProc(s', u, q.(pc := pc))
  {
    var (s', pc) := Act(s, q, pick);
    assert forall id :: id != u ==> (IsUser(s', id, e) <==> IsUser(s, id, e));
    assert e in s.byEmail ==> Reachable(s, s.byEmail[e], e);
    forall id | Reachable(s', id, e) ensures id == u {
      assert id in s.listed && IsUser(s, id, e) ==> Reachable(s, id, e);
    }
    assert q.pc.Scan? && q.pc.todo != {} && IsUser(s, pick, e) ==> Reachable(s, pick, e);
  }

  lemma StepAdopts(s: State, u: UserId, e: string, p: ProcId, pick: UserId)
    requires Base(s, Some(u)) && OneEmail(s, u, e) && AllAdopt(s, u, e) && Enabled(s, p, pick)
    ensures AllAdopt(Next(s, p, pick), u, e)
  {
    var s', q := Next(s, p, pick), s.procs[p];
    ActKeepsBase(s, Some(u), p, pick);
    assert ProcBase(s.store, Some(u), q);
    if q.email == e {
      OwnStepAdopts(s.store, u, e, q, pick);
    } else {
      OthersReachNoMore(s.store, s'.store, Some(u), q, e);
    }
    forall r | r in s'.procs && r != p && s'.procs[r].email == e ensures AdoptProc(s'.store, u, s'.procs[r]) {
      assert AdoptProc(s.store, u, s.procs[r]);
    }
  }

  /** Every call for `e` is a bootstrap. */
  ghost predicate Bootstraps(s: State, e: string) {
    forall p :: p in s.procs && s.procs[p].email == e ==> s.procs[p].kind.Bootstrap?
  }

  lemma RunAdopts(s: State, picks: seq<(ProcId, UserId)>, end: State, e: string)
    requires Init(s) && Run(s, picks, end) && Legacy(s.store).Some? && !Exists(s.store, e)
    requires OnlyAdopter(s, e) && Bootstraps(s, e)
    ensures AllAdopt(end, Legacy(s.store).value, e)
  {
    var u := Legacy(s.store).value;
    InitIsBase(s);
    LegacyIsItsHandle(s);
    assert forall id :: Reachable(s.store, id, e) ==> Exists(s.store, e);
    var inv := t => Base(t, Some(u)) && OneEmail(t, u, e) && AllAdopt(t, u, e);
    forall t, p, pick {:trigger Enabled(t, p, pick)} | Leads(s, t) && inv(t) && Enabled(t, p, pick)
      ensures inv(Next(t, p, pick))
    {
      if t.procs[p].pc.SetEmail? {
        var before :| Run(s, before, t);
        AdoptersAreLive(s, before, t, p);
      }
      ActKeepsBase(t, Some(u), p, pick);
      StepKeepsOneEmail(t, u, e, p, pick);
      StepAdopts(t, u, e, p, pick);
    }
    RunKeepsFrom(inv, s, picks, end);
  }

  // ---- One bootstrap alone ---------------------------------------------------------------

  /** What the only call for an e-mail has made reachable. */
  ghost function Made(q: Proc, u: UserId): set<UserId> {
    if Owns(q) then {q.me}
    else if q.pc.SetIndex? || q.pc.DropName? || q.pc == Done(Adopted) then {u}
    else {}
  }

  ghost predicate Lone(s: State, u: UserId, e: string, x: ProcId) {
    && x in s.procs && s.procs[x].email == e
    && (forall p :: p in s.procs && p != x ==> s.procs[p].email != e)
    && LoneCall(s.store, u, e, s.procs[x])
  }

  ghost predicate LoneCall(s: Store, u: UserId, e: string, q: Proc) {
    && (forall id :: Reachable(s, id, e) ==> id in Made(q, u))
    && !q.pc.ReadIndexed? && !q.pc.DropIndex? && !q.pc.Heal?
    && (q.pc.Done? ==> Made(q, u) != {})
  }

  lemma OwnLookupStaysLone(s: Store, u: UserId, e: string, q: Proc, pick: UserId)
    requires StoreBase(s, Some(u)) && ProcBase(s, Some(u), q) && Picks(q.pc, pick) && q.email == e && Looking(q.pc)
    requires LoneCall(s, u, e, q)
    ensures LoneCall(Act(s, q, pick).0, u, e, q.(pc := Act(s, q, pick).1))
  {
    assert e in s.byEmail ==> Reachable(s, s.byEmail[e], e);
    assert q.pc.Scan? && q.pc.todo != {} && IsUser(s, pick, e) ==> Reachable(s, pick, e);
  }

  lemma OwnStepStaysLone(s: Store, u: UserId, e: string, q: Proc, pick: UserId)
    requires StoreBase(s, Some(u)) && ProcBase(s, Some(u), q) && Picks(q.pc, pick) && q.email == e
    requires LoneCall(s, u, e, q)
    ensures LoneCall(Act(s, q, pick).0, u, e, q.(pc := Act(s, q, pick).1))
  {
    if Looking(q.pc) {
      OwnLookupStaysLone(s, u, e, q, pick);
    } else {
      var (s', pc) := Act(s, q, pick);
      ActMoves(s, Some(u), q, pick);
      assert e in s.byEmail ==> Reachable(s, s.byEmail[e], e);
      forall id | Reachable(s', id, e) ensures id in Made(q.(pc := pc), u) {
        assert id in s.listed && IsUser(s, id, e) ==> Reachable(s, id, e);
      }
    }
  }

  lemma StepStaysLone(s: State, u: UserId, e: string, x: ProcId, p: ProcId, pick: UserId)
    requires Base(s, Some(u)) && Lone(s, u, e, x) && Enabled(s, p, pick)
    ensures Lone(Next(s, p, pick), u, e, x)
  {
    if p == x {
      assert ProcBase(s.store, Some(u), s.procs[x]);
      OwnStepStaysLone(s.store, u, e, s.procs[x], pick);
    } else {
      assert ProcBase(s.store, Some(u), s.procs[p]);
      ActKeepsBase(s, Some(u), p, pick);
      OthersReachNoMore(s.store, Next(s, p, pick).store, Some(u), s.procs[p], e);
    }
  }

  lemma RunStaysLone(s: State, picks: seq<(ProcId, UserId)>, end: State, e: string, x: ProcId)
    requires Init(s) && Run(s, picks, end) && Legacy(s.store).Some? && !Exists(s.store, e)
    requires x in s.procs && s.procs[x].email == e
    requires forall p :: p in s.procs && p != x ==> s.procs[p].email != e
    ensures Lone(end, Legacy(s.store).value, e, x)
  {
    var u := Legacy(s.store).value;
    InitIsBase(s);
    assert forall id :: Reachable(s.store, id, e) ==> Exists(s.store, e);
    forall t, p, pick | Base(t, Some(u)) && Lone(t, u, e, x) && Enabled(t, p, pick)
      ensures Base(Next(t, p, pick), Some(u)) && Lone(Next(t, p, pick), u, e, x)
    {
      ActKeepsBase(t, Some(u), p, pick);
      StepStaysLone(t, u, e, x, p, pick);
    }
    RunKeeps(t => Base(t, Some(u)) && Lone(t, u, e, x), s, picks, end);
  }

  // ---- At most one account ------------------------------------------------------------------

  /** A bootstrap can adopt for `e` while another call creates for it: an explicit creation, or
      another bootstrap of `e` once a bootstrap of a third e-mail has adopted. */
  ghost predicate Contested(s: State, e: string) {
    && Legacy(s.store).Some?
    && exists p, q ::
         && Live(s, p) && s.procs[p].email == e
         && q in s.procs && q != p && s.procs[q].email == e
         && (s.procs[q].kind.Create? || !OnlyAdopter(s, e))
  }

  lemma QuietIsUnique(s: State, legacy: Option<UserId>, e: string)
    requires Quiet(s, legacy, e)
    ensures AtMostOne(s.store, e)
  {
  }

  lemma FreeAddressIsUnique(s: State, picks: seq<(ProcId, UserId)>, end: State, e: string, x: ProcId)
    requires Init(s) && Run(s, picks, end) && !Contested(s, e) && Live(s, x) && s.procs[x].email == e
    requires Legacy(s.store).Some?
    ensures AtMostOne(end.store, e)
  {
    if forall p :: p in s.procs && p != x ==> s.procs[p].email != e {
      RunStaysLone(s, picks, end, e, x);
    } else {
      var q :| q in s.procs && q != x && s.procs[q].email == e;
      assert s.procs[q].kind.Bootstrap? && OnlyAdopter(s, e);
      RunAdopts(s, picks, end, e);
    }
  }

  /** In every interleaving of any number of calls, for whatever e-mails, at most one record is ever
      reachable for an e-mail that is not contested, by index or by listing. */
  lemma AtMostOneAccount(s: State, picks: seq<(ProcId, UserId)>, end: State, e: string)
    requires Init(s) && Run(s, picks, end) && !Contested(s, e)
    ensures AtMostOne(end.store, e)
  {
    if v: UserId :| Reachable(s.store, v, e) && Legacy(s.store) != Some(v) {
      RunStaysSettled(s, picks, end, e, v);
    } else if NobodyAdopts(s, e) {
      RunStaysQuiet(s, picks, end, e);
      QuietIsUnique(end, Legacy(s.store), e);
    } else {
      LegacyIsItsHandle(s);
      var x :| x in s.procs && s.procs[x].email == e && s.procs[x].kind.Bootstrap?;
      assert Live(s, x);
      FreeAddressIsUnique(s, picks, end, e, x);
    }
  }
}
