/** When interleaved bootstraps and creations leave at most one account for an e-mail. */
module ClaimUniqueness {
  import opened Wrappers
  import opened AccountClaim

  // ---- An e-mail that has an account ----------------------------------------------

  /** Calls for `e` find `v`. */
  ghost predicate SettledProc(s: Store, e: string, v: UserId, q: Proc) {
    q.me != v &&
    (q.email == e ==>
       match q.pc
       case GetIndex(_) => true
       case ReadIndexed(_, id) => id == v
       case ListAll(_) => v in s.listed
       case Scan(_, todo) => v in todo
       case Heal(_, id) => id == v
       case Done(o) => o == AlreadyExists || o == EmailTaken
       case _ => false)
  }

  ghost predicate Settled(s: State, legacy: Option<UserId>, e: string, v: UserId) {
    && legacy != Some(v) && Account(s.store, v, e)
    && (forall id :: Reachable(s.store, id, e) ==> id == v)
    && (forall p :: p in s.procs ==> SettledProc(s.store, e, v, s.procs[p]))
  }

  lemma OwnStepStaysSettled(s: State, legacy: Option<UserId>, e: string, v: UserId, p: ProcId, pick: UserId)
    requires Base(s, legacy) && Settled(s, legacy, e, v) && Enabled(s, p, pick) && s.procs[p].email == e
    ensures Settled(Next(s, p, pick), legacy, e, v)
  {
    var s' := Next(s, p, pick);
    assert ProcBase(s.store, legacy, s.procs[p]) && SettledProc(s.store, e, v, s.procs[p]);
    assert s'.store.users == s.store.users && s'.store.listed == s.store.listed;
    assert forall id :: IsUser(s'.store, id, e) <==> IsUser(s.store, id, e);
    assert e in s.store.byEmail ==> Reachable(s.store, s.store.byEmail[e], e);
    assert s.procs[p].pc.Scan? && s.procs[p].pc.todo != {} && IsUser(s.store, pick, e) ==> Reachable(s.store, pick, e);
    forall id | Reachable(s'.store, id, e) ensures id == v {
      assert id in s.store.listed && IsUser(s.store, id, e) ==> Reachable(s.store, id, e);
    }
    assert SettledProc(s'.store, e, v, s'.procs[p]);
    forall q | q in s'.procs && q != p ensures SettledProc(s'.store, e, v, s'.procs[q]) {
      assert SettledProc(s.store, e, v, s.procs[q]);
    }
  }

  lemma OtherStepStaysSettled(s: State, legacy: Option<UserId>, e: string, v: UserId, p: ProcId, pick: UserId)
    requires Base(s, legacy) && Settled(s, legacy, e, v) && Enabled(s, p, pick) && s.procs[p].email != e
    ensures Settled(Next(s, p, pick), legacy, e, v)
  {
    var s' := Next(s, p, pick);
    ActKeepsBase(s, legacy, p, pick);
    assert SettledProc(s.store, e, v, s.procs[p]);
    OthersReachNoMore(s.store, s'.store, legacy, s.procs[p], e);
    forall q | q in s'.procs ensures SettledProc(s'.store, e, v, s'.procs[q]) {
      assert SettledProc(s.store, e, v, s.procs[q]);
    }
  }

  /** A call for another e-mail makes no record reachable for this one, nor unreachable if it stays
      that user. */
  lemma OthersReachNoMore(s: Store, s': Store, legacy: Option<UserId>, p: Proc, e: string)
    requires Moves(s, s', legacy, p) && StoreBase(s, legacy) && StoreBase(s', legacy) && ProcBase(s, legacy, p)
    requires p.email != e
    ensures forall id :: Reachable(s', id, e) ==> Reachable(s, id, e)
    ensures forall id :: Reachable(s, id, e) && IsUser(s', id, e) ==> Reachable(s', id, e)
  {
    forall id | Reachable(s', id, e) ensures Reachable(s, id, e) {
      if id in s'.listed && IsUser(s', id, e) {
        assert id == p.me && id !in s.listed ==> IsUser(s, p.me, p.email);
      }
    }
  }

  lemma StepStaysSettled(s: State, legacy: Option<UserId>, e: string, v: UserId, p: ProcId, pick: UserId)
    requires Base(s, legacy) && Settled(s, legacy, e, v) && Enabled(s, p, pick)
    ensures Settled(Next(s, p, pick), legacy, e, v)
  {
    if s.procs[p].email == e {
      OwnStepStaysSettled(s, legacy, e, v, p, pick);
    } else {
      OtherStepStaysSettled(s, legacy, e, v, p, pick);
    }
  }

  lemma RunStaysSettled(s: State, picks: seq<(ProcId, UserId)>, end: State, e: string, v: UserId)
    requires Init(s) && Run(s, picks, end) && Reachable(s.store, v, e) && Legacy(s.store) != Some(v)
    ensures Settled(end, Legacy(s.store), e, v)
  {
    var legacy := Legacy(s.store);
    InitIsBase(s);
    forall p | p in s.procs ensures SettledProc(s.store, e, v, s.procs[p]) {
      assert NewId(s.store, s.procs[p].me);
    }
    forall t, p, pick | Base(t, legacy) && Settled(t, legacy, e, v) && Enabled(t, p, pick)
      ensures Base(Next(t, p, pick), legacy) && Settled(Next(t, p, pick), legacy, e, v)
    {
      ActKeepsBase(t, legacy, p, pick);
      StepStaysSettled(t, legacy, e, v, p, pick);
    }
    RunKeeps(t => Base(t, legacy) && Settled(t, legacy, e, v), s, picks, end);
  }

  // ---- An e-mail nobody adopts for --------------------------------------------------

  /** Every listed record of this e-mail is already known to the index, `except` these. */
  ghost predicate ListedAreIndexed(s: Store, e: string, except: set<UserId>) {
    forall id :: id in s.listed && IsUser(s, id, e) && id !in except ==> e in s.byEmail
  }

  ghost predicate QuietStore(s: Store, legacy: Option<UserId>, e: string) {
    && (e in s.byEmail ==> IsUser(s, s.byEmail[e], e))
    && (forall id :: id in s.listed && IsUser(s, id, e) && e in s.byEmail ==> s.byEmail[e] == id)
    && (forall i, j :: i in s.listed && j in s.listed && IsUser(s, i, e) && IsUser(s, j, e) ==> i == j)
    && (legacy.Some? && IsUser(s, legacy.value, e) ==> e == HANDLE && !HasEmail(s, legacy.value))
  }

  ghost predicate QuietProc(s: Store, legacy: Option<UserId>, e: string, q: Proc)
    requires q.email == e
  {
    && (legacy.None? || e == HANDLE || q.kind.Create?)
    && (Owns(q) ==> e in s.byEmail && s.byEmail[e] == q.me)
    && match q.pc
       case ReadIndexed(_, id) => e in s.byEmail && s.byEmail[e] == id
       case DropIndex(_) => false
       case Scan(_, todo) => ListedAreIndexed(s, e, todo)
       case Heal(_, id) => IsUser(s, id, e)
       case GetName => legacy.Some? ==> HasEmail(s, legacy.value)
       case ReadNamed(_) => legacy.Some? ==> HasEmail(s, legacy.value)
       case ReadFields(_) => legacy.Some? ==> HasEmail(s, legacy.value)
       case SetEmail(_) => false
       case SetIndex(_) => false
       case DropName => false
       case WriteField(_) => ListedAreIndexed(s, e, {})
       case Claim => ListedAreIndexed(s, e, {})
       case Done(o) => o != Adopted
       case _ => true
  }

  ghost predicate Quiet(s: State, legacy: Option<UserId>, e: string) {
    && QuietStore(s.store, legacy, e)
    && (forall p :: p in s.procs && s.procs[p].email == e ==> QuietProc(s.store, legacy, e, s.procs[p]))
  }

  lemma OwnLookupStaysQuiet(s: Store, legacy: Option<UserId>, e: string, p: Proc, pick: UserId)
    requires StoreBase(s, legacy) && ProcBase(s, legacy, p) && p.email == e && Picks(p.pc, pick) && Looking(p.pc)
    requires QuietStore(s, legacy, e) && QuietProc(s, legacy, e, p)
    ensures QuietStore(Act(s, p, pick).0, legacy, e)
    ensures QuietProc(Act(s, p, pick).0, legacy, e, p.(pc := Act(s, p, pick).1))
  {
    var s' := Act(s, p, pick).0;
    assert forall id, f :: IsUser(s', id, f) <==> IsUser(s, id, f);
    assert e in s.byEmail ==> s.byEmail[e] in s.byEmail.Values;
    if p.pc.Scan? && p.pc.todo == {} && p.pc.round == 0 && legacy.Some? {
      assert legacy.value in s.listed;
      assert HasEmail(s, legacy.value);
    }
  }

  lemma OwnStepStaysQuiet(s: Store, legacy: Option<UserId>, e: string, p: Proc, pick: UserId)
    requires StoreBase(s, legacy) && ProcBase(s, legacy, p) && p.email == e && Picks(p.pc, pick)
    requires QuietStore(s, legacy, e) && QuietProc(s, legacy, e, p)
    ensures QuietStore(Act(s, p, pick).0, legacy, e)
    ensures QuietProc(Act(s, p, pick).0, legacy, e, p.(pc := Act(s, p, pick).1))
  {
    if Looking(p.pc) {
      OwnLookupStaysQuiet(s, legacy, e, p, pick);
    } else {
      var s' := Act(s, p, pick).0;
      ActMoves(s, legacy, p, pick);
      assert forall id :: id != p.me ==> (IsUser(s', id, e) <==> IsUser(s, id, e));
      assert e in s.byEmail ==> s.byEmail[e] in s.byEmail.Values;
    }
  }

  /** Calls for the same e-mail do not disturb each other. */
  lemma OwnStepLeavesOthersQuiet(s: Store, legacy: Option<UserId>, e: string, p: Proc, pick: UserId, q: Proc)
    requires StoreBase(s, legacy) && ProcBase(s, legacy, p) && p.email == e && Picks(p.pc, pick)
    requires QuietStore(s, legacy, e) && QuietProc(s, legacy, e, p)
    requires q.email == e && ProcBase(s, legacy, q) && QuietProc(s, legacy, e, q) && Apart(q, p) && Apart(p, q)
    ensures QuietProc(Act(s, p, pick).0, legacy, e, q)
  {
    var s' := Act(s, p, pick).0;
    ActMoves(s, legacy, p, pick);
    OwnStepStaysQuiet(s, legacy, e, p, pick);
    assert forall id :: id != p.me ==> (IsUser(s', id, e) <==> IsUser(s, id, e));
  }

  lemma OtherStepStaysQuiet(s: Store, s': Store, legacy: Option<UserId>, e: string, p: Proc)
    requires Moves(s, s', legacy, p) && StoreBase(s, legacy) && StoreBase(s', legacy) && ProcBase(s, legacy, p)
    requires p.email != e && QuietStore(s, legacy, e)
    ensures QuietStore(s', legacy, e)
  {
    OthersReachNoMore(s, s', legacy, p, e);
    if e in s.byEmail {
      assert s.byEmail[e] in s.byEmail.Values;
    }
  }

  lemma OtherStepLeavesQuiet(s: Store, s': Store, legacy: Option<UserId>, e: string, p: Proc, q: Proc)
    requires Moves(s, s', legacy, p) && StoreBase(s, legacy) && StoreBase(s', legacy) && ProcBase(s, legacy, p)
    requires p.email != e && QuietStore(s, legacy, e)
    requires q.email == e && ProcBase(s, legacy, q) && QuietProc(s, legacy, e, q) && Apart(q, p) && Apart(p, q)
    ensures QuietProc(s', legacy, e, q)
  {
    OthersReachNoMore(s, s', legacy, p, e);
    assert p.me in s'.listed && p.me !in s.listed ==> !IsUser(s', p.me, e);
  }

  lemma StepStaysQuiet(s: State, legacy: Option<UserId>, e: string, p: ProcId, pick: UserId)
    requires Base(s, legacy) && Quiet(s, legacy, e) && Enabled(s, p, pick)
    ensures Quiet(Next(s, p, pick), legacy, e)
  {
    var s' := Next(s, p, pick);
    ActKeepsBase(s, legacy, p, pick);
    if s.procs[p].email == e {
      OwnStepStaysQuiet(s.store, legacy, e, s.procs[p], pick);
      forall q | q in s'.procs && q != p && s'.procs[q].email == e ensures QuietProc(s'.store, legacy, e, s'.procs[q]) {
        OwnStepLeavesOthersQuiet(s.store, legacy, e, s.procs[p], pick, s.procs[q]);
      }
    } else {
      OtherStepStaysQuiet(s.store, s'.store, legacy, e, s.procs[p]);
      forall q | q in s'.procs && q != p && s'.procs[q].email == e ensures QuietProc(s'.store, legacy, e, s'.procs[q]) {
        OtherStepLeavesQuiet(s.store, s'.store, legacy, e, s.procs[p], s.procs[q]);
      }
    }
  }

  /** Nothing to adopt, or not for this e-mail. */
  ghost predicate NobodyAdopts(s: State, e: string) {
    || Legacy(s.store).None? || e == HANDLE
    || forall p :: p in s.procs && s.procs[p].email == e ==> s.procs[p].kind.Create?
  }

  lemma InitIsQuiet(s: State, e: string)
    requires Init(s) && NobodyAdopts(s, e)
    ensures Quiet(s, Legacy(s.store), e)
  {
  }

  lemma RunStaysQuiet(s: State, picks: seq<(ProcId, UserId)>, end: State, e: string)
    requires Init(s) && Run(s, picks, end) && NobodyAdopts(s, e)
    ensures Base(end, Legacy(s.store)) && Quiet(end, Legacy(s.store), e)
  {
    var legacy := Legacy(s.store);
    InitIsBase(s);
    InitIsQuiet(s, e);
    forall t, p, pick | Base(t, legacy) && Quiet(t, legacy, e) && Enabled(t, p, pick)
      ensures Base(Next(t, p, pick), legacy) && Quiet(Next(t, p, pick), legacy, e)
    {
      ActKeepsBase(t, legacy, p, pick);
      StepStaysQuiet(t, legacy, e, p, pick);
    }
    RunKeeps(t => Base(t, legacy) && Quiet(t, legacy, e), s, picks, end);
  }
}
