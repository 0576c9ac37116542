/** What finished calls leave behind. */
module ClaimConvergence {
  import opened Wrappers
  import opened AccountClaim
  import opened ClaimUniqueness
  import opened ClaimAdoption

  // ---- A finished call's e-mail has an account ------------------------------------------

  ghost predicate Served(s: State, e: string) {
    forall p :: p in s.procs && s.procs[p].email == e && s.procs[p].pc.Done? ==> HasAccount(s.store, e)
  }

  lemma OwnStepServes(s: Store, legacy: Option<UserId>, e: string, q: Proc, pick: UserId)
    requires StoreBase(s, legacy) && ProcBase(s, legacy, q) && Picks(q.pc, pick) && q.email == e && !q.pc.Done?
    requires QuietStore(s, legacy, e) && QuietProc(s, legacy, e, q)
    ensures HasAccount(s, e) || Act(s, q, pick).1.Done? ==> HasAccount(Act(s, q, pick).0, e)
  {
    var (s', pc) := Act(s, q, pick);
    ActMoves(s, legacy, q, pick);
    OwnStepStaysQuiet(s, legacy, e, q, pick);
    assert e in s.byEmail ==> s.byEmail[e] in s.byEmail.Values;
    assert forall id :: id != q.me || !q.pc.WriteField? ==> (IsUser(s', id, e) <==> IsUser(s, id, e));
    if q.pc.Heal? {
      assert Account(s', q.pc.id, e);
    } else if q.pc.AddToAll? {
      assert Account(s', q.me, e);
    } else if e in s'.byEmail {
      assert Account(s', s'.byEmail[e], e);
    } else if HasAccount(s, e) {
      var id :| Account(s, id, e);
      assert Account(s', id, e);
    } else if pc.Done? && q.pc.Scan? {
      assert Account(s', pick, e);
    }
  }

  lemma StepServes(s: State, legacy: Option<UserId>, e: string, p: ProcId, pick: UserId)
    requires Base(s, legacy) && Quiet(s, legacy, e) && Served(s, e) && Enabled(s, p, pick)
    requires s.procs[p].pc.SetEmail? ==> e != HANDLE
    ensures Served(Next(s, p, pick), e)
  {
    var s', q := Next(s, p, pick), s.procs[p];
    ActKeepsBase(s, legacy, p, pick);
    assert ProcBase(s.store, legacy, q);
    if q.email == e {
      OwnStepServes(s.store, legacy, e, q, pick);
    } else if HasAccount(s.store, e) {
      var id :| Account(s.store, id, e);
      assert e in s.store.byEmail ==> s.store.byEmail[e] in s.store.byEmail.Values;
      OthersReachNoMore(s.store, s'.store, legacy, q, e);
      assert Account(s'.store, id, e);
    }
  }

  lemma RunServes(s: State, picks: seq<(ProcId, UserId)>, end: State, e: string)
    requires Init(s) && Run(s, picks, end) && NobodyAdopts(s, e)
    requires Legacy(s.store).Some? && e == HANDLE ==> OnlyAdopter(s, e)
    ensures Served(end, e)
  {
    var legacy := Legacy(s.store);
    InitIsBase(s);
    InitIsQuiet(s, e);
    var inv := t => Base(t, legacy) && Quiet(t, legacy, e) && Served(t, e);
    forall t, p, pick {:trigger Enabled(t, p, pick)} | Leads(s, t) && inv(t) && Enabled(t, p, pick)
      ensures inv(Next(t, p, pick))
    {
      if t.procs[p].pc.SetEmail? {
        var before :| Run(s, before, t);
        AdoptersAreLive(s, before, t, p);
      }
      ActKeepsBase(t, legacy, p, pick);
      StepStaysQuiet(t, legacy, e, p, pick);
      StepServes(t, legacy, e, p, pick);
    }
    RunKeepsFrom(inv, s, picks, end);
  }

  /** A call can finish for `e` and a bootstrap of another e-mail then take the record it found. */
  ghost predicate Overwritten(s: State, e: string) {
    && Legacy(s.store).Some? && !OnlyAdopter(s, e)
    && exists p :: p in s.procs && s.procs[p].email == e && (Live(s, p) || e == HANDLE)
  }

  lemma FinishedAdopterHasAccount(s: State, picks: seq<(ProcId, UserId)>, end: State, p: ProcId, x: ProcId)
    requires Init(s) && Run(s, picks, end) && p in end.procs && end.procs[p].pc.Done?
    requires Legacy(s.store).Some? && Live(s, x) && s.procs[x].email == end.procs[p].email
    requires OnlyAdopter(s, end.procs[p].email)
    ensures HasAccount(end.store, end.procs[p].email)
  {
    LegacyIsItsHandle(s);
    RunKeepsOneEmail(s, picks, end, end.procs[p].email);
    assert OneEmailProc(end.store, end.procs[p].email, end.procs[p]);
  }

  /** Unless that can happen, a finished call, whatever it answered, has left its e-mail an account. */
  lemma FinishedHasAccount(s: State, picks: seq<(ProcId, UserId)>, end: State, p: ProcId)
    requires Init(s) && Run(s, picks, end) && p in end.procs && end.procs[p].pc.Done?
    requires !Overwritten(s, end.procs[p].email)
    ensures HasAccount(end.store, end.procs[p].email)
  {
    var e := end.procs[p].email;
    RunKeepsCalls(s, picks, end);
    assert s.procs[p].email == e;
    if v: UserId :| Reachable(s.store, v, e) && Legacy(s.store) != Some(v) {
      RunStaysSettled(s, picks, end, e, v);
    } else if NobodyAdopts(s, e) {
      RunServes(s, picks, end, e);
    } else {
      LegacyIsItsHandle(s);
      var x :| x in s.procs && s.procs[x].email == e && s.procs[x].kind.Bootstrap?;
      assert Live(s, x);
      FinishedAdopterHasAccount(s, picks, end, p, x);
    }
  }

  // ---- Who made it ----------------------------------------------------------------------

  /** The call has made `id` reachable for its e-mail, or is about to finish doing so. */
  ghost predicate Provides(q: Proc, legacy: Option<UserId>, id: UserId) {
    || (Owns(q) && id == q.me)
    || ((q.pc.SetIndex? || q.pc.DropName? || q.pc == Done(Adopted)) && legacy == Some(id))
  }

  ghost predicate HasSource(s: State, legacy: Option<UserId>, id: UserId, e: string) {
    exists p :: p in s.procs && s.procs[p].email == e && Provides(s.procs[p], legacy, id)
  }

  ghost predicate FromStart(t: State, s: Store, legacy: Option<UserId>, id: UserId, e: string) {
    Reachable(s, id, e) || HasSource(t, legacy, id, e)
  }

  ghost predicate Sourced(t: State, s: Store, legacy: Option<UserId>) {
    && (forall id, e :: Reachable(t.store, id, e) ==> FromStart(t, s, legacy, id, e))
    && (forall p :: p in t.procs && t.procs[p].pc.Heal? ==>
          FromStart(t, s, legacy, t.procs[p].pc.id, t.procs[p].email))
  }

  lemma SourcesStay(t: State, legacy: Option<UserId>, p: ProcId, pick: UserId, id: UserId, e: string)
    requires Enabled(t, p, pick) && HasSource(t, legacy, id, e)
    ensures HasSource(Next(t, p, pick), legacy, id, e)
  {
    var q :| q in t.procs && t.procs[q].email == e && Provides(t.procs[q], legacy, id);
    assert Provides(Next(t, p, pick).procs[q], legacy, id);
  }

  lemma NewlyReachable(s: Store, legacy: Option<UserId>, q: Proc, pick: UserId, id: UserId)
    requires StoreBase(s, legacy) && ProcBase(s, legacy, q) && Picks(q.pc, pick)
    requires Reachable(Act(s, q, pick).0, id, q.email) && !Reachable(s, id, q.email)
    ensures Provides(q.(pc := Act(s, q, pick).1), legacy, id) || (q.pc.Heal? && id == q.pc.id)
  {
    var s' := Act(s, q, pick).0;
    ActMoves(s, legacy, q, pick);
    if Looking(q.pc) {
      assert s'.users == s.users && s'.listed == s.listed;
    }
  }

  lemma FromStartStays(t: State, s: Store, legacy: Option<UserId>, p: ProcId, pick: UserId, id: UserId, e: string)
    requires Enabled(t, p, pick) && FromStart(t, s, legacy, id, e)
    ensures FromStart(Next(t, p, pick), s, legacy, id, e)
  {
    if HasSource(t, legacy, id, e) {
      SourcesStay(t, legacy, p, pick, id, e);
    }
  }

  lemma ReachedIsSourced(t: State, s: Store, legacy: Option<UserId>, p: ProcId, pick: UserId, id: UserId, e: string)
    requires Base(t, legacy) && Sourced(t, s, legacy) && Enabled(t, p, pick)
    requires Reachable(Next(t, p, pick).store, id, e)
    ensures FromStart(Next(t, p, pick), s, legacy, id, e)
  {
    var t', q := Next(t, p, pick), t.procs[p];
    ActKeepsBase(t, legacy, p, pick);
    assert ProcBase(t.store, legacy, q);
    if q.email != e {
      OthersReachNoMore(t.store, t'.store, legacy, q, e);
    } else if !Reachable(t.store, id, e) {
      NewlyReachable(t.store, legacy, q, pick, id);
      assert t'.procs[p].email == e;
    }
    if FromStart(t, s, legacy, id, e) {
      FromStartStays(t, s, legacy, p, pick, id, e);
    }
  }

  lemma StepStaysSourced(t: State, s: Store, legacy: Option<UserId>, p: ProcId, pick: UserId)
    requires Base(t, legacy) && Sourced(t, s, legacy) && Enabled(t, p, pick)
    ensures Sourced(Next(t, p, pick), s, legacy)
  {
    var t', q := Next(t, p, pick), t.procs[p];
    forall id, e | Reachable(t'.store, id, e) ensures FromStart(t', s, legacy, id, e) {
      ReachedIsSourced(t, s, legacy, p, pick, id, e);
    }
    forall r | r in t'.procs && t'.procs[r].pc.Heal?
      ensures FromStart(t', s, legacy, t'.procs[r].pc.id, t'.procs[r].email)
    {
      var id, e := t'.procs[r].pc.id, t'.procs[r].email;
      assert ProcBase(t.store, legacy, q);
      assert r == p ==> Reachable(t.store, id, e);
      FromStartStays(t, s, legacy, p, pick, id, e);
    }
  }

  lemma RunStaysSourced(s: State, picks: seq<(ProcId, UserId)>, end: State)
    requires Init(s) && Run(s, picks, end)
    ensures Sourced(end, s.store, Legacy(s.store))
  {
    var legacy := Legacy(s.store);
    InitIsBase(s);
    forall t, p, pick | Base(t, legacy) && Sourced(t, s.store, legacy) && Enabled(t, p, pick)
      ensures Base(Next(t, p, pick), legacy) && Sourced(Next(t, p, pick), s.store, legacy)
    {
      ActKeepsBase(t, legacy, p, pick);
      StepStaysSourced(t, s.store, legacy, p, pick);
    }
    RunKeeps(t => Base(t, legacy) && Sourced(t, s.store, legacy), s, picks, end);
  }

  // ---- The promises ------------------------------------------------------------------------

  /** Unless its e-mail is contested, a call that reports creating the account is the only one that
      does, and its record is the only one reachable. */
  lemma OneWinner(s: State, picks: seq<(ProcId, UserId)>, end: State, p: ProcId)
    requires Init(s) && Run(s, picks, end) && p in end.procs && end.procs[p].pc == Done(Created)
    requires !Contested(s, end.procs[p].email)
    ensures Account(end.store, end.procs[p].me, end.procs[p].email)
    ensures forall id :: Reachable(end.store, id, end.procs[p].email) ==> id == end.procs[p].me
    ensures forall q :: q in end.procs && q != p && end.procs[q].email == end.procs[p].email ==>
      end.procs[q].pc != Done(Created)
  {
    var e := end.procs[p].email;
    InitIsBase(s);
    RunKeepsBase(s, Legacy(s.store), picks, end);
    NobodyBreaks(s, picks, end, p);
    AtMostOneAccount(s, picks, end, e);
    forall q | q in end.procs && q != p && end.procs[q].email == e ensures end.procs[q].pc != Done(Created) {
      assert Apart(end.procs[q], end.procs[p]);
      if end.procs[q].pc == Done(Created) {
        NobodyBreaks(s, picks, end, q);
      }
    }
  }

  /** Restarts of a deployment from before e-mails, all with one e-mail: every bootstrap that finishes
      answers false, whichever adopted, and the old record is the e-mail's only account. */
  lemma BootstrapsAdoptOne(s: State, picks: seq<(ProcId, UserId)>, end: State, p: ProcId)
    requires Init(s) && Run(s, picks, end) && p in end.procs && end.procs[p].pc.Done?
    requires Legacy(s.store).Some? && !Exists(s.store, end.procs[p].email)
    requires OnlyAdopter(s, end.procs[p].email) && Bootstraps(s, end.procs[p].email)
    ensures end.procs[p].pc.outcome == Adopted || end.procs[p].pc.outcome == AlreadyExists
    ensures Account(end.store, Legacy(s.store).value, end.procs[p].email)
    ensures OnlyReaches(end.store, end.procs[p].email, Legacy(s.store).value)
  {
    var e := end.procs[p].email;
    RunKeepsCalls(s, picks, end);
    RunAdopts(s, picks, end, e);
    assert AdoptProc(end.store, Legacy(s.store).value, end.procs[p]);
    NobodyBreaks(s, picks, end, p);
    assert !Overwritten(s, e);
    FinishedHasAccount(s, picks, end, p);
  }

  /** Simultaneous cold starts converge: if the e-mail had no account, is neither contested nor
      overwritten, and all its calls have finished, it has exactly one, and one call made it, by
      creating it or by adopting the old record. */
  lemma ColdStartsConverge(s: State, picks: seq<(ProcId, UserId)>, end: State, p: ProcId)
    returns (id: UserId, q: ProcId)
    requires Init(s) && Run(s, picks, end) && p in end.procs && !Exists(s.store, end.procs[p].email)
    requires forall r :: r in end.procs && end.procs[r].email == end.procs[p].email ==> end.procs[r].pc.Done?
    requires !Contested(s, end.procs[p].email) && !Overwritten(s, end.procs[p].email)
    ensures Account(end.store, id, end.procs[p].email) && OnlyReaches(end.store, end.procs[p].email, id)
    ensures q in end.procs && end.procs[q].email == end.procs[p].email
    ensures (end.procs[q].pc == Done(Created) && id == end.procs[q].me) ||
            (end.procs[q].pc == Done(Adopted) && Legacy(s.store) == Some(id))
  {
    var e := end.procs[p].email;
    FinishedHasAccount(s, picks, end, p);
    id :| Account(end.store, id, e);
    AtMostOneAccount(s, picks, end, e);
    RunStaysSourced(s, picks, end);
    assert Reachable(s.store, id, e) ==> Exists(s.store, e);
    q :| q in end.procs && end.procs[q].email == e && Provides(end.procs[q], Legacy(s.store), id);
  }
}
