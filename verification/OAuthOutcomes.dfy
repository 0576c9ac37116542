/** What each OAuth endpoint answers and what exactly it changes, in terms of the consents and clients
    there have been. */
module OAuthOutcomes {
  import opened Wrappers
  import opened OAuthStore
  import opened OAuthLineage

  // ---- Clients -------------------------------------------------------------------------

  predicate IsActive(clients: map<ClientId, Client>, id: ClientId) {
    id in clients && clients[id].revokedAt.None?
  }

  /** Whether the client's last registration or removal among the steps left it active. */
  predicate ActiveAfter(clients: map<ClientId, Client>, steps: seq<Step>, id: ClientId)
    decreases |steps|
  {
    if steps == [] then IsActive(clients, id)
    else
      match steps[|steps| - 1]
      case Register(i, record) =>
        if i == id then record.revokedAt.None? else ActiveAfter(clients, steps[..|steps| - 1], id)
      case DropClient(i, _) => i != id && ActiveAfter(clients, steps[..|steps| - 1], id)
      case _ => ActiveAfter(clients, steps[..|steps| - 1], id)
  }

  lemma ClientsChange(sha: Digest, s: State, step: Step, id: ClientId)
    ensures IsActive(Next(sha, s, step).store.clients, id) <==>
      if step.Register? && step.id == id then step.record.revokedAt.None?
      else IsActive(s.store.clients, id) && !(step.DropClient? && step.id == id)
  {
  }

  lemma {:induction false} RunSplits(sha: Digest, s: State, steps: seq<Step>, end: State) returns (mid: State)
    requires steps != [] && Run(sha, s, steps, end)
    ensures Run(sha, s, steps[..|steps| - 1], mid)
    ensures Fresh(mid.past, steps[|steps| - 1]) && end == Next(sha, mid, steps[|steps| - 1])
    decreases |steps|
  {
    var n := |steps| - 1;
    if n == 0 {
      mid := s;
      assert Run(sha, Next(sha, s, steps[0]), steps[1..], end);
    } else {
      mid := RunSplits(sha, Next(sha, s, steps[0]), steps[1..], end);
      assert steps[1..][..n - 1] == steps[..n][1..] && steps[1..][n - 1] == steps[n] && steps[..n][0] == steps[0];
    }
  }

  /** Over every run a client is active exactly if its last registration or removal left it so. */
  lemma {:induction false} ClientsAreFollowed(sha: Digest, s: State, steps: seq<Step>, end: State, id: ClientId)
    requires Run(sha, s, steps, end)
    ensures IsActive(end.store.clients, id) <==> ActiveAfter(s.store.clients, steps, id)
    decreases |steps|
  {
    if steps != [] {
      var mid := RunSplits(sha, s, steps, end);
      ClientsAreFollowed(sha, s, steps[..|steps| - 1], mid, id);
      ClientsChange(sha, mid, steps[|steps| - 1], id);
    }
  }

  /** Removing reports whether there was an active client to remove. It keeps the client's record, so no
      row of any user goes. */
  lemma RemovalReports(s: Store, id: ClientId, now: int, user: UserId, row: Row)
    ensures RevokeClient(s, id, now).1 <==> IsActive(s.clients, id)
    ensures RowOf(RevokeClient(s, id, now).0, user, row) <==> RowOf(s, user, row)
  {
    var s' := RevokeClient(s, id, now).0;
    forall h ensures Grants(s', user, row.client, h) <==> Grants(s, user, row.client, h) {}
    assert forall h :: Grants(s, user, row.client, h) ==> RowFor(s', h) == RowFor(s, h);
  }

  /** Revoking a user's grants for a client leaves none of their tokens unrevoked, used ones included, and
      touches no other token; doing it again finds nothing. */
  lemma RevokingLeavesNone(s: Store, user: UserId, client: ClientId, now: int, h: Hash)
    requires h in s.refresh
    ensures
      var s', r := Marked(s, Revocable(s, user, client), now), s.refresh[h];
      && s'.refresh.Keys == s.refresh.Keys && Revocable(s', user, client) == {}
      && s'.refresh[h] ==
         if r.user == user && r.client == client && r.revokedAt.None? then r.(revokedAt := Some(now)) else r
  {
    var s' := Marked(s, Revocable(s, user, client), now);
    forall g: Hash ensures g !in Revocable(s', user, client) {}
  }

  /** A request that is not an active client's with its secret is refused, and changes nothing. */
  lemma StrangersAreRefused(s: Store, sha: Digest, step: Step)
    requires step.Exchange? || step.Rotate? || step.RevokeToken?
    ensures
      var refused := !IsActive(s.clients, step.client) || !step.secretOk;
      match step
      case Exchange(client, secretOk, code, redirectUri, verifier, a, r, now) =>
        var (s', out) := ExchangeCode(s, sha, client, secretOk, code, redirectUri, verifier, a, r, now);
        (out == Err(InvalidClient) <==> refused) && (refused ==> s' == s)
      case Rotate(client, secretOk, h, a, r, now) =>
        var (s', out) := RotateRefresh(s, client, secretOk, h, a, r, now);
        (out == Err(InvalidClient) <==> refused) && (refused ==> s' == s)
      case RevokeToken(client, secretOk, h, now) =>
        var (s', out) := Revoke(s, client, secretOk, h, now);
        (if refused then s' == s && out == Err(InvalidClient) else out == Ok(()))
      case _ => true
  {
  }

  /** An authorize request is taken exactly if its client is active and its redirect URI matches. */
  lemma AuthorizeTakes(s: Store, n: Nonce, p: Pending, redirectOk: bool)
    ensures
      var (s', taken) := Authorize(s, n, p, redirectOk);
      && (taken <==> IsActive(s.clients, p.client) && redirectOk)
      && s' == if taken then s.(pending := s.pending[n := p]) else s
  {
  }

  // ---- Requests and codes -----------------------------------------------------------------

  predicate Knows(s: State, step: Step)
    requires step.Exchange? || step.Rotate? || step.RevokeToken?
  {
    IsActive(s.store.clients, step.client) && step.secretOk
  }

  lemma TokensKeepPending(sha: Digest, s: State, step: Step)
    requires step.Exchange? || step.Rotate? || step.RevokeToken?
    ensures Next(sha, s, step).store.pending == s.store.pending
  {
  }

  lemma OthersKeepPending(sha: Digest, s: State, step: Step, n: Nonce)
    requires !step.Ask? && !step.Exchange? && !step.Rotate? && !step.RevokeToken?
    ensures n in Next(sha, s, step).store.pending <==>
      n in s.store.pending && !(step.Answer? && step.nonce == n) && step != Expire(PendingKey(n))
  {
  }

  /** A request waits until it is answered, whatever the answer, or expires. */
  lemma PendingFollows(sha: Digest, s: State, step: Step, n: Nonce)
    ensures n in Next(sha, s, step).store.pending <==>
      || (step.Ask? && step.nonce == n && step.redirectOk && IsActive(s.store.clients, step.pending.client))
      || (n in s.store.pending && !(step.Answer? && step.nonce == n) && step != Expire(PendingKey(n)))
  {
    if step.Exchange? || step.Rotate? || step.RevokeToken? {
      TokensKeepPending(sha, s, step);
    } else if step.Ask? {
      AuthorizeTakes(s.store, step.nonce, step.pending, step.redirectOk);
    } else {
      OthersKeepPending(sha, s, step, n);
    }
  }

  /** The answer gives a code exactly if it approves a waiting request. The code is then unspent and
      carries the request, the user and the time; otherwise no code changes. */
  lemma AnswerGives(s: Store, n: Nonce, user: UserId, action: Action, code: Code, now: int)
    ensures
      var (s', made) := OAuthStore.Consent(s, n, user, action, code, now);
      && (made.Some? <==> n in s.pending && action == Approve)
      && (made.None? ==> s'.codes == s.codes)
      && (made.Some? ==>
            && made.value == code && Unspent(s', code) && s'.codes[code].createdAt == now
            && CodeOf(s'.codes[code], Consented(n, user, s.pending[n]))
            && forall c :: c != code ==>
                 (c in s'.codes <==> c in s.codes) && (c in s.codes ==> s'.codes[c] == s.codes[c]))
  {
  }

  lemma ExchangeSpends(sha: Digest, s: State, step: Step, c: Code)
    requires step.Exchange?
    ensures Unspent(Next(sha, s, step).store, c) <==> Unspent(s.store, c) && !(step.code == c && Knows(s, step))
  {
  }

  lemma OthersKeepCodes(sha: Digest, s: State, step: Step, c: Code)
    requires IndexComplete(s.store) && !step.Exchange? && !step.Answer?
    ensures Unspent(Next(sha, s, step).store, c) <==> Unspent(s.store, c) && step != Expire(CodeKey(c))
  {
  }

  /** A code is unspent from its approval until an authenticated client, any client, first tries it,
      or it expires. */
  lemma CodesFollow(sha: Digest, s: State, step: Step, c: Code)
    requires Inv(sha, s) && Fresh(s.past, step)
    ensures Unspent(Next(sha, s, step).store, c) <==>
      || (step.Answer? && step.code == c && step.action == Approve && step.nonce in s.store.pending)
      || (Unspent(s.store, c) && !(step.Exchange? && step.code == c && Knows(s, step)) && step != Expire(CodeKey(c)))
  {
    if step.Exchange? {
      ExchangeSpends(sha, s, step, c);
    } else if step.Answer? {
      AnswerGives(s.store, step.nonce, step.user, step.action, step.code, step.now);
    } else {
      OthersKeepCodes(sha, s, step, c);
    }
  }

  // ---- Tokens -------------------------------------------------------------------------------

  /** The exchange of a code that succeeds. */
  ghost predicate Exchanges(sha: Digest, s: State, step: Step) {
    step.Exchange? && Knows(s, step) && step.code in s.past.consents && Unspent(s.store, step.code) &&
    var ask := s.past.consents[step.code].ask;
    ask.client == step.client && ask.redirectUri == step.redirectUri && ask.challenge == sha(step.verifier)
  }

  /** The consent a token comes from. */
  ghost predicate ComesFrom(past: History, h: Hash, client: ClientId) {
    h in past.root && past.root[h] in past.consents && past.consents[past.root[h]].ask.client == client
  }

  /** The rotation that succeeds: a live token, presented by the client it was given to. */
  ghost predicate Rotates(s: State, step: Step) {
    step.Rotate? && Knows(s, step) && Live(s.store, step.h) && ComesFrom(s.past, step.h, step.client)
  }

  lemma ExchangeAnswers(sha: Digest, s: State, step: Step)
    requires Inv(sha, s) && step.Exchange?
    ensures
      var out := ExchangeCode(s.store, sha, step.client, step.secretOk, step.code, step.redirectUri, step.verifier,
                              step.access, step.refresh, step.now).1;
      && (out.Ok? <==> Exchanges(sha, s, step))
      && (out.Ok? ==> out.value == Tokens(step.access, step.refresh, s.past.consents[step.code].ask.scope))
  {
  }

  lemma RotateAnswers(sha: Digest, s: State, step: Step)
    requires Inv(sha, s) && step.Rotate?
    ensures
      var out := RotateRefresh(s.store, step.client, step.secretOk, step.h, step.access, step.refresh, step.now).1;
      && (out.Ok? <==> Rotates(s, step))
      && (out.Ok? ==>
            out.value == Tokens(step.access, step.refresh, s.past.consents[s.past.root[step.h]].ask.scope))
  {
    if step.h in s.store.refresh {
      var r := s.store.refresh[step.h];
      assert CarriesConsent(s.past, step.h, r.client, r.user, r.scope);
    }
  }

  ghost predicate Mints(sha: Digest, s: State, step: Step) {
    Exchanges(sha, s, step) || Rotates(s, step)
  }

  /** The consent a successful request continues. */
  ghost function Continued(sha: Digest, s: State, step: Step): Consent
    requires Mints(sha, s, step)
  {
    if step.Exchange? then s.past.consents[step.code] else s.past.consents[s.past.root[step.h]]
  }

  /** What a successful exchange or rotation stores: a pair for the consent's user, client and scope,
      from now, the access token for an hour. */
  lemma PairsAreStored(sha: Digest, s: State, step: Step)
    requires Inv(sha, s) && Mints(sha, s, step) && Fresh(s.past, step)
    ensures
      var s', k := Next(sha, s, step).store, Continued(sha, s, step);
      && step.refresh in s'.refresh && step.access in s'.access
      && s'.refresh[step.refresh] == Refresh(k.ask.client, k.user, k.ask.scope, step.now, None, None)
      && s'.access[step.access] == Access(k.ask.client, k.user, k.ask.scope, step.now, step.now + 3600)
  {
    if step.Exchange? {
      ExchangeAnswers(sha, s, step);
    } else {
      RotateAnswers(sha, s, step);
      var r := s.store.refresh[step.h];
      assert CarriesConsent(s.past, step.h, r.client, r.user, r.scope);
    }
  }

  /** No token is of both kinds. */
  ghost predicate KindsApart(s: Store) {
    s.access.Keys !! s.refresh.Keys
  }

  lemma ExchangeGrows(s: Store, sha: Digest, step: Step)
    requires step.Exchange?
    ensures
      var s' := ExchangeCode(s, sha, step.client, step.secretOk, step.code, step.redirectUri, step.verifier,
                             step.access, step.refresh, step.now).0;
      s'.access.Keys <= s.access.Keys + {step.access} && s'.refresh.Keys <= s.refresh.Keys + {step.refresh}
  {
  }

  lemma RotateGrows(s: Store, step: Step)
    requires step.Rotate?
    ensures
      var s' := RotateRefresh(s, step.client, step.secretOk, step.h, step.access, step.refresh, step.now).0;
      s'.access.Keys <= s.access.Keys + {step.access} && s'.refresh.Keys <= s.refresh.Keys + {step.refresh}
  {
  }

  lemma QuieterStaysApart(s: Store, s': Store)
    requires KindsApart(s) && Quieter(s, s')
    ensures KindsApart(s')
  {
    forall h: Hash | h in s'.access.Keys ensures h in s.access.Keys {}
    forall h: Hash | h in s'.refresh.Keys ensures h in s.refresh.Keys {}
  }

  lemma AskingKeepsTokens(sha: Digest, s: State, step: Step)
    requires step.Ask? || step.Answer?
    ensures Next(sha, s, step).store.access == s.store.access && Next(sha, s, step).store.refresh == s.store.refresh
  {
  }

  lemma StepKeepsKinds(sha: Digest, s: State, step: Step)
    requires Inv(sha, s) && Fresh(s.past, step) && KindsApart(s.store)
    ensures KindsApart(Next(sha, s, step).store)
  {
    if step.Exchange? || step.Rotate? {
      StoredIsRooted(s);
      if step.Exchange? {
        ExchangeGrows(s.store, sha, step);
      } else {
        RotateGrows(s.store, step);
      }
    } else if IsQuiet(step) {
      QuietStepIsQuieter(sha, s, step);
      QuieterStaysApart(s.store, Next(sha, s, step).store);
    } else {
      AskingKeepsTokens(sha, s, step);
    }
  }

  lemma StoredIsRooted(s: State)
    requires RecordsCarryConsent(s)
    ensures s.store.access.Keys <= s.past.root.Keys && s.store.refresh.Keys <= s.past.root.Keys
  {
    forall h | h in s.store.access ensures h in s.past.root {
      assert CarriesConsent(s.past, h, s.store.access[h].client, s.store.access[h].user, s.store.access[h].scope);
    }
    forall h | h in s.store.refresh ensures h in s.past.root {
      assert CarriesConsent(s.past, h, s.store.refresh[h].client, s.store.refresh[h].user, s.store.refresh[h].scope);
    }
  }

  lemma {:induction false} RunKeepsKinds(sha: Digest, s: State, steps: seq<Step>, end: State)
    requires Inv(sha, s) && KindsApart(s.store) && Run(sha, s, steps, end)
    ensures Inv(sha, end) && KindsApart(end.store)
    decreases |steps|
  {
    if steps != [] {
      StepKeepsInv(sha, s, steps[0]);
      StepKeepsKinds(sha, s, steps[0]);
      RunKeepsKinds(sha, Next(sha, s, steps[0]), steps[1..], end);
    }
  }

  /** What ends a refresh token: being presented by any authenticated client, being revoked by its own,
      its user revoking the client's grants, or expiry. */
  ghost predicate Ends(s: State, step: Step, h: Hash) {
    match step
    case Rotate(_, _, x, _, _, _) => x == h && Knows(s, step)
    case RevokeToken(client, _, x, _) => x == h && Knows(s, step) && ComesFrom(s.past, h, client)
    case RevokeGrants(user, client, _) =>
      ComesFrom(s.past, h, client) && s.past.consents[s.past.root[h]].user == user
    case Expire(key) => key == RefreshKey(h)
    case _ => false
  }

  lemma RevokingFollows(sha: Digest, s: State, step: Step, h: Hash)
    requires Inv(sha, s) && KindsApart(s.store) && h in s.store.refresh && IsQuiet(step)
    ensures Live(Next(sha, s, step).store, h) <==> Live(s.store, h) && !Ends(s, step, h)
  {
    var r := s.store.refresh[h];
    assert CarriesConsent(s.past, h, r.client, r.user, r.scope);
    assert h !in s.store.access by { assert h in s.store.refresh.Keys; }
  }

  lemma MintingFollows(sha: Digest, s: State, step: Step, h: Hash)
    requires Inv(sha, s) && Fresh(s.past, step) && (step.Exchange? || step.Rotate?)
    ensures Live(Next(sha, s, step).store, h) <==>
      (Mints(sha, s, step) && step.refresh == h) || (Live(s.store, h) && !Ends(s, step, h))
  {
    if step.Exchange? {
      ExchangeAnswers(sha, s, step);
    } else {
      RotateAnswers(sha, s, step);
    }
    if h in s.store.refresh {
      var r := s.store.refresh[h];
      assert CarriesConsent(s.past, h, r.client, r.user, r.scope);
    }
  }

  /** A refresh token is live from its minting until one of these. */
  lemma RefreshFollows(sha: Digest, s: State, step: Step, h: Hash)
    requires Inv(sha, s) && KindsApart(s.store) && Fresh(s.past, step)
    ensures Live(Next(sha, s, step).store, h) <==>
      (Mints(sha, s, step) && step.refresh == h) || (Live(s.store, h) && !Ends(s, step, h))
  {
    if step.Exchange? || step.Rotate? {
      MintingFollows(sha, s, step, h);
    } else if IsQuiet(step) {
      if h in s.store.refresh {
        RevokingFollows(sha, s, step, h);
      } else {
        QuietStepIsQuieter(sha, s, step);
      }
    }
  }

  lemma MintingAdds(sha: Digest, s: State, step: Step, h: Hash)
    requires Inv(sha, s) && (step.Exchange? || step.Rotate?)
    ensures h in Next(sha, s, step).store.access <==>
      (Mints(sha, s, step) && step.access == h) || h in s.store.access
  {
    if step.Exchange? {
      ExchangeAnswers(sha, s, step);
    } else {
      RotateAnswers(sha, s, step);
    }
  }

  lemma RevokingDrops(sha: Digest, s: State, step: Step, h: Hash)
    requires Inv(sha, s) && step.RevokeToken?
    ensures h in Next(sha, s, step).store.access <==>
      h in s.store.access && !(step.h == h && Knows(s, step) && ComesFrom(s.past, h, step.client))
  {
    if h in s.store.access {
      var r := s.store.access[h];
      assert CarriesConsent(s.past, h, r.client, r.user, r.scope);
    }
  }

  lemma OthersKeepAccess(sha: Digest, s: State, step: Step, h: Hash)
    requires IsQuiet(step) && !step.RevokeToken?
    ensures h in Next(sha, s, step).store.access <==> h in s.store.access && step != Expire(AccessKey(h))
  {
  }

  /** An access token is stored from its minting until its own client revokes it or it expires. */
  lemma AccessFollows(sha: Digest, s: State, step: Step, h: Hash)
    requires Inv(sha, s) && Fresh(s.past, step)
    ensures h in Next(sha, s, step).store.access <==>
      || (Mints(sha, s, step) && step.access == h)
      || (h in s.store.access && step != Expire(AccessKey(h)) &&
          !(step.RevokeToken? && step.h == h && Knows(s, step) && ComesFrom(s.past, h, step.client)))
  {
    if step.Exchange? || step.Rotate? {
      MintingAdds(sha, s, step, h);
    } else if step.RevokeToken? {
      RevokingDrops(sha, s, step, h);
    } else if step.Ask? || step.Answer? {
      AskingKeepsTokens(sha, s, step);
    } else {
      OthersKeepAccess(sha, s, step, h);
    }
  }

  // ---- What a user is shown ----------------------------------------------------------------

  /** The row of this live token: the consent it comes from, under its client's name, from when it was
      given to thirty days after. */
  ghost predicate RowIs(s: State, user: UserId, row: Row, h: Hash) {
    && Live(s.store, h) && h in s.past.root && s.past.root[h] in s.past.consents
    && var consent, granted := s.past.consents[s.past.root[h]], s.store.refresh[h].createdAt;
       && consent.user == user && consent.ask.client in s.store.clients
       && row == Row(consent.ask.client, s.store.clients[consent.ask.client].name, consent.ask.scope, granted,
                     granted + 2592000)
  }

  lemma GrantHasRow(s: State, user: UserId, client: ClientId, h: Hash)
    requires RecordsCarryConsent(s) && Grants(s.store, user, client, h)
    ensures RowIs(s, user, RowFor(s.store, h), h)
  {
    var r := s.store.refresh[h];
    assert CarriesConsent(s.past, h, r.client, r.user, r.scope);
  }

  /** In every run each row a user is shown is of something that user approved, with that scope. */
  lemma RowsAreConsents(sha: Digest, s: State, steps: seq<Step>, end: State, user: UserId, rows: seq<Row>, i: nat)
    requires Init(s) && Run(sha, s, steps, end) && IsListing(end.store, user, rows) && i < |rows|
    ensures exists h :: RowIs(end, user, rows[i], h)
  {
    assert RowOf(end.store, user, rows[i]);
    var h := ListedToken(end.store, user, rows[i]);
    FreshIsInv(sha, s);
    RunKeepsKinds(sha, s, steps, end);
    GrantHasRow(end, user, rows[i].client, h);
  }

  lemma ListedToken(s: Store, user: UserId, row: Row) returns (h: Hash)
    requires RowOf(s, user, row)
    ensures Grants(s, user, row.client, h) && row == RowFor(s, h)
  {
    h :| h in s.refresh.Keys && Grants(s, user, row.client, h) && row == RowFor(s, h);
  }

  // ---- For good ------------------------------------------------------------------------------

  lemma FreshIsInv(sha: Digest, s: State)
    requires Init(s)
    ensures Inv(sha, s) && KindsApart(s.store)
  {
  }

  lemma RevokingEnds(sha: Digest, s: State, revoke: Step)
    requires Inv(sha, s) && KindsApart(s.store) && revoke.RevokeToken? && Knows(s, revoke)
    requires revoke.h in s.store.refresh && s.store.refresh[revoke.h].client == revoke.client
    ensures revoke.h in s.past.root && !Live(Next(sha, s, revoke).store, revoke.h)
  {
    var r := s.store.refresh[revoke.h];
    assert CarriesConsent(s.past, revoke.h, r.client, r.user, r.scope);
    RevokingFollows(sha, s, revoke, revoke.h);
  }

  /** In every run, once its client has revoked a refresh token it never mints again, whoever presents
      it and whatever happens in between. */
  lemma RevokedTokenNeverMints(sha: Digest, init: State, before: seq<Step>, s: State, revoke: Step,
                               steps: seq<Step>, end: State, later: Step)
    requires Init(init) && Run(sha, init, before, s)
    requires revoke.RevokeToken? && Knows(s, revoke) && revoke.h in s.store.refresh
    requires s.store.refresh[revoke.h].client == revoke.client
    requires Run(sha, Next(sha, s, revoke), steps, end) && later.Rotate? && later.h == revoke.h
    ensures RotateRefresh(end.store, later.client, later.secretOk, later.h, later.access, later.refresh,
                          later.now).1.Err?
  {
    FreshIsInv(sha, init);
    RunKeepsKinds(sha, init, before, s);
    RevokingEnds(sha, s, revoke);
    StepKeepsInv(sha, s, revoke);
    DeadStaysDead(sha, Next(sha, s, revoke), steps, end, revoke.h, 0);
  }

  /** Once a client is removed, and until it is registered again, it is refused everywhere. */
  lemma RemovedClientIsRefused(sha: Digest, s: State, id: ClientId, now: int, steps: seq<Step>, end: State, later: Step)
    requires Run(sha, Next(sha, s, DropClient(id, now)), steps, end)
    requires forall i :: 0 <= i < |steps| && steps[i].Register? ==> steps[i].id != id
    requires (later.Exchange? || later.Rotate? || later.RevokeToken?) && later.client == id
    ensures !Knows(end, later)
    ensures forall n: Nonce, p: Pending, ok :: p.client == id ==> !Authorize(end.store, n, p, ok).1
  {
    var s' := Next(sha, s, DropClient(id, now));
    StaysRemoved(s'.store.clients, steps, id);
    ClientsAreFollowed(sha, s', steps, end, id);
  }

  lemma {:induction false} StaysRemoved(clients: map<ClientId, Client>, steps: seq<Step>, id: ClientId)
    requires !IsActive(clients, id)
    requires forall i :: 0 <= i < |steps| && steps[i].Register? ==> steps[i].id != id
    ensures !ActiveAfter(clients, steps, id)
    decreases |steps|
  {
    if steps != [] {
      StaysRemoved(clients, steps[..|steps| - 1], id);
    }
  }
}
