/** Whole runs of the OAuth endpoints: where every token comes from. */
module OAuthLineage {
  import opened Wrappers
  import opened OAuthStore

  datatype Consent = Consented(nonce: Nonce, user: UserId, ask: Pending)

  /** What a signed-in user answered. */
  datatype Said = Said(user: UserId, action: Action)

  datatype Origin = FromCode(code: Code, verifier: string) | FromRefresh(parent: Hash)

  datatype Mint = Mint(origin: Origin, client: ClientId, access: Hash, refresh: Hash)

  /** Everything that ever happened: no endpoint reads this. */
  datatype History = History(
    asked: map<Nonce, Pending>,
    answered: map<Nonce, Said>,
    consents: map<Code, Consent>,
    mints: seq<Mint>,
    root: map<Hash, Code>)

  datatype State = State(store: Store, past: History)

  datatype Key = PendingKey(n: Nonce) | CodeKey(c: Code) | RefreshKey(h: Hash) | AccessKey(h: Hash)

  datatype Step =
    | Register(id: ClientId, record: Client)
    | DropClient(id: ClientId, now: int)
    | Ask(nonce: Nonce, pending: Pending, redirectOk: bool)
    | Answer(nonce: Nonce, user: UserId, action: Action, code: Code, now: int)
    | Exchange(client: ClientId, secretOk: bool, code: Code, redirectUri: string, verifier: string,
               access: Hash, refresh: Hash, now: int)
    | Rotate(client: ClientId, secretOk: bool, h: Hash, access: Hash, refresh: Hash, now: int)
    | RevokeToken(client: ClientId, secretOk: bool, h: Hash, now: int)
    | RevokeGrants(user: UserId, client: ClientId, now: int)
    | Expire(key: Key)

  /** Generated nonces, codes and tokens are new. */
  ghost predicate Fresh(past: History, step: Step) {
    match step
    case Ask(n, _, _) => n !in past.asked
    case Answer(_, _, _, code, _) => code !in past.consents
    case Exchange(_, _, _, _, _, a, r, _) => a !in past.root && r !in past.root && a != r
    case Rotate(_, _, _, a, r, _) => a !in past.root && r !in past.root && a != r
    case _ => true
  }

  function Rooted(past: History, m: Mint, c: Code): History {
    past.(mints := past.mints + [m], root := past.root[m.access := c][m.refresh := c])
  }

  function Expired(s: Store, key: Key): Store {
    match key
    case PendingKey(n) => s.(pending := s.pending - {n})
    case CodeKey(c) => s.(codes := s.codes - {c})
    case RefreshKey(h) => s.(refresh := s.refresh - {h})
    case AccessKey(h) => s.(access := s.access - {h})
  }

  function Next(sha: Digest, s: State, step: Step): State {
    match step
    case Register(id, record) => s.(store := s.store.(clients := s.store.clients[id := record]))
    case DropClient(id, now) => s.(store := RevokeClient(s.store, id, now).0)
    case Ask(n, p, redirectOk) =>
      var (store', ok) := Authorize(s.store, n, p, redirectOk);
      State(store', if ok then s.past.(asked := s.past.asked[n := p]) else s.past)
    case Answer(n, user, action, code, now) =>
      var (store', made) := OAuthStore.Consent(s.store, n, user, action, code, now);
      if n !in s.store.pending then State(store', s.past)
      else
        var heard := s.past.(answered := s.past.answered[n := Said(user, action)]);
        State(store',
              if made.None? then heard
              else heard.(consents := heard.consents[code := Consented(n, user, s.store.pending[n])]))
    case Exchange(client, secretOk, code, redirectUri, verifier, a, r, now) =>
      var (store', out) := ExchangeCode(s.store, sha, client, secretOk, code, redirectUri, verifier, a, r, now);
      State(store', if out.Ok? then Rooted(s.past, Mint(FromCode(code, verifier), client, a, r), code) else s.past)
    case Rotate(client, secretOk, h, a, r, now) =>
      var (store', out) := RotateRefresh(s.store, client, secretOk, h, a, r, now);
      State(store',
            if out.Ok? && h in s.past.root then Rooted(s.past, Mint(FromRefresh(h), client, a, r), s.past.root[h])
            else s.past)
    case RevokeToken(client, secretOk, h, now) => s.(store := Revoke(s.store, client, secretOk, h, now).0)
    case RevokeGrants(user, client, now) => s.(store := Marked(s.store, Revocable(s.store, user, client), now))
    case Expire(key) => s.(store := Expired(s.store, key))
  }

  // ---- What holds of every reachable state ------------------------------------------

  ghost predicate PendingOk(s: State) {
    && (forall n :: n in s.store.pending ==> n in s.past.asked && s.past.asked[n] == s.store.pending[n])
    && (forall n :: n in s.past.answered ==> n in s.past.asked && n !in s.store.pending)
    && (forall n :: n in s.past.answered && s.past.answered[n].action.Approve? ==> HasConsent(s.past, n))
    && (forall c :: c in s.past.consents ==> ConsentOk(s, s.past.consents[c]))
    && (forall c, d :: c in s.past.consents && d in s.past.consents && c != d ==>
          s.past.consents[c].nonce != s.past.consents[d].nonce)
  }

  ghost predicate ConsentOk(s: State, c: Consent) {
    && c.nonce in s.past.asked && s.past.asked[c.nonce] == c.ask
    && c.nonce in s.past.answered && s.past.answered[c.nonce] == Said(c.user, Approve)
  }

  /** A code was given out for the request. */
  ghost predicate HasConsent(past: History, n: Nonce) {
    exists c :: c in past.consents && past.consents[c].nonce == n
  }

  ghost predicate CodesOk(s: State) {
    forall c :: c in s.store.codes ==> c in s.past.consents && CodeOf(s.store.codes[c], s.past.consents[c])
  }

  ghost predicate CodeOf(r: CodeRecord, c: Consent) {
    && r.client == c.ask.client && r.user == c.user && r.scope == c.ask.scope
    && r.redirectUri == c.ask.redirectUri && r.challenge == c.ask.challenge
  }

  ghost predicate Unspent(s: Store, c: Code) {
    c in s.codes && s.codes[c].usedAt.None?
  }

  ghost predicate Live(s: Store, h: Hash) {
    h in s.refresh && Active(s.refresh[h])
  }

  /** The record of a token carries the user, client and scope of the consent at its root. */
  ghost predicate CarriesConsent(past: History, h: Hash, client: ClientId, user: UserId, scope: string) {
    && h in past.root && past.root[h] in past.consents
    && var c := past.consents[past.root[h]]; client == c.ask.client && user == c.user && scope == c.ask.scope
  }

  ghost predicate RecordsCarryConsent(s: State) {
    && (forall h :: h in s.store.refresh ==>
          CarriesConsent(s.past, h, s.store.refresh[h].client, s.store.refresh[h].user, s.store.refresh[h].scope))
    && (forall h :: h in s.store.access ==>
          CarriesConsent(s.past, h, s.store.access[h].client, s.store.access[h].user, s.store.access[h].scope))
  }

  ghost predicate SameRoot(past: History, g: Hash, h: Hash) {
    g in past.root && h in past.root && past.root[g] == past.root[h]
  }

  /** Of the refresh tokens rooted in one code, at most one is unused and unrevoked. */
  ghost predicate OneLivePerCode(s: State) {
    forall g, h :: (Live(s.store, g) && Live(s.store, h) && SameRoot(s.past, g, h)) ==> g == h
  }

  /** No two mints come from the same code or the same refresh token. */
  ghost predicate MintsDistinct(mints: seq<Mint>) {
    forall i, j :: 0 <= i < j < |mints| ==> Differ(mints[i].origin, mints[j].origin)
  }

  ghost predicate Differ(a: Origin, b: Origin) {
    && (a.FromCode? && b.FromCode? ==> a.code != b.code)
    && (a.FromRefresh? && b.FromRefresh? ==> a.parent != b.parent)
  }

  /** A mint from a code had a verifier matching the challenge of its consent; a mint from a
      refresh token continues that token's code. Both went to the client of the consent. */
  ghost predicate MintOk(sha: Digest, past: History, m: Mint) {
    && m.access in past.root && m.refresh in past.root && past.root[m.access] == past.root[m.refresh]
    && past.root[m.refresh] in past.consents
    && m.client == past.consents[past.root[m.refresh]].ask.client
    && match m.origin
       case FromCode(code, verifier) =>
         past.root[m.refresh] == code && sha(verifier) == past.consents[code].ask.challenge
       case FromRefresh(parent) => parent in past.root && past.root[parent] == past.root[m.refresh]
  }

  ghost predicate Exchanged(past: History, c: Code) {
    exists i :: 0 <= i < |past.mints| && past.mints[i].origin.FromCode? && past.mints[i].origin.code == c
  }

  /** Every rooted token leads back to an exchange of its code. */
  ghost predicate RootsExchanged(past: History) {
    forall h :: h in past.root ==> Exchanged(past, past.root[h])
  }

  /** What has minted cannot mint again. */
  ghost predicate Spent(s: State, o: Origin) {
    match o
    case FromCode(c, _) => c in s.past.consents && !Unspent(s.store, c)
    case FromRefresh(h) => h in s.past.root && !Live(s.store, h)
  }

  ghost predicate MintsOk(sha: Digest, s: State) {
    && MintsDistinct(s.past.mints) && RootsExchanged(s.past)
    && (forall i :: 0 <= i < |s.past.mints| ==>
        MintOk(sha, s.past, s.past.mints[i]) && Spent(s, s.past.mints[i].origin))
  }

  /** Index entries are of tokens of that user's consents. */
  ghost predicate IndexTraced(s: State) {
    forall u, h :: h in Indexed(s.store, u) ==>
      h in s.past.root && s.past.root[h] in s.past.consents && s.past.consents[s.past.root[h]].user == u
  }

  ghost predicate Inv(sha: Digest, s: State) {
    && PendingOk(s) && CodesOk(s) && RecordsCarryConsent(s) && OneLivePerCode(s) && MintsOk(sha, s)
    && IndexComplete(s.store) && IndexTraced(s)
  }

  // ---- Each step keeps it ----------------------------------------------------------

  /** Records may go, codes may be spent, tokens may stop being live; nothing else happens. */
  ghost predicate Quieter(s: Store, s': Store) {
    && (forall n :: n in s'.pending ==> n in s.pending && s'.pending[n] == s.pending[n])
    && (forall c :: c in s'.codes ==> c in s.codes && s'.codes[c].(usedAt := s.codes[c].usedAt) == s.codes[c])
    && (forall c :: Unspent(s', c) ==> Unspent(s, c))
    && (forall h :: h in s'.refresh ==> h in s.refresh && SameGrant(s.refresh[h], s'.refresh[h]))
    && (forall h :: Live(s', h) ==> Live(s, h))
    && (forall h :: h in s'.access ==> h in s.access && s'.access[h] == s.access[h])
    && (forall u :: Indexed(s', u) == Indexed(s, u))
  }

  predicate SameGrant(a: Refresh, b: Refresh) {
    a.client == b.client && a.user == b.user && a.scope == b.scope && a.createdAt == b.createdAt
  }

  lemma QuieterKeepsAsked(s: State, store: Store)
    requires PendingOk(s) && CodesOk(s) && Quieter(s.store, store)
    ensures PendingOk(State(store, s.past)) && CodesOk(State(store, s.past))
  {
    assert forall c :: ConsentOk(s, c) ==> ConsentOk(State(store, s.past), c);
  }

  lemma QuieterKeepsRecords(s: State, store: Store)
    requires RecordsCarryConsent(s) && OneLivePerCode(s) && Quieter(s.store, store)
    ensures RecordsCarryConsent(State(store, s.past)) && OneLivePerCode(State(store, s.past))
  {
    assert forall g, h :: Live(store, g) && Live(store, h) && SameRoot(s.past, g, h) ==>
      Live(s.store, g) && Live(s.store, h);
  }

  lemma QuieterKeepsMints(sha: Digest, s: State, store: Store)
    requires MintsOk(sha, s) && Quieter(s.store, store)
    ensures MintsOk(sha, State(store, s.past))
  {
    assert forall o :: Spent(s, o) ==> Spent(State(store, s.past), o);
  }

  lemma QuieterKeepsInv(sha: Digest, s: State, store: Store)
    requires Inv(sha, s) && Quieter(s.store, store)
    ensures Inv(sha, State(store, s.past))
  {
    QuieterKeepsAsked(s, store);
    QuieterKeepsRecords(s, store);
    QuieterKeepsMints(sha, s, store);
  }

  lemma MarkedIsQuieter(s: Store, hashes: set<Hash>, now: int)
    ensures Quieter(s, Marked(s, hashes, now))
  {
    var s' := Marked(s, hashes, now);
    assert forall u :: Indexed(s', u) == Indexed(s, u);
  }

  lemma ExpiredIsQuieter(s: Store, key: Key)
    ensures Quieter(s, Expired(s, key))
  {
    assert forall u :: Indexed(Expired(s, key), u) == Indexed(s, u);
  }

  lemma RevokeIsQuieter(s: Store, client: ClientId, secretOk: bool, h: Hash, now: int)
    requires IndexComplete(s)
    ensures Quieter(s, Revoke(s, client, secretOk, h, now).0)
  {
    var s' := Revoke(s, client, secretOk, h, now).0;
    if s' != s && h in s.refresh {
      assert forall u :: Indexed(s', u) == Indexed(s, u);
    }
  }

  lemma ClientsAreQuiet(s: Store, clients: map<ClientId, Client>)
    ensures Quieter(s, s.(clients := clients))
  {
    assert forall u :: Indexed(s.(clients := clients), u) == Indexed(s, u);
  }

  predicate IsQuiet(step: Step) {
    step.Register? || step.DropClient? || step.RevokeToken? || step.RevokeGrants? || step.Expire?
  }

  lemma QuietStepIsQuieter(sha: Digest, s: State, step: Step)
    requires IndexComplete(s.store) && IsQuiet(step)
    ensures Quieter(s.store, Next(sha, s, step).store) && Next(sha, s, step).past == s.past
  {
    match step
    case RevokeToken(client, secretOk, h, now) => RevokeIsQuieter(s.store, client, secretOk, h, now);
    case RevokeGrants(user, client, now) => MarkedIsQuieter(s.store, Revocable(s.store, user, client), now);
    case Expire(key) => ExpiredIsQuieter(s.store, key);
    case _ => ClientsAreQuiet(s.store, Next(sha, s, step).store.clients);
  }

  lemma QuietKeepsInv(sha: Digest, s: State, step: Step)
    requires Inv(sha, s) && IsQuiet(step)
    ensures Inv(sha, Next(sha, s, step))
  {
    var s' := Next(sha, s, step);
    QuietStepIsQuieter(sha, s, step);
    QuieterKeepsInv(sha, s, s'.store);
    assert s' == State(s'.store, s.past);
  }

  /** Tokens untouched, consents only added. */
  ghost predicate SameTokens(s: State, s': State) {
    && s'.store.refresh == s.store.refresh && s'.store.access == s.store.access
    && s'.store.refreshByUser == s.store.refreshByUser
    && s'.past.root == s.past.root && s'.past.mints == s.past.mints
    && (forall c :: c in s.past.consents ==> c in s'.past.consents && s'.past.consents[c] == s.past.consents[c])
  }

  lemma SameTokensKeep(sha: Digest, s: State, s': State)
    requires Inv(sha, s) && SameTokens(s, s')
    ensures RecordsCarryConsent(s') && OneLivePerCode(s') && IndexComplete(s'.store) && IndexTraced(s')
    ensures MintsDistinct(s'.past.mints) && RootsExchanged(s'.past)
    ensures forall i :: 0 <= i < |s'.past.mints| ==> MintOk(sha, s'.past, s'.past.mints[i])
  {
    forall h, k, u, t | CarriesConsent(s.past, h, k, u, t) ensures CarriesConsent(s'.past, h, k, u, t) {}
    assert forall h :: Live(s'.store, h) <==> Live(s.store, h);
    assert forall g, h :: SameRoot(s'.past, g, h) <==> SameRoot(s.past, g, h);
    assert forall u :: Indexed(s'.store, u) == Indexed(s.store, u);
    assert forall c :: Exchanged(s.past, c) ==> Exchanged(s'.past, c);
    assert forall m :: MintOk(sha, s.past, m) ==> MintOk(sha, s'.past, m);
  }

  lemma AskKeepsInv(sha: Digest, s: State, n: Nonce, p: Pending, redirectOk: bool)
    requires Inv(sha, s) && n !in s.past.asked
    ensures Inv(sha, Next(sha, s, Ask(n, p, redirectOk)))
  {
    var s' := Next(sha, s, Ask(n, p, redirectOk));
    SameTokensKeep(sha, s, s');
    assert forall c :: c in s.past.consents ==> ConsentOk(s, s.past.consents[c]) && ConsentOk(s', s.past.consents[c]);
    assert forall o :: Spent(s, o) ==> Spent(s', o);
  }

  lemma AnswerKeepsInv(sha: Digest, s: State, n: Nonce, user: UserId, action: Action, code: Code, now: int)
    requires Inv(sha, s) && code !in s.past.consents
    ensures Inv(sha, Next(sha, s, Answer(n, user, action, code, now)))
  {
    var consumed := ConsumePending(s.store, n).0;
    QuieterKeepsInv(sha, s, consumed);
    if n in s.store.pending && action.Approve? {
      ApprovalKeepsInv(sha, State(consumed, s.past), n, user, s.store.pending[n], code, now);
    } else if n in s.store.pending {
      RefusalKeepsInv(sha, State(consumed, s.past), n, Said(user, action));
    }
  }

  lemma RefusalKeepsInv(sha: Digest, s: State, n: Nonce, said: Said)
    requires Inv(sha, s) && n in s.past.asked && n !in s.past.answered && n !in s.store.pending && !said.action.Approve?
    ensures Inv(sha, s.(past := s.past.(answered := s.past.answered[n := said])))
  {
    var s' := s.(past := s.past.(answered := s.past.answered[n := said]));
    SameTokensKeep(sha, s, s');
    assert forall c :: c in s.past.consents ==> ConsentOk(s, s.past.consents[c]) && ConsentOk(s', s.past.consents[c]);
    assert forall m :: HasConsent(s.past, m) ==> HasConsent(s'.past, m);
    assert forall o :: Spent(s, o) ==> Spent(s', o);
  }

  function Approved(s: State, n: Nonce, user: UserId, p: Pending, code: Code, now: int): State {
    var record := CodeRecord(p.client, user, p.redirectUri, p.scope, p.challenge, now, None);
    State(s.store.(codes := s.store.codes[code := record]),
          s.past.(answered := s.past.answered[n := Said(user, Approve)],
                  consents := s.past.consents[code := Consented(n, user, p)]))
  }

  lemma ApprovalKeepsPending(s: State, n: Nonce, user: UserId, p: Pending, code: Code, now: int)
    requires PendingOk(s) && code !in s.past.consents && n in s.past.asked && s.past.asked[n] == p
    requires n !in s.store.pending && n !in s.past.answered
    ensures PendingOk(Approved(s, n, user, p, code, now))
  {
    var s' := Approved(s, n, user, p, code, now);
    forall c | c in s'.past.consents ensures ConsentOk(s', s'.past.consents[c]) {
      assert c != code ==> ConsentOk(s, s.past.consents[c]);
    }
    assert s'.past.consents[code].nonce == n;
    forall m | HasConsent(s.past, m) ensures HasConsent(s'.past, m) {
      var c :| c in s.past.consents && s.past.consents[c].nonce == m;
      assert s'.past.consents[c].nonce == m;
    }
  }

  lemma ApprovalKeepsInv(sha: Digest, s: State, n: Nonce, user: UserId, p: Pending, code: Code, now: int)
    requires Inv(sha, s) && code !in s.past.consents && n in s.past.asked && s.past.asked[n] == p
    requires n !in s.store.pending && n !in s.past.answered
    ensures Inv(sha, Approved(s, n, user, p, code, now))
  {
    var s' := Approved(s, n, user, p, code, now);
    ApprovalKeepsPending(s, n, user, p, code, now);
    SameTokensKeep(sha, s, s');
    assert forall o :: Spent(s, o) ==> Spent(s', o);
  }

  /** A new pair rooted in code `c`, whose origin is already spent. */
  function WithPair(s: State, m: Mint, c: Code, now: int): State
    requires c in s.past.consents
  {
    var k := s.past.consents[c];
    State(Minted(s.store, k.ask.client, k.user, k.ask.scope, m.access, m.refresh, now), Rooted(s.past, m, c))
  }

  ghost predicate MayMint(sha: Digest, s: State, m: Mint, c: Code) {
    && c in s.past.consents && m.access !in s.past.root && m.refresh !in s.past.root && m.access != m.refresh
    && m.client == s.past.consents[c].ask.client
    && Spent(s, m.origin)
    && (forall h :: Live(s.store, h) && h in s.past.root ==> s.past.root[h] != c)
    && (forall i :: 0 <= i < |s.past.mints| ==> Differ(s.past.mints[i].origin, m.origin))
    && match m.origin
       case FromCode(code, verifier) => code == c && sha(verifier) == s.past.consents[c].ask.challenge
       case FromRefresh(parent) => parent in s.past.root && s.past.root[parent] == c
  }

  lemma PairKeepsRoots(sha: Digest, s: State, m: Mint, c: Code, now: int)
    requires Inv(sha, s) && MayMint(sha, s, m, c)
    ensures RootsExchanged(WithPair(s, m, c, now).past)
  {
    var past := WithPair(s, m, c, now).past;
    assert past.mints[|s.past.mints|] == m;
    forall d | Exchanged(s.past, d) ensures Exchanged(past, d) {
      var i :| 0 <= i < |s.past.mints| && s.past.mints[i].origin.FromCode? && s.past.mints[i].origin.code == d;
      assert past.mints[i] == s.past.mints[i];
    }
    assert Exchanged(past, c) by {
      if m.origin.FromRefresh? { assert Exchanged(s.past, s.past.root[m.origin.parent]); }
    }
  }

  lemma PairKeepsMints(sha: Digest, s: State, m: Mint, c: Code, now: int)
    requires Inv(sha, s) && MayMint(sha, s, m, c)
    ensures MintsOk(sha, WithPair(s, m, c, now))
  {
    var s' := WithPair(s, m, c, now);
    assert s'.past.mints[|s.past.mints|] == m;
    forall x | MintOk(sha, s.past, x) ensures MintOk(sha, s'.past, x) {}
    forall o | Spent(s, o) ensures Spent(s', o) {}
    PairKeepsRoots(sha, s, m, c, now);
    forall i | 0 <= i < |s'.past.mints|
      ensures MintOk(sha, s'.past, s'.past.mints[i]) && Spent(s', s'.past.mints[i].origin)
    {
      if i < |s.past.mints| { assert s'.past.mints[i] == s.past.mints[i]; }
    }
  }

  lemma PairKeepsRecords(sha: Digest, s: State, m: Mint, c: Code, now: int)
    requires RecordsCarryConsent(s) && MayMint(sha, s, m, c)
    ensures RecordsCarryConsent(WithPair(s, m, c, now))
  {
    var s' := WithPair(s, m, c, now);
    forall h, k, u, t | CarriesConsent(s.past, h, k, u, t) ensures CarriesConsent(s'.past, h, k, u, t) {}
    forall h | h in s'.store.refresh
      ensures CarriesConsent(s'.past, h, s'.store.refresh[h].client, s'.store.refresh[h].user,
                             s'.store.refresh[h].scope)
    {
      assert h != m.refresh ==>
        CarriesConsent(s.past, h, s.store.refresh[h].client, s.store.refresh[h].user, s.store.refresh[h].scope);
    }
    forall h | h in s'.store.access
      ensures CarriesConsent(s'.past, h, s'.store.access[h].client, s'.store.access[h].user, s'.store.access[h].scope)
    {
      assert h != m.access ==>
        CarriesConsent(s.past, h, s.store.access[h].client, s.store.access[h].user, s.store.access[h].scope);
    }
  }

  lemma PairKeepsIndex(sha: Digest, s: State, m: Mint, c: Code, now: int)
    requires IndexComplete(s.store) && IndexTraced(s) && MayMint(sha, s, m, c)
    ensures IndexComplete(WithPair(s, m, c, now).store) && IndexTraced(WithPair(s, m, c, now))
  {
    var s' := WithPair(s, m, c, now);
    assert forall u ::
      Indexed(s'.store, u) == Indexed(s.store, u) + if u == s.past.consents[c].user then {m.refresh} else {};
  }

  lemma PairKeepsOneLive(sha: Digest, s: State, m: Mint, c: Code, now: int)
    requires Inv(sha, s) && MayMint(sha, s, m, c)
    ensures OneLivePerCode(WithPair(s, m, c, now))
  {
    var s' := WithPair(s, m, c, now);
    forall g, h | Live(s'.store, g) && Live(s'.store, h) && SameRoot(s'.past, g, h) ensures g == h {
      assert g != m.refresh ==> Live(s.store, g) && g in s.past.root;
      assert h != m.refresh ==> Live(s.store, h) && h in s.past.root;
      assert g != m.refresh && h != m.refresh ==> SameRoot(s.past, g, h);
    }
  }

  lemma PairKeepsInv(sha: Digest, s: State, m: Mint, c: Code, now: int)
    requires Inv(sha, s) && MayMint(sha, s, m, c)
    ensures Inv(sha, WithPair(s, m, c, now))
  {
    var s' := WithPair(s, m, c, now);
    assert PendingOk(s') && CodesOk(s') by { assert forall k :: ConsentOk(s, k) ==> ConsentOk(s', k); }
    PairKeepsRecords(sha, s, m, c, now);
    PairKeepsIndex(sha, s, m, c, now);
    PairKeepsOneLive(sha, s, m, c, now);
    PairKeepsMints(sha, s, m, c, now);
  }

  lemma CodeSpentIsQuieter(s: Store, c: Code, now: int)
    ensures Quieter(s, ConsumeCode(s, c, now).0) && !Unspent(ConsumeCode(s, c, now).0, c)
  {
    var s' := ConsumeCode(s, c, now).0;
    assert s' == s.(codes := s'.codes);
    assert forall u :: Indexed(s', u) == Indexed(s, u);
  }

  lemma RefreshSpentIsQuieter(s: Store, h: Hash, now: int)
    ensures Quieter(s, ConsumeRefresh(s, h, now).0) && !Live(ConsumeRefresh(s, h, now).0, h)
  {
    assert forall u :: Indexed(ConsumeRefresh(s, h, now).0, u) == Indexed(s, u);
  }

  lemma ExchangeKeepsInv(sha: Digest, s: State, step: Step)
    requires Inv(sha, s) && Fresh(s.past, step) && step.Exchange?
    ensures Inv(sha, Next(sha, s, step))
  {
    var s' := Next(sha, s, step);
    var spent := State(ConsumeCode(s.store, step.code, step.now).0, s.past);
    CodeSpentIsQuieter(s.store, step.code, step.now);
    QuieterKeepsInv(sha, s, spent.store);
    if s'.past != s.past {
      var m := Mint(FromCode(step.code, step.verifier), step.client, step.access, step.refresh);
      CodeMayMint(sha, s, spent, m);
      assert s' == WithPair(spent, m, step.code, step.now);
      PairKeepsInv(sha, spent, m, step.code, step.now);
    }
  }

  /** A code that was still unspent has no tokens yet. */
  lemma CodeMayMint(sha: Digest, s: State, spent: State, m: Mint)
    requires Inv(sha, s) && Inv(sha, spent) && spent.past == s.past && m.origin.FromCode?
      && Unspent(s.store, m.origin.code)
    requires !Unspent(spent.store, m.origin.code)
    requires m.access !in s.past.root && m.refresh !in s.past.root && m.access != m.refresh
    requires m.client == s.store.codes[m.origin.code].client
      && sha(m.origin.verifier) == s.store.codes[m.origin.code].challenge
    ensures MayMint(sha, spent, m, m.origin.code)
  {
    var c := m.origin.code;
    assert !Exchanged(s.past, c) by {
      if i :| 0 <= i < |s.past.mints| && s.past.mints[i].origin.FromCode? && s.past.mints[i].origin.code == c {
        assert Spent(s, s.past.mints[i].origin);
      }
    }
    assert forall h :: h in s.past.root ==> Exchanged(s.past, s.past.root[h]);
    forall i | 0 <= i < |s.past.mints| ensures Differ(s.past.mints[i].origin, m.origin) {}
  }

  lemma RotateKeepsInv(sha: Digest, s: State, step: Step)
    requires Inv(sha, s) && Fresh(s.past, step) && step.Rotate?
    ensures Inv(sha, Next(sha, s, step))
  {
    var s' := Next(sha, s, step);
    var spent := State(ConsumeRefresh(s.store, step.h, step.now).0, s.past);
    RefreshSpentIsQuieter(s.store, step.h, step.now);
    QuieterKeepsInv(sha, s, spent.store);
    if s'.past != s.past {
      var m := Mint(FromRefresh(step.h), step.client, step.access, step.refresh);
      RefreshMayMint(sha, s, spent, m);
      assert s' == WithPair(spent, m, s.past.root[step.h], step.now);
      PairKeepsInv(sha, spent, m, s.past.root[step.h], step.now);
    }
  }

  /** Once the one live token of a code is spent, none is left. */
  lemma RefreshMayMint(sha: Digest, s: State, spent: State, m: Mint)
    requires Inv(sha, s) && Inv(sha, spent) && spent.past == s.past && m.origin.FromRefresh?
    requires Live(s.store, m.origin.parent) && !Live(spent.store, m.origin.parent)
    requires forall h :: Live(spent.store, h) ==> Live(s.store, h)
    requires m.access !in s.past.root && m.refresh !in s.past.root && m.access != m.refresh
    requires m.client == s.store.refresh[m.origin.parent].client
    ensures m.origin.parent in s.past.root && MayMint(sha, spent, m, s.past.root[m.origin.parent])
  {
    var p := m.origin.parent;
    assert CarriesConsent(s.past, p, s.store.refresh[p].client, s.store.refresh[p].user, s.store.refresh[p].scope);
    forall h | Live(spent.store, h) && h in s.past.root ensures s.past.root[h] != s.past.root[p] {
      assert Live(s.store, h) && (SameRoot(s.past, p, h) ==> p == h);
    }
    forall i | 0 <= i < |s.past.mints| ensures Differ(s.past.mints[i].origin, m.origin) {
      assert Spent(s, s.past.mints[i].origin);
    }
  }

  lemma StepKeepsInv(sha: Digest, s: State, step: Step)
    requires Inv(sha, s) && Fresh(s.past, step)
    ensures Inv(sha, Next(sha, s, step))
  {
    match step
    case Ask(n, p, redirectOk) => AskKeepsInv(sha, s, n, p, redirectOk);
    case Answer(n, user, action, code, now) => AnswerKeepsInv(sha, s, n, user, action, code, now);
    case Exchange(_, _, _, _, _, _, _, _) => ExchangeKeepsInv(sha, s, step);
    case Rotate(_, _, _, _, _, _) => RotateKeepsInv(sha, s, step);
    case _ => QuietKeepsInv(sha, s, step);
  }

  // ---- Whole runs ----------------------------------------------------------------------

  /** Nothing asked, consented or minted yet. */
  ghost predicate Init(s: State) {
    && s.past == History(map[], map[], map[], [], map[])
    && s.store == Store(s.store.clients, map[], map[], map[], map[], map[])
  }

  ghost predicate Run(sha: Digest, s: State, steps: seq<Step>, end: State)
    decreases |steps|
  {
    if steps == [] then s == end else Fresh(s.past, steps[0]) && Run(sha, Next(sha, s, steps[0]), steps[1..], end)
  }

  lemma {:induction false} RunKeepsInv(sha: Digest, s: State, steps: seq<Step>, end: State)
    requires Inv(sha, s) && Run(sha, s, steps, end)
    ensures Inv(sha, end)
    decreases |steps|
  {
    if steps != [] {
      StepKeepsInv(sha, s, steps[0]);
      RunKeepsInv(sha, Next(sha, s, steps[0]), steps[1..], end);
    }
  }

  /** In every run a code was given out for exactly the requests whose user approved, to that user, one
      code each; and what a refused or unknown answer leaves is no code. */
  lemma CodesAreApprovals(sha: Digest, s: State, steps: seq<Step>, end: State)
    requires Init(s) && Run(sha, s, steps, end)
    ensures forall c :: c in end.past.consents ==>
      var k := end.past.consents[c];
      k.nonce in end.past.answered && end.past.answered[k.nonce] == Said(k.user, Approve)
    ensures forall n :: HasConsent(end.past, n) <==> n in end.past.answered && end.past.answered[n].action.Approve?
    ensures forall c :: c in end.store.codes ==> c in end.past.consents
  {
    RunKeepsInv(sha, s, steps, end);
    assert forall c :: c in end.past.consents ==> ConsentOk(end, end.past.consents[c]);
  }

  /** In every run a code or refresh token mints at most one pair; a code has at most one live
      refresh token below it; each token record carries the user, client and scope of the
      consent it came from; each pair from a code needed the matching verifier; and each consent
      answers its own authorize request. */
  lemma Lineage(sha: Digest, s: State, steps: seq<Step>, end: State)
    requires Init(s) && Run(sha, s, steps, end)
    ensures MintsDistinct(end.past.mints)
    ensures OneLivePerCode(end)
    ensures RecordsCarryConsent(end)
    ensures forall i :: 0 <= i < |end.past.mints| ==> MintOk(sha, end.past, end.past.mints[i])
    ensures RootsExchanged(end.past)
    ensures forall c, d :: c in end.past.consents && d in end.past.consents ==>
      && end.past.consents[c].nonce in end.past.asked
      && end.past.asked[end.past.consents[c].nonce] == end.past.consents[c].ask
      && (c != d ==> end.past.consents[c].nonce != end.past.consents[d].nonce)
  {
    RunKeepsInv(sha, s, steps, end);
    assert forall c :: c in end.past.consents ==> ConsentOk(end, end.past.consents[c]);
  }

  /** In every run the per-user index holds every refresh record of that user and no other user's. */
  lemma IndexIsExact(sha: Digest, s: State, steps: seq<Step>, end: State)
    requires Init(s) && Run(sha, s, steps, end)
    ensures IndexComplete(end.store) && IndexOwn(end.store)
  {
    RunKeepsInv(sha, s, steps, end);
    forall u, h | h in Indexed(end.store, u) && h in end.store.refresh ensures end.store.refresh[h].user == u {
      var r := end.store.refresh[h];
      assert CarriesConsent(end.past, h, r.client, r.user, r.scope);
    }
  }

  ghost predicate KeepsDead(s: State, s': State, h: Hash, c: Code) {
    && (h in s.past.root && !Live(s.store, h) ==> h in s'.past.root && !Live(s'.store, h))
    && (c in s.past.consents && !Unspent(s.store, c) ==> c in s'.past.consents && !Unspent(s'.store, c))
  }

  lemma MintKeepsDead(sha: Digest, s: State, step: Step, h: Hash, c: Code)
    requires Inv(sha, s) && Fresh(s.past, step) && (step.Exchange? || step.Rotate?)
    ensures KeepsDead(s, Next(sha, s, step), h, c)
  {
    if step.Exchange? {
      CodeSpentIsQuieter(s.store, step.code, step.now);
    } else {
      RefreshSpentIsQuieter(s.store, step.h, step.now);
    }
  }

  lemma StepKeepsDead(sha: Digest, s: State, step: Step, h: Hash, c: Code)
    requires Inv(sha, s) && Fresh(s.past, step)
    ensures KeepsDead(s, Next(sha, s, step), h, c)
  {
    match step
    case Exchange(_, _, _, _, _, _, _, _) => MintKeepsDead(sha, s, step, h, c);
    case Rotate(_, _, _, _, _, _) => MintKeepsDead(sha, s, step, h, c);
    case Ask(_, _, _) =>
    case Answer(_, _, _, _, _) =>
    case _ => QuietStepIsQuieter(sha, s, step);
  }

  /** A refresh token once used, revoked or expired, and a code once tried or expired, never mint again. */
  lemma {:induction false} DeadStaysDead(sha: Digest, s: State, steps: seq<Step>, end: State, h: Hash, c: Code)
    requires Inv(sha, s) && Run(sha, s, steps, end)
    ensures h in s.past.root && !Live(s.store, h) ==> !Live(end.store, h)
    ensures c in s.past.consents && !Unspent(s.store, c) ==> !Unspent(end.store, c)
    decreases |steps|
  {
    if steps != [] {
      StepKeepsInv(sha, s, steps[0]);
      StepKeepsDead(sha, s, steps[0], h, c);
      DeadStaysDead(sha, Next(sha, s, steps[0]), steps[1..], end, h, c);
    }
  }

  /** An authenticated exchange succeeds exactly when the code is unspent and client, redirect URI
      and verifier all match; and whichever way it goes, no later request gets anything for that code. */
  lemma ExchangeOutcome(sha: Digest, s: State, step: Step, steps: seq<Step>, end: State, later: Step)
    requires Inv(sha, s) && Fresh(s.past, step) && step.Exchange? && Authenticated(s.store, step.client, step.secretOk)
    requires step.code in s.past.consents && Run(sha, Next(sha, s, step), steps, end)
    requires later.Exchange? && later.code == step.code
    ensures
      ExchangeCode(s.store, sha, step.client, step.secretOk, step.code, step.redirectUri, step.verifier,
                   step.access, step.refresh, step.now).1.Ok? <==>
        && Unspent(s.store, step.code)
        && var k := s.past.consents[step.code];
           k.ask.client == step.client && k.ask.redirectUri == step.redirectUri && k.ask.challenge == sha(step.verifier)
    ensures
      ExchangeCode(end.store, sha, later.client, later.secretOk, later.code, later.redirectUri, later.verifier,
                   later.access, later.refresh, later.now).1.Err?
  {
    StepKeepsInv(sha, s, step);
    assert !Unspent(Next(sha, s, step).store, step.code);
    DeadStaysDead(sha, Next(sha, s, step), steps, end, 0, step.code);
  }

  /** After a user's grants for a client are revoked, no refresh token of theirs that existed then
      ever mints again, whoever presents it. */
  lemma RevokedNeverMintAgain(sha: Digest, s: State, user: UserId, client: ClientId, now: int, steps: seq<Step>,
                              end: State, later: Step)
    requires Inv(sha, s) && Run(sha, Next(sha, s, RevokeGrants(user, client, now)), steps, end)
    requires later.Rotate? && later.h in s.store.refresh
    requires s.store.refresh[later.h].user == user && s.store.refresh[later.h].client == client
    ensures RotateRefresh(end.store, later.client, later.secretOk, later.h, later.access, later.refresh,
                          later.now).1.Err?
  {
    var s' := Next(sha, s, RevokeGrants(user, client, now));
    StepKeepsInv(sha, s, RevokeGrants(user, client, now));
    assert CarriesConsent(s.past, later.h, client, user, s.store.refresh[later.h].scope);
    DeadStaysDead(sha, s', steps, end, later.h, 0);
  }

  /** Revoking grants does not reach codes: one approved before and not yet exchanged still mints. */
  lemma RevocationLeavesCodes(s: Store, sha: Digest, user: UserId, client: ClientId, when: int, step: Step)
    requires step.Exchange?
    ensures
      ExchangeCode(Marked(s, Revocable(s, user, client), when), sha, step.client, step.secretOk, step.code,
                   step.redirectUri, step.verifier, step.access, step.refresh, step.now).1 ==
      ExchangeCode(s, sha, step.client, step.secretOk, step.code, step.redirectUri,
                   step.verifier, step.access, step.refresh, step.now).1
  {
  }
}
