/** OAuth clients, consents, codes and tokens: the records and what each endpoint does to them. */
module OAuthStore {
  import opened Wrappers

  type ClientId = int
  type UserId = int
  type Nonce = int
  type Code = int
  type Hash = int

  const ACCESS_TOKEN_TTL := 3600
  const REFRESH_TOKEN_TTL := 30 * 24 * 3600

  datatype Client = Client(name: string, revokedAt: Option<int>)

  datatype Pending = Pending(client: ClientId, redirectUri: string, challenge: string, scope: string, createdAt: int)

  datatype CodeRecord = CodeRecord(client: ClientId, user: UserId, redirectUri: string, scope: string,
                                   challenge: string, createdAt: int, usedAt: Option<int>)

  datatype Refresh = Refresh(client: ClientId, user: UserId, scope: string, createdAt: int,
                             usedAt: Option<int>, revokedAt: Option<int>)

  datatype Access = Access(client: ClientId, user: UserId, scope: string, createdAt: int, expiresAt: int)

  datatype Store = Store(
    clients: map<ClientId, Client>,
    pending: map<Nonce, Pending>,
    codes: map<Code, CodeRecord>,
    refresh: map<Hash, Refresh>,
    refreshByUser: map<UserId, set<Hash>>,
    access: map<Hash, Access>)

  datatype Tokens = Tokens(access: Hash, refresh: Hash, scope: string)

  datatype OAuthError = InvalidClient | InvalidGrant

  datatype Action = Approve | Deny | Other

  /** What PKCE's S256 method makes of a verifier. */
  type Digest = string -> string

  predicate Active(r: Refresh) {
    r.usedAt.None? && r.revokedAt.None?
  }

  function Indexed(s: Store, user: UserId): set<Hash> {
    if user in s.refreshByUser then s.refreshByUser[user] else {}
  }

  function SaveRefresh(s: Store, h: Hash, r: Refresh): Store {
    s.(refresh := s.refresh[h := r], refreshByUser := s.refreshByUser[r.user := Indexed(s, r.user) + {h}])
  }

  /** One-shot: the record is gone once read. */
  function ConsumePending(s: Store, n: Nonce): (Store, Option<Pending>) {
    if n in s.pending then (s.(pending := s.pending - {n}), Some(s.pending[n])) else (s, None)
  }

  function ConsumeCode(s: Store, c: Code, now: int): (Store, Option<CodeRecord>) {
    if c !in s.codes || s.codes[c].usedAt.Some? then (s, None)
    else
      var record := s.codes[c].(usedAt := Some(now));
      (s.(codes := s.codes[c := record]), Some(record))
  }

  function ConsumeRefresh(s: Store, h: Hash, now: int): (Store, Option<Refresh>) {
    if h !in s.refresh || !Active(s.refresh[h]) then (s, None)
    else
      var record := s.refresh[h].(usedAt := Some(now));
      (s.(refresh := s.refresh[h := record]), Some(record))
  }

  function RevokeClient(s: Store, id: ClientId, now: int): (Store, bool) {
    if id !in s.clients || s.clients[id].revokedAt.Some? then (s, false)
    else (s.(clients := s.clients[id := s.clients[id].(revokedAt := Some(now))]), true)
  }

  /** The client a request authenticates as: known, not revoked, secret verified. */
  predicate Authenticated(s: Store, client: ClientId, secretOk: bool) {
    client in s.clients && s.clients[client].revokedAt.None? && secretOk
  }

  /** GET authorize: a pending record for a known client with a matching redirect URI. */
  function Authorize(s: Store, n: Nonce, p: Pending, redirectOk: bool): (Store, bool) {
    if p.client in s.clients && s.clients[p.client].revokedAt.None? && redirectOk
    then (s.(pending := s.pending[n := p]), true)
    else (s, false)
  }

  /** POST consent by a signed-in user. The pending record is consumed whatever the answer. */
  function Consent(s: Store, n: Nonce, user: UserId, action: Action, code: Code, now: int): (Store, Option<Code>) {
    var (s1, found) := ConsumePending(s, n);
    if found.None? || !action.Approve? then (s1, None)
    else
      var p := found.value;
      (s1.(codes := s1.codes[code := CodeRecord(p.client, user, p.redirectUri, p.scope, p.challenge, now, None)]),
       Some(code))
  }

  function Minted(s: Store, client: ClientId, user: UserId, scope: string, access: Hash, refresh: Hash, now: int)
    : Store
  {
    SaveRefresh(s.(access := s.access[access := Access(client, user, scope, now, now + ACCESS_TOKEN_TTL)]),
                refresh, Refresh(client, user, scope, now, None, None))
  }

  /** The code is consumed first: an attempt that then fails a check has burnt it. */
  function ExchangeCode(s: Store, sha: Digest, client: ClientId, secretOk: bool, code: Code, redirectUri: string,
                        verifier: string, access: Hash, refresh: Hash, now: int): (Store, Result<Tokens, OAuthError>) {
    if !Authenticated(s, client, secretOk) then (s, Err(InvalidClient))
    else
      var (s1, found) := ConsumeCode(s, code, now);
      if found.None? then (s1, Err(InvalidGrant))
      else
        var c := found.value;
        if c.client != client || c.redirectUri != redirectUri || sha(verifier) != c.challenge
        then (s1, Err(InvalidGrant))
        else (Minted(s1, client, c.user, c.scope, access, refresh, now), Ok(Tokens(access, refresh, c.scope)))
  }

  function RotateRefresh(s: Store, client: ClientId, secretOk: bool, h: Hash, access: Hash, refresh: Hash, now: int)
    : (Store, Result<Tokens, OAuthError>)
  {
    if !Authenticated(s, client, secretOk) then (s, Err(InvalidClient))
    else
      var (s1, found) := ConsumeRefresh(s, h, now);
      if found.None? then (s1, Err(InvalidGrant))
      else
        var r := found.value;
        if r.client != client then (s1, Err(InvalidGrant))
        else (Minted(s1, r.client, r.user, r.scope, access, refresh, now), Ok(Tokens(access, refresh, r.scope)))
  }

  /** Access tokens first; a known one is the answer whoever holds it. */
  function Revoke(s: Store, client: ClientId, secretOk: bool, h: Hash, now: int): (Store, Result<(), OAuthError>) {
    if !Authenticated(s, client, secretOk) then (s, Err(InvalidClient))
    else if h in s.access then
      (if s.access[h].client == client then s.(access := s.access - {h}) else s, Ok(()))
    else if h in s.refresh && s.refresh[h].client == client && s.refresh[h].revokedAt.None? then
      (SaveRefresh(s, h, s.refresh[h].(revokedAt := Some(now))), Ok(()))
    else (s, Ok(()))
  }

  // ---- Grants of a user ---------------------------------------------------------

  /** The tokens `revoke_grants_for_client` is to mark: used ones too. */
  function Revocable(s: Store, user: UserId, client: ClientId): set<Hash> {
    set h | h in s.refresh && s.refresh[h].user == user && s.refresh[h].client == client && s.refresh[h].revokedAt.None?
  }

  function Marked(s: Store, hashes: set<Hash>, now: int): Store {
    s.(refresh := map h | h in s.refresh :: if h in hashes then s.refresh[h].(revokedAt := Some(now)) else s.refresh[h])
  }

  datatype Row = Row(client: ClientId, name: string, scope: string, grantedAt: int, expiresAt: int)

  /** A token that makes its client's row. */
  predicate Grants(s: Store, user: UserId, client: ClientId, h: Hash) {
    && h in s.refresh && Active(s.refresh[h]) && s.refresh[h].user == user
    && s.refresh[h].client == client && client in s.clients
  }

  /** The row of a client that the tokens among `hashes` define: its latest grant. */
  ghost predicate RowAmong(s: Store, user: UserId, row: Row, hashes: set<Hash>) {
    && (exists h :: h in hashes && Grants(s, user, row.client, h) && row == RowFor(s, h))
    && (forall h :: h in hashes && Grants(s, user, row.client, h) ==> s.refresh[h].createdAt <= row.grantedAt)
  }

  /** The same, by a scan of every refresh record. */
  ghost predicate RowOf(s: Store, user: UserId, row: Row) {
    RowAmong(s, user, row, s.refresh.Keys)
  }

  function RowFor(s: Store, h: Hash): Row
    requires h in s.refresh && s.refresh[h].client in s.clients
  {
    var r := s.refresh[h];
    Row(r.client, s.clients[r.client].name, r.scope, r.createdAt, r.createdAt + REFRESH_TOKEN_TTL)
  }

  /** One row per client with an active token, each its latest grant, newest first. */
  ghost predicate IsListing(s: Store, user: UserId, rows: seq<Row>) {
    && (forall i :: 0 <= i < |rows| ==> RowOf(s, user, rows[i]))
    && (forall i, j :: 0 <= i < j < |rows| ==>
        rows[i].client != rows[j].client && rows[i].grantedAt >= rows[j].grantedAt)
    && (forall h :: h in s.refresh && Grants(s, user, s.refresh[h].client, h) ==>
          HasRow(rows, s.refresh[h].client))
  }

  ghost predicate HasRow(rows: seq<Row>, client: ClientId) {
    exists i :: 0 <= i < |rows| && rows[i].client == client
  }

  /** The per-user index misses no refresh record. */
  ghost predicate IndexComplete(s: Store) {
    forall h :: h in s.refresh ==> h in Indexed(s, s.refresh[h].user)
  }

  /** Entries of the index are of that user's tokens, or of tokens no longer stored. */
  ghost predicate IndexOwn(s: Store) {
    forall u, h :: h in Indexed(s, u) && h in s.refresh ==> s.refresh[h].user == u
  }

  /** Walking the user's index instead of all records changes nothing. */
  lemma IndexSuffices(s: Store, user: UserId, row: Row)
    requires IndexComplete(s)
    ensures RowAmong(s, user, row, Indexed(s, user)) <==> RowOf(s, user, row)
  {
    assert forall h :: Grants(s, user, row.client, h) ==> h in Indexed(s, user);
  }

  /** Revoking a user's grants for a client removes that client's row of that user and no other row. */
  lemma RevokingRemovesOneRow(s: Store, user: UserId, client: ClientId, now: int, other: UserId, row: Row)
    ensures RowOf(Marked(s, Revocable(s, user, client), now), other, row) <==>
      RowOf(s, other, row) && !(other == user && row.client == client)
  {
    var s' := Marked(s, Revocable(s, user, client), now);
    forall h ensures Grants(s', other, row.client, h) <==>
        Grants(s, other, row.client, h) && !(other == user && row.client == client) {}
    assert forall h :: Grants(s', other, row.client, h) ==> RowFor(s', h) == RowFor(s, h);
  }

  /** Two listings of a user show the same clients, granted at the same times. */
  lemma ListingsAgree(s: Store, user: UserId, a: seq<Row>, b: seq<Row>, i: nat)
    requires IsListing(s, user, a) && IsListing(s, user, b) && i < |a|
    ensures exists j :: 0 <= j < |b| && b[j].client == a[i].client && b[j].grantedAt == a[i].grantedAt
  {
    var c := a[i].client;
    assert RowOf(s, user, a[i]);
    var h :| h in s.refresh.Keys && Grants(s, user, c, h) && a[i] == RowFor(s, h);
    assert Grants(s, user, s.refresh[h].client, h);
    var j :| 0 <= j < |b| && b[j].client == c;
    assert RowOf(s, user, b[j]);
    var g :| g in s.refresh.Keys && Grants(s, user, c, g) && b[j] == RowFor(s, g);
    assert b[j].grantedAt == a[i].grantedAt;
  }
}
