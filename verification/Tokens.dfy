/** Bearer tokens: the record hash and the three indexes that must agree with it. */
module Tokens {
  import opened Wrappers

  type UserId = int
  type TokenId = int
  type Secret = int

  /** The fields of a `token:{id}` hash. A key that is not there reads as no fields. */
  datatype TokenHash = TokenHash(
    id: Option<TokenId>, name: Option<string>, owner: Option<UserId>, hash: Option<Secret>,
    createdAt: Option<int>, expiresAt: Option<int>, lastUsedAt: Option<int>, scopes: Option<string>)

  datatype Token = Token(id: TokenId, name: string, owner: UserId, hash: Secret,
                         createdAt: int, expiresAt: Option<int>, lastUsedAt: Option<int>, scopes: string)

  datatype TokenError = NotFound | NameTaken | Malformed

  const NO_FIELDS := TokenHash(None, None, None, None, None, None, None, None)

  datatype TokenStore = TokenStore(
    records: map<TokenId, TokenHash>,
    byHash: map<Secret, TokenId>,
    byName: map<(UserId, string), TokenId>,
    byOwner: map<UserId, set<TokenId>>)

  function Fields(s: TokenStore, t: TokenId): TokenHash {
    if t in s.records then s.records[t] else NO_FIELDS
  }

  function Decode(f: TokenHash): Result<Token, TokenError> {
    if f.id.Some? && f.name.Some? && f.owner.Some? && f.hash.Some? && f.createdAt.Some? && f.scopes.Some?
    then Ok(Token(f.id.value, f.name.value, f.owner.value, f.hash.value, f.createdAt.value,
                  f.expiresAt, f.lastUsedAt, f.scopes.value))
    else Err(Malformed)
  }

  /** `Ok(None)`: no such record. */
  function Read(s: TokenStore, t: TokenId): Result<Option<Token>, TokenError> {
    if Fields(s, t) == NO_FIELDS then Ok(None)
    else
      match Decode(Fields(s, t))
      case Ok(token) => Ok(Some(token))
      case Err(e) => Err(e)
  }

  function OwnedBy(s: TokenStore, o: UserId): set<TokenId> {
    if o in s.byOwner then s.byOwner[o] else {}
  }

  // ---- Operations ---------------------------------------------------------

  /** The record and index writes of a new token. */
  function Written(s: TokenStore, id: TokenId, owner: UserId, name: string, hash: Secret,
                   ttl: Option<nat>, now: int): TokenStore {
    var expires := if ttl.Some? then Some(now + ttl.value) else None;
    TokenStore(
      s.records[id := TokenHash(Some(id), Some(name), Some(owner), Some(hash), Some(now), expires,
                                Fields(s, id).lastUsedAt, Some("*"))],
      s.byHash[hash := id],
      s.byName[(owner, name) := id],
      s.byOwner[owner := OwnedBy(s, owner) + {id}])
  }

  function Deleted(s: TokenStore, t: Token): TokenStore {
    TokenStore(
      s.records[t.id := NO_FIELDS],
      s.byHash - {t.hash},
      s.byName - {(t.owner, t.name)},
      s.byOwner[t.owner := OwnedBy(s, t.owner) - {t.id}])
  }

  /** All of these tokens deleted, one after the other. */
  function Cascaded(s: TokenStore, ids: set<TokenId>): TokenStore {
    TokenStore(
      map t | t in s.records :: if t in ids then NO_FIELDS else s.records[t],
      map h | h in s.byHash && s.byHash[h] !in ids :: s.byHash[h],
      map k | k in s.byName && s.byName[k] !in ids :: s.byName[k],
      map o | o in s.byOwner :: s.byOwner[o] - ids)
  }

  function Revoke(s: TokenStore, owner: UserId, name: string): (TokenStore, Result<bool, TokenError>) {
    if (owner, name) !in s.byName then (s, Ok(false))
    else
      match Read(s, s.byName[(owner, name)])
      case Err(e) => (s, Err(e))
      case Ok(None) => (s, Ok(false))
      case Ok(Some(t)) => (Deleted(s, t), Ok(true))
  }

  /** Rename's three writes, in the order the code makes them. */
  function NameIndexed(s: TokenStore, t: Token, name: string): TokenStore {
    s.(byName := s.byName[(t.owner, name) := t.id])
  }

  function NameStored(s: TokenStore, t: Token, name: string): TokenStore {
    s.(records := s.records[t.id := Fields(s, t.id).(name := Some(name))])
  }

  function NameDropped(s: TokenStore, owner: UserId, name: string): TokenStore {
    s.(byName := s.byName - {(owner, name)})
  }

  function Rename(s: TokenStore, owner: UserId, from: string, to: string): (TokenStore, Result<Token, TokenError>) {
    if from == to then
      if (owner, from) !in s.byName then (s, Err(NotFound))
      else
        match Read(s, s.byName[(owner, from)])
        case Err(e) => (s, Err(e))
        case Ok(None) => (s, Err(NotFound))
        case Ok(Some(t)) => (s, Ok(t))
    else if (owner, to) in s.byName then (s, Err(NameTaken))
    else if (owner, from) !in s.byName then (s, Err(NotFound))
    else
      match Read(s, s.byName[(owner, from)])
      case Err(e) => (s, Err(e))
      case Ok(None) => (s, Err(NotFound))
      case Ok(Some(t)) =>
        var done := NameDropped(NameStored(s.(byName := s.byName[(owner, to) := t.id]), t, to), owner, from);
        (done, Ok(t.(name := to)))
  }

  /** The best-effort stamp a successful authentication leaves. */
  function Touched(s: TokenStore, t: TokenId, now: int): TokenStore {
    s.(records := s.records[t := Fields(s, t).(lastUsedAt := Some(now))])
  }

  /** Which live, unexpired token a secret's hash stands for. */
  function Resolve(s: TokenStore, hash: Secret, now: int): Result<Option<Token>, TokenError> {
    if hash !in s.byHash then Ok(None)
    else
      match Read(s, s.byHash[hash])
      case Err(e) => Err(e)
      case Ok(None) => Ok(None)
      case Ok(Some(t)) => Ok(if t.expiresAt.Some? && t.expiresAt.value < now then None else Some(t))
  }

  // ---- Agreement ------------------------------------------------------------

  ghost predicate Live(s: TokenStore, t: TokenId) {
    t in s.records && s.records[t] != NO_FIELDS
  }

  ghost predicate Whole(f: TokenHash, t: TokenId) {
    Decode(f).Ok? && f.id == Some(t)
  }

  ghost predicate Indexed(s: TokenStore, t: TokenId, f: TokenHash) {
    && f.hash.Some? && f.hash.value in s.byHash && s.byHash[f.hash.value] == t
    && f.owner.Some? && f.name.Some?
    && (f.owner.value, f.name.value) in s.byName && s.byName[(f.owner.value, f.name.value)] == t
    && t in OwnedBy(s, f.owner.value)
  }

  ghost predicate HashLeads(s: TokenStore, h: Secret) {
    h in s.byHash ==> Live(s, s.byHash[h]) && s.records[s.byHash[h]].hash == Some(h)
  }

  ghost predicate NameLeads(s: TokenStore, k: (UserId, string)) {
    k in s.byName ==>
      Live(s, s.byName[k]) && s.records[s.byName[k]].owner == Some(k.0) && s.records[s.byName[k]].name == Some(k.1)
  }

  ghost predicate OwnerLeads(s: TokenStore, o: UserId, t: TokenId) {
    t in OwnedBy(s, o) ==> Live(s, t) && s.records[t].owner == Some(o)
  }

  /** Each record is whole or gone, and each index holds exactly the live records' entries. */
  ghost predicate Agrees(s: TokenStore) {
    && (forall t :: Live(s, t) ==> Whole(s.records[t], t) && Indexed(s, t, s.records[t]))
    && (forall h :: HashLeads(s, h))
    && (forall k :: NameLeads(s, k))
    && (forall o, t :: OwnerLeads(s, o, t))
  }

  ghost predicate FreshToken(s: TokenStore, id: TokenId) {
    Fields(s, id) == NO_FIELDS
  }

  /** Given a free name and a fresh id, a new token keeps the indexes in agreement exactly when
      its secret's hash is not in use. */
  lemma WritingAgreesIffSecretFresh(s: TokenStore, id: TokenId, owner: UserId, name: string, hash: Secret,
                                    ttl: Option<nat>, now: int)
    requires Agrees(s) && FreshToken(s, id) && (owner, name) !in s.byName
    ensures Agrees(Written(s, id, owner, name, hash, ttl, now)) <==> hash !in s.byHash
  {
    var s' := Written(s, id, owner, name, hash, ttl, now);
    if hash in s.byHash {
      var t := s.byHash[hash];
      assert HashLeads(s, hash) && t != id;
      assert Live(s', t) && !Indexed(s', t, s'.records[t]);
    } else {
      forall t | Live(s', t) ensures Whole(s'.records[t], t) && Indexed(s', t, s'.records[t]) {
        if t != id { assert Live(s, t) && Indexed(s, t, s.records[t]); }
      }
      forall h ensures HashLeads(s', h) { assert HashLeads(s, h); }
      forall k ensures NameLeads(s', k) { assert NameLeads(s, k); }
      forall o, t ensures OwnerLeads(s', o, t) { assert OwnerLeads(s, o, t); }
    }
  }

  lemma DeletingAgrees(s: TokenStore, t: Token)
    requires Agrees(s) && Read(s, t.id) == Ok(Some(t))
    ensures Agrees(Deleted(s, t))
    ensures forall x :: x != t.id ==> Fields(Deleted(s, t), x) == Fields(s, x)
    ensures Fields(Deleted(s, t), t.id) == NO_FIELDS
  {
    var s' := Deleted(s, t);
    assert Live(s, t.id) && Indexed(s, t.id, s.records[t.id]);
    forall x | Live(s', x) ensures Whole(s'.records[x], x) && Indexed(s', x, s'.records[x]) {
      assert Live(s, x) && Indexed(s, x, s.records[x]);
    }
    forall h ensures HashLeads(s', h) { assert HashLeads(s, h); }
    forall k ensures NameLeads(s', k) { assert NameLeads(s, k); }
    forall o, x ensures OwnerLeads(s', o, x) { assert OwnerLeads(s, o, x); }
  }

  /** In agreement, the four index edits of a deletion remove exactly the entries of that token. */
  lemma DeletingIsCascading(s: TokenStore, t: Token)
    requires Agrees(s) && Read(s, t.id) == Ok(Some(t))
    ensures Deleted(s, t) == Cascaded(s, {t.id})
  {
    assert Live(s, t.id) && Indexed(s, t.id, s.records[t.id]);
    forall h | h in s.byHash ensures s.byHash[h] == t.id <==> h == t.hash { assert HashLeads(s, h); }
    forall k | k in s.byName ensures s.byName[k] == t.id <==> k == (t.owner, t.name) { assert NameLeads(s, k); }
    forall o | o in s.byOwner && o != t.owner ensures s.byOwner[o] - {t.id} == s.byOwner[o] {
      assert OwnerLeads(s, o, t.id);
    }
  }

  lemma CascadesCompose(s: TokenStore, a: set<TokenId>, b: set<TokenId>)
    ensures Cascaded(Cascaded(s, a), b) == Cascaded(s, a + b)
    ensures Cascaded(s, {}) == s
  {
    assert Cascaded(Cascaded(s, a), b).records == Cascaded(s, a + b).records;
    assert Cascaded(Cascaded(s, a), b).byHash == Cascaded(s, a + b).byHash;
    assert Cascaded(Cascaded(s, a), b).byName == Cascaded(s, a + b).byName;
    assert forall o :: o in s.byOwner ==>
      s.byOwner[o] - a - b == s.byOwner[o] - (a + b) && s.byOwner[o] - {} == s.byOwner[o];
    assert Cascaded(Cascaded(s, a), b).byOwner == Cascaded(s, a + b).byOwner;
    assert Cascaded(s, {}).byHash == s.byHash && Cascaded(s, {}).byName == s.byName;
    assert Cascaded(s, {}).records == s.records && Cascaded(s, {}).byOwner == s.byOwner;
  }

  lemma CascadingAgrees(s: TokenStore, ids: set<TokenId>)
    requires Agrees(s)
    ensures Agrees(Cascaded(s, ids))
  {
    var s' := Cascaded(s, ids);
    forall x | Live(s', x) ensures Whole(s'.records[x], x) && Indexed(s', x, s'.records[x]) {
      assert Live(s, x) && Whole(s.records[x], x) && Indexed(s, x, s.records[x]);
    }
    forall h ensures HashLeads(s', h) { assert HashLeads(s, h); }
    forall k ensures NameLeads(s', k) { assert NameLeads(s, k); }
    forall o, x ensures OwnerLeads(s', o, x) { assert OwnerLeads(s, o, x); }
  }

  lemma RevokingAgrees(s: TokenStore, owner: UserId, name: string)
    requires Agrees(s)
    ensures Agrees(Revoke(s, owner, name).0)
    ensures Revoke(s, owner, name).1 == Ok((owner, name) in s.byName)
  {
    if (owner, name) in s.byName {
      var t := s.byName[(owner, name)];
      assert NameLeads(s, (owner, name)) && Live(s, t) && Whole(s.records[t], t);
      DeletingAgrees(s, Decode(s.records[t]).value);
    }
  }

  /** What a rename comes to: the outcome, and on success the three writes. */
  lemma RenamingMeans(s: TokenStore, owner: UserId, from: string, to: string)
    requires Agrees(s)
    ensures
      var (s', r) := Rename(s, owner, from, to);
      if (owner, from) !in s.byName && (from == to || (owner, to) !in s.byName) then s' == s && r == Err(NotFound)
      else if from != to && (owner, to) in s.byName then s' == s && r == Err(NameTaken)
      else
        var t := s.byName[(owner, from)];
        && Live(s, t) && r == Ok(Decode(s.records[t]).value.(name := to))
        && s' == if from == to then s
                 else s.(byName := s.byName[(owner, to) := t] - {(owner, from)},
                         records := s.records[t := s.records[t].(name := Some(to))])
  {
    assert NameLeads(s, (owner, from));
    if (owner, from) in s.byName {
      var t := s.byName[(owner, from)];
      assert Live(s, t) && Whole(s.records[t], t);
    }
  }

  lemma RenamingAgrees(s: TokenStore, owner: UserId, from: string, to: string)
    requires Agrees(s)
    ensures Agrees(Rename(s, owner, from, to).0)
  {
    RenamingMeans(s, owner, from, to);
    var (s', r) := Rename(s, owner, from, to);
    if s' != s {
      var t := s.byName[(owner, from)];
      assert NameLeads(s, (owner, from)) && NameLeads(s, (owner, to));
      forall x | Live(s', x) ensures Whole(s'.records[x], x) && Indexed(s', x, s'.records[x]) {
        assert Live(s, x) && Whole(s.records[x], x) && Indexed(s, x, s.records[x]);
        assert OwnedBy(s', s.records[x].owner.value) == OwnedBy(s, s.records[x].owner.value);
      }
      forall h ensures HashLeads(s', h) { assert HashLeads(s, h); }
      forall k ensures NameLeads(s', k) { assert NameLeads(s, k); }
      forall o, x ensures OwnerLeads(s', o, x) { assert OwnerLeads(s, o, x); }
    }
  }

  lemma TouchingAgrees(s: TokenStore, t: TokenId, now: int)
    requires Agrees(s) && Live(s, t)
    ensures Agrees(Touched(s, t, now))
  {
    var s' := Touched(s, t, now);
    assert Whole(s.records[t], t);
    forall x | Live(s', x) ensures Whole(s'.records[x], x) && Indexed(s', x, s'.records[x]) {
      assert Live(s, x) && Whole(s.records[x], x) && Indexed(s, x, s.records[x]);
      assert OwnedBy(s', s.records[x].owner.value) == OwnedBy(s, s.records[x].owner.value);
    }
    forall h ensures HashLeads(s', h) { assert HashLeads(s, h); }
    forall k ensures NameLeads(s', k) { assert NameLeads(s, k); }
    forall o, x ensures OwnerLeads(s', o, x) { assert OwnerLeads(s, o, x); }
  }

  // ---- What each operation means for authentication ---------------------------

  /** Same token as far as a caller can tell: its name and its last-used stamp aside. */
  ghost predicate SameCredential(a: Result<Option<Token>, TokenError>, b: Result<Option<Token>, TokenError>) {
    || a == b
    || (a.Ok? && b.Ok? && a.value.Some? && b.value.Some?
        && a.value.value.(name := "", lastUsedAt := None) == b.value.value.(name := "", lastUsedAt := None))
  }

  /** A by-name entry that leads nowhere, or to another owner's token. */
  ghost predicate DanglingName(s: TokenStore, k: (UserId, string)) {
    k in s.byName &&
    var t := s.byName[k];
    !(Live(s, t) && Whole(s.records[t], t) && s.records[t].owner == Some(k.0))
  }

  /** After every prefix of rename's writes all by-name entries lead to a live token of their
      owner, and every secret authenticates as before. */
  lemma RenamePrefixesAreSafe(s: TokenStore, owner: UserId, from: string, to: string, t: Token,
                              hash: Secret, now: int, k: (UserId, string))
    requires Agrees(s) && from != to && (owner, to) !in s.byName && (owner, from) in s.byName
    requires Read(s, s.byName[(owner, from)]) == Ok(Some(t))
    ensures
      var s1 := NameIndexed(s, t, to);
      var s2 := NameStored(s1, t, to);
      var s3 := NameDropped(s2, owner, from);
      && s3 == Rename(s, owner, from, to).0 && Rename(s, owner, from, to).1 == Ok(t.(name := to))
      && !DanglingName(s1, k) && !DanglingName(s2, k) && !DanglingName(s3, k)
      && SameCredential(Resolve(s, hash, now), Resolve(s1, hash, now))
      && SameCredential(Resolve(s, hash, now), Resolve(s2, hash, now))
      && SameCredential(Resolve(s, hash, now), Resolve(s3, hash, now))
  {
    var id := s.byName[(owner, from)];
    assert NameLeads(s, (owner, from)) && Live(s, id) && Whole(s.records[id], id);
    assert NameLeads(s, k) && NameLeads(s, (owner, to)) && HashLeads(s, hash);
    RenamingMeans(s, owner, from, to);
  }

  /** Deleting a token ends exactly that token's authentication. */
  lemma DeletingEndsOneCredential(s: TokenStore, t: Token, hash: Secret, now: int)
    requires Agrees(s) && Read(s, t.id) == Ok(Some(t))
    ensures Resolve(Deleted(s, t), hash, now) == if hash == t.hash then Ok(None) else Resolve(s, hash, now)
  {
    assert Live(s, t.id) && Whole(s.records[t.id], t.id) && Indexed(s, t.id, s.records[t.id]);
    if hash in s.byHash && hash != t.hash {
      assert HashLeads(s, hash) && Whole(s.records[s.byHash[hash]], s.byHash[hash]);
    }
  }

  /** A new token authenticates until it expires, and no other secret is affected. */
  lemma WritingAddsOneCredential(s: TokenStore, id: TokenId, owner: UserId, name: string, h: Secret,
                                 ttl: Option<nat>, now: int, hash: Secret, later: int)
    requires Agrees(s) && FreshToken(s, id) && h !in s.byHash
    ensures
      var s' := Written(s, id, owner, name, h, ttl, now);
      if hash != h then Resolve(s', hash, later) == Resolve(s, hash, later)
      else if ttl.Some? && now + ttl.value < later then Resolve(s', hash, later) == Ok(None)
      else && Resolve(s', hash, later).Ok? && Resolve(s', hash, later).value.Some?
           && Resolve(s', hash, later).value.value.id == id && Resolve(s', hash, later).value.value.owner == owner
  {
    if hash in s.byHash { assert HashLeads(s, hash) && Whole(s.records[s.byHash[hash]], s.byHash[hash]); }
  }

  /** In agreement no lookup errors: a secret resolves exactly to the live unexpired token holding it. */
  lemma ResolveIsExact(s: TokenStore, hash: Secret, now: int, t: TokenId)
    requires Agrees(s)
    ensures Resolve(s, hash, now).Ok?
    ensures (Resolve(s, hash, now).value.Some? && Resolve(s, hash, now).value.value.id == t) <==>
      (Live(s, t) && s.records[t].hash == Some(hash)
       && !(s.records[t].expiresAt.Some? && s.records[t].expiresAt.value < now))
  {
    if hash in s.byHash { assert HashLeads(s, hash) && Whole(s.records[s.byHash[hash]], s.byHash[hash]); }
    if Live(s, t) { assert Indexed(s, t, s.records[t]); }
  }
}
