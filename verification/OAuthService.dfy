/** The OAuth endpoints over the admin bucket's `oauth:` keys. */
module OAuthService {
  import opened Wrappers
  import opened OAuthStore

  function Insert(rows: seq<Row>, row: Row): (r: seq<Row>)
    ensures |r| == |rows| + 1
  {
    if rows == [] then [row]
    else if rows[0].grantedAt < row.grantedAt then [row] + rows
    else [rows[0]] + Insert(rows[1..], row)
  }

  predicate NewestFirst(rows: seq<Row>) {
    forall i, j :: 0 <= i < j < |rows| ==> rows[i].grantedAt >= rows[j].grantedAt
  }

  lemma {:induction false} InsertSorts(rows: seq<Row>, row: Row)
    requires NewestFirst(rows)
    ensures NewestFirst(Insert(rows, row)) && forall r :: r in Insert(rows, row) ==> r in rows || r == row
  {
    if rows != [] && rows[0].grantedAt >= row.grantedAt {
      InsertSorts(rows[1..], row);
      var rest := Insert(rows[1..], row);
      forall j | 0 <= j < |rest| ensures rows[0].grantedAt >= rest[j].grantedAt {
        assert rest[j] in rest;
      }
    }
  }

  /** The best row per client among the tokens seen so far. */
  ghost predicate Collected(s: Store, user: UserId, byClient: map<ClientId, Row>, seen: set<Hash>) {
    && (forall c :: c in byClient ==> byClient[c].client == c && RowAmong(s, user, byClient[c], seen))
    && (forall h :: h in seen && h in s.refresh && Grants(s, user, s.refresh[h].client, h) ==>
        s.refresh[h].client in byClient)
  }

  /** What one more token does to the rows. */
  function Collect(s: Store, byClient: map<ClientId, Row>, h: Hash): map<ClientId, Row> {
    if h !in s.refresh || !Active(s.refresh[h]) || s.refresh[h].client !in s.clients then byClient
    else
      var row := RowFor(s, h);
      if row.client !in byClient || row.grantedAt > byClient[row.client].grantedAt then byClient[row.client := row]
      else byClient
  }

  lemma CollectOneMore(s: Store, user: UserId, byClient: map<ClientId, Row>, seen: set<Hash>, h: Hash)
    requires Collected(s, user, byClient, seen) && (h in s.refresh ==> s.refresh[h].user == user)
    ensures Collected(s, user, Collect(s, byClient, h), seen + {h})
  {
    var next := Collect(s, byClient, h);
    forall c | c in next ensures next[c].client == c && RowAmong(s, user, next[c], seen + {h}) {
      if c in byClient {
        assert RowAmong(s, user, byClient[c], seen);
        var g :| g in seen && Grants(s, user, c, g) && byClient[c] == RowFor(s, g);
      }
      if h in s.refresh && s.refresh[h].client == c && Active(s.refresh[h]) {
        assert Grants(s, user, c, h);
      }
    }
  }

  class OAuth {
    var clients: map<ClientId, Client>
    var pending: map<Nonce, Pending>
    var codes: map<Code, CodeRecord>
    var refresh: map<Hash, Refresh>
    var refreshByUser: map<UserId, set<Hash>>
    var access: map<Hash, Access>

    ghost function State(): Store
      reads this
    {
      Store(clients, pending, codes, refresh, refreshByUser, access)
    }

    method SaveRefreshToken(h: Hash, r: Refresh)
      modifies this`refresh, this`refreshByUser
      ensures State() == SaveRefresh(old(State()), h, r)
    {
      refresh := refresh[h := r];
      var owned := if r.user in refreshByUser then refreshByUser[r.user] else {};
      refreshByUser := refreshByUser[r.user := owned + {h}];
    }

    method ConsumePending(n: Nonce) returns (r: Option<Pending>)
      modifies this`pending
      ensures (State(), r) == OAuthStore.ConsumePending(old(State()), n)
    {
      r := if n in pending then Some(pending[n]) else None;
      if r.Some? {
        pending := pending - {n};
      }
    }

    method ConsumeAuthorizationCode(c: Code, now: int) returns (r: Option<CodeRecord>)
      modifies this`codes
      ensures (State(), r) == ConsumeCode(old(State()), c, now)
    {
      if c !in codes || codes[c].usedAt.Some? {
        return None;
      }
      var record := codes[c].(usedAt := Some(now));
      codes := codes[c := record];
      r := Some(record);
    }

    method ConsumeRefreshToken(h: Hash, now: int) returns (r: Option<Refresh>)
      modifies this`refresh
      ensures (State(), r) == ConsumeRefresh(old(State()), h, now)
    {
      if h !in refresh || refresh[h].usedAt.Some? || refresh[h].revokedAt.Some? {
        return None;
      }
      var record := refresh[h].(usedAt := Some(now));
      refresh := refresh[h := record];
      r := Some(record);
    }

    method ConsentSubmit(n: Nonce, user: UserId, action: Action, code: Code, now: int) returns (r: Option<Code>)
      modifies this`pending, this`codes
      ensures (State(), r) == Consent(old(State()), n, user, action, code, now)
    {
      var found := ConsumePending(n);
      if found.None? || action.Deny? || !action.Approve? {
        return None;
      }
      var p := found.value;
      codes := codes[code := CodeRecord(p.client, user, p.redirectUri, p.scope, p.challenge, now, None)];
      r := Some(code);
    }

    method Mint(client: ClientId, user: UserId, scope: string, a: Hash, h: Hash, now: int)
      modifies this`access, this`refresh, this`refreshByUser
      ensures State() == Minted(old(State()), client, user, scope, a, h, now)
    {
      access := access[a := Access(client, user, scope, now, now + ACCESS_TOKEN_TTL)];
      SaveRefreshToken(h, Refresh(client, user, scope, now, None, None));
    }

    method AuthorizationCodeGrant(sha: Digest, client: ClientId, secretOk: bool, code: Code, redirectUri: string,
                                  verifier: string, a: Hash, h: Hash, now: int) returns (r: Result<Tokens, OAuthError>)
      modifies this`codes, this`access, this`refresh, this`refreshByUser
      ensures (State(), r) ==
        ExchangeCode(old(State()), sha, client, secretOk, code, redirectUri, verifier, a, h, now)
    {
      if client !in clients || clients[client].revokedAt.Some? || !secretOk {
        return Err(InvalidClient);
      }
      var found := ConsumeAuthorizationCode(code, now);
      if found.None? {
        return Err(InvalidGrant);
      }
      var consumed := found.value;
      if consumed.client != client {
        return Err(InvalidGrant);
      }
      if consumed.redirectUri != redirectUri {
        return Err(InvalidGrant);
      }
      if sha(verifier) != consumed.challenge {
        return Err(InvalidGrant);
      }
      Mint(client, consumed.user, consumed.scope, a, h, now);
      r := Ok(Tokens(a, h, consumed.scope));
    }

    method RefreshTokenGrant(client: ClientId, secretOk: bool, presented: Hash, a: Hash, h: Hash, now: int)
      returns (r: Result<Tokens, OAuthError>)
      modifies this`access, this`refresh, this`refreshByUser
      ensures (State(), r) == RotateRefresh(old(State()), client, secretOk, presented, a, h, now)
    {
      if client !in clients || clients[client].revokedAt.Some? || !secretOk {
        return Err(InvalidClient);
      }
      var found := ConsumeRefreshToken(presented, now);
      if found.None? {
        return Err(InvalidGrant);
      }
      var consumed := found.value;
      if consumed.client != client {
        return Err(InvalidGrant);
      }
      Mint(consumed.client, consumed.user, consumed.scope, a, h, now);
      r := Ok(Tokens(a, h, consumed.scope));
    }

    method RevokeToken(client: ClientId, secretOk: bool, h: Hash, now: int) returns (r: Result<(), OAuthError>)
      modifies this`access, this`refresh, this`refreshByUser
      ensures (State(), r) == Revoke(old(State()), client, secretOk, h, now)
    {
      if client !in clients || clients[client].revokedAt.Some? || !secretOk {
        return Err(InvalidClient);
      }
      r := Ok(());
      if h in access {
        if access[h].client == client {
          access := access - {h};
        }
        return;
      }
      if h in refresh && refresh[h].client == client && refresh[h].revokedAt.None? {
        SaveRefreshToken(h, refresh[h].(revokedAt := Some(now)));
      }
    }

    /** Walk the user's index, keep the latest grant per client, and sort newest first. */
    method ListActiveGrants(user: UserId) returns (rows: seq<Row>)
      requires IndexComplete(State()) && IndexOwn(State())
      ensures IsListing(State(), user, rows)
    {
      ghost var s := State();
      var hashes := if user in refreshByUser then refreshByUser[user] else {};
      var todo := hashes;
      var byClient: map<ClientId, Row> := map[];
      while todo != {}
        invariant todo <= hashes && Collected(s, user, byClient, hashes - todo)
        decreases todo
      {
        EmptyOrHasMember(todo);
        var h :| h in todo;
        ghost var before := byClient;
        if h in refresh && refresh[h].usedAt.None? && refresh[h].revokedAt.None? && refresh[h].client in clients {
          var r := refresh[h];
          var row := Row(r.client, clients[r.client].name, r.scope, r.createdAt, r.createdAt + REFRESH_TOKEN_TTL);
          if r.client !in byClient || row.grantedAt > byClient[r.client].grantedAt {
            byClient := byClient[r.client := row];
          }
        }
        CollectOneMore(s, user, before, hashes - todo, h);
        assert hashes - (todo - {h}) == (hashes - todo) + {h};
        todo := todo - {h};
      }
      assert hashes - todo == Indexed(s, user);
      rows := SortedRows(byClient);
      RowsList(s, user, byClient, rows);
    }

    /** Mark every token of the user's grants for the client, and count them. */
    method RevokeGrantsForClient(user: UserId, client: ClientId, now: int) returns (revoked: nat)
      requires IndexComplete(State()) && IndexOwn(State())
      modifies this`refresh, this`refreshByUser
      ensures State() == Marked(old(State()), Revocable(old(State()), user, client), now)
      ensures revoked == |Revocable(old(State()), user, client)|
    {
      ghost var s := State();
      ghost var all, done := Revocable(s, user, client), {};
      var hashes := if user in refreshByUser then refreshByUser[user] else {};
      var todo := hashes;
      revoked := 0;
      assert Marked(s, {}, now).refresh == s.refresh;
      while todo != {}
        invariant todo <= Indexed(s, user)
        invariant done <= all && done !! todo && forall h :: h in all ==> h in done || h in todo
        invariant State() == Marked(s, done, now) && revoked == |done|
        decreases todo
      {
        EmptyOrHasMember(todo);
        var h :| h in todo;
        todo := todo - {h};
        if h in refresh && refresh[h].client == client && refresh[h].revokedAt.None? {
          MarkOneMore(s, done, h, now);
          SaveRefreshToken(h, refresh[h].(revokedAt := Some(now)));
          revoked := revoked + 1;
          done := done + {h};
        }
      }
      assert forall x :: x in all ==> x in done || x in todo;
      assert all <= done;
      assert done == all;
    }
  }

  lemma MarkOneMore(s: Store, done: set<Hash>, h: Hash, now: int)
    requires IndexComplete(s) && h in s.refresh && h !in done
    ensures
      var m := Marked(s, done, now);
      h in m.refresh && SaveRefresh(m, h, m.refresh[h].(revokedAt := Some(now))) == Marked(s, done + {h}, now)
  {
    var m := Marked(s, done, now);
    var next := SaveRefresh(m, h, m.refresh[h].(revokedAt := Some(now)));
    assert next.refresh == Marked(s, done + {h}, now).refresh;
    assert h in Indexed(s, s.refresh[h].user) && Indexed(s, s.refresh[h].user) + {h} == Indexed(s, s.refresh[h].user);
    assert next.refreshByUser == s.refreshByUser;
  }

  /** These rows are the map's values, newest first. */
  ghost predicate AreRows(rows: seq<Row>, byClient: map<ClientId, Row>, keys: set<ClientId>) {
    && NewestFirst(rows)
    && (forall i :: 0 <= i < |rows| ==>
          rows[i].client in keys && rows[i].client in byClient && rows[i] == byClient[rows[i].client])
    && (forall i, j :: 0 <= i < j < |rows| ==> rows[i].client != rows[j].client)
    && (forall c :: c in keys ==> HasRow(rows, c))
  }

  method SortedRows(byClient: map<ClientId, Row>) returns (rows: seq<Row>)
    requires forall c :: c in byClient ==> byClient[c].client == c
    ensures AreRows(rows, byClient, byClient.Keys)
  {
    rows := [];
    var todo := byClient.Keys;
    while todo != {}
      invariant todo <= byClient.Keys && AreRows(rows, byClient, byClient.Keys - todo)
      decreases todo
    {
      EmptyOrHasMember(todo);
      var c :| c in todo;
      InsertKeepsRows(rows, byClient, byClient.Keys - todo, c);
      rows := Insert(rows, byClient[c]);
      assert byClient.Keys - (todo - {c}) == (byClient.Keys - todo) + {c};
      todo := todo - {c};
    }
    assert byClient.Keys - todo == byClient.Keys;
  }

  /** `next` is `rows` with `row` put in at `k`. */
  ghost predicate Placed(rows: seq<Row>, row: Row, k: int, next: seq<Row>) {
    && 0 <= k <= |rows| && |next| == |rows| + 1 && next[k] == row
    && (forall i :: 0 <= i < k ==> next[i] == rows[i])
    && (forall i :: k < i < |next| ==> next[i] == rows[i - 1])
  }

  lemma {:induction false} InsertPlaces(rows: seq<Row>, row: Row) returns (k: nat)
    ensures Placed(rows, row, k, Insert(rows, row))
  {
    if rows == [] || rows[0].grantedAt < row.grantedAt {
      k := 0;
    } else {
      var j := InsertPlaces(rows[1..], row);
      k := j + 1;
      assert Insert(rows, row) == [rows[0]] + Insert(rows[1..], row);
    }
  }

  lemma PlacedKeepsRows(rows: seq<Row>, byClient: map<ClientId, Row>, keys: set<ClientId>, c: ClientId, k: int,
                        next: seq<Row>)
    requires AreRows(rows, byClient, keys) && c in byClient && byClient[c].client == c && c !in keys
    requires Placed(rows, byClient[c], k, next) && NewestFirst(next)
    ensures AreRows(next, byClient, keys + {c})
  {
    forall i | 0 <= i < |next|
      ensures next[i].client in keys + {c} && next[i].client in byClient && next[i] == byClient[next[i].client]
      ensures i != k ==> next[i].client in keys
    {
      assert i < k || i == k || next[i] == rows[i - 1];
    }
    forall i, j | 0 <= i < j < |next| ensures next[i].client != next[j].client {
      assert i < k || i == k || next[i] == rows[i - 1];
      assert j < k || j == k || next[j] == rows[j - 1];
    }
    forall d | d in keys + {c} ensures HasRow(next, d) { PlacedHasRow(rows, byClient[c], k, next, d); }
  }

  lemma PlacedHasRow(rows: seq<Row>, row: Row, k: int, next: seq<Row>, d: ClientId)
    requires Placed(rows, row, k, next) && (d == row.client || HasRow(rows, d))
    ensures HasRow(next, d)
  {
    if d == row.client {
      assert next[k].client == d;
    } else {
      var i :| 0 <= i < |rows| && rows[i].client == d;
      assert next[if i < k then i else i + 1].client == d;
    }
  }

  lemma InsertKeepsRows(rows: seq<Row>, byClient: map<ClientId, Row>, keys: set<ClientId>, c: ClientId)
    requires AreRows(rows, byClient, keys) && c in byClient && byClient[c].client == c && c !in keys
    ensures AreRows(Insert(rows, byClient[c]), byClient, keys + {c})
  {
    InsertSorts(rows, byClient[c]);
    var k := InsertPlaces(rows, byClient[c]);
    PlacedKeepsRows(rows, byClient, keys, c, k, Insert(rows, byClient[c]));
  }

  lemma RowsList(s: Store, user: UserId, byClient: map<ClientId, Row>, rows: seq<Row>)
    requires IndexComplete(s) && Collected(s, user, byClient, Indexed(s, user))
      && AreRows(rows, byClient, byClient.Keys)
    ensures IsListing(s, user, rows)
  {
    forall i | 0 <= i < |rows| ensures RowOf(s, user, rows[i]) {
      assert RowAmong(s, user, byClient[rows[i].client], Indexed(s, user));
      IndexSuffices(s, user, rows[i]);
    }
    forall h | h in s.refresh && Grants(s, user, s.refresh[h].client, h) ensures HasRow(rows, s.refresh[h].client) {
      assert h in Indexed(s, user);
    }
  }
}
