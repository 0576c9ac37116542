/** Which stores a lookup by e-mail can fail in: none that grew from a fresh deployment, some that
    carry records from before e-mails were stored. And what a reused bootstrap secret does. */
module AccountOrigins {
  import opened Wrappers
  import opened Accounts
  import T = Tokens
  import Text

  /** Every user that decodes stores its e-mail, and every index entry leads to the user storing it. */
  ghost predicate Modern(s: Store) {
    && (forall id :: Decodes(s, id) ==> Fields(s, id).primaryEmail.Some?)
    && (forall e :: e in s.byEmail ==> LeadsHome(s, e, s.byEmail[e]))
  }

  ghost predicate LeadsHome(s: Store, email: string, id: UserId) {
    Decodes(s, id) && Fields(s, id).primaryEmail == Some(email)
  }

  lemma EmptyIsModern()
    ensures Inv(EMPTY) && Modern(EMPTY)
  {
    EmptyIsConsistent();
  }

  // ---- Every operation keeps it -------------------------------------------------

  lemma SameUsersModern(s: Store, s': Store)
    requires Modern(s) && s'.users == s.users && s'.byEmail == s.byEmail
    ensures Modern(s')
  {
    assert forall id :: Decodes(s', id) <==> Decodes(s, id);
    assert forall e, id :: LeadsHome(s, e, id) ==> LeadsHome(s', e, id);
  }

  lemma IndexedModern(s: Store, email: string, id: UserId)
    requires Modern(s) && LeadsHome(s, email, id)
    ensures Modern(s.(byEmail := s.byEmail[email := id]))
  {
    var s' := s.(byEmail := s.byEmail[email := id]);
    assert forall i :: Decodes(s', i) <==> Decodes(s, i);
    assert forall e, i :: LeadsHome(s, e, i) ==> LeadsHome(s', e, i);
  }

  /** The lookup is the scan: no guard, no failure. */
  lemma FindModern(s: Store, email: string)
    requires UsersOk(s) && Modern(s)
    ensures Find(s, email).1 == Ok(Scan(s, email)) && Modern(Find(s, email).0)
  {
    FindRefinesScan(s, email);
    if email in s.byEmail {
      assert LeadsHome(s, email, s.byEmail[email]);
    } else if Scan(s, email).Some? {
      ScanFinds(s, email);
      var u := Scan(s, email).value;
      assert s.users[u.id].id == Some(u.id);
      assert LeadsHome(s, email, u.id);
      IndexedModern(s, email, u.id);
    }
  }

  lemma FieldsModern(s: Store, id: UserId, f: UserHash)
    requires Modern(s) && Decodes(s, id) && Decode(f).Ok? && f.primaryEmail == Fields(s, id).primaryEmail
    ensures Modern(s.(users := s.users[id := f]))
  {
    var s' := s.(users := s.users[id := f]);
    assert forall i :: Decodes(s', i) <==> Decodes(s, i);
    assert forall e, i :: LeadsHome(s, e, i) ==> LeadsHome(s', e, i);
  }

  lemma WriteNewUserModern(s: Store, email: string, isAdmin: bool, id: UserId, now: int)
    requires UsersOk(s) && Modern(s) && FreshUser(s, id)
    ensures Modern(WriteNewUser(s, email, isAdmin, id, now).0)
  {
    FindModern(s, email);
    FindRefinesScan(s, email);
    var (s1, found) := Find(s, email);
    if found == Ok(None) {
      var s2 := s1.(users := s1.users[id := NewHash(id, email, isAdmin, now)]);
      assert forall i :: i != id ==> (Decodes(s2, i) <==> Decodes(s1, i)) && Fields(s2, i) == Fields(s1, i);
      assert forall e, i :: i != id && LeadsHome(s1, e, i) ==> LeadsHome(s2, e, i);
      forall e | e in s1.byEmail ensures LeadsHome(s2, e, s1.byEmail[e]) { assert LeadsHome(s1, e, s1.byEmail[e]); }
      assert Modern(s2) && LeadsHome(s2, email, id);
      IndexedModern(s2, email, id);
      SameUsersModern(s2.(byEmail := s2.byEmail[email := id]), WriteNewUser(s, email, isAdmin, id, now).0);
    }
  }

  lemma WithAdminModern(s: Store, u: User, isAdmin: bool)
    requires Modern(s) && Decodes(s, u.id)
    ensures Modern(WithAdmin(s, u, isAdmin))
  {
    FieldsModern(s, u.id, Fields(s, u.id).(isAdmin := Some(isAdmin)));
  }

  lemma ReturningModern(s: Store, u: User, email: string, isAdmin: bool)
    requires UsersOk(s) && Modern(s) && u.id in s.listed && Read(s, u.id) == Ok(Some(u))
    ensures Modern(Returning(s, u, email, isAdmin).0)
  {
    WithAdminModern(s, u, isAdmin);
    var s1 := WithAdmin(s, u, isAdmin);
    assert LeadsHome(s1, u.email, u.id);
    IndexedModern(s1, u.email, u.id);
    assert Returning(s, u, email, isAdmin).0 == s1.(byEmail := s1.byEmail[u.email := u.id]);
  }

  lemma LinkModern(s: Store, provider: string, subject: string, email: string, isAdmin: bool, id: UserId, now: int)
    requires UsersOk(s) && Modern(s) && FreshUser(s, id)
    ensures Modern(LinkFirstSeen(s, provider, subject, email, isAdmin, id, now).0)
  {
    FindModern(s, email);
    FindRefinesScan(s, email);
    var (s1, found) := Find(s, email);
    var s' := LinkFirstSeen(s, provider, subject, email, isAdmin, id, now).0;
    if found.value.Some? {
      FoundIsListed(s, email);
      var linked := WithIdentity(s1, provider, subject, found.value.value.id);
      SameUsersModern(s1, linked);
      WithAdminModern(linked, found.value.value, isAdmin);
      assert s' == WithAdmin(linked, found.value.value, isAdmin);
    } else {
      FreshAfterFind(s, email, id);
      WriteNewUserModern(s1, email, isAdmin, id, now);
      SameUsersModern(WriteNewUser(s1, email, isAdmin, id, now).0, s');
    }
  }

  lemma UpsertLocalModern(s: Store, email: string, isAdmin: bool, id: UserId, now: int)
    requires UsersOk(s) && Modern(s) && FreshUser(s, id)
    ensures Modern(UpsertLocalAs(s, email, isAdmin, id, now).0)
  {
    FindModern(s, email);
    FindRefinesScan(s, email);
    var (s1, found) := Find(s, email);
    var s' := UpsertLocalAs(s, email, isAdmin, id, now).0;
    if found.value.Some? {
      FoundIsListed(s, email);
      WithAdminModern(s1, found.value.value, isAdmin);
      SameUsersModern(WithAdmin(s1, found.value.value, isAdmin), s');
    } else {
      FreshAfterFind(s, email, id);
      WriteNewUserModern(s1, email, isAdmin, id, now);
      SameUsersModern(WriteNewUser(s1, email, isAdmin, id, now).0, s');
    }
  }

  lemma UpsertOauthModern(s: Store, provider: string, subject: string, email: string, isAdmin: bool, id: UserId,
                          now: int)
    requires UsersOk(s) && Modern(s) && FreshUser(s, id)
    ensures Modern(UpsertOauthAs(s, provider, subject, email, isAdmin, id, now).0)
  {
    var key := (provider, subject);
    var s' := UpsertOauthAs(s, provider, subject, email, isAdmin, id, now).0;
    if key !in s.byIdentity {
      LinkModern(s, provider, subject, email, isAdmin, id, now);
      assert s' == LinkFirstSeen(s, provider, subject, email, isAdmin, id, now).0;
    } else if Read(s, s.byIdentity[key]).Err? {
      assert s' == s;
    } else if Read(s, s.byIdentity[key]) == Ok(None) {
      var dropped := s.(byIdentity := s.byIdentity - {key});
      IdentityKeepsOk(s, key, id);
      SameUsersModern(s, dropped);
      assert FreshUser(dropped, id) by { assert dropped.byIdentity.Values <= s.byIdentity.Values; }
      LinkModern(dropped, provider, subject, email, isAdmin, id, now);
      assert s' == LinkFirstSeen(dropped, provider, subject, email, isAdmin, id, now).0;
    } else {
      assert LeadsToListed(s, s.byIdentity[key]);
      ReturningModern(s, Read(s, s.byIdentity[key]).value.value, email, isAdmin);
      assert s' == Returning(s, Read(s, s.byIdentity[key]).value.value, email, isAdmin).0;
    }
  }

  lemma BootstrapModern(s: Store, email: string, secret: T.Secret, id: UserId, token: T.TokenId, now: int)
    requires UsersOk(s) && Modern(s) && FreshUser(s, id)
    ensures Modern(BootstrapAdminAs(s, email, secret, id, token, now).0)
  {
    FindModern(s, email);
    FindRefinesScan(s, email);
    var (s1, found) := Find(s, email);
    var s' := BootstrapAdminAs(s, email, secret, id, token, now).0;
    if found == Ok(None) {
      FreshAfterFind(s, email, id);
      WriteNewUserModern(s1, email, true, id, now);
      assert s' == BootstrapNew(s1, email, secret, id, token, now).0;
      var made := WriteNewUser(s1, email, true, id, now).0;
      assert s' == s1 || (s'.users == made.users && s'.byEmail == made.byEmail);
      if s' != s1 { SameUsersModern(made, s'); }
    } else {
      assert s' == s1;
    }
  }

  lemma DeleteModern(s: Store, id: UserId)
    requires Inv(s) && Modern(s)
    ensures Modern(DeleteUser(s, id).0)
  {
    DeleteUserKeeps(s, id);
    if Decodes(s, id) {
      var s' := DeleteUser(s, id).0;
      assert Fields(s', id) == Residue(Fields(s, id)) && !Decodes(s', id);
      assert forall i :: i != id ==> (Decodes(s', i) <==> Decodes(s, i));
      forall e | e in s'.byEmail ensures LeadsHome(s', e, s'.byEmail[e]) { assert LeadsHome(s, e, s.byEmail[e]); }
    }
  }

  lemma FlagModern(s: Store, op: Op)
    requires Inv(s) && Modern(s) && (op.SetAdmin? || op.BumpEpoch?)
    ensures Modern(Apply(s, op))
  {
    if !Decodes(s, op.user) {
      assert Apply(s, op) == s;
    } else if op.SetAdmin? {
      FieldsModern(s, op.user, Fields(s, op.user).(isAdmin := Some(op.isAdmin)));
    } else {
      FieldsModern(s, op.user, Fields(s, op.user).(epoch := Some(Decode(Fields(s, op.user)).value.epoch + 1)));
    }
  }

  lemma TokenOpModern(s: Store, op: Op)
    requires Modern(s) && (op.NewToken? || op.RenameToken? || op.RevokeToken? || op.Login?)
    ensures Modern(Apply(s, op))
  {
    SameUsersModern(s, Apply(s, op));
  }

  lemma OpModern(s: Store, op: Op)
    requires Inv(s) && Modern(s) && Admissible(s, op)
    ensures Modern(Apply(s, op))
  {
    match op
    case Bootstrap(raw, secret, id, token, now) => BootstrapModern(s, Normalize(raw), secret, id, token, now);
    case Create(raw, isAdmin, id, now) => WriteNewUserModern(s, Normalize(raw), isAdmin, id, now);
    case LocalLogin(raw, isAdmin, id, now) => UpsertLocalModern(s, Normalize(raw), isAdmin, id, now);
    case OauthLogin(provider, subject, raw, isAdmin, id, now) =>
      UpsertOauthModern(s, provider, subject, Normalize(raw), isAdmin, id, now);
    case Lookup(raw) => FindModern(s, Normalize(raw));
    case SetAdmin(_, _) => FlagModern(s, op);
    case BumpEpoch(_) => FlagModern(s, op);
    case Delete(user) => DeleteModern(s, user);
    case _ => TokenOpModern(s, op);
  }

  lemma {:induction false} RunsStayModern(s: Store, ops: seq<Op>, end: Store)
    requires Inv(s) && Modern(s) && Reaches(s, ops, end)
    ensures Inv(end) && Modern(end)
    decreases |ops|
  {
    if ops != [] {
      OpKeepsInv(s, ops[0]);
      OpModern(s, ops[0]);
      RunsStayModern(Apply(s, ops[0]), ops[1..], end);
    }
  }

  /** In every run from a store in which users store their e-mails, whatever was created, linked,
      deleted and recreated, every lookup by e-mail succeeds and gives what the scan gives. */
  lemma ModernLookupsNeverFail(s: Store, ops: seq<Op>, end: Store, email: string)
    requires Inv(s) && Modern(s) && Reaches(s, ops, end)
    ensures Find(end, email).1 == Ok(Scan(end, email))
  {
    RunsStayModern(s, ops, end);
    FindModern(end, email);
  }

  /** A fresh deployment is such a store. */
  lemma FreshLookupsNeverFail(ops: seq<Op>, end: Store, email: string)
    requires Reaches(EMPTY, ops, end)
    ensures Find(end, email).1 == Ok(Scan(end, email))
  {
    EmptyIsModern();
    ModernLookupsNeverFail(EMPTY, ops, end, email);
  }

  // ---- A lookup that fails ----------------------------------------------------------

  /** Already normal: no capitals, no blanks at the ends. */
  predicate IsPlain(s: string) {
    && s != [] && !Text.IsWhitespace(s[0]) && !Text.IsWhitespace(s[|s| - 1])
    && (forall i :: 0 <= i < |s| ==> !('A' <= s[i] <= 'Z'))
  }

  lemma NormalizePlain(s: string)
    requires IsPlain(s)
    ensures Normalize(s) == s
  {
    Text.TrimNothing(s);
    assert forall i :: 0 <= i < |s| ==> Text.AsciiLower(s)[i] == s[i];
  }

  const GH := ("gh", "1")

  function Record(name: string, email: Option<string>, epoch: Option<int>): UserHash {
    UserHash(Some(1), Some(name), email, Some(false), Some(0), epoch)
  }

  function With(f: UserHash, byEmail: map<string, UserId>, listed: set<UserId>): Store {
    EMPTY.(users := map[1 := f], byEmail := byEmail, byIdentity := map[GH := 1], listed := listed)
  }

  /** One user from before e-mails were stored, who has signed in through a provider. */
  function Legacy(name: string): Store {
    With(Record(name, None, None), map[], {1})
  }

  function Indexed(name: string): Store {
    With(Record(name, None, None), map[name := 1], {1})
  }

  function Backfilled(name: string, email: string, epoch: Option<int>): Store {
    With(Record(name, Some(email), epoch), map[name := 1, email := 1], {1})
  }

  function Left(name: string): Store {
    With(NO_FIELDS.(epoch := Some(1)), map[name := 1], {})
  }

  /** With one user, a scan finds that user or nobody. */
  lemma ScanOfOne(s: Store, email: string)
    requires forall i :: i in s.listed ==> i == 1
    ensures Scan(s, email) ==
      if 1 in s.listed && HasEmail(s, 1, email) then Some(Decode(Fields(s, 1)).value) else None
  {
  }

  lemma LegacyIsConsistent(name: string)
    ensures Inv(Legacy(name)) && !Modern(Legacy(name))
  {
    var s := Legacy(name);
    assert Decodes(s, 1) && forall i :: Decodes(s, i) ==> i == 1;
  }

  lemma LookupHeals(name: string)
    requires IsPlain(name) && '@' in name
    ensures Apply(Legacy(name), Lookup(name)) == Indexed(name)
  {
    NormalizePlain(name);
    ScanOfOne(Legacy(name), name);
    assert Find(Legacy(name), name).0 == Indexed(name);
  }

  lemma LoginBackfills(name: string, email: string, id: UserId, now: int)
    requires IsPlain(email) && name != email && id != 1
    ensures
      var op := OauthLogin("gh", "1", email, false, id, now);
      Admissible(Indexed(name), op) && Apply(Indexed(name), op) == Backfilled(name, email, None)
  {
    var s := Indexed(name);
    NormalizePlain(email);
    ScanOfOne(s, email);
    assert Find(s, email) == (s, Ok(None));
    assert Read(s, 1) == Ok(Some(User(1, name, false, 0, 0)));
    assert WithEmail(s, 1, email) == Backfilled(name, email, None);
  }

  lemma BumpStamps(name: string, email: string)
    ensures Apply(Backfilled(name, email, None), BumpEpoch(1)) == Backfilled(name, email, Some(1))
  {
  }

  lemma DeleteLeavesEntry(name: string, email: string)
    requires name != email
    ensures Apply(Backfilled(name, email, Some(1)), Delete(1)) == Left(name)
  {
    var s := Backfilled(name, email, Some(1));
    assert map[name := 1, email := 1] - {email} == map[name := 1];
    T.CascadesCompose(EMPTY.tokens, {}, {});
    assert Read(s, 1) == Ok(Some(User(1, email, false, 0, 1)));
  }

  lemma LeftBehindFails(name: string)
    ensures Find(Left(name), name) == (Left(name), Err(Malformed)) && Scan(Left(name), name).None?
  {
    ScanOfOne(Left(name), name);
  }

  /** From a legacy store: the old handle gets indexed by a lookup, a sign-in stores another e-mail,
      a sign-out-everywhere stamps an epoch, and deletion clears only the new e-mail's entry. The
      old handle's entry then leads to the residue, and its lookup fails where the scan finds nobody. */
  lemma LegacyLookupFails(name: string, email: string) returns (ops: seq<Op>, end: Store)
    requires IsPlain(name) && IsPlain(email) && '@' in name && name != email
    ensures Inv(Legacy(name)) && Reaches(Legacy(name), ops, end)
    ensures Find(end, name) == (end, Err(Malformed)) && Scan(end, name).None?
  {
    LegacyIsConsistent(name);
    LookupHeals(name);
    LoginBackfills(name, email, 2, 0);
    end := Left(name);
    LeftBehindFails(name);
    var rest := StampAndDelete(name, email);
    Prepend(Indexed(name), OauthLogin("gh", "1", email, false, 2, 0), Backfilled(name, email, None), rest, end);
    rest := [OauthLogin("gh", "1", email, false, 2, 0)] + rest;
    Prepend(Legacy(name), Lookup(name), Indexed(name), rest, end);
    ops := [Lookup(name)] + rest;
  }

  lemma StampAndDelete(name: string, email: string) returns (ops: seq<Op>)
    requires name != email
    ensures Reaches(Backfilled(name, email, None), ops, Left(name))
  {
    BumpStamps(name, email);
    DeleteLeavesEntry(name, email);
    Prepend(Backfilled(name, email, Some(1)), Delete(1), Left(name), [], Left(name));
    Prepend(Backfilled(name, email, None), BumpEpoch(1), Backfilled(name, email, Some(1)), [Delete(1)] + [],
            Left(name));
    ops := [BumpEpoch(1)] + ([Delete(1)] + []);
  }

  lemma Prepend(s: Store, op: Op, next: Store, ops: seq<Op>, end: Store)
    requires Admissible(s, op) && Apply(s, op) == next && Reaches(next, ops, end)
    ensures Reaches(s, [op] + ops, end)
  {
    var all := [op] + ops;
    assert all[0] == op && all[1..] == ops;
  }

  // ---- A bootstrap secret used twice --------------------------------------------------

  lemma MintedMeans(s: Store, email: string, secret: T.Secret, id: UserId, token: T.TokenId, now: int)
    requires UsersOk(s) && BootstrapAdminAs(s, email, secret, id, token, now).1 == Ok(true)
    ensures
      var s1 := Find(s, email).0;
      var (s2, made) := WriteNewUser(s1, email, true, id, now);
      && UsersOk(s1) && s1.users == s.users && s1.tokens == s.tokens && made.Ok?
      && BootstrapAdminAs(s, email, secret, id, token, now).0
           == s2.(tokens := T.Written(s2.tokens, token, made.value.id, "bootstrap", secret, None, now))
  {
    FindRefinesScan(s, email);
    var s1 := Find(s, email).0;
    assert BootstrapAdminAs(s, email, secret, id, token, now) == BootstrapNew(s1, email, secret, id, token, now);
  }

  /** What a bootstrap that makes an admin leaves: its record, its token, and all else. */
  lemma MintedBy(s: Store, email: string, secret: T.Secret, id: UserId, token: T.TokenId, now: int)
    requires UsersOk(s) && BootstrapAdminAs(s, email, secret, id, token, now).1 == Ok(true)
    ensures
      var s' := BootstrapAdminAs(s, email, secret, id, token, now).0;
      && s'.tokens == T.Written(s.tokens, token, id, "bootstrap", secret, None, now)
      && Read(s', id) == Ok(Some(User(id, email, true, now, 0)))
      && (forall i :: i != id ==> Fields(s', i) == Fields(s, i))
  {
    MintedMeans(s, email, secret, id, token, now);
    var s1 := Find(s, email).0;
    NewRecordIs(s1, email, id, now);
    forall i | i != id ensures Fields(BootstrapAdminAs(s, email, secret, id, token, now).0, i) == Fields(s, i) {
      assert Fields(s1, i) == Fields(s, i);
    }
  }

  lemma NewRecordIs(s: Store, email: string, id: UserId, now: int)
    requires UsersOk(s) && WriteNewUser(s, email, true, id, now).1.Ok?
    ensures WriteNewUser(s, email, true, id, now).0.users == s.users[id := NewHash(id, email, true, now)]
    ensures WriteNewUser(s, email, true, id, now).0.tokens == s.tokens
    ensures WriteNewUser(s, email, true, id, now).1 == Ok(User(id, email, true, now, 0))
  {
    FindRefinesScan(s, email);
  }

  /** The secret is configured, not generated: keeping it while changing the e-mail makes a second
      live token of it. It then signs in the new admin, and revoking the old token ends that too,
      with the new token still on record. */
  lemma ReusedSecretLocksOut(s: Store, email: string, secret: T.Secret, id: UserId, token: T.TokenId, now: int,
                             later: int)
    requires Inv(s) && FreshUser(s, id) && T.FreshToken(s.tokens, token) && secret in s.tokens.byHash
    requires BootstrapAdminAs(s, email, secret, id, token, now).1 == Ok(true)
    ensures
      var s', first := BootstrapAdminAs(s, email, secret, id, token, now).0, s.tokens.byHash[secret];
      && first != token && T.Live(s'.tokens, first) && T.Live(s'.tokens, token)
      && s'.tokens.records[first].hash == s'.tokens.records[token].hash == Some(secret)
      && Authenticate(s', secret, later).1 == Ok(Some(Context(id, email, true, token)))
      && s'.tokens.records[first].owner.Some? && s'.tokens.records[first].name.Some?
      && var f := s'.tokens.records[first];
         var revoked := s'.(tokens := T.Revoke(s'.tokens, f.owner.value, f.name.value).0);
         Authenticate(revoked, secret, later).1 == Ok(None) && T.Live(revoked.tokens, token)
  {
    MintedBy(s, email, secret, id, token, now);
    var first := s.tokens.byHash[secret];
    assert T.HashLeads(s.tokens, secret) && T.Whole(s.tokens.records[first], first);
    assert T.Indexed(s.tokens, first, s.tokens.records[first]);
    assert Decodes(s, s.tokens.records[first].owner.value) && !Decodes(s, id);
  }

  /** A fresh deployment after its first configured start. */
  function FirstUser(email: string): Store {
    EMPTY.(users := map[1 := NewHash(1, email, true, 0)], byEmail := map[email := 1], listed := {1})
  }

  function Started(email: string, secret: T.Secret): Store {
    FirstUser(email).(tokens := T.Written(EMPTY.tokens, 1, 1, "bootstrap", secret, None, 0))
  }

  lemma NobodyYet(email: string)
    ensures Find(EMPTY, email) == (EMPTY, Ok(None))
  {
    ScanFinds(EMPTY, email);
  }

  lemma FirstIsWritten(email: string)
    ensures WriteNewUser(EMPTY, email, true, 1, 0) == (FirstUser(email), Ok(User(1, email, true, 0, 0)))
  {
    NobodyYet(email);
    assert EMPTY.users[1 := NewHash(1, email, true, 0)] == map[1 := NewHash(1, email, true, 0)];
    assert EMPTY.byEmail[email := 1] == map[email := 1];
    assert EMPTY.listed + {1} == {1};
  }

  lemma FirstStart(email: string, secret: T.Secret)
    ensures BootstrapAdminAs(EMPTY, email, secret, 1, 1, 0) == (Started(email, secret), Ok(true))
  {
    NobodyYet(email);
    FirstIsWritten(email);
    assert BootstrapAdminAs(EMPTY, email, secret, 1, 1, 0) == BootstrapNew(EMPTY, email, secret, 1, 1, 0);
  }

  lemma SecondStart(a: string, b: string, secret: T.Secret)
    requires a != b
    ensures FreshUser(Started(a, secret), 2) && T.FreshToken(Started(a, secret).tokens, 2)
    ensures secret in Started(a, secret).tokens.byHash
    ensures BootstrapAdminAs(Started(a, secret), b, secret, 2, 2, 0).1 == Ok(true)
  {
    var s := Started(a, secret);
    ScanOfOne(s, b);
    assert Find(s, b) == (s, Ok(None));
    assert BootstrapAdminAs(s, b, secret, 2, 2, 0) == BootstrapNew(s, b, secret, 2, 2, 0);
    assert WriteNewUser(s, b, true, 2, 0).1 == Ok(User(2, b, true, 0, 0));
  }

  /** Two configured starts of a fresh deployment get there: same secret, another e-mail. */
  lemma SecretCanBeReused(a: string, b: string, secret: T.Secret)
    requires IsPlain(a) && IsPlain(b) && a != b
    ensures
      var s := Started(a, secret);
      && Reaches(EMPTY, [Bootstrap(a, secret, 1, 1, 0)], s) && secret in s.tokens.byHash
      && FreshUser(s, 2) && T.FreshToken(s.tokens, 2) && BootstrapAdmin(s, b, secret, 2, 2, 0).1 == Ok(true)
  {
    NormalizePlain(a);
    NormalizePlain(b);
    FirstStart(a, secret);
    SecondStart(a, b, secret);
    var ops := [Bootstrap(a, secret, 1, 1, 0)];
    Prepend(EMPTY, Bootstrap(a, secret, 1, 1, 0), Started(a, secret), [], Started(a, secret));
    assert ops + [] == ops;
  }
}
