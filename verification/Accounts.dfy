/** Users behind a self-healing e-mail index, and the tokens they own. */
module Accounts {
  import opened Wrappers
  import T = Tokens
  import Text

  type UserId = T.UserId

  /** The fields of a `user:{id}` hash. Legacy records carry `name` and no `primaryEmail`. */
  datatype UserHash = UserHash(id: Option<UserId>, name: Option<string>, primaryEmail: Option<string>,
                               isAdmin: Option<bool>, createdAt: Option<int>, epoch: Option<int>)

  datatype User = User(id: UserId, email: string, isAdmin: bool, createdAt: int, epoch: int)

  datatype AuthError = NotFound | NameTaken | EmailTaken | Malformed

  datatype Context = Context(user: UserId, email: string, isAdmin: bool, token: T.TokenId)

  datatype Store = Store(
    users: map<UserId, UserHash>,
    byEmail: map<string, UserId>,
    byName: map<string, UserId>,
    byIdentity: map<(string, string), UserId>,
    listed: set<UserId>,
    tokens: T.TokenStore)

  const NO_FIELDS := UserHash(None, None, None, None, None, None)

  function Normalize(email: string): string {
    Text.AsciiLower(Text.Trim(email))
  }

  lemma NormalizeIsStable(email: string)
    ensures Normalize(Normalize(email)) == Normalize(email)
  {
    var t := Text.Trim(email);
    var n := Text.AsciiLower(t);
    Text.TrimmedEnds(email);
    if t != [] {
      assert n[0] == Text.LowerChar(t[0]) && n[|n| - 1] == Text.LowerChar(t[|t| - 1]);
    }
    Text.TrimNothing(n);
    Text.LowerIsStable(t);
  }

  function Fields(s: Store, id: UserId): UserHash {
    if id in s.users then s.users[id] else NO_FIELDS
  }

  function Decode(f: UserHash): Result<User, AuthError> {
    if (f.primaryEmail.Some? || f.name.Some?) && f.id.Some? && f.isAdmin.Some? && f.createdAt.Some?
    then Ok(User(f.id.value, if f.primaryEmail.Some? then f.primaryEmail.value else f.name.value,
                 f.isAdmin.value, f.createdAt.value, if f.epoch.Some? then f.epoch.value else 0))
    else Err(Malformed)
  }

  /** `Ok(None)`: no such record. */
  function Read(s: Store, id: UserId): Result<Option<User>, AuthError> {
    if Fields(s, id) == NO_FIELDS then Ok(None)
    else
      match Decode(Fields(s, id))
      case Ok(u) => Ok(Some(u))
      case Err(e) => Err(e)
  }

  predicate HasEmail(s: Store, id: UserId, email: string) {
    Decode(Fields(s, id)).Ok? && Decode(Fields(s, id)).value.email == email
  }

  predicate Decodes(s: Store, id: UserId) {
    Decode(Fields(s, id)).Ok?
  }

  // ---- Consistency ------------------------------------------------------------

  /** Whatever an index entry leads to, if it decodes at all, is a listed user. */
  ghost predicate LeadsToListed(s: Store, id: UserId) {
    Decodes(s, id) ==> id in s.listed
  }

  ghost predicate UsersOk(s: Store) {
    && (forall id :: Decodes(s, id) ==> s.users[id].id == Some(id))
    && (forall id :: id in s.listed ==> Decodes(s, id))
    && (forall e :: e in s.byEmail ==> LeadsToListed(s, s.byEmail[e]))
    && (forall n :: n in s.byName ==> LeadsToListed(s, s.byName[n]))
    && (forall k :: k in s.byIdentity ==> LeadsToListed(s, s.byIdentity[k]))
    && (forall i, j, e :: i in s.listed && j in s.listed && HasEmail(s, i, e) && HasEmail(s, j, e) ==> i == j)
  }

  ghost predicate OwnersExist(s: Store) {
    forall t :: T.Live(s.tokens, t) ==> s.tokens.records[t].owner.Some? && Decodes(s, s.tokens.records[t].owner.value)
  }

  ghost predicate Inv(s: Store) {
    UsersOk(s) && T.Agrees(s.tokens) && OwnersExist(s)
  }

  const EMPTY := Store(map[], map[], map[], map[], {}, T.TokenStore(map[], map[], map[], map[]))

  /** A fresh deployment is consistent, so every run from it is. */
  lemma EmptyIsConsistent()
    ensures Inv(EMPTY)
  {
  }

  /** An id nothing refers to yet. */
  ghost predicate FreshUser(s: Store, id: UserId) {
    && Fields(s, id) == NO_FIELDS && id !in s.listed
    && id !in s.byEmail.Values && id !in s.byName.Values && id !in s.byIdentity.Values
  }

  // ---- Lookup by e-mail ---------------------------------------------------------

  /** What a full scan of the listing finds. */
  ghost function Scan(s: Store, email: string): Option<User> {
    if exists id :: id in s.listed && HasEmail(s, id, email) then
      var id :| id in s.listed && HasEmail(s, id, email);
      Some(Decode(Fields(s, id)).value)
    else None
  }

  ghost function ScanAndHeal(s: Store, email: string): (Store, Result<Option<User>, AuthError>) {
    var found := Scan(s, email);
    (if found.Some? && '@' in email then s.(byEmail := s.byEmail[email := found.value.id]) else s, Ok(found))
  }

  ghost function Find(s: Store, email: string): (Store, Result<Option<User>, AuthError>) {
    if email in s.byEmail then
      match Read(s, s.byEmail[email])
      case Err(e) => (s, Err(e))
      case Ok(None) => ScanAndHeal(s.(byEmail := s.byEmail - {email}), email)
      case Ok(Some(u)) =>
        if u.email == email then (s, Ok(Some(u))) else ScanAndHeal(s.(byEmail := s.byEmail - {email}), email)
    else ScanAndHeal(s, email)
  }

  lemma ScanIsUnique(s: Store, email: string, id: UserId)
    requires UsersOk(s) && id in s.listed && HasEmail(s, id, email)
    ensures Scan(s, email) == Some(Decode(Fields(s, id)).value)
  {
    var j :| j in s.listed && HasEmail(s, j, email) && Scan(s, email) == Some(Decode(Fields(s, j)).value);
  }

  lemma ScanFinds(s: Store, email: string)
    ensures Scan(s, email).Some? ==>
      (exists id :: id in s.listed && HasEmail(s, id, email) && Scan(s, email) == Some(Decode(Fields(s, id)).value))
  {
  }

  lemma HealKeepsOk(s: Store, email: string, id: UserId)
    requires UsersOk(s) && id in s.listed
    ensures UsersOk(s.(byEmail := s.byEmail[email := id]))
  {
    var s' := s.(byEmail := s.byEmail[email := id]);
    assert forall i :: LeadsToListed(s, i) ==> LeadsToListed(s', i);
    assert forall i, e :: HasEmail(s', i, e) ==> HasEmail(s, i, e);
    assert forall i :: Decodes(s', i) <==> Decodes(s, i);
  }

  lemma DropKeepsOk(s: Store, email: string)
    requires UsersOk(s)
    ensures UsersOk(s.(byEmail := s.byEmail - {email}))
  {
    var s' := s.(byEmail := s.byEmail - {email});
    assert forall i :: LeadsToListed(s, i) ==> LeadsToListed(s', i);
    assert forall i, e :: HasEmail(s', i, e) ==> HasEmail(s, i, e);
    assert forall i :: Decodes(s', i) <==> Decodes(s, i);
  }

  lemma ScanAndHealIsScan(s: Store, d: Store, email: string)
    requires UsersOk(s) && UsersOk(d) && d == s.(byEmail := d.byEmail) && email !in d.byEmail
    ensures
      var (s', r) := ScanAndHeal(d, email);
      r == Ok(Scan(s, email)) && UsersOk(s') && s' == s.(byEmail := s'.byEmail)
        && (r == Ok(None) ==> email !in s'.byEmail)
  {
    assert forall i, e :: HasEmail(d, i, e) <==> HasEmail(s, i, e);
    ScanFinds(d, email);
    ScanFinds(s, email);
    if id :| id in d.listed && HasEmail(d, id, email) {
      ScanIsUnique(d, email, id);
      ScanIsUnique(s, email, id);
      HealKeepsOk(d, email, id);
    }
  }

  /** The lookup agrees with a scan whenever it does not fail, it fails exactly when the index
      entry for this e-mail leads to a half-deleted record, and it keeps the store consistent. */
  lemma FindRefinesScan(s: Store, email: string)
    requires UsersOk(s)
    ensures
      var (s', r) := Find(s, email);
      && (r.Err? <==> email in s.byEmail && Fields(s, s.byEmail[email]) != NO_FIELDS && !Decodes(s, s.byEmail[email]))
      && (r.Ok? ==> r.value == Scan(s, email))
      && s' == s.(byEmail := s'.byEmail)
      && UsersOk(s')
      && (r == Ok(None) ==> email !in s'.byEmail)
  {
    if email in s.byEmail && HasEmail(s, s.byEmail[email], email) {
      assert LeadsToListed(s, s.byEmail[email]);
      ScanIsUnique(s, email, s.byEmail[email]);
    } else {
      var d := if email in s.byEmail then s.(byEmail := s.byEmail - {email}) else s;
      DropKeepsOk(s, email);
      ScanAndHealIsScan(s, d, email);
    }
  }

  // ---- User operations -------------------------------------------------------------

  function NewHash(id: UserId, email: string, isAdmin: bool, now: int): UserHash {
    UserHash(Some(id), None, Some(email), Some(isAdmin), Some(now), Some(0))
  }

  /** The check, the record, and then the claim of the index entry. */
  ghost function WriteNewUser(s: Store, email: string, isAdmin: bool, id: UserId, now: int)
    : (Store, Result<User, AuthError>)
  {
    var (s1, found) := Find(s, email);
    if found.Err? then (s1, Err(found.error))
    else if found.value.Some? then (s1, Err(EmailTaken))
    else
      var s2 := s1.(users := s1.users[id := NewHash(id, email, isAdmin, now)]);
      if email in s2.byEmail then (s2, Err(EmailTaken))
      else (s2.(byEmail := s2.byEmail[email := id], listed := s2.listed + {id}), Ok(User(id, email, isAdmin, now, 0)))
  }

  ghost function CreateUser(s: Store, raw: string, isAdmin: bool, id: UserId, now: int)
    : (Store, Result<User, AuthError>)
  {
    WriteNewUser(s, Normalize(raw), isAdmin, id, now)
  }

  function WithAdmin(s: Store, u: User, isAdmin: bool): Store {
    if u.isAdmin == isAdmin then s
    else s.(users := s.users[u.id := Fields(s, u.id).(isAdmin := Some(isAdmin))])
  }

  function WithEmail(s: Store, id: UserId, email: string): Store {
    s.(users := s.users[id := Fields(s, id).(primaryEmail := Some(email))], byEmail := s.byEmail[email := id])
  }

  function WithIdentity(s: Store, provider: string, subject: string, id: UserId): Store {
    s.(byIdentity := s.byIdentity[(provider, subject) := id])
  }

  ghost function UpsertLocal(s: Store, raw: string, isAdmin: bool, id: UserId, now: int)
    : (Store, Result<User, AuthError>)
  {
    UpsertLocalAs(s, Normalize(raw), isAdmin, id, now)
  }

  ghost function UpsertLocalAs(s: Store, email: string, isAdmin: bool, id: UserId, now: int)
    : (Store, Result<User, AuthError>)
  {
    var (s1, found) := Find(s, email);
    if found.Err? then (s1, Err(found.error))
    else if found.value.Some? then
      var u := found.value.value;
      (WithIdentity(WithAdmin(s1, u, isAdmin), "local", email, u.id), Ok(u.(isAdmin := isAdmin)))
    else
      var (s2, made) := WriteNewUser(s1, email, isAdmin, id, now);
      if made.Err? then (s2, made) else (WithIdentity(s2, "local", email, made.value.id), made)
  }

  ghost function LinkFirstSeen(s: Store, provider: string, subject: string, email: string, isAdmin: bool,
                               id: UserId, now: int): (Store, Result<User, AuthError>) {
    var (s1, found) := Find(s, email);
    if found.Err? then (s1, Err(found.error))
    else if found.value.Some? then
      var u := found.value.value;
      (WithAdmin(WithIdentity(s1, provider, subject, u.id), u, isAdmin), Ok(u.(isAdmin := isAdmin)))
    else
      var (s2, made) := WriteNewUser(s1, email, isAdmin, id, now);
      if made.Err? then (s2, made) else (WithIdentity(s2, provider, subject, made.value.id), made)
  }

  ghost function UpsertOauth(s: Store, provider: string, subject: string, raw: string, isAdmin: bool,
                             id: UserId, now: int): (Store, Result<User, AuthError>) {
    UpsertOauthAs(s, provider, subject, Normalize(raw), isAdmin, id, now)
  }

  ghost function UpsertOauthAs(s: Store, provider: string, subject: string, email: string, isAdmin: bool,
                               id: UserId, now: int): (Store, Result<User, AuthError>) {
    var key := (provider, subject);
    if key !in s.byIdentity then LinkFirstSeen(s, provider, subject, email, isAdmin, id, now)
    else
      match Read(s, s.byIdentity[key])
      case Err(e) => (s, Err(e))
      case Ok(None) =>
        LinkFirstSeen(s.(byIdentity := s.byIdentity - {key}), provider, subject, email, isAdmin, id, now)
      case Ok(Some(u)) => Returning(s, u, email, isAdmin)
  }

  /** A known identity: sync the role, then heal the index or backfill a missing e-mail. */
  ghost function Returning(s: Store, u: User, email: string, isAdmin: bool): (Store, Result<User, AuthError>) {
    var s1, u1 := WithAdmin(s, u, isAdmin), u.(isAdmin := isAdmin);
    if Fields(s1, u.id).primaryEmail.Some? then (s1.(byEmail := s1.byEmail[u.email := u.id]), Ok(u1))
    else
      var (s2, found) := Find(s1, email);
      if found.Err? then (s2, Err(found.error))
      else if found.value.Some? then (s2, Ok(u1))
      else (WithEmail(s2, u.id, email), Ok(u1.(email := email)))
  }

  ghost function BootstrapAdmin(s: Store, raw: string, secret: T.Secret, id: UserId, token: T.TokenId, now: int)
    : (Store, Result<bool, AuthError>)
  {
    BootstrapAdminAs(s, Normalize(raw), secret, id, token, now)
  }

  ghost function BootstrapAdminAs(s: Store, email: string, secret: T.Secret, id: UserId, token: T.TokenId, now: int)
    : (Store, Result<bool, AuthError>)
  {
    var (s1, found) := Find(s, email);
    if found.Err? then (s1, Err(found.error))
    else if found.value.Some? then (s1, Ok(false))
    else BootstrapNew(s1, email, secret, id, token, now)
  }

  /** Nobody has the e-mail: adopt the legacy record, or make the admin. */
  ghost function BootstrapNew(s: Store, email: string, secret: T.Secret, id: UserId, token: T.TokenId, now: int)
    : (Store, Result<bool, AuthError>)
  {
    var legacy := if "bootstrap" in s.byName then Read(s, s.byName["bootstrap"]) else Ok(None);
    if legacy.Err? then (s, Err(legacy.error))
    else if legacy.value.Some? && Fields(s, legacy.value.value.id).primaryEmail.None? then
      var s2 := WithEmail(s, legacy.value.value.id, email);
      (s2.(byName := s2.byName - {"bootstrap"}), Ok(false))
    else
      match WriteNewUser(s, email, true, id, now)
      case (s2, Err(EmailTaken)) => (s2, Ok(false))
      case (s2, Err(e)) => (s2, Err(e))
      case (s2, Ok(u)) => (s2.(tokens := T.Written(s2.tokens, token, u.id, "bootstrap", secret, None, now)), Ok(true))
  }

  function SetUserAdmin(s: Store, id: UserId, isAdmin: bool): (Store, Result<User, AuthError>) {
    match Read(s, id)
    case Err(e) => (s, Err(e))
    case Ok(None) => (s, Err(NotFound))
    case Ok(Some(u)) =>
      (s.(users := s.users[u.id := Fields(s, u.id).(isAdmin := Some(isAdmin))]), Ok(u.(isAdmin := isAdmin)))
  }

  function BumpSessionEpoch(s: Store, id: UserId): (Store, Result<int, AuthError>) {
    match Read(s, id)
    case Err(e) => (s, Err(e))
    case Ok(None) => (s, Err(NotFound))
    case Ok(Some(u)) => (s.(users := s.users[id := Fields(s, id).(epoch := Some(u.epoch + 1))]), Ok(u.epoch + 1))
  }

  /** Deleting clears the named fields only: `epoch` stays behind. */
  function Residue(f: UserHash): UserHash {
    NO_FIELDS.(epoch := f.epoch)
  }

  function DeleteUser(s: Store, id: UserId): (Store, Result<(), AuthError>) {
    match Read(s, id)
    case Err(e) => (s, Err(e))
    case Ok(None) => (s, Err(NotFound))
    case Ok(Some(u)) =>
      (s.(tokens := T.Cascaded(s.tokens, T.OwnedBy(s.tokens, u.id)),
          byEmail := s.byEmail - {u.email}, byName := s.byName - {u.email}, listed := s.listed - {u.id},
          users := s.users[u.id := Residue(Fields(s, u.id))]),
       Ok(()))
  }

  // ---- Token operations ----------------------------------------------------------------

  function CreateToken(s: Store, owner: UserId, name: string, ttl: Option<nat>, token: T.TokenId, secret: T.Secret,
                       now: int): (Store, Result<T.TokenId, AuthError>) {
    match Read(s, owner)
    case Err(e) => (s, Err(e))
    case Ok(None) => (s, Err(NotFound))
    case Ok(Some(_)) =>
      if (owner, name) in s.tokens.byName then (s, Err(NameTaken))
      else (s.(tokens := T.Written(s.tokens, token, owner, name, secret, ttl, now)), Ok(token))
  }

  function Authenticate(s: Store, secret: T.Secret, now: int): (Store, Result<Option<Context>, AuthError>) {
    match T.Resolve(s.tokens, secret, now)
    case Err(_) => (s, Err(Malformed))
    case Ok(None) => (s, Ok(None))
    case Ok(Some(t)) =>
      match Read(s, t.owner)
      case Err(e) => (s, Err(e))
      case Ok(None) => (s, Ok(None))
      case Ok(Some(u)) =>
        (s.(tokens := T.Touched(s.tokens, t.id, now)), Ok(Some(Context(u.id, u.email, u.isAdmin, t.id))))
  }

  // ---- Every operation keeps the store consistent -----------------------------------------

  /** No user is lost, no stored e-mail moves, no token changes. */
  ghost predicate Grew(s: Store, s': Store) {
    && s'.tokens == s.tokens && s.listed <= s'.listed
    && (forall id :: Decodes(s, id) ==> Decodes(s', id))
    && (forall id :: Fields(s, id).primaryEmail.Some? ==> Fields(s', id).primaryEmail == Fields(s, id).primaryEmail)
  }

  /** An edit of one user's record that keeps it decodable and its e-mail its own. */
  lemma EditKeepsOk(s: Store, s': Store, id: UserId)
    requires UsersOk(s) && Decodes(s, id)
    requires s' == s.(users := s'.users)
    requires forall i :: i != id ==> Fields(s', i) == Fields(s, i)
    requires Decodes(s', id) && Fields(s', id).id == Some(id)
    requires forall i, e :: i in s.listed && i != id && HasEmail(s', id, e) ==> !HasEmail(s, i, e) || id !in s.listed
    ensures UsersOk(s')
  {
    assert forall i :: i != id ==> (Decodes(s', i) <==> Decodes(s, i)) && (Decodes(s, i) ==> i in s.users);
    assert forall i :: LeadsToListed(s, i) ==> LeadsToListed(s', i);
    assert forall i, e :: i != id ==> (HasEmail(s', i, e) <==> HasEmail(s, i, e));
  }

  /** An edit of a user's fields that leaves its e-mail handles alone. */
  lemma FieldsKeepOk(s: Store, id: UserId, f: UserHash)
    requires UsersOk(s) && Decodes(s, id) && Decode(f).Ok? && f.id == Some(id)
    requires f.primaryEmail == Fields(s, id).primaryEmail && f.name == Fields(s, id).name
    ensures Kept(s, s.(users := s.users[id := f]))
  {
    var s' := s.(users := s.users[id := f]);
    assert forall e :: HasEmail(s', id, e) ==> HasEmail(s, id, e);
    EditKeepsOk(s, s', id);
  }

  lemma BackfillKeepsOk(s: Store, id: UserId, email: string)
    requires UsersOk(s) && id in s.listed && Fields(s, id).primaryEmail.None? && Scan(s, email).None?
    ensures UsersOk(WithEmail(s, id, email)) && Grew(s, WithEmail(s, id, email))
  {
    var edited := s.(users := s.users[id := Fields(s, id).(primaryEmail := Some(email))]);
    assert forall e :: HasEmail(edited, id, e) ==> e == email;
    EditKeepsOk(s, edited, id);
    HealKeepsOk(edited, email, id);
  }

  lemma IdentityKeepsOk(s: Store, key: (string, string), id: UserId)
    requires UsersOk(s)
    ensures id in s.listed ==> UsersOk(s.(byIdentity := s.byIdentity[key := id]))
    ensures UsersOk(s.(byIdentity := s.byIdentity - {key}))
  {
    var added, dropped := s.(byIdentity := s.byIdentity[key := id]), s.(byIdentity := s.byIdentity - {key});
    assert forall i :: LeadsToListed(s, i) ==> LeadsToListed(added, i) && LeadsToListed(dropped, i);
    assert forall i, e ::
      (HasEmail(added, i, e) ==> HasEmail(s, i, e)) && (HasEmail(dropped, i, e) ==> HasEmail(s, i, e));
    assert forall i :: (Decodes(added, i) <==> Decodes(s, i)) && (Decodes(dropped, i) <==> Decodes(s, i));
  }

  lemma NewUserKeepsOk(s: Store, id: UserId, email: string, isAdmin: bool, now: int)
    requires UsersOk(s) && FreshUser(s, id) && Scan(s, email).None?
    ensures
      var s' := s.(users := s.users[id := NewHash(id, email, isAdmin, now)],
                   byEmail := s.byEmail[email := id], listed := s.listed + {id});
      UsersOk(s') && Grew(s, s')
  {
    var s' := s.(users := s.users[id := NewHash(id, email, isAdmin, now)],
                 byEmail := s.byEmail[email := id], listed := s.listed + {id});
    assert forall i :: i != id ==> Fields(s', i) == Fields(s, i);
    assert forall i, e :: i != id ==> (HasEmail(s', i, e) <==> HasEmail(s, i, e));
    assert forall e :: HasEmail(s', id, e) ==> e == email;
    assert forall i :: i != id ==> (Decodes(s', i) <==> Decodes(s, i));
    assert forall i :: i != id && LeadsToListed(s, i) ==> LeadsToListed(s', i);
    assert LeadsToListed(s', id);
  }

  lemma ScanSame(s: Store, s': Store, email: string)
    requires UsersOk(s) && UsersOk(s')
      && s' == s.(byEmail := s'.byEmail, byName := s'.byName, byIdentity := s'.byIdentity)
    ensures Scan(s', email) == Scan(s, email)
  {
    assert forall i, e :: HasEmail(s', i, e) <==> HasEmail(s, i, e);
    ScanFinds(s, email);
    ScanFinds(s', email);
    if id :| id in s.listed && HasEmail(s, id, email) {
      ScanIsUnique(s, email, id);
      ScanIsUnique(s', email, id);
    }
  }

  lemma WriteNewUserKeeps(s: Store, email: string, isAdmin: bool, id: UserId, now: int)
    requires UsersOk(s) && FreshUser(s, id)
    ensures
      var (s', r) := WriteNewUser(s, email, isAdmin, id, now);
      && UsersOk(s') && Grew(s, s')
      && (r.Ok? <==> Find(s, email).1 == Ok(None))
      && (r.Ok? ==> r.value == User(id, email, isAdmin, now, 0) && id in s'.listed && HasEmail(s', id, email))
  {
    FindRefinesScan(s, email);
    var (s1, found) := Find(s, email);
    if found == Ok(None) {
      ScanSame(s, s1, email);
      assert FreshUser(s1, id) by {
        if email in s.byEmail && !HasEmail(s, s.byEmail[email], email) {
          assert s1.byEmail.Values <= s.byEmail.Values;
        }
      }
      NewUserKeepsOk(s1, id, email, isAdmin, now);
    }
  }

  lemma FoundIsListed(s: Store, email: string)
    requires UsersOk(s) && Find(s, email).1.Ok? && Find(s, email).1.value.Some?
    ensures
      var u := Find(s, email).1.value.value;
      u.id in s.listed && u.email == email && Read(s, u.id) == Ok(Some(u)) && Find(s, email).0.listed == s.listed
  {
    FindRefinesScan(s, email);
    ScanFinds(s, email);
  }

  lemma FreshAfterFind(s: Store, email: string, id: UserId)
    requires UsersOk(s) && FreshUser(s, id)
    ensures FreshUser(Find(s, email).0, id)
  {
    FindRefinesScan(s, email);
    if Find(s, email).1.Ok? && Find(s, email).1.value.Some? { FoundIsListed(s, email); }
  }

  /** One consistency-keeping edit after another. */
  ghost predicate Kept(s: Store, s': Store) {
    UsersOk(s') && Grew(s, s')
  }

  lemma KeptTwice(a: Store, b: Store, c: Store)
    requires Kept(a, b) && Kept(b, c)
    ensures Kept(a, c)
  {
  }

  lemma WithAdminKept(s: Store, u: User, isAdmin: bool)
    requires UsersOk(s) && u.id in s.listed
    ensures Kept(s, WithAdmin(s, u, isAdmin)) && WithAdmin(s, u, isAdmin).listed == s.listed
  {
    FieldsKeepOk(s, u.id, Fields(s, u.id).(isAdmin := Some(isAdmin)));
  }

  lemma WithIdentityKept(s: Store, provider: string, subject: string, id: UserId)
    requires UsersOk(s) && id in s.listed
    ensures Kept(s, WithIdentity(s, provider, subject, id))
  {
    IdentityKeepsOk(s, (provider, subject), id);
  }

  lemma MadeAndLinked(s: Store, provider: string, subject: string, email: string, isAdmin: bool, id: UserId, now: int)
    requires UsersOk(s) && FreshUser(s, id)
    ensures
      var (s', made) := WriteNewUser(s, email, isAdmin, id, now);
      Kept(s, s') && (made.Ok? ==> Kept(s, WithIdentity(s', provider, subject, made.value.id)))
  {
    WriteNewUserKeeps(s, email, isAdmin, id, now);
    var (s', made) := WriteNewUser(s, email, isAdmin, id, now);
    if made.Ok? {
      WithIdentityKept(s', provider, subject, made.value.id);
      KeptTwice(s, s', WithIdentity(s', provider, subject, made.value.id));
    }
  }

  lemma LinkKeeps(s: Store, provider: string, subject: string, email: string, isAdmin: bool, id: UserId, now: int)
    requires UsersOk(s) && FreshUser(s, id)
    ensures Kept(s, LinkFirstSeen(s, provider, subject, email, isAdmin, id, now).0)
  {
    FindKept(s, email);
    var (s1, found) := Find(s, email);
    var s' := LinkFirstSeen(s, provider, subject, email, isAdmin, id, now).0;
    if found.Err? {
      assert s' == s1;
    } else if found.value.Some? {
      var u := found.value.value;
      FoundIsListed(s, email);
      WithIdentityKept(s1, provider, subject, u.id);
      var s2 := WithIdentity(s1, provider, subject, u.id);
      KeptTwice(s, s1, s2);
      WithAdminKept(s2, u, isAdmin);
      assert s' == WithAdmin(s2, u, isAdmin);
      KeptTwice(s, s2, s');
    } else {
      FreshAfterFind(s, email, id);
      MadeAndLinked(s1, provider, subject, email, isAdmin, id, now);
      var (s2, made) := WriteNewUser(s1, email, isAdmin, id, now);
      assert s' == if made.Err? then s2 else WithIdentity(s2, provider, subject, made.value.id);
      KeptTwice(s, s1, s');
    }
  }

  lemma UpsertLocalKeeps(s: Store, email: string, isAdmin: bool, id: UserId, now: int)
    requires UsersOk(s) && FreshUser(s, id)
    ensures Kept(s, UpsertLocalAs(s, email, isAdmin, id, now).0)
  {
    FindKept(s, email);
    var (s1, found) := Find(s, email);
    var s' := UpsertLocalAs(s, email, isAdmin, id, now).0;
    if found.Err? {
      assert s' == s1;
    } else if found.value.Some? {
      var u := found.value.value;
      FoundIsListed(s, email);
      WithAdminKept(s1, u, isAdmin);
      var s2 := WithAdmin(s1, u, isAdmin);
      WithIdentityKept(s2, "local", email, u.id);
      KeptTwice(s, s1, s2);
      assert s' == WithIdentity(s2, "local", email, u.id);
      KeptTwice(s, s2, s');
    } else {
      FreshAfterFind(s, email, id);
      MadeAndLinked(s1, "local", email, email, isAdmin, id, now);
      var (s2, made) := WriteNewUser(s1, email, isAdmin, id, now);
      assert s' == if made.Err? then s2 else WithIdentity(s2, "local", email, made.value.id);
      KeptTwice(s, s1, s');
    }
  }

  lemma FindKept(s: Store, email: string)
    requires UsersOk(s)
    ensures Kept(s, Find(s, email).0)
  {
    FindRefinesScan(s, email);
  }

  lemma BackfilledKeeps(s: Store, id: UserId, email: string)
    requires UsersOk(s) && id in s.listed && Fields(s, id).primaryEmail.None? && Find(s, email).1 == Ok(None)
    ensures Kept(s, WithEmail(Find(s, email).0, id, email))
  {
    FindRefinesScan(s, email);
    FindKept(s, email);
    var s2 := Find(s, email).0;
    ScanSame(s, s2, email);
    BackfillKeepsOk(s2, id, email);
    KeptTwice(s, s2, WithEmail(s2, id, email));
  }

  lemma ReturningKeeps(s: Store, u: User, email: string, isAdmin: bool)
    requires UsersOk(s) && u.id in s.listed
    ensures Kept(s, Returning(s, u, email, isAdmin).0)
  {
    WithAdminKept(s, u, isAdmin);
    var s1 := WithAdmin(s, u, isAdmin);
    var s' := Returning(s, u, email, isAdmin).0;
    if Fields(s1, u.id).primaryEmail.Some? {
      HealKeepsOk(s1, u.email, u.id);
      assert s' == s1.(byEmail := s1.byEmail[u.email := u.id]);
    } else if Find(s1, email).1 == Ok(None) {
      BackfilledKeeps(s1, u.id, email);
      assert s' == WithEmail(Find(s1, email).0, u.id, email);
      KeptTwice(s, s1, s');
    } else {
      FindKept(s1, email);
      assert s' == Find(s1, email).0;
      KeptTwice(s, s1, s');
    }
  }

  lemma UpsertOauthKeeps(s: Store, provider: string, subject: string, email: string, isAdmin: bool, id: UserId,
                         now: int)
    requires UsersOk(s) && FreshUser(s, id)
    ensures Kept(s, UpsertOauthAs(s, provider, subject, email, isAdmin, id, now).0)
  {
    var key := (provider, subject);
    var s' := UpsertOauthAs(s, provider, subject, email, isAdmin, id, now).0;
    if key !in s.byIdentity {
      LinkKeeps(s, provider, subject, email, isAdmin, id, now);
      assert s' == LinkFirstSeen(s, provider, subject, email, isAdmin, id, now).0;
    } else if Read(s, s.byIdentity[key]).Err? {
      assert s' == s;
    } else if Read(s, s.byIdentity[key]) == Ok(None) {
      var dropped := s.(byIdentity := s.byIdentity - {key});
      IdentityKeepsOk(s, key, id);
      assert FreshUser(dropped, id) by { assert dropped.byIdentity.Values <= s.byIdentity.Values; }
      LinkKeeps(dropped, provider, subject, email, isAdmin, id, now);
      assert s' == LinkFirstSeen(dropped, provider, subject, email, isAdmin, id, now).0;
      assert Kept(s, dropped);
      KeptTwice(s, dropped, s');
    } else {
      var u := Read(s, s.byIdentity[key]).value.value;
      assert LeadsToListed(s, s.byIdentity[key]);
      ReturningKeeps(s, u, email, isAdmin);
      assert s' == Returning(s, u, email, isAdmin).0;
    }
  }

  lemma AdoptionKeeps(s: Store, id: UserId, email: string)
    requires UsersOk(s) && id in s.listed && Fields(s, id).primaryEmail.None? && Scan(s, email).None?
    ensures var s2 := WithEmail(s, id, email); Kept(s, s2.(byName := s2.byName - {"bootstrap"}))
  {
    BackfillKeepsOk(s, id, email);
    NameDropKeepsOk(WithEmail(s, id, email), "bootstrap");
  }

  /** A new admin and the token for the supplied secret. */
  lemma NewAdminKeeps(s: Store, email: string, secret: T.Secret, id: UserId, token: T.TokenId, now: int)
    requires Inv(s) && FreshUser(s, id) && T.FreshToken(s.tokens, token)
    ensures
      var (s2, made) := WriteNewUser(s, email, true, id, now);
      && Kept(s, s2) && Inv(s2)
      && (made.Ok? ==>
            var s3 := s2.(tokens := T.Written(s2.tokens, token, made.value.id, "bootstrap", secret, None, now));
            UsersOk(s3) && (Inv(s3) <==> secret !in s.tokens.byHash))
  {
    WriteNewUserKeeps(s, email, true, id, now);
    var (s2, made) := WriteNewUser(s, email, true, id, now);
    if made.Ok? {
      NoTokensOfFreshUser(s, id, "bootstrap");
      T.WritingAgreesIffSecretFresh(s2.tokens, token, id, "bootstrap", secret, None, now);
      WrittenOwners(s2, token, id, "bootstrap", secret, None, now);
      SameUsersOk(s2, T.Written(s2.tokens, token, id, "bootstrap", secret, None, now));
    }
  }

  lemma SameUsersOk(s: Store, tokens: T.TokenStore)
    requires UsersOk(s)
    ensures UsersOk(s.(tokens := tokens))
  {
    var s' := s.(tokens := tokens);
    assert forall i :: LeadsToListed(s, i) ==> LeadsToListed(s', i);
    assert forall i, e :: HasEmail(s', i, e) ==> HasEmail(s, i, e);
    assert forall i :: Decodes(s', i) <==> Decodes(s, i);
  }

  lemma KeptKeepsInv(s: Store, s': Store)
    requires Inv(s) && Kept(s, s')
    ensures Inv(s')
  {
  }

  lemma BootstrapNewKeeps(s: Store, email: string, secret: T.Secret, id: UserId, token: T.TokenId, now: int)
    requires Inv(s) && FreshUser(s, id) && T.FreshToken(s.tokens, token) && Scan(s, email).None?
    ensures
      var (s', r) := BootstrapNew(s, email, secret, id, token, now);
      && UsersOk(s') && Grew(s, s'.(tokens := s.tokens))
      && (Inv(s') <==> (r == Ok(true) ==> secret !in s.tokens.byHash))
  {
    var s' := BootstrapNew(s, email, secret, id, token, now).0;
    var legacy := if "bootstrap" in s.byName then Read(s, s.byName["bootstrap"]) else Ok(None);
    if legacy.Err? {
      assert s' == s;
    } else if legacy.value.Some? && Fields(s, legacy.value.value.id).primaryEmail.None? {
      var u := legacy.value.value;
      assert LeadsToListed(s, s.byName["bootstrap"]);
      AdoptionKeeps(s, u.id, email);
      var s2 := WithEmail(s, u.id, email);
      assert s' == s2.(byName := s2.byName - {"bootstrap"});
      KeptKeepsInv(s, s');
    } else {
      NewAdminKeeps(s, email, secret, id, token, now);
      var (s2, made) := WriteNewUser(s, email, true, id, now);
      assert s' == if made.Err? then s2
                   else s2.(tokens := T.Written(s2.tokens, token, made.value.id, "bootstrap", secret, None, now));
    }
  }

  /** A bootstrap never loses a user or moves an e-mail. It keeps the tokens in agreement unless it
      mints an admin for a configured secret that some token already has. */
  lemma BootstrapKeeps(s: Store, email: string, secret: T.Secret, id: UserId, token: T.TokenId, now: int)
    requires Inv(s) && FreshUser(s, id) && T.FreshToken(s.tokens, token)
    ensures
      var (s', r) := BootstrapAdminAs(s, email, secret, id, token, now);
      && UsersOk(s') && Grew(s, s'.(tokens := s.tokens))
      && (Inv(s') <==> (r == Ok(true) ==> secret !in s.tokens.byHash))
  {
    FindKept(s, email);
    var (s1, found) := Find(s, email);
    var s' := BootstrapAdminAs(s, email, secret, id, token, now).0;
    KeptKeepsInv(s, s1);
    if found == Ok(None) {
      FindRefinesScan(s, email);
      ScanSame(s, s1, email);
      FreshAfterFind(s, email, id);
      BootstrapNewKeeps(s1, email, secret, id, token, now);
      assert s' == BootstrapNew(s1, email, secret, id, token, now).0;
      GrewTwice(s, s1, s');
    } else {
      assert s' == s1;
    }
  }

  lemma GrewTwice(a: Store, b: Store, c: Store)
    requires Grew(a, b) && Grew(b, c.(tokens := b.tokens))
    ensures Grew(a, c.(tokens := a.tokens))
  {
    assert c.(tokens := a.tokens) == c.(tokens := b.tokens);
  }

  lemma NameDropKeepsOk(s: Store, name: string)
    requires UsersOk(s)
    ensures UsersOk(s.(byName := s.byName - {name}))
  {
    var s' := s.(byName := s.byName - {name});
    assert forall i :: LeadsToListed(s, i) ==> LeadsToListed(s', i);
    assert forall i, e :: HasEmail(s', i, e) ==> HasEmail(s, i, e);
    assert forall i :: Decodes(s', i) <==> Decodes(s, i);
  }

  lemma NoTokensOfFreshUser(s: Store, id: UserId, name: string)
    requires Inv(s) && !Decodes(s, id)
    ensures (id, name) !in s.tokens.byName && forall t :: t !in T.OwnedBy(s.tokens, id)
  {
    assert T.NameLeads(s.tokens, (id, name));
    forall t ensures t !in T.OwnedBy(s.tokens, id) { assert T.OwnerLeads(s.tokens, id, t); }
  }

  lemma WrittenOwners(s: Store, t: T.TokenId, owner: UserId, name: string, secret: T.Secret, ttl: Option<nat>, now: int)
    requires OwnersExist(s) && Decodes(s, owner)
    ensures OwnersExist(s.(tokens := T.Written(s.tokens, t, owner, name, secret, ttl, now)))
  {
    var s' := s.(tokens := T.Written(s.tokens, t, owner, name, secret, ttl, now));
    assert forall i :: Decodes(s', i) <==> Decodes(s, i);
    assert forall x :: x != t && T.Live(s'.tokens, x) ==> T.Live(s.tokens, x);
  }

  /** Deleting a user and cascading their tokens. */
  lemma DeleteUserKeeps(s: Store, id: UserId)
    requires Inv(s)
    ensures var (s', r) := DeleteUser(s, id);
      && Inv(s') && r == (if Fields(s, id) == NO_FIELDS then Err(NotFound) else if Decodes(s, id) then Ok(())
                          else Err(Malformed))
      && (r.Err? ==> s' == s)
      && (forall i :: i != id ==> Fields(s', i) == Fields(s, i) && (i in s'.listed <==> i in s.listed))
      && (r.Ok? ==> id !in s'.listed && Fields(s', id) == Residue(Fields(s, id)))
  {
    if Decodes(s, id) {
      var s' := DeleteUser(s, id).0;
      T.CascadingAgrees(s.tokens, T.OwnedBy(s.tokens, id));
      assert forall i :: i != id ==> Fields(s', i) == Fields(s, i);
      assert forall i :: i != id && LeadsToListed(s, i) ==> LeadsToListed(s', i);
      assert forall i, e :: i != id ==> (HasEmail(s', i, e) <==> HasEmail(s, i, e));
      assert !Decodes(s', id);
      assert forall i :: i != id ==> (Decodes(s', i) <==> Decodes(s, i));
      forall t | T.Live(s'.tokens, t)
        ensures s'.tokens.records[t].owner.Some? && Decodes(s', s'.tokens.records[t].owner.value)
      {
        assert T.Live(s.tokens, t) && T.Indexed(s.tokens, t, s.tokens.records[t]);
      }
    }
  }

  // ---- Whole runs ---------------------------------------------------------------------

  datatype Op =
    | Bootstrap(raw: string, secret: T.Secret, id: UserId, token: T.TokenId, now: int)
    | Create(raw: string, isAdmin: bool, id: UserId, now: int)
    | LocalLogin(raw: string, isAdmin: bool, id: UserId, now: int)
    | OauthLogin(provider: string, subject: string, raw: string, isAdmin: bool, id: UserId, now: int)
    | Lookup(raw: string)
    | SetAdmin(user: UserId, isAdmin: bool)
    | BumpEpoch(user: UserId)
    | Delete(user: UserId)
    | NewToken(owner: UserId, name: string, ttl: Option<nat>, token: T.TokenId, secret: T.Secret, now: int)
    | RenameToken(owner: UserId, from: string, to: string)
    | RevokeToken(owner: UserId, name: string)
    | Login(secret: T.Secret, now: int)

  /** Generated ids and secrets are new. */
  ghost predicate Admissible(s: Store, op: Op) {
    && (op.Bootstrap? || op.Create? || op.LocalLogin? || op.OauthLogin? ==> FreshUser(s, op.id))
    && (op.Bootstrap? || op.NewToken? ==> T.FreshToken(s.tokens, op.token) && op.secret !in s.tokens.byHash)
  }

  ghost function Apply(s: Store, op: Op): Store {
    match op
    case Bootstrap(raw, secret, id, token, now) => BootstrapAdmin(s, raw, secret, id, token, now).0
    case Create(raw, isAdmin, id, now) => CreateUser(s, raw, isAdmin, id, now).0
    case LocalLogin(raw, isAdmin, id, now) => UpsertLocal(s, raw, isAdmin, id, now).0
    case OauthLogin(provider, subject, raw, isAdmin, id, now) =>
      UpsertOauth(s, provider, subject, raw, isAdmin, id, now).0
    case Lookup(raw) => Find(s, Normalize(raw)).0
    case SetAdmin(user, isAdmin) => SetUserAdmin(s, user, isAdmin).0
    case BumpEpoch(user) => BumpSessionEpoch(s, user).0
    case Delete(user) => DeleteUser(s, user).0
    case NewToken(owner, name, ttl, token, secret, now) => CreateToken(s, owner, name, ttl, token, secret, now).0
    case RenameToken(owner, from, to) => s.(tokens := T.Rename(s.tokens, owner, from, to).0)
    case RevokeToken(owner, name) => s.(tokens := T.Revoke(s.tokens, owner, name).0)
    case Login(secret, now) => Authenticate(s, secret, now).0
  }

  /** Stored e-mails stay what they are, except on a record that is deleted. */
  ghost predicate EmailsStay(s: Store, s': Store, deleted: Option<UserId>) {
    forall id :: Fields(s, id).primaryEmail.Some? ==>
      || Fields(s', id).primaryEmail == Fields(s, id).primaryEmail
      || (deleted == Some(id) && id !in s'.listed && !Decodes(s', id))
  }

  lemma SameOwnersExist(s: Store, tokens: T.TokenStore)
    requires OwnersExist(s)
    requires forall t :: T.Live(tokens, t) ==>
      T.Live(s.tokens, t) && tokens.records[t].owner == s.tokens.records[t].owner
    ensures OwnersExist(s.(tokens := tokens))
  {
    var s' := s.(tokens := tokens);
    assert forall i :: Decodes(s', i) <==> Decodes(s, i);
  }

  lemma TokensStay(s: Store, tokens: T.TokenStore)
    requires Inv(s) && T.Agrees(tokens) && OwnersExist(s.(tokens := tokens))
    ensures Inv(s.(tokens := tokens)) && EmailsStay(s, s.(tokens := tokens), None)
  {
    SameUsersOk(s, tokens);
    assert forall id :: Fields(s.(tokens := tokens), id) == Fields(s, id);
  }

  lemma NewTokenStays(s: Store, op: Op)
    requires Inv(s) && Admissible(s, op) && op.NewToken?
    ensures Inv(Apply(s, op)) && EmailsStay(s, Apply(s, op), None)
  {
    if Decodes(s, op.owner) && (op.owner, op.name) !in s.tokens.byName {
      T.WritingAgreesIffSecretFresh(s.tokens, op.token, op.owner, op.name, op.secret, op.ttl, op.now);
      WrittenOwners(s, op.token, op.owner, op.name, op.secret, op.ttl, op.now);
      TokensStay(s, T.Written(s.tokens, op.token, op.owner, op.name, op.secret, op.ttl, op.now));
    } else {
      assert Apply(s, op) == s;
    }
  }

  lemma RenameStays(s: Store, op: Op)
    requires Inv(s) && op.RenameToken?
    ensures Inv(Apply(s, op)) && EmailsStay(s, Apply(s, op), None)
  {
    T.RenamingAgrees(s.tokens, op.owner, op.from, op.to);
    T.RenamingMeans(s.tokens, op.owner, op.from, op.to);
    SameOwnersExist(s, T.Rename(s.tokens, op.owner, op.from, op.to).0);
    TokensStay(s, T.Rename(s.tokens, op.owner, op.from, op.to).0);
  }

  lemma RevokeStays(s: Store, op: Op)
    requires Inv(s) && op.RevokeToken?
    ensures Inv(Apply(s, op)) && EmailsStay(s, Apply(s, op), None)
  {
    T.RevokingAgrees(s.tokens, op.owner, op.name);
    SameOwnersExist(s, T.Revoke(s.tokens, op.owner, op.name).0);
    TokensStay(s, T.Revoke(s.tokens, op.owner, op.name).0);
  }

  lemma LoginStays(s: Store, op: Op)
    requires Inv(s) && op.Login?
    ensures Inv(Apply(s, op)) && EmailsStay(s, Apply(s, op), None)
  {
    T.ResolveIsExact(s.tokens, op.secret, op.now, 0);
    var r := T.Resolve(s.tokens, op.secret, op.now).value;
    if r.Some? && Decodes(s, r.value.owner) {
      T.ResolveIsExact(s.tokens, op.secret, op.now, r.value.id);
      T.TouchingAgrees(s.tokens, r.value.id, op.now);
      SameOwnersExist(s, T.Touched(s.tokens, r.value.id, op.now));
      TokensStay(s, T.Touched(s.tokens, r.value.id, op.now));
    } else {
      assert Apply(s, op) == s;
    }
  }

  lemma KeptStays(s: Store, s': Store)
    requires Inv(s) && Kept(s, s')
    ensures Inv(s') && EmailsStay(s, s', None)
  {
  }

  lemma CreateStays(s: Store, op: Op)
    requires Inv(s) && Admissible(s, op) && op.Create?
    ensures Inv(Apply(s, op)) && EmailsStay(s, Apply(s, op), None)
  {
    WriteNewUserKeeps(s, Normalize(op.raw), op.isAdmin, op.id, op.now);
    KeptStays(s, WriteNewUser(s, Normalize(op.raw), op.isAdmin, op.id, op.now).0);
  }

  lemma LocalLoginStays(s: Store, op: Op)
    requires Inv(s) && Admissible(s, op) && op.LocalLogin?
    ensures Inv(Apply(s, op)) && EmailsStay(s, Apply(s, op), None)
  {
    UpsertLocalKeeps(s, Normalize(op.raw), op.isAdmin, op.id, op.now);
    KeptStays(s, UpsertLocalAs(s, Normalize(op.raw), op.isAdmin, op.id, op.now).0);
  }

  lemma OauthLoginStays(s: Store, op: Op)
    requires Inv(s) && Admissible(s, op) && op.OauthLogin?
    ensures Inv(Apply(s, op)) && EmailsStay(s, Apply(s, op), None)
  {
    UpsertOauthKeeps(s, op.provider, op.subject, Normalize(op.raw), op.isAdmin, op.id, op.now);
    KeptStays(s, UpsertOauthAs(s, op.provider, op.subject, Normalize(op.raw), op.isAdmin, op.id, op.now).0);
  }

  lemma LookupByStays(s: Store, email: string)
    requires Inv(s)
    ensures Inv(Find(s, email).0) && EmailsStay(s, Find(s, email).0, None)
  {
    FindKept(s, email);
    KeptStays(s, Find(s, email).0);
  }

  lemma LookupStays(s: Store, op: Op)
    requires Inv(s) && op.Lookup?
    ensures Inv(Apply(s, op)) && EmailsStay(s, Apply(s, op), None)
  {
    var e := Normalize(op.raw);
    LookupByStays(s, e);
    assert Apply(s, op) == Find(s, e).0;
  }

  lemma SetAdminStays(s: Store, id: UserId, isAdmin: bool)
    requires Inv(s)
    ensures Inv(SetUserAdmin(s, id, isAdmin).0) && EmailsStay(s, SetUserAdmin(s, id, isAdmin).0, None)
  {
    if Decodes(s, id) {
      FieldsKeepOk(s, id, Fields(s, id).(isAdmin := Some(isAdmin)));
      KeptStays(s, s.(users := s.users[id := Fields(s, id).(isAdmin := Some(isAdmin))]));
    }
  }

  lemma BumpEpochStays(s: Store, id: UserId)
    requires Inv(s)
    ensures Inv(BumpSessionEpoch(s, id).0) && EmailsStay(s, BumpSessionEpoch(s, id).0, None)
  {
    if Decodes(s, id) {
      var e := Decode(Fields(s, id)).value.epoch + 1;
      FieldsKeepOk(s, id, Fields(s, id).(epoch := Some(e)));
      KeptStays(s, s.(users := s.users[id := Fields(s, id).(epoch := Some(e))]));
    }
  }

  lemma BootstrapStays(s: Store, op: Op)
    requires Inv(s) && Admissible(s, op) && op.Bootstrap?
    ensures Inv(Apply(s, op)) && EmailsStay(s, Apply(s, op), None)
  {
    var e := Normalize(op.raw);
    BootstrapKeeps(s, e, op.secret, op.id, op.token, op.now);
    assert Apply(s, op) == BootstrapAdminAs(s, e, op.secret, op.id, op.token, op.now).0;
    GrewStays(s, Apply(s, op));
  }

  lemma GrewStays(s: Store, s': Store)
    requires Grew(s, s'.(tokens := s.tokens))
    ensures EmailsStay(s, s', None)
  {
    assert forall id :: Fields(s'.(tokens := s.tokens), id) == Fields(s', id);
  }

  lemma DeleteStays(s: Store, op: Op)
    requires Inv(s) && op.Delete?
    ensures Inv(Apply(s, op)) && EmailsStay(s, Apply(s, op), Some(op.user))
  {
    DeleteUserKeeps(s, op.user);
  }

  /** What every operation keeps. */
  lemma OpKeepsInv(s: Store, op: Op)
    requires Inv(s) && Admissible(s, op)
    ensures Inv(Apply(s, op)) && EmailsStay(s, Apply(s, op), if op.Delete? then Some(op.user) else None)
  {
    match op
    case Bootstrap(_, _, _, _, _) => BootstrapStays(s, op);
    case Create(_, _, _, _) => CreateStays(s, op);
    case LocalLogin(_, _, _, _) => LocalLoginStays(s, op);
    case OauthLogin(_, _, _, _, _, _) => OauthLoginStays(s, op);
    case Lookup(_) => LookupStays(s, op);
    case SetAdmin(id, isAdmin) => SetAdminStays(s, id, isAdmin);
    case BumpEpoch(id) => BumpEpochStays(s, id);
    case Delete(_) => DeleteStays(s, op);
    case NewToken(_, _, _, _, _, _) => NewTokenStays(s, op);
    case RenameToken(_, _, _) => RenameStays(s, op);
    case RevokeToken(_, _) => RevokeStays(s, op);
    case Login(_, _) => LoginStays(s, op);
  }

  ghost predicate Reaches(s: Store, ops: seq<Op>, end: Store)
    decreases |ops|
  {
    if ops == [] then s == end else Admissible(s, ops[0]) && Reaches(Apply(s, ops[0]), ops[1..], end)
  }

  /** Over any mix of operations: no two listed users share an e-mail, the token indexes agree with
      the records, and a stored e-mail never changes before its user is deleted. */
  lemma {:induction false} RunsStayConsistent(s: Store, ops: seq<Op>, end: Store, id: UserId)
    requires Inv(s) && Reaches(s, ops, end)
    ensures Inv(end)
    ensures Fields(s, id).primaryEmail.Some? && Delete(id) !in ops ==>
      Fields(end, id).primaryEmail == Fields(s, id).primaryEmail
    decreases |ops|
  {
    if ops != [] {
      var op := ops[0];
      var s1 := Apply(s, op);
      OpKeepsInv(s, op);
      assert Fields(s, id).primaryEmail.Some? && op != Delete(id) ==>
        Fields(s1, id).primaryEmail == Fields(s, id).primaryEmail;
      RunsStayConsistent(s1, ops[1..], end, id);
    }
  }

  /** At any reachable point two listed users with one e-mail are one user, lookups by e-mail give
      what a scan gives, and a secret authenticates exactly as the owner of the live, unexpired
      token that holds it: never an error, never a deleted user. */
  lemma ReachableLookupsAreExact(s: Store, ops: seq<Op>, end: Store, i: UserId, j: UserId, email: string,
                                 secret: T.Secret, now: int, t: T.TokenId)
    requires Inv(s) && Reaches(s, ops, end)
    ensures i in end.listed && j in end.listed && HasEmail(end, i, email) && HasEmail(end, j, email) ==> i == j
    ensures Find(end, email).1.Ok? ==> Find(end, email).1.value == Scan(end, email)
    ensures
      var r := Authenticate(end, secret, now).1;
      && r.Ok?
      && ((r.value.Some? && r.value.value.token == t) <==>
            (T.Live(end.tokens, t) && end.tokens.records[t].hash == Some(secret)
             && !(end.tokens.records[t].expiresAt.Some? && end.tokens.records[t].expiresAt.value < now)))
      && (r.value.Some? ==> T.Fields(end.tokens, r.value.value.token).owner == Some(r.value.value.user)
                            && Decodes(end, r.value.value.user))
  {
    RunsStayConsistent(s, ops, end, i);
    FindRefinesScan(end, email);
    T.ResolveIsExact(end.tokens, secret, now, t);
    assert T.HashLeads(end.tokens, secret);
  }

  // ---- What each operation does to logins ------------------------------------------------

  /** Every login, of any secret at any time, comes out as it did before. */
  lemma RenameChangesNoLogin(s: Store, owner: UserId, from: string, to: string, secret: T.Secret, now: int)
    requires Inv(s)
    ensures Authenticate(s.(tokens := T.Rename(s.tokens, owner, from, to).0), secret, now).1
      == Authenticate(s, secret, now).1
  {
    T.RenamingMeans(s.tokens, owner, from, to);
    var s' := s.(tokens := T.Rename(s.tokens, owner, from, to).0);
    T.ResolveIsExact(s.tokens, secret, now, 0);
    T.RenamingAgrees(s.tokens, owner, from, to);
    T.ResolveIsExact(s'.tokens, secret, now, 0);
    assert T.HashLeads(s.tokens, secret);
    assert forall i :: Read(s', i) == Read(s, i);
  }

  /** Revoking ends the logins of the named token and of no other. */
  lemma RevokeEndsOneToken(s: Store, owner: UserId, name: string, secret: T.Secret, now: int)
    requires Inv(s)
    ensures
      var revoked := s.(tokens := T.Revoke(s.tokens, owner, name).0);
      var before, after := Authenticate(s, secret, now).1, Authenticate(revoked, secret, now).1;
      && before.Ok?
      && after == if before.value.Some? && (owner, name) in s.tokens.byName
                     && before.value.value.token == s.tokens.byName[(owner, name)]
                  then Ok(None) else before
  {
    T.RevokingAgrees(s.tokens, owner, name);
    T.ResolveIsExact(s.tokens, secret, now, 0);
    assert T.HashLeads(s.tokens, secret);
    var s' := s.(tokens := T.Revoke(s.tokens, owner, name).0);
    assert forall i :: Read(s', i) == Read(s, i);
    if (owner, name) in s.tokens.byName {
      var t := s.tokens.byName[(owner, name)];
      assert T.NameLeads(s.tokens, (owner, name)) && T.Live(s.tokens, t) && T.Whole(s.tokens.records[t], t);
      T.DeletingEndsOneCredential(s.tokens, T.Decode(s.tokens.records[t]).value, secret, now);
      assert T.Indexed(s.tokens, t, s.tokens.records[t]);
    }
  }

  /** Deleting a user ends the logins of exactly that user's tokens. */
  lemma DeleteEndsOwnLogins(s: Store, id: UserId, secret: T.Secret, now: int)
    requires Inv(s) && Decodes(s, id)
    ensures
      var before, after := Authenticate(s, secret, now).1, Authenticate(DeleteUser(s, id).0, secret, now).1;
      before.Ok? && after == if before.value.Some? && before.value.value.user == id then Ok(None) else before
  {
    DeleteUserKeeps(s, id);
    var s' := DeleteUser(s, id).0;
    T.ResolveIsExact(s.tokens, secret, now, 0);
    assert T.HashLeads(s.tokens, secret);
    if secret in s.tokens.byHash {
      var t := s.tokens.byHash[secret];
      assert T.Live(s.tokens, t) && T.Indexed(s.tokens, t, s.tokens.records[t]) && T.Whole(s.tokens.records[t], t);
      assert T.OwnerLeads(s.tokens, id, t);
    }
  }

  // ---- Logging in again after a deletion ---------------------------------------------------

  /** A login by an identity whose user was deleted reaches the self-heal that makes a new
      account only if the deleted record carried no epoch; otherwise the residue of the record
      fails to decode and the login is refused. */
  lemma ReloginHealsIffNoEpoch(s: Store, user: UserId, provider: string, subject: string, email: string,
                               isAdmin: bool, id: UserId, now: int)
    requires Inv(s) && Decodes(s, user)
    requires (provider, subject) in s.byIdentity && s.byIdentity[(provider, subject)] == user
    ensures
      var d := DeleteUser(s, user).0;
      var again := UpsertOauthAs(d, provider, subject, email, isAdmin, id, now);
      if Fields(s, user).epoch.Some? then again == (d, Err(Malformed))
      else
        var dropped := d.(byIdentity := d.byIdentity - {(provider, subject)});
        again == LinkFirstSeen(dropped, provider, subject, email, isAdmin, id, now)
  {
    DeleteUserKeeps(s, user);
  }

  /** An identity tied to the residue of a deleted user. */
  ghost predicate Stuck(s: Store, key: (string, string), user: UserId) {
    && key.0 != "local" && key in s.byIdentity && s.byIdentity[key] == user
    && Fields(s, user) != NO_FIELDS && !Decodes(s, user)
  }

  /** Neither this record nor this identity's entry is touched. */
  ghost predicate Apart(s: Store, s': Store, key: (string, string), user: UserId) {
    && Fields(s', user) == Fields(s, user)
    && (key in s.byIdentity ==> key in s'.byIdentity && s'.byIdentity[key] == s.byIdentity[key])
  }

  lemma WriteNewUserApart(s: Store, email: string, isAdmin: bool, id: UserId, now: int, key: (string, string),
                          user: UserId)
    requires UsersOk(s) && id != user
    ensures Apart(s, WriteNewUser(s, email, isAdmin, id, now).0, key, user)
    ensures WriteNewUser(s, email, isAdmin, id, now).1.Ok? ==> WriteNewUser(s, email, isAdmin, id, now).1.value.id == id
  {
    FindRefinesScan(s, email);
  }

  lemma LinkApart(s: Store, provider: string, subject: string, email: string, isAdmin: bool, id: UserId, now: int,
                  key: (string, string), user: UserId)
    requires UsersOk(s) && FreshUser(s, id) && id != user && !Decodes(s, user) && key != (provider, subject)
    ensures Apart(s, LinkFirstSeen(s, provider, subject, email, isAdmin, id, now).0, key, user)
  {
    FindRefinesScan(s, email);
    var (s1, found) := Find(s, email);
    if found.Ok? && found.value.Some? {
      FoundIsListed(s, email);
    } else if found.Ok? {
      WriteNewUserApart(s1, email, isAdmin, id, now, key, user);
    }
  }

  lemma UpsertLocalApart(s: Store, email: string, isAdmin: bool, id: UserId, now: int, key: (string, string),
                         user: UserId)
    requires UsersOk(s) && FreshUser(s, id) && id != user && !Decodes(s, user) && key.0 != "local"
    ensures Apart(s, UpsertLocalAs(s, email, isAdmin, id, now).0, key, user)
  {
    FindRefinesScan(s, email);
    var (s1, found) := Find(s, email);
    if found.Ok? && found.value.Some? {
      FoundIsListed(s, email);
    } else if found.Ok? {
      WriteNewUserApart(s1, email, isAdmin, id, now, key, user);
    }
  }

  lemma ReturningApart(s: Store, u: User, email: string, isAdmin: bool, key: (string, string), user: UserId)
    requires UsersOk(s) && u.id in s.listed && u.id != user
    ensures Apart(s, Returning(s, u, email, isAdmin).0, key, user)
  {
    WithAdminKept(s, u, isAdmin);
    FindRefinesScan(WithAdmin(s, u, isAdmin), email);
  }

  lemma UpsertOauthApart(s: Store, provider: string, subject: string, email: string, isAdmin: bool, id: UserId,
                         now: int, key: (string, string), user: UserId)
    requires UsersOk(s) && FreshUser(s, id) && id != user && Stuck(s, key, user)
    ensures Apart(s, UpsertOauthAs(s, provider, subject, email, isAdmin, id, now).0, key, user)
  {
    var own := (provider, subject);
    var s' := UpsertOauthAs(s, provider, subject, email, isAdmin, id, now).0;
    if own == key {
      assert s' == s;
    } else if own !in s.byIdentity {
      LinkApart(s, provider, subject, email, isAdmin, id, now, key, user);
      assert s' == LinkFirstSeen(s, provider, subject, email, isAdmin, id, now).0;
    } else if Read(s, s.byIdentity[own]) == Ok(None) {
      var dropped := s.(byIdentity := s.byIdentity - {own});
      IdentityKeepsOk(s, own, id);
      assert FreshUser(dropped, id) by { assert dropped.byIdentity.Values <= s.byIdentity.Values; }
      LinkApart(dropped, provider, subject, email, isAdmin, id, now, key, user);
      assert s' == LinkFirstSeen(dropped, provider, subject, email, isAdmin, id, now).0;
      assert Apart(s, dropped, key, user);
    } else if Read(s, s.byIdentity[own]).Ok? {
      var u := Read(s, s.byIdentity[own]).value.value;
      assert LeadsToListed(s, s.byIdentity[own]) && u.id != user;
      ReturningApart(s, u, email, isAdmin, key, user);
      assert s' == Returning(s, u, email, isAdmin).0;
    }
  }

  lemma BootstrapApart(s: Store, email: string, secret: T.Secret, id: UserId, token: T.TokenId, now: int,
                       key: (string, string), user: UserId)
    requires UsersOk(s) && id != user && !Decodes(s, user)
    ensures Apart(s, BootstrapAdminAs(s, email, secret, id, token, now).0, key, user)
  {
    FindRefinesScan(s, email);
    var s1 := Find(s, email).0;
    WriteNewUserApart(s1, email, true, id, now, key, user);
    if "bootstrap" in s1.byName { assert LeadsToListed(s1, s1.byName["bootstrap"]); }
  }

  lemma StepApart(s: Store, op: Op, key: (string, string), user: UserId)
    requires Inv(s) && Admissible(s, op) && Stuck(s, key, user)
    ensures Apart(s, Apply(s, op), key, user)
  {
    match op
    case Bootstrap(raw, secret, id, token, now) => BootstrapApart(s, Normalize(raw), secret, id, token, now, key, user);
    case Create(raw, isAdmin, id, now) => WriteNewUserApart(s, Normalize(raw), isAdmin, id, now, key, user);
    case LocalLogin(raw, isAdmin, id, now) => UpsertLocalApart(s, Normalize(raw), isAdmin, id, now, key, user);
    case OauthLogin(provider, subject, raw, isAdmin, id, now) =>
      UpsertOauthApart(s, provider, subject, Normalize(raw), isAdmin, id, now, key, user);
    case Lookup(raw) => FindRefinesScan(s, Normalize(raw));
    case Delete(other) => DeleteUserKeeps(s, other);
    case _ =>
  }

  /** However the host is used afterwards, every login by that identity is refused. */
  lemma {:induction false} StuckForever(s: Store, ops: seq<Op>, end: Store, key: (string, string), user: UserId,
                                        raw: string, isAdmin: bool, id: UserId, now: int)
    requires Inv(s) && Reaches(s, ops, end) && Stuck(s, key, user)
    ensures UpsertOauth(end, key.0, key.1, raw, isAdmin, id, now) == (end, Err(Malformed))
    decreases |ops|
  {
    if ops == [] {
      assert (key.0, key.1) == key;
    } else {
      OpKeepsInv(s, ops[0]);
      StepApart(s, ops[0], key, user);
      StuckForever(Apply(s, ops[0]), ops[1..], end, key, user, raw, isAdmin, id, now);
    }
  }
}
