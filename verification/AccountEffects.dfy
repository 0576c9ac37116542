/** What each account operation answers and writes, user by user, and what a later login shows of it. */
module AccountEffects {
  import opened Wrappers
  import opened Accounts
  import opened AccountSpelling
  import T = Tokens

  // ---- What a login shows -------------------------------------------------------------------

  /** The record's role, and its e-mail: the stored one, or the old handle of a record without. */
  predicate Shows(s: Store, ctx: Context) {
    var f := Fields(s, ctx.user);
    && f.isAdmin == Some(ctx.isAdmin)
    && (if f.primaryEmail.Some? then f.primaryEmail == Some(ctx.email) else f.name == Some(ctx.email))
  }

  lemma LoginShows(s: Store, secret: T.Secret, now: int)
    requires Inv(s)
    ensures
      var r := Authenticate(s, secret, now).1;
      r.Ok? && (r.value.Some? ==>
        Shows(s, r.value.value) && T.Fields(s.tokens, r.value.value.token).owner == Some(r.value.value.user))
  {
    T.ResolveIsExact(s.tokens, secret, now, 0);
    assert T.HashLeads(s.tokens, secret);
    if secret in s.tokens.byHash {
      var t := s.tokens.byHash[secret];
      assert T.Live(s.tokens, t) && T.Whole(s.tokens.records[t], t);
    }
  }

  /** In every reachable store a login that succeeds shows the role and e-mail stored for the owner of
      its token. */
  lemma LoginShowsStored(s: Store, ops: seq<Op>, end: Store, secret: T.Secret, now: int)
    requires Inv(s) && Reaches(s, ops, end)
    ensures
      var r := Authenticate(end, secret, now).1;
      r.Ok? && (r.value.Some? ==>
        Shows(end, r.value.value) && T.Fields(end.tokens, r.value.value.token).owner == Some(r.value.value.user))
  {
    RunsStayConsistent(s, ops, end, 0);
    LoginShows(end, secret, now);
  }

  /** It also stamps the token, and changes nothing else; a failed one changes nothing. */
  lemma LoginStamps(s: Store, secret: T.Secret, now: int)
    requires Inv(s)
    ensures
      var (s', r) := Authenticate(s, secret, now);
      if r == Ok(None) then s' == s
      else
        && r.Ok? && r.value.Some?
        && var t := r.value.value.token;
           && T.Fields(s'.tokens, t) == T.Fields(s.tokens, t).(lastUsedAt := Some(now))
           && (forall x :: x != t ==> T.Fields(s'.tokens, x) == T.Fields(s.tokens, x))
           && s' == s.(tokens := s.tokens.(records := s'.tokens.records))
  {
    T.ResolveIsExact(s.tokens, secret, now, 0);
    assert T.HashLeads(s.tokens, secret);
  }

  // ---- What an operation does to the records --------------------------------------------------

  ghost predicate Others(s: Store, s': Store, id: UserId) {
    forall i :: (i in s.users || i in s'.users) && i != id ==> Fields(s', i) == Fields(s, i)
  }

  predicate SameRecords(s: Store, s': Store) {
    s'.users == s.users && s'.listed == s.listed
  }

  /** A new user with these data, listed, and no other record changed. */
  ghost predicate Joined(s: Store, s': Store, id: UserId, email: string, isAdmin: bool, now: int) {
    && Read(s', id) == Ok(Some(User(id, email, isAdmin, now, 0))) && Fields(s', id).primaryEmail == Some(email)
    && Fields(s', id).epoch == Some(0)
    && s'.listed == s.listed + {id} && Others(s, s', id)
  }

  /** The user's role is this now, and nothing else of any record changed. */
  ghost predicate RoleSet(s: Store, s': Store, id: UserId, isAdmin: bool) {
    && Fields(s', id) == Fields(s, id).(isAdmin := Some(isAdmin)) && s'.listed == s.listed && Others(s, s', id)
  }

  lemma FindKeepsRecords(s: Store, email: string)
    requires UsersOk(s)
    ensures SameRecords(s, Find(s, email).0) && Find(s, email).0.byIdentity == s.byIdentity
    ensures Find(s, email).1 == if Jammed(s, email) then Err(Malformed) else Ok(Scan(s, email))
  {
    FindRefinesScan(s, email);
    FailsMalformed(s, email);
  }

  lemma WriteJoins(s: Store, email: string, isAdmin: bool, id: UserId, now: int)
    requires UsersOk(s)
    ensures
      var (s', r) := WriteNewUser(s, email, isAdmin, id, now);
      && s'.byIdentity == s.byIdentity
      && (Jammed(s, email) || Scan(s, email).Some? ==> r.Err? && SameRecords(s, s'))
      && (!Jammed(s, email) && Scan(s, email).None? ==>
            r == Ok(User(id, email, isAdmin, now, 0)) && Joined(s, s', id, email, isAdmin, now)
            && email in s'.byEmail && s'.byEmail[email] == id)
  {
    FindKeepsRecords(s, email);
    FindRefinesScan(s, email);
  }

  lemma RoleIsSet(s: Store, u: User, isAdmin: bool)
    requires u.id in s.users && Decode(s.users[u.id]) == Ok(u)
    ensures RoleSet(s, WithAdmin(s, u, isAdmin), u.id, isAdmin)
    ensures WithAdmin(s, u, isAdmin).byIdentity == s.byIdentity && WithAdmin(s, u, isAdmin).byEmail == s.byEmail
  {
    assert Fields(s, u.id).isAdmin == Some(u.isAdmin);
    assert Fields(s, u.id).(isAdmin := Some(u.isAdmin)) == Fields(s, u.id);
  }

  /** A user found by e-mail. */
  lemma FoundIsStored(s: Store, email: string)
    requires UsersOk(s) && !Jammed(s, email) && Scan(s, email).Some?
    ensures
      var u := Scan(s, email).value;
      u.id in s.users && Decode(s.users[u.id]) == Ok(u) && u.id in s.listed && u.email == email
  {
    FindKeepsRecords(s, email);
    FoundIsListed(s, email);
  }

  /** A lookup that found nobody finds nobody again. */
  lemma SecondFind(s: Store, email: string)
    requires UsersOk(s) && !Jammed(s, email) && Scan(s, email).None?
    ensures
      var s1 := Find(s, email).0;
      UsersOk(s1) && email !in s1.byEmail && !Jammed(s1, email) && Scan(s1, email).None?
  {
    FindKeepsRecords(s, email);
    FindRefinesScan(s, email);
    ScanSame(s, Find(s, email).0, email);
  }

  lemma LocalFinds(s: Store, email: string, isAdmin: bool, id: UserId, now: int)
    requires UsersOk(s) && !Jammed(s, email) && Scan(s, email).Some?
    ensures
      var (s', r) := UpsertLocalAs(s, email, isAdmin, id, now);
      && r.Ok? && Read(s', r.value.id) == Ok(Some(r.value)) && r.value.email == email && r.value.isAdmin == isAdmin
      && s'.byIdentity == s.byIdentity[("local", email) := r.value.id]
      && r.value.id == Scan(s, email).value.id && RoleSet(s, s', r.value.id, isAdmin)
  {
    FindKeepsRecords(s, email);
    FoundIsStored(s, email);
    RoleIsSet(Find(s, email).0, Scan(s, email).value, isAdmin);
  }

  lemma LocalMakes(s: Store, email: string, isAdmin: bool, id: UserId, now: int)
    requires UsersOk(s) && IsFree(s, email)
    ensures
      var (s', r) := UpsertLocalAs(s, email, isAdmin, id, now);
      && r.Ok? && Read(s', r.value.id) == Ok(Some(r.value)) && r.value.email == email && r.value.isAdmin == isAdmin
      && s'.byIdentity == s.byIdentity[("local", email) := r.value.id]
      && r.value.id == id && Joined(s, s', id, email, isAdmin, now)
  {
    FindKeepsRecords(s, email);
    SecondFind(s, email);
    WriteJoins(Find(s, email).0, email, isAdmin, id, now);
  }

  /** A local login: whom it signs in, with which role, and what it links. */
  lemma LocalLoginDoes(s: Store, email: string, isAdmin: bool, id: UserId, now: int)
    requires UsersOk(s) && FreshUser(s, id)
    ensures
      var (s', r) := UpsertLocalAs(s, email, isAdmin, id, now);
      && (Jammed(s, email) ==> r == Err(Malformed) && SameRecords(s, s') && s'.byIdentity == s.byIdentity)
      && (!Jammed(s, email) ==>
            && r.Ok? && Read(s', r.value.id) == Ok(Some(r.value))
            && r.value.email == email && r.value.isAdmin == isAdmin
            && s'.byIdentity == s.byIdentity[("local", email) := r.value.id]
            && if Scan(s, email).Some?
               then r.value.id == Scan(s, email).value.id && RoleSet(s, s', r.value.id, isAdmin)
               else r.value.id == id && Joined(s, s', id, email, isAdmin, now))
  {
    if Jammed(s, email) {
      FindKeepsRecords(s, email);
    } else if Scan(s, email).Some? {
      LocalFinds(s, email, isAdmin, id, now);
    } else {
      LocalMakes(s, email, isAdmin, id, now);
    }
  }

  lemma LinkDoes(s: Store, provider: string, subject: string, email: string, isAdmin: bool, id: UserId, now: int)
    requires UsersOk(s) && FreshUser(s, id)
    ensures
      var (s', r) := LinkFirstSeen(s, provider, subject, email, isAdmin, id, now);
      && (Jammed(s, email) ==> r == Err(Malformed) && SameRecords(s, s') && s'.byIdentity == s.byIdentity)
      && (!Jammed(s, email) ==>
            && r.Ok? && Read(s', r.value.id) == Ok(Some(r.value))
            && r.value.email == email && r.value.isAdmin == isAdmin
            && s'.byIdentity == s.byIdentity[(provider, subject) := r.value.id]
            && if Scan(s, email).Some?
               then r.value.id == Scan(s, email).value.id && RoleSet(s, s', r.value.id, isAdmin)
               else r.value.id == id && Joined(s, s', id, email, isAdmin, now))
  {
    FindKeepsRecords(s, email);
    FindRefinesScan(s, email);
    var s1 := Find(s, email).0;
    if !Jammed(s, email) && Scan(s, email).Some? {
      FoundIsStored(s, email);
      var u := Scan(s, email).value;
      RoleIsSet(WithIdentity(s1, provider, subject, u.id), u, isAdmin);
    } else if !Jammed(s, email) {
      SecondFind(s, email);
      WriteJoins(s1, email, isAdmin, id, now);
    }
  }

  /** A known identity signs its user in whatever e-mail it brings: the role is synced, a stored e-mail
      is re-indexed, and a missing one is filled in if nobody has it. */
  lemma ReturningDoes(s: Store, u: User, email: string, isAdmin: bool)
    requires UsersOk(s) && u.id in s.listed && Read(s, u.id) == Ok(Some(u))
    ensures
      var (s', r) := Returning(s, u, email, isAdmin);
      var f := Fields(s, u.id);
      var fills := f.primaryEmail.None? && !Jammed(s, email) && Scan(s, email).None?;
      && s'.byIdentity == s.byIdentity && s'.listed == s.listed && Others(s, s', u.id)
      && Fields(s', u.id) == f.(isAdmin := Some(isAdmin), primaryEmail := if fills then Some(email) else f.primaryEmail)
      && (r.Err? <==> f.primaryEmail.None? && Jammed(s, email))
      && (r.Ok? ==> r.value.id == u.id && Read(s', u.id) == Ok(Some(r.value)))
      && (f.primaryEmail.Some? ==> s'.byEmail == s.byEmail[u.email := u.id])
      && (fills ==> email in s'.byEmail && s'.byEmail[email] == u.id)
  {
    RoleIsSet(s, u, isAdmin);
    WithAdminKept(s, u, isAdmin);
    var s1 := WithAdmin(s, u, isAdmin);
    FindKeepsRecords(s1, email);
    RoleKeepsScan(s, u, isAdmin, email);
  }

  lemma RoleKeepsScan(s: Store, u: User, isAdmin: bool, email: string)
    requires UsersOk(s) && u.id in s.listed && Read(s, u.id) == Ok(Some(u))
    ensures
      var s1 := WithAdmin(s, u, isAdmin);
      (Scan(s1, email).Some? <==> Scan(s, email).Some?) && (Jammed(s1, email) <==> Jammed(s, email))
  {
    var s1 := WithAdmin(s, u, isAdmin);
    RoleIsSet(s, u, isAdmin);
    forall i ensures HasEmail(s1, i, email) <==> HasEmail(s, i, email) {
      assert i != u.id ==> Fields(s1, i) == Fields(s, i);
    }
    assert forall i :: Decodes(s1, i) <==> Decodes(s, i);
    ScanFinds(s, email);
    ScanFinds(s1, email);
  }

  // ---- Roles through runs ----------------------------------------------------------------------

  /** Whom an e-mail signs in: its holder, or the new user. */
  ghost function Meets(s: Store, email: string, id: UserId): Option<UserId> {
    if Jammed(s, email) then None
    else if Scan(s, email).Some? then Some(Scan(s, email).value.id)
    else Some(id)
  }

  /** A provider login finds its identity's record, or else goes by e-mail. */
  ghost predicate Known(s: Store, key: (string, string)) {
    key in s.byIdentity && Fields(s, s.byIdentity[key]) != NO_FIELDS
  }

  /** Whom a provider identity signs in: its user, whoever its e-mail meets if it has none, nobody if
      what it leads to was deleted. */
  ghost function SignsIn(s: Store, key: (string, string), email: string, id: UserId): Option<UserId> {
    if Known(s, key) then
      if Decodes(s, s.byIdentity[key]) then Some(s.byIdentity[key]) else None
    else Meets(s, email, id)
  }

  ghost predicate IsFree(s: Store, email: string) {
    !Jammed(s, email) && Scan(s, email).None?
  }

  /** No record to adopt under the old name of the bootstrap admin, nor one that fails to decode. */
  predicate NothingToAdopt(s: Store) {
    "bootstrap" in s.byName ==>
      || Fields(s, s.byName["bootstrap"]) == NO_FIELDS
      || (Decodes(s, s.byName["bootstrap"]) && Fields(s, s.byName["bootstrap"]).primaryEmail.Some?)
  }

  /** The role the operation gives this user, if it gives one. */
  ghost function Gives(s: Store, op: Op, user: UserId): Option<bool> {
    match op
    case Create(raw, isAdmin, id, _) => if IsFree(s, Normalize(raw)) && user == id then Some(isAdmin) else None
    case Bootstrap(raw, _, id, _, _) =>
      if IsFree(s, Normalize(raw)) && NothingToAdopt(s) && user == id then Some(true) else None
    case LocalLogin(raw, isAdmin, id, _) => if Meets(s, Normalize(raw), id) == Some(user) then Some(isAdmin) else None
    case OauthLogin(provider, subject, raw, isAdmin, id, _) =>
      if SignsIn(s, (provider, subject), Normalize(raw), id) == Some(user) then Some(isAdmin) else None
    case SetAdmin(id, isAdmin) => if user == id && Decodes(s, id) then Some(isAdmin) else None
    case _ => None
  }

  /** The role after the operation, given the role before it: the one it gives, none for whom it
      deletes, and otherwise the same. */
  ghost function RoleAfter(s: Store, op: Op, user: UserId, role: Option<bool>): Option<bool> {
    if op == Delete(user) && Decodes(s, user) then None
    else if Gives(s, op, user).Some? then Gives(s, op, user)
    else role
  }

  ghost predicate RoleFollows(s: Store, op: Op, s': Store, user: UserId) {
    Fields(s', user).isAdmin == RoleAfter(s, op, user, Fields(s, user).isAdmin)
  }

  /** Whom the operation makes anew. */
  ghost predicate Makes(s: Store, op: Op, user: UserId) {
    match op
    case Create(raw, _, id, _) => IsFree(s, Normalize(raw)) && user == id
    case Bootstrap(raw, _, id, _, _) => IsFree(s, Normalize(raw)) && NothingToAdopt(s) && user == id
    case LocalLogin(raw, _, id, _) => IsFree(s, Normalize(raw)) && user == id
    case OauthLogin(provider, subject, raw, _, id, _) =>
      !Known(s, (provider, subject)) && IsFree(s, Normalize(raw)) && user == id
    case _ => false
  }

  /** A session epoch starts at zero, goes up by one with each sign-out-everywhere, and outlives even
      the deletion of its user. */
  ghost predicate EpochFollows(s: Store, op: Op, s': Store, user: UserId) {
    var was := Fields(s, user).epoch;
    Fields(s', user).epoch ==
      if Makes(s, op, user) then Some(0)
      else if op == BumpEpoch(user) && Decodes(s, user) then Some((if was.Some? then was.value else 0) + 1)
      else was
  }

  lemma NewIsUnlike(s: Store, email: string, id: UserId)
    requires UsersOk(s) && FreshUser(s, id)
    ensures Scan(s, email).Some? ==> Scan(s, email).value.id != id
  {
    ScanFinds(s, email);
  }

  /** What an edit of one record means for everybody's role and epoch. */
  lemma EditMeans(s: Store, s': Store, id: UserId, user: UserId)
    requires Others(s, s', id)
    ensures user != id ==> Fields(s', user) == Fields(s, user)
  {
  }

  lemma JoinedRole(s: Store, s': Store, id: UserId, email: string, isAdmin: bool, now: int)
    requires Joined(s, s', id, email, isAdmin, now)
    ensures Fields(s', id).isAdmin == Some(isAdmin) && Fields(s', id).epoch == Some(0)
  {
  }

  /** Role and epoch of a user after somebody was signed in with a role, or nobody. */
  ghost predicate SignedIn(s: Store, s': Store, who: Option<UserId>, isNew: bool, isAdmin: bool, user: UserId) {
    var was, now := Fields(s, user), Fields(s', user);
    && now.isAdmin == (if who == Some(user) then Some(isAdmin) else was.isAdmin)
    && now.epoch == (if who == Some(user) && isNew then Some(0) else was.epoch)
  }

  lemma LocalSignsIn(s: Store, email: string, isAdmin: bool, id: UserId, now: int, user: UserId)
    requires UsersOk(s) && FreshUser(s, id)
    ensures SignedIn(s, UpsertLocalAs(s, email, isAdmin, id, now).0, Meets(s, email, id), IsFree(s, email),
                     isAdmin, user)
  {
    LocalLoginDoes(s, email, isAdmin, id, now);
    var s' := UpsertLocalAs(s, email, isAdmin, id, now).0;
    MetMeans(s, s', email, isAdmin, id, now, user);
  }

  lemma LinkSignsIn(s: Store, provider: string, subject: string, email: string, isAdmin: bool, id: UserId, now: int,
                    user: UserId)
    requires UsersOk(s) && FreshUser(s, id)
    ensures SignedIn(s, LinkFirstSeen(s, provider, subject, email, isAdmin, id, now).0, Meets(s, email, id),
                     IsFree(s, email), isAdmin, user)
  {
    LinkDoes(s, provider, subject, email, isAdmin, id, now);
    var s' := LinkFirstSeen(s, provider, subject, email, isAdmin, id, now).0;
    MetMeans(s, s', email, isAdmin, id, now, user);
  }

  lemma MetMeans(s: Store, s': Store, email: string, isAdmin: bool, id: UserId, now: int, user: UserId)
    requires Jammed(s, email) ==> SameRecords(s, s')
    requires !Jammed(s, email) && Scan(s, email).Some? ==> RoleSet(s, s', Scan(s, email).value.id, isAdmin)
    requires IsFree(s, email) ==> Joined(s, s', id, email, isAdmin, now)
    ensures SignedIn(s, s', Meets(s, email, id), IsFree(s, email), isAdmin, user)
  {
    if Jammed(s, email) {
    } else if Scan(s, email).Some? {
      EditMeans(s, s', Scan(s, email).value.id, user);
    } else {
      JoinedRole(s, s', id, email, isAdmin, now);
      EditMeans(s, s', id, user);
    }
  }

  lemma KnownSignsIn(s: Store, provider: string, subject: string, email: string, isAdmin: bool, id: UserId, now: int,
                     user: UserId)
    requires UsersOk(s) && Known(s, (provider, subject))
    ensures
      var linked := s.byIdentity[(provider, subject)];
      var who := if Decodes(s, linked) then Some(linked) else None;
      SignedIn(s, UpsertOauthAs(s, provider, subject, email, isAdmin, id, now).0, who, false, isAdmin, user)
  {
    var key := (provider, subject);
    var s' := UpsertOauthAs(s, provider, subject, email, isAdmin, id, now).0;
    if Decodes(s, s.byIdentity[key]) {
      var u := Read(s, s.byIdentity[key]).value.value;
      assert LeadsToListed(s, s.byIdentity[key]);
      ReturningDoes(s, u, email, isAdmin);
      assert s' == Returning(s, u, email, isAdmin).0;
      EditMeans(s, s', u.id, user);
    } else {
      assert s' == s;
    }
  }

  lemma UnknownSignsIn(s: Store, provider: string, subject: string, email: string, isAdmin: bool, id: UserId, now: int,
                       user: UserId)
    requires UsersOk(s) && FreshUser(s, id) && !Known(s, (provider, subject))
    ensures SignedIn(s, UpsertOauthAs(s, provider, subject, email, isAdmin, id, now).0, Meets(s, email, id),
                     IsFree(s, email), isAdmin, user)
  {
    var d := Dropped(s, (provider, subject));
    DroppedMeets(s, (provider, subject), email, id);
    LinkSignsIn(d, provider, subject, email, isAdmin, id, now, user);
    assert Fields(d, user) == Fields(s, user);
    assert UpsertOauthAs(s, provider, subject, email, isAdmin, id, now)
        == LinkFirstSeen(d, provider, subject, email, isAdmin, id, now);
  }

  /** Roles and epochs follow an operation that signs somebody in, as `Gives` and `Makes` say it does. */
  lemma FollowsBySigning(s: Store, op: Op, s': Store, who: Option<UserId>, isNew: bool, isAdmin: bool, user: UserId)
    requires op.Create? || op.Bootstrap? || op.LocalLogin? || op.OauthLogin?
    requires SignedIn(s, s', who, isNew, isAdmin, user)
    requires Gives(s, op, user) == if who == Some(user) then Some(isAdmin) else None
    requires Makes(s, op, user) <==> who == Some(user) && isNew
    ensures RoleFollows(s, op, s', user) && EpochFollows(s, op, s', user)
  {
  }

  lemma LocalGives(s: Store, op: Op, user: UserId)
    requires op.LocalLogin?
    ensures Gives(s, op, user) ==
      if Meets(s, Normalize(op.raw), op.id) == Some(user) then Some(op.isAdmin) else None
    ensures Makes(s, op, user) <==> IsFree(s, Normalize(op.raw)) && user == op.id
    ensures Apply(s, op) == UpsertLocalAs(s, Normalize(op.raw), op.isAdmin, op.id, op.now).0
  {
  }

  lemma LocalFollows(s: Store, op: Op, user: UserId)
    requires UsersOk(s) && op.LocalLogin? && FreshUser(s, op.id)
    ensures RoleFollows(s, op, Apply(s, op), user) && EpochFollows(s, op, Apply(s, op), user)
  {
    var email := Normalize(op.raw);
    LocalSignsIn(s, email, op.isAdmin, op.id, op.now, user);
    LocalGives(s, op, user);
    NewMeets(s, email, op.id);
    FollowsBySigning(s, op, Apply(s, op), Meets(s, email, op.id), IsFree(s, email), op.isAdmin, user);
  }

  lemma NewMeets(s: Store, email: string, id: UserId)
    ensures IsFree(s, email) ==> Meets(s, email, id) == Some(id)
  {
  }

  lemma OauthGives(s: Store, op: Op, user: UserId)
    requires op.OauthLogin?
    ensures Gives(s, op, user) ==
      if SignsIn(s, (op.provider, op.subject), Normalize(op.raw), op.id) == Some(user) then Some(op.isAdmin) else None
  {
  }

  lemma OauthMakes(s: Store, op: Op, user: UserId)
    requires op.OauthLogin?
    ensures Makes(s, op, user) <==>
      !Known(s, (op.provider, op.subject)) && IsFree(s, Normalize(op.raw)) && user == op.id
  {
  }

  lemma OauthApplies(s: Store, op: Op)
    requires op.OauthLogin?
    ensures Apply(s, op) ==
      UpsertOauthAs(s, op.provider, op.subject, Normalize(op.raw), op.isAdmin, op.id, op.now).0
  {
  }

  lemma KnownFollows(s: Store, op: Op, user: UserId)
    requires UsersOk(s) && op.OauthLogin? && Known(s, (op.provider, op.subject))
    ensures RoleFollows(s, op, Apply(s, op), user) && EpochFollows(s, op, Apply(s, op), user)
  {
    var email, key := Normalize(op.raw), (op.provider, op.subject);
    OauthApplies(s, op);
    OauthGives(s, op, user);
    OauthMakes(s, op, user);
    KnownSignsIn(s, op.provider, op.subject, email, op.isAdmin, op.id, op.now, user);
    FollowsBySigning(s, op, Apply(s, op), SignsIn(s, key, email, op.id), false, op.isAdmin, user);
  }

  lemma UnknownFollows(s: Store, op: Op, user: UserId)
    requires UsersOk(s) && op.OauthLogin? && FreshUser(s, op.id) && !Known(s, (op.provider, op.subject))
    ensures RoleFollows(s, op, Apply(s, op), user) && EpochFollows(s, op, Apply(s, op), user)
  {
    var email := Normalize(op.raw);
    OauthApplies(s, op);
    OauthGives(s, op, user);
    OauthMakes(s, op, user);
    UnknownSignsIn(s, op.provider, op.subject, email, op.isAdmin, op.id, op.now, user);
    NewMeets(s, email, op.id);
    FollowsBySigning(s, op, Apply(s, op), Meets(s, email, op.id), IsFree(s, email), op.isAdmin, user);
  }

  /** Without the entry of an identity that leads nowhere. */
  function Dropped(s: Store, key: (string, string)): Store {
    if key in s.byIdentity then s.(byIdentity := s.byIdentity - {key}) else s
  }

  lemma DroppedMeets(s: Store, key: (string, string), email: string, id: UserId)
    requires UsersOk(s) && FreshUser(s, id)
    ensures
      var d := Dropped(s, key);
      UsersOk(d) && FreshUser(d, id) && Scan(d, email) == Scan(s, email) && (Jammed(d, email) <==> Jammed(s, email))
  {
    IdentityKeepsOk(s, key, id);
    var d := Dropped(s, key);
    assert d.byIdentity.Values <= s.byIdentity.Values;
    ScanSame(s, d, email);
    assert forall i :: Decodes(d, i) <==> Decodes(s, i);
  }

  lemma WriteSignsIn(s: Store, email: string, isAdmin: bool, id: UserId, now: int, user: UserId)
    requires UsersOk(s)
    ensures SignedIn(s, WriteNewUser(s, email, isAdmin, id, now).0, if IsFree(s, email) then Some(id) else None,
                     true, isAdmin, user)
  {
    var s' := WriteNewUser(s, email, isAdmin, id, now).0;
    WriteJoins(s, email, isAdmin, id, now);
    if IsFree(s, email) {
      JoinedRole(s, s', id, email, isAdmin, now);
      EditMeans(s, s', id, user);
    }
  }

  lemma CreateGives(s: Store, op: Op, user: UserId)
    requires op.Create?
    ensures Gives(s, op, user) ==
      if IsFree(s, Normalize(op.raw)) && user == op.id then Some(op.isAdmin) else None
    ensures Makes(s, op, user) <==> IsFree(s, Normalize(op.raw)) && user == op.id
    ensures Apply(s, op) == WriteNewUser(s, Normalize(op.raw), op.isAdmin, op.id, op.now).0
  {
  }

  lemma CreateFollows(s: Store, op: Op, user: UserId)
    requires UsersOk(s) && op.Create?
    ensures RoleFollows(s, op, Apply(s, op), user) && EpochFollows(s, op, Apply(s, op), user)
  {
    var email := Normalize(op.raw);
    WriteSignsIn(s, email, op.isAdmin, op.id, op.now, user);
    CreateGives(s, op, user);
    FollowsBySigning(s, op, Apply(s, op), if IsFree(s, email) then Some(op.id) else None, true, op.isAdmin, user);
  }

  ghost predicate SameFlags(s: Store, s': Store, i: UserId) {
    Fields(s', i).isAdmin == Fields(s, i).isAdmin && Fields(s', i).epoch == Fields(s, i).epoch
  }

  /** A bootstrap: it answers true exactly if it makes an admin; otherwise it changes no role. */
  lemma BootstrapDoes(s: Store, email: string, secret: T.Secret, id: UserId, token: T.TokenId, now: int)
    requires UsersOk(s) && FreshUser(s, id)
    ensures
      var (s', r) := BootstrapAdminAs(s, email, secret, id, token, now);
      && (r == Ok(true) <==> IsFree(s, email) && NothingToAdopt(s))
      && (r == Ok(true) ==>
            && Joined(s, s', id, email, true, now)
            && s'.tokens == T.Written(s.tokens, token, id, "bootstrap", secret, None, now))
      && (r != Ok(true) ==>
            s'.tokens == s.tokens && s'.listed == s.listed && forall i :: SameFlags(s, s', i))
  {
    FindKeepsRecords(s, email);
    if IsFree(s, email) {
      SecondFind(s, email);
      FindRefinesScan(s, email);
      var s1 := Find(s, email).0;
      NewAdminIs(s1, email, secret, id, token, now);
      assert BootstrapAdminAs(s, email, secret, id, token, now) == BootstrapNew(s1, email, secret, id, token, now);
      assert NothingToAdopt(s1) <==> NothingToAdopt(s);
    }
  }

  lemma AdoptionDoes(s: Store, email: string, secret: T.Secret, id: UserId, token: T.TokenId, now: int)
    requires UsersOk(s) && !NothingToAdopt(s)
    ensures
      var (s', r) := BootstrapNew(s, email, secret, id, token, now);
      var legacy := s.byName["bootstrap"];
      if !Decodes(s, legacy) then r == Err(Malformed) && s' == s
      else
        && r == Ok(false) && Fields(s', legacy) == Fields(s, legacy).(primaryEmail := Some(email))
        && Others(s, s', legacy) && s'.listed == s.listed
        && email in s'.byEmail && s'.byEmail[email] == legacy && s'.byName == s.byName - {"bootstrap"}
  {
    assert LeadsToListed(s, s.byName["bootstrap"]);
  }

  /** When it makes nobody: an e-mail somebody has is left alone; otherwise the legacy record gains the
      e-mail, its index entry, and loses the old name's entry. */
  lemma BootstrapAdopts(s: Store, email: string, secret: T.Secret, id: UserId, token: T.TokenId, now: int)
    requires UsersOk(s)
    ensures
      var (s', r) := BootstrapAdminAs(s, email, secret, id, token, now);
      && (Jammed(s, email) ==> r == Err(Malformed) && SameRecords(s, s'))
      && (!Jammed(s, email) && Scan(s, email).Some? ==> r == Ok(false) && SameRecords(s, s'))
      && (IsFree(s, email) && !NothingToAdopt(s) ==>
            var legacy := s.byName["bootstrap"];
            if !Decodes(s, legacy) then r == Err(Malformed) && SameRecords(s, s')
            else
              && r == Ok(false) && Fields(s', legacy) == Fields(s, legacy).(primaryEmail := Some(email))
              && Others(s, s', legacy) && s'.listed == s.listed
              && email in s'.byEmail && s'.byEmail[email] == legacy && s'.byName == s.byName - {"bootstrap"})
  {
    FindKeepsRecords(s, email);
    if IsFree(s, email) {
      SecondFind(s, email);
      var s1 := Find(s, email).0;
      FindRefinesScan(s, email);
      assert NothingToAdopt(s1) <==> NothingToAdopt(s);
      if !NothingToAdopt(s1) {
        AdoptionDoes(s1, email, secret, id, token, now);
      }
      assert BootstrapAdminAs(s, email, secret, id, token, now) == BootstrapNew(s1, email, secret, id, token, now);
    }
  }

  lemma NewAdminIs(s: Store, email: string, secret: T.Secret, id: UserId, token: T.TokenId, now: int)
    requires UsersOk(s) && IsFree(s, email)
    ensures
      var (s', r) := BootstrapNew(s, email, secret, id, token, now);
      && (r == Ok(true) <==> NothingToAdopt(s))
      && (r == Ok(true) ==>
            && Joined(s, s', id, email, true, now)
            && s'.tokens == T.Written(s.tokens, token, id, "bootstrap", secret, None, now))
      && (r != Ok(true) ==>
            s'.tokens == s.tokens && s'.listed == s.listed && forall i :: SameFlags(s, s', i))
  {
    WriteJoins(s, email, true, id, now);
    FindKeepsRecords(s, email);
    FindRefinesScan(s, email);
  }

  lemma BootstrapSignsIn(s: Store, email: string, secret: T.Secret, id: UserId, token: T.TokenId, now: int,
                         user: UserId)
    requires UsersOk(s) && FreshUser(s, id)
    ensures SignedIn(s, BootstrapAdminAs(s, email, secret, id, token, now).0,
                     if IsFree(s, email) && NothingToAdopt(s) then Some(id) else None, true, true, user)
  {
    var (s', r) := BootstrapAdminAs(s, email, secret, id, token, now);
    BootstrapDoes(s, email, secret, id, token, now);
    if r == Ok(true) {
      JoinedRole(s, s', id, email, true, now);
      EditMeans(s, s', id, user);
    } else {
      assert SameFlags(s, s', user);
    }
  }

  lemma BootstrapGives(s: Store, op: Op, user: UserId)
    requires op.Bootstrap?
    ensures
      var makes := IsFree(s, Normalize(op.raw)) && NothingToAdopt(s) && user == op.id;
      Gives(s, op, user) == (if makes then Some(true) else None) && (Makes(s, op, user) <==> makes)
    ensures Apply(s, op) == BootstrapAdminAs(s, Normalize(op.raw), op.secret, op.id, op.token, op.now).0
  {
  }

  lemma BootstrapFollows(s: Store, op: Op, user: UserId)
    requires UsersOk(s) && op.Bootstrap? && FreshUser(s, op.id)
    ensures RoleFollows(s, op, Apply(s, op), user) && EpochFollows(s, op, Apply(s, op), user)
  {
    var email := Normalize(op.raw);
    BootstrapSignsIn(s, email, op.secret, op.id, op.token, op.now, user);
    BootstrapGives(s, op, user);
    FollowsBySigning(s, op, Apply(s, op), if IsFree(s, email) && NothingToAdopt(s) then Some(op.id) else None,
                     true, true, user);
  }

  /** Setting a role, and signing out everywhere: refused for nobody, and exactly that field otherwise. */
  lemma RoleAndEpochDo(s: Store, id: UserId, isAdmin: bool)
    requires UsersOk(s)
    ensures
      var (s', r) := SetUserAdmin(s, id, isAdmin);
      && (r.Ok? <==> Decodes(s, id)) && (r.Err? ==> s' == s)
      && (r.Ok? ==> RoleSet(s, s', id, isAdmin) && Read(s', id) == Ok(Some(r.value)) && s'.byEmail == s.byEmail)
    ensures
      var (s', r) := BumpSessionEpoch(s, id);
      var was := if Fields(s, id).epoch.Some? then Fields(s, id).epoch.value else 0;
      && (r.Ok? <==> Decodes(s, id)) && (r.Err? ==> s' == s)
      && (r.Ok? ==> r.value == was + 1 && Fields(s', id) == Fields(s, id).(epoch := Some(was + 1)) && Others(s, s', id))
  {
  }

  lemma FlagFollows(s: Store, op: Op, user: UserId)
    requires UsersOk(s) && (op.SetAdmin? || op.BumpEpoch?)
    ensures RoleFollows(s, op, Apply(s, op), user) && EpochFollows(s, op, Apply(s, op), user)
  {
    RoleAndEpochDo(s, op.user, if op.SetAdmin? then op.isAdmin else false);
    if Decodes(s, op.user) { EditMeans(s, Apply(s, op), op.user, user); }
  }

  lemma DeleteFollows(s: Store, op: Op, user: UserId)
    requires Inv(s) && op.Delete?
    ensures RoleFollows(s, op, Apply(s, op), user) && EpochFollows(s, op, Apply(s, op), user)
  {
    DeleteUserKeeps(s, op.user);
  }

  lemma SigningFollows(s: Store, op: Op, user: UserId)
    requires UsersOk(s) && (op.Bootstrap? || op.Create? || op.LocalLogin? || op.OauthLogin?) && FreshUser(s, op.id)
    ensures RoleFollows(s, op, Apply(s, op), user) && EpochFollows(s, op, Apply(s, op), user)
  {
    match op
    case Bootstrap(_, _, _, _, _) => BootstrapFollows(s, op, user);
    case Create(_, _, _, _) => CreateFollows(s, op, user);
    case LocalLogin(_, _, _, _) => LocalFollows(s, op, user);
    case OauthLogin(_, _, _, _, _, _) =>
      if Known(s, (op.provider, op.subject)) { KnownFollows(s, op, user); } else { UnknownFollows(s, op, user); }
    case _ =>
  }

  lemma SameUsersFollow(s: Store, op: Op, s': Store, user: UserId)
    requires op.Lookup? || op.NewToken? || op.RenameToken? || op.RevokeToken? || op.Login?
    requires s'.users == s.users
    ensures RoleFollows(s, op, s', user) && EpochFollows(s, op, s', user)
  {
  }

  lemma FindKeepsUsers(s: Store, email: string)
    ensures Find(s, email).0.users == s.users
  {
  }

  lemma LookupKeepsUsers(s: Store, op: Op)
    requires op.Lookup?
    ensures Apply(s, op).users == s.users
  {
    FindKeepsUsers(s, Normalize(op.raw));
  }

  lemma LookupFollows(s: Store, op: Op, user: UserId)
    requires op.Lookup?
    ensures RoleFollows(s, op, Apply(s, op), user) && EpochFollows(s, op, Apply(s, op), user)
  {
    LookupKeepsUsers(s, op);
    SameUsersFollow(s, op, Apply(s, op), user);
  }

  lemma TokenOpFollows(s: Store, op: Op, user: UserId)
    requires op.NewToken? || op.RenameToken? || op.RevokeToken? || op.Login?
    ensures RoleFollows(s, op, Apply(s, op), user) && EpochFollows(s, op, Apply(s, op), user)
  {
    TokensLeaveRecords(s, op);
    SameUsersFollow(s, op, Apply(s, op), user);
  }

  /** What each operation does to every user's role and session epoch. */
  lemma RoleAndEpochFollow(s: Store, op: Op, user: UserId)
    requires Inv(s) && Admissible(s, op)
    ensures RoleFollows(s, op, Apply(s, op), user) && EpochFollows(s, op, Apply(s, op), user)
  {
    if op.Bootstrap? || op.Create? || op.LocalLogin? || op.OauthLogin? {
      SigningFollows(s, op, user);
    } else if op.SetAdmin? || op.BumpEpoch? {
      FlagFollows(s, op, user);
    } else if op.Delete? {
      DeleteFollows(s, op, user);
    } else if op.Lookup? {
      LookupFollows(s, op, user);
    } else {
      TokenOpFollows(s, op, user);
    }
  }

  lemma TokensLeaveRecords(s: Store, op: Op)
    requires op.NewToken? || op.RenameToken? || op.RevokeToken? || op.Login?
    ensures Apply(s, op).users == s.users
  {
  }

  /** The role a run leaves the user, operation by operation. */
  ghost function LastRole(s: Store, ops: seq<Op>, user: UserId, role: Option<bool>): Option<bool>
    decreases |ops|
  {
    if ops == [] then role else LastRole(Apply(s, ops[0]), ops[1..], user, RoleAfter(s, ops[0], user, role))
  }

  /** Over every run a user's role is the last one given, by whichever operation gave it. */
  lemma {:induction false} RolesFollowRuns(s: Store, ops: seq<Op>, end: Store, user: UserId)
    requires Inv(s) && Reaches(s, ops, end)
    ensures Fields(end, user).isAdmin == LastRole(s, ops, user, Fields(s, user).isAdmin)
    decreases |ops|
  {
    if ops != [] {
      OpKeepsInv(s, ops[0]);
      RoleAndEpochFollow(s, ops[0], user);
      RolesFollowRuns(Apply(s, ops[0]), ops[1..], end, user);
    }
  }

  /** So what the last role write gave is what the next login shows. */
  lemma LoginShowsLastRole(s: Store, ops: seq<Op>, end: Store, secret: T.Secret, now: int, ctx: Context)
    requires Inv(s) && Reaches(s, ops, end) && Authenticate(end, secret, now).1 == Ok(Some(ctx))
    ensures LastRole(s, ops, ctx.user, Fields(s, ctx.user).isAdmin) == Some(ctx.isAdmin)
  {
    LoginShowsStored(s, ops, end, secret, now);
    RolesFollowRuns(s, ops, end, ctx.user);
  }

  // ---- Lookups and deletions ----------------------------------------------------------------------

  /** What a lookup that does not fail leaves in the index: the holder's entry if the e-mail is one or
      the entry was right already, no entry otherwise, and every other entry as it was. An old name
      that is no e-mail is not indexed. */
  lemma LookupIndexes(s: Store, email: string)
    requires UsersOk(s) && !Jammed(s, email)
    ensures
      var (s', r) := Find(s, email);
      && r == Ok(Scan(s, email))
      && s' == s.(byEmail :=
                    if r.value.Some? && ('@' in email || (email in s.byEmail && s.byEmail[email] == r.value.value.id))
                    then s.byEmail[email := r.value.value.id] else s.byEmail - {email})
  {
    FindKeepsRecords(s, email);
    if Scan(s, email).Some? { FoundIsStored(s, email); }
    if email in s.byEmail && HasEmail(s, s.byEmail[email], email) {
      assert LeadsToListed(s, s.byEmail[email]);
      ScanIsUnique(s, email, s.byEmail[email]);
      assert s.byEmail == s.byEmail[email := s.byEmail[email]];
    } else {
      var d := s.(byEmail := s.byEmail - {email});
      assert email !in s.byEmail ==> d == s;
      DropKeepsOk(s, email);
      ScanSame(s, d, email);
    }
  }

  /** A deleted user's e-mail is free again, and its old name leads nowhere, so no bootstrap adopts it;
      of the record only the epoch stays, and of the indexes only its own entries go. */
  lemma DeletionFrees(s: Store, id: UserId)
    requires Inv(s) && id in s.listed
    ensures
      var (s', r) := DeleteUser(s, id);
      var email := Decode(Fields(s, id)).value.email;
      && r == Ok(()) && Fields(s', id) == NO_FIELDS.(epoch := Fields(s, id).epoch) && Others(s, s', id)
      && s'.listed == s.listed - {id} && s'.byIdentity == s.byIdentity
      && IsFree(s', email) && email !in s'.byName && (email == "bootstrap" ==> NothingToAdopt(s'))
      && (forall e :: e != email ==> (e in s'.byEmail <==> e in s.byEmail) && (e in s'.byName <==> e in s.byName))
      && (forall e :: e in s'.byEmail ==> s'.byEmail[e] == s.byEmail[e])
      && (forall n :: n in s'.byName ==> s'.byName[n] == s.byName[n])
  {
    var s' := DeleteUser(s, id).0;
    var email := Decode(Fields(s, id)).value.email;
    DeleteUserKeeps(s, id);
    forall i | i in s'.listed ensures !HasEmail(s', i, email) {
      assert i in s.listed && HasEmail(s, id, email);
      assert HasEmail(s', i, email) ==> HasEmail(s, i, email);
    }
    ScanFinds(s', email);
  }

  // ---- Identities -------------------------------------------------------------------------------

  /** A provider login: whom it signs in, with which role, and that the identity leads to them after. */
  lemma OauthLoginDoes(s: Store, provider: string, subject: string, email: string, isAdmin: bool, id: UserId, now: int)
    requires UsersOk(s) && FreshUser(s, id)
    ensures
      var (s', r) := UpsertOauthAs(s, provider, subject, email, isAdmin, id, now);
      var key := (provider, subject);
      r.Ok? ==>
        && SignsIn(s, key, email, id) == Some(r.value.id) && r.value.isAdmin == isAdmin
        && Read(s', r.value.id) == Ok(Some(r.value))
        && key in s'.byIdentity && s'.byIdentity[key] == r.value.id
        && forall k :: k != key ==>
             (k in s'.byIdentity <==> k in s.byIdentity) && (k in s.byIdentity ==> s'.byIdentity[k] == s.byIdentity[k])
  {
    var key := (provider, subject);
    var s' := UpsertOauthAs(s, provider, subject, email, isAdmin, id, now).0;
    if Known(s, key) {
      if Decodes(s, s.byIdentity[key]) {
        var u := Read(s, s.byIdentity[key]).value.value;
        assert LeadsToListed(s, s.byIdentity[key]);
        ReturningDoes(s, u, email, isAdmin);
        assert UpsertOauthAs(s, provider, subject, email, isAdmin, id, now) == Returning(s, u, email, isAdmin);
      }
    } else {
      DroppedMeets(s, key, email, id);
      LinkDoes(Dropped(s, key), provider, subject, email, isAdmin, id, now);
      assert UpsertOauthAs(s, provider, subject, email, isAdmin, id, now)
          == LinkFirstSeen(Dropped(s, key), provider, subject, email, isAdmin, id, now);
    }
  }

  // ---- Tokens --------------------------------------------------------------------------------------

  /** A new token is stored with what was asked for, never used, and logs its owner in until its time
      to live is over, or for good without one. */
  lemma NewTokenLogsIn(s: Store, owner: UserId, name: string, ttl: Option<nat>, token: T.TokenId, secret: T.Secret,
                       now: int, later: int)
    requires Inv(s) && T.FreshToken(s.tokens, token) && secret !in s.tokens.byHash
    ensures
      var (s', r) := CreateToken(s, owner, name, ttl, token, secret, now);
      && (r == Ok(token) <==> Decodes(s, owner) && (owner, name) !in s.tokens.byName)
      && (Decodes(s, owner) && (owner, name) in s.tokens.byName ==> r == Err(NameTaken))
      && (Fields(s, owner) == NO_FIELDS ==> r == Err(NotFound))
      && (r.Err? ==> s' == s)
      && (r.Ok? ==>
            && T.Read(s'.tokens, token) ==
                 Ok(Some(T.Token(token, name, owner, secret, now,
                                 if ttl.Some? then Some(now + ttl.value) else None, None, "*")))
            && var login := Authenticate(s', secret, later).1;
               if ttl.Some? && now + ttl.value < later then login == Ok(None)
               else && login.Ok? && login.value.Some?
                    && login.value.value.token == token && login.value.value.user == owner)
  {
    if Decodes(s, owner) && (owner, name) !in s.tokens.byName {
      T.WritingAddsOneCredential(s.tokens, token, owner, name, secret, ttl, now, secret, later);
      assert s.users[owner].id == Some(owner);
    }
  }
}
