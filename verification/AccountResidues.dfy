/** What a deletion leaves behind, and the identities it sticks. */
module AccountResidues {
  import opened Wrappers
  import opened Accounts
  import opened AccountOrigins
  import T = Tokens

  /** Deleting a user whose record carries an epoch sticks each provider identity linked to it. */
  lemma DeletionSticks(s: Store, user: UserId, key: (string, string))
    requires Inv(s) && Decodes(s, user) && key in s.byIdentity && s.byIdentity[key] == user && key.0 != "local"
    ensures Stuck(DeleteUser(s, user).0, key, user) <==> Fields(s, user).epoch.Some?
  {
    DeleteUserKeeps(s, user);
  }

  // ---- Every record carries an epoch --------------------------------------------------

  ghost predicate HasRecord(s: Store, id: UserId) {
    Fields(s, id) != NO_FIELDS
  }

  /** What is stored of a user carries an epoch, and identities lead to what is stored. */
  ghost predicate Stamped(s: Store) {
    && (forall id :: HasRecord(s, id) ==> Fields(s, id).epoch.Some?)
    && (forall k :: k in s.byIdentity ==> HasRecord(s, s.byIdentity[k]))
  }

  lemma SameRecordsStamped(s: Store, s': Store)
    requires Stamped(s) && s'.users == s.users && s'.byIdentity == s.byIdentity
    ensures Stamped(s')
  {
    assert forall id :: HasRecord(s', id) <==> HasRecord(s, id);
    assert forall id :: HasRecord(s', id) ==> HasRecord(s, id) && Fields(s', id) == Fields(s, id);
  }

  lemma FieldsStamped(s: Store, s': Store, id: UserId, f: UserHash)
    requires Stamped(s) && f.epoch.Some? && s'.users == s.users[id := f] && s'.byIdentity == s.byIdentity
    ensures Stamped(s')
  {
    assert forall i :: HasRecord(s, i) ==> HasRecord(s', i);
    assert forall i :: i != id ==> Fields(s', i) == Fields(s, i) && (HasRecord(s', i) ==> HasRecord(s, i));
  }

  lemma IdentityStamped(s: Store, key: (string, string), id: UserId)
    requires Stamped(s) && HasRecord(s, id)
    ensures Stamped(s.(byIdentity := s.byIdentity[key := id]))
  {
    var s' := s.(byIdentity := s.byIdentity[key := id]);
    assert forall i :: HasRecord(s', i) <==> HasRecord(s, i);
  }

  lemma FindStamped(s: Store, email: string)
    requires UsersOk(s) && Stamped(s)
    ensures Stamped(Find(s, email).0)
  {
    FindRefinesScan(s, email);
    SameRecordsStamped(s, Find(s, email).0);
  }

  lemma WriteNewUserStamped(s: Store, email: string, isAdmin: bool, id: UserId, now: int)
    requires UsersOk(s) && Stamped(s)
    ensures
      var (s', r) := WriteNewUser(s, email, isAdmin, id, now);
      Stamped(s') && (r.Ok? ==> r.value.id == id && HasRecord(s', id))
  {
    FindStamped(s, email);
    var s1, s' := Find(s, email).0, WriteNewUser(s, email, isAdmin, id, now).0;
    if s'.users == s1.users[id := NewHash(id, email, isAdmin, now)] && s'.byIdentity == s1.byIdentity {
      FieldsStamped(s1, s', id, NewHash(id, email, isAdmin, now));
    }
  }

  lemma WithAdminStamped(s: Store, u: User, isAdmin: bool)
    requires Stamped(s) && HasRecord(s, u.id)
    ensures Stamped(WithAdmin(s, u, isAdmin)) && HasRecord(WithAdmin(s, u, isAdmin), u.id)
  {
    if u.isAdmin != isAdmin {
      FieldsStamped(s, WithAdmin(s, u, isAdmin), u.id, Fields(s, u.id).(isAdmin := Some(isAdmin)));
    }
  }

  lemma WithEmailStamped(s: Store, id: UserId, email: string)
    requires Stamped(s) && HasRecord(s, id)
    ensures Stamped(WithEmail(s, id, email))
  {
    FieldsStamped(s, WithEmail(s, id, email), id, Fields(s, id).(primaryEmail := Some(email)));
  }

  // ---- Every operation keeps it ---------------------------------------------------------

  lemma LinkStamped(s: Store, provider: string, subject: string, email: string, isAdmin: bool, id: UserId, now: int)
    requires UsersOk(s) && Stamped(s) && FreshUser(s, id)
    ensures Stamped(LinkFirstSeen(s, provider, subject, email, isAdmin, id, now).0)
  {
    FindStamped(s, email);
    FindRefinesScan(s, email);
    var (s1, found) := Find(s, email);
    var s' := LinkFirstSeen(s, provider, subject, email, isAdmin, id, now).0;
    if found.Ok? && found.value.Some? {
      FoundIsListed(s, email);
      IdentityStamped(s1, (provider, subject), found.value.value.id);
      WithAdminStamped(WithIdentity(s1, provider, subject, found.value.value.id), found.value.value, isAdmin);
    } else if found.Ok? {
      WriteNewUserStamped(s1, email, isAdmin, id, now);
      var (s2, made) := WriteNewUser(s1, email, isAdmin, id, now);
      if made.Ok? {
        IdentityStamped(s2, (provider, subject), id);
      }
    }
  }

  lemma UpsertLocalStamped(s: Store, email: string, isAdmin: bool, id: UserId, now: int)
    requires UsersOk(s) && Stamped(s) && FreshUser(s, id)
    ensures Stamped(UpsertLocalAs(s, email, isAdmin, id, now).0)
  {
    FindStamped(s, email);
    FindRefinesScan(s, email);
    var (s1, found) := Find(s, email);
    if found.Ok? && found.value.Some? {
      FoundIsListed(s, email);
      WithAdminStamped(s1, found.value.value, isAdmin);
      IdentityStamped(WithAdmin(s1, found.value.value, isAdmin), ("local", email), found.value.value.id);
    } else if found.Ok? {
      WriteNewUserStamped(s1, email, isAdmin, id, now);
      var (s2, made) := WriteNewUser(s1, email, isAdmin, id, now);
      if made.Ok? {
        IdentityStamped(s2, ("local", email), id);
      }
    }
  }

  lemma ReturningStamped(s: Store, u: User, email: string, isAdmin: bool)
    requires UsersOk(s) && Stamped(s) && u.id in s.listed && Read(s, u.id) == Ok(Some(u))
    ensures Stamped(Returning(s, u, email, isAdmin).0)
  {
    WithAdminStamped(s, u, isAdmin);
    var s1 := WithAdmin(s, u, isAdmin);
    if Fields(s1, u.id).primaryEmail.Some? {
      SameRecordsStamped(s1, Returning(s, u, email, isAdmin).0);
    } else {
      WithAdminKept(s, u, isAdmin);
      FindStamped(s1, email);
      FindRefinesScan(s1, email);
      WithEmailStamped(Find(s1, email).0, u.id, email);
    }
  }

  /** So a provider login never finds its identity leading nowhere. */
  lemma UpsertOauthStamped(s: Store, provider: string, subject: string, email: string, isAdmin: bool, id: UserId,
                           now: int)
    requires UsersOk(s) && Stamped(s) && FreshUser(s, id)
    ensures Stamped(UpsertOauthAs(s, provider, subject, email, isAdmin, id, now).0)
  {
    var key := (provider, subject);
    var s' := UpsertOauthAs(s, provider, subject, email, isAdmin, id, now).0;
    if key !in s.byIdentity {
      LinkStamped(s, provider, subject, email, isAdmin, id, now);
      assert s' == LinkFirstSeen(s, provider, subject, email, isAdmin, id, now).0;
    } else if Read(s, s.byIdentity[key]).Err? {
      assert s' == s;
    } else {
      assert HasRecord(s, s.byIdentity[key]) && LeadsToListed(s, s.byIdentity[key]);
      ReturningStamped(s, Read(s, s.byIdentity[key]).value.value, email, isAdmin);
      assert s' == Returning(s, Read(s, s.byIdentity[key]).value.value, email, isAdmin).0;
    }
  }

  lemma BootstrapStamped(s: Store, email: string, secret: T.Secret, id: UserId, token: T.TokenId, now: int)
    requires UsersOk(s) && Stamped(s) && FreshUser(s, id)
    ensures Stamped(BootstrapAdminAs(s, email, secret, id, token, now).0)
  {
    FindStamped(s, email);
    FindRefinesScan(s, email);
    var s1, s' := Find(s, email).0, BootstrapAdminAs(s, email, secret, id, token, now).0;
    if Find(s, email).1 == Ok(None) {
      var legacy := if "bootstrap" in s1.byName then Read(s1, s1.byName["bootstrap"]) else Ok(None);
      WriteNewUserStamped(s1, email, true, id, now);
      var made := WriteNewUser(s1, email, true, id, now).0;
      if legacy.Ok? && legacy.value.Some? && Fields(s1, legacy.value.value.id).primaryEmail.None? {
        assert LeadsToListed(s1, s1.byName["bootstrap"]);
        WithEmailStamped(s1, legacy.value.value.id, email);
        SameRecordsStamped(WithEmail(s1, legacy.value.value.id, email), s');
      } else if s'.users == made.users && s'.byIdentity == made.byIdentity {
        SameRecordsStamped(made, s');
      }
    }
  }

  lemma RecordOpStamped(s: Store, op: Op)
    requires Inv(s) && Stamped(s) && (op.SetAdmin? || op.BumpEpoch? || op.Delete?)
    ensures Stamped(Apply(s, op))
  {
    if !Decodes(s, op.user) {
      assert Apply(s, op) == s;
    } else {
      assert HasRecord(s, op.user);
      FieldsStamped(s, Apply(s, op), op.user, Fields(Apply(s, op), op.user));
    }
  }

  lemma OpStamped(s: Store, op: Op)
    requires Inv(s) && Stamped(s) && Admissible(s, op)
    ensures Stamped(Apply(s, op))
  {
    match op
    case Bootstrap(raw, secret, id, token, now) => BootstrapStamped(s, Normalize(raw), secret, id, token, now);
    case Create(raw, isAdmin, id, now) => WriteNewUserStamped(s, Normalize(raw), isAdmin, id, now);
    case LocalLogin(raw, isAdmin, id, now) => UpsertLocalStamped(s, Normalize(raw), isAdmin, id, now);
    case OauthLogin(provider, subject, raw, isAdmin, id, now) =>
      UpsertOauthStamped(s, provider, subject, Normalize(raw), isAdmin, id, now);
    case Lookup(raw) => FindStamped(s, Normalize(raw));
    case SetAdmin(_, _) => RecordOpStamped(s, op);
    case BumpEpoch(_) => RecordOpStamped(s, op);
    case Delete(_) => RecordOpStamped(s, op);
    case _ => SameRecordsStamped(s, Apply(s, op));
  }

  lemma {:induction false} RunsStayStamped(s: Store, ops: seq<Op>, end: Store)
    requires Inv(s) && Stamped(s) && Reaches(s, ops, end)
    ensures Inv(end) && Stamped(end)
    decreases |ops|
  {
    if ops != [] {
      OpKeepsInv(s, ops[0]);
      OpStamped(s, ops[0]);
      RunsStayStamped(Apply(s, ops[0]), ops[1..], end);
    }
  }

  // ---- Fresh deployments ------------------------------------------------------------------

  lemma FreshIsStamped(ops: seq<Op>, end: Store)
    requires Reaches(EMPTY, ops, end)
    ensures Inv(end) && Stamped(end)
  {
    EmptyIsConsistent();
    RunsStayStamped(EMPTY, ops, end);
  }

  /** In no run of a fresh deployment does an identity entry lead to an absent record, which is what
      dropping it and making a new account waits for. */
  lemma SelfHealNeverRuns(ops: seq<Op>, end: Store, key: (string, string))
    requires Reaches(EMPTY, ops, end) && key in end.byIdentity
    ensures Read(end, end.byIdentity[key]) != Ok(None)
  {
    FreshIsStamped(ops, end);
    assert HasRecord(end, end.byIdentity[key]);
  }

  /** In every run of a fresh deployment every deletion of a user sticks each provider identity linked
      to it: whatever happens afterwards, a login by that identity is refused. */
  lemma EveryDeletionSticks(ops: seq<Op>, s: Store, user: UserId, key: (string, string), more: seq<Op>, end: Store,
                            raw: string, isAdmin: bool, id: UserId, now: int)
    requires Reaches(EMPTY, ops, s) && Decodes(s, user)
    requires key in s.byIdentity && s.byIdentity[key] == user && key.0 != "local"
    requires Reaches(DeleteUser(s, user).0, more, end)
    ensures UpsertOauth(end, key.0, key.1, raw, isAdmin, id, now) == (end, Err(Malformed))
  {
    FreshIsStamped(ops, s);
    assert HasRecord(s, user);
    DeletionSticks(s, user, key);
    DeleteUserKeeps(s, user);
    StuckForever(DeleteUser(s, user).0, more, end, key, user, raw, isAdmin, id, now);
  }

  lemma FirstSignUp(provider: string, subject: string, email: string, isAdmin: bool, now: int)
    ensures
      var s := UpsertOauthAs(EMPTY, provider, subject, email, isAdmin, 1, now).0;
      && Decodes(s, 1) && s.byIdentity == map[(provider, subject) := 1]
  {
    NobodyYet(email);
    var key := (provider, subject);
    assert UpsertOauthAs(EMPTY, provider, subject, email, isAdmin, 1, now)
        == LinkFirstSeen(EMPTY, provider, subject, email, isAdmin, 1, now);
    assert EMPTY.byIdentity[key := 1] == map[key := 1];
  }

  lemma OneOpRun(s0: Store, op: Op, s: Store)
    requires Admissible(s0, op) && s == Apply(s0, op)
    ensures Reaches(s0, [op], s)
  {
    assert Reaches(s, [], s);
    Prepend(s0, op, s, [], s);
    assert [op] + [] == [op];
  }

  lemma TwoOpRun(s0: Store, a: Op, b: Op, s: Store, end: Store)
    requires Admissible(s0, a) && Apply(s0, a) == s && Reaches(s, [b], end)
    ensures Reaches(s0, [a, b], end)
  {
    Prepend(s0, a, s, [b], end);
    assert [a] + [b] == [a, b];
  }

  lemma SignUpIs(s0: Store, op: Op)
    requires op.OauthLogin?
    ensures Apply(s0, op) ==
      UpsertOauth(s0, op.provider, op.subject, op.raw, op.isAdmin, op.id, op.now).0
  {
  }

  lemma SignUpMay(s0: Store, op: Op)
    requires op.OauthLogin? && FreshUser(s0, op.id)
    ensures Admissible(s0, op)
  {
  }

  lemma NobodyIsFresh(id: UserId)
    ensures FreshUser(EMPTY, id)
  {
  }

  lemma SignUpRun(signUp: Op, s0: Store, key: (string, string)) returns (s: Store)
    requires s0 == EMPTY && signUp.OauthLogin? && signUp.id == 1 && key == (signUp.provider, signUp.subject)
    ensures Admissible(s0, signUp) && s == Apply(s0, signUp)
    ensures Decodes(s, 1) && key in s.byIdentity && s.byIdentity[key] == 1
  {
    s := Apply(s0, signUp);
    NobodyIsFresh(1);
    FirstSignUp(signUp.provider, signUp.subject, Normalize(signUp.raw), signUp.isAdmin, signUp.now);
    SignUpIs(s0, signUp);
    SignUpMay(s0, signUp);
  }

  lemma DeleteRun(s0: Store, a: Op, s: Store, user: UserId) returns (end: Store)
    requires Admissible(s0, a) && s == Apply(s0, a)
    ensures end == DeleteUser(s, user).0 && Reaches(s0, [a], s) && Reaches(s0, [a, Delete(user)], end)
  {
    end := Apply(s, Delete(user));
    OneOpRun(s0, a, s);
    OneOpRun(s, Delete(user), end);
    TwoOpRun(s0, a, Delete(user), s, end);
  }

  /** The shortest such run: sign in through a provider, be deleted, sign in again. */
  lemma SignUpDeleteSticks(provider: string, subject: string, raw: string, isAdmin: bool, now: int)
    returns (s: Store, end: Store)
    requires provider != "local"
    ensures Reaches(EMPTY, [OauthLogin(provider, subject, raw, isAdmin, 1, now), Delete(1)], end)
    ensures Stuck(end, (provider, subject), 1)
    ensures forall id, later ::
      UpsertOauth(end, provider, subject, raw, isAdmin, id, later) == (end, Err(Malformed))
  {
    var signUp := OauthLogin(provider, subject, raw, isAdmin, 1, now);
    s := SignUpRun(signUp, EMPTY, (provider, subject));
    end := DeleteRun(EMPTY, signUp, s, 1);
    SignedUpSticks([signUp], s, end, (provider, subject), raw, isAdmin);
  }

  lemma SignedUpSticks(ops: seq<Op>, s: Store, end: Store, key: (string, string), raw: string, isAdmin: bool)
    requires Reaches(EMPTY, ops, s) && Decodes(s, 1) && end == DeleteUser(s, 1).0
    requires key in s.byIdentity && s.byIdentity[key] == 1 && key.0 != "local"
    ensures Stuck(end, key, 1)
    ensures forall id, later :: UpsertOauth(end, key.0, key.1, raw, isAdmin, id, later) == (end, Err(Malformed))
  {
    FreshIsStamped(ops, s);
    assert HasRecord(s, 1);
    DeletionSticks(s, 1, key);
    forall id, later ensures UpsertOauth(end, key.0, key.1, raw, isAdmin, id, later) == (end, Err(Malformed)) {
      EveryDeletionSticks(ops, s, 1, key, [], end, raw, isAdmin, id, later);
    }
  }

  /** A record from before epochs is the other case: its deletion leaves nothing, and the identity
      gets a new account. */
  lemma LegacyDeletionHeals(name: string)
    ensures
      var s := DeleteUser(Legacy(name), 1).0;
      GH in s.byIdentity && Read(s, s.byIdentity[GH]) == Ok(None) && !Stuck(s, GH, 1)
  {
  }
}
