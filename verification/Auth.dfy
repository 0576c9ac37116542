/** The account and token service over the admin bucket. */
module AuthService {
  import opened Wrappers
  import A = Accounts
  import T = Tokens

  class Auth {
    // user:{id}, user:by-email:, user:by-name:, user:by-identity:, user:all
    var users: map<A.UserId, A.UserHash>
    var byEmail: map<string, A.UserId>
    var byName: map<string, A.UserId>
    var byIdentity: map<(string, string), A.UserId>
    var listed: set<A.UserId>
    // token:{id}, token:by-hash:, token:by-name:, token:by-owner:
    var tokens: map<T.TokenId, T.TokenHash>
    var tokenByHash: map<T.Secret, T.TokenId>
    var tokenByName: map<(A.UserId, string), T.TokenId>
    var tokenByOwner: map<A.UserId, set<T.TokenId>>

    ghost function TokenState(): T.TokenStore
      reads this
    {
      T.TokenStore(tokens, tokenByHash, tokenByName, tokenByOwner)
    }

    ghost function State(): A.Store
      reads this
    {
      A.Store(users, byEmail, byName, byIdentity, listed, TokenState())
    }

    function ReadUser(id: A.UserId): (r: Result<Option<A.User>, A.AuthError>)
      reads this
      ensures r == A.Read(State(), id)
    {
      if id !in users || users[id] == A.NO_FIELDS then Ok(None)
      else
        match A.Decode(users[id])
        case Ok(u) => Ok(Some(u))
        case Err(e) => Err(e)
    }

    function ReadToken(id: T.TokenId): (r: Result<Option<T.Token>, T.TokenError>)
      reads this
      ensures r == T.Read(TokenState(), id)
    {
      if id !in tokens || tokens[id] == T.NO_FIELDS then Ok(None)
      else
        match T.Decode(tokens[id])
        case Ok(t) => Ok(Some(t))
        case Err(e) => Err(e)
    }

    /** Index first; on a miss or a stale entry, scan the listing and heal the index. */
    method FindUserByEmail(email: string) returns (r: Result<Option<A.User>, A.AuthError>)
      requires A.UsersOk(State())
      modifies this`byEmail
      ensures (State(), r) == A.Find(old(State()), email)
    {
      if email in byEmail {
        var u := ReadUser(byEmail[email]);
        if u.Err? || (u.value.Some? && u.value.value.email == email) {
          return u;
        }
        byEmail := byEmail - {email};
      }
      ghost var s := State();
      A.DropKeepsOk(old(State()), email);
      var rest := listed;
      var found: Option<A.User> := None;
      var failed: Option<A.AuthError> := None;
      while rest != {} && found.None? && failed.None?
        invariant State() == s && rest <= listed && failed.None?
        invariant found.None? ==> forall id :: id in listed - rest ==> !A.HasEmail(s, id, email)
        invariant found.Some? ==> found == A.Scan(s, email)
        decreases rest
      {
        EmptyOrHasMember(rest);
        var id :| id in rest;
        rest := rest - {id};
        match ReadUser(id) {
          case Err(e) => failed := Some(e);
          case Ok(u) =>
            if u.Some? && u.value.email == email {
              A.ScanIsUnique(s, email, id);
              found := u;
            }
        }
      }
      A.ScanFinds(s, email);
      match failed {
        case Some(e) => r := Err(e);
        case None =>
          if found.Some? && '@' in email {
            byEmail := byEmail[email := found.value.id];
          }
          r := Ok(found);
      }
    }

    method WriteNewUser(email: string, isAdmin: bool, id: A.UserId, now: int) returns (r: Result<A.User, A.AuthError>)
      requires A.UsersOk(State())
      modifies this`users, this`byEmail, this`listed
      ensures (State(), r) == A.WriteNewUser(old(State()), email, isAdmin, id, now)
    {
      var found := FindUserByEmail(email);
      match found {
        case Err(e) => return Err(e);
        case Ok(Some(_)) => return Err(A.EmailTaken);
        case Ok(None) =>
      }
      users := users[id := A.UserHash(Some(id), None, Some(email), Some(isAdmin), Some(now), Some(0))];
      if email in byEmail {
        return Err(A.EmailTaken);
      }
      byEmail := byEmail[email := id];
      listed := listed + {id};
      r := Ok(A.User(id, email, isAdmin, now, 0));
    }

    method CreateUser(raw: string, isAdmin: bool, id: A.UserId, now: int) returns (r: Result<A.User, A.AuthError>)
      requires A.UsersOk(State())
      modifies this`users, this`byEmail, this`listed
      ensures (State(), r) == A.CreateUser(old(State()), raw, isAdmin, id, now)
    {
      r := WriteNewUser(A.Normalize(raw), isAdmin, id, now);
    }

    method SyncAdmin(u: A.User, isAdmin: bool) returns (synced: A.User)
      modifies this`users
      ensures State() == A.WithAdmin(old(State()), u, isAdmin) && synced == u.(isAdmin := isAdmin)
    {
      if u.isAdmin != isAdmin {
        var fields := if u.id in users then users[u.id] else A.NO_FIELDS;
        users := users[u.id := fields.(isAdmin := Some(isAdmin))];
      }
      synced := u.(isAdmin := isAdmin);
    }

    method BackfillEmail(id: A.UserId, email: string)
      modifies this`users, this`byEmail
      ensures State() == A.WithEmail(old(State()), id, email)
    {
      var fields := if id in users then users[id] else A.NO_FIELDS;
      users := users[id := fields.(primaryEmail := Some(email))];
      byEmail := byEmail[email := id];
    }

    method UpsertLocalUser(raw: string, isAdmin: bool, id: A.UserId, now: int) returns (r: Result<A.User, A.AuthError>)
      requires A.UsersOk(State())
      modifies this
      ensures (State(), r) == A.UpsertLocal(old(State()), raw, isAdmin, id, now)
    {
      r := UpsertLocalAs(A.Normalize(raw), isAdmin, id, now);
    }

    method UpsertLocalAs(email: string, isAdmin: bool, id: A.UserId, now: int) returns (r: Result<A.User, A.AuthError>)
      requires A.UsersOk(State())
      modifies this
      ensures (State(), r) == A.UpsertLocalAs(old(State()), email, isAdmin, id, now)
    {
      A.FindRefinesScan(State(), email);
      var found := FindUserByEmail(email);
      match found {
        case Err(e) => r := Err(e);
        case Ok(Some(u)) =>
          var synced := SyncAdmin(u, isAdmin);
          byIdentity := byIdentity[("local", email) := u.id];
          r := Ok(synced);
        case Ok(None) =>
          r := WriteNewUser(email, isAdmin, id, now);
          if r.Ok? {
            byIdentity := byIdentity[("local", email) := r.value.id];
          }
      }
    }

    /** A first-seen identity: link it to the holder of its e-mail, or make that user. */
    method LinkFirstSeen(provider: string, subject: string, email: string, isAdmin: bool, id: A.UserId, now: int)
      returns (r: Result<A.User, A.AuthError>)
      requires A.UsersOk(State())
      modifies this
      ensures (State(), r) == A.LinkFirstSeen(old(State()), provider, subject, email, isAdmin, id, now)
    {
      A.FindRefinesScan(State(), email);
      var found := FindUserByEmail(email);
      match found {
        case Err(e) => r := Err(e);
        case Ok(Some(u)) =>
          byIdentity := byIdentity[(provider, subject) := u.id];
          var synced := SyncAdmin(u, isAdmin);
          r := Ok(synced);
        case Ok(None) =>
          r := WriteNewUser(email, isAdmin, id, now);
          if r.Ok? {
            byIdentity := byIdentity[(provider, subject) := r.value.id];
          }
      }
    }

    method UpsertOauthUser(provider: string, subject: string, raw: string, isAdmin: bool, id: A.UserId, now: int)
      returns (r: Result<A.User, A.AuthError>)
      requires A.UsersOk(State())
      modifies this
      ensures (State(), r) == A.UpsertOauth(old(State()), provider, subject, raw, isAdmin, id, now)
    {
      r := UpsertOauthAs(provider, subject, A.Normalize(raw), isAdmin, id, now);
    }

    method UpsertOauthAs(provider: string, subject: string, email: string, isAdmin: bool, id: A.UserId, now: int)
      returns (r: Result<A.User, A.AuthError>)
      requires A.UsersOk(State())
      modifies this
      ensures (State(), r) == A.UpsertOauthAs(old(State()), provider, subject, email, isAdmin, id, now)
    {
      var key := (provider, subject);
      if key in byIdentity {
        var read := ReadUser(byIdentity[key]);
        match read {
          case Err(e) => return Err(e);
          case Ok(Some(u)) =>
            assert A.LeadsToListed(State(), byIdentity[key]);
            r := ReturningUser(u, email, isAdmin);
            return;
          case Ok(None) =>
            A.IdentityKeepsOk(State(), key, id);
            byIdentity := byIdentity - {key};
        }
      }
      r := LinkFirstSeen(provider, subject, email, isAdmin, id, now);
    }

    method ReturningUser(u: A.User, email: string, isAdmin: bool) returns (r: Result<A.User, A.AuthError>)
      requires A.UsersOk(State()) && u.id in listed
      modifies this
      ensures (State(), r) == A.Returning(old(State()), u, email, isAdmin)
    {
      A.WithAdminKept(State(), u, isAdmin);
      var synced := SyncAdmin(u, isAdmin);
      if users[u.id].primaryEmail.Some? {
        byEmail := byEmail[u.email := u.id];
        return Ok(synced);
      }
      var found := FindUserByEmail(email);
      match found {
        case Err(e) => return Err(e);
        case Ok(Some(_)) =>
        case Ok(None) =>
          BackfillEmail(u.id, email);
          synced := synced.(email := email);
      }
      r := Ok(synced);
    }

    method BootstrapAdmin(raw: string, secret: T.Secret, id: A.UserId, token: T.TokenId, now: int)
      returns (r: Result<bool, A.AuthError>)
      requires A.UsersOk(State()) && T.FreshToken(TokenState(), token)
      modifies this
      ensures (State(), r) == A.BootstrapAdmin(old(State()), raw, secret, id, token, now)
    {
      r := BootstrapAdminAs(A.Normalize(raw), secret, id, token, now);
    }

    method BootstrapAdminAs(email: string, secret: T.Secret, id: A.UserId, token: T.TokenId, now: int)
      returns (r: Result<bool, A.AuthError>)
      requires A.UsersOk(State()) && T.FreshToken(TokenState(), token)
      modifies this
      ensures (State(), r) == A.BootstrapAdminAs(old(State()), email, secret, id, token, now)
    {
      A.FindRefinesScan(State(), email);
      var found := FindUserByEmail(email);
      match found {
        case Err(e) => return Err(e);
        case Ok(Some(_)) => return Ok(false);
        case Ok(None) =>
      }
      if "bootstrap" in byName {
        var legacy := ReadUser(byName["bootstrap"]);
        match legacy {
          case Err(e) => return Err(e);
          case Ok(None) =>
          case Ok(Some(u)) =>
            var fields := if u.id in users then users[u.id] else A.NO_FIELDS;
            if fields.primaryEmail.None? {
              BackfillEmail(u.id, email);
              byName := byName - {"bootstrap"};
              return Ok(false);
            }
        }
      }
      var made := WriteNewUser(email, true, id, now);
      match made {
        case Err(EmailTaken) => r := Ok(false);
        case Err(e) => r := Err(e);
        case Ok(u) =>
          var _ := WriteNewToken(token, u.id, "bootstrap", secret, None, now);
          r := Ok(true);
      }
    }

    method SetUserAdmin(id: A.UserId, isAdmin: bool) returns (r: Result<A.User, A.AuthError>)
      modifies this`users
      ensures (State(), r) == A.SetUserAdmin(old(State()), id, isAdmin)
    {
      var read := ReadUser(id);
      match read {
        case Err(e) => r := Err(e);
        case Ok(None) => r := Err(A.NotFound);
        case Ok(Some(u)) =>
          var fields := if u.id in users then users[u.id] else A.NO_FIELDS;
          users := users[u.id := fields.(isAdmin := Some(isAdmin))];
          r := Ok(u.(isAdmin := isAdmin));
      }
    }

    method BumpSessionEpoch(id: A.UserId) returns (r: Result<int, A.AuthError>)
      modifies this`users
      ensures (State(), r) == A.BumpSessionEpoch(old(State()), id)
    {
      var read := ReadUser(id);
      match read {
        case Err(e) => r := Err(e);
        case Ok(None) => r := Err(A.NotFound);
        case Ok(Some(_)) =>
          var fields := users[id];
          var next := (if fields.epoch.Some? then fields.epoch.value else 0) + 1;
          users := users[id := fields.(epoch := Some(next))];
          r := Ok(next);
      }
    }

    /** Delete a user and every token they own. */
    method DeleteUser(id: A.UserId) returns (r: Result<(), A.AuthError>)
      requires A.Inv(State())
      modifies this
      ensures (State(), r) == A.DeleteUser(old(State()), id)
    {
      var read := ReadUser(id);
      match read {
        case Err(e) => r := Err(e);
        case Ok(None) => r := Err(A.NotFound);
        case Ok(Some(user)) =>
          DeleteTokensOf(user.id);
          byEmail := byEmail - {user.email};
          byName := byName - {user.email};
          listed := listed - {user.id};
          users := users[user.id := users[user.id].(id := None, name := None, primaryEmail := None,
                                                    isAdmin := None, createdAt := None)];
          r := Ok(());
      }
    }

    method DeleteTokensOf(owner: A.UserId)
      requires T.Agrees(TokenState())
      modifies this`tokens, this`tokenByHash, this`tokenByName, this`tokenByOwner
      ensures TokenState() == T.Cascaded(old(TokenState()), T.OwnedBy(old(TokenState()), owner))
    {
      ghost var s := TokenState();
      var ids := if owner in tokenByOwner then tokenByOwner[owner] else {};
      var rest := ids;
      T.CascadesCompose(s, {}, {});
      assert ids - rest == {};
      while rest != {}
        invariant rest <= ids && TokenState() == T.Cascaded(s, ids - rest)
        decreases rest
      {
        EmptyOrHasMember(rest);
        var t :| t in rest;
        T.CascadingAgrees(s, ids - rest);
        assert T.OwnerLeads(s, owner, t) && T.Whole(s.records[t], t);
        T.CascadesCompose(s, ids - rest, {t});
        assert ids - (rest - {t}) == (ids - rest) + {t};
        match ReadToken(t) {
          case Ok(Some(token)) => DeleteToken(token);
          case _ => // in agreement every listed token reads
        }
        rest := rest - {t};
      }
      assert ids - rest == ids;
    }

    method DeleteToken(token: T.Token)
      requires T.Agrees(TokenState()) && T.Read(TokenState(), token.id) == Ok(Some(token))
      modifies this`tokens, this`tokenByHash, this`tokenByName, this`tokenByOwner
      ensures TokenState() == T.Deleted(old(TokenState()), token) == T.Cascaded(old(TokenState()), {token.id})
    {
      T.DeletingIsCascading(TokenState(), token);
      tokenByHash := tokenByHash - {token.hash};
      tokenByName := tokenByName - {(token.owner, token.name)};
      var owned := if token.owner in tokenByOwner then tokenByOwner[token.owner] else {};
      tokenByOwner := tokenByOwner[token.owner := owned - {token.id}];
      tokens := tokens[token.id := T.NO_FIELDS];
    }

    method WriteNewToken(id: T.TokenId, owner: A.UserId, name: string, secret: T.Secret, ttl: Option<nat>, now: int)
      returns (r: T.TokenId)
      requires T.FreshToken(TokenState(), id)
      modifies this`tokens, this`tokenByHash, this`tokenByName, this`tokenByOwner
      ensures TokenState() == T.Written(old(TokenState()), id, owner, name, secret, ttl, now) && r == id
    {
      var fields := T.NO_FIELDS.(id := Some(id), name := Some(name), owner := Some(owner), hash := Some(secret),
                                 createdAt := Some(now), scopes := Some("*"));
      if ttl.Some? {
        fields := fields.(expiresAt := Some(now + ttl.value));
      }
      tokens := tokens[id := fields];
      tokenByHash := tokenByHash[secret := id];
      tokenByName := tokenByName[(owner, name) := id];
      var owned := if owner in tokenByOwner then tokenByOwner[owner] else {};
      tokenByOwner := tokenByOwner[owner := owned + {id}];
      r := id;
    }

    method CreateToken(owner: A.UserId, name: string, ttl: Option<nat>, token: T.TokenId, secret: T.Secret, now: int)
      returns (r: Result<T.TokenId, A.AuthError>)
      requires T.FreshToken(TokenState(), token)
      modifies this`tokens, this`tokenByHash, this`tokenByName, this`tokenByOwner
      ensures (State(), r) == A.CreateToken(old(State()), owner, name, ttl, token, secret, now)
    {
      var read := ReadUser(owner);
      match read {
        case Err(e) => r := Err(e);
        case Ok(None) => r := Err(A.NotFound);
        case Ok(Some(_)) =>
          if (owner, name) in tokenByName {
            r := Err(A.NameTaken);
          } else {
            var id := WriteNewToken(token, owner, name, secret, ttl, now);
            r := Ok(id);
          }
      }
    }

    /** New index entry, then the record's name, then drop the old entry. */
    method RenameToken(owner: A.UserId, from: string, to: string) returns (r: Result<T.Token, T.TokenError>)
      modifies this`tokens, this`tokenByName
      ensures (TokenState(), r) == T.Rename(old(TokenState()), owner, from, to)
    {
      if from == to {
        if (owner, from) !in tokenByName {
          return Err(T.NotFound);
        }
        match ReadToken(tokenByName[(owner, from)]) {
          case Err(e) => return Err(e);
          case Ok(None) => return Err(T.NotFound);
          case Ok(Some(t)) => return Ok(t);
        }
      }
      if (owner, to) in tokenByName {
        return Err(T.NameTaken);
      }
      if (owner, from) !in tokenByName {
        return Err(T.NotFound);
      }
      var read := ReadToken(tokenByName[(owner, from)]);
      match read {
        case Err(e) => r := Err(e);
        case Ok(None) => r := Err(T.NotFound);
        case Ok(Some(t)) =>
          tokenByName := tokenByName[(owner, to) := t.id];
          var fields := if t.id in tokens then tokens[t.id] else T.NO_FIELDS;
          tokens := tokens[t.id := fields.(name := Some(to))];
          tokenByName := tokenByName - {(owner, from)};
          r := Ok(t.(name := to));
      }
    }

    method RevokeTokenByName(owner: A.UserId, name: string) returns (r: Result<bool, T.TokenError>)
      requires T.Agrees(TokenState())
      modifies this`tokens, this`tokenByHash, this`tokenByName, this`tokenByOwner
      ensures (TokenState(), r) == T.Revoke(old(TokenState()), owner, name)
    {
      if (owner, name) !in tokenByName {
        return Ok(false);
      }
      assert T.NameLeads(TokenState(), (owner, name));
      var read := ReadToken(tokenByName[(owner, name)]);
      match read {
        case Err(e) => r := Err(e);
        case Ok(None) => r := Ok(false);
        case Ok(Some(t)) =>
          DeleteToken(t);
          r := Ok(true);
      }
    }

    /** Resolve a secret to its owner, stamping the token's last use. */
    method Authenticate(secret: T.Secret, now: int) returns (r: Result<Option<A.Context>, A.AuthError>)
      modifies this`tokens
      ensures (State(), r) == A.Authenticate(old(State()), secret, now)
    {
      if secret !in tokenByHash {
        return Ok(None);
      }
      var read := ReadToken(tokenByHash[secret]);
      match read {
        case Err(_) => r := Err(A.Malformed);
        case Ok(None) => r := Ok(None);
        case Ok(Some(t)) =>
          if t.expiresAt.Some? && t.expiresAt.value < now {
            return Ok(None);
          }
          var owner := ReadUser(t.owner);
          match owner {
            case Err(e) => r := Err(e);
            case Ok(None) => r := Ok(None);
            case Ok(Some(u)) =>
              var fields := if t.id in tokens then tokens[t.id] else T.NO_FIELDS;
              tokens := tokens[t.id := fields.(lastUsedAt := Some(now))];
              r := Ok(Some(A.Context(u.id, u.email, u.isAdmin, t.id)));
          }
      }
    }
  }
}
