/** A call that nothing interferes with does, store operation by store operation, what the account
    service does in one go. */
module ClaimAlone {
  import opened Wrappers
  import opened AccountClaim
  import A = Accounts
  import AccountEffects
  import AccountSpelling
  import T = Tokens

  // ---- One call from where it stands to its end ---------------------------------------

  ghost predicate Alone(s: Store, p: Proc, picks: seq<UserId>, end: Store, outcome: Outcome)
    decreases |picks|
  {
    if p.pc.Done? then picks == [] && end == s && outcome == p.pc.outcome
    else
      && picks != [] && Picks(p.pc, picks[0])
      && var (next, pc) := Act(s, p, picks[0]);
         Alone(next, p.(pc := pc), picks[1..], end, outcome)
  }

  /** How far a call is from its end. */
  function Stage(pc: Pc): nat {
    match pc
    case GetIndex(round) => if round == 0 then 25 else 15
    case ReadIndexed(round, _) => if round == 0 then 24 else 14
    case DropIndex(round) => if round == 0 then 23 else 13
    case ListAll(round) => if round == 0 then 22 else 12
    case Scan(round, _) => if round == 0 then 21 else 11
    case GetName => 20
    case ReadNamed(_) => 19
    case ReadFields(_) => 18
    case WriteField(k) => if k < ALL_FIELDS then 9 - k else 4
    case SetEmail(_) => 3
    case Claim => 3
    case SetIndex(_) => 2
    case AddToAll => 2
    case DropName => 1
    case Heal(_, _) => 1
    case Done(_) => 0
  }

  lemma ActComesNearer(s: Store, p: Proc, pick: UserId)
    requires !p.pc.Done? && Picks(p.pc, pick)
    ensures
      var pc := Act(s, p, pick).1;
      || Stage(pc) < Stage(p.pc)
      || (Stage(pc) == Stage(p.pc) && p.pc.Scan? && pc.Scan? && |pc.todo| < |p.pc.todo|)
  {
  }

  /** A call left alone comes to an end. */
  lemma {:induction false} EndsAlone(s: Store, p: Proc) returns (picks: seq<UserId>, end: Store, outcome: Outcome)
    ensures Alone(s, p, picks, end, outcome)
    decreases Stage(p.pc), if p.pc.Scan? then |p.pc.todo| else 0
  {
    if p.pc.Done? {
      picks, end, outcome := [], s, p.pc.outcome;
    } else {
      var pick := 0;
      if p.pc.Scan? && p.pc.todo != {} {
        EmptyOrHasMember(p.pc.todo);
        pick :| pick in p.pc.todo;
      }
      ActComesNearer(s, p, pick);
      var (next, pc) := Act(s, p, pick);
      var rest;
      rest, end, outcome := EndsAlone(next, p.(pc := pc));
      picks := [pick] + rest;
      assert picks[1..] == rest;
    }
  }

  function HitOf(p: Proc): Outcome {
    if p.kind.Bootstrap? then AlreadyExists else EmailTaken
  }

  ghost predicate Jams(s: Store, email: string) {
    email in s.byEmail && ReadUser(s, s.byEmail[email]).Malformed?
  }

  /** Listed records read, no two share the e-mail, and an index entry that is right leads to one. */
  ghost predicate Tidy(s: Store, email: string) {
    && (forall id :: id in s.listed ==> ReadUser(s, id).Good?)
    && (forall i, j :: i in s.listed && j in s.listed && IsUser(s, i, email) && IsUser(s, j, email) ==> i == j)
    && (email in s.byEmail && IsUser(s, s.byEmail[email], email) ==> s.byEmail[email] in s.listed)
  }

  /** The listed record with the e-mail, or that there is none. */
  ghost predicate Finds(s: Store, email: string, h: Option<UserId>) {
    match h
    case Some(id) => id in s.listed && IsUser(s, id, email)
    case None => forall id :: id in s.listed ==> !IsUser(s, id, email)
  }

  /** What a lookup leaves. */
  function Looked(s: Store, email: string, h: Option<UserId>): Store {
    if h.Some? && ('@' in email || (email in s.byEmail && s.byEmail[email] == h.value))
    then s.(byEmail := s.byEmail[email := h.value])
    else s.(byEmail := s.byEmail - {email})
  }

  lemma {:induction false} ScansAlone(s: Store, p: Proc, round: nat, todo: set<UserId>, h: Option<UserId>,
                                      picks: seq<UserId>, end: Store, outcome: Outcome) returns (rest: seq<UserId>)
    requires Alone(s, p, picks, end, outcome) && p.pc == Scan(round, todo)
    requires Tidy(s, p.email) && Finds(s, p.email, h) && todo <= s.listed && (h.Some? ==> h.value in todo)
    requires p.email !in s.byEmail
    ensures h.Some? ==> outcome == HitOf(p) && end == Looked(s, p.email, h)
    ensures h.None? ==> Alone(s, p.(pc := Miss(round)), rest, end, outcome)
    decreases |picks|
  {
    var next := p.(pc := Act(s, p, picks[0]).1);
    rest := picks[1..];
    if todo != {} {
      var pick := picks[0];
      assert pick in s.listed && ReadUser(s, pick).Good?;
      if IsUser(s, pick, p.email) {
        assert h == Some(pick);
        HealsAlone(s, p, round, pick, picks, end, outcome);
      } else {
        assert next == p.(pc := Scan(round, todo - {pick}));
        rest := ScansAlone(s, next, round, todo - {pick}, h, picks[1..], end, outcome);
      }
    }
  }

  lemma HealsAlone(s: Store, p: Proc, round: nat, pick: UserId, picks: seq<UserId>, end: Store, outcome: Outcome)
    requires Alone(s, p, picks, end, outcome) && p.pc.Scan? && p.pc.round == round && pick in p.pc.todo
    requires picks[0] == pick && IsUser(s, pick, p.email) && p.email !in s.byEmail
    ensures outcome == HitOf(p) && end == Looked(s, p.email, Some(pick))
  {
    var next := p.(pc := Act(s, p, pick).1);
    assert Alone(s, next, picks[1..], end, outcome);
    var hit := p.(pc := Hit(p));
    if '@' in p.email {
      assert next == p.(pc := Heal(round, pick)) && next.(pc := Hit(next)) == hit;
      assert Alone(s.(byEmail := s.byEmail[p.email := pick]), hit, picks[1..][1..], end, outcome);
    } else {
      assert next == hit && s.byEmail - {p.email} == s.byEmail;
    }
  }

  lemma ListsAlone(d: Store, p: Proc, round: nat, h: Option<UserId>, picks: seq<UserId>, end: Store, outcome: Outcome)
    returns (rest: seq<UserId>)
    requires Alone(d, p.(pc := ListAll(round)), picks, end, outcome)
    requires p.email !in d.byEmail && Tidy(d, p.email) && Finds(d, p.email, h)
    ensures h.Some? ==> outcome == HitOf(p) && end == Looked(d, p.email, h)
    ensures h.None? ==> Alone(d, p.(pc := Miss(round)), rest, end, outcome)
  {
    var q := p.(pc := Scan(round, d.listed));
    assert Alone(d, q, picks[1..], end, outcome);
    rest := ScansAlone(d, q, round, d.listed, h, picks[1..], end, outcome);
    assert q.(pc := Miss(round)) == p.(pc := Miss(round));
  }

  /** An entry that is right, that jams the lookup, or that is dropped. */
  lemma EntryAlone(s: Store, p: Proc, round: nat, h: Option<UserId>, picks: seq<UserId>, end: Store, outcome: Outcome)
    returns (rest: seq<UserId>)
    requires p.email in s.byEmail && Alone(s, p.(pc := ReadIndexed(round, s.byEmail[p.email])), picks, end, outcome)
    ensures Jams(s, p.email) ==> outcome == Broken && end == s
    ensures IsUser(s, s.byEmail[p.email], p.email) ==> outcome == HitOf(p) && end == s
    ensures !Jams(s, p.email) && !IsUser(s, s.byEmail[p.email], p.email) ==>
      Alone(s.(byEmail := s.byEmail - {p.email}), p.(pc := ListAll(round)), rest, end, outcome)
  {
    var q := p.(pc := ReadIndexed(round, s.byEmail[p.email]));
    rest := picks[1..];
    if IsUser(s, s.byEmail[p.email], p.email) {
      assert q.(pc := Hit(q)) == p.(pc := Hit(p));
      assert Alone(s, p.(pc := Hit(p)), rest, end, outcome);
    } else if Jams(s, p.email) {
      assert Alone(s, p.(pc := Done(Broken)), rest, end, outcome);
    } else {
      var q2 := p.(pc := DropIndex(round));
      assert Alone(s, q2, rest, end, outcome);
      assert q2.(pc := ListAll(round)) == p.(pc := ListAll(round));
      rest := rest[1..];
    }
  }

  lemma DroppedFinds(s: Store, email: string, h: Option<UserId>)
    requires Tidy(s, email) && Finds(s, email, h)
    ensures Tidy(s.(byEmail := s.byEmail - {email}), email) && Finds(s.(byEmail := s.byEmail - {email}), email, h)
  {
    assert forall id :: ReadUser(s.(byEmail := s.byEmail - {email}), id) == ReadUser(s, id);
  }

  lemma DroppedLooked(s: Store, email: string, h: Option<UserId>)
    requires email in s.byEmail ==> h != Some(s.byEmail[email])
    ensures Looked(s.(byEmail := s.byEmail - {email}), email, h) == Looked(s, email, h)
  {
    var m := s.byEmail - {email};
    assert m - {email} == m;
    if h.Some? { assert m[email := h.value] == s.byEmail[email := h.value]; }
  }

  /** A lookup and what comes after it. */
  lemma LooksAlone(s: Store, p: Proc, round: nat, h: Option<UserId>, picks: seq<UserId>, end: Store, outcome: Outcome)
    returns (rest: seq<UserId>)
    requires Alone(s, p, picks, end, outcome) && p.pc == GetIndex(round)
    requires Tidy(s, p.email) && Finds(s, p.email, h)
    ensures Jams(s, p.email) ==> outcome == Broken && end == s
    ensures !Jams(s, p.email) && h.Some? ==> outcome == HitOf(p) && end == Looked(s, p.email, h)
    ensures !Jams(s, p.email) && h.None? ==>
      Alone(Looked(s, p.email, None), p.(pc := Miss(round)), rest, end, outcome)
  {
    var d := s.(byEmail := s.byEmail - {p.email});
    rest := picks[1..];
    if p.email in s.byEmail {
      assert Alone(s, p.(pc := ReadIndexed(round, s.byEmail[p.email])), rest, end, outcome);
      rest := EntryAlone(s, p, round, h, rest, end, outcome);
      if IsUser(s, s.byEmail[p.email], p.email) {
        assert h == Some(s.byEmail[p.email]) && s.byEmail == s.byEmail[p.email := s.byEmail[p.email]];
      } else if !Jams(s, p.email) {
        DroppedFinds(s, p.email, h);
        DroppedLooked(s, p.email, h);
        rest := ListsAlone(d, p, round, h, rest, end, outcome);
      }
    } else {
      assert d == s;
      assert Alone(s, p.(pc := ListAll(round)), rest, end, outcome);
      rest := ListsAlone(s, p, round, h, rest, end, outcome);
    }
  }

  /** The new record. */
  function Written(s: Store, p: Proc): Store {
    s.(users := s.users[p.me := Record(Some(p.email), None, ALL_FIELDS)])
  }

  lemma {:induction false} WritesAlone(s: Store, p: Proc, k: nat, picks: seq<UserId>, end: Store, outcome: Outcome)
    returns (rest: seq<UserId>)
    requires Alone(s, p, picks, end, outcome) && p.pc == WriteField(k) && k < ALL_FIELDS
    ensures Alone(Written(s, p), p.(pc := Claim), rest, end, outcome)
    decreases ALL_FIELDS - k
  {
    var record := Record(if k == 0 then None else Some(p.email), None, k + 1);
    var next := s.(users := s.users[p.me := record]);
    rest := picks[1..];
    if k + 1 < ALL_FIELDS {
      var q := p.(pc := WriteField(k + 1));
      assert Alone(next, q, rest, end, outcome);
      rest := WritesAlone(next, q, k + 1, rest, end, outcome);
      assert Written(next, q) == Written(s, p) by {
        assert next.users[p.me := Record(Some(p.email), None, ALL_FIELDS)]
            == s.users[p.me := Record(Some(p.email), None, ALL_FIELDS)];
      }
      assert q.(pc := Claim) == p.(pc := Claim);
    } else {
      assert next == Written(s, p);
    }
  }

  /** Written, claimed and listed. */
  function Made(s: Store, p: Proc): Store {
    Written(s, p).(byEmail := s.byEmail[p.email := p.me], listed := s.listed + {p.me})
  }

  lemma MakesAlone(s: Store, p: Proc, picks: seq<UserId>, end: Store, outcome: Outcome)
    requires Alone(s, p, picks, end, outcome) && p.pc == WriteField(0) && p.email !in s.byEmail
    ensures outcome == Created && end == Made(s, p)
  {
    var rest := WritesAlone(s, p, 0, picks, end, outcome);
    var w, q := Written(s, p), p.(pc := Claim);
    assert Alone(w, q, rest, end, outcome);
    var claimed, q2 := w.(byEmail := w.byEmail[p.email := p.me]), p.(pc := AddToAll);
    assert q.(pc := AddToAll) == q2;
    assert Alone(claimed, q2, rest[1..], end, outcome);
    var listed, q3 := claimed.(listed := claimed.listed + {p.me}), p.(pc := Done(Created));
    assert q2.(pc := Done(Created)) == q3;
    assert Alone(listed, q3, rest[1..][1..], end, outcome);
  }

  // ---- The store of the account service, as far as these calls see it ------------------------

  function RecordOf(f: A.UserHash): Record {
    Record(f.primaryEmail, f.name,
           if f == A.NO_FIELDS then 0 else if A.Decode(f).Err? then 1 else if f.epoch.Some? then 5 else 4)
  }

  function StoreOf(s: A.Store): Store {
    Store(map id | id in s.users :: RecordOf(s.users[id]), s.byEmail,
          if HANDLE in s.byName then Some(s.byName[HANDLE]) else None, s.listed)
  }

  lemma ReadsAlike(s: A.Store, id: UserId)
    ensures ReadUser(StoreOf(s), id) ==
      match A.Read(s, id)
      case Err(_) => Malformed
      case Ok(None) => Absent
      case Ok(Some(u)) => Good(u.email)
  {
  }

  lemma UserAlike(s: A.Store, id: UserId, email: string)
    ensures IsUser(StoreOf(s), id, email) <==> A.HasEmail(s, id, email)
  {
    ReadsAlike(s, id);
  }

  // ---- The calls ----------------------------------------------------------------------------

  lemma StoreIsTidy(s: A.Store, email: string)
    requires A.UsersOk(s)
    ensures Tidy(StoreOf(s), email)
  {
    var c := StoreOf(s);
    forall id ensures IsUser(c, id, email) <==> A.HasEmail(s, id, email) { UserAlike(s, id, email); }
    forall id | id in c.listed ensures ReadUser(c, id).Good? { ReadsAlike(s, id); }
    if email in s.byEmail { assert A.LeadsToListed(s, s.byEmail[email]); }
  }

  ghost function HolderOf(s: A.Store, email: string): Option<UserId> {
    if A.Scan(s, email).Some? then Some(A.Scan(s, email).value.id) else None
  }

  lemma HolderFound(s: A.Store, email: string)
    requires A.UsersOk(s)
    ensures Finds(StoreOf(s), email, HolderOf(s, email))
  {
    A.ScanFinds(s, email);
    forall id | id in s.listed ensures IsUser(StoreOf(s), id, email) <==> A.HasEmail(s, id, email) {
      UserAlike(s, id, email);
    }
    if A.Scan(s, email).Some? {
      var id :| id in s.listed && A.HasEmail(s, id, email) && A.Scan(s, email) == Some(A.Decode(A.Fields(s, id)).value);
      assert A.Decodes(s, id);
    }
  }

  lemma JamsAlike(s: A.Store, email: string)
    ensures Jams(StoreOf(s), email) <==> AccountSpelling.Jammed(s, email)
  {
    if email in s.byEmail { ReadsAlike(s, s.byEmail[email]); }
  }

  /** The lookups agree on the store they leave. */
  lemma LookedIsFind(s: A.Store, email: string)
    requires A.UsersOk(s) && !AccountSpelling.Jammed(s, email)
    ensures StoreOf(A.Find(s, email).0) == Looked(StoreOf(s), email, HolderOf(s, email))
  {
    AccountEffects.LookupIndexes(s, email);
  }

  lemma MadeIs(s: A.Store, email: string, isAdmin: bool, id: UserId, now: int, p: Proc)
    requires p.email == email && p.me == id
    ensures
      Made(StoreOf(s), p) ==
      StoreOf(s.(users := s.users[id := A.NewHash(id, email, isAdmin, now)], byEmail := s.byEmail[email := id],
                 listed := s.listed + {id}))
  {
    var users := s.users[id := A.NewHash(id, email, isAdmin, now)];
    assert RecordOf(A.NewHash(id, email, isAdmin, now)) == Record(Some(email), None, ALL_FIELDS);
    assert (map i | i in users :: RecordOf(users[i])) ==
      (map i | i in s.users :: RecordOf(s.users[i]))[id := Record(Some(email), None, ALL_FIELDS)];
  }

  /** What the service's answer to a creation is here. */
  function OutcomeOf(r: Result<A.User, A.AuthError>): Outcome {
    match r
    case Ok(_) => Created
    case Err(EmailTaken) => EmailTaken
    case Err(_) => Broken
  }

  /** From the lookup inside the write: the call ends as the write does. */
  lemma WriteAlone(s: A.Store, p: Proc, isAdmin: bool, now: int, picks: seq<UserId>, end: Store, outcome: Outcome)
    requires A.UsersOk(s) && p.pc == GetIndex(1) && Alone(StoreOf(s), p, picks, end, outcome)
    ensures
      var (s', r) := A.WriteNewUser(s, p.email, isAdmin, p.me, now);
      && end == StoreOf(s')
      && outcome == if r == Err(A.EmailTaken) then HitOf(p) else OutcomeOf(r)
  {
    var h := HolderOf(s, p.email);
    StoreIsTidy(s, p.email);
    HolderFound(s, p.email);
    JamsAlike(s, p.email);
    AccountEffects.FindKeepsRecords(s, p.email);
    A.FindRefinesScan(s, p.email);
    var rest := LooksAlone(StoreOf(s), p, 1, h, picks, end, outcome);
    if !AccountSpelling.Jammed(s, p.email) {
      LookedIsFind(s, p.email);
      if h.None? {
        var s1 := A.Find(s, p.email).0;
        MakesAlone(StoreOf(s1), p.(pc := WriteField(0)), rest, end, outcome);
        MadeIs(s1, p.email, isAdmin, p.me, now, p.(pc := WriteField(0)));
      }
    }
  }

  /** Alone, a creation does what the account service's own does, whatever order its scan takes: the
      same store and the same answer. */
  lemma CreatesAlone(s: A.Store, email: string, isAdmin: bool, id: UserId, now: int,
                     picks: seq<UserId>, end: Store, outcome: Outcome)
    requires A.UsersOk(s) && Alone(StoreOf(s), Proc(Create, email, id, GetIndex(1)), picks, end, outcome)
    ensures
      var (s', r) := A.WriteNewUser(s, email, isAdmin, id, now);
      end == StoreOf(s') && outcome == OutcomeOf(r)
  {
    WriteAlone(s, Proc(Create, email, id, GetIndex(1)), isAdmin, now, picks, end, outcome);
  }

  // ---- Bootstraps ------------------------------------------------------------------------------

  /** The legacy record takes the e-mail and loses its old name. */
  function AdoptedBy(s: Store, p: Proc, id: UserId): Store {
    var record := if id in s.users then s.users[id] else Record(None, None, 0);
    s.(users := s.users[id := record.(primary := Some(p.email))], byEmail := s.byEmail[p.email := id], byName := None)
  }

  lemma AdoptsAlone(s: Store, p: Proc, id: UserId, picks: seq<UserId>, end: Store, outcome: Outcome)
    requires Alone(s, p.(pc := SetEmail(id)), picks, end, outcome)
    ensures outcome == Adopted && end == AdoptedBy(s, p, id)
  {
    var record := if id in s.users then s.users[id] else Record(None, None, 0);
    var s1 := s.(users := s.users[id := record.(primary := Some(p.email))]);
    var s2 := s1.(byEmail := s1.byEmail[p.email := id]);
    assert Alone(s1, p.(pc := SetIndex(id)), picks[1..], end, outcome);
    assert Alone(s2, p.(pc := DropName), picks[1..][1..], end, outcome);
    assert Alone(s2.(byName := None), p.(pc := Done(Adopted)), picks[1..][1..][1..], end, outcome);
  }

  /** What a bootstrap finds under the retired name. */
  datatype Legacy = Nobody | Unreadable | Modern | Waiting(id: UserId)

  function LegacyOf(s: Store): Legacy {
    if s.byName.None? || ReadUser(s, s.byName.value).Absent? then Nobody
    else if ReadUser(s, s.byName.value).Malformed? then Unreadable
    else if HasEmail(s, s.byName.value) then Modern
    else Waiting(s.byName.value)
  }

  lemma NamesAlone(s: Store, p: Proc, picks: seq<UserId>, end: Store, outcome: Outcome) returns (rest: seq<UserId>)
    requires Alone(s, p.(pc := GetName), picks, end, outcome)
    ensures
      match LegacyOf(s)
      case Unreadable => outcome == Broken && end == s
      case Waiting(id) => outcome == Adopted && end == AdoptedBy(s, p, id)
      case _ => Alone(s, p.(pc := GetIndex(1)), rest, end, outcome)
  {
    rest := picks[1..];
    if s.byName.Some? {
      var id := s.byName.value;
      assert Alone(s, p.(pc := ReadNamed(id)), rest, end, outcome);
      rest := rest[1..];
      match ReadUser(s, id) {
        case Good(_) =>
          assert Alone(s, p.(pc := ReadFields(id)), rest, end, outcome);
          rest := rest[1..];
          if !HasEmail(s, id) { AdoptsAlone(s, p, id, rest, end, outcome); }
        case Malformed => assert Alone(s, p.(pc := Done(Broken)), rest, end, outcome);
        case Absent =>
      }
    }
  }

  lemma LegacyAlike(s: A.Store)
    ensures
      var named := "bootstrap" in s.byName;
      && (LegacyOf(StoreOf(s)).Unreadable? <==> named && A.Read(s, s.byName["bootstrap"]).Err?)
      && (LegacyOf(StoreOf(s)).Waiting? <==>
            (named && A.Decodes(s, s.byName["bootstrap"])
             && A.Fields(s, s.byName["bootstrap"]).primaryEmail.None?))
      && (LegacyOf(StoreOf(s)).Waiting? ==> LegacyOf(StoreOf(s)).id == s.byName["bootstrap"])
  {
    assert HANDLE == "bootstrap";
    if "bootstrap" in s.byName { ReadsAlike(s, s.byName["bootstrap"]); }
  }

  lemma AdoptedIs(s: A.Store, p: Proc, id: UserId)
    requires A.Decodes(s, id)
    ensures AdoptedBy(StoreOf(s), p, id) ==
      StoreOf(A.WithEmail(s, id, p.email).(byName := s.byName - {"bootstrap"}))
  {
    var f := A.Fields(s, id);
    var g := f.(primaryEmail := Some(p.email));
    var users := s.users[id := g];
    assert HANDLE == "bootstrap";
    assert RecordOf(g) == RecordOf(f).(primary := Some(p.email));
    assert (map i | i in users :: RecordOf(users[i])) ==
      (map i | i in s.users :: RecordOf(s.users[i]))[id := RecordOf(g)];
  }

  /** What a bootstrap's outcome answers. */
  function AnswerOf(o: Outcome): Result<bool, A.AuthError> {
    match o
    case Created => Ok(true)
    case Adopted => Ok(false)
    case AlreadyExists => Ok(false)
    case EmailTaken => Err(A.EmailTaken)
    case Broken => Err(A.Malformed)
  }

  lemma NewIsWrite(s: A.Store, email: string, secret: T.Secret, id: UserId, token: T.TokenId, now: int)
    requires A.UsersOk(s) && !LegacyOf(StoreOf(s)).Unreadable? && !LegacyOf(StoreOf(s)).Waiting?
    requires A.WriteNewUser(s, email, true, id, now).1.Err? ==>
      A.WriteNewUser(s, email, true, id, now).1.error in {A.EmailTaken, A.Malformed}
    ensures
      var (s1, made) := A.WriteNewUser(s, email, true, id, now);
      var (s', r) := A.BootstrapNew(s, email, secret, id, token, now);
      && s' == s1.(tokens := s'.tokens)
      && r == if made.Ok? then Ok(true) else if made == Err(A.EmailTaken) then Ok(false) else Err(A.Malformed)
  {
    LegacyAlike(s);
    if "bootstrap" in s.byName && A.Decodes(s, s.byName["bootstrap"]) {
      assert s.users[s.byName["bootstrap"]].id == Some(s.byName["bootstrap"]);
    }
  }

  lemma NewIsAdoption(s: A.Store, p: Proc, secret: T.Secret, token: T.TokenId, now: int)
    requires A.UsersOk(s) && LegacyOf(StoreOf(s)).Waiting?
    ensures
      var (s', r) := A.BootstrapNew(s, p.email, secret, p.me, token, now);
      StoreOf(s') == AdoptedBy(StoreOf(s), p, LegacyOf(StoreOf(s)).id) && r == Ok(false)
  {
    LegacyAlike(s);
    AdoptedIs(s, p, s.byName["bootstrap"]);
  }

  lemma NewIsRefused(s: A.Store, email: string, secret: T.Secret, id: UserId, token: T.TokenId, now: int)
    requires LegacyOf(StoreOf(s)).Unreadable?
    ensures A.BootstrapNew(s, email, secret, id, token, now) == (s, Err(A.Malformed))
  {
    LegacyAlike(s);
  }

  lemma WriteErrors(s: A.Store, email: string, id: UserId, now: int)
    requires A.UsersOk(s)
    ensures
      var r := A.WriteNewUser(s, email, true, id, now).1;
      r.Err? ==> r.error in {A.EmailTaken, A.Malformed}
  {
    AccountSpelling.FailsMalformed(s, email);
    A.FindRefinesScan(s, email);
    AccountSpelling.WritesByFind(s, email, true, id, now);
  }

  /** After the first lookup found nobody. */
  lemma NewAlone(s: A.Store, p: Proc, secret: T.Secret, token: T.TokenId, now: int, picks: seq<UserId>, end: Store,
                 outcome: Outcome)
    requires A.UsersOk(s) && p.kind.Bootstrap? && Alone(StoreOf(s), p.(pc := GetName), picks, end, outcome)
    ensures
      var (s', r) := A.BootstrapNew(s, p.email, secret, p.me, token, now);
      end == StoreOf(s') && r == AnswerOf(outcome)
  {
    var rest := NamesAlone(StoreOf(s), p, picks, end, outcome);
    if LegacyOf(StoreOf(s)).Unreadable? {
      NewIsRefused(s, p.email, secret, p.me, token, now);
    } else if LegacyOf(StoreOf(s)).Waiting? {
      NewIsAdoption(s, p, secret, token, now);
    } else {
      WriteErrors(s, p.email, p.me, now);
      NewIsWrite(s, p.email, secret, p.me, token, now);
      WriteAlone(s, p.(pc := GetIndex(1)), true, now, rest, end, outcome);
    }
  }

  /** Alone, a bootstrap does what the account service's own does, the token apart. */
  lemma BootstrapsAlone(s: A.Store, email: string, secret: T.Secret, id: UserId, token: T.TokenId, now: int,
                        picks: seq<UserId>, end: Store, outcome: Outcome)
    requires A.UsersOk(s) && Alone(StoreOf(s), Proc(Bootstrap, email, id, GetIndex(0)), picks, end, outcome)
    ensures
      var (s', r) := A.BootstrapAdminAs(s, email, secret, id, token, now);
      end == StoreOf(s') && r == AnswerOf(outcome)
  {
    var p, h := Proc(Bootstrap, email, id, GetIndex(0)), HolderOf(s, email);
    StoreIsTidy(s, email);
    HolderFound(s, email);
    JamsAlike(s, email);
    AccountEffects.FindKeepsRecords(s, email);
    A.FindRefinesScan(s, email);
    var rest := LooksAlone(StoreOf(s), p, 0, h, picks, end, outcome);
    if !AccountSpelling.Jammed(s, email) {
      LookedIsFind(s, email);
      if h.None? {
        NewAlone(A.Find(s, email).0, p, secret, token, now, rest, end, outcome);
      }
    }
  }
}
