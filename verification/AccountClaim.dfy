/** Replicas that create or bootstrap accounts at the same time, interleaved at single store
    operations: the check-then-act lookup, the adoption of the record from before e-mails were
    identifiers, the record writes, and the atomic claim. */
module AccountClaim {
  import opened Wrappers

  type UserId = int
  type ProcId = nat

  /** The fields of a new user hash are written one by one: id, primary_email, is_admin, created_at,
      session_epoch. It decodes once the first four are there, by its old name if it has no e-mail. */
  datatype Record = Record(primary: Option<string>, name: Option<string>, fields: nat)

  datatype Read = Absent | Malformed | Good(email: string)

  /** `byName` is the one entry of the retired name index that is still read. */
  datatype Store = Store(users: map<UserId, Record>, byEmail: map<string, UserId>,
                         byName: Option<UserId>, listed: set<UserId>)

  datatype Kind = Bootstrap | Create

  /** A bootstrap answers true on `Created` and false on `AlreadyExists` and `Adopted`. */
  datatype Outcome = Created | Adopted | AlreadyExists | EmailTaken | Broken

  /** Where a call stands. Round 0 is the bootstrap's own lookup, round 1 the one inside the write. */
  datatype Pc =
    | GetIndex(round: nat)
    | ReadIndexed(round: nat, id: UserId)
    | DropIndex(round: nat)
    | ListAll(round: nat)
    | Scan(round: nat, todo: set<UserId>)
    | Heal(round: nat, id: UserId)
    | GetName
    | ReadNamed(id: UserId)
    | ReadFields(id: UserId)
    | SetEmail(id: UserId)
    | SetIndex(id: UserId)
    | DropName
    | WriteField(k: nat)
    | Claim
    | AddToAll
    | Done(outcome: Outcome)

  /** A call in progress, with the new id it will use if it writes a record. */
  datatype Proc = Proc(kind: Kind, email: string, me: UserId, pc: Pc)

  datatype State = State(store: Store, procs: map<ProcId, Proc>)

  const ALL_FIELDS := 5

  /** The name under which the old code created its admin, and so that record's identifier. */
  const HANDLE := "bootstrap"

  function ReadUser(s: Store, id: UserId): Read {
    if id !in s.users || s.users[id].fields == 0 then Absent
    else if s.users[id].fields < 4 then Malformed
    else
      match s.users[id]
      case Record(Some(email), _, _) => Good(email)
      case Record(None, Some(name), _) => Good(name)
      case Record(None, None, _) => Malformed
  }

  predicate HasEmail(s: Store, id: UserId) {
    id in s.users && s.users[id].primary.Some?
  }

  function Hit(p: Proc): Pc {
    Done(if p.kind.Bootstrap? then AlreadyExists else EmailTaken)
  }

  function Miss(round: nat): Pc {
    if round == 0 then GetName else WriteField(0)
  }

  predicate Picks(pc: Pc, pick: UserId) {
    pc.Scan? && pc.todo != {} ==> pick in pc.todo
  }

  ghost predicate Enabled(s: State, p: ProcId, pick: UserId) {
    p in s.procs && !s.procs[p].pc.Done? && Picks(s.procs[p].pc, pick)
  }

  /** One store operation of one call. `pick` is the next id a scan looks at. */
  function Act(s: Store, p: Proc, pick: UserId): (Store, Pc) {
    match p.pc
    case GetIndex(round) =>
      (s, if p.email in s.byEmail then ReadIndexed(round, s.byEmail[p.email]) else ListAll(round))
    case ReadIndexed(round, id) =>
      (match ReadUser(s, id)
       case Good(email) => if email == p.email then (s, Hit(p)) else (s, DropIndex(round))
       case Absent => (s, DropIndex(round))
       case Malformed => (s, Done(Broken)))
    case DropIndex(round) => (s.(byEmail := s.byEmail - {p.email}), ListAll(round))
    case ListAll(round) => (s, Scan(round, s.listed))
    case Scan(round, todo) =>
      if todo == {} then (s, Miss(round))
      else
        (match ReadUser(s, pick)
         case Good(email) =>
           if email == p.email then (s, if '@' in p.email then Heal(round, pick) else Hit(p))
           else (s, Scan(round, todo - {pick}))
         case Absent => (s, Scan(round, todo - {pick}))
         case Malformed => (s, Done(Broken)))
    case Heal(round, id) => (s.(byEmail := s.byEmail[p.email := id]), Hit(p))
    case GetName => (s, if s.byName.Some? then ReadNamed(s.byName.value) else GetIndex(1))
    case ReadNamed(id) =>
      (s, match ReadUser(s, id)
          case Good(_) => ReadFields(id)
          case Absent => GetIndex(1)
          case Malformed => Done(Broken))
    case ReadFields(id) => (s, if HasEmail(s, id) then GetIndex(1) else SetEmail(id))
    case SetEmail(id) =>
      var record := if id in s.users then s.users[id] else Record(None, None, 0);
      (s.(users := s.users[id := record.(primary := Some(p.email))]), SetIndex(id))
    case SetIndex(id) => (s.(byEmail := s.byEmail[p.email := id]), DropName)
    case DropName => (s.(byName := None), Done(Adopted))
    case WriteField(k) =>
      (s.(users := s.users[p.me := Record(if k == 0 then None else Some(p.email), None, k + 1)]),
       if k + 1 < ALL_FIELDS then WriteField(k + 1) else Claim)
    case Claim =>
      if p.email in s.byEmail then (s, Hit(p))
      else (s.(byEmail := s.byEmail[p.email := p.me]), AddToAll)
    case AddToAll => (s.(listed := s.listed + {p.me}), Done(Created))
    case Done(_) => (s, p.pc)
  }

  function Next(s: State, p: ProcId, pick: UserId): State
    requires p in s.procs
  {
    var (store, pc) := Act(s.store, s.procs[p], pick);
    State(store, s.procs[p := s.procs[p].(pc := pc)])
  }

  // ---- Where calls may start ---------------------------------------------------

  ghost predicate IsUser(s: Store, id: UserId, email: string) {
    ReadUser(s, id) == Good(email)
  }

  /** A record is reachable for an e-mail through the index or through the listing. */
  ghost predicate Reachable(s: Store, id: UserId, email: string) {
    || (email in s.byEmail && s.byEmail[email] == id)
    || (id in s.listed && IsUser(s, id, email))
  }

  ghost predicate Exists(s: Store, email: string) {
    exists id :: Reachable(s, id, email)
  }

  ghost predicate AtMostOne(s: Store, email: string) {
    forall i, j :: Reachable(s, i, email) && Reachable(s, j, email) ==> i == j
  }

  /** Reachable, and really that user: not by a stale index entry. */
  ghost predicate Account(s: Store, id: UserId, email: string) {
    Reachable(s, id, email) && IsUser(s, id, email)
  }

  ghost predicate HasAccount(s: Store, email: string) {
    exists id :: Account(s, id, email)
  }

  /** The name index leads to a listed record from before e-mails were identifiers. Only e-mails
      are indexed, so the e-mail index does not lead to it. */
  ghost predicate Adoptable(s: Store, u: UserId) {
    && s.byName == Some(u) && u in s.listed && u !in s.byEmail.Values
    && u in s.users && s.users[u].primary.None? && IsUser(s, u, HANDLE)
  }

  ghost function Legacy(s: Store): Option<UserId> {
    if s.byName.Some? && Adoptable(s, s.byName.value) then s.byName else None
  }

  /** No index has a stale entry, no two listed records share an e-mail, and where the e-mail index
      has an entry it agrees with the listing. A listed record the index does not know is allowed. */
  ghost predicate StoreOk(s: Store) {
    && (forall e :: e in s.byEmail ==> IsUser(s, s.byEmail[e], e))
    && (forall id :: id in s.listed ==> ReadUser(s, id).Good?)
    && (forall id, e :: id in s.listed && IsUser(s, id, e) && e in s.byEmail ==> s.byEmail[e] == id)
    && (forall i, j, e :: i in s.listed && j in s.listed && IsUser(s, i, e) && IsUser(s, j, e) ==> i == j)
    && (s.byName.Some? ==>
          || Adoptable(s, s.byName.value)
          || ReadUser(s, s.byName.value).Absent?
          || (ReadUser(s, s.byName.value).Good? && HasEmail(s, s.byName.value)))
  }

  ghost predicate NewId(s: Store, id: UserId) {
    id !in s.listed && id !in s.byEmail.Values && s.byName != Some(id)
  }

  /** Any number of calls, each with a new id of its own, about to start. */
  ghost predicate Init(s: State) {
    && StoreOk(s.store)
    && (forall p :: p in s.procs ==>
          NewId(s.store, s.procs[p].me) && s.procs[p].pc == GetIndex(if s.procs[p].kind.Bootstrap? then 0 else 1))
    && DistinctIds(s)
  }

  ghost predicate DistinctIds(s: State) {
    forall p, q :: p in s.procs && q in s.procs && p != q ==> s.procs[p].me != s.procs[q].me
  }

  /** `picks` interleaves the calls: each entry lets one call do one store operation. */
  ghost predicate Run(s: State, picks: seq<(ProcId, UserId)>, end: State)
    decreases |picks|
  {
    if picks == [] then s == end
    else Enabled(s, picks[0].0, picks[0].1) && Run(Next(s, picks[0].0, picks[0].1), picks[1..], end)
  }

  /** The same calls, each wherever it stands. */
  ghost predicate SameCalls(s: State, t: State) {
    t.procs.Keys == s.procs.Keys && forall p :: p in s.procs ==> t.procs[p] == s.procs[p].(pc := t.procs[p].pc)
  }

  // ---- What holds in every interleaving -------------------------------------------

  ghost predicate Owns(p: Proc) {
    p.pc.AddToAll? || p.pc == Done(Created)
  }

  /** Index and listing lead to complete records; `legacy` is the record there was to adopt. */
  ghost predicate StoreBase(s: Store, legacy: Option<UserId>) {
    && (forall e :: e in s.byEmail ==> ReadUser(s, s.byEmail[e]).Good?)
    && (forall id :: id in s.listed ==> ReadUser(s, id).Good?)
    && match legacy
       case Some(u) =>
         && u in s.listed && u in s.users && (s.byName == None || s.byName == legacy)
         && (!HasEmail(s, u) ==> s.byName == legacy && u !in s.byEmail.Values && IsUser(s, u, HANDLE))
       case None =>
         s.byName.Some? ==>
           || ReadUser(s, s.byName.value).Absent?
           || (ReadUser(s, s.byName.value).Good? && HasEmail(s, s.byName.value))
  }

  ghost predicate ProcBase(s: Store, legacy: Option<UserId>, p: Proc) {
    && legacy != Some(p.me) && s.byName != Some(p.me)
    && (Owns(p) ==> IsUser(s, p.me, p.email))
    && (!Owns(p) ==> p.me !in s.listed && p.me !in s.byEmail.Values)
    && (p.pc == Done(Created) ==> p.me in s.listed)
    && match p.pc
       case GetIndex(round) => round == 0 ==> p.kind.Bootstrap?
       case ReadIndexed(round, id) => (round == 0 ==> p.kind.Bootstrap?) && ReadUser(s, id).Good? && id != p.me
       case DropIndex(round) => round == 0 ==> p.kind.Bootstrap?
       case ListAll(round) => round == 0 ==> p.kind.Bootstrap?
       case Scan(round, todo) => (round == 0 ==> p.kind.Bootstrap?) && todo <= s.listed
       case Heal(_, id) => id in s.listed && (legacy == Some(id) ==> HasEmail(s, id))
       case GetName => p.kind.Bootstrap?
       case ReadNamed(id) =>
         p.kind.Bootstrap? && id != p.me &&
         (legacy == Some(id) || ReadUser(s, id).Absent? || (ReadUser(s, id).Good? && HasEmail(s, id)))
       case ReadFields(id) => p.kind.Bootstrap? && id != p.me && (legacy == Some(id) || HasEmail(s, id))
       case SetEmail(id) => p.kind.Bootstrap? && legacy == Some(id)
       case SetIndex(id) => p.kind.Bootstrap? && legacy == Some(id) && HasEmail(s, id)
       case DropName => p.kind.Bootstrap? && legacy.Some? && HasEmail(s, legacy.value)
       case WriteField(k) => k < ALL_FIELDS
       case Claim => IsUser(s, p.me, p.email)
       case AddToAll => true
       case Done(o) =>
         && o != Broken
         && (o == EmailTaken ==> p.kind.Create?) && (o == AlreadyExists || o == Adopted ==> p.kind.Bootstrap?)
  }

  /** A call never looks at a record another call has yet to claim. */
  ghost predicate Apart(q: Proc, p: Proc) {
    && q.me != p.me
    && match q.pc
       case ReadIndexed(_, id) => id == p.me ==> Owns(p)
       case ReadNamed(id) => id != p.me
       case ReadFields(id) => id != p.me
       case _ => true
  }

  ghost predicate Base(s: State, legacy: Option<UserId>) {
    && StoreBase(s.store, legacy)
    && (forall p :: p in s.procs ==> ProcBase(s.store, legacy, s.procs[p]))
    && (forall p, q :: p in s.procs && q in s.procs && p != q ==> Apart(s.procs[q], s.procs[p]))
  }

  /** What one operation may change: its own record, index entry and listing, and the legacy record. */
  ghost predicate Moves(s: Store, s': Store, legacy: Option<UserId>, p: Proc) {
    && (forall id :: (id != p.me || !p.pc.WriteField?) && legacy != Some(id) ==>
          ReadUser(s', id) == ReadUser(s, id) && (HasEmail(s', id) <==> HasEmail(s, id)))
    && (legacy.Some? ==>
          || (ReadUser(s', legacy.value) == ReadUser(s, legacy.value) &&
              (HasEmail(s', legacy.value) <==> HasEmail(s, legacy.value)))
          || (p.pc.SetEmail? && HasEmail(s', legacy.value) && IsUser(s', legacy.value, p.email)))
    && (forall id, e :: e != p.email && IsUser(s', id, e) ==> IsUser(s, id, e))
    && (forall e :: e != p.email ==> (e in s'.byEmail <==> e in s.byEmail))
    && (forall e :: e != p.email && e in s.byEmail ==> s'.byEmail[e] == s.byEmail[e])
    && (forall v :: v in s'.byEmail.Values ==> v in s.byEmail.Values || v == p.me || v in s.listed)
    && s.listed <= s'.listed && s'.listed <= s.listed + {p.me} && (p.me in s'.listed - s.listed ==> p.pc.AddToAll?)
    && (s'.byName == s.byName || (s'.byName == None && p.pc.DropName?))
  }

  lemma UsersMove(s: Store, legacy: Option<UserId>, p: Proc, pick: UserId)
    requires StoreBase(s, legacy) && ProcBase(s, legacy, p) && (p.pc.SetEmail? || p.pc.WriteField?)
    ensures Moves(s, Act(s, p, pick).0, legacy, p) && StoreBase(Act(s, p, pick).0, legacy)
  {
    var s' := Act(s, p, pick).0;
    forall e | e in s'.byEmail ensures ReadUser(s', s'.byEmail[e]).Good? {
      assert s.byEmail[e] in s.byEmail.Values;
    }
  }

  /** An edit of the e-mail's own index entry. */
  lemma EntryMoves(s: Store, s': Store, legacy: Option<UserId>, p: Proc)
    requires StoreBase(s, legacy) && s' == s.(byEmail := s'.byEmail)
    requires forall e :: e != p.email ==>
      (e in s'.byEmail <==> e in s.byEmail) && (e in s.byEmail ==> s'.byEmail[e] == s.byEmail[e])
    requires p.email in s'.byEmail ==>
      var v := s'.byEmail[p.email];
      ReadUser(s, v).Good? && (v == p.me || v in s.listed) && (legacy == Some(v) ==> HasEmail(s, v))
    ensures Moves(s, s', legacy, p) && StoreBase(s', legacy)
  {
    assert forall id :: ReadUser(s', id) == ReadUser(s, id) && (HasEmail(s', id) <==> HasEmail(s, id));
    forall v | v in s'.byEmail.Values
      ensures (v in s.byEmail.Values || v == p.me || v in s.listed)
      ensures legacy == Some(v) && v !in s.byEmail.Values ==> HasEmail(s, v)
    {
      var e :| e in s'.byEmail && s'.byEmail[e] == v;
      assert e != p.email ==> s.byEmail[e] == v;
    }
  }

  lemma IndexMoves(s: Store, legacy: Option<UserId>, p: Proc, pick: UserId)
    requires StoreBase(s, legacy) && ProcBase(s, legacy, p)
    requires p.pc.DropIndex? || p.pc.Heal? || p.pc.SetIndex? || p.pc.Claim?
    ensures Moves(s, Act(s, p, pick).0, legacy, p) && StoreBase(Act(s, p, pick).0, legacy)
  {
    var s' := Act(s, p, pick).0;
    assert p.email in s.byEmail ==> s.byEmail[p.email] in s.byEmail.Values;
    if s' == s {
      assert forall id, e :: IsUser(s', id, e) ==> IsUser(s, id, e);
    } else {
      EntryMoves(s, s', legacy, p);
    }
  }

  lemma ActMoves(s: Store, legacy: Option<UserId>, p: Proc, pick: UserId)
    requires StoreBase(s, legacy) && ProcBase(s, legacy, p) && Picks(p.pc, pick)
    ensures Moves(s, Act(s, p, pick).0, legacy, p) && StoreBase(Act(s, p, pick).0, legacy)
  {
    if p.pc.SetEmail? || p.pc.WriteField? {
      UsersMove(s, legacy, p, pick);
    } else if p.pc.DropIndex? || p.pc.Heal? || p.pc.SetIndex? || p.pc.Claim? {
      IndexMoves(s, legacy, p, pick);
    } else {
      var s' := Act(s, p, pick).0;
      assert s'.users == s.users && s'.byEmail == s.byEmail;
      assert forall id :: ReadUser(s', id) == ReadUser(s, id) && (HasEmail(s', id) <==> HasEmail(s, id));
    }
  }

  ghost predicate Looking(pc: Pc) {
    pc.GetIndex? || pc.ReadIndexed? || pc.DropIndex? || pc.ListAll? || pc.Scan? || pc.Heal?
  }

  lemma HandleIsNoAddress()
    ensures '@' !in HANDLE
  {
  }

  lemma LookupKeepsProcBase(s: Store, legacy: Option<UserId>, p: Proc, pick: UserId)
    requires StoreBase(s, legacy) && ProcBase(s, legacy, p) && Picks(p.pc, pick) && Looking(p.pc)
    ensures ProcBase(Act(s, p, pick).0, legacy, p.(pc := Act(s, p, pick).1))
  {
    HandleIsNoAddress();
    assert p.pc.GetIndex? && p.email in s.byEmail ==> s.byEmail[p.email] in s.byEmail.Values;
    if p.pc.Heal? || p.pc.DropIndex? {
      IndexMoves(s, legacy, p, pick);
    }
  }

  lemma ActKeepsProcBase(s: Store, legacy: Option<UserId>, p: Proc, pick: UserId)
    requires StoreBase(s, legacy) && ProcBase(s, legacy, p) && Picks(p.pc, pick)
    ensures ProcBase(Act(s, p, pick).0, legacy, p.(pc := Act(s, p, pick).1))
  {
    if Looking(p.pc) {
      LookupKeepsProcBase(s, legacy, p, pick);
    } else {
      ActMoves(s, legacy, p, pick);
    }
  }

  lemma OthersKeepProcBase(s: Store, s': Store, legacy: Option<UserId>, p: Proc, q: Proc)
    requires Moves(s, s', legacy, p) && ProcBase(s, legacy, q) && p.me != q.me
    requires StoreBase(s, legacy) && StoreBase(s', legacy) && ProcBase(s, legacy, p) && Apart(q, p)
    ensures ProcBase(s', legacy, q)
  {
  }

  lemma StaysApart(s: Store, legacy: Option<UserId>, p: Proc, pick: UserId, q: Proc)
    requires StoreBase(s, legacy) && ProcBase(s, legacy, p) && ProcBase(s, legacy, q) && Apart(q, p) && Apart(p, q)
    requires Picks(p.pc, pick)
    ensures var p' := p.(pc := Act(s, p, pick).1); Apart(q, p') && Apart(p', q)
  {
    assert p.pc.GetIndex? && p.email in s.byEmail ==> s.byEmail[p.email] in s.byEmail.Values;
  }

  lemma ActKeepsBase(s: State, legacy: Option<UserId>, p: ProcId, pick: UserId)
    requires Base(s, legacy) && Enabled(s, p, pick)
    ensures Base(Next(s, p, pick), legacy) && Moves(s.store, Next(s, p, pick).store, legacy, s.procs[p])
  {
    var s' := Next(s, p, pick);
    ActMoves(s.store, legacy, s.procs[p], pick);
    ActKeepsProcBase(s.store, legacy, s.procs[p], pick);
    forall q | q in s'.procs && q != p ensures ProcBase(s'.store, legacy, s'.procs[q]) {
      OthersKeepProcBase(s.store, s'.store, legacy, s.procs[p], s.procs[q]);
    }
    forall q | q in s'.procs && q != p ensures Apart(s'.procs[q], s'.procs[p]) && Apart(s'.procs[p], s'.procs[q]) {
      StaysApart(s.store, legacy, s.procs[p], pick, s.procs[q]);
    }
  }

  lemma InitIsBase(s: State)
    requires Init(s)
    ensures Base(s, Legacy(s.store))
  {
  }

  ghost predicate Kept(inv: State -> bool) {
    forall t, p, pick {:trigger Enabled(t, p, pick)} :: inv(t) && Enabled(t, p, pick) ==> inv(Next(t, p, pick))
  }

  /** What every operation keeps, every run keeps. */
  lemma {:induction false} RunKeeps(inv: State -> bool, s: State, picks: seq<(ProcId, UserId)>, end: State)
    requires Kept(inv) && inv(s) && Run(s, picks, end)
    ensures inv(end)
    decreases |picks|
  {
    if picks != [] {
      assert Enabled(s, picks[0].0, picks[0].1);
      RunKeeps(inv, Next(s, picks[0].0, picks[0].1), picks[1..], end);
    }
  }

  ghost predicate Leads(s: State, t: State) {
    exists picks :: Run(s, picks, t)
  }

  lemma {:induction false} RunOn(s: State, picks: seq<(ProcId, UserId)>, t: State, p: ProcId, pick: UserId)
    requires Run(s, picks, t) && Enabled(t, p, pick)
    ensures Run(s, picks + [(p, pick)], Next(t, p, pick))
    decreases |picks|
  {
    if picks == [] {
      assert Run(Next(s, p, pick), [], Next(s, p, pick));
    } else {
      RunOn(Next(s, picks[0].0, picks[0].1), picks[1..], t, p, pick);
      assert (picks + [(p, pick)])[1..] == picks[1..] + [(p, pick)];
    }
  }

  lemma LeadsOn(s: State, t: State, p: ProcId, pick: UserId)
    requires Leads(s, t) && Enabled(t, p, pick)
    ensures Leads(s, Next(t, p, pick))
  {
    var picks :| Run(s, picks, t);
    RunOn(s, picks, t, p, pick);
  }

  ghost predicate KeptFrom(s: State, inv: State -> bool) {
    forall t, p, pick {:trigger Enabled(t, p, pick)} ::
      Leads(s, t) && inv(t) && Enabled(t, p, pick) ==> inv(Next(t, p, pick))
  }

  /** What every operation keeps wherever the calls may have got to. */
  lemma RunKeepsFrom(inv: State -> bool, s: State, picks: seq<(ProcId, UserId)>, end: State)
    requires KeptFrom(s, inv) && inv(s) && Run(s, picks, end)
    ensures inv(end)
  {
    var both := t => Leads(s, t) && inv(t);
    forall t, p, pick | both(t) && Enabled(t, p, pick) ensures both(Next(t, p, pick)) {
      LeadsOn(s, t, p, pick);
    }
    assert Run(s, [], s);
    RunKeeps(both, s, picks, end);
  }

  lemma RunKeepsCalls(s: State, picks: seq<(ProcId, UserId)>, end: State)
    requires Run(s, picks, end)
    ensures SameCalls(s, end)
  {
    RunKeeps(t => SameCalls(s, t), s, picks, end);
  }

  lemma RunKeepsBase(s: State, legacy: Option<UserId>, picks: seq<(ProcId, UserId)>, end: State)
    requires Base(s, legacy) && Run(s, picks, end)
    ensures Base(end, legacy)
  {
    forall t, p, pick | Base(t, legacy) && Enabled(t, p, pick) ensures Base(Next(t, p, pick), legacy) {
      ActKeepsBase(t, legacy, p, pick);
    }
    RunKeeps(t => Base(t, legacy), s, picks, end);
  }

  /** Whatever is interleaved, legacy record or not: no call meets a half-built record; a bootstrap
      that does not create answers false and never an error; only an explicit creation reports the
      e-mail taken; and what a call says it created is listed under its e-mail. */
  lemma NobodyBreaks(s: State, picks: seq<(ProcId, UserId)>, end: State, p: ProcId)
    requires Init(s) && Run(s, picks, end) && p in end.procs && end.procs[p].pc.Done?
    ensures
      var q := end.procs[p];
      && (q.pc.outcome != Created ==>
            if q.kind.Create? then q.pc.outcome == EmailTaken else q.pc.outcome in {AlreadyExists, Adopted})
      && (q.pc.outcome == Created ==> q.me in end.store.listed && Account(end.store, q.me, q.email))
  {
    InitIsBase(s);
    RunKeepsBase(s, Legacy(s.store), picks, end);
    assert ProcBase(end.store, Legacy(s.store), end.procs[p]);
  }
}
