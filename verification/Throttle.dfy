/** The per-IP login throttle over a store that expires keys and one that does not. */
module Throttle {
  import opened Wrappers

  const WINDOW_SECONDS := 60
  const MAX_FAILS := 5
  const LOCKOUT_SECONDS := 60

  type Ip = int
  type Time = int

  datatype Key = Fails(ip: Ip) | Window(ip: Ip) | Lock(ip: Ip)

  /** A counter, or a lease: a key whose value is its own deadline. */
  datatype Value = Count(n: int) | Deadline(at: Time)

  datatype Entry = Entry(value: Value, expires: Option<Time>)

  type Store = map<Key, Entry>

  /** The in-memory store never expires a key; the other drops each key at its expiry time. */
  datatype Backend = InMemory | Expiring

  // ---- The store -----------------------------------------------------------------

  function Get(b: Backend, s: Store, k: Key, now: Time): Option<Value> {
    if k !in s || (b.Expiring? && s[k].expires.Some? && s[k].expires.value <= now) then None else Some(s[k].value)
  }

  function SetCount(s: Store, k: Key, n: int): Store {
    s[k := Entry(Count(n), None)]
  }

  /** Adds to the counter, or creates it; keeps the expiry of the key. */
  function Incr(b: Backend, s: Store, k: Key, now: Time): (Store, Option<int>) {
    match Get(b, s, k, now)
    case None => (SetCount(s, k, 1), Some(1))
    case Some(Count(n)) => (s[k := Entry(Count(n + 1), s[k].expires)], Some(n + 1))
    case Some(Deadline(_)) => (s, None)
  }

  function SetTtl(b: Backend, s: Store, k: Key, ttl: nat, now: Time): Store {
    if b.InMemory? || Get(b, s, k, now).None? then s else s[k := s[k].(expires := Some(now + ttl))]
  }

  /** In memory the stored deadline is compared; the expiring store only asks whether the key is there. */
  function TryLease(b: Backend, s: Store, k: Key, ttl: nat, now: Time): (Store, bool) {
    var held := Get(b, s, k, now);
    var until := now + if ttl == 0 then 1 else ttl;
    match b
    case InMemory =>
      if held.Some? && held.value.Deadline? && held.value.at > now then (s, false)
      else (s[k := Entry(Deadline(until), None)], true)
    case Expiring =>
      if held.Some? then (s, false) else (s[k := Entry(Deadline(until), Some(until))], true)
  }

  // ---- The throttle ----------------------------------------------------------------

  predicate IsLockedOut(b: Backend, s: Store, ip: Ip, now: Time) {
    var lease := Get(b, s, Lock(ip), now);
    lease.Some? && lease.value.Deadline? && lease.value.at > now
  }

  /** Count the failure: a window opened by it starts at one, a running window goes up. */
  function Counted(b: Backend, s: Store, ip: Ip, now: Time): (Store, Option<int>) {
    var (s1, claimed) := TryLease(b, s, Window(ip), WINDOW_SECONDS, now);
    if claimed then (SetCount(s1, Fails(ip), 1), Some(1)) else Incr(b, s1, Fails(ip), now)
  }

  function RecordFailure(b: Backend, s: Store, ip: Ip, now: Time): (Store, bool) {
    var (s1, fails) := Counted(b, s, ip, now);
    if fails.None? then (s1, false)
    else
      var s2 := SetTtl(b, s1, Fails(ip), WINDOW_SECONDS, now);
      if fails.value < MAX_FAILS then (s2, false)
      else
        var (s3, locked) := TryLease(b, s2, Lock(ip), LOCKOUT_SECONDS, now);
        (s3 - {Fails(ip), Window(ip)}, locked)
  }

  function RecordSuccess(s: Store, ip: Ip): Store {
    s - {Fails(ip), Window(ip)}
  }

  datatype Call = Failure(ip: Ip, now: Time) | Success(ip: Ip, now: Time) | Check(ip: Ip, now: Time)

  /** The store after the call, and what the call answered (success answers nothing). */
  function Perform(b: Backend, s: Store, c: Call): (Store, bool) {
    match c
    case Failure(ip, now) => RecordFailure(b, s, ip, now)
    case Success(ip, _) => (RecordSuccess(s, ip), false)
    case Check(ip, now) => (s, IsLockedOut(b, s, ip, now))
  }

  // ---- What one address amounts to, whatever the store ---------------------------------

  /** The deadline of a lease that is still running. */
  function Running(b: Backend, s: Store, k: Key, now: Time): Option<Time> {
    match Get(b, s, k, now)
    case Some(Deadline(at)) => if at > now then Some(at) else None
    case _ => None
  }

  /** A running window with the failures in it, and a running lockout. */
  datatype View = View(window: Option<Time>, fails: int, lock: Option<Time>)

  function ViewOf(b: Backend, s: Store, ip: Ip, now: Time): View {
    var w := Running(b, s, Window(ip), now);
    View(w, if w.Some? && Fails(ip) in s && s[Fails(ip)].value.Count? then s[Fails(ip)].value.n else 0,
         Running(b, s, Lock(ip), now))
  }

  /** What a failure does to one address, and whether it trips the lockout. */
  function Failed(v: View, now: Time): (View, bool) {
    if v.fails + 1 < MAX_FAILS
    then (v.(window := Some(if v.window.Some? then v.window.value else now + WINDOW_SECONDS), fails := v.fails + 1),
          false)
    else (View(None, 0, Some(if v.lock.Some? then v.lock.value else now + LOCKOUT_SECONDS)), v.lock.None?)
  }

  /** Keys hold what they should, and a window's counter outlives the window. */
  ghost predicate Tidy(b: Backend, s: Store, ip: Ip, now: Time) {
    && (Lock(ip) in s ==> LeaseShape(b, s[Lock(ip)]))
    && (Window(ip) in s ==>
          && LeaseShape(b, s[Window(ip)]) && s[Window(ip)].value.at <= now + WINDOW_SECONDS
          && Fails(ip) in s && s[Fails(ip)].value.Count? && 1 <= s[Fails(ip)].value.n < MAX_FAILS
          && (b.Expiring? ==> s[Fails(ip)].expires.Some? && s[Fails(ip)].expires.value >= s[Window(ip)].value.at))
  }

  ghost predicate LeaseShape(b: Backend, e: Entry) {
    e.value.Deadline? && (b.Expiring? ==> e.expires == Some(e.value.at))
  }

  ghost predicate AllTidy(b: Backend, s: Store, now: Time) {
    forall ip :: Tidy(b, s, ip, now)
  }

  lemma FailureKeepsOthers(b: Backend, s: Store, ip: Ip, now: Time, other: Ip)
    requires other != ip && Tidy(b, s, other, now)
    ensures Tidy(b, RecordFailure(b, s, ip, now).0, other, now)
    ensures ViewOf(b, RecordFailure(b, s, ip, now).0, other, now) == ViewOf(b, s, other, now)
  {
  }

  lemma FailureSteps(b: Backend, s: Store, ip: Ip, now: Time)
    requires Tidy(b, s, ip, now)
    ensures
      var (s', tripped) := RecordFailure(b, s, ip, now);
      Tidy(b, s', ip, now) && (ViewOf(b, s', ip, now), tripped) == Failed(ViewOf(b, s, ip, now), now)
  {
  }

  /** A call moves the address it names as the reference says and leaves every other alone. */
  lemma CallRefinesView(b: Backend, s: Store, c: Call, ip: Ip)
    requires AllTidy(b, s, c.now)
    ensures AllTidy(b, Perform(b, s, c).0, c.now)
    ensures
      var (s', answer) := Perform(b, s, c);
      var v := ViewOf(b, s, ip, c.now);
      if c.ip != ip || c.Check? then
        ViewOf(b, s', ip, c.now) == v && (c.Check? ==> answer == ViewOf(b, s, c.ip, c.now).lock.Some?)
      else if c.Success? then ViewOf(b, s', ip, c.now) == View(None, 0, v.lock)
      else (ViewOf(b, s', ip, c.now), answer) == Failed(v, c.now)
  {
    var s' := Perform(b, s, c).0;
    assert Tidy(b, s, c.ip, c.now) && Tidy(b, s, ip, c.now);
    if c.Failure? { FailureSteps(b, s, c.ip, c.now); }
    forall i ensures Tidy(b, s', i, c.now) && (i != c.ip ==> ViewOf(b, s', i, c.now) == ViewOf(b, s, i, c.now)) {
      assert Tidy(b, s, i, c.now);
      if c.Failure? && i != c.ip { FailureKeepsOthers(b, s, c.ip, c.now, i); }
    }
  }

  // ---- Both backends behave alike ------------------------------------------------------

  predicate Ordered(calls: seq<Call>) {
    forall i, j :: 0 <= i < j < |calls| ==> calls[i].now <= calls[j].now
  }

  /** The store and the answers of a run of calls. */
  function Run(b: Backend, s: Store, calls: seq<Call>): (Store, seq<bool>)
    decreases |calls|
  {
    if calls == [] then (s, [])
    else
      var (s1, answers) := Run(b, s, calls[..|calls| - 1]);
      var (s2, answer) := Perform(b, s1, calls[|calls| - 1]);
      (s2, answers + [answer])
  }

  /** The reference: one address seen through a run of calls. */
  function Aged(v: View, now: Time): View {
    var w := if v.window.Some? && v.window.value > now then v.window else None;
    View(w, if w.Some? then v.fails else 0, if v.lock.Some? && v.lock.value > now then v.lock else None)
  }

  lemma ViewAges(b: Backend, s: Store, ip: Ip, now: Time, later: Time)
    requires Tidy(b, s, ip, now) && now <= later
    ensures Tidy(b, s, ip, later) && ViewOf(b, s, ip, later) == Aged(ViewOf(b, s, ip, now), later)
  {
  }

  function Reference(calls: seq<Call>, ip: Ip): View
    decreases |calls|
  {
    if calls == [] then View(None, 0, None)
    else
      var c := calls[|calls| - 1];
      var v := Aged(Reference(calls[..|calls| - 1], ip), c.now);
      if c.ip != ip || c.Check? then v else if c.Success? then View(None, 0, v.lock) else Failed(v, c.now).0
  }

  function Answer(calls: seq<Call>): bool
    requires calls != []
  {
    var c := calls[|calls| - 1];
    var v := Aged(Reference(calls[..|calls| - 1], c.ip), c.now);
    match c
    case Failure(_, now) => Failed(v, now).1
    case Success(_, _) => false
    case Check(_, _) => v.lock.Some?
  }

  /** On either store, a run leaves each address as the reference has it and answers as the
      reference does. */
  lemma {:induction false} RunIsReference(b: Backend, calls: seq<Call>, ip: Ip)
    requires Ordered(calls)
    ensures calls != [] ==> AllTidy(b, Run(b, map[], calls).0, calls[|calls| - 1].now)
    ensures calls != [] ==> ViewOf(b, Run(b, map[], calls).0, ip, calls[|calls| - 1].now) == Reference(calls, ip)
    ensures calls != [] ==> Run(b, map[], calls).1[|Run(b, map[], calls).1| - 1] == Answer(calls)
    decreases |calls|
  {
    if calls != [] {
      var before, c := calls[..|calls| - 1], calls[|calls| - 1];
      var s := Run(b, map[], before).0;
      RunIsReference(b, before, ip);
      RunIsReference(b, before, c.ip);
      forall i ensures Tidy(b, s, i, c.now) {
        if before != [] {
          assert Tidy(b, s, i, before[|before| - 1].now);
          ViewAges(b, s, i, before[|before| - 1].now, c.now);
        }
      }
      if before != [] {
        ViewAges(b, s, ip, before[|before| - 1].now, c.now);
        ViewAges(b, s, c.ip, before[|before| - 1].now, c.now);
      }
      CallRefinesView(b, s, c, ip);
      CallRefinesView(b, s, c, c.ip);
    }
  }

  /** For any clocked sequence of calls the two stores give identical answers. */
  lemma {:induction false} BackendsBisimilar(calls: seq<Call>)
    requires Ordered(calls)
    ensures Run(InMemory, map[], calls).1 == Run(Expiring, map[], calls).1
    decreases |calls|
  {
    if calls != [] {
      BackendsBisimilar(calls[..|calls| - 1]);
      RunIsReference(InMemory, calls, 0);
      RunIsReference(Expiring, calls, 0);
    }
  }

  // ---- What the counter and the lock mean -------------------------------------------------

  function Failures(calls: seq<Call>, ip: Ip): nat
    decreases |calls|
  {
    if calls == [] then 0
    else
      var last := calls[|calls| - 1];
      Failures(calls[..|calls| - 1], ip) + if last.Failure? && last.ip == ip then 1 else 0
  }

  /** Call `k` opened a window that nothing has closed since. */
  ghost predicate OpenSince(calls: seq<Call>, ip: Ip, k: nat) {
    && k < |calls| && calls[k].Failure? && calls[k].ip == ip
    && (forall i :: k <= i < |calls| ==>
          !(calls[i].Success? && calls[i].ip == ip) && calls[i].now < calls[k].now + WINDOW_SECONDS)
  }

  /** While a window runs, the counter is the number of failures since it opened, and below the limit. */
  lemma {:induction false} WindowCountsFailures(calls: seq<Call>, ip: Ip) returns (k: nat)
    requires calls != [] && Reference(calls, ip).window.Some?
    ensures OpenSince(calls, ip, k) && Reference(calls, ip).window.value == calls[k].now + WINDOW_SECONDS
    ensures Reference(calls, ip).fails == Failures(calls[k..], ip) && 1 <= Reference(calls, ip).fails < MAX_FAILS
    decreases |calls|
  {
    var n := |calls| - 1;
    var before, c := calls[..n], calls[n];
    NoWindowNoFails(before, ip);
    var v := Aged(Reference(before, ip), c.now);
    if v.window.None? {
      k := n;
      assert calls[k..] == [c] && [c][..0] == [];
    } else {
      k := WindowCountsFailures(before, ip);
      assert calls[k..][..n - k] == before[k..];
      assert forall i :: k <= i < n ==> calls[i] == before[i];
      assert c == calls[k..][n - k];
    }
  }

  lemma NoWindowNoFails(calls: seq<Call>, ip: Ip)
    ensures Reference(calls, ip).window.None? ==> Reference(calls, ip).fails == 0
  {
  }

  /** Call `k` tripped a lockout of `ip` that still holds at `now`. */
  ghost predicate LockedBy(calls: seq<Call>, ip: Ip, k: int, now: Time) {
    && 0 <= k < |calls| && calls[k].Failure? && calls[k].ip == ip && Answer(calls[..k + 1])
    && now < calls[k].now + LOCKOUT_SECONDS
  }

  lemma LockStep(calls: seq<Call>, ip: Ip, now: Time)
    requires calls != [] && calls[|calls| - 1].now <= now
    ensures
      var before, c := calls[..|calls| - 1], calls[|calls| - 1];
      Aged(Reference(calls, ip), now).lock.Some? <==>
        || Aged(Reference(before, ip), now).lock.Some?
        || (c.Failure? && c.ip == ip && Answer(calls) && now < c.now + LOCKOUT_SECONDS)
  {
    NoWindowNoFails(calls[..|calls| - 1], ip);
  }

  lemma LockedByStep(calls: seq<Call>, ip: Ip, now: Time)
    requires calls != []
    ensures
      var before, c := calls[..|calls| - 1], calls[|calls| - 1];
      (exists k :: LockedBy(calls, ip, k, now)) <==>
        || (exists k :: LockedBy(before, ip, k, now))
        || (c.Failure? && c.ip == ip && Answer(calls) && now < c.now + LOCKOUT_SECONDS)
  {
    var n := |calls| - 1;
    var before, c := calls[..n], calls[n];
    assert calls[..n + 1] == calls;
    assert LockedBy(calls, ip, n, now) <==> c.Failure? && c.ip == ip && Answer(calls) && now < c.now + LOCKOUT_SECONDS;
    forall k | 0 <= k < n ensures LockedBy(calls, ip, k, now) <==> LockedBy(before, ip, k, now) {
      assert calls[..k + 1] == before[..k + 1];
    }
    if k :| LockedBy(before, ip, k, now) { assert LockedBy(calls, ip, k, now); }
    if k :| LockedBy(calls, ip, k, now) { assert k < n ==> LockedBy(before, ip, k, now); }
  }

  lemma {:induction false} LockIsLatestTrip(calls: seq<Call>, ip: Ip, now: Time)
    requires Ordered(calls) && (calls == [] || calls[|calls| - 1].now <= now)
    ensures Aged(Reference(calls, ip), now).lock.Some? <==> exists k :: LockedBy(calls, ip, k, now)
    decreases |calls|
  {
    if calls != [] {
      LockIsLatestTrip(calls[..|calls| - 1], ip, now);
      LockStep(calls, ip, now);
      LockedByStep(calls, ip, now);
    }
  }

  lemma RunAt(b: Backend, calls: seq<Call>, ip: Ip, now: Time)
    requires Ordered(calls) && (calls == [] || calls[|calls| - 1].now <= now)
    ensures ViewOf(b, Run(b, map[], calls).0, ip, now) == Aged(Reference(calls, ip), now)
  {
    RunIsReference(b, calls, ip);
    if calls != [] {
      ViewAges(b, Run(b, map[], calls).0, ip, calls[|calls| - 1].now, now);
    }
  }

  /** On either store, an address is locked out exactly for the minute after a failure that
      reported tripping the lockout. */
  lemma LockedOutMeans(b: Backend, calls: seq<Call>, ip: Ip, now: Time)
    requires Ordered(calls) && (calls == [] || calls[|calls| - 1].now <= now)
    ensures IsLockedOut(b, Run(b, map[], calls).0, ip, now) <==> exists k :: LockedBy(calls, ip, k, now)
  {
    RunAt(b, calls, ip, now);
    LockIsLatestTrip(calls, ip, now);
  }

  /** A failure leaves its address locked out if and only if it is the fifth since its window
      opened or a lockout was already running, and it changes no other address. */
  lemma FifthFailureLocks(b: Backend, before: seq<Call>, ip: Ip, now: Time, other: Ip)
    requires Ordered(before) && (before == [] || before[|before| - 1].now <= now)
    ensures
      var s, s' := Run(b, map[], before).0, Run(b, map[], before + [Failure(ip, now)]).0;
      && (IsLockedOut(b, s', ip, now) <==>
            Aged(Reference(before, ip), now).fails == MAX_FAILS - 1 || IsLockedOut(b, s, ip, now))
      && (other != ip ==> IsLockedOut(b, s', other, now) == IsLockedOut(b, s, other, now))
  {
    var calls := before + [Failure(ip, now)];
    assert calls[..|before|] == before;
    RunAt(b, calls, ip, now);
    RunAt(b, calls, other, now);
    RunAt(b, before, ip, now);
    RunAt(b, before, other, now);
    AtMostFour(before, ip);
  }

  lemma AtMostFour(calls: seq<Call>, ip: Ip)
    ensures 0 <= Reference(calls, ip).fails < MAX_FAILS
  {
    NoWindowNoFails(calls, ip);
    if calls != [] && Reference(calls, ip).window.Some? { var _ := WindowCountsFailures(calls, ip); }
  }

  /** Failures of one address at these times. */
  function FailuresAt(ip: Ip, times: seq<Time>): (calls: seq<Call>)
    ensures |calls| == |times| && forall i :: 0 <= i < |times| ==> calls[i] == Failure(ip, times[i])
  {
    seq(|times|, i requires 0 <= i < |times| => Failure(ip, times[i]))
  }

  predicate WithinAMinute(times: seq<Time>) {
    && (forall i, j :: 0 <= i < j < |times| ==> times[i] <= times[j])
    && (times != [] ==> times[|times| - 1] < times[0] + 60)
  }

  lemma {:induction false} BurstCounts(ip: Ip, times: seq<Time>)
    requires 1 <= |times| <= 5 && WithinAMinute(times)
    ensures Reference(FailuresAt(ip, times), ip) ==
      if |times| < 5 then View(Some(times[0] + 60), |times|, None) else View(None, 0, Some(times[4] + 60))
    decreases |times|
  {
    var n := |times| - 1;
    var calls := FailuresAt(ip, times);
    assert calls[..n] == FailuresAt(ip, times[..n]);
    if n > 0 {
      BurstCounts(ip, times[..n]);
    } else {
      assert calls[..0] == [];
    }
  }

  /** In figures: on either store, up to four failures within a minute lock nobody out, and a fifth locks
      its address out for the sixty seconds that follow. */
  lemma FiveInAMinuteLock(b: Backend, ip: Ip, times: seq<Time>, now: Time)
    requires 1 <= |times| <= 5 && WithinAMinute(times) && times[|times| - 1] <= now
    ensures IsLockedOut(b, Run(b, map[], FailuresAt(ip, times)).0, ip, now) <==> |times| == 5 && now < times[4] + 60
  {
    BurstCounts(ip, times);
    RunAt(b, FailuresAt(ip, times), ip, now);
  }

  // ---- The service ------------------------------------------------------------------------

  class LoginThrottle {
    const backend: Backend
    var keys: Store

    constructor (backend: Backend)
      ensures this.backend == backend && keys == map[]
    {
      this.backend := backend;
      keys := map[];
    }

    method LockedOut(ip: Ip, now: Time) returns (r: bool)
      ensures r == IsLockedOut(backend, keys, ip, now)
    {
      var raw := Get(backend, keys, Lock(ip), now);
      match raw {
        case Some(Deadline(until)) => r := until > now;
        case _ => r := false;
      }
    }

    method Fail(ip: Ip, now: Time) returns (tripped: bool)
      modifies this`keys
      ensures (keys, tripped) == RecordFailure(backend, old(keys), ip, now)
    {
      var (leased, isNew) := TryLease(backend, keys, Window(ip), WINDOW_SECONDS, now);
      keys := leased;
      var fails := 1;
      if isNew {
        keys := SetCount(keys, Fails(ip), 1);
      } else {
        var (counted, n) := Incr(backend, keys, Fails(ip), now);
        keys := counted;
        if n.None? {
          return false;
        }
        fails := n.value;
      }
      keys := SetTtl(backend, keys, Fails(ip), WINDOW_SECONDS, now);
      if fails < MAX_FAILS {
        return false;
      }
      var (locked, newlyLocked) := TryLease(backend, keys, Lock(ip), LOCKOUT_SECONDS, now);
      keys := locked - {Fails(ip)};
      keys := keys - {Window(ip)};
      assert keys == locked - {Fails(ip), Window(ip)};
      tripped := newlyLocked;
    }

    method Succeed(ip: Ip)
      modifies this`keys
      ensures keys == RecordSuccess(old(keys), ip)
    {
      keys := keys - {Fails(ip)};
      keys := keys - {Window(ip)};
      assert keys == RecordSuccess(old(keys), ip);
    }
  }
}
