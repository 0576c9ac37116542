/** What the bucket operations compute: laws between operations, and over runs of them. */
module StoreLaws {
  import opened Wrappers
  import opened KeyStore

  // ---- Numbers as text ----------------------------------------------------------------

  predicate IsDigit(c: char) { '0' <= c <= '9' }

  function DigitOf(c: char): int
    requires IsDigit(c)
  {
    c as int - '0' as int
  }

  function Power(n: nat): nat { if n == 0 then 1 else 10 * Power(n - 1) }

  /** A digit string is its first digit at its place, and the rest. */
  lemma {:induction false} DigitsByPlace(c: char, s: string)
    ensures DigitsValue([c] + s) ==
      if IsDigit(c) && DigitsValue(s).Some? then Some(DigitOf(c) * Power(|s|) + DigitsValue(s).value) else None
    decreases |s|
  {
    var all := [c] + s;
    if s == [] {
      assert all[..0] == [];
      assert DigitsValue(all[..0]) == Some(0);
    } else {
      var n := |s| - 1;
      assert all[..|all| - 1] == [c] + s[..n] && all[|all| - 1] == s[n];
      DigitsByPlace(c, s[..n]);
      if IsDigit(c) && DigitsValue(s[..n]).Some? {
        PlaceMoves(DigitOf(c), Power(n), DigitsValue(s[..n]).value);
      }
    }
  }

  lemma PlaceMoves(d: int, p: int, rest: int)
    ensures 10 * (d * p + rest) == d * (10 * p) + 10 * rest
  {
  }

  lemma {:induction false} NatTextReads(n: nat)
    ensures NatText(n) != [] && IsDigit(NatText(n)[0]) && DigitsValue(NatText(n)) == Some(n)
    decreases n
  {
    var c := ('0' as int + n % 10) as char;
    if n < 10 {
      assert NatText(n) == [c] && [c][..0] == [];
      assert DigitsValue([c][..0]) == Some(0);
    } else {
      NatTextReads(n / 10);
      var text := NatText(n);
      assert text[..|text| - 1] == NatText(n / 10) && text[|text| - 1] == c;
    }
  }

  /** What is written of a 64-bit number reads back as that number. */
  lemma IntTextReads(n: int)
    requires I64_MIN <= n <= I64_MAX
    ensures ParseI64(IntText(n)) == Some(n)
  {
    NatTextReads(if n < 0 then -n else n);
    var text := IntText(n);
    if n < 0 {
      assert text[1..] == NatText(-n);
    }
  }

  function Unsigned(s: string): string {
    if s != [] && (s[0] == '-' || s[0] == '+') then s[1..] else s
  }

  /** A text reads as `n` exactly if it is an optional sign and digits whose signed value is `n`, in range. */
  lemma ParseReads(s: string, n: int)
    ensures ParseI64(s) == Some(n) <==>
      && Unsigned(s) != [] && DigitsValue(Unsigned(s)).Some? && I64_MIN <= n <= I64_MAX
      && n == DigitsValue(Unsigned(s)).value * if s[0] == '-' then -1 else 1
  {
  }

  // ---- Which operations fail ---------------------------------------------------------------

  /** The kind of value an operation works on; `Put` and `Delete` take any. */
  function Wants(op: Op): Option<string> {
    match op
    case Get(_) => Some("bytes")
    case Incr(_, _) => Some("bytes")
    case ListPush(_, _) => Some("list")
    case ListPop(_) => Some("list")
    case ListRange(_, _, _) => Some("list")
    case ListLength(_) => Some("list")
    case HashGet(_, _) => Some("hash")
    case HashPut(_, _, _) => Some("hash")
    case HashDelete(_, _) => Some("hash")
    case HashKeys(_) => Some("hash")
    case SetAdd(_, _) => Some("set")
    case SetRemove(_, _) => Some("set")
    case SetContains(_, _) => Some("set")
    case _ => None
  }

  function At(s: Store, p: string, op: Op): Option<Value>
    requires !op.ListKeys?
  {
    Lookup(s, p + op.key)
  }

  predicate Suits(at: Option<Value>, op: Op) {
    at.Some? && Wants(op).Some? ==> Kind(at.value) == Wants(op).value
  }

  lemma KindsDiffer()
    ensures "bytes" != "list" && "bytes" != "hash" && "bytes" != "set"
    ensures "list" != "hash" && "list" != "set" && "hash" != "set"
  {
    assert "bytes"[0] == 'b' && "list"[0] == 'l' && "hash"[0] == 'h' && "set"[0] == 's';
  }

  function Ask(s: Store, p: string, op: Op): Answer { Exec(s, p, op).1 }

  function After(s: Store, p: string, op: Op): Store { Exec(s, p, op).0 }

  lemma KeyStripped(p: string, key: string)
    ensures StripPrefix(p + key, p) == key
  {
  }

  lemma SameStore(s: Store, p: string, op: Op)
    requires !op.ListKeys? && AtKey(At(s, p, op), op, op.key).0 == At(s, p, op)
    ensures After(s, p, op) == s
  {
    KeyStripped(p, op.key);
    var fk := p + op.key;
    assert fk in s ==> s[fk := s[fk]] == s;
    assert fk !in s ==> s - {fk} == s;
  }

  /** An operation meets a value of another kind exactly if it answers so, naming the caller's key and
      both kinds; an increment can also fail on its number; whatever fails changes nothing. */
  lemma FailuresMean(s: Store, p: string, op: Op)
    requires !op.ListKeys?
    ensures !Suits(At(s, p, op), op) <==> Ask(s, p, op).Failed? && Ask(s, p, op).fault.WrongType?
    ensures !Suits(At(s, p, op), op) ==>
      Ask(s, p, op) == Failed(WrongType(op.key, Kind(At(s, p, op).value), Wants(op).value))
    ensures Ask(s, p, op).Failed? && Suits(At(s, p, op), op) ==> op.Incr?
    ensures Ask(s, p, op).Failed? ==> After(s, p, op) == s
  {
    KeyStripped(p, op.key);
    KindsDiffer();
    if Ask(s, p, op).Failed? {
      SameStore(s, p, op);
    }
  }

  /** No operation touches another key. */
  lemma OthersUntouched(s: Store, p: string, op: Op, key: string)
    requires op.ListKeys? || p + op.key != key
    ensures Lookup(After(s, p, op), key) == Lookup(s, key)
  {
  }

  predicate Reads(op: Op) {
    op.Get? || op.ListKeys? || op.ListRange? || op.ListLength? || op.HashGet? || op.HashKeys? || op.SetContains?
  }

  lemma ReadsLeaveAll(s: Store, p: string, op: Op)
    requires Reads(op)
    ensures After(s, p, op) == s
  {
    if !op.ListKeys? {
      KeyStripped(p, op.key);
      SameStore(s, p, op);
    }
  }

  // ---- Values, hashes and sets ----------------------------------------------------------------

  /** A get answers the last put; nothing is left of what a delete or a put found. */
  lemma PutGet(s: Store, p: string, key: string, value: string)
    ensures Ask(s, p, Put(key, value)) == Done && Ask(After(s, p, Put(key, value)), p, Get(key)) == Found(Some(value))
    ensures Lookup(After(s, p, Delete(key)), p + key).None? && Ask(s, p, Delete(key)) == Done
  {
  }

  /** What each reading answers on a missing key. */
  lemma MissingReads(s: Store, p: string, op: Op)
    requires Reads(op) && !op.ListKeys? && At(s, p, op).None?
    ensures Ask(s, p, op) ==
      if op.Get? || op.HashGet? then Found(None)
      else if op.ListRange? then Range([])
      else if op.ListLength? then Number(0)
      else if op.HashKeys? then Names({})
      else Flag(false)
  {
  }

  predicate Usable(s: Store, p: string, op: Op)
    requires !op.ListKeys?
  {
    Suits(At(s, p, op), op)
  }

  /** After a hash put the field reads what was put and the others what they read. */
  lemma HashPutGet(s: Store, p: string, key: string, f: string, v: string, g: string)
    requires Usable(s, p, HashPut(key, f, v))
    ensures
      var s' := After(s, p, HashPut(key, f, v));
      && Ask(s, p, HashPut(key, f, v)) == Done && Usable(s', p, HashGet(key, g))
      && Ask(s', p, HashGet(key, g)) == if g == f then Found(Some(v)) else Ask(s, p, HashGet(key, g))
  {
    KindsDiffer();
  }

  lemma HashDeleteGet(s: Store, p: string, key: string, f: string, g: string)
    requires Usable(s, p, HashDelete(key, f))
    ensures
      var s' := After(s, p, HashDelete(key, f));
      && Ask(s, p, HashDelete(key, f)) == Done && Usable(s', p, HashGet(key, g))
      && Ask(s', p, HashGet(key, g)) == if g == f then Found(None) else Ask(s, p, HashGet(key, g))
  {
    KindsDiffer();
  }

  /** The listed fields are those a get finds. */
  lemma HashKeysFind(s: Store, p: string, key: string, f: string)
    requires Usable(s, p, HashKeys(key))
    ensures Ask(s, p, HashKeys(key)).Names?
    ensures f in Ask(s, p, HashKeys(key)).names <==>
      Ask(s, p, HashGet(key, f)).Found? && Ask(s, p, HashGet(key, f)).value.Some?
  {
    KindsDiffer();
  }

  lemma SetAddContains(s: Store, p: string, key: string, m: string, x: string)
    requires Usable(s, p, SetAdd(key, m))
    ensures
      var s' := After(s, p, SetAdd(key, m));
      && Ask(s, p, SetAdd(key, m)) == Done && Usable(s', p, SetContains(key, x))
      && Ask(s', p, SetContains(key, x)) == if x == m then Flag(true) else Ask(s, p, SetContains(key, x))
  {
    KindsDiffer();
  }

  lemma SetRemoveContains(s: Store, p: string, key: string, m: string, x: string)
    requires Usable(s, p, SetRemove(key, m))
    ensures
      var s' := After(s, p, SetRemove(key, m));
      && Ask(s, p, SetRemove(key, m)) == Done && Usable(s', p, SetContains(key, x))
      && Ask(s', p, SetContains(key, x)) == if x == m then Flag(false) else Ask(s, p, SetContains(key, x))
  {
    KindsDiffer();
  }

  /** The listed names are those of the keys under the prefix, asked for by their own prefix. */
  lemma ListKeysMeans(s: Store, p: string, within: Option<string>, name: string)
    ensures Ask(s, p, ListKeys(within)).Names?
    ensures name in Ask(s, p, ListKeys(within)).names <==>
      p + name in s && (within.Some? ==> within.value <= name)
  {
    var w := if within.Some? then within.value else "";
    if p + name in s && w <= name {
      var fk := p + name;
      assert fk[..|p + w|] == p + w by { assert name[..|w|] == w; }
      assert StripPrefix(fk, p) == name;
    }
    if name in Listed(s, p, w) {
      var fk :| fk in s && p + w <= fk && StripPrefix(fk, p) == name;
      assert fk[..|p|] == p && fk == p + name;
      assert name[..|w|] == w;
    }
  }

  // ---- Counters ---------------------------------------------------------------------------------

  function Sum(deltas: seq<int>): int {
    if deltas == [] then 0 else Sum(deltas[..|deltas| - 1]) + deltas[|deltas| - 1]
  }

  type CounterSteps = (Store, int) -> (Store, Answer)

  function IncrOn(p: string, key: string): CounterSteps {
    (s, delta) => Exec(s, p, Incr(key, delta))
  }

  function CountedBy(step: CounterSteps, s: Store, deltas: seq<int>): (Store, seq<Answer>)
    decreases |deltas|
  {
    if deltas == [] then (s, [])
    else
      var (s', answers) := CountedBy(step, s, deltas[..|deltas| - 1]);
      var (s'', answer) := step(s', deltas[|deltas| - 1]);
      (s'', answers + [answer])
  }

  /** The store and the answers after these increments of the key. */
  function Counted(s: Store, p: string, key: string, deltas: seq<int>): (Store, seq<Answer>) {
    CountedBy(IncrOn(p, key), s, deltas)
  }

  predicate InRange(n: int) { I64_MIN <= n <= I64_MAX }

  /** The key holds that number, or nothing, which counts as zero. */
  predicate Holds(s: Store, p: string, key: string, n: int) {
    (n == 0 && Lookup(s, p + key).None?) || Lookup(s, p + key) == Some(Bytes(IntText(n)))
  }

  /** One increment: the sum if it is in range, and otherwise a fault and no change. */
  lemma IncrAdds(s: Store, p: string, key: string, n: int, delta: int)
    requires Holds(s, p, key, n) && InRange(n) && InRange(delta)
    ensures InRange(n + delta) ==>
      Ask(s, p, Incr(key, delta)) == Number(n + delta) && Holds(After(s, p, Incr(key, delta)), p, key, n + delta)
    ensures !InRange(n + delta) ==>
      Ask(s, p, Incr(key, delta)) == Failed(IncrOverflow(key)) && After(s, p, Incr(key, delta)) == s
  {
    IntTextReads(n);
    KeyStripped(p, key);
    if !InRange(n + delta) {
      SameStore(s, p, Incr(key, delta));
    }
  }

  /** The sum after the first `i` increments. */
  function Running(start: int, deltas: seq<int>, i: nat): int
    requires i <= |deltas|
  {
    start + Sum(deltas[..i])
  }

  lemma RunningEarlier(start: int, deltas: seq<int>, i: nat)
    requires deltas != [] && i < |deltas|
    ensures Running(start, deltas[..|deltas| - 1], i) == Running(start, deltas, i)
    ensures Running(start, deltas, |deltas|) == Running(start, deltas, |deltas| - 1) + deltas[|deltas| - 1]
  {
    assert deltas[..|deltas| - 1][..i] == deltas[..i] && deltas[..|deltas|] == deltas;
  }

  /** From a store that holds a number, a step that stays in range answers the sum and leaves it. */
  ghost predicate StepAdds(step: CounterSteps, holds: (Store, int) -> bool, s: Store, n: int, delta: int) {
    holds(s, n) && InRange(n) && InRange(delta) && InRange(n + delta) ==>
      step(s, delta).1 == Number(n + delta) && holds(step(s, delta).0, n + delta)
  }

  ghost predicate StepsAdd(step: CounterSteps, holds: (Store, int) -> bool) {
    forall s, n, delta :: StepAdds(step, holds, s, n, delta)
  }

  lemma {:induction false} CountedAddsUp(step: CounterSteps, holds: (Store, int) -> bool, s: Store, start: int,
                                         deltas: seq<int>)
    requires StepsAdd(step, holds) && holds(s, start)
    requires forall d :: d in deltas ==> InRange(d)
    requires forall i :: 0 <= i <= |deltas| ==> InRange(Running(start, deltas, i))
    ensures
      var (s', answers) := CountedBy(step, s, deltas);
      && holds(s', Running(start, deltas, |deltas|)) && |answers| == |deltas|
      && forall i :: 0 < i <= |deltas| ==> answers[i - 1] == Number(Running(start, deltas, i))
    decreases |deltas|
  {
    if deltas == [] {
      assert deltas[..0] == [];
    } else {
      var n := |deltas| - 1;
      forall i | 0 <= i <= n ensures Running(start, deltas[..n], i) == Running(start, deltas, i) {
        RunningEarlier(start, deltas, i);
      }
      CountedAddsUp(step, holds, s, start, deltas[..n]);
      RunningEarlier(start, deltas, n);
      assert StepAdds(step, holds, CountedBy(step, s, deltas[..n]).0, Running(start, deltas, n), deltas[n]);
    }
  }

  function HoldsAt(p: string, key: string): (Store, int) -> bool {
    (s, n) => Holds(s, p, key, n)
  }

  lemma IncrStep(p: string, key: string, s: Store, n: int, delta: int)
    ensures StepAdds(IncrOn(p, key), HoldsAt(p, key), s, n, delta)
  {
    if Holds(s, p, key, n) && InRange(n) && InRange(delta) && InRange(n + delta) {
      IncrAdds(s, p, key, n, delta);
      assert IncrOn(p, key)(s, delta) == (After(s, p, Incr(key, delta)), Ask(s, p, Incr(key, delta)));
    }
  }

  lemma IncrSteps(p: string, key: string)
    ensures StepsAdd(IncrOn(p, key), HoldsAt(p, key))
  {
    forall s, n, delta ensures StepAdds(IncrOn(p, key), HoldsAt(p, key), s, n, delta) {
      IncrStep(p, key, s, n, delta);
    }
  }

  /** Any run of increments whose running sums stay in range answers the running sums. */
  lemma IncrementsAddUp(s: Store, p: string, key: string, start: int, deltas: seq<int>)
    requires Holds(s, p, key, start)
    requires forall d :: d in deltas ==> InRange(d)
    requires forall i :: 0 <= i <= |deltas| ==> InRange(Running(start, deltas, i))
    ensures
      var (s', answers) := Counted(s, p, key, deltas);
      && Holds(s', p, key, Running(start, deltas, |deltas|)) && |answers| == |deltas|
      && forall i :: 0 < i <= |deltas| ==> answers[i - 1] == Number(Running(start, deltas, i))
  {
    IncrSteps(p, key);
    CountedAddsUp(IncrOn(p, key), HoldsAt(p, key), s, start, deltas);
  }

  /** What does not read as a number is refused. */
  lemma IncrRefuses(s: Store, p: string, key: string, text: string, delta: int)
    requires Lookup(s, p + key) == Some(Bytes(text))
    ensures ParseI64(text).None? <==> Ask(s, p, Incr(key, delta)) == Failed(NotInteger(key))
  {
    KeyStripped(p, key);
  }

  // ---- Queues -----------------------------------------------------------------------------------

  datatype QueueOp = Push(value: string) | Pop

  function AsOp(key: string, q: QueueOp): Op {
    match q
    case Push(value) => ListPush(key, value)
    case Pop => ListPop(key)
  }

  type QueueSteps = (Store, QueueOp) -> (Store, Answer)

  function StepsOn(p: string, key: string): QueueSteps {
    (s, q) => Exec(s, p, AsOp(key, q))
  }

  function QueuedBy(step: QueueSteps, s: Store, ops: seq<QueueOp>): (Store, seq<Answer>)
    decreases |ops|
  {
    if ops == [] then (s, [])
    else
      var (s', answers) := QueuedBy(step, s, ops[..|ops| - 1]);
      var (s'', answer) := step(s', ops[|ops| - 1]);
      (s'', answers + [answer])
  }

  /** The store and the answers after these operations on the list at the key. */
  function Queued(s: Store, p: string, key: string, ops: seq<QueueOp>): (Store, seq<Answer>) {
    QueuedBy(StepsOn(p, key), s, ops)
  }

  function Pushed(ops: seq<QueueOp>): seq<string>
    decreases |ops|
  {
    if ops == [] then []
    else
      var last := ops[|ops| - 1];
      Pushed(ops[..|ops| - 1]) + if last.Push? then [last.value] else []
  }

  /** The values the pops gave. */
  function Popped(answers: seq<Answer>): seq<string>
    decreases |answers|
  {
    if answers == [] then []
    else
      var last := answers[|answers| - 1];
      Popped(answers[..|answers| - 1]) + if last.Found? && last.value.Some? then [last.value.value] else []
  }

  function Waiting(s: Store, p: string, key: string): seq<string> {
    if p + key in s && s[p + key].Items? then s[p + key].items else []
  }

  predicate IsQueue(s: Store, p: string, key: string) {
    p + key in s ==> s[p + key].Items?
  }

  lemma QueueStep(s: Store, p: string, key: string, q: QueueOp)
    requires IsQueue(s, p, key)
    ensures
      var (s', answer) := Exec(s, p, AsOp(key, q));
      && IsQueue(s', p, key)
      && match q
         case Push(v) => answer == Done && Waiting(s', p, key) == Waiting(s, p, key) + [v]
         case Pop =>
           if Waiting(s, p, key) == [] then answer == Found(None) && Waiting(s', p, key) == []
           else answer == Found(Some(Waiting(s, p, key)[0])) && Waiting(s', p, key) == Waiting(s, p, key)[1..]
  {
  }

  /** One more operation, on what was popped, waits and was pushed before it. */
  lemma FifoStep(q: QueueOp, answer: Answer, popped: seq<string>, was: seq<string>, now: seq<string>)
    requires q.Push? ==> answer == Done && now == was + [q.value]
    requires q.Pop? && was == [] ==> answer == Found(None) && now == []
    requires q.Pop? && was != [] ==> answer == Found(Some(was[0])) && now == was[1..]
    ensures
      var gave := if answer.Found? && answer.value.Some? then [answer.value.value] else [];
      popped + gave + now == popped + was + if q.Push? then [q.value] else []
  {
    if q.Pop? && was != [] { assert was == [was[0]] + was[1..]; }
  }

  lemma OneMoreAnswer(answers: seq<Answer>, answer: Answer)
    ensures Popped(answers + [answer]) ==
      Popped(answers) + if answer.Found? && answer.value.Some? then [answer.value.value] else []
  {
    assert (answers + [answer])[..|answers|] == answers;
  }

  ghost predicate StepsAsQueue(step: QueueSteps, waiting: Store -> Option<seq<string>>) {
    forall s, q {:trigger step(s, q)} :: waiting(s).Some? ==>
      var (s', answer) := step(s, q);
      waiting(s').Some? && StepIs(q, answer, waiting(s).value, waiting(s').value)
  }

  predicate StepIs(q: QueueOp, answer: Answer, was: seq<string>, now: seq<string>) {
    match q
    case Push(v) => answer == Done && now == was + [v]
    case Pop =>
      if was == [] then answer == Found(None) && now == [] else answer == Found(Some(was[0])) && now == was[1..]
  }

  lemma {:induction false} QueuedIsFifo(step: QueueSteps, waiting: Store -> Option<seq<string>>, s: Store,
                                        ops: seq<QueueOp>)
    requires StepsAsQueue(step, waiting) && waiting(s) == Some([])
    ensures
      var (s', answers) := QueuedBy(step, s, ops);
      && waiting(s').Some? && |answers| == |ops| && Popped(answers) + waiting(s').value == Pushed(ops)
      && (forall i :: 0 <= i < |ops| && ops[i].Push? ==> answers[i] == Done)
    decreases |ops|
  {
    if ops != [] {
      var n := |ops| - 1;
      QueuedIsFifo(step, waiting, s, ops[..n]);
      var (s1, answers) := QueuedBy(step, s, ops[..n]);
      var (s2, answer) := step(s1, ops[n]);
      OneMoreAnswer(answers, answer);
      FifoStep(ops[n], answer, Popped(answers), waiting(s1).value, waiting(s2).value);
    }
  }

  function WaitingAt(p: string, key: string): Store -> Option<seq<string>> {
    s => if IsQueue(s, p, key) then Some(Waiting(s, p, key)) else None
  }

  /** First in, first out, nothing lost: over any run from a missing key, what the pops gave, and then
      what is waiting, is what was pushed, in order; a push always succeeds. */
  lemma QueuesAreFifo(s: Store, p: string, key: string, ops: seq<QueueOp>)
    requires p + key !in s
    ensures
      var (s', answers) := Queued(s, p, key, ops);
      && IsQueue(s', p, key) && |answers| == |ops|
      && Popped(answers) + Waiting(s', p, key) == Pushed(ops)
      && (forall i :: 0 <= i < |ops| && ops[i].Push? ==> answers[i] == Done)
  {
    var step, waiting := StepsOn(p, key), WaitingAt(p, key);
    forall t, q {:trigger step(t, q)} | waiting(t).Some?
      ensures waiting(step(t, q).0).Some? && StepIs(q, step(t, q).1, waiting(t).value, waiting(step(t, q).0).value)
    {
      QueueStep(t, p, key, q);
    }
    QueuedIsFifo(step, waiting, s, ops);
  }

  /** Length and whole range report what waits; and when a pop comes back empty nothing does. */
  lemma QueueReports(s: Store, p: string, key: string)
    requires IsQueue(s, p, key)
    ensures Ask(s, p, ListLength(key)) == Number(|Waiting(s, p, key)|)
    ensures Ask(s, p, ListRange(key, 0, -1)) == Range(Waiting(s, p, key))
    ensures Ask(s, p, ListPop(key)) == Found(None) <==> Waiting(s, p, key) == []
  {
    var w := Waiting(s, p, key);
    assert w[0..] == w && w[..|w|] == w;
  }

  /** Where an index points: from the end if negative. */
  function Position(i: int, len: nat): int { if i < 0 then len + i else i }

  function Between(w: seq<string>, start: int, stop: int): seq<string> {
    var i, j := Clamp(start, |w|), Clamp(stop, |w|);
    if w == [] || i > j then [] else w[i..j + 1]
  }

  lemma RangeIsBetween(s: Store, p: string, key: string, start: int, stop: int)
    requires IsQueue(s, p, key)
    ensures Ask(s, p, ListRange(key, start, stop)) == Range(Between(Waiting(s, p, key), start, stop))
  {
  }

  /** A range has the items whose positions it covers, in order. A start before the first item is the
      first, a stop past the last is the last, and so is a start past the last. */
  lemma RangeMeans(s: Store, p: string, key: string, start: int, stop: int)
    requires IsQueue(s, p, key)
    ensures
      var w := Waiting(s, p, key);
      var from, to := Position(start, |w|), Position(stop, |w|);
      && (w == [] ==> Ask(s, p, ListRange(key, start, stop)) == Range([]))
      && (0 <= from <= to < |w| ==> Ask(s, p, ListRange(key, start, stop)) == Range(w[from..to + 1]))
      && (to < from < |w| && 0 <= from && 0 <= to ==> Ask(s, p, ListRange(key, start, stop)) == Range([]))
      && (w != [] && from < 0 ==>
            Ask(s, p, ListRange(key, start, stop)) == Ask(s, p, ListRange(key, 0, stop)))
      && (w != [] && to < 0 ==> Ask(s, p, ListRange(key, start, stop)) == Ask(s, p, ListRange(key, start, 0)))
      && (w != [] && to >= |w| ==> Ask(s, p, ListRange(key, start, stop)) == Ask(s, p, ListRange(key, start, -1)))
      && (w != [] && from >= |w| ==> Ask(s, p, ListRange(key, start, stop)) == Ask(s, p, ListRange(key, -1, stop)))
  {
    RangeIsBetween(s, p, key, start, stop);
    RangeIsBetween(s, p, key, 0, stop);
    RangeIsBetween(s, p, key, start, 0);
    RangeIsBetween(s, p, key, start, -1);
    RangeIsBetween(s, p, key, -1, stop);
  }
}
