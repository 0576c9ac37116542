/** Human durations: the checked parser and the compact printer. */
module Duration {
  import opened Wrappers
  import Text

  const U64_MAX: nat := 0xFFFF_FFFF_FFFF_FFFF

  datatype DurationError =
    Empty | NoNumber(unit: char) | NumberTooLarge | UnknownUnit(unit: char) | SegmentOverflow | TotalOverflow
      | TrailingNumber

  predicate IsDigit(c: char) {
    '0' <= c <= '9'
  }

  predicate AllDigits(s: string) {
    forall i :: 0 <= i < |s| ==> IsDigit(s[i])
  }

  function Value(s: string): nat
    requires AllDigits(s)
  {
    if s == [] then 0 else 10 * Value(s[..|s| - 1]) + (s[|s| - 1] as int - '0' as int)
  }

  /** An unsigned 64-bit integer in decimal, with an optional plus sign. */
  function ParseU64(s: string): Option<nat> {
    var digits := if s != [] && s[0] == '+' then s[1..] else s;
    if digits == [] || !AllDigits(digits) || Value(digits) > U64_MAX then None else Some(Value(digits))
  }

  function Multiplier(unit: char): Option<nat> {
    match unit
    case 's' => Some(1)
    case 'm' => Some(60)
    case 'h' => Some(3600)
    case 'd' => Some(86400)
    case _ => None
  }

  /** One unit letter after its number: what it adds to the total, if that fits. */
  function AddSegment(total: nat, current: string, unit: char): Result<nat, DurationError>
    requires AllDigits(current)
  {
    if current == [] then Err(NoNumber(unit))
    else if Value(current) > U64_MAX then Err(NumberTooLarge)
    else if Multiplier(unit).None? then Err(UnknownUnit(unit))
    else if Value(current) * Multiplier(unit).value > U64_MAX then Err(SegmentOverflow)
    else if total + Value(current) * Multiplier(unit).value > U64_MAX then Err(TotalOverflow)
    else Ok(total + Value(current) * Multiplier(unit).value)
  }

  /** The scan from here on, with the total so far and the digits not yet given a unit. */
  function Scan(total: nat, current: string, rest: string): Result<nat, DurationError>
    requires AllDigits(current)
    decreases |rest|
  {
    if rest == [] then if current == [] then Ok(total) else Err(TrailingNumber)
    else if IsDigit(rest[0]) then Scan(total, current + [rest[0]], rest[1..])
    else
      match AddSegment(total, current, rest[0])
      case Err(e) => Err(e)
      case Ok(sum) => Scan(sum, [], rest[1..])
  }

  function Parsed(s: string): Result<nat, DurationError> {
    var t := Text.Trim(s);
    if t == [] then Err(Empty)
    else
      match ParseU64(t)
      case Some(n) => Ok(n)
      case None => Scan(0, [], t)
  }

  /** One character of the scan. */
  lemma ScanStep(total: nat, current: string, t: string, i: nat)
    requires AllDigits(current) && i < |t|
    ensures Scan(total, current, t[i..]) ==
      if IsDigit(t[i]) then Scan(total, current + [t[i]], t[i + 1..])
      else match AddSegment(total, current, t[i])
           case Err(e) => Err(e)
           case Ok(sum) => Scan(sum, [], t[i + 1..])
  {
    assert t[i..][1..] == t[i + 1..];
  }

  method ParseDuration(s: string) returns (r: Result<nat, DurationError>)
    ensures r == Parsed(s)
  {
    var t := Text.Trim(s);
    if t == [] {
      return Err(Empty);
    }
    var bare := ParseU64(t);
    if bare.Some? {
      return Ok(bare.value);
    }
    r := ParseUnits(t);
  }

  method ParseUnits(t: string) returns (r: Result<nat, DurationError>)
    ensures r == Scan(0, [], t)
  {
    var total, current, i := 0, [], 0;
    while i < |t|
      invariant 0 <= i <= |t| && AllDigits(current)
      invariant Scan(0, [], t) == Scan(total, current, t[i..])
    {
      ScanStep(total, current, t, i);
      var ch := t[i];
      i := i + 1;
      if IsDigit(ch) {
        current := current + [ch];
        continue;
      }
      match AddSegment(total, current, ch) {
        case Err(e) => return Err(e);
        case Ok(sum) => total := sum;
      }
      current := [];
    }
    r := if current != [] then Err(TrailingNumber) else Ok(total);
  }

  // ---- What the parser accepts ------------------------------------------------------

  datatype Segment = Segment(digits: string, unit: char)

  predicate WellFormed(segs: seq<Segment>) {
    forall i :: 0 <= i < |segs| ==> segs[i].digits != [] && AllDigits(segs[i].digits) && Multiplier(segs[i].unit).Some?
  }

  function Written(segs: seq<Segment>): string {
    if segs == [] then [] else segs[0].digits + [segs[0].unit] + Written(segs[1..])
  }

  function Sum(segs: seq<Segment>): nat
    requires WellFormed(segs)
  {
    if segs == [] then 0 else Value(segs[0].digits) * Multiplier(segs[0].unit).value + Sum(segs[1..])
  }

  /** `text` is made of segments that bring `total` to `n`. */
  ghost predicate Spells(segs: seq<Segment>, text: string, total: int, n: int) {
    WellFormed(segs) && Written(segs) == text && total + Sum(segs) == n
  }

  /** Where the first non-digit is. */
  function Letter(text: string): nat {
    if text == [] || !IsDigit(text[0]) then 0 else 1 + Letter(text[1..])
  }

  lemma {:induction false} LetterAfterDigits(digits: string, unit: char, rest: string)
    requires AllDigits(digits) && !IsDigit(unit)
    ensures Letter(digits + [unit] + rest) == |digits|
  {
    var text := digits + [unit] + rest;
    if digits != [] {
      LetterAfterDigits(digits[1..], unit, rest);
      assert text[0] == digits[0] && text[1..] == digits[1..] + [unit] + rest;
    }
  }

  /** The digits up to the first letter are the first segment's. */
  lemma FirstSegment(segs: seq<Segment>, current: string, unit: char, rest: string)
    requires segs != [] && WellFormed(segs) && Written(segs) == current + [unit] + rest && AllDigits(current)
      && !IsDigit(unit)
    ensures segs[0] == Segment(current, unit) && Written(segs[1..]) == rest
  {
    var d, u, text := segs[0].digits, segs[0].unit, Written(segs);
    LetterAfterDigits(d, u, Written(segs[1..]));
    LetterAfterDigits(current, unit, rest);
    assert |d| == |current|;
    assert text[..|d|] == d && text[..|d|] == current && text[|d|] == u && text[|d|] == unit;
    assert text[|d| + 1..] == Written(segs[1..]) && text[|d| + 1..] == rest;
  }

  lemma SegmentsHaveLetters(segs: seq<Segment>)
    requires WellFormed(segs) && segs != []
    ensures !AllDigits(Written(segs))
  {
    assert Written(segs)[|segs[0].digits|] == segs[0].unit;
  }

  /** A first segment means what adding it means. */
  lemma SegmentAdds(total: nat, current: string, unit: char, tail: seq<Segment>, n: int)
    requires AllDigits(current) && !IsDigit(unit) && total <= U64_MAX && n <= U64_MAX
    ensures
      var added := AddSegment(total, current, unit);
      (WellFormed([Segment(current, unit)] + tail) && total + Sum([Segment(current, unit)] + tail) == n) <==>
        added.Ok? && WellFormed(tail) && added.value + Sum(tail) == n
  {
    var segs := [Segment(current, unit)] + tail;
    assert segs[1..] == tail;
    assert WellFormed(segs) <==> current != [] && Multiplier(unit).Some? && WellFormed(tail) by {
      assert forall i :: 0 <= i < |tail| ==> segs[i + 1] == tail[i];
      assert segs[0] == Segment(current, unit);
    }
  }

  /** The scan succeeds exactly when the text is number-unit segments whose exact sum fits. */
  lemma {:induction false} ScanMeans(total: nat, current: string, rest: string, n: int)
    requires AllDigits(current) && total <= U64_MAX
    ensures Scan(total, current, rest) == Ok(n) <==>
      n <= U64_MAX && exists segs :: Spells(segs, current + rest, total, n)
    decreases |rest|, 1
  {
    if rest == [] {
      assert current + rest == current;
      assert current == [] ==> Spells([], current, total, total);
      forall segs | Spells(segs, current, total, n) ensures segs == [] {
        if segs != [] { SegmentsHaveLetters(segs); }
      }
    } else if IsDigit(rest[0]) {
      assert current + [rest[0]] + rest[1..] == current + rest;
      ScanMeans(total, current + [rest[0]], rest[1..], n);
    } else {
      UnitMeans(total, current, rest, n);
    }
  }

  lemma {:induction false} UnitMeans(total: nat, current: string, rest: string, n: int)
    requires AllDigits(current) && total <= U64_MAX && rest != [] && !IsDigit(rest[0])
    ensures Scan(total, current, rest) == Ok(n) <==>
      n <= U64_MAX && exists segs :: Spells(segs, current + rest, total, n)
    decreases |rest|, 0
  {
    var text, first, added := current + rest, Segment(current, rest[0]), AddSegment(total, current, rest[0]);
    assert current + [rest[0]] + rest[1..] == text;
    if n <= U64_MAX {
      if added.Ok? { ScanMeans(added.value, [], rest[1..], n); }
      assert [] + rest[1..] == rest[1..];
      forall segs | Spells(segs, text, total, n)
        ensures added.Ok? && Spells(segs[1..], rest[1..], added.value, n)
      {
        assert segs != [];
        FirstSegment(segs, current, rest[0], rest[1..]);
        assert segs == [first] + segs[1..];
        SegmentAdds(total, current, rest[0], segs[1..], n);
      }
      if added.Ok? {
        forall tail | Spells(tail, rest[1..], added.value, n) ensures Spells([first] + tail, text, total, n) {
          SegmentAdds(total, current, rest[0], tail, n);
          assert ([first] + tail)[1..] == tail;
        }
      }
    } else if added.Ok? {
      ScanMeans(added.value, [], rest[1..], n);
    }
  }

  function TenTo(n: nat): nat {
    if n == 0 then 1 else 10 * TenTo(n - 1)
  }

  lemma NextPlace(high: nat, place: nat, low: nat)
    ensures 10 * (high * place + low) == high * (10 * place) + 10 * low
  {
  }

  /** Digits stand for their value at their place, the last one for ones. */
  lemma {:induction false} ValueByPlace(a: string, b: string)
    requires AllDigits(a) && AllDigits(b)
    ensures Value(a + b) == Value(a) * TenTo(|b|) + Value(b)
    ensures |b| == 1 ==> Value(b) == b[0] as int - '0' as int
    decreases |b|
  {
    if b == [] {
      assert a + b == a;
    } else {
      var n := |b| - 1;
      assert (a + b)[..|a + b| - 1] == a + b[..n];
      ValueByPlace(a, b[..n]);
      NextPlace(Value(a), TenTo(n), Value(b[..n]));
    }
  }

  /** A 64-bit number in digits, or with a plus sign before them. */
  ghost predicate IsBare(t: string, n: int) {
    exists digits :: BareDigits(t, digits) && Value(digits) == n <= U64_MAX
  }

  predicate BareDigits(t: string, digits: string) {
    digits != [] && AllDigits(digits) && (t == digits || t == ['+'] + digits)
  }

  lemma BareMeans(t: string, n: int)
    ensures ParseU64(t) == Some(n) <==> IsBare(t, n)
  {
    var rest := if t != [] && t[0] == '+' then t[1..] else t;
    assert rest != [] && AllDigits(rest) ==> BareDigits(t, rest);
    forall digits | BareDigits(t, digits) ensures digits == rest {
      assert digits[0] != '+';
      assert t == ['+'] + digits ==> t[1..] == digits;
    }
  }

  /** Parsing succeeds exactly on a bare 64-bit number, or on well-formed segments whose exact sum
      fits in 64 bits; every number, product and partial sum then fits too. */
  lemma ParseMeans(s: string, n: int)
    ensures Parsed(s) == Ok(n) <==>
      var t := Text.Trim(s);
      t != [] && (IsBare(t, n) || (n <= U64_MAX && exists segs :: Spells(segs, t, 0, n)))
  {
    var t := Text.Trim(s);
    assert [] + t == t;
    BareMeans(t, n);
    if t != [] && ParseU64(t).None? {
      ScanMeans(0, [], t, n);
    } else if t != [] {
      BareIsNotSpelled(t, n);
    }
  }

  /** No text is both: segments end in a unit. */
  lemma BareIsNotSpelled(t: string, n: int)
    requires t != [] && ParseU64(t).Some?
    ensures !exists segs :: Spells(segs, t, 0, n)
  {
    BareMeans(t, ParseU64(t).value);
    var digits :| BareDigits(t, digits);
    assert t[|t| - 1] == digits[|digits| - 1] && IsDigit(t[|t| - 1]);
    forall segs ensures !Spells(segs, t, 0, n) {
      if Spells(segs, t, 0, n) {
        assert segs != [];
        EndsInUnit(segs);
      }
    }
  }

  lemma {:induction false} EndsInUnit(segs: seq<Segment>)
    requires WellFormed(segs) && segs != []
    ensures Written(segs) != [] && !IsDigit(Written(segs)[|Written(segs)| - 1])
    decreases |segs|
  {
    if |segs| == 1 {
      assert segs[1..] == [] && Written(segs) == segs[0].digits + [segs[0].unit];
    } else {
      EndsInUnit(segs[1..]);
    }
  }

  // ---- What it refuses, and why ----------------------------------------------------------

  lemma {:induction false} ScanDigits(total: nat, current: string, d: string, rest: string)
    requires AllDigits(current) && AllDigits(d)
    ensures Scan(total, current, d + rest) == Scan(total, current + d, rest)
    decreases |d|
  {
    if d == [] {
      assert d + rest == rest && current + d == current;
    } else {
      assert (d + rest)[0] == d[0] && (d + rest)[1..] == d[1..] + rest;
      ScanDigits(total, current + [d[0]], d[1..], rest);
      assert current + [d[0]] + d[1..] == current + d;
    }
  }

  lemma ScanSegment(total: nat, seg: Segment, seconds: nat, rest: string)
    requires WellFormed([seg]) && seconds == Sum([seg]) && total + seconds <= U64_MAX
    ensures Scan(total, [], seg.digits + ([seg.unit] + rest)) == Scan(total + seconds, [], rest)
  {
    var d, u := seg.digits, seg.unit;
    assert [seg][0] == seg && [seg][1..] == [];
    ScanDigits(total, [], d, [u] + rest);
    assert [] + d == d && ([u] + rest)[0] == u && ([u] + rest)[1..] == rest;
    assert Value(d) <= Value(d) * Multiplier(u).value;
  }

  lemma SumSplits(segs: seq<Segment>)
    requires WellFormed(segs) && segs != []
    ensures WellFormed([segs[0]]) && WellFormed(segs[1..]) && Sum(segs) == Sum([segs[0]]) + Sum(segs[1..])
  {
    assert [segs[0]][1..] == [];
  }

  /** A segment and the text after it. */
  function Before(seg: Segment, rest: string): string {
    seg.digits + ([seg.unit] + rest)
  }

  lemma WrittenFirst(segs: seq<Segment>, tail: string)
    requires segs != []
    ensures Written(segs) + tail == Before(segs[0], Written(segs[1..]) + tail)
  {
  }

  type Scanner = (nat, string) -> Result<nat, DurationError>

  ghost predicate PassesOne(scan: Scanner) {
    forall total: nat, seg, rest {:trigger scan(total, Before(seg, rest))} ::
      WellFormed([seg]) && total + Sum([seg]) <= U64_MAX ==>
      scan(total, Before(seg, rest)) == scan(total + Sum([seg]), rest)
  }

  lemma {:induction false} PassesAll(scan: Scanner, segs: seq<Segment>, total: nat, tail: string)
    requires PassesOne(scan) && WellFormed(segs) && total + Sum(segs) <= U64_MAX
    ensures scan(total, Written(segs) + tail) == scan(total + Sum(segs), tail)
    decreases |segs|
  {
    if segs == [] {
      assert Written(segs) + tail == tail;
    } else {
      SumSplits(segs);
      WrittenFirst(segs, tail);
      PassesAll(scan, segs[1..], total + Sum([segs[0]]), tail);
    }
  }

  /** Segments that fit are passed over. */
  lemma ScanPasses(segs: seq<Segment>, total: nat, tail: string)
    requires WellFormed(segs) && total + Sum(segs) <= U64_MAX
    ensures Scan(total, [], Written(segs) + tail) == Scan(total + Sum(segs), [], tail)
  {
    var scan := (sum: nat, text: string) => Scan(sum, [], text);
    forall sum: nat, seg, rest {:trigger scan(sum, Before(seg, rest))}
      | WellFormed([seg]) && sum + Sum([seg]) <= U64_MAX
      ensures scan(sum, Before(seg, rest)) == scan(sum + Sum([seg]), rest)
    {
      ScanSegment(sum, seg, Sum([seg]), rest);
    }
    PassesAll(scan, segs, total, tail);
  }

  /** After the segments that fit, the first one that does not decides the error. */
  lemma FirstFault(segs: seq<Segment>, digits: string, unit: char, rest: string)
    requires WellFormed(segs) && Sum(segs) <= U64_MAX && AllDigits(digits) && !IsDigit(unit)
    ensures
      var r := Scan(0, [], Written(segs) + (digits + ([unit] + rest)));
      if digits == [] then r == Err(NoNumber(unit))
      else if Value(digits) > U64_MAX then r == Err(NumberTooLarge)
      else if unit !in ['s', 'm', 'h', 'd'] then r == Err(UnknownUnit(unit))
      else
        var seconds := Value(digits) *
          (if unit == 's' then 1 else if unit == 'm' then 60 else if unit == 'h' then 3600 else 86400);
        && (seconds > U64_MAX ==> r == Err(SegmentOverflow))
        && (seconds <= U64_MAX && Sum(segs) + seconds > U64_MAX ==> r == Err(TotalOverflow))
  {
    ScanPasses(segs, 0, digits + ([unit] + rest));
    ScanDigits(Sum(segs), [], digits, [unit] + rest);
    assert [] + digits == digits && ([unit] + rest)[0] == unit;
  }

  /** A number at the end needs a unit. */
  lemma TrailingFault(segs: seq<Segment>, digits: string)
    requires WellFormed(segs) && Sum(segs) <= U64_MAX && AllDigits(digits) && digits != []
    ensures Scan(0, [], Written(segs) + digits) == Err(TrailingNumber)
  {
    ScanPasses(segs, 0, digits);
    ScanDigits(Sum(segs), [], digits, []);
    assert digits + [] == digits && [] + digits == digits;
  }

  // ---- Printing ------------------------------------------------------------------------

  function Digits(n: nat): (s: string)
    ensures s != [] && AllDigits(s) && Value(s) == n
  {
    var last := [('0' as int + n % 10) as char];
    if n < 10 then last
    else
      var more := Digits(n / 10);
      assert (more + last)[..|more|] == more;
      more + last
  }

  function FormatDuration(seconds: nat): string {
    if seconds != 0 && seconds % 86400 == 0 then Digits(seconds / 86400) + ['d']
    else if seconds != 0 && seconds % 3600 == 0 then Digits(seconds / 3600) + ['h']
    else if seconds != 0 && seconds % 60 == 0 then Digits(seconds / 60) + ['m']
    else Digits(seconds) + ['s']
  }

  lemma NotTrimmed(d: string, unit: char)
    requires d != [] && AllDigits(d) && Multiplier(unit).Some?
    ensures Text.Trim(d + [unit]) == d + [unit]
  {
    var t := d + [unit];
    assert IsDigit(t[0]) && t[|t| - 1] == unit;
    assert !Text.IsWhitespace(t[0]) && !Text.IsWhitespace(unit);
    Text.TrimNothing(t);
  }

  lemma NotBare(t: string)
    requires t != [] && IsDigit(t[0]) && !IsDigit(t[|t| - 1])
    ensures ParseU64(t).None?
  {
    assert !AllDigits(t);
  }

  lemma OneSegment(d: string, unit: char)
    requires d != [] && AllDigits(d) && Multiplier(unit).Some?
    ensures Spells([Segment(d, unit)], d + [unit], 0, Value(d) * Multiplier(unit).value)
  {
    var segs := [Segment(d, unit)];
    assert segs[1..] == [];
    assert Written(segs) == d + [unit] + [] == d + [unit];
  }

  lemma SpelledParses(t: string, segs: seq<Segment>, n: nat)
    requires t != [] && Text.Trim(t) == t && ParseU64(t).None? && Spells(segs, t, 0, n) && n <= U64_MAX
    ensures Parsed(t) == Ok(n)
  {
    ParseMeans(t, n);
  }

  lemma UnitParses(d: string, unit: char, n: nat)
    requires d != [] && AllDigits(d) && Multiplier(unit).Some? && n == Value(d) * Multiplier(unit).value && n <= U64_MAX
    ensures Parsed(d + [unit]) == Ok(n)
  {
    var t := d + [unit];
    assert t[0] == d[0] && t[|t| - 1] == unit && !IsDigit(unit) && IsDigit(d[0]);
    NotBare(t);
    NotTrimmed(d, unit);
    OneSegment(d, unit);
    SpelledParses(t, [Segment(d, unit)], n);
  }

  /** What is printed parses back to itself, for every 64-bit number of seconds. */
  lemma RoundTrip(n: nat)
    requires n <= U64_MAX
    ensures Parsed(FormatDuration(n)) == Ok(n)
  {
    if n != 0 && n % 86400 == 0 {
      UnitParses(Digits(n / 86400), 'd', n);
    } else if n != 0 && n % 3600 == 0 {
      UnitParses(Digits(n / 3600), 'h', n);
    } else if n != 0 && n % 60 == 0 {
      UnitParses(Digits(n / 60), 'm', n);
    } else {
      UnitParses(Digits(n), 's', n);
    }
  }

  predicate Divides(unit: char, n: nat) {
    Multiplier(unit).Some? && n % Multiplier(unit).value == 0
  }

  lemma LargestUnit(n: nat, unit: char)
    requires Divides(unit, n)
    requires n % 86400 == 0 ==> unit == 'd'
    requires n % 86400 != 0 && n % 3600 == 0 ==> unit == 'h'
    requires n % 86400 != 0 && n % 3600 != 0 && n % 60 == 0 ==> unit == 'm'
    ensures forall u :: Divides(u, n) ==> Multiplier(u).value <= Multiplier(unit).value
  {
  }

  function PrintUnit(n: nat): char {
    var text := FormatDuration(n);
    if text == [] then ' ' else text[|text| - 1]
  }

  /** What is printed is one number, of the largest unit that divides the time; zero is in seconds. */
  lemma FormatPicks(n: nat)
    ensures Divides(PrintUnit(n), n) && FormatDuration(n) == Digits(n / Multiplier(PrintUnit(n)).value) + [PrintUnit(n)]
    ensures n == 0 ==> PrintUnit(n) == 's'
    ensures n != 0 ==> forall u :: Divides(u, n) ==> Multiplier(u).value <= Multiplier(PrintUnit(n)).value
  {
    if n != 0 && n % 86400 == 0 {
      PickedUnit(n / 86400, 'd');
      LargestUnit(n, 'd');
    } else if n != 0 && n % 3600 == 0 {
      PickedUnit(n / 3600, 'h');
      LargestUnit(n, 'h');
    } else if n != 0 && n % 60 == 0 {
      PickedUnit(n / 60, 'm');
      LargestUnit(n, 'm');
    } else {
      PickedUnit(n, 's');
      if n != 0 { LargestUnit(n, 's'); }
    }
  }

  lemma PickedUnit(k: nat, unit: char)
    ensures var text := Digits(k) + [unit]; text[|text| - 1] == unit && text[..|text| - 1] == Digits(k) && |text| > 1
  {
  }

  lemma ParsedScans(text: string)
    requires text != [] && !Text.IsWhitespace(text[0]) && !Text.IsWhitespace(text[|text| - 1]) && ParseU64(text).None?
    ensures Parsed(text) == Scan(0, [], text)
  {
    Text.TrimNothing(text);
  }

  /** A bare 64-bit number is taken as seconds. */
  lemma BareParses(t: string)
    requires t != [] && AllDigits(t) && Value(t) <= U64_MAX
    ensures Parsed(t) == Ok(Value(t))
  {
    assert IsDigit(t[0]) && IsDigit(t[|t| - 1]);
    Text.TrimNothing(t);
    DigitsRead(t);
  }

  lemma DigitsRead(t: string)
    requires t != [] && AllDigits(t) && Value(t) <= U64_MAX
    ensures ParseU64(t) == Some(Value(t))
  {
    assert IsDigit(t[0]);
  }

  lemma OneDigit(t: string)
    requires |t| == 1 && AllDigits(t)
    ensures Value(t) == t[0] as int - '0' as int
  {
    assert t[..0] == [] && Value(t[..0]) == 0;
  }

  lemma SumOfOne(one: string, unit: char)
    requires one != [] && AllDigits(one) && Value(one) == 1 && Multiplier(unit).Some?
    ensures WellFormed([Segment(one, unit)]) && Sum([Segment(one, unit)]) == Multiplier(unit).value
  {
    assert [Segment(one, unit)][1..] == [];
  }

  lemma TwoSegments(a: Segment, b: Segment, last: string, text: string)
    requires WellFormed([a]) && WellFormed([b]) && Sum([a]) + Sum([b]) <= U64_MAX
    requires last == b.digits + ([b.unit] + []) && text == a.digits + ([a.unit] + last)
    ensures Scan(0, [], text) == Ok(Sum([a]) + Sum([b]))
  {
    ScanSegment(0, a, Sum([a]), last);
    ScanSegment(Sum([a]), b, Sum([b]), []);
  }

  lemma StartsAndEnds(d: string, mid: string, unit: char, text: string)
    requires d != [] && AllDigits(d) && Multiplier(unit).Some? && text == d + mid + [unit]
    ensures Parsed(text) == Scan(0, [], text)
  {
    assert text[0] == d[0] && text[|text| - 1] == unit && IsDigit(text[0]) && !IsDigit(unit);
    NotBare(text);
    ParsedScans(text);
  }

  lemma Regrouped(d: string, u: char, e: string, v: char)
    ensures d + ([u] + (e + ([v] + []))) == d + ([u] + e) + [v]
  {
  }

  lemma TwoUnitsParse(a: Segment, b: Segment, last: string, text: string)
    requires WellFormed([a]) && WellFormed([b]) && Sum([a]) + Sum([b]) <= U64_MAX
    requires last == b.digits + ([b.unit] + []) && text == a.digits + ([a.unit] + last)
    ensures Parsed(text) == Ok(Sum([a]) + Sum([b]))
  {
    TwoSegments(a, b, last, text);
    Regrouped(a.digits, a.unit, b.digits, b.unit);
    assert [a][0] == a && [b][0] == b;
    StartsAndEnds(a.digits, [a.unit] + b.digits, b.unit, text);
  }

  /** A day and a minute. */
  lemma DayAndMinute(one: string) returns (text: string)
    requires one != [] && AllDigits(one) && Value(one) == 1
    ensures Parsed(text) == Ok(86460) && |text| == 2 * |one| + 2
  {
    var last := one + (['m'] + []);
    text := one + (['d'] + last);
    SumOfOne(one, 'd');
    SumOfOne(one, 'm');
    TwoUnitsParse(Segment(one, 'd'), Segment(one, 'm'), last, text);
  }

  lemma FourDigits(k: nat)
    requires 1000 <= k < 10000
    ensures |Digits(k)| == 4
  {
    assert |Digits(k / 10 / 10 / 10)| == 1;
    assert |Digits(k / 10 / 10)| == 2;
    assert |Digits(k / 10)| == 3;
  }

  lemma PrintsMinutes(n: nat, k: nat)
    requires n == 60 * k && n % 86400 != 0 && n % 3600 != 0 && 1000 <= k < 10000
    ensures |FormatDuration(n)| == 5
  {
    FourDigits(k);
    assert n % 60 == 0 && n / 60 == k;
  }

  /** Shorter than what is printed: a bare number. */
  lemma BareIsShorter() returns (bare: string)
    ensures Parsed(bare) == Ok(7) && |bare| < |FormatDuration(7)|
  {
    bare := ['7'];
    OneDigit(bare);
    BareParses(bare);
    assert FormatDuration(7) == Digits(7) + ['s'];
  }

  /** And two units. So what is printed is not always the shortest text that parses to the time. */
  lemma TwoUnitsAreShorter() returns (two: string)
    ensures Parsed(two) == Ok(86460) && |two| < |FormatDuration(86460)|
  {
    var one := ['1'];
    OneDigit(one);
    two := DayAndMinute(one);
    PrintsMinutes(86460, 1441);
  }
}
