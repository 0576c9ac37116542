/** Anchored `*`-globs: the greedy cursor walk against every way of filling the stars. */
module Glob {
  import opened Wrappers

  function Stars(pattern: string): nat {
    if pattern == [] then 0 else (if pattern[0] == '*' then 1 else 0) + Stars(pattern[1..])
  }

  /** The pattern with each star replaced by the next fill. */
  function Replace(pattern: string, fills: seq<string>): string
    requires |fills| == Stars(pattern)
  {
    if pattern == [] then []
    else if pattern[0] == '*' then fills[0] + Replace(pattern[1..], fills[1..])
    else [pattern[0]] + Replace(pattern[1..], fills)
  }

  ghost predicate Fits(pattern: string, target: string) {
    exists fills :: |fills| == Stars(pattern) && Replace(pattern, fills) == target
  }

  /** The pieces between the stars. */
  function Split(s: string): (parts: seq<string>)
    ensures |parts| == Stars(s) + 1
  {
    if s == [] then [[]]
    else
      var rest := Split(s[1..]);
      if s[0] == '*' then [[]] + rest else [[s[0]] + rest[0]] + rest[1..]
  }

  predicate EndsWith(s: string, part: string) {
    |part| <= |s| && s[|s| - |part|..] == part
  }

  /** `at` is the first place `part` occurs, if it does. */
  ghost predicate Leftmost(part: string, s: string, at: Option<nat>) {
    && (at.Some? ==> PartAt(part, s, at.value))
    && (forall k :: PartAt(part, s, k) ==> at.Some? && at.value <= k)
  }

  method Find(s: string, part: string) returns (at: Option<nat>)
    ensures Leftmost(part, s, at)
  {
    var k := 0;
    while k <= |s|
      invariant 0 <= k <= |s| + 1
      invariant forall j :: PartAt(part, s, j) ==> k <= j
    {
      if part <= s[k..] {
        return Some(k);
      }
      k := k + 1;
    }
    at := None;
  }

  /** `s` is the parts in order, each after some filling, the last ending it. */
  ghost predicate Follows(parts: seq<string>, s: string)
    decreases |parts|
  {
    if parts == [] then s == []
    else exists k {:trigger PartAt(parts[0], s, k)} ::
      PartAt(parts[0], s, k) && Follows(parts[1..], s[k..][|parts[0]|..])
  }

  predicate PartAt(part: string, s: string, k: int) {
    0 <= k <= |s| && part <= s[k..]
  }

  ghost predicate Anchored(parts: seq<string>, s: string)
    requires parts != []
  {
    parts[0] <= s && Follows(parts[1..], s[|parts[0]|..])
  }

  /** Having more room in front never hurts. */
  lemma FollowsEarlier(parts: seq<string>, s: string, j: nat)
    requires parts != [] && j <= |s| && Follows(parts, s[j..])
    ensures Follows(parts, s)
  {
    var k :| PartAt(parts[0], s[j..], k) && Follows(parts[1..], s[j..][k..][|parts[0]|..]);
    assert s[j..][k..] == s[j + k..];
    assert PartAt(parts[0], s, j + k) && Follows(parts[1..], s[j + k..][|parts[0]|..]);
  }

  lemma LaterFollows(parts: seq<string>, s: string, n: nat, at: nat, k: nat)
    requires parts != [] && at <= k && k + n <= |s| && Follows(parts, s[k..][n..])
    ensures Follows(parts, s[at + n..])
  {
    assert s[k..][n..] == s[at + n..][k - at..];
    FollowsEarlier(parts, s[at + n..], k - at);
  }

  lemma FollowsLeftmost(parts: seq<string>, s: string, at: nat)
    requires parts != [] && at + |parts[0]| <= |s| && parts[0] <= s[at..] && Follows(parts[1..], s[at + |parts[0]|..])
    ensures Follows(parts, s)
  {
    assert s[at..][|parts[0]|..] == s[at + |parts[0]|..];
    assert PartAt(parts[0], s, at) && Follows(parts[1..], s[at..][|parts[0]|..]);
  }

  /** Taking the leftmost occurrence of a middle part is as good as any other. */
  lemma LeftmostSuffices(parts: seq<string>, s: string, at: Option<nat>)
    requires |parts| > 1 && Leftmost(parts[0], s, at)
    ensures Follows(parts, s) <==> at.Some? && Follows(parts[1..], s[at.value + |parts[0]|..])
  {
    if Follows(parts, s) {
      var k :| PartAt(parts[0], s, k) && Follows(parts[1..], s[k..][|parts[0]|..]);
      LaterFollows(parts[1..], s, |parts[0]|, at.value, k);
    }
    if at.Some? && Follows(parts[1..], s[at.value + |parts[0]|..]) {
      FollowsLeftmost(parts, s, at.value);
    }
  }

  lemma LastMustEnd(part: string, s: string)
    ensures Follows([part], s) <==> EndsWith(s, part)
  {
    var parts := [part];
    assert parts[1..] == [];
    if EndsWith(s, part) {
      assert PartAt(parts[0], s, |s| - |part|) && Follows(parts[1..], s[|s| - |part|..][|parts[0]|..]);
    }
    if Follows(parts, s) {
      var k :| PartAt(parts[0], s, k) && Follows(parts[1..], s[k..][|parts[0]|..]);
      assert k == |s| - |part|;
    }
  }

  lemma {:induction false} SplitAnchors(pattern: string, s: string)
    ensures Anchored(Split(pattern), s) <==> Fits(pattern, s)
    decreases |pattern|
  {
    var parts := Split(pattern);
    if pattern == [] {
      assert parts[1..] == [];
      assert s == [] ==> Replace(pattern, []) == s;
    } else if pattern[0] == '*' {
      assert parts[1..] == Split(pattern[1..]) && s[0..] == s;
      if Follows(parts[1..], s) {
        StarFollows(pattern, s);
      } else if Fits(pattern, s) {
        StarFits(pattern, s);
      }
    } else {
      LetterAnchors(pattern, s);
    }
  }

  lemma {:induction false} StarFollows(pattern: string, s: string)
    requires pattern != [] && pattern[0] == '*' && Follows(Split(pattern[1..]), s)
    ensures Fits(pattern, s)
    decreases |pattern|, 0
  {
    var rest := Split(pattern[1..]);
    var k :| PartAt(rest[0], s, k) && Follows(rest[1..], s[k..][|rest[0]|..]);
    SplitAnchors(pattern[1..], s[k..]);
    var fills :| |fills| == Stars(pattern[1..]) && Replace(pattern[1..], fills) == s[k..];
    StarFilled(pattern, s, k, fills);
  }

  lemma StarFilled(pattern: string, s: string, k: nat, fills: seq<string>)
    requires pattern != [] && pattern[0] == '*' && k <= |s|
    requires |fills| == Stars(pattern[1..]) && Replace(pattern[1..], fills) == s[k..]
    ensures Fits(pattern, s)
  {
    var all := [s[..k]] + fills;
    assert all[1..] == fills;
    assert |all| == Stars(pattern) && Replace(pattern, all) == s[..k] + s[k..] == s;
  }

  lemma {:induction false} StarFits(pattern: string, s: string)
    requires pattern != [] && pattern[0] == '*' && Fits(pattern, s)
    ensures Follows(Split(pattern[1..]), s)
    decreases |pattern|, 0
  {
    var fills :| |fills| == Stars(pattern) && Replace(pattern, fills) == s;
    var k := |fills[0]|;
    assert s[k..] == Replace(pattern[1..], fills[1..]);
    SplitAnchors(pattern[1..], s[k..]);
    FollowsLeftmost(Split(pattern[1..]), s, k);
  }

  lemma {:induction false} LetterAnchors(pattern: string, s: string)
    requires pattern != [] && pattern[0] != '*'
    ensures Anchored(Split(pattern), s) <==> Fits(pattern, s)
    decreases |pattern|, 0
  {
    var rest, parts := Split(pattern[1..]), Split(pattern);
    if s != [] && s[0] == pattern[0] {
      SplitAnchors(pattern[1..], s[1..]);
      assert parts[0] <= s <==> rest[0] <= s[1..];
      assert parts[0] <= s ==> s[|parts[0]|..] == s[1..][|rest[0]|..];
      assert forall fills :: |fills| == Stars(pattern) ==>
        (Replace(pattern, fills) == s <==> Replace(pattern[1..], fills) == s[1..]);
    }
  }

  /** What a middle part asks of the text after the cursor. */
  lemma MiddlePart(parts: seq<string>, i: nat, target: string, cursor: nat, at: Option<nat>)
    requires i < |parts| - 1 && cursor <= |target| && Leftmost(parts[i], target[cursor..], at)
    ensures Follows(parts[i..], target[cursor..]) <==>
      at.Some? && Follows(parts[i + 1..], target[cursor + at.value + |parts[i]|..])
  {
    var rest := target[cursor..];
    LeftmostSuffices(parts[i..], rest, at);
    assert parts[i..][1..] == parts[i + 1..];
    assert at.Some? ==> rest[at.value + |parts[i]|..] == target[cursor + at.value + |parts[i]|..];
  }

  lemma LastPart(parts: seq<string>, target: string, cursor: nat)
    requires parts != [] && cursor <= |target|
    ensures Follows(parts[|parts| - 1..], target[cursor..]) <==> EndsWith(target[cursor..], parts[|parts| - 1])
  {
    LastMustEnd(parts[|parts| - 1], target[cursor..]);
    assert parts[|parts| - 1..] == [parts[|parts| - 1]];
  }

  lemma PartSkips(parts: seq<string>, i: nat, target: string, cursor: nat)
    requires i < |parts| && cursor <= |target| && parts[i] == []
    ensures i < |parts| - 1 ==> (Follows(parts[i..], target[cursor..]) <==> Follows(parts[i + 1..], target[cursor..]))
    ensures i == |parts| - 1 ==> Follows(parts[i..], target[cursor..])
  {
    if i < |parts| - 1 {
      MiddlePart(parts, i, target, cursor, Some(0));
    } else {
      LastPart(parts, target, cursor);
    }
  }

  lemma FirstPart(parts: seq<string>, target: string)
    requires |parts| > 1
    ensures Anchored(parts, target) <==> parts[0] <= target && Follows(parts[1..], target[|parts[0]|..])
    ensures parts[0] == [] ==> (Anchored(parts, target) <==> Follows(parts[1..], target[0..]))
  {
  }

  /** The greedy walk: each part in turn, the first at the start and the last at the end. */
  method MatchParts(parts: seq<string>, target: string) returns (r: bool)
    requires |parts| > 1
    ensures r <==> Anchored(parts, target)
  {
    var cursor, last := 0, |parts| - 1;
    assert target[0..] == target;
    var i := 0;
    while i < |parts|
      invariant 0 <= i <= |parts| && 0 <= cursor <= |target|
      invariant i == 0 ==> cursor == 0
      invariant 0 < i < |parts| ==> (Anchored(parts, target) <==> Follows(parts[i..], target[cursor..]))
      invariant i == |parts| ==> Anchored(parts, target)
    {
      var part := parts[i];
      if part == [] {
        if i == 0 { FirstPart(parts, target); } else { PartSkips(parts, i, target, cursor); }
      } else if i == 0 {
        FirstPart(parts, target);
        if !(part <= target[cursor..]) {
          return false;
        }
        cursor := cursor + |part|;
      } else if i == last {
        LastPart(parts, target, cursor);
        return EndsWith(target[cursor..], part);
      } else {
        var at := Find(target[cursor..], part);
        MiddlePart(parts, i, target, cursor, at);
        match at {
          case None => return false;
          case Some(pos) => cursor := cursor + pos + |part|;
        }
      }
      i := i + 1;
    }
    r := true;
  }

  /** True exactly when the target is the pattern with each star replaced by some string. */
  method GlobMatch(pattern: string, target: string) returns (r: bool)
    ensures r <==> Fits(pattern, target)
  {
    if Stars(pattern) == 0 {
      NoStars(pattern, target);
      return pattern == target;
    }
    SplitAnchors(pattern, target);
    r := MatchParts(Split(pattern), target);
  }

  lemma NoStars(pattern: string, target: string)
    requires Stars(pattern) == 0
    ensures Fits(pattern, target) <==> pattern == target
  {
    ReplaceNothing(pattern);
  }

  lemma {:induction false} ReplaceNothing(pattern: string)
    requires Stars(pattern) == 0
    ensures Replace(pattern, []) == pattern
  {
    if pattern != [] {
      ReplaceNothing(pattern[1..]);
    }
  }
}
