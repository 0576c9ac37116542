/** What a handler meets in its buckets, whose keys it can touch, and how its run ends. */
module DryRunEffects {
  import opened Wrappers
  import opened KeyStore
  import opened DryRuns

  // ---- Seeds ------------------------------------------------------------------------------

  /** The last seed for this key. */
  function LastSeed(o: Overrides, k: string): Option<string>
    decreases |o|
  {
    if o == [] then None
    else if LastSeed(o[1..], k).Some? then LastSeed(o[1..], k)
    else if o[0].0 == k then o[0].1
    else None
  }

  /** The last seed for the key, or else what is stored. */
  function Given(o: Overrides, k: string, stored: Option<Value>): Option<Value> {
    if LastSeed(o, k).Some? then Some(Bytes(LastSeed(o, k).value)) else stored
  }

  lemma {:induction false} SeededAt(s: Store, prefix: string, o: Overrides, k: string)
    requires Decodes(o)
    ensures Lookup(Seeded(s, prefix, o), prefix + k) == Given(o, k, Lookup(s, prefix + k))
    decreases |o|
  {
    if o != [] {
      assert forall i :: 0 <= i < |o[1..]| ==> o[1..][i] == o[i + 1];
      SeededAt(s[prefix + o[0].0 := Bytes(o[0].1.value)], prefix, o[1..], k);
      if prefix + o[0].0 == prefix + k { RootIsInjective(prefix, o[0].0, k); }
    }
  }

  lemma {:induction false} SeededElsewhere(s: Store, prefix: string, o: Overrides, x: string)
    requires !(prefix <= x)
    ensures Lookup(Seeded(s, prefix, o), x) == Lookup(s, x)
    decreases |o|
  {
    if o != [] && o[0].1.Some? {
      PrefixJoin(prefix, o[0].0);
      SeededElsewhere(s[prefix + o[0].0 := Bytes(o[0].1.value)], prefix, o[1..], x);
    }
  }

  lemma PrefixesApart(group: string, route: string, k: string)
    ensures !(GkvPrefix("", group) <= KvPrefix("", group, route) + k)
    ensures !(KvPrefix("", group, route) <= GkvPrefix("", group) + k)
  {
    var a, b := KvPrefix("", group, route), GkvPrefix("", group);
    assert a[0] == 'k' && b[0] == 'g' && (a + k)[0] == a[0] && (b + k)[0] == b[0];
  }

  lemma RealStateAt(s: Store, group: string, route: string, kvo: Overrides, gkvo: Overrides, k: string)
    requires Decodes(kvo) && Decodes(gkvo)
    ensures
      var ready, kv, gkv := RealState(s, group, route, kvo, gkvo), KvPrefix("", group, route), GkvPrefix("", group);
      && Lookup(ready, kv + k) == Given(kvo, k, Lookup(s, kv + k))
      && Lookup(ready, gkv + k) == Given(gkvo, k, Lookup(s, gkv + k))
  {
    var kv, gkv := KvPrefix("", group, route), GkvPrefix("", group);
    var once := Seeded(s, kv, kvo);
    PrefixesApart(group, route, k);
    SeededAt(s, kv, kvo, k);
    SeededElsewhere(s, kv, kvo, gkv + k);
    SeededAt(once, gkv, gkvo, k);
    SeededElsewhere(once, gkv, gkvo, kv + k);
  }

  // ---- One turn after the other --------------------------------------------------------------

  predicate IsFailure(r: Reply) {
    r.Stored? && r.answer.Failed?
  }

  predicate NoFailures(rs: seq<Reply>) {
    forall i :: 0 <= i < |rs| ==> !IsFailure(rs[i])
  }

  /** What one turn comes to: a reply and on, a failed operation's fault, or the handler's own end. */
  predicate TurnIs(h: Handler, seen: seq<Reply>, next: seq<Reply>, ending: Option<Verdict>) {
    match ending
    case None => |next| == |seen| + 1 && next[..|seen|] == seen && !IsFailure(next[|seen|])
    case Some(Responded(response)) => next == seen && h(seen) == Respond(response)
    case Some(Trapped(message)) =>
      || (next == seen && h(seen) == Panic(message))
      || (|next| == |seen| + 1 && next[..|seen|] == seen && IsFailure(next[|seen|])
          && message == FaultText(next[|seen|].answer.fault))
  }

  lemma TurnEnds(s: Store, kv: string, gkv: string, h: Handler, seen: seq<Reply>)
    ensures TurnIs(h, seen, Turn(s, kv, gkv, h, seen).1, Turn(s, kv, gkv, h, seen).2)
  {
  }

  ghost predicate TurnsAre(turn: Turns, h: Handler) {
    forall s, seen {:trigger turn(s, seen)} :: TurnIs(h, seen, turn(s, seen).1, turn(s, seen).2)
  }

  /** A run that started at `seen` ended this way. */
  predicate EndsAs(h: Handler, seen: seq<Reply>, all: seq<Reply>, verdict: Verdict, budget: nat) {
    && |seen| <= |all| <= |seen| + budget && all[..|seen|] == seen
    && match verdict
       case Responded(response) => h(all) == Respond(response) && NoFailures(all[|seen|..])
       case Trapped(message) =>
         || (h(all) == Panic(message) && NoFailures(all[|seen|..]))
         || (|all| > |seen| && IsFailure(all[|all| - 1]) && NoFailures(all[|seen|..|all| - 1])
             && message == FaultText(all[|all| - 1].answer.fault))
         || (|all| == |seen| + budget && message == OUT_OF_BUDGET && NoFailures(all[|seen|..]))
  }

  lemma OneMoreFine(all: seq<Reply>, n: nat, m: nat)
    requires n < m <= |all| && !IsFailure(all[n])
    ensures NoFailures(all[n + 1..m]) ==> NoFailures(all[n..m])
  {
    forall i | 0 < i < m - n ensures all[n..m][i] == all[n + 1..m][i - 1] {}
  }

  lemma EndsLater(h: Handler, seen: seq<Reply>, next: seq<Reply>, all: seq<Reply>, verdict: Verdict, budget: nat)
    requires |next| == |seen| + 1 && next[..|seen|] == seen && !IsFailure(next[|seen|])
    requires budget > 0 && EndsAs(h, next, all, verdict, budget - 1)
    ensures EndsAs(h, seen, all, verdict, budget)
  {
    var n := |seen|;
    assert all[..n + 1] == next;
    assert all[n] == next[n];
    assert all[..n] == next[..n];
    OneMoreFine(all, n, |all|);
    if |all| > n + 1 { OneMoreFine(all, n, |all| - 1); }
    assert all[n..] == all[n..|all|] && all[n + 1..] == all[n + 1..|all|];
  }

  lemma {:induction false} IterateEnds(turn: Turns, h: Handler, s: Store, seen: seq<Reply>, budget: nat)
    requires TurnsAre(turn, h)
    ensures EndsAs(h, seen, Iterate(turn, s, seen, budget).1, Iterate(turn, s, seen, budget).2, budget)
    decreases budget
  {
    if budget > 0 {
      var (s', next, ending) := turn(s, seen);
      assert TurnIs(h, seen, next, ending);
      if ending.None? {
        IterateEnds(turn, h, s', next, budget - 1);
        var rest := Iterate(turn, s', next, budget - 1);
        EndsLater(h, seen, next, rest.1, rest.2, budget);
      } else if next != seen {
        assert next[|seen|..|next| - 1] == [];
      }
    }
  }

  /** A handler's run returns a response exactly as the handler's last act, with no operation having
      failed. Otherwise it panicked, or its first failed operation trapped it with that fault's text,
      or it used up its budget. What it has seen only grows, by at most one reply a turn. */
  lemma RunsEndAs(s: Store, kv: string, gkv: string, h: Handler, seen: seq<Reply>, budget: nat)
    ensures
      var (_, all, verdict) := Interact(s, kv, gkv, h, seen, budget);
      EndsAs(h, seen, all, verdict, budget)
  {
    var turn := TurnsOf(kv, gkv, h);
    forall s0, told {:trigger turn(s0, told)} ensures TurnIs(h, told, turn(s0, told).1, turn(s0, told).2) {
      TurnEnds(s0, kv, gkv, h, told);
    }
    IterateEnds(turn, h, s, seen, budget);
  }

  /** The next reply is the bucket's answer to the operation asked of it. */
  lemma NextReplyIs(s: Store, kv: string, gkv: string, h: Handler, seen: seq<Reply>, budget: nat)
    requires budget > 0
    ensures
      var all := Interact(s, kv, gkv, h, seen, budget).1;
      match h(seen)
      case OnRoute(op) => |all| > |seen| && all[|seen|] == Stored(Exec(s, kv, op).1)
      case OnGroup(op) => |all| > |seen| && all[|seen|] == Stored(Exec(s, gkv, op).1)
      case _ => true
  {
    var turn := TurnsOf(kv, gkv, h);
    var (s', next, ending) := turn(s, seen);
    assert (s', next, ending) == Turn(s, kv, gkv, h, seen);
    if ending.None? {
      RunsEndAs(s', kv, gkv, h, next, budget - 1);
      var all := Interact(s', kv, gkv, h, next, budget - 1).1;
      assert all == Interact(s, kv, gkv, h, seen, budget).1;
      assert |next| > |seen| ==> all[|seen|] == all[..|next|][|seen|];
    }
  }

  /** What reading this value as bytes answers. */
  predicate ReadsAs(reply: Reply, at: Option<Value>) {
    match at
    case None => reply == Stored(Found(None))
    case Some(Bytes(b)) => reply == Stored(Found(Some(b)))
    case Some(_) => IsFailure(reply)
  }

  /** A handler that first reads a key of its route, or of its group, is answered the last seed for that
      key of that bucket, or else what the real store holds under the bucket's name for it. */
  lemma ReadsSeeSeeds(s: Store, group: string, route: string, kvo: Overrides, gkvo: Overrides, h: Handler,
                      budget: nat, k: string)
    requires Decodes(kvo) && Decodes(gkvo) && budget > 0
    ensures
      var replies := RealRun(s, group, route, kvo, gkvo, h, budget).0;
      && (h([]) == OnRoute(Get(k)) ==>
            replies != [] && ReadsAs(replies[0], Given(kvo, k, Lookup(s, "kv:" + group + ":" + route + ":" + k))))
      && (h([]) == OnGroup(Get(k)) ==>
            replies != [] && ReadsAs(replies[0], Given(gkvo, k, Lookup(s, "gkv:" + group + ":" + k))))
  {
    var kv, gkv := KvPrefix("", group, route), GkvPrefix("", group);
    var ready := RealState(s, group, route, kvo, gkvo);
    NextReplyIs(ready, kv, gkv, h, [], budget);
    RealStateAt(s, group, route, kvo, gkvo, k);
    KeyNames(group, route, k);
    GetReads(ready, kv, k);
    GetReads(ready, gkv, k);
  }

  lemma KeyNames(group: string, route: string, k: string)
    ensures KvPrefix("", group, route) + k == "kv:" + group + ":" + route + ":" + k
    ensures GkvPrefix("", group) + k == "gkv:" + group + ":" + k
  {
    assert "" + "kv:" == "kv:" && "" + "gkv:" == "gkv:";
  }

  lemma GetReads(s: Store, p: string, k: string)
    ensures ReadsAs(Stored(Exec(s, p, Get(k)).1), Lookup(s, p + k))
  {
  }

  // ---- Whose keys are whose --------------------------------------------------------------------

  lemma ExecStaysWithin(s: Store, p: string, op: Op, k: string)
    requires !(p <= k)
    ensures Lookup(Exec(s, p, op).0, k) == Lookup(s, k)
  {
    if !op.ListKeys? { PrefixJoin(p, op.key); }
  }

  ghost predicate TurnsKeep(turn: Turns, k: string) {
    forall s, seen {:trigger turn(s, seen)} :: Lookup(turn(s, seen).0, k) == Lookup(s, k)
  }

  lemma {:induction false} IterateKeeps(turn: Turns, k: string, s: Store, seen: seq<Reply>, budget: nat)
    requires TurnsKeep(turn, k)
    ensures Lookup(Iterate(turn, s, seen, budget).0, k) == Lookup(s, k)
    decreases budget
  {
    if budget > 0 {
      var (s', next, ending) := turn(s, seen);
      if ending.None? { IterateKeeps(turn, k, s', next, budget - 1); }
    }
  }

  /** Whatever a handler does, it changes no key outside its two buckets. */
  lemma InteractStaysWithin(s: Store, kv: string, gkv: string, h: Handler, seen: seq<Reply>, budget: nat, k: string)
    requires !(kv <= k) && !(gkv <= k)
    ensures Lookup(Interact(s, kv, gkv, h, seen, budget).0, k) == Lookup(s, k)
  {
    var turn := TurnsOf(kv, gkv, h);
    forall s0, told {:trigger turn(s0, told)} ensures Lookup(turn(s0, told).0, k) == Lookup(s0, k) {
      match h(told) {
        case OnRoute(op) => ExecStaysWithin(s0, kv, op, k);
        case OnGroup(op) => ExecStaysWithin(s0, gkv, op, k);
        case _ =>
      }
    }
    IterateKeeps(turn, k, s, seen, budget);
  }

  /** Generated ids have no separator in them. */
  predicate IsId(id: string) {
    ':' !in id
  }

  lemma SeparatorAt(a: string, x: string, i: nat)
    requires IsId(a) && i < |a + [':'] + x| && (a + [':'] + x)[i] == ':'
    ensures |a| <= i
  {
    assert forall j :: 0 <= j < |a| ==> (a + [':'] + x)[j] == a[j] && a[j] != ':';
  }

  lemma PartsAgree(a: string, x: string, b: string, y: string)
    requires IsId(a) && IsId(b) && a + [':'] + x == b + [':'] + y
    ensures a == b && x == y
  {
    var k := a + [':'] + x;
    assert k[|a|] == ':' && k[|b|] == ':';
    SeparatorAt(a, x, |b|);
    SeparatorAt(b, y, |a|);
    assert k[..|a|] == a && k[..|b|] == b && k[|a| + 1..] == x && k[|b| + 1..] == y;
  }

  lemma KvParts(group: string, route: string, k: string)
    requires KvPrefix("", group, route) <= k
    ensures |k| >= 3 && exists rest :: k[3..] == group + [':'] + (route + [':'] + rest)
  {
    var p := KvPrefix("", group, route);
    var rest := k[|p|..];
    KeyNames(group, route, rest);
    assert k == p + rest == "kv:" + group + ":" + route + ":" + rest;
    assert k == "kv:" + (group + [':'] + (route + [':'] + rest));
  }

  lemma GkvParts(group: string, k: string)
    requires GkvPrefix("", group) <= k
    ensures |k| >= 4 && exists rest :: k[4..] == group + [':'] + rest
  {
    var p := GkvPrefix("", group);
    var rest := k[|p|..];
    KeyNames(group, "", rest);
    assert k == p + rest == "gkv:" + group + ":" + rest;
    assert k == "gkv:" + (group + [':'] + rest);
  }

  /** No key is in the buckets of two routes, of two groups, or of a route and a group. */
  lemma BucketsAreApart(group: string, route: string, other: string, sibling: string, k: string)
    requires IsId(group) && IsId(route) && IsId(other) && IsId(sibling)
    ensures KvPrefix("", group, route) <= k && KvPrefix("", other, sibling) <= k ==> group == other && route == sibling
    ensures GkvPrefix("", group) <= k && GkvPrefix("", other) <= k ==> group == other
    ensures !(KvPrefix("", group, route) <= k && GkvPrefix("", other) <= k)
  {
    if KvPrefix("", group, route) <= k && KvPrefix("", other, sibling) <= k {
      KvParts(group, route, k);
      KvParts(other, sibling, k);
      var a :| k[3..] == group + [':'] + (route + [':'] + a);
      var b :| k[3..] == other + [':'] + (sibling + [':'] + b);
      PartsAgree(group, route + [':'] + a, other, sibling + [':'] + b);
      PartsAgree(route, a, sibling, b);
    }
    if GkvPrefix("", group) <= k && GkvPrefix("", other) <= k {
      GkvParts(group, k);
      GkvParts(other, k);
      var a :| k[4..] == group + [':'] + a;
      var b :| k[4..] == other + [':'] + b;
      PartsAgree(group, a, other, b);
    }
    assert KvPrefix("", group, route) <= k ==> k[0] == KvPrefix("", group, route)[0] == 'k';
    assert GkvPrefix("", other) <= k ==> k[0] == GkvPrefix("", other)[0] == 'g';
  }

  /** So no handler, whatever it does, changes what another route or another group has stored. */
  lemma HandlersStayApart(s: Store, group: string, route: string, h: Handler, seen: seq<Reply>, budget: nat,
                          other: string, sibling: string, k: string)
    requires IsId(group) && IsId(route) && IsId(other) && IsId(sibling)
    requires
      || (KvPrefix("", other, sibling) <= k && (other, sibling) != (group, route))
      || (GkvPrefix("", other) <= k && other != group)
    ensures Lookup(Interact(s, KvPrefix("", group, route), GkvPrefix("", group), h, seen, budget).0, k) == Lookup(s, k)
  {
    BucketsAreApart(group, route, other, sibling, k);
    BucketsAreApart(other, sibling, group, route, k);
    InteractStaysWithin(s, KvPrefix("", group, route), GkvPrefix("", group), h, seen, budget, k);
  }
}
