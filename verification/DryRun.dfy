/** Dry-run dispatch: a handler runs against a copy of its state under a throw-away root. */
module DryRuns {
  import opened Wrappers
  import opened KeyStore
  import S = Streaming

  datatype Act =
    | OnRoute(op: Op) | OnGroup(op: Op) | OnStream(call: S.Call)
    | Respond(response: S.Response) | Panic(message: string)

  /** What a handler has been told: a store's answer, or whether its stream call was taken. */
  datatype Reply = Stored(answer: Answer) | Streamed(call: S.Call, taken: bool)

  /** An adaptive handler: its next move may depend on every reply it has seen. */
  type Handler = seq<Reply> -> Act

  datatype Verdict = Responded(response: S.Response) | Trapped(message: string)

  datatype DryRunResponse = DryRunResponse(response: S.Response, error: Option<string>, snapshotKeys: nat)

  function Failure(message: string): S.Response { S.Response(S.StreamHead(500, []), message) }

  const OUT_OF_BUDGET := "epoch deadline"

  function FaultText(f: Fault): string {
    match f
    case WrongType(key, actual, expected) => "WRONGTYPE: key " + key + " holds " + actual + ", op requires " + expected
    case NotInteger(key) => "VALUE: key " + key + " value is not a valid signed integer"
    case IncrOverflow(key) => "OVERFLOW: incr on key " + key + " would overflow s64"
  }

  function KvPrefix(root: string, group: string, route: string): string {
    root + "kv:" + group + ":" + route + ":"
  }

  function GkvPrefix(root: string, group: string): string {
    root + "gkv:" + group + ":"
  }

  /** The stream calls among what was seen, in order. */
  function StreamOps(seen: seq<Reply>): (ops: seq<S.Op>)
    ensures !S.HasDisconnect(ops)
    decreases |seen|
  {
    if seen == [] then []
    else
      var last := seen[|seen| - 1];
      StreamOps(seen[..|seen| - 1]) + if last.Streamed? then [last.call] else []
  }

  /** The reply to a stream call made now. */
  function Heard(seen: seq<Reply>, call: S.Call): Reply {
    Streamed(call, S.Perform(S.Run(StreamOps(seen)), call).1)
  }

  lemma HeardMoves(seen: seq<Reply>, call: S.Call)
    ensures S.Run(StreamOps(seen + [Heard(seen, call)])) == S.Perform(S.Run(StreamOps(seen)), call).0
  {
    var ops := StreamOps(seen) + [call];
    assert (seen + [Heard(seen, call)])[..|seen|] == seen && ops[..|ops| - 1] == StreamOps(seen);
  }

  lemma StoredMoves(seen: seq<Reply>, answer: Answer)
    ensures StreamOps(seen + [Stored(answer)]) == StreamOps(seen)
  {
    assert (seen + [Stored(answer)])[..|seen|] == seen;
  }

  /** What the caller of a dry run is shown: the streamed head and the accepted writes joined in
      order if the handler started streaming and returned, its returned value if it did not start,
      and a trap alone, whatever was streamed before it. */
  ghost function Shown(seen: seq<Reply>, verdict: Verdict): Verdict {
    var ops := StreamOps(seen);
    if verdict.Trapped? || !S.HasStart(ops) then verdict
    else Responded(S.Response(S.FirstHead(ops), S.Concat(S.AcceptedChunks(ops))))
  }

  /** One bucket move: a failed operation traps the handler. */
  function OnBucket(s: Store, p: string, op: Op, seen: seq<Reply>): (Store, seq<Reply>, Option<Verdict>) {
    var (s', answer) := Exec(s, p, op);
    (s', seen + [Stored(answer)], if answer.Failed? then Some(Trapped(FaultText(answer.fault))) else None)
  }

  /** One move of the handler, and its ending if that was the last. */
  function Turn(s: Store, kv: string, gkv: string, h: Handler, seen: seq<Reply>)
    : (Store, seq<Reply>, Option<Verdict>)
  {
    match h(seen)
    case Respond(response) => (s, seen, Some(Responded(response)))
    case Panic(message) => (s, seen, Some(Trapped(message)))
    case OnStream(call) => (s, seen + [Heard(seen, call)], None)
    case OnRoute(op) => OnBucket(s, kv, op, seen)
    case OnGroup(op) => OnBucket(s, gkv, op, seen)
  }

  type Turns = (Store, seq<Reply>) -> (Store, seq<Reply>, Option<Verdict>)

  function TurnsOf(kv: string, gkv: string, h: Handler): Turns {
    (s, seen) => Turn(s, kv, gkv, h, seen)
  }

  /** Turn after turn until one ends it or the budget is spent. */
  function Iterate(turn: Turns, s: Store, seen: seq<Reply>, budget: nat): (Store, seq<Reply>, Verdict)
    decreases budget
  {
    if budget == 0 then (s, seen, Trapped(OUT_OF_BUDGET))
    else
      var (s', seen', ending) := turn(s, seen);
      if ending.Some? then (s', seen', ending.value) else Iterate(turn, s', seen', budget - 1)
  }

  /** What a handler does to the store and sees, run directly on the buckets under the two
      prefixes for at most `budget` moves. */
  function Interact(s: Store, kv: string, gkv: string, h: Handler, seen: seq<Reply>, budget: nat)
    : (r: (Store, seq<Reply>, Verdict))
  {
    Iterate(TurnsOf(kv, gkv, h), s, seen, budget)
  }

  /** Seed values in the order the override map yields them; `None` is an undecodable value. */
  type Overrides = seq<(string, Option<string>)>

  predicate Decodes(o: Overrides) {
    forall i :: 0 <= i < |o| ==> o[i].1.Some?
  }

  /** Apply seed values until one fails to decode. */
  function Seeded(s: Store, prefix: string, o: Overrides): Store
    decreases |o|
  {
    if o == [] || o[0].1.None? then s
    else Seeded(s[prefix + o[0].0 := Bytes(o[0].1.value)], prefix, o[1..])
  }

  // ---- Simulation -------------------------------------------------------

  /** Under each of the two prefixes, the dry store at `root` mirrors the real store. */
  ghost predicate Mirrors(live: Store, dry: Store, root: string, kv: string, gkv: string) {
    forall k :: kv <= k || gkv <= k ==> Lookup(live, k) == Lookup(dry, root + k)
  }

  ghost predicate SameOutside(before: Store, after: Store, root: string) {
    forall k :: !(root <= k) ==> Lookup(before, k) == Lookup(after, k)
  }

  lemma PrefixJoin(a: string, b: string)
    ensures a <= a + b && StripPrefix(a + b, a) == b
  {
  }

  lemma RootedPrefix(root: string, p: string, k: string)
    requires root + p <= k
    ensures root <= k && p <= k[|root|..] && k == root + k[|root|..]
    ensures StripPrefix(k, root + p) == StripPrefix(k[|root|..], p)
  {
    assert k[..|root + p|] == root + p;
    assert k[..|root|] == root;
    assert k[|root|..][..|p|] == p;
  }

  /** Listing keys gives the same names through either view. */
  lemma ListingsAgree(live: Store, dry: Store, root: string, p: string, within: string)
    requires forall k :: p <= k ==> Lookup(live, k) == Lookup(dry, root + k)
    ensures Listed(live, p, within) == Listed(dry, root + p, within)
  {
    var q := p + within;
    assert root + p + within == root + q;
    forall fk | fk in live && q <= fk ensures StripPrefix(fk, p) in Listed(dry, root + p, within) {
      assert fk[..|q|] == q && p <= fk;
      assert Lookup(dry, root + fk) == Lookup(live, fk);
      assert (root + fk)[..|root + q|] == root + q;
      RootedPrefix(root, p, root + fk);
      assert (root + fk)[|root|..] == fk;
    }
    forall fk | fk in dry && root + q <= fk ensures StripPrefix(fk, root + p) in Listed(live, p, within) {
      RootedPrefix(root, q, fk);
      var k := fk[|root|..];
      assert k[..|q|] == q && p <= k;
      assert root + p <= fk by { assert fk[..|root + p|] == root + p; }
      RootedPrefix(root, p, fk);
      assert Lookup(live, k) == Lookup(dry, root + k);
    }
  }

  lemma RootIsInjective(root: string, k: string, j: string)
    requires root + k == root + j
    ensures k == j
  {
    assert (root + k)[|root|..] == k && (root + j)[|root|..] == j;
  }

  lemma AssignMirrors(live: Store, dry: Store, root: string, kv: string, gkv: string, fk: string, v: Option<Value>)
    requires Mirrors(live, dry, root, kv, gkv)
    ensures Mirrors(Assign(live, fk, v), Assign(dry, root + fk, v), root, kv, gkv)
    ensures SameOutside(dry, Assign(dry, root + fk, v), root)
  {
    forall k | root + k == root + fk ensures k == fk { RootIsInjective(root, k, fk); }
    PrefixJoin(root, fk);
  }

  /** One bucket operation: same answer, and the mirror is kept. */
  lemma ExecMirrors(live: Store, dry: Store, root: string, kv: string, gkv: string, p: string, op: Op)
    requires Mirrors(live, dry, root, kv, gkv) && (p == kv || p == gkv)
    ensures Exec(live, p, op).1 == Exec(dry, root + p, op).1
    ensures Mirrors(Exec(live, p, op).0, Exec(dry, root + p, op).0, root, kv, gkv)
    ensures SameOutside(dry, Exec(dry, root + p, op).0, root)
  {
    if op.ListKeys? {
      ListingsAgree(live, dry, root, p, if op.prefix.Some? then op.prefix.value else "");
    } else {
      var fk := p + op.key;
      PrefixJoin(p, op.key);
      PrefixJoin(root + p, op.key);
      assert root + p + op.key == root + fk;
      assert Lookup(live, fk) == Lookup(dry, root + fk);
      AssignMirrors(live, dry, root, kv, gkv, fk, AtKey(Lookup(live, fk), op, op.key).0);
    }
  }

  /** `related` is kept by every operation on either bucket, with equal answers. */
  ghost predicate Simulation(related: (Store, Store) -> bool, root: string, kv: string, gkv: string) {
    forall live, dry, p, op {:trigger related(live, dry), Exec(live, p, op)} ::
      related(live, dry) && (p == kv || p == gkv) ==>
      Exec(live, p, op).1 == Exec(dry, root + p, op).1 && related(Exec(live, p, op).0, Exec(dry, root + p, op).0)
  }

  lemma TurnsAgree(related: (Store, Store) -> bool, live: Store, dry: Store, root: string,
                   kv: string, gkv: string, h: Handler, seen: seq<Reply>)
    requires Simulation(related, root, kv, gkv) && related(live, dry)
    ensures
      var r, d := Turn(live, kv, gkv, h, seen), Turn(dry, root + kv, root + gkv, h, seen);
      r.1 == d.1 && r.2 == d.2 && related(r.0, d.0)
  {
    match h(seen) {
      case OnRoute(op) => assert Exec(live, kv, op).1 == Exec(dry, root + kv, op).1;
      case OnGroup(op) => assert Exec(live, gkv, op).1 == Exec(dry, root + gkv, op).1;
      case _ =>
    }
  }

  /** On related stores the two turns agree, and leave related stores. */
  ghost predicate TurnsSimulate(related: (Store, Store) -> bool, a: Turns, b: Turns) {
    forall l, d, seen {:trigger a(l, seen), b(d, seen)} :: related(l, d) ==>
      a(l, seen).1 == b(d, seen).1 && a(l, seen).2 == b(d, seen).2 && related(a(l, seen).0, b(d, seen).0)
  }

  lemma {:induction false} IterateSimulates(related: (Store, Store) -> bool, a: Turns, b: Turns,
                                            live: Store, dry: Store, seen: seq<Reply>, budget: nat)
    requires TurnsSimulate(related, a, b) && related(live, dry)
    ensures
      var r, d := Iterate(a, live, seen, budget), Iterate(b, dry, seen, budget);
      r.1 == d.1 && r.2 == d.2 && related(r.0, d.0)
    decreases budget
  {
    if budget > 0 {
      var (live', seen', ending) := a(live, seen);
      if ending.None? {
        IterateSimulates(related, a, b, live', b(dry, seen).0, seen', budget - 1);
      }
    }
  }

  /** Whole interactions follow: the handler sees the same replies and ends the same way. */
  lemma InteractSimulates(related: (Store, Store) -> bool, live: Store, dry: Store, root: string,
                          kv: string, gkv: string, h: Handler, seen: seq<Reply>, budget: nat)
    requires Simulation(related, root, kv, gkv) && related(live, dry)
    ensures
      var r, d := Interact(live, kv, gkv, h, seen, budget), Interact(dry, root + kv, root + gkv, h, seen, budget);
      r.1 == d.1 && r.2 == d.2 && related(r.0, d.0)
  {
    var a, b := TurnsOf(kv, gkv, h), TurnsOf(root + kv, root + gkv, h);
    forall l, d, told {:trigger a(l, told), b(d, told)} | related(l, d)
      ensures a(l, told).1 == b(d, told).1 && a(l, told).2 == b(d, told).2 && related(a(l, told).0, b(d, told).0)
    {
      TurnsAgree(related, l, d, root, kv, gkv, h, told);
    }
    IterateSimulates(related, a, b, live, dry, seen, budget);
  }

  /** The handler sees the same answers, ends the same way, and leaves all but the root alone. */
  lemma InteractMirrors(live: Store, dry: Store, root: string, kv: string, gkv: string,
                        h: Handler, seen: seq<Reply>, budget: nat)
    requires Mirrors(live, dry, root, kv, gkv)
    ensures
      var r, d := Interact(live, kv, gkv, h, seen, budget), Interact(dry, root + kv, root + gkv, h, seen, budget);
      r.1 == d.1 && r.2 == d.2 && Mirrors(r.0, d.0, root, kv, gkv) && SameOutside(dry, d.0, root)
  {
    var related := (l: Store, d: Store) => Mirrors(l, d, root, kv, gkv) && SameOutside(dry, d, root);
    forall l, d, p, op {:trigger related(l, d), Exec(l, p, op)} | related(l, d) && (p == kv || p == gkv)
      ensures Exec(l, p, op).1 == Exec(d, root + p, op).1 && related(Exec(l, p, op).0, Exec(d, root + p, op).0)
    {
      ExecMirrors(l, d, root, kv, gkv, p, op);
    }
    InteractSimulates(related, live, dry, root, kv, gkv, h, seen, budget);
  }

  lemma {:induction false} SeedingMirrors(live: Store, dry: Store, root: string, kv: string, gkv: string,
                                          p: string, o: Overrides)
    requires Mirrors(live, dry, root, kv, gkv) && (p == kv || p == gkv)
    ensures Mirrors(Seeded(live, p, o), Seeded(dry, root + p, o), root, kv, gkv)
    ensures SameOutside(dry, Seeded(dry, root + p, o), root)
    decreases |o|
  {
    if o != [] && o[0].1.Some? {
      ExecMirrors(live, dry, root, kv, gkv, p, Put(o[0].0, o[0].1.value));
      SeedingMirrors(live[p + o[0].0 := Bytes(o[0].1.value)], dry[root + p + o[0].0 := Bytes(o[0].1.value)],
                     root, kv, gkv, p, o[1..]);
    }
  }

  lemma SnapshotAt(live: Store, root: string, kv: string, gkv: string, k: string)
    requires Under(live, root) == {} && root != "" && (kv <= k || gkv <= k)
    requires !(root <= gkv) && !(gkv <= root)
    ensures Lookup(live, k) == Lookup(Copied(Copied(live, kv, root + kv), gkv, root + gkv), root + k)
  {
    var once, at := Copied(live, kv, root + kv), root + k;
    CopiedLookup(once, gkv, root + gkv, at);
    CopiedLookup(live, kv, root + kv, at);
    assert root <= at && at[|root|..] == k;
    assert at !in live by { assert at in live ==> at in Under(live, root); }
    assert kv <= k <==> root + kv <= at by { JoinedPrefix(root, kv, k); }
    assert gkv <= k <==> root + gkv <= at by { JoinedPrefix(root, gkv, k); }
    if gkv <= k {
      assert gkv + at[|root + gkv|..] == k by { JoinedPrefix(root, gkv, k); }
      CopiedLookup(live, kv, root + kv, k);
      assert !(root + kv <= k) by {
        if root + kv <= k { RootedPrefix(root, kv, k); PrefixesCompare(root, gkv, k); }
      }
    }
    if kv <= k {
      assert kv + at[|root + kv|..] == k by { JoinedPrefix(root, kv, k); }
    }
  }

  lemma JoinedPrefix(root: string, p: string, k: string)
    ensures p <= k <==> root + p <= root + k
    ensures p <= k ==> p + (root + k)[|root + p|..] == k
  {
    if root + p <= root + k {
      RootedPrefix(root, p, root + k);
      assert (root + k)[|root|..] == k;
    }
    if p <= k {
      assert k == p + k[|p|..] && root + k == (root + p) + k[|p|..];
    }
  }

  lemma PrefixesCompare(a: string, b: string, k: string)
    requires a <= k && b <= k
    ensures a <= b || b <= a
  {
  }

  /** Copying both namespaces under a fresh root sets the mirror up. */
  lemma SnapshotMirrors(live: Store, root: string, kv: string, gkv: string)
    requires Under(live, root) == {}
    requires root != "" && !(root <= gkv) && !(gkv <= root)
    ensures
      var dry := Copied(Copied(live, kv, root + kv), gkv, root + gkv);
      Mirrors(live, dry, root, kv, gkv) && SameOutside(live, dry, root)
  {
    var once := Copied(live, kv, root + kv);
    var dry := Copied(once, gkv, root + gkv);
    forall k ensures Lookup(once, k) == if root + kv <= k && kv + k[|root + kv|..] in live
                                        then Lookup(live, kv + k[|root + kv|..]) else Lookup(live, k) {
      CopiedLookup(live, kv, root + kv, k);
    }
    forall k | !(root <= k) ensures Lookup(live, k) == Lookup(dry, k) {
      assert !(root + kv <= k) && !(root + gkv <= k) by {
        if root + kv <= k { RootedPrefix(root, kv, k); }
        if root + gkv <= k { RootedPrefix(root, gkv, k); }
      }
      CopiedLookup(once, gkv, root + gkv, k);
    }
    forall k | kv <= k || gkv <= k ensures Lookup(live, k) == Lookup(dry, root + k) {
      SnapshotAt(live, root, kv, gkv, k);
    }
  }

  lemma PrefixesUnderRoot(root: string, group: string, route: string)
    ensures KvPrefix(root, group, route) == root + KvPrefix("", group, route)
    ensures GkvPrefix(root, group) == root + GkvPrefix("", group)
  {
    assert "" + "kv:" == "kv:" && "" + "gkv:" == "gkv:";
    assert root + "kv:" + group + ":" + route + ":" == root + ("kv:" + group + ":" + route + ":");
    assert root + "gkv:" + group + ":" == root + ("gkv:" + group + ":");
  }

  lemma RootIsApart(runId: string, group: string)
    ensures var root, gkv := DryRoot(runId), GkvPrefix("", group); !(root <= gkv) && !(gkv <= root) && root != ""
  {
    assert DryRoot(runId)[0] == 'd' && GkvPrefix("", group)[0] == 'g';
  }

  function DryRoot(runId: string): string { "dryrun:" + runId + ":" }

  lemma PurgeRestores(before: Store, after: Store, root: string)
    requires Under(before, root) == {} && SameOutside(before, after, root)
    ensures Purged(after, root) == before
  {
    var purged := Purged(after, root);
    forall k ensures Lookup(purged, k) == Lookup(before, k) {
      assert Lookup(before, k) == Lookup(after, k) || root <= k;
      assert root <= k && k in before ==> k in Under(before, root);
    }
    forall k ensures k in purged <==> k in before {
      assert Lookup(purged, k) == Lookup(before, k);
    }
    forall k | k in before ensures purged[k] == before[k] {
      assert Lookup(purged, k) == Lookup(before, k);
    }
  }

  lemma CopyLeavesCount(s: Store, root: string, kv: string, gkv: string)
    requires Under(s, root) == {} && !(root <= gkv) && !(gkv <= root)
    ensures Under(Copied(s, kv, root + kv), gkv) == Under(s, gkv)
  {
    forall k | gkv <= k ensures Lookup(Copied(s, kv, root + kv), k) == Lookup(s, k) {
      CopiedLookup(s, kv, root + kv, k);
      if root + kv <= k { RootedPrefix(root, kv, k); PrefixesCompare(root, gkv, k); }
    }
    forall k | gkv <= k ensures k in Copied(s, kv, root + kv) <==> k in s {
      assert Lookup(Copied(s, kv, root + kv), k) == Lookup(s, k);
    }
  }

  // ---- The run itself ----------------------------------------------------

  /** The store the handler would meet if the overrides were applied to the real state. */
  function RealState(s: Store, group: string, route: string, kvo: Overrides, gkvo: Overrides): Store {
    Seeded(Seeded(s, KvPrefix("", group, route), kvo), GkvPrefix("", group), gkvo)
  }

  function RealRun(s: Store, group: string, route: string, kvo: Overrides, gkvo: Overrides, h: Handler, budget: nat)
    : (seq<Reply>, Verdict)
  {
    var (_, seen, verdict) := Interact(RealState(s, group, route, kvo, gkvo), KvPrefix("", group, route),
                                       GkvPrefix("", group), h, [], budget);
    (seen, verdict)
  }

  /** Apply the overrides in order; stop at the first that does not decode. */
  method ApplyOverrides(bucket: Bucket, ns: string, o: Overrides) returns (failed: Option<string>)
    modifies bucket.storage
    ensures failed.None? <==> Decodes(o)
    ensures bucket.storage.kv == Seeded(old(bucket.storage.kv), bucket.prefix, o)
  {
    var i := 0;
    while i < |o|
      invariant i <= |o| && Decodes(o[..i])
      invariant Seeded(old(bucket.storage.kv), bucket.prefix, o) == Seeded(bucket.storage.kv, bucket.prefix, o[i..])
    {
      assert o[i..][1..] == o[i+1..];
      if o[i].1.None? {
        return Some("decode " + ns + " override " + o[i].0);
      }
      var _ := bucket.Perform(Put(o[i].0, o[i].1.value));
      i := i + 1;
    }
    failed := None;
  }

  /** One stream call on the sink of the invocation. */
  method Stream(sink: S.StreamSink, ghost seen: seq<Reply>, call: S.Call) returns (reply: Reply)
    requires sink.State() == S.Run(StreamOps(seen))
    modifies sink
    ensures reply == Heard(seen, call) && sink.State() == S.Run(StreamOps(seen + [reply]))
  {
    HeardMoves(seen, call);
    var taken := false;
    match call {
      case Start(head) => sink.Begin(head);
      case Write(bytes) => taken := sink.WriteChunk(bytes);
      case Finish => sink.End();
    }
    reply := Streamed(call, taken);
  }

  /** One move of the handler, on its buckets or its stream. */
  method Move(route: Bucket, group: Bucket, sink: S.StreamSink, h: Handler, seen: seq<Reply>)
    returns (more: seq<Reply>, ending: Option<Verdict>)
    requires route.storage == group.storage && sink.State() == S.Run(StreamOps(seen))
    modifies route.storage, sink
    ensures (route.storage.kv, more, ending) == Turn(old(route.storage.kv), route.prefix, group.prefix, h, seen)
    ensures sink.State() == S.Run(StreamOps(more))
  {
    var answer;
    match h(seen) {
      case Respond(response) => return seen, Some(Responded(response));
      case Panic(message) => return seen, Some(Trapped(message));
      case OnStream(call) =>
        var reply := Stream(sink, seen, call);
        return seen + [reply], None;
      case OnRoute(op) => answer := route.Perform(op);
      case OnGroup(op) => answer := group.Perform(op);
    }
    StoredMoves(seen, answer);
    more := seen + [Stored(answer)];
    ending := if answer.Failed? then Some(Trapped(FaultText(answer.fault))) else None;
  }

  /** Drive the handler until it answers, traps or is out of budget. `sent` is what came out of its
      stream. */
  method Drive(route: Bucket, group: Bucket, h: Handler, budget: nat)
    returns (seen: seq<Reply>, verdict: Verdict, sent: seq<S.Event>)
    requires route.storage == group.storage
    modifies route.storage
    ensures (route.storage.kv, seen, verdict) ==
            Interact(old(route.storage.kv), route.prefix, group.prefix, h, [], budget)
    ensures sent == S.Run(StreamOps(seen)).sent
  {
    var left := budget;
    var sink := new S.StreamSink();
    seen := [];
    while left > 0
      invariant sink.State() == S.Run(StreamOps(seen))
      invariant Interact(old(route.storage.kv), route.prefix, group.prefix, h, [], budget)
             == Interact(route.storage.kv, route.prefix, group.prefix, h, seen, left)
      decreases left
    {
      var ending;
      seen, ending := Move(route, group, sink, h, seen);
      if ending.Some? {
        return seen, ending.value, sink.sent;
      }
      left := left - 1;
    }
    verdict, sent := Trapped(OUT_OF_BUDGET), sink.sent;
  }

  /** Drain the stream, then let a trap or else a streamed head take precedence. */
  method Deliver(verdict: Verdict, sent: seq<S.Event>, ghost seen: seq<Reply>) returns (shown: Verdict)
    requires sent == S.Run(StreamOps(seen)).sent
    ensures shown == Shown(seen, verdict)
  {
    var collected := S.CollectRun(sent, StreamOps(seen));
    shown := if verdict.Responded? && collected.Some? then Responded(collected.value) else verdict;
  }

  /** Snapshot, seed and run. Leaves the throw-away root behind. */
  method RunInSnapshot(storage: Storage, root: string, group: string, route: string,
                       kvo: Overrides, gkvo: Overrides, h: Handler, budget: nat)
    returns (seen: seq<Reply>, verdict: Verdict, copied: nat)
    requires Under(storage.kv, root) == {} && root != ""
    requires !(root <= GkvPrefix("", group)) && !(GkvPrefix("", group) <= root)
    modifies storage
    ensures SameOutside(old(storage.kv), storage.kv, root)
    ensures copied == |Under(old(storage.kv), KvPrefix("", group, route))|
      + |Under(old(storage.kv), GkvPrefix("", group))|
    ensures Decodes(kvo) && Decodes(gkvo) ==>
      var (replies, ending) := RealRun(old(storage.kv), group, route, kvo, gkvo, h, budget);
      seen == replies && verdict == Shown(replies, ending)
    ensures !(Decodes(kvo) && Decodes(gkvo)) ==> seen == [] && verdict.Trapped?
  {
    ghost var before := storage.kv;
    var kv, gkv := KvPrefix("", group, route), GkvPrefix("", group);
    PrefixesUnderRoot(root, group, route);
    var n := storage.CopyKeysWithPrefix(kv, root + kv);
    var m := storage.CopyKeysWithPrefix(gkv, root + gkv);
    copied := n + m;
    CopyLeavesCount(before, root, kv, gkv);
    ghost var snapshot := storage.kv;
    SnapshotMirrors(before, root, kv, gkv);

    var routeBucket := new Bucket(storage, KvPrefix(root, group, route));
    var groupBucket := new Bucket(storage, GkvPrefix(root, group));
    var failed := ApplyOverrides(routeBucket, "kv", kvo);
    ghost var seeded := storage.kv;
    SeedingMirrors(before, snapshot, root, kv, gkv, kv, kvo);
    if failed.Some? {
      return [], Trapped(failed.value), copied;
    }
    failed := ApplyOverrides(groupBucket, "gkv", gkvo);
    ghost var ready := storage.kv;
    SeedingMirrors(Seeded(before, kv, kvo), seeded, root, kv, gkv, gkv, gkvo);
    if failed.Some? {
      return [], Trapped(failed.value), copied;
    }
    var ending, sent;
    seen, ending, sent := Drive(routeBucket, groupBucket, h, budget);
    verdict := Deliver(ending, sent, seen);
    InteractMirrors(RealState(before, group, route, kvo, gkvo), ready, root, kv, gkv, h, [], budget);
  }

  /** The handler sees what it would see on the real state with the overrides applied, and on
      every exit path the store is what it was. A run id is fresh, so nothing is under its root. */
  method DryRun(storage: Storage, runId: string, group: string, route: string,
                kvo: Overrides, gkvo: Overrides, h: Handler, budget: nat)
    returns (resp: DryRunResponse, seen: seq<Reply>)
    requires Under(storage.kv, DryRoot(runId)) == {}
    modifies storage
    ensures storage.kv == old(storage.kv)
    ensures resp.snapshotKeys ==
      |Under(old(storage.kv), KvPrefix("", group, route))| + |Under(old(storage.kv), GkvPrefix("", group))|
    ensures Decodes(kvo) && Decodes(gkvo) ==>
      var (replies, ending) := RealRun(old(storage.kv), group, route, kvo, gkvo, h, budget);
      var ops := StreamOps(replies);
      && seen == replies
      && match ending
         case Responded(returned) =>
           resp.error == None && resp.response ==
             if S.HasStart(ops) then S.Response(S.FirstHead(ops), S.Concat(S.AcceptedChunks(ops))) else returned
         case Trapped(message) =>
           resp.error == Some(message) && resp.response == S.Response(S.StreamHead(500, []), message)
    ensures !(Decodes(kvo) && Decodes(gkvo)) ==>
      seen == [] && resp.error.Some? && resp.response == S.Response(S.StreamHead(500, []), resp.error.value)
  {
    ghost var before := storage.kv;
    var root := DryRoot(runId);
    RootIsApart(runId, group);
    var verdict, copied;
    seen, verdict, copied := RunInSnapshot(storage, root, group, route, kvo, gkvo, h, budget);
    PurgeRestores(before, storage.kv, root);
    var _ := storage.DeleteWithPrefix(root);
    resp := match verdict
      case Responded(response) => DryRunResponse(response, None, copied)
      case Trapped(message) => DryRunResponse(Failure(message), Some(message), copied);
  }
}
