/** The streaming response sink of one invocation, and the body a dry run collects from it. */
module Streaming {
  import opened Wrappers

  /** A body, one character to a byte. */
  type Bytes = string

  datatype StreamHead = StreamHead(status: nat, headers: seq<(string, string)>)

  /** What reaches the receiving side, in order. */
  datatype Event = Head(head: StreamHead) | Chunk(bytes: Bytes)

  /** `head` and `chunks` are the senders, gone once used or dropped; `receiver` is whether the
      client still reads; `sent` is what went out. */
  datatype Sink = Sink(head: bool, chunks: bool, started: bool, chunkCount: nat, byteCount: nat,
                       clientDisconnected: bool, receiver: bool, sent: seq<Event>)

  const WIRED := Sink(true, true, false, 0, 0, false, true, [])

  datatype Op = Start(head: StreamHead) | Write(bytes: Bytes) | Finish | Disconnect

  /** What a handler can do: the client's leaving is not up to it. */
  type Call = op: Op | !op.Disconnect? witness Finish

  /** One call of the handler, or the client going away; `Write` answers whether it was taken. */
  function Perform(s: Sink, op: Op): (Sink, bool) {
    match op
    case Start(h) =>
      if !s.head then (s, false)
      else (s.(head := false, started := true, sent := if s.receiver then s.sent + [Head(h)] else s.sent), false)
    case Write(bytes) =>
      if !s.started || !s.chunks then (s, false)
      else if !s.receiver then (s.(clientDisconnected := true), false)
      else (s.(chunkCount := s.chunkCount + 1, byteCount := s.byteCount + |bytes|,
               sent := s.sent + [Chunk(bytes)]), true)
    case Finish => (s.(chunks := false), false)
    case Disconnect => (s.(receiver := false), false)
  }

  function Run(ops: seq<Op>): Sink
    decreases |ops|
  {
    if ops == [] then WIRED else Perform(Run(ops[..|ops| - 1]), ops[|ops| - 1]).0
  }

  // ---- What a run amounts to -----------------------------------------------------------

  predicate HasStart(ops: seq<Op>) { exists i :: 0 <= i < |ops| && ops[i].Start? }

  predicate HasFinish(ops: seq<Op>) { Finish in ops }

  predicate HasDisconnect(ops: seq<Op>) { Disconnect in ops }

  /** The client was still there when the head went out. */
  predicate StartsInTime(ops: seq<Op>) { exists i :: 0 <= i < |ops| && StartAt(ops, i) }

  predicate StartAt(ops: seq<Op>, i: nat)
    requires i < |ops|
  {
    ops[i].Start? && !HasDisconnect(ops[..i])
  }

  /** Operation `i` is a write that comes after a start and before any finish or disconnect. */
  predicate Accepted(ops: seq<Op>, i: int) {
    && 0 <= i < |ops| && ops[i].Write? && HasStart(ops[..i]) && !HasFinish(ops[..i]) && !HasDisconnect(ops[..i])
  }

  /** The bytes of the accepted writes, in order. */
  function AcceptedChunks(ops: seq<Op>): seq<Bytes>
    decreases |ops|
  {
    if ops == [] then []
    else
      var n := |ops| - 1;
      AcceptedChunks(ops[..n]) + if Accepted(ops, n) then [ops[n].bytes] else []
  }

  function Concat(chunks: seq<Bytes>): Bytes
    decreases |chunks|
  {
    if chunks == [] then [] else Concat(chunks[..|chunks| - 1]) + chunks[|chunks| - 1]
  }

  function AsChunks(chunks: seq<Bytes>): (events: seq<Event>)
    ensures |events| == |chunks| && forall i :: 0 <= i < |chunks| ==> events[i] == Chunk(chunks[i])
    decreases |chunks|
  {
    if chunks == [] then [] else AsChunks(chunks[..|chunks| - 1]) + [Chunk(chunks[|chunks| - 1])]
  }

  /** The head of the first start. */
  function FirstHead(ops: seq<Op>): (h: StreamHead)
    requires HasStart(ops)
    decreases |ops|
  {
    if HasStart(ops[..|ops| - 1]) then FirstHead(ops[..|ops| - 1])
    else
      assert ops[|ops| - 1].Start? by {
        assert forall i :: 0 <= i < |ops| - 1 ==> ops[i] == ops[..|ops| - 1][i];
      }
      ops[|ops| - 1].head
  }

  lemma OneMore(ops: seq<Op>)
    requires ops != []
    ensures
      var before, op := ops[..|ops| - 1], ops[|ops| - 1];
      && (HasStart(ops) <==> HasStart(before) || op.Start?)
      && (HasFinish(ops) <==> HasFinish(before) || op.Finish?)
      && (HasDisconnect(ops) <==> HasDisconnect(before) || op.Disconnect?)
      && (StartsInTime(ops) <==> StartsInTime(before) || (op.Start? && !HasDisconnect(before)))
  {
    var n := |ops| - 1;
    assert ops == ops[..n] + [ops[n]];
    if HasStart(ops[..n]) {
      var i :| 0 <= i < n && ops[..n][i].Start?;
      assert ops[i].Start?;
    }
    assert forall i :: 0 <= i < n ==> ops[i] == ops[..n][i];
    forall i | 0 <= i < n ensures StartAt(ops, i) <==> StartAt(ops[..n], i) {
      assert ops[..i] == ops[..n][..i];
    }
    assert StartAt(ops, n) <==> ops[n].Start? && !HasDisconnect(ops[..n]);
    if StartsInTime(ops[..n]) {
      var i :| 0 <= i < n && StartAt(ops[..n], i);
      assert StartAt(ops, i);
    }
  }

  lemma {:induction false} FlagsMean(ops: seq<Op>)
    ensures
      var s := Run(ops);
      && s.started == HasStart(ops) && s.head == !HasStart(ops)
      && s.chunks == !HasFinish(ops) && s.receiver == !HasDisconnect(ops)
      && (HasStart(ops) && !HasDisconnect(ops) ==> StartsInTime(ops))
      && (StartsInTime(ops) ==> HasStart(ops))
      && (!StartsInTime(ops) ==> AcceptedChunks(ops) == [])
    decreases |ops|
  {
    if ops != [] {
      FlagsMean(ops[..|ops| - 1]);
      OneMore(ops);
    }
  }

  lemma ConcatGrows(chunks: seq<Bytes>, bytes: Bytes)
    ensures |Concat(chunks + [bytes])| == |Concat(chunks)| + |bytes|
  {
    assert (chunks + [bytes])[..|chunks|] == chunks;
  }

  lemma TotalsStep(before: seq<Op>, op: Op)
    ensures
      var s, s' := Run(before), Run(before + [op]);
      var taken := HasStart(before) && !HasFinish(before) && !HasDisconnect(before);
      && s'.chunkCount == s.chunkCount + (if op.Write? && taken then 1 else 0)
      && s'.byteCount == s.byteCount + if op.Write? && taken then |op.bytes| else 0
  {
    FlagsMean(before);
    assert (before + [op])[..|before|] == before;
  }

  lemma AcceptedStep(before: seq<Op>, op: Op)
    ensures
      var taken := HasStart(before) && !HasFinish(before) && !HasDisconnect(before);
      AcceptedChunks(before + [op]) == AcceptedChunks(before) + if op.Write? && taken then [op.bytes] else []
  {
    assert (before + [op])[..|before|] == before;
  }

  lemma {:induction false} TotalsMean(ops: seq<Op>)
    ensures Run(ops).chunkCount == |AcceptedChunks(ops)| && Run(ops).byteCount == |Concat(AcceptedChunks(ops))|
    decreases |ops|
  {
    if ops != [] {
      var before, last := ops[..|ops| - 1], ops[|ops| - 1];
      assert ops == before + [last];
      TotalsMean(before);
      TotalsStep(before, last);
      AcceptedStep(before, last);
      assert AcceptedChunks(before) + [] == AcceptedChunks(before);
      if last.Write? { ConcatGrows(AcceptedChunks(before), last.bytes); }
    }
  }

  lemma AsChunksGrow(chunks: seq<Bytes>, bytes: Bytes)
    ensures AsChunks(chunks + [bytes]) == AsChunks(chunks) + [Chunk(bytes)]
  {
    assert (chunks + [bytes])[..|chunks|] == chunks;
  }

  lemma FirstHeadStep(before: seq<Op>, op: Op)
    requires HasStart(before + [op]) && (HasStart(before) || op.Start?)
    ensures FirstHead(before + [op]) == if HasStart(before) then FirstHead(before) else op.head
  {
    assert (before + [op])[..|before|] == before;
  }

  lemma SentStep(before: seq<Op>, op: Op)
    ensures
      var taken := HasStart(before) && !HasFinish(before) && !HasDisconnect(before);
      Run(before + [op]).sent == Run(before).sent +
        if op.Start? && !HasStart(before) && !HasDisconnect(before) then [Head(op.head)]
        else if op.Write? && taken then [Chunk(op.bytes)]
        else []
  {
    FlagsMean(before);
    assert (before + [op])[..|before|] == before;
  }

  lemma {:induction false} SentMeans(ops: seq<Op>)
    ensures StartsInTime(ops) ==> HasStart(ops)
    ensures Run(ops).sent ==
      if StartsInTime(ops) then [Head(FirstHead(ops))] + AsChunks(AcceptedChunks(ops)) else []
    decreases |ops|
  {
    if ops != [] {
      var before, last := ops[..|ops| - 1], ops[|ops| - 1];
      assert ops == before + [last];
      SentMeans(before);
      FlagsMean(before);
      OneMore(ops);
      SentStep(before, last);
      AcceptedStep(before, last);
      if HasStart(ops) { FirstHeadStep(before, last); }
      if last.Write? { AsChunksGrow(AcceptedChunks(before), last.bytes); }
    }
  }

  /** Over every run: nothing goes out if the client left before the first start; otherwise its head
      goes out, once and before any chunk, and then exactly the accepted writes in order. The totals
      are their number and summed length. */
  lemma RunMeans(ops: seq<Op>)
    ensures
      var s, taken := Run(ops), AcceptedChunks(ops);
      && s.started == HasStart(ops) && s.chunks == !HasFinish(ops) && s.receiver == !HasDisconnect(ops)
      && (HasStart(ops) && !HasDisconnect(ops) ==> StartsInTime(ops))
      && (StartsInTime(ops) ==> HasStart(ops))
      && s.sent == (if StartsInTime(ops) then [Head(FirstHead(ops))] + AsChunks(taken) else [])
      && s.chunkCount == |taken| && s.byteCount == |Concat(taken)|
  {
    FlagsMean(ops);
    TotalsMean(ops);
    SentMeans(ops);
  }

  /** A write is taken exactly after a start and before any finish or disconnect. */
  lemma WriteAnswers(ops: seq<Op>, bytes: Bytes)
    ensures Perform(Run(ops), Write(bytes)).1 <==> HasStart(ops) && !HasFinish(ops) && !HasDisconnect(ops)
  {
    RunMeans(ops);
  }

  /** Nothing goes out after a finish or a disconnect but the head, if it had not gone yet. */
  lemma {:induction false} NothingAcceptedAfterEnd(ops: seq<Op>, more: seq<Op>)
    requires HasFinish(ops) || HasDisconnect(ops)
    ensures AcceptedChunks(ops + more) == AcceptedChunks(ops)
    ensures Run(ops + more).chunkCount == Run(ops).chunkCount && Run(ops + more).byteCount == Run(ops).byteCount
    decreases |more|
  {
    RunMeans(ops + more);
    RunMeans(ops);
    if more == [] {
      assert ops + more == ops;
    } else {
      var n := |more| - 1;
      NothingAcceptedAfterEnd(ops, more[..n]);
      assert (ops + more)[..|ops + more| - 1] == ops + more[..n];
    }
  }

  lemma MissedStep(ops: seq<Op>)
    requires ops != []
    ensures
      var before, op := ops[..|ops| - 1], ops[|ops| - 1];
      (exists i :: MissedClient(ops, i)) <==>
        || (exists i :: MissedClient(before, i))
        || (op.Write? && HasStart(before) && !HasFinish(before) && HasDisconnect(before))
  {
    var n := |ops| - 1;
    var before := ops[..n];
    forall i | 0 <= i < n ensures MissedClient(ops, i) <==> MissedClient(before, i) {
      assert ops[..i] == before[..i];
    }
    if i :| MissedClient(before, i) { assert MissedClient(ops, i); }
    assert MissedClient(ops, n) <==> ops[n].Write? && HasStart(before) && !HasFinish(before) && HasDisconnect(before);
  }

  /** The journal's disconnect flag is set exactly if a write was made after a start and a
      disconnect and before any finish. */
  lemma {:induction false} DisconnectFlagMeans(ops: seq<Op>)
    ensures Run(ops).clientDisconnected <==> exists i :: MissedClient(ops, i)
    decreases |ops|
  {
    if ops != [] {
      DisconnectFlagMeans(ops[..|ops| - 1]);
      FlagsMean(ops[..|ops| - 1]);
      MissedStep(ops);
    }
  }

  ghost predicate MissedClient(ops: seq<Op>, i: int) {
    0 <= i < |ops| && ops[i].Write? && HasStart(ops[..i]) && !HasFinish(ops[..i]) && HasDisconnect(ops[..i])
  }

  // ---- The sink of an invocation ------------------------------------------------------------

  class StreamSink {
    var head: bool
    var chunks: bool
    var started: bool
    var chunkCount: nat
    var byteCount: nat
    var clientDisconnected: bool
    var receiver: bool
    var sent: seq<Event>

    function State(): Sink
      reads this
    {
      Sink(head, chunks, started, chunkCount, byteCount, clientDisconnected, receiver, sent)
    }

    constructor ()
      ensures State() == WIRED
    {
      head, chunks, started, chunkCount, byteCount := true, true, false, 0, 0;
      clientDisconnected, receiver, sent := false, true, [];
    }

    method Begin(h: StreamHead)
      modifies this
      ensures State() == Perform(old(State()), Start(h)).0
    {
      if head {
        head := false;
        started := true;
        if receiver {
          sent := sent + [Head(h)];
        }
      }
    }

    method WriteChunk(bytes: Bytes) returns (taken: bool)
      modifies this
      ensures (State(), taken) == Perform(old(State()), Write(bytes))
    {
      if !started {
        return false;
      }
      if !chunks {
        return false;
      }
      taken := Send(bytes);
      if taken {
        chunkCount := chunkCount + 1;
        byteCount := byteCount + |bytes|;
      } else {
        clientDisconnected := true;
      }
    }

    /** The channel: an error once the receiver is gone. */
    method Send(bytes: Bytes) returns (ok: bool)
      modifies this`sent
      ensures ok == receiver && sent == if receiver then old(sent) + [Chunk(bytes)] else old(sent)
    {
      ok := receiver;
      if ok {
        sent := sent + [Chunk(bytes)];
      }
    }

    method End()
      modifies this`chunks
      ensures State() == Perform(old(State()), Finish).0
    {
      chunks := false;
    }

    method Stats() returns (r: Option<(nat, nat, bool)>)
      ensures r == if started then Some((chunkCount, byteCount, clientDisconnected)) else None
    {
      r := if started then Some((chunkCount, byteCount, clientDisconnected)) else None;
    }
  }

  // ---- The dry run's side ---------------------------------------------------------------------

  datatype Response = Response(head: StreamHead, body: Bytes)

  /** Receive until the channel is closed and empty. */
  method Collect(events: seq<Event>) returns (head: Option<StreamHead>, body: Bytes)
    requires forall i :: 0 <= i < |events| ==> (events[i].Head? <==> i == 0)
    ensures head == if events == [] then None else Some(events[0].head)
    ensures events != [] ==> exists chunks :: events[1..] == AsChunks(chunks) && body == Concat(chunks)
    ensures events == [] ==> body == []
  {
    body := [];
    head := None;
    if events == [] {
      return;
    }
    head := Some(events[0].head);
    ghost var got: seq<Bytes> := [];
    var i := 1;
    while i < |events|
      invariant 1 <= i <= |events|
      invariant events[1..i] == AsChunks(got) && body == Concat(got)
    {
      ghost var more := got + [events[i].bytes];
      assert more[..|more| - 1] == got;
      assert events[1..i + 1] == events[1..i] + [Chunk(events[i].bytes)];
      got := more;
      body := body + events[i].bytes;
      i := i + 1;
    }
    assert events[1..] == events[1..i];
  }

  lemma AsChunksInjective(a: seq<Bytes>, b: seq<Bytes>)
    requires AsChunks(a) == AsChunks(b)
    ensures a == b
  {
    forall i | 0 <= i < |a| ensures a[i] == b[i] {
      assert AsChunks(a)[i] == Chunk(a[i]) && AsChunks(b)[i] == Chunk(b[i]);
    }
  }

  /** What collecting a run's output amounts to while the receiver stays. */
  method CollectRun(events: seq<Event>, ghost ops: seq<Op>) returns (r: Option<Response>)
    requires events == Run(ops).sent && !HasDisconnect(ops)
    ensures r == if HasStart(ops) then Some(Response(FirstHead(ops), Concat(AcceptedChunks(ops)))) else None
  {
    RunMeans(ops);
    var head, body := Collect(events);
    if head.Some? {
      assert events[1..] == AsChunks(AcceptedChunks(ops));
      forall chunks | events[1..] == AsChunks(chunks) ensures chunks == AcceptedChunks(ops) {
        AsChunksInjective(chunks, AcceptedChunks(ops));
      }
      r := Some(Response(head.value, body));
    } else {
      r := None;
    }
  }
}
