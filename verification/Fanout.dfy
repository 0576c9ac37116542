/** Journal events between replicas: each is broadcast locally at once, then published with the
    origin's id, and a sibling's subscriber drops what its own origin sent. */
module Fanout {
  type ReplicaId = int
  type EventId = int
  type Origin = int

  datatype Wire = Wire(origin: Origin, event: EventId)

  /** `up` is whether a subscription session is open, `queue` what it has received and not yet
      handled, `local` the events put into the local broadcast, oldest first. */
  datatype Replica = Replica(origin: Origin, distributed: bool, up: bool, queue: seq<Wire>, local: seq<EventId>)

  /** `outgoing` are events sent locally whose PUBLISH has not been made; `source` is history. */
  datatype State = State(replicas: map<ReplicaId, Replica>, outgoing: map<EventId, Wire>,
                         source: map<EventId, ReplicaId>)

  datatype Step =
    | Send(r: ReplicaId, event: EventId)
    | Publish(event: EventId)
    | PublishFails(event: EventId)
    | SessionUp(r: ReplicaId)
    | SessionDown(r: ReplicaId)
    | Handle(r: ReplicaId)

  predicate Enabled(s: State, step: Step) {
    match step
    case Send(r, e) => r in s.replicas && e !in s.source
    case Publish(e) => e in s.outgoing
    case PublishFails(e) => e in s.outgoing
    case SessionUp(r) => r in s.replicas && s.replicas[r].distributed
    case SessionDown(r) => r in s.replicas
    case Handle(r) => r in s.replicas && s.replicas[r].up && s.replicas[r].queue != []
  }

  function Received(rep: Replica, w: Wire): Replica {
    if rep.up then rep.(queue := rep.queue + [w]) else rep
  }

  function Handled(rep: Replica): Replica
    requires rep.queue != []
  {
    var w := rep.queue[0];
    rep.(queue := rep.queue[1..], local := if w.origin == rep.origin then rep.local else rep.local + [w.event])
  }

  function Next(s: State, step: Step): State
    requires Enabled(s, step)
  {
    match step
    case Send(r, e) =>
      var rep := s.replicas[r];
      State(s.replicas[r := rep.(local := rep.local + [e])],
            if rep.distributed then s.outgoing[e := Wire(rep.origin, e)] else s.outgoing,
            s.source[e := r])
    case Publish(e) =>
      s.(replicas := map r | r in s.replicas :: Received(s.replicas[r], s.outgoing[e]), outgoing := s.outgoing - {e})
    case PublishFails(e) => s.(outgoing := s.outgoing - {e})
    case SessionUp(r) => s.(replicas := s.replicas[r := s.replicas[r].(up := true, queue := [])])
    case SessionDown(r) => s.(replicas := s.replicas[r := s.replicas[r].(up := false, queue := [])])
    case Handle(r) => s.(replicas := s.replicas[r := Handled(s.replicas[r])])
  }

  ghost predicate Run(s: State, steps: seq<Step>, end: State)
    decreases |steps|
  {
    if steps == [] then s == end else Enabled(s, steps[0]) && Run(Next(s, steps[0]), steps[1..], end)
  }

  ghost predicate Init(s: State) {
    && s.outgoing == map[] && s.source == map[]
    && forall r :: r in s.replicas ==> !s.replicas[r].up && s.replicas[r].queue == [] && s.replicas[r].local == []
  }

  /** How often event `e` is in the local broadcast, and how often it is waiting. */
  function Seen(rep: Replica, e: EventId): nat {
    multiset(rep.local)[e]
  }

  function Waiting(q: seq<Wire>, e: EventId): nat {
    if q == [] then 0 else (if q[0].event == e then 1 else 0) + Waiting(q[1..], e)
  }

  /** The wires around carry the origin of the replica that sent the event. */
  ghost predicate Genuine(s: State, w: Wire) {
    w.event in s.source && s.source[w.event] in s.replicas && w.origin == s.replicas[s.source[w.event]].origin
  }

  ghost predicate EventOk(s: State, r: ReplicaId, e: EventId)
    requires r in s.replicas
  {
    var rep := s.replicas[r];
    if e !in s.source then Seen(rep, e) == 0 && Waiting(rep.queue, e) == 0 && e !in s.outgoing
    else if s.source[e] == r then
      Seen(rep, e) == 1 && Waiting(rep.queue, e) <= 1 && (e in s.outgoing ==> Waiting(rep.queue, e) == 0)
    else
      Seen(rep, e) + Waiting(rep.queue, e) <= 1 && (e in s.outgoing ==> Seen(rep, e) + Waiting(rep.queue, e) == 0)
  }

  ghost predicate Inv(s: State) {
    && (forall e :: e in s.outgoing ==> s.outgoing[e].event == e && Genuine(s, s.outgoing[e]))
    && (forall r, w :: r in s.replicas && w in s.replicas[r].queue ==> Genuine(s, w))
    && (forall r, e :: r in s.replicas ==> EventOk(s, r, e))
  }

  lemma {:induction false} WaitingAppends(q: seq<Wire>, w: Wire, e: EventId)
    ensures Waiting(q + [w], e) == Waiting(q, e) + if w.event == e then 1 else 0
  {
    if q == [] {
      assert ([] + [w])[1..] == [];
    } else {
      WaitingAppends(q[1..], w, e);
      assert (q + [w])[1..] == q[1..] + [w];
    }
  }

  lemma PublishKeepsEvent(s: State, x: EventId, r: ReplicaId, e: EventId)
    requires Inv(s) && x in s.outgoing && r in s.replicas
    ensures EventOk(Next(s, Publish(x)), r, e)
  {
    assert EventOk(s, r, e);
    WaitingAppends(s.replicas[r].queue, s.outgoing[x], e);
  }

  lemma SendKeepsEvent(s: State, q: ReplicaId, x: EventId, r: ReplicaId, e: EventId)
    requires Inv(s) && Enabled(s, Send(q, x)) && r in s.replicas
    ensures EventOk(Next(s, Send(q, x)), r, e)
  {
    assert EventOk(s, r, e);
  }

  lemma HandleKeepsEvent(s: State, r: ReplicaId, e: EventId)
    requires Inv(s) && Enabled(s, Handle(r))
    ensures EventOk(Next(s, Handle(r)), r, e)
  {
    var rep := s.replicas[r];
    var w := rep.queue[0];
    assert w in rep.queue && Genuine(s, w) && EventOk(s, r, e);
    assert Seen(Handled(rep), e) == Seen(rep, e) + if w.origin != rep.origin && w.event == e then 1 else 0;
  }

  lemma StepKeepsEvent(s: State, step: Step, r: ReplicaId, e: EventId)
    requires Inv(s) && Enabled(s, step) && r in s.replicas
    ensures EventOk(Next(s, step), r, e)
  {
    assert EventOk(s, r, e);
    match step
    case Send(q, x) => SendKeepsEvent(s, q, x, r, e);
    case Publish(x) => PublishKeepsEvent(s, x, r, e);
    case Handle(h) => if h == r { HandleKeepsEvent(s, r, e); }
    case _ =>
  }

  lemma StepKeepsInv(s: State, step: Step)
    requires Inv(s) && Enabled(s, step)
    ensures Inv(Next(s, step))
  {
    var s' := Next(s, step);
    forall r | r in s.replicas
      ensures r in s'.replicas && s'.replicas[r].origin == s.replicas[r].origin
      ensures forall w :: w in s'.replicas[r].queue ==>
        w in s.replicas[r].queue || (step.Publish? && w == s.outgoing[step.event])
    {}
    forall w | Genuine(s, w) ensures Genuine(s', w) {}
    forall r, e | r in s'.replicas ensures EventOk(s', r, e) { StepKeepsEvent(s, step, r, e); }
  }

  lemma {:induction false} RunKeepsInv(s: State, steps: seq<Step>, end: State)
    requires Inv(s) && Run(s, steps, end)
    ensures Inv(end)
    decreases |steps|
  {
    if steps != [] {
      StepKeepsInv(s, steps[0]);
      RunKeepsInv(Next(s, steps[0]), steps[1..], end);
    }
  }

  /** Whatever publishes fail and sessions drop, no event enters a local broadcast twice, none
      enters one that nobody sent, and its origin has it exactly once from the send on. */
  lemma AtMostOnceAndOnceAtOrigin(s: State, steps: seq<Step>, end: State, r: ReplicaId, e: EventId)
    requires Init(s) && Run(s, steps, end) && r in end.replicas
    ensures Seen(end.replicas[r], e) <= 1
    ensures e !in end.source ==> Seen(end.replicas[r], e) == 0
    ensures e in end.source && end.source[e] == r ==> Seen(end.replicas[r], e) == 1
  {
    RunKeepsInv(s, steps, end);
    assert EventOk(end, r, e);
  }

  /** The session of `r` is neither dropped nor replaced. */
  predicate Spans(steps: seq<Step>, r: ReplicaId) {
    forall i :: 0 <= i < |steps| ==> steps[i] != SessionUp(r) && steps[i] != SessionDown(r)
  }

  /** Once published, the event is with `r` once: waiting, or handled. */
  ghost predicate Holds(s: State, r: ReplicaId, e: EventId, origin: Origin) {
    && r in s.replicas && e in s.source && s.source[e] in s.replicas && s.source[e] != r && e !in s.outgoing
    && s.replicas[s.source[e]].origin == origin
    && if s.replicas[r].origin == origin then Seen(s.replicas[r], e) == 0
       else Seen(s.replicas[r], e) + Waiting(s.replicas[r].queue, e) == 1
  }

  lemma PublishHolds(s: State, x: EventId, r: ReplicaId, e: EventId, origin: Origin)
    requires Inv(s) && x in s.outgoing && Holds(s, r, e, origin)
    ensures Holds(Next(s, Publish(x)), r, e, origin)
  {
    WaitingAppends(s.replicas[r].queue, s.outgoing[x], e);
  }

  lemma HandleHolds(s: State, r: ReplicaId, e: EventId, origin: Origin)
    requires Inv(s) && Enabled(s, Handle(r)) && Holds(s, r, e, origin)
    ensures Holds(Next(s, Handle(r)), r, e, origin)
  {
    var rep := s.replicas[r];
    var w := rep.queue[0];
    assert w in rep.queue && Genuine(s, w);
    assert Seen(Handled(rep), e) == Seen(rep, e) + if w.origin != rep.origin && w.event == e then 1 else 0;
  }

  lemma StepHolds(s: State, step: Step, r: ReplicaId, e: EventId, origin: Origin)
    requires Inv(s) && Enabled(s, step) && Holds(s, r, e, origin)
    requires step != SessionUp(r) && step != SessionDown(r)
    ensures Holds(Next(s, step), r, e, origin)
  {
    match step
    case Publish(x) => PublishHolds(s, x, r, e, origin);
    case Handle(h) => if h == r { HandleHolds(s, r, e, origin); }
    case _ =>
  }

  lemma {:induction false} RunHolds(s: State, steps: seq<Step>, end: State, r: ReplicaId, e: EventId, origin: Origin)
    requires Inv(s) && Run(s, steps, end) && Holds(s, r, e, origin) && Spans(steps, r)
    ensures Holds(end, r, e, origin)
    decreases |steps|
  {
    if steps != [] {
      StepKeepsInv(s, steps[0]);
      StepHolds(s, steps[0], r, e, origin);
      assert Spans(steps[1..], r) by { assert forall i :: 0 <= i < |steps| - 1 ==> steps[1..][i] == steps[i + 1]; }
      RunHolds(Next(s, steps[0]), steps[1..], end, r, e, origin);
    }
  }

  /** A sibling whose session spans the publish and the handling of an event has it exactly once
      if the origin ids differ, and never if the sibling shares the sender's id. */
  lemma OnceAtSibling(s: State, before: seq<Step>, mid: State, e: EventId, after: seq<Step>, end: State, r: ReplicaId)
    requires Init(s) && Run(s, before, mid) && Enabled(mid, Publish(e)) && Run(Next(mid, Publish(e)), after, end)
    requires r in mid.replicas && mid.replicas[r].up && e in mid.source && mid.source[e] != r
    requires Spans(after, r) && r in end.replicas && Waiting(end.replicas[r].queue, e) == 0
    ensures Seen(end.replicas[r], e) == if mid.outgoing[e].origin == mid.replicas[r].origin then 0 else 1
  {
    RunKeepsInv(s, before, mid);
    assert Genuine(mid, mid.outgoing[e]);
    assert EventOk(mid, r, e);
    WaitingAppends(mid.replicas[r].queue, mid.outgoing[e], e);
    StepKeepsInv(mid, Publish(e));
    RunHolds(Next(mid, Publish(e)), after, end, r, e, mid.outgoing[e].origin);
    OriginStays(Next(mid, Publish(e)), after, end, r);
  }

  /** Published, and neither with `r` nor on its way to it. */
  ghost predicate Missed(s: State, r: ReplicaId, e: EventId) {
    && r in s.replicas && e in s.source && s.source[e] != r && e !in s.outgoing
    && Seen(s.replicas[r], e) == 0 && Waiting(s.replicas[r].queue, e) == 0
  }

  lemma StepMissed(s: State, step: Step, r: ReplicaId, e: EventId)
    requires Inv(s) && Enabled(s, step) && Missed(s, r, e)
    ensures Missed(Next(s, step), r, e)
  {
    match step
    case Publish(x) => WaitingAppends(s.replicas[r].queue, s.outgoing[x], e);
    case Handle(h) =>
      if h == r {
        var rep := s.replicas[r];
        assert Seen(Handled(rep), e) ==
          Seen(rep, e) + if rep.queue[0].origin != rep.origin && rep.queue[0].event == e then 1 else 0;
      }
    case _ =>
  }

  lemma {:induction false} RunMissed(s: State, steps: seq<Step>, end: State, r: ReplicaId, e: EventId)
    requires Inv(s) && Run(s, steps, end) && Missed(s, r, e)
    ensures Missed(end, r, e)
    decreases |steps|
  {
    if steps != [] {
      StepKeepsInv(s, steps[0]);
      StepMissed(s, steps[0], r, e);
      RunMissed(Next(s, steps[0]), steps[1..], end, r, e);
    }
  }

  /** There is no replay: what is published while a sibling has no session never reaches it, whatever
      sessions it opens later. */
  lemma MissedForGood(s: State, before: seq<Step>, mid: State, e: EventId, after: seq<Step>, end: State, r: ReplicaId)
    requires Init(s) && Run(s, before, mid) && Enabled(mid, Publish(e)) && Run(Next(mid, Publish(e)), after, end)
    requires r in mid.replicas && !mid.replicas[r].up && e in mid.source && mid.source[e] != r
    ensures r in end.replicas && Seen(end.replicas[r], e) == 0 && Waiting(end.replicas[r].queue, e) == 0
  {
    RunKeepsInv(s, before, mid);
    assert EventOk(mid, r, e);
    StepKeepsInv(mid, Publish(e));
    RunMissed(Next(mid, Publish(e)), after, end, r, e);
  }

  lemma {:induction false} OriginStays(s: State, steps: seq<Step>, end: State, r: ReplicaId)
    requires Run(s, steps, end) && r in s.replicas
    ensures r in end.replicas && end.replicas[r].origin == s.replicas[r].origin
    decreases |steps|
  {
    if steps != [] {
      OriginStays(Next(s, steps[0]), steps[1..], end, r);
    }
  }
}
