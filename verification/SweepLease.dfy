/** The sweep lease: claimed on a tick, released without a fence when the pass ends. */
module SweepLease {
  import opened Wrappers

  type ReplicaId = int
  type Time = int

  /** `sweeping` are the passes in progress, each with the deadline of the lease it claimed;
      `lease` is the stored deadline. */
  datatype State = State(now: Time, lease: Option<Time>, sweeping: map<ReplicaId, Time>)

  datatype Step =
    | Tick(r: ReplicaId)
    | Finish(r: ReplicaId)
    | Crash(r: ReplicaId)
    | Wait(until: Time)

  /** Twice the interval, in seconds, and at least two. */
  function Ttl(interval: nat): (ttl: nat)
    ensures ttl >= 2
  {
    (if interval < 1 then 1 else interval) * 2
  }

  predicate Held(s: State) {
    s.lease.Some? && s.lease.value > s.now
  }

  /** A replica's loop is sequential: it ticks only between passes. */
  predicate Enabled(s: State, step: Step) {
    match step
    case Tick(r) => r !in s.sweeping
    case Finish(r) => r in s.sweeping
    case Crash(r) => r in s.sweeping
    case Wait(until) => s.now <= until
  }

  function Next(interval: nat, s: State, step: Step): State {
    match step
    case Tick(r) =>
      if Held(s) then s
      else
        var deadline := s.now + Ttl(interval);
        s.(lease := Some(deadline), sweeping := s.sweeping[r := deadline])
    case Finish(r) => s.(lease := None, sweeping := s.sweeping - {r})
    case Crash(r) => s.(sweeping := s.sweeping - {r})
    case Wait(until) => s.(now := until)
  }

  ghost predicate Run(interval: nat, s: State, steps: seq<Step>, end: State)
    decreases |steps|
  {
    if steps == [] then s == end
    else Enabled(s, steps[0]) && Run(interval, Next(interval, s, steps[0]), steps[1..], end)
  }

  /** No pass in progress has outlived its lease. */
  ghost predicate Prompt(s: State) {
    forall r :: r in s.sweeping ==> s.now < s.sweeping[r]
  }

  ghost predicate AlwaysPrompt(interval: nat, s: State, steps: seq<Step>)
    decreases |steps|
  {
    Prompt(s) && (steps != [] ==> AlwaysPrompt(interval, Next(interval, s, steps[0]), steps[1..]))
  }

  ghost predicate NoOverlap(s: State) {
    forall a, b :: a in s.sweeping && b in s.sweeping ==> a == b
  }

  /** The pass in progress is the holder of the lease. */
  ghost predicate Inv(s: State) {
    NoOverlap(s) && forall r :: r in s.sweeping ==> s.lease == Some(s.sweeping[r])
  }

  ghost predicate Init(s: State) {
    s.lease.None? && s.sweeping == map[]
  }

  lemma {:induction false} PromptRunKeepsInv(interval: nat, s: State, steps: seq<Step>, end: State)
    requires Inv(s) && Run(interval, s, steps, end) && AlwaysPrompt(interval, s, steps)
    ensures Inv(end) && Prompt(end)
    decreases |steps|
  {
    if steps != [] {
      var next := Next(interval, s, steps[0]);
      assert forall r :: r in s.sweeping ==> Held(s);
      PromptRunKeepsInv(interval, next, steps[1..], end);
    }
  }

  /** As long as every pass ends before its lease does, no two passes overlap, and a tick is
      skipped only while a pass is in progress or a crashed one's lease has not run out; with no
      crash, exactly while one is in progress. */
  lemma PassesDoNotOverlap(interval: nat, s: State, steps: seq<Step>, end: State, r: ReplicaId)
    requires Init(s) && Run(interval, s, steps, end) && AlwaysPrompt(interval, s, steps)
    requires Enabled(end, Tick(r))
    ensures NoOverlap(end)
    ensures end.sweeping != map[] ==> Next(interval, end, Tick(r)) == end
    ensures (forall x :: Crash(x) !in steps) ==>
      (r in Next(interval, end, Tick(r)).sweeping <==> end.sweeping == map[])
  {
    PromptRunKeepsInv(interval, s, steps, end);
    if forall x :: Crash(x) !in steps {
      HolderInProgress(interval, s, steps, end);
    }
    assert end.sweeping != map[] ==> exists x :: x in end.sweeping by {
      EmptyOrHasMember(end.sweeping.Keys);
      assert end.sweeping.Keys == {} ==> end.sweeping == map[];
    }
  }

  lemma {:induction false} HolderInProgress(interval: nat, s: State, steps: seq<Step>, end: State)
    requires Inv(s) && (s.lease.Some? ==> exists r :: r in s.sweeping)
    requires Run(interval, s, steps, end) && AlwaysPrompt(interval, s, steps) && forall x :: Crash(x) !in steps
    ensures end.lease.Some? ==> exists r :: r in end.sweeping
    decreases |steps|
  {
    if steps != [] {
      var next := Next(interval, s, steps[0]);
      assert steps[0] in steps;
      assert forall r :: r in s.sweeping ==> Held(s);
      if steps[0].Tick? && next != s { assert steps[0].r in next.sweeping; }
      HolderInProgress(interval, next, steps[1..], end);
    }
  }

  /** A crashed holder delays the others until its deadline and no longer. */
  lemma CrashDelaysUntilDeadline(interval: nat, s: State, r: ReplicaId, other: ReplicaId, until: Time)
    requires Inv(s) && Prompt(s) && r in s.sweeping && other != r && other !in s.sweeping && s.now <= until
    ensures
      var later := Next(interval, Next(interval, s, Crash(r)), Wait(until));
      other in Next(interval, later, Tick(other)).sweeping <==> s.sweeping[r] <= until
  {
  }

  /** From the claim on, that is two intervals, or two seconds if the interval is none. */
  lemma CrashCostsTwoIntervals(interval: nat, s: State, r: ReplicaId, other: ReplicaId, until: Time)
    requires Init(s) && other != r && s.now <= until
    ensures
      var crashed := Next(interval, Next(interval, s, Tick(r)), Crash(r));
      var later := Next(interval, crashed, Wait(until));
      other in Next(interval, later, Tick(other)).sweeping <==>
        s.now + (if interval == 0 then 2 else interval + interval) <= until
  {
  }

  // ---- Exactly when passes overlap ------------------------------------------------

  /** While the pass in progress is the holder, an idle replica's tick makes two passes overlap if
      and only if the pass in progress has outlived its lease. */
  lemma TickOverlapsIffOverrun(interval: nat, s: State, b: ReplicaId)
    requires Inv(s) && s.sweeping != map[] && b !in s.sweeping
    ensures NoOverlap(Next(interval, s, Tick(b))) <==> Prompt(s)
  {
    EmptyOrHasMember(s.sweeping.Keys);
    assert s.sweeping.Keys == {} ==> s.sweeping == map[];
    var a :| a in s.sweeping;
    var next := Next(interval, s, Tick(b));
    assert b in next.sweeping ==> a in next.sweeping && a != b;
  }

  /** Up to its last state the run was prompt. */
  ghost predicate PromptSoFar(interval: nat, s: State, steps: seq<Step>)
    decreases |steps|
  {
    steps != [] ==> Prompt(s) && PromptSoFar(interval, Next(interval, s, steps[0]), steps[1..])
  }

  lemma {:induction false} PromptSoFarKeepsInv(interval: nat, s: State, steps: seq<Step>, end: State)
    requires Inv(s) && Run(interval, s, steps, end) && PromptSoFar(interval, s, steps)
    ensures Inv(end)
    decreases |steps|
  {
    if steps != [] {
      assert forall r :: r in s.sweeping ==> Held(s);
      PromptSoFarKeepsInv(interval, Next(interval, s, steps[0]), steps[1..], end);
    }
  }

  /** Over runs: as long as no pass has overrun, none overlap; and at whatever moment a pass in
      progress is first found past its lease, and at no earlier one, the next tick of an idle replica
      makes two passes overlap. */
  lemma OverlapIffOverrun(interval: nat, s: State, steps: seq<Step>, end: State, b: ReplicaId)
    requires Init(s) && Run(interval, s, steps, end) && PromptSoFar(interval, s, steps)
    requires b !in end.sweeping
    ensures NoOverlap(end)
    ensures !NoOverlap(Next(interval, end, Tick(b))) <==> !Prompt(end)
  {
    PromptSoFarKeepsInv(interval, s, steps, end);
    if end.sweeping != map[] {
      TickOverlapsIffOverrun(interval, end, b);
    }
  }

  /** Any run in which two passes overlap went through a state in which a pass had overrun. */
  lemma OverlapNeedsOverrun(interval: nat, s: State, steps: seq<Step>, end: State)
    requires Init(s) && Run(interval, s, steps, end) && !NoOverlap(end)
    ensures !AlwaysPrompt(interval, s, steps)
  {
    if AlwaysPrompt(interval, s, steps) {
      PromptRunKeepsInv(interval, s, steps, end);
      assert false;
    }
  }

  /** The release is not fenced: whenever a pass ends while a sibling holds an unexpired lease, the
      release deletes that lease, and any idle replica's next tick overlaps the sibling's pass, which
      is within its own lease. */
  lemma ReleaseDeletesSiblings(interval: nat, s: State, a: ReplicaId, b: ReplicaId, c: ReplicaId)
    requires a in s.sweeping && b in s.sweeping && a != b && c !in s.sweeping
    requires s.lease == Some(s.sweeping[b]) && s.now < s.sweeping[b]
    ensures
      var released := Next(interval, s, Finish(a));
      var again := Next(interval, released, Tick(c));
      && Held(s) && !Held(released)
      && b in again.sweeping && c in again.sweeping && !NoOverlap(again) && again.now < again.sweeping[b]
  {
    var again := Next(interval, Next(interval, s, Finish(a)), Tick(c));
    assert b in again.sweeping && c in again.sweeping && b != c;
  }

  lemma RunMore(interval: nat, s: State, steps: seq<Step>, mid: State, step: Step)
    requires Run(interval, s, steps, mid) && Enabled(mid, step)
    ensures Run(interval, s, steps + [step], Next(interval, mid, step))
    decreases |steps|
  {
    var all := steps + [step];
    if steps == [] {
      assert all[1..] == [];
    } else {
      assert all[1..] == steps[1..] + [step];
      RunMore(interval, Next(interval, s, steps[0]), steps[1..], mid, step);
    }
  }

  /** The release is not fenced: whatever the interval, one pass that overruns deletes the lease
      a sibling has since taken, and two passes that are both within their own leases overlap. */
  lemma OverrunBreaksLease(interval: nat) returns (s: State, steps: seq<Step>, end: State)
    ensures Init(s) && Run(interval, s, steps, end)
    ensures 2 in end.sweeping && 3 in end.sweeping && !NoOverlap(end) && Prompt(end)
  {
    var t := Ttl(interval);
    s := State(0, None, map[]);
    var claimed := State(0, Some(t), map[1 := t]);
    var lapsed := State(t, Some(t), map[1 := t]);
    var taken := State(t, Some(2 * t), map[1 := t][2 := 2 * t]);
    var released := State(t, None, map[1 := t][2 := 2 * t] - {1});
    RunMore(interval, s, [], s, Tick(1));
    RunMore(interval, s, [] + [Tick(1)], claimed, Wait(t));
    RunMore(interval, s, [] + [Tick(1)] + [Wait(t)], lapsed, Tick(2));
    RunMore(interval, s, [] + [Tick(1)] + [Wait(t)] + [Tick(2)], taken, Finish(1));
    RunMore(interval, s, [] + [Tick(1)] + [Wait(t)] + [Tick(2)] + [Finish(1)], released, Tick(3));
    steps := [] + [Tick(1)] + [Wait(t)] + [Tick(2)] + [Finish(1)] + [Tick(3)];
    end := Next(interval, released, Tick(3));
  }
}
