/** The handshake between journal tails and the fan-out task: a tail counts itself in and then
    notifies; the task checks the count, and if it is zero waits for a notification. */
module Demand {
  /** The wait is two steps: the first poll of the future consumes a stored permit or parks. */
  datatype Task = Checking | Polling | Parked | InSession | BackingOff

  /** `tails` receivers exist; `unsignalled` of them have not called notify yet. */
  datatype State = State(tails: int, unsignalled: int, permit: bool, task: Task)

  datatype Step =
    | Attach
    | Signal
    | Leave
    | Check
    | Poll
    | IdleCheck
    | StreamEnds
    | Retry

  /** `notify_one` stores a permit when nobody waits; `notify_waiters` does not. */
  datatype Notify = NotifyOne | NotifyWaiters

  predicate Enabled(s: State, step: Step) {
    match step
    case Attach => true
    case Signal => s.unsignalled > 0
    case Leave => s.tails > s.unsignalled
    case Check => s.task.Checking?
    case Poll => s.task.Polling?
    case IdleCheck => s.task.InSession?
    case StreamEnds => s.task.InSession?
    case Retry => s.task.BackingOff?
  }

  function Next(n: Notify, s: State, step: Step): State {
    match step
    case Attach => s.(tails := s.tails + 1, unsignalled := s.unsignalled + 1)
    case Signal =>
      var t := s.(unsignalled := s.unsignalled - 1);
      if s.task.Parked? then t.(task := InSession)
      else if n.NotifyOne? then t.(permit := true)
      else t
    case Leave => s.(tails := s.tails - 1)
    case Check => s.(task := if s.tails > 0 then InSession else Polling)
    case Poll => if s.permit then s.(permit := false, task := InSession) else s.(task := Parked)
    case IdleCheck => if s.tails == 0 then s.(task := Checking) else s
    case StreamEnds => s.(task := BackingOff)
    case Retry => s.(task := Checking)
  }

  ghost predicate Run(n: Notify, s: State, steps: seq<Step>, end: State)
    decreases |steps|
  {
    if steps == [] then s == end else Enabled(s, steps[0]) && Run(n, Next(n, s, steps[0]), steps[1..], end)
  }

  const START := State(0, 0, false, Checking)

  /** The task is parked, and a tail is attached whose notification is not still to come. */
  predicate LostWakeup(s: State) {
    s.task.Parked? && s.tails > s.unsignalled
  }

  /** Between the check that saw no tail and the poll, every tail signalled since left its permit. */
  predicate Inv(s: State) {
    && 0 <= s.unsignalled <= s.tails
    && (s.task.Parked? ==> s.tails == s.unsignalled)
    && (s.task.Polling? && s.tails > s.unsignalled ==> s.permit)
  }

  lemma {:induction false} RunKeepsInv(s: State, steps: seq<Step>, end: State)
    requires Inv(s) && Run(NotifyOne, s, steps, end)
    ensures Inv(end)
    decreases |steps|
  {
    if steps != [] {
      RunKeepsInv(Next(NotifyOne, s, steps[0]), steps[1..], end);
    }
  }

  /** In every interleaving of tails coming and going with the task, the task is parked only if
      each attached tail still has its notification to send, and that notification wakes it. */
  lemma NoLostWakeup(steps: seq<Step>, end: State)
    requires Run(NotifyOne, START, steps, end)
    ensures !LostWakeup(end)
    ensures end.task.Parked? && end.tails > 0 ==> Enabled(end, Signal) && Next(NotifyOne, end, Signal).task.InSession?
  {
    RunKeepsInv(START, steps, end);
  }

  /** Nothing has been signalled yet, and nobody is served. */
  ghost predicate Idle(s: State) {
    s.tails == 0 && s.unsignalled == 0 && !s.permit && !s.task.InSession?
  }

  lemma {:induction false} IdleWithoutTails(n: Notify, s: State, steps: seq<Step>, end: State)
    requires Idle(s) && Run(n, s, steps, end) && Attach !in steps
    ensures Idle(end)
    decreases |steps|
  {
    if steps != [] {
      assert steps[0] in steps && steps[0] != Attach;
      IdleWithoutTails(n, Next(n, s, steps[0]), steps[1..], end);
    }
  }

  /** A replica to which no tail ever attached never opens a subscription, and a task that finds no tail
      left goes back to waiting for one. */
  lemma NoSessionUnasked(steps: seq<Step>, end: State)
    requires Run(NotifyOne, START, steps, end)
    ensures Attach !in steps ==> !end.task.InSession?
    ensures end.task.InSession? && end.tails == 0 ==>
      var checked := Next(NotifyOne, Next(NotifyOne, end, IdleCheck), Check);
      checked.task.Polling? && (!checked.permit ==> Next(NotifyOne, checked, Poll).task.Parked?)
  {
    if Attach !in steps { IdleWithoutTails(NotifyOne, START, steps, end); }
  }

  lemma RunMore(n: Notify, s: State, steps: seq<Step>, mid: State, step: Step)
    requires Run(n, s, steps, mid) && Enabled(mid, step)
    ensures Run(n, s, steps + [step], Next(n, mid, step))
    decreases |steps|
  {
    var all := steps + [step];
    if steps == [] {
      assert all[1..] == [];
    } else {
      assert all[1..] == steps[1..] + [step];
      RunMore(n, Next(n, s, steps[0]), steps[1..], mid, step);
    }
  }

  ghost predicate Loses(n: Notify, steps: seq<Step>, end: State) {
    Run(n, START, steps, end) && LostWakeup(end)
  }

  lemma WaitersLose() returns (steps: seq<Step>, end: State)
    ensures Run(NotifyWaiters, START, steps, end) && LostWakeup(end)
  {
    var n := NotifyWaiters;
    RunMore(n, START, [], START, Check);
    RunMore(n, START, [] + [Check], State(0, 0, false, Polling), Attach);
    RunMore(n, START, [] + [Check] + [Attach], State(1, 1, false, Polling), Signal);
    RunMore(n, START, [] + [Check] + [Attach] + [Signal], State(1, 0, false, Polling), Poll);
    steps, end := [] + [Check] + [Attach] + [Signal] + [Poll], State(1, 0, false, Parked);
  }

  /** A remark on that theorem: it rests on the stored permit. With the other notification, which the
      code does not use, a tail that attaches between the check and the poll can leave the task
      parked for good. */
  lemma LostWakeupIffNoPermit(n: Notify)
    ensures n.NotifyWaiters? <==> exists steps, end :: Loses(n, steps, end)
  {
    if n == NotifyWaiters {
      var steps, end := WaitersLose();
      assert Loses(n, steps, end);
    } else {
      assert n == NotifyOne;
      forall steps, end ensures !Loses(n, steps, end) {
        if Run(n, START, steps, end) { NoLostWakeup(steps, end); }
      }
    }
  }
}
