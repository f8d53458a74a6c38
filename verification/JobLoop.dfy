/** The local job loop of `scripts/cpl-development-runtime.ts`: `startJobs`, `cycle` and `stopJobs`
    share `running`, `timer`, `stopped` and `stopPromise`. */
module JobLoop {
  import opened JsText

  datatype JobState = Idle | Failed | Retrying | Skipped | Completed

  /** What `processHostedJobs` reports, or that it throws. */
  datatype Outcome = Report(failed: bool, retried: bool, skipped: bool, completed: bool) | Throws

  function StateAfter(o: Outcome): JobState {
    match o
    case Throws => Retrying
    case Report(failed, retried, skipped, completed) =>
      if failed then Failed else if retried then Retrying
      else if skipped then Skipped else if completed then Completed else Idle
  }

  /** The promise of `stopJobs`: not made, awaiting the cycle `running` held, or past the close. */
  datatype Stopping = Unasked | Awaiting(cycle: Option<nat>) | Done

  /** Cycles and timers are numbered as they are made.  `inFlight` holds the cycles that have not
      settled, `pending` the timers that have neither fired nor been cleared. */
  datatype State = State(
    stopped: bool, running: Option<nat>, timer: Option<nat>, stopPromise: Stopping,
    lastJobState: JobState, cycles: nat, timers: nat, inFlight: set<nat>, pending: set<nat>,
    closes: nat)

  const INITIAL := State(false, None, None, Unasked, Idle, 0, 0, {}, {}, 0)

  datatype Step =
    | StartJobs
    | StopJobs
    | TimerFires(timer: nat)
    | CycleEnds(cycle: nat, outcome: Outcome)
    | StopResumes

  predicate Enabled(s: State, step: Step) {
    match step
    case StartJobs => true
    case StopJobs => true
    case TimerFires(t) => t in s.pending
    case CycleEnds(c, _) => c in s.inFlight
    case StopResumes =>
      s.stopPromise.Awaiting?
      && (s.stopPromise.cycle.None? || s.stopPromise.cycle.value !in s.inFlight)
  }

  function Cycled(s: State): State {
    if s.stopped then s
    else s.(running := Some(s.cycles), inFlight := s.inFlight + {s.cycles}, cycles := s.cycles + 1)
  }

  function Next(s: State, step: Step): State {
    if !Enabled(s, step) then s
    else
      match step
      case StartJobs => if s.running.None? && !s.stopped then Cycled(s) else s
      case StopJobs =>
        if s.stopPromise != Unasked then s
        else s.(stopped := true, stopPromise := Awaiting(s.running),
                pending := if s.timer.Some? then s.pending - {s.timer.value} else s.pending)
      case TimerFires(t) => Cycled(s.(pending := s.pending - {t}))
      case CycleEnds(c, outcome) =>
        var ended := s.(lastJobState := StateAfter(outcome), inFlight := s.inFlight - {c});
        if s.stopped then ended
        else ended.(timer := Some(s.timers), pending := s.pending + {s.timers},
                    timers := s.timers + 1)
      case StopResumes => s.(stopPromise := Done, closes := s.closes + 1)
  }

  function Execute(s: State, steps: seq<Step>): State {
    if steps == [] then s else Next(Execute(s, steps[..|steps| - 1]), steps[|steps| - 1])
  }

  // ---- The closures --------------------------------------------------------------------------

  class Jobs {
    var stopped: bool
    var running: Option<nat>
    var timer: Option<nat>
    var stopPromise: Stopping
    var lastJobState: JobState
    var cycles: nat
    var timers: nat
    var inFlight: set<nat>
    var pending: set<nat>
    var closes: nat

    ghost function View(): State
      reads this
    {
      State(stopped, running, timer, stopPromise, lastJobState, cycles, timers, inFlight, pending,
            closes)
    }

    constructor ()
      ensures View() == INITIAL
    {
      stopped, running, timer, stopPromise := false, None, None, Unasked;
      lastJobState, cycles, timers, inFlight, pending, closes := Idle, 0, 0, {}, {}, 0;
    }

    method Cycle()
      modifies this
      ensures View() == Cycled(old(View()))
    {
      if stopped { return; }
      running := Some(cycles);
      inFlight := inFlight + {cycles};
      cycles := cycles + 1;
    }

    method StartJobs()
      modifies this
      ensures View() == Next(old(View()), Step.StartJobs)
    {
      if running.None? && !stopped { Cycle(); }
    }

    method StopJobs()
      modifies this
      ensures View() == Next(old(View()), Step.StopJobs)
    {
      if stopPromise != Unasked { return; }
      stopped := true;
      if timer.Some? { pending := pending - {timer.value}; }
      stopPromise := Awaiting(running);
    }

    method FireTimer(fired: nat)
      requires fired in pending
      modifies this
      ensures View() == Next(old(View()), TimerFires(fired))
    {
      pending := pending - {fired};
      Cycle();
    }

    method EndCycle(cycle: nat, outcome: Outcome)
      requires cycle in inFlight
      modifies this
      ensures View() == Next(old(View()), CycleEnds(cycle, outcome))
    {
      lastJobState := StateAfter(outcome);
      inFlight := inFlight - {cycle};
      if stopped { return; }
      timer := Some(timers);
      pending := pending + {timers};
      timers := timers + 1;
    }

    method ResumeStop()
      requires Enabled(View(), StopResumes)
      modifies this
      ensures View() == Next(old(View()), StopResumes)
    {
      closes := closes + 1;
      stopPromise := Done;
    }
  }

  // ---- Every run -----------------------------------------------------------------------------

  /** The only cycle that can be in flight is `running`, the only timer pending is `timer`; a
      started loop that is not stopped has exactly one of them. */
  predicate Inv(s: State) {
    && (s.inFlight == {} || (s.running.Some? && s.inFlight == {s.running.value}))
    && (s.pending == {} || (s.timer.Some? && s.pending == {s.timer.value}))
    && (s.running.None? ==> s.inFlight == {} && s.pending == {})
    && (s.running.Some? && !s.stopped ==> (s.inFlight == {} <==> s.pending != {}))
    && (s.stopped ==> s.pending == {})
    && (s.stopped <==> s.stopPromise != Unasked)
    && (s.stopPromise.Awaiting? ==> s.stopPromise.cycle == s.running)
    && (s.stopPromise.Done? ==> s.inFlight == {})
    && s.closes == if s.stopPromise.Done? then 1 else 0
  }

  lemma StepKeeps(s: State, step: Step)
    requires Inv(s)
    ensures Inv(Next(s, step))
  {
  }

  lemma {:induction false} Reachable(steps: seq<Step>)
    ensures Inv(Execute(INITIAL, steps))
  {
    if steps != [] {
      Reachable(steps[..|steps| - 1]);
      StepKeeps(Execute(INITIAL, steps[..|steps| - 1]), steps[|steps| - 1]);
    }
  }

  /** At most one cycle is in flight or one timer pending, never both; and once started the loop
      stays alive, with exactly one of them, until it is stopped. */
  lemma JobsAreSerial(steps: seq<Step>)
    ensures var s := Execute(INITIAL, steps);
            && |s.inFlight| + |s.pending| <= 1
            && (s.running.Some? && !s.stopped ==> |s.inFlight| + |s.pending| == 1)
  {
    Reachable(steps);
  }

  /** Once stopped, no cycle begins and no timer is set, ever. */
  lemma {:induction false} NothingBeginsAfterStop(before: seq<Step>, after: seq<Step>)
    requires Execute(INITIAL, before).stopped
    ensures var s, t := Execute(INITIAL, before), Execute(Execute(INITIAL, before), after);
            && t.stopped && t.pending == {}
            && t.cycles == s.cycles && t.timers == s.timers && t.inFlight <= s.inFlight
  {
    Reachable(before);
    if after != [] {
      NothingBeginsAfterStop(before, after[..|after| - 1]);
    }
  }

  /** The worker is closed at most once, and only with no cycle in flight, then or later. */
  lemma WorkerClosedOnce(before: seq<Step>, after: seq<Step>)
    ensures var s, t := Execute(INITIAL, before), Execute(Execute(INITIAL, before), after);
            && s.closes <= 1
            && (s.closes == 1 ==> s.inFlight == {} && t.inFlight == {} && t.closes == 1)
  {
    Reachable(before);
    if Execute(INITIAL, before).closes == 1 {
      NothingBeginsAfterStop(before, after);
      ExecuteConcat(before, after);
      Reachable(before + after);
      ClosesOnlyGrow(Execute(INITIAL, before), after);
    }
  }

  /** Closing is only ever held up by the one cycle still in flight. */
  lemma StopGetsThrough(steps: seq<Step>)
    requires var s := Execute(INITIAL, steps); s.stopped && s.closes == 0
    ensures var s := Execute(INITIAL, steps);
            || (s.inFlight == {} && Enabled(s, StopResumes))
            || exists c :: s.inFlight == {c} && Enabled(s, CycleEnds(c, Throws))
                           && Enabled(Next(s, CycleEnds(c, Throws)), StopResumes)
  {
    Reachable(steps);
    var s := Execute(INITIAL, steps);
    if s.inFlight != {} {
      assert s.inFlight == {s.running.value} && Enabled(s, CycleEnds(s.running.value, Throws));
    }
  }

  lemma {:induction false} ExecuteConcat(a: seq<Step>, b: seq<Step>)
    ensures Execute(INITIAL, a + b) == Execute(Execute(INITIAL, a), b)
  {
    if b == [] {
      assert a + b == a;
    } else {
      assert (a + b)[..|a + b| - 1] == a + b[..|b| - 1];
      ExecuteConcat(a, b[..|b| - 1]);
    }
  }

  lemma {:induction false} ClosesOnlyGrow(s: State, steps: seq<Step>)
    ensures Execute(s, steps).closes >= s.closes
  {
    if steps != [] {
      ClosesOnlyGrow(s, steps[..|steps| - 1]);
    }
  }

  /** What the last cycle to end reported, if any has ended. */
  function LastOutcome(steps: seq<Step>): Option<Outcome> {
    if steps == [] then None
    else
      var n := |steps| - 1;
      match steps[n]
      case CycleEnds(c, outcome) =>
        if c in Execute(INITIAL, steps[..n]).inFlight then Some(outcome) else LastOutcome(steps[..n])
      case _ => LastOutcome(steps[..n])
  }

  /** A failed job outweighs a retried one, that a skipped one, that a completed one; a cycle that
      throws is retried. */
  predicate Reports(state: JobState, o: Option<Outcome>) {
    match o
    case None => state == Idle
    case Some(Throws) => state == Retrying
    case Some(Report(failed, retried, skipped, completed)) =>
      && (state == Failed <==> failed)
      && (state == Retrying <==> retried && !failed)
      && (state == Skipped <==> skipped && !failed && !retried)
      && (state == Completed <==> completed && !failed && !retried && !skipped)
  }

  /** The job state shown is that of the last cycle to end, in every run. */
  lemma {:induction false} StateIsOfTheLastCycle(steps: seq<Step>)
    ensures Reports(Execute(INITIAL, steps).lastJobState, LastOutcome(steps))
  {
    if steps != [] {
      StateIsOfTheLastCycle(steps[..|steps| - 1]);
    }
  }
}
