/** The request protocol of `apps/web/components/ai-command-motion-workspace.tsx`: generations,
    abort of the request before, the reservation queue and the streamed message.  Each step is what
    one handler does between two awaits. */
module RequestProtocol {
  import opened JsText
  import opened EventFrames
  import opened StreamedMessage

  /** The request refs.  A controller is named by the generation that made it. */
  datatype Control = Control(
    mounted: bool, generation: nat, controller: Option<nat>, aborted: set<nat>, busy: bool)

  /** The promise chain of reservations.  A turn runs its callback once the promise it was chained
      to has settled; `tail` is the promise the next turn is chained to, and `sent` lists the turns
      whose fetch was started, in that order. */
  datatype Phase = Waiting | Fetching | Answered | Rejected
  datatype Turn = Turn(generation: nat, previous: Option<nat>, phase: Phase)
  datatype Queue = Queue(turns: seq<Turn>, tail: Option<nat>, sent: seq<nat>)

  /** Where the handler of a request stands: awaiting something other than a reservation or a
      stream, awaiting its reservation, past it, or handing stream events on; then its `finally`
      has run.  `delivered` is every event handed on, whether it was shown or not. */
  datatype Stage =
    Loading | Reserving(turn: nat) | Sending | Receiving(delivered: seq<Event>) | Ended

  /** `accepted` lists the events applied since the message was last reset. */
  datatype Screen = Screen(message: Shown, accepted: seq<Event>)

  datatype State = State(control: Control, queue: Queue, stages: map<nat, Stage>, screen: Screen)

  const INITIAL := State(Control(true, 0, None, {}, false), Queue([], None, []), map[],
                         Screen(None, []))

  predicate Current(c: Control, generation: nat) {
    c.mounted && c.generation == generation
  }

  predicate Open(stages: map<nat, Stage>, generation: nat) {
    generation in stages && stages[generation] != Ended
  }

  predicate Settled(p: Phase) {
    p.Answered? || p.Rejected?
  }

  // ---- Steps -------------------------------------------------------------------------------

  datatype Step =
    | Navigate                                       // a request that reserves nothing begins
    | Send                                           // `sendMessage` up to its reservation
    | TakeTurn(turn: nat)                            // the queued callback of a reservation
    | FetchSettles(turn: nat, ok: bool)              // the reservation fetch
    | AfterReservation(request: nat, streams: bool)  // `sendMessage` after its reservation
    | Deliver(request: nat, event: Event)            // one call of the stream event handler
    | RemoveMessage(request: nat)                    // the message is taken off the screen
    | Fail(request: nat, aborted: bool)              // the catch block, then `finally`
    | Finish(request: nat)                           // `finally` after a return
    | Stop(confirming: bool)                         // `stopGeneration`
    | Unmount

  function AbortHeld(c: Control): set<nat> {
    if c.controller.Some? then c.aborted + {c.controller.value} else c.aborted
  }

  function Begun(c: Control): Control {
    Control(c.mounted, c.generation + 1, Some(c.generation + 1), AbortHeld(c), true)
  }

  function FinishedBy(c: Control, generation: nat): Control {
    if Current(c, generation) then c.(controller := None, busy := false) else c
  }

  function Unmounted(c: Control): Control {
    Control(false, c.generation + 1, None, AbortHeld(c), c.busy)
  }

  function Reserved(q: Queue, generation: nat): Queue {
    Queue(q.turns + [Turn(generation, q.tail, Waiting)], Some(|q.turns|), q.sent)
  }

  predicate MayTakeTurn(q: Queue, turn: nat) {
    && turn < |q.turns| && q.turns[turn].phase == Waiting
    && match q.turns[turn].previous
       case None => true
       case Some(p) => p < |q.turns| && Settled(q.turns[p].phase)
  }

  function WithPhase(q: Queue, turn: nat, phase: Phase): Queue
    requires turn < |q.turns|
  {
    q.(turns := q.turns[turn := q.turns[turn].(phase := phase)])
  }

  predicate Alive(c: Control, generation: nat) {
    c.mounted && generation !in c.aborted
  }

  function TurnTaken(q: Queue, turn: nat, alive: bool): Queue
    requires turn < |q.turns|
  {
    if alive then WithPhase(q, turn, Fetching).(sent := q.sent + [turn])
    else WithPhase(q, turn, Rejected)
  }

  /** The handler throws on an error event, which ends its stream. */
  predicate HasThrown(delivered: seq<Event>) {
    delivered != [] && delivered[|delivered| - 1].Failed?
  }

  predicate Enabled(s: State, step: Step) {
    match step
    case Navigate => true
    case Send => true
    case TakeTurn(turn) => MayTakeTurn(s.queue, turn)
    case FetchSettles(turn, _) =>
      turn < |s.queue.turns| && s.queue.turns[turn].phase == Fetching
    case AfterReservation(g, _) =>
      && g in s.stages && s.stages[g].Reserving?
      && s.stages[g].turn < |s.queue.turns| && Settled(s.queue.turns[s.stages[g].turn].phase)
    case Deliver(g, _) =>
      g in s.stages && s.stages[g].Receiving? && !HasThrown(s.stages[g].delivered)
    case RemoveMessage(g) => g in s.stages && (s.stages[g].Sending? || s.stages[g].Receiving?)
    case Fail(g, _) => g in s.stages && (s.stages[g].Sending? || s.stages[g].Receiving?)
    case Finish(g) => Open(s.stages, g) && !s.stages[g].Reserving?
    case Stop(_) => true
    case Unmount => s.control.mounted
  }

  /** `applyStreamEvent`, and the status of an error event, which is set for any generation. */
  function Handled(screen: Screen, current: bool, e: Event, generation: nat): Screen {
    var applied := if current
                   then Screen(Applied(screen.message, e, generation), screen.accepted + [e])
                   else screen;
    if e.Failed? then applied.(message := Interrupted(applied.message, Broken)) else applied
  }

  /** What a step does; a step that cannot happen changes nothing. */
  function Next(s: State, step: Step): State {
    if !Enabled(s, step) then s
    else
      match step
      case Navigate =>
        var control := Begun(s.control);
        s.(control := control, stages := s.stages[control.generation := Loading])
      case Send =>
        var control := Begun(s.control);
        s.(control := control, queue := Reserved(s.queue, control.generation),
           stages := s.stages[control.generation := Reserving(|s.queue.turns|)])
      case TakeTurn(turn) =>
        s.(queue := TurnTaken(s.queue, turn,
                              Alive(s.control, s.queue.turns[turn].generation)))
      case FetchSettles(turn, ok) =>
        s.(queue := WithPhase(s.queue, turn, if ok then Answered else Rejected))
      case AfterReservation(g, streams) =>
        if streams && s.queue.turns[s.stages[g].turn].phase.Answered? && Current(s.control, g)
        then s.(stages := s.stages[g := Receiving([])], screen := Screen(Some(Fresh(g)), []))
        else s.(stages := s.stages[g := Sending])
      case Deliver(g, e) =>
        s.(stages := s.stages[g := Receiving(s.stages[g].delivered + [e])],
           screen := Handled(s.screen, Current(s.control, g), e, g))
      case RemoveMessage(g) =>
        s.(stages := s.stages[g := Sending],
           screen := if Current(s.control, g) then Screen(None, []) else s.screen)
      case Fail(g, aborted) =>
        s.(control := FinishedBy(s.control, g), stages := s.stages[g := Ended],
           screen := if Current(s.control, g)
                     then s.screen.(message := Interrupted(s.screen.message,
                                                           if aborted then Stopped else Broken))
                     else s.screen)
      case Finish(g) =>
        s.(control := FinishedBy(s.control, g), stages := s.stages[g := Ended])
      case Stop(confirming) =>
        if !s.control.busy || confirming then s
        else s.(control := s.control.(aborted := AbortHeld(s.control)),
                screen := s.screen.(message := Interrupted(s.screen.message, Stopped)))
      case Unmount => s.(control := Unmounted(s.control))
  }

  /** A run: handlers, promises and the network interleave in any order. */
  function Execute(s: State, steps: seq<Step>): State {
    if steps == [] then s else Next(Execute(s, steps[..|steps| - 1]), steps[|steps| - 1])
  }

  // ---- The handlers ------------------------------------------------------------------------

  class Workspace {
    var mounted: bool
    var requestGeneration: nat
    var requestController: Option<nat>
    var abortedControllers: set<nat>
    var busy: bool
    var turns: seq<Turn>
    var reservationQueue: Option<nat>
    var streamingAssistant: Shown
    ghost var sent: seq<nat>
    ghost var stages: map<nat, Stage>
    ghost var accepted: seq<Event>

    ghost function View(): State
      reads this
    {
      State(Control(mounted, requestGeneration, requestController, abortedControllers, busy),
            Queue(turns, reservationQueue, sent), stages, Screen(streamingAssistant, accepted))
    }

    constructor ()
      ensures View() == INITIAL
    {
      mounted, requestGeneration, requestController := true, 0, None;
      abortedControllers, busy, turns, reservationQueue := {}, false, [], None;
      streamingAssistant, sent, stages, accepted := None, [], map[], [];
    }

    method AbortController()
      modifies `abortedControllers
      ensures View() == old(View()).(
              control := old(View()).control.(aborted := AbortHeld(old(View()).control)))
    {
      if requestController.Some? {
        abortedControllers := abortedControllers + {requestController.value};
      }
    }

    method BeginRequest() returns (generation: nat)
      modifies `requestGeneration, `requestController, `abortedControllers, `busy
      ensures View() == old(View()).(control := Begun(old(View()).control))
      ensures generation == old(requestGeneration) + 1
    {
      AbortController();
      generation := requestGeneration + 1;
      requestController := Some(generation);
      requestGeneration := generation;
      busy := true;
    }

    predicate CurrentRequest(generation: nat)
      reads this
      ensures CurrentRequest(generation) == Current(View().control, generation)
    {
      mounted && requestGeneration == generation
    }

    method FinishRequest(generation: nat)
      modifies `requestController, `busy
      ensures View() == old(View()).(control := FinishedBy(old(View()).control, generation))
    {
      if !CurrentRequest(generation) { return; }
      requestController := None;
      busy := false;
    }

    method ReserveMessageRequest(generation: nat) returns (turn: nat)
      modifies `turns, `reservationQueue
      ensures View() == old(View()).(queue := Reserved(old(View()).queue, generation))
      ensures turn == |old(turns)|
    {
      turn := |turns|;
      turns := turns + [Turn(generation, reservationQueue, Waiting)];
      reservationQueue := Some(turn);
    }

    method Navigate() returns (generation: nat)
      modifies this
      ensures View() == Next(old(View()), Step.Navigate)
    {
      generation := BeginRequest();
      stages := stages[generation := Loading];
    }

    method SendMessage() returns (generation: nat)
      modifies this
      ensures View() == Next(old(View()), Send)
    {
      generation := BeginRequest();
      var turn := ReserveMessageRequest(generation);
      stages := stages[generation := Reserving(turn)];
    }

    method TakeTurn(turn: nat)
      requires Enabled(View(), Step.TakeTurn(turn))
      modifies this
      ensures View() == Next(old(View()), Step.TakeTurn(turn))
    {
      if !mounted || turns[turn].generation in abortedControllers {
        turns := turns[turn := turns[turn].(phase := Rejected)];
        return;
      }
      turns := turns[turn := turns[turn].(phase := Fetching)];
      sent := sent + [turn];
    }

    method ContinueAfterReservation(generation: nat, answered: bool, streams: bool)
      requires Enabled(View(), AfterReservation(generation, streams))
      requires answered == turns[stages[generation].turn].phase.Answered?
      modifies this
      ensures View() == Next(old(View()), AfterReservation(generation, streams))
    {
      if answered && CurrentRequest(generation) && streams {
        streamingAssistant := Some(Fresh(generation));
        accepted := [];
        stages := stages[generation := Receiving([])];
      } else {
        stages := stages[generation := Sending];
      }
    }

    method ApplyStreamEvent(event: Event, generation: nat)
      modifies `streamingAssistant, `accepted
      ensures View() == old(View()).(
              screen := if old(CurrentRequest(generation))
                        then Screen(Applied(old(streamingAssistant), event, generation),
                                    old(accepted) + [event])
                        else old(View()).screen)
    {
      if !CurrentRequest(generation) { return; }
      streamingAssistant := Applied(streamingAssistant, event, generation);
      accepted := accepted + [event];
    }

    method HandleEvent(event: Event, generation: nat) returns (throws: bool)
      requires Enabled(View(), Deliver(generation, event))
      modifies this
      ensures View() == Next(old(View()), Deliver(generation, event))
      ensures throws == event.Failed?
    {
      stages := stages[generation := Receiving(stages[generation].delivered + [event])];
      ApplyStreamEvent(event, generation);
      throws := event.Failed?;
      if throws { streamingAssistant := Interrupted(streamingAssistant, Broken); }
    }

    method Remove(generation: nat)
      requires Enabled(View(), RemoveMessage(generation))
      modifies this
      ensures View() == Next(old(View()), RemoveMessage(generation))
    {
      stages := stages[generation := Sending];
      if !CurrentRequest(generation) { return; }
      streamingAssistant, accepted := None, [];
    }

    method CatchError(generation: nat, aborted: bool)
      requires Enabled(View(), Fail(generation, aborted))
      modifies this
      ensures View() == Next(old(View()), Fail(generation, aborted))
    {
      if CurrentRequest(generation) {
        streamingAssistant :=
          Interrupted(streamingAssistant, if aborted then Stopped else Broken);
      }
      FinishRequest(generation);
      stages := stages[generation := Ended];
    }

    method StopGeneration(confirming: bool)
      modifies this
      ensures View() == Next(old(View()), Stop(confirming))
    {
      if !busy || confirming { return; }
      AbortController();
      streamingAssistant := Interrupted(streamingAssistant, Stopped);
    }

    method Unmount()
      requires mounted
      modifies this
      ensures View() == Next(old(View()), Step.Unmount)
    {
      mounted := false;
      requestGeneration := requestGeneration + 1;
      AbortController();
      requestController := None;
    }
  }
}
