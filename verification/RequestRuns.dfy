/** What holds in every interleaving of the request protocol, and what the screen shows of a
    streamed response. */
module RequestRuns {
  import opened JsText
  import opened EventFrames
  import opened EventConsumer
  import opened ChunkInvariance
  import opened StreamedMessage
  import opened RequestProtocol

  // ---- The invariant -----------------------------------------------------------------------

  /** Every turn is chained to the one submitted before it. */
  ghost predicate Chained(q: Queue) {
    && (forall i :: 0 <= i < |q.turns| ==>
          q.turns[i].previous == if i == 0 then None else Some(i - 1))
    && q.tail == if q.turns == [] then None else Some(|q.turns| - 1)
  }

  /** Turns settle from the front: once one has been taken, all before it have settled. */
  ghost predicate Serial(q: Queue) {
    forall i, j :: 0 <= i < j < |q.turns| && q.turns[j].phase != Waiting ==>
      Settled(q.turns[i].phase)
  }

  /** Fetches are started in submission order; an answered turn was sent, a waiting one was not. */
  ghost predicate SentInOrder(q: Queue) {
    && (forall a, b :: 0 <= a < b < |q.sent| ==> q.sent[a] < q.sent[b])
    && (forall i :: i in q.sent ==> i < |q.turns| && q.turns[i].phase != Waiting)
    && (forall i :: 0 <= i < |q.turns| && (q.turns[i].phase.Fetching? || q.turns[i].phase.Answered?)
          ==> i in q.sent)
  }

  ghost predicate BusyWhileOpen(c: Control, stages: map<nat, Stage>) {
    c.mounted ==> (c.busy <==> Open(stages, c.generation))
  }

  /** The controller held is that of the newest request; all older open requests are aborted. */
  ghost predicate OlderAborted(c: Control, stages: map<nat, Stage>) {
    && (forall g :: g in stages ==> 1 <= g <= c.generation)
    && (forall g :: Open(stages, g) ==>
          if g == c.generation then c.controller == Some(g) else g in c.aborted)
  }

  /** A request awaits its reservation exactly while its turn has not settled, or until it resumes. */
  ghost predicate TurnsOwned(q: Queue, stages: map<nat, Stage>) {
    && (forall i :: 0 <= i < |q.turns| && !Settled(q.turns[i].phase) ==>
          q.turns[i].generation in stages && stages[q.turns[i].generation] == Reserving(i))
    && (forall g :: g in stages && stages[g].Reserving? ==>
          stages[g].turn < |q.turns| && q.turns[stages[g].turn].generation == g)
  }

  /** The message collects the events accepted since its reset; while the newest request streams
      they are all the events its stream delivered. */
  ghost predicate ShownIsAccepted(c: Control, stages: map<nat, Stage>, screen: Screen) {
    && (screen.message.Some? ==> Collects(screen.message.value, screen.accepted))
    && (Current(c, c.generation) && c.generation in stages && stages[c.generation].Receiving? ==>
          && screen.message.Some? && screen.message.value.generation == c.generation
          && screen.accepted == stages[c.generation].delivered)
  }

  ghost predicate Inv(s: State) {
    && Chained(s.queue) && Serial(s.queue) && SentInOrder(s.queue)
    && BusyWhileOpen(s.control, s.stages) && OlderAborted(s.control, s.stages)
    && TurnsOwned(s.queue, s.stages) && ShownIsAccepted(s.control, s.stages, s.screen)
  }

  /** When a turn may be taken, all before it have settled and none after it was taken. */
  lemma TurnIsNext(q: Queue, turn: nat)
    requires Chained(q) && Serial(q) && SentInOrder(q) && MayTakeTurn(q, turn)
    ensures forall i :: 0 <= i < turn ==> Settled(q.turns[i].phase)
    ensures forall i :: turn < i < |q.turns| ==> q.turns[i].phase == Waiting
    ensures forall a :: 0 <= a < |q.sent| ==> q.sent[a] < turn
  {
    assert turn > 0 ==> Settled(q.turns[turn - 1].phase);
    assert forall a :: 0 <= a < |q.sent| ==> q.sent[a] in q.sent;
  }

  lemma TakenIsSent(q: Queue, turn: nat)
    requires Chained(q) && Serial(q) && SentInOrder(q) && MayTakeTurn(q, turn)
    ensures SentInOrder(TurnTaken(q, turn, true))
  {
    TurnIsNext(q, turn);
    var next := TurnTaken(q, turn, true);
    assert next.sent[|q.sent|] == turn;
    assert forall i :: i in q.sent ==> i in next.sent;
  }

  lemma QueueKept(q: Queue, turn: nat, alive: bool)
    requires Chained(q) && Serial(q) && SentInOrder(q) && MayTakeTurn(q, turn)
    ensures var next := TurnTaken(q, turn, alive);
            Chained(next) && Serial(next) && SentInOrder(next)
  {
    TurnIsNext(q, turn);
    TakenIsSent(q, turn);
  }

  lemma ReservedKept(q: Queue, generation: nat)
    requires Chained(q) && Serial(q) && SentInOrder(q)
    ensures var next := Reserved(q, generation);
            Chained(next) && Serial(next) && SentInOrder(next)
  {
  }

  lemma SettledKept(q: Queue, turn: nat, ok: bool)
    requires Chained(q) && Serial(q) && SentInOrder(q)
    requires turn < |q.turns| && q.turns[turn].phase.Fetching?
    ensures var next := WithPhase(q, turn, if ok then Answered else Rejected);
            Chained(next) && Serial(next) && SentInOrder(next)
  {
  }

  lemma QueueStep(s: State, step: Step)
    requires Inv(s)
    ensures var q := Next(s, step).queue; Chained(q) && Serial(q) && SentInOrder(q)
  {
    if Enabled(s, step) {
      match step
      case Send => ReservedKept(s.queue, s.control.generation + 1);
      case TakeTurn(turn) =>
        QueueKept(s.queue, turn, Alive(s.control, s.queue.turns[turn].generation));
      case FetchSettles(turn, ok) => SettledKept(s.queue, turn, ok);
      case _ =>
    }
  }

  ghost predicate ControlHolds(c: Control, stages: map<nat, Stage>) {
    BusyWhileOpen(c, stages) && OlderAborted(c, stages)
  }

  lemma BegunKept(c: Control, stages: map<nat, Stage>, stage: Stage)
    requires ControlHolds(c, stages) && stage != Ended
    ensures ControlHolds(Begun(c), stages[c.generation + 1 := stage])
  {
  }

  lemma FinishedKept(c: Control, stages: map<nat, Stage>, g: nat)
    requires ControlHolds(c, stages) && g in stages
    ensures ControlHolds(FinishedBy(c, g), stages[g := Ended])
  {
  }

  lemma MovedKept(c: Control, stages: map<nat, Stage>, g: nat, stage: Stage)
    requires ControlHolds(c, stages) && Open(stages, g) && stage != Ended
    ensures ControlHolds(c, stages[g := stage])
  {
  }

  lemma ControlStep(s: State, step: Step)
    requires Inv(s)
    ensures ControlHolds(Next(s, step).control, Next(s, step).stages)
  {
    if Enabled(s, step) {
      match step
      case Navigate => BegunKept(s.control, s.stages, Loading);
      case Send => BegunKept(s.control, s.stages, Reserving(|s.queue.turns|));
      case AfterReservation(g, _) =>
        MovedKept(s.control, s.stages, g, Receiving([]));
        MovedKept(s.control, s.stages, g, Sending);
      case Deliver(g, e) =>
        MovedKept(s.control, s.stages, g, Receiving(s.stages[g].delivered + [e]));
      case RemoveMessage(g) => MovedKept(s.control, s.stages, g, Sending);
      case Fail(g, _) => FinishedKept(s.control, s.stages, g);
      case Finish(g) => FinishedKept(s.control, s.stages, g);
      case _ =>
    }
  }

  lemma MovedOwner(q: Queue, stages: map<nat, Stage>, g: nat, stage: Stage)
    requires TurnsOwned(q, stages) && !stage.Reserving?
    requires g in stages && stages[g].Reserving? ==> Settled(q.turns[stages[g].turn].phase)
    ensures TurnsOwned(q, stages[g := stage])
  {
  }

  lemma NewOwner(q: Queue, stages: map<nat, Stage>, g: nat)
    requires TurnsOwned(q, stages) && g !in stages
    ensures TurnsOwned(Reserved(q, g), stages[g := Reserving(|q.turns|)])
  {
  }

  lemma OwnedTurn(q: Queue, stages: map<nat, Stage>, turn: nat, phase: Phase)
    requires TurnsOwned(q, stages) && turn < |q.turns|
    requires !Settled(q.turns[turn].phase)
    ensures TurnsOwned(WithPhase(q, turn, phase), stages)
  {
  }

  lemma OwnersStep(s: State, step: Step)
    requires Inv(s)
    ensures TurnsOwned(Next(s, step).queue, Next(s, step).stages)
  {
    if Enabled(s, step) {
      match step
      case Navigate => MovedOwner(s.queue, s.stages, s.control.generation + 1, Loading);
      case Send => NewOwner(s.queue, s.stages, s.control.generation + 1);
      case TakeTurn(turn) =>
        OwnedTurn(s.queue, s.stages, turn, Fetching);
        OwnedTurn(s.queue, s.stages, turn, Rejected);
      case FetchSettles(turn, ok) =>
        OwnedTurn(s.queue, s.stages, turn, if ok then Answered else Rejected);
      case AfterReservation(g, _) =>
        MovedOwner(s.queue, s.stages, g, Receiving([]));
        MovedOwner(s.queue, s.stages, g, Sending);
      case Deliver(g, e) =>
        MovedOwner(s.queue, s.stages, g, Receiving(s.stages[g].delivered + [e]));
      case RemoveMessage(g) => MovedOwner(s.queue, s.stages, g, Sending);
      case Fail(g, _) => MovedOwner(s.queue, s.stages, g, Ended);
      case Finish(g) => MovedOwner(s.queue, s.stages, g, Ended);
      case Stop(_) =>
      case Unmount =>
    }
  }

  lemma ScreenStep(s: State, step: Step)
    requires Inv(s)
    ensures var t := Next(s, step); ShownIsAccepted(t.control, t.stages, t.screen)
  {
    match step
    case Deliver(g, e) => DeliverScreen(s, g, e);
    case AfterReservation(g, streams) => ReservedScreen(s, g, streams);
    case RemoveMessage(g) => RemovedScreen(s, g);
    case Fail(g, aborted) => FailedScreen(s, g, aborted);
    case _ => OtherScreen(s, step);
  }

  lemma DeliverScreen(s: State, g: nat, e: Event)
    requires Inv(s)
    ensures var t := Next(s, Deliver(g, e)); ShownIsAccepted(t.control, t.stages, t.screen)
  {
    if Enabled(s, Deliver(g, e)) && Current(s.control, g) {
      AppliedCollects(s.screen.message.value, s.screen.accepted, e);
    }
  }

  lemma ReservedScreen(s: State, g: nat, streams: bool)
    requires Inv(s)
    ensures var t := Next(s, AfterReservation(g, streams));
            ShownIsAccepted(t.control, t.stages, t.screen)
  {
  }

  lemma RemovedScreen(s: State, g: nat)
    requires Inv(s)
    ensures var t := Next(s, RemoveMessage(g)); ShownIsAccepted(t.control, t.stages, t.screen)
  {
  }

  lemma FailedScreen(s: State, g: nat, aborted: bool)
    requires Inv(s)
    ensures var t := Next(s, Fail(g, aborted)); ShownIsAccepted(t.control, t.stages, t.screen)
  {
  }

  lemma OtherScreen(s: State, step: Step)
    requires Inv(s)
    requires !step.Deliver? && !step.AfterReservation? && !step.RemoveMessage? && !step.Fail?
    ensures var t := Next(s, step); ShownIsAccepted(t.control, t.stages, t.screen)
  {
  }

  lemma {:induction false} Reachable(steps: seq<Step>)
    ensures Inv(Execute(INITIAL, steps))
  {
    if steps != [] {
      Reachable(steps[..|steps| - 1]);
      var s, step := Execute(INITIAL, steps[..|steps| - 1]), steps[|steps| - 1];
      QueueStep(s, step);
      ControlStep(s, step);
      OwnersStep(s, step);
      ScreenStep(s, step);
    }
  }

  // ---- The main results ----------------------------------------------------------------------

  /** While mounted, `busy` holds exactly while the newest request has not reached its `finally`. */
  lemma {:induction false} BusyExactly(steps: seq<Step>)
    ensures var s := Execute(INITIAL, steps);
            s.control.mounted ==> (s.control.busy <==> Open(s.stages, s.control.generation))
  {
    Reachable(steps);
  }

  /** Reservation fetches start in submission order, at most one is unsettled, and it has all
      earlier turns settled and all later ones waiting. */
  lemma ReservationsAreSerial(steps: seq<Step>)
    ensures var q := Execute(INITIAL, steps).queue;
            && (forall a, b :: 0 <= a < b < |q.sent| ==> q.sent[a] < q.sent[b])
            && (forall i, j :: 0 <= i < |q.turns| && 0 <= j < |q.turns| && q.turns[j].phase.Fetching? ==>
                  if i < j then Settled(q.turns[i].phase)
                  else i == j || q.turns[i].phase == Waiting)
  {
    Reachable(steps);
  }

  /** The queue never stalls: while a turn waits, some turn can be taken or some fetch is open. */
  lemma {:induction false} QueueProgresses(steps: seq<Step>, turn: nat)
    requires var q := Execute(INITIAL, steps).queue;
             turn < |q.turns| && q.turns[turn].phase == Waiting
    ensures var q := Execute(INITIAL, steps).queue;
            exists i: nat :: i <= turn && (MayTakeTurn(q, i) || q.turns[i].phase.Fetching?)
  {
    Reachable(steps);
    var q := Execute(INITIAL, steps).queue;
    if turn > 0 && !Settled(q.turns[turn - 1].phase) {
      if q.turns[turn - 1].phase == Waiting {
        QueueProgresses(steps, turn - 1);
      }
    } else {
      assert MayTakeTurn(q, turn);
    }
  }

  /** What cannot be undone: leaving the page, an abort, a settled turn, a newer generation. */
  predicate Follows(s: State, t: State) {
    && (t.control.mounted ==> s.control.mounted)
    && s.control.aborted <= t.control.aborted
    && s.control.generation <= t.control.generation
    && (t.control.generation == s.control.generation ==> t.control.mounted == s.control.mounted)
    && |s.queue.turns| <= |t.queue.turns|
    && (forall i :: 0 <= i < |s.queue.turns| ==>
          t.queue.turns[i].generation == s.queue.turns[i].generation)
  }

  lemma {:induction false} Irreversible(s: State, steps: seq<Step>)
    ensures Follows(s, Execute(s, steps))
  {
    if steps != [] {
      Irreversible(s, steps[..|steps| - 1]);
      FollowsStep(Execute(s, steps[..|steps| - 1]), steps[|steps| - 1]);
    }
  }

  lemma FollowsStep(s: State, step: Step)
    ensures Follows(s, Next(s, step))
  {
  }

  /** A request that is no longer current never becomes current again. */
  lemma SupersededForGood(s: State, steps: seq<Step>, generation: nat)
    requires generation <= s.control.generation && !Current(s.control, generation)
    ensures !Current(Execute(s, steps).control, generation)
  {
    Irreversible(s, steps);
  }

  /** The steps that end the reign of the current request. */
  predicate Replaces(step: Step) {
    step.Navigate? || step.Send? || step.Unmount?
  }

  predicate NoneReplaces(steps: seq<Step>) {
    forall i :: 0 <= i < |steps| ==> !Replaces(steps[i])
  }

  /** A current request stays current exactly until the next request begins or the page is left. */
  lemma {:induction false} CurrentUntilReplaced(s: State, steps: seq<Step>, generation: nat)
    requires Current(s.control, generation)
    ensures Current(Execute(s, steps).control, generation) <==> NoneReplaces(steps)
  {
    if steps != [] {
      var n := |steps| - 1;
      CurrentUntilReplaced(s, steps[..n], generation);
      Irreversible(s, steps[..n]);
      AllButLast(steps);
      CurrentStep(Execute(s, steps[..n]), steps[n], generation);
    }
  }

  lemma AllButLast(steps: seq<Step>)
    requires steps != []
    ensures NoneReplaces(steps) <==>
            NoneReplaces(steps[..|steps| - 1]) && !Replaces(steps[|steps| - 1])
  {
    FrontAndLast(steps);
  }

  lemma CurrentStep(s: State, step: Step, generation: nat)
    requires generation <= s.control.generation
    ensures Current(Next(s, step).control, generation) <==>
            Current(s.control, generation) && !Replaces(step)
  {
  }

  lemma {:induction false} DeadTurnIsNotSent(s: State, steps: seq<Step>, turn: nat)
    requires turn < |s.queue.turns| && turn !in s.queue.sent
    requires !Alive(s.control, s.queue.turns[turn].generation)
    ensures turn !in Execute(s, steps).queue.sent
  {
    if steps != [] {
      DeadTurnIsNotSent(s, steps[..|steps| - 1], turn);
      Irreversible(s, steps[..|steps| - 1]);
    }
  }

  /** A request superseded, aborted or left behind before its turn never sends its reservation. */
  lemma SupersededNeverSends(before: seq<Step>, after: seq<Step>, turn: nat)
    requires var s := Execute(INITIAL, before);
             && turn < |s.queue.turns| && s.queue.turns[turn].phase == Waiting
             && (!Current(s.control, s.queue.turns[turn].generation)
                 || s.queue.turns[turn].generation in s.control.aborted)
    ensures turn !in Execute(Execute(INITIAL, before), after).queue.sent
  {
    Reachable(before);
    var s := Execute(INITIAL, before);
    assert Open(s.stages, s.queue.turns[turn].generation);
    DeadTurnIsNotSent(s, after, turn);
  }

  /** Stopping the current request before its turn keeps its reservation from being sent. */
  lemma StoppedNeverSends(before: seq<Step>, after: seq<Step>, turn: nat)
    requires var s := Execute(INITIAL, before);
             && turn < |s.queue.turns| && s.queue.turns[turn].phase == Waiting
             && Current(s.control, s.queue.turns[turn].generation)
    ensures turn !in Execute(Next(Execute(INITIAL, before), Stop(false)), after).queue.sent
  {
    Reachable(before);
    var s := Execute(INITIAL, before);
    assert Open(s.stages, s.queue.turns[turn].generation);
    DeadTurnIsNotSent(Next(s, Stop(false)), after, turn);
  }

  /** The only steps that change the text on screen, and how: the current request puts a fresh
      message up, takes it down, or appends a delta to its own message. */
  lemma {:induction false} OnlyTheCurrentRequestWrites(steps: seq<Step>, step: Step)
    requires var s := Execute(INITIAL, steps).screen; var t := Next(Execute(INITIAL, steps), step).screen;
             ContentOf(t.message) != ContentOf(s.message)
    ensures var s := Execute(INITIAL, steps); var shown := Next(s, step).screen.message;
            match step
            case AfterReservation(g, _) => Current(s.control, g) && shown == Some(Fresh(g))
            case RemoveMessage(g) => Current(s.control, g) && shown == None
            case Deliver(g, e) =>
              && Current(s.control, g) && e.TextDelta?
              && s.screen.message.Some? && s.screen.message.value.generation == g
              && shown.Some? && shown.value.generation == g
              && shown.value.content == s.screen.message.value.content + e.delta
            case _ => false
  {
    Reachable(steps);
  }

  function ContentOf(message: Shown): Option<string> {
    if message.Some? then Some(message.value.content) else None
  }

  /** From its reset on, a message holds exactly what the events accepted for it carried: its text is
      their deltas joined in order. */
  lemma ShownIsWhatWasAccepted(steps: seq<Step>)
    ensures var screen := Execute(INITIAL, steps).screen;
            screen.message.Some? ==>
              && Collects(screen.message.value, screen.accepted)
              && screen.message.value.content == Deltas(screen.accepted)
              && screen.message.value.citations == Carried(screen.accepted, CitationOf)
              && screen.message.value.fileSources == Carried(screen.accepted, FileSourceOf)
              && screen.message.value.toolCalls == Carried(screen.accepted, ToolCallOf)
              && screen.message.value.generatedArtifacts == Carried(screen.accepted, ArtifactOf)
  {
    Reachable(steps);
    CollectedIs(Execute(INITIAL, steps).screen.accepted);
  }

  /** The stream client of `sendMessage`: its handler throws on an error event. */
  function MessageClient(json: string -> Json): Client {
    ClientOver(json, (past, e: Event) => e.Failed?)
  }

  /** When the stream of the current request has ended, the text on screen is the text of the whole
      response body, however the network cut it. */
  lemma CompletedTextIsTheStreams(steps: seq<Step>, session: Session, text: string,
                                  json: string -> Json)
    requires Sends(session, text) && Fits(text)
    requires var s := Execute(INITIAL, steps);
             && Current(s.control, s.control.generation) && s.control.generation in s.stages
             && s.stages[s.control.generation] ==
                Receiving(Run(session, MessageClient(json), 0).events)
    ensures var shown := Execute(INITIAL, steps).screen.message;
            && shown.Some? && shown.value.generation == Execute(INITIAL, steps).control.generation
            && Collects(shown.value, Reference(text, MessageClient(json)).events)
            && shown.value.content == Deltas(Reference(text, MessageClient(json)).events)
  {
    Reachable(steps);
    CollectedIs(Reference(text, MessageClient(json)).events);
    ChunkInvariance.ChunkInvariance(session, text, MessageClient(json));
  }

  /** At every moment of a stream, whatever ends it, the text on screen is a prefix of the text of
      the response body. */
  lemma ShownIsAPrefix(steps: seq<Step>, session: Session, json: string -> Json)
    requires var s := Execute(INITIAL, steps);
             && Current(s.control, s.control.generation) && s.control.generation in s.stages
             && s.stages[s.control.generation].Receiving?
             && s.stages[s.control.generation].delivered <=
                Run(session, MessageClient(json), 0).events
    ensures var shown := Execute(INITIAL, steps).screen.message;
            && shown.Some?
            && shown.value.content <=
               Deltas(Reference(WholeText(session), MessageClient(json)).events)
  {
    Reachable(steps);
    CollectedIs(Execute(INITIAL, steps).screen.accepted);
    DeliveredIsPrefix(session, MessageClient(json));
    DeltasOfPrefix(Execute(INITIAL, steps).screen.accepted,
                   Reference(WholeText(session), MessageClient(json)).events);
  }
}
