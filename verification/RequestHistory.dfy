/** What the history of a run says of the screen, of aborts and of a request that is left alone. */
module RequestHistory {
  import opened JsText
  import opened EventFrames
  import opened StreamedMessage
  import opened RequestProtocol
  import opened RequestRuns

  // ---- The status ------------------------------------------------------------------------------------

  /** What a step says about the status: a status, or an end, which is partial if there is text. */
  datatype Word = Says(status: Status) | Ends(otherwise: Status)

  /** The word of a step taken in `s`, if it has one. */
  function WordOf(s: State, step: Step): Option<Word> {
    if !Enabled(s, step) then None
    else
      match step
      case AfterReservation(g, streams) =>
        var answered := s.queue.turns[s.stages[g].turn].phase.Answered?;
        if streams && answered && s.control.mounted && s.control.generation == g
        then Some(Says(Starting)) else None
      case Deliver(g, e) =>
        if e.Failed? then Some(Ends(Broken))
        else if !(s.control.mounted && s.control.generation == g) then None
        else if e.Started? || e.TextDelta? then Some(Says(Streaming))
        else if e.Completed? then Some(Says(Complete))
        else if e.Cancelled? then Some(Ends(Stopped))
        else None
      case Fail(g, aborted) =>
        if s.control.mounted && s.control.generation == g
        then Some(Ends(if aborted then Stopped else Broken)) else None
      case Stop(confirming) =>
        if s.control.busy && !confirming then Some(Ends(Stopped)) else None
      case _ => None
  }

  function LastWord(steps: seq<Step>): Option<Word> {
    if steps == [] then None
    else
      var n := |steps| - 1;
      var word := WordOf(Execute(INITIAL, steps[..n]), steps[n]);
      if word.Some? then word else LastWord(steps[..n])
  }

  /** In every run the status of the message on screen is the last word on it: an end leaves it
      partial exactly when it has text. */
  lemma {:induction false} StatusIsTheLastWord(steps: seq<Step>)
    ensures var shown := Execute(INITIAL, steps).screen.message;
            shown.Some? ==>
              && LastWord(steps).Some?
              && shown.value.status == match LastWord(steps).value
                                       case Says(status) => status
                                       case Ends(otherwise) =>
                                         if shown.value.content == "" then otherwise else Partial
  {
    if steps != [] {
      var n := |steps| - 1;
      StatusIsTheLastWord(steps[..n]);
      Reachable(steps[..n]);
      StatusStep(Execute(INITIAL, steps[..n]), steps[n]);
    }
  }

  predicate StatusIs(shown: Shown, word: Option<Word>) {
    shown.Some? ==>
      && word.Some?
      && shown.value.status == match word.value
                               case Says(status) => status
                               case Ends(otherwise) =>
                                 if shown.value.content == "" then otherwise else Partial
  }

  lemma StatusStep(s: State, step: Step)
    requires Inv(s)
    ensures var t := Next(s, step);
            && (WordOf(s, step).Some? ==> StatusIs(t.screen.message, WordOf(s, step)))
            && (WordOf(s, step).None? && t.screen.message.Some? ==>
                  && s.screen.message.Some?
                  && t.screen.message.value.status == s.screen.message.value.status
                  && t.screen.message.value.content == s.screen.message.value.content)
  {
    match step
    case Deliver(g, e) => DeliveredStatus(s, g, e);
    case _ =>
  }

  lemma DeliveredStatus(s: State, g: nat, e: Event)
    requires Inv(s)
    ensures var step := Deliver(g, e);
            var t := Next(s, step);
            && (WordOf(s, step).Some? ==> StatusIs(t.screen.message, WordOf(s, step)))
            && (WordOf(s, step).None? && t.screen.message.Some? ==>
                  && s.screen.message.Some?
                  && t.screen.message.value.status == s.screen.message.value.status
                  && t.screen.message.value.content == s.screen.message.value.content)
  {
  }

  // ---- Aborts ----------------------------------------------------------------------------------------

  /** Step `k` stops request `g`. */
  predicate Stops(steps: seq<Step>, k: nat, g: nat) {
    && k < |steps| && steps[k] == Stop(false)
    && var control := Execute(INITIAL, steps[..k]).control;
       control.busy && control.generation == g
  }

  ghost predicate WasStopped(steps: seq<Step>, g: nat) {
    exists k: nat :: Stops(steps, k, g)
  }

  lemma StoppedBefore(steps: seq<Step>, g: nat)
    requires steps != []
    ensures var n := |steps| - 1;
            WasStopped(steps, g) <==> WasStopped(steps[..n], g) || Stops(steps, n, g)
  {
    var n := |steps| - 1;
    forall k: nat | k < n ensures steps[..n][..k] == steps[..k] {}
    assert forall k: nat :: k < n ==> (Stops(steps, k, g) <==> Stops(steps[..n], k, g));
  }

  /** The controller held is that of the newest request, and those aborted are no newer. */
  ghost predicate Numbered(c: Control) {
    && (c.controller.Some? ==> c.controller.value == c.generation)
    && forall g :: g in c.aborted ==> g <= c.generation
  }

  /** While the page is mounted the newest request is aborted exactly if it was stopped by the user,
      not while an answer was being confirmed, before it had finished. */
  lemma {:induction false} AbortedExactly(steps: seq<Step>)
    ensures var c := Execute(INITIAL, steps).control;
            && Numbered(c) && (forall g: nat :: WasStopped(steps, g) ==> g <= c.generation)
            && (c.mounted ==> (c.generation in c.aborted <==> WasStopped(steps, c.generation)))
  {
    if steps != [] {
      var n := |steps| - 1;
      var s := Execute(INITIAL, steps[..n]);
      AbortedExactly(steps[..n]);
      Reachable(steps[..n]);
      Irreversible(s, [steps[n]]);
      forall g: nat ensures WasStopped(steps, g) <==> WasStopped(steps[..n], g) || Stops(steps, n, g) {
        StoppedBefore(steps, g);
      }
      AbortStep(s, steps[n]);
    }
  }

  lemma AbortStep(s: State, step: Step)
    requires Inv(s) && Numbered(s.control)
    ensures var c, d := s.control, Next(s, step).control;
            && Numbered(d) && c.generation <= d.generation
            && (d.mounted ==>
                  if d.generation != c.generation then d.generation !in d.aborted
                  else d.generation in d.aborted <==>
                       c.generation in c.aborted || (step == Stop(false) && c.busy))
  {
  }

  // ---- A request that is left alone ------------------------------------------------------------------

  /** A message is streamed only after its reservation was answered. */
  lemma {:induction false} StreamsAreReserved(steps: seq<Step>, g: nat)
    requires var s := Execute(INITIAL, steps); g in s.stages && s.stages[g].Receiving?
    ensures var q := Execute(INITIAL, steps).queue;
            exists i :: 0 <= i < |q.turns| && q.turns[i].generation == g && q.turns[i].phase.Answered?
  {
    if steps != [] {
      var n := |steps| - 1;
      var s := Execute(INITIAL, steps[..n]);
      Reachable(steps[..n]);
      if g in s.stages && s.stages[g].Receiving? {
        StreamsAreReserved(steps[..n], g);
        AnsweredStays(s, steps[n], g);
      }
    }
  }

  lemma AnsweredStays(s: State, step: Step, g: nat)
    requires exists i :: 0 <= i < |s.queue.turns| && s.queue.turns[i].generation == g
                         && s.queue.turns[i].phase.Answered?
    ensures var q := Next(s, step).queue;
            exists i :: 0 <= i < |q.turns| && q.turns[i].generation == g && q.turns[i].phase.Answered?
  {
    var i :| 0 <= i < |s.queue.turns| && s.queue.turns[i].generation == g
             && s.queue.turns[i].phase.Answered?;
    assert Next(s, step).queue.turns[i] == s.queue.turns[i];
  }

  function Deliveries(g: nat, events: seq<Event>): seq<Step> {
    seq(|events|, i requires 0 <= i < |events| => Deliver(g, events[i]))
  }

  /** `sendMessage` with nothing in its way, up to its stream. */
  function Opening(g: nat, turn: nat): seq<Step> {
    [Send, TakeTurn(turn), FetchSettles(turn, true), AfterReservation(g, true)]
  }

  predicate NoneFails(events: seq<Event>) {
    forall i :: 0 <= i < |events| ==> !events[i].Failed?
  }

  /** Sent while no reservation is outstanding and left alone, a request sends its reservation, opens
      its stream, and shows in its own message all that the stream delivers; then it is no longer
      busy. */
  lemma UndisturbedRequestShowsItsStream(s: State, events: seq<Event>)
    requires Inv(s) && Numbered(s.control) && s.control.mounted && NoneFails(events)
    requires forall i :: 0 <= i < |s.queue.turns| ==> Settled(s.queue.turns[i].phase)
    ensures var g, turn := s.control.generation + 1, |s.queue.turns|;
            var t := Execute(Execute(Execute(s, Opening(g, turn)), Deliveries(g, events)), [Finish(g)]);
            && turn in t.queue.sent && turn < |t.queue.turns|
            && t.queue.turns[turn] == Turn(g, s.queue.tail, Answered)
            && t.screen.message.Some? && t.screen.message.value.generation == g
            && Collects(t.screen.message.value, events)
            && t.control == Control(true, g, None, t.control.aborted, false)
            && g !in t.control.aborted
  {
    var g, turn := s.control.generation + 1, |s.queue.turns|;
    var begun := Execute(s, Opening(g, turn));
    Opens(s);
    Streams(begun, g, events);
    var streamed := Execute(begun, Deliveries(g, events));
    OneStep(streamed, Finish(g));
  }

  lemma OneStep(s: State, step: Step)
    ensures Execute(s, [step]) == Next(s, step)
  {
    assert [step][..0] == [];
  }

  lemma MoreSteps(s: State, steps: seq<Step>, step: Step)
    ensures Execute(s, steps + [step]) == Next(Execute(s, steps), step)
  {
    assert (steps + [step])[..|steps|] == steps;
  }

  lemma FourSteps(s: State, a: Step, b: Step, c: Step, d: Step)
    ensures Execute(s, [a, b, c, d]) == Next(Next(Next(Next(s, a), b), c), d)
  {
    OneStep(s, a);
    MoreSteps(s, [a], b);
    MoreSteps(s, [a] + [b], c);
    MoreSteps(s, [a] + [b] + [c], d);
    assert [a] + [b] + [c] + [d] == [a, b, c, d];
  }

  lemma Opens(s: State)
    requires Inv(s) && Numbered(s.control) && s.control.mounted
    requires forall i :: 0 <= i < |s.queue.turns| ==> Settled(s.queue.turns[i].phase)
    ensures var g, turn := s.control.generation + 1, |s.queue.turns|;
            var t := Execute(s, Opening(g, turn));
            && t.control == Control(true, g, Some(g), t.control.aborted, true)
            && g !in t.control.aborted
            && turn in t.queue.sent && turn < |t.queue.turns|
            && t.queue.turns[turn] == Turn(g, s.queue.tail, Answered)
            && g in t.stages && t.stages[g] == Receiving([])
            && t.screen == Screen(Some(Fresh(g)), [])
  {
    var g, turn := s.control.generation + 1, |s.queue.turns|;
    FourSteps(s, Send, TakeTurn(turn), FetchSettles(turn, true), AfterReservation(g, true));
    OpensSend(s);
    OpensTake(Next(s, Send), g, turn, s.queue.tail);
    var taken := Next(Next(s, Send), TakeTurn(turn));
    OpensFetch(taken, g, turn, s.queue.tail);
    OpensStream(Next(taken, FetchSettles(turn, true)), g, turn, s.queue.tail);
  }

  /** The newest request `g` awaits its reservation, and its turn is in that phase. */
  predicate Awaits(t: State, g: nat, turn: nat, previous: Option<nat>, phase: Phase) {
    && t.control == Control(true, g, Some(g), t.control.aborted, true) && g !in t.control.aborted
    && g in t.stages && t.stages[g] == Reserving(turn)
    && turn < |t.queue.turns| && t.queue.turns[turn] == Turn(g, previous, phase)
  }

  lemma OpensSend(s: State)
    requires Inv(s) && Numbered(s.control) && s.control.mounted
    requires forall i :: 0 <= i < |s.queue.turns| ==> Settled(s.queue.turns[i].phase)
    ensures var g, turn := s.control.generation + 1, |s.queue.turns|;
            Awaits(Next(s, Send), g, turn, s.queue.tail, Waiting)
            && MayTakeTurn(Next(s, Send).queue, turn)
  {
    var turn, q := |s.queue.turns|, Next(s, Send).queue;
    assert turn > 0 ==> s.queue.tail == Some(turn - 1) && q.turns[turn - 1] == s.queue.turns[turn - 1];
  }

  lemma OpensTake(a: State, g: nat, turn: nat, previous: Option<nat>)
    requires Awaits(a, g, turn, previous, Waiting) && MayTakeTurn(a.queue, turn)
    ensures Awaits(Next(a, TakeTurn(turn)), g, turn, previous, Fetching)
    ensures turn in Next(a, TakeTurn(turn)).queue.sent
  {
    assert Next(a, TakeTurn(turn)).queue.sent[|a.queue.sent|] == turn;
  }

  lemma OpensFetch(b: State, g: nat, turn: nat, previous: Option<nat>)
    requires Awaits(b, g, turn, previous, Fetching) && turn in b.queue.sent
    ensures Awaits(Next(b, FetchSettles(turn, true)), g, turn, previous, Answered)
    ensures turn in Next(b, FetchSettles(turn, true)).queue.sent
  {
  }

  lemma OpensStream(c: State, g: nat, turn: nat, previous: Option<nat>)
    requires Awaits(c, g, turn, previous, Answered) && turn in c.queue.sent
    ensures var t := Next(c, AfterReservation(g, true));
            && t.control == c.control && t.queue == c.queue
            && g in t.stages && t.stages[g] == Receiving([])
            && t.screen == Screen(Some(Fresh(g)), [])
  {
  }

  lemma {:induction false} Streams(s: State, g: nat, events: seq<Event>)
    requires s.control.mounted && s.control.generation == g && NoneFails(events)
    requires g in s.stages && s.stages[g] == Receiving([]) && s.screen == Screen(Some(Fresh(g)), [])
    ensures var t := Execute(s, Deliveries(g, events));
            && t.control == s.control && t.queue == s.queue
            && g in t.stages && t.stages[g] == Receiving(events)
            && t.screen.message.Some? && t.screen.message.value.generation == g
            && Collects(t.screen.message.value, events)
  {
    if events != [] {
      var n := |events| - 1;
      Streams(s, g, events[..n]);
      assert Deliveries(g, events)[..n] == Deliveries(g, events[..n]);
      FrontAndLast(events);
      var t := Execute(s, Deliveries(g, events[..n]));
      assert Enabled(t, Deliver(g, events[n]));
      AppliedCollects(t.screen.message.value, events[..n], events[n]);
    }
  }
}
