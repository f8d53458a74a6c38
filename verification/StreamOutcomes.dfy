/** How a run of the stream client ends, and what it delivered: at the first read with a reason, which
    is told of the text received, the limits, the signal and the handler, without the loops. */
module StreamOutcomes {
  import opened JsText
  import opened EventStream
  import opened EventFrames
  import opened EventConsumer
  import opened ChunkInvariance

  // ---- Frames and events ---------------------------------------------------------------------------

  /** The events that some frames parse as. */
  function EventsIn(frames: seq<string>, client: Client): seq<Event> {
    if frames == [] then []
    else
      var first := client.parse(frames[0]);
      (if first.Some? then [first.value] else []) + EventsIn(frames[1..], client)
  }

  /** The handler throws on none of the events, each given after those before it. */
  predicate Accepts(client: Client, events: seq<Event>) {
    forall k :: 0 <= k < |events| ==> !client.throws(client.heard + events[..k], events[k])
  }

  predicate Small(frames: seq<string>) {
    forall k :: 0 <= k < |frames| ==> |frames[k]| <= 262_144
  }

  predicate Passes(client: Client, frames: seq<string>) {
    Small(frames) && Accepts(client, EventsIn(frames, client))
  }

  /** All frames before `m` pass, and frame `m` is too large. */
  predicate TooLargeAt(client: Client, frames: seq<string>, m: nat, events: seq<Event>) {
    && m < |frames| && Passes(client, frames[..m]) && |frames[m]| > 262_144
    && events == EventsIn(frames[..m], client)
  }

  /** All frames before `m` pass, and the handler throws on the event of frame `m`. */
  predicate ThrowsAt(client: Client, frames: seq<string>, m: nat, events: seq<Event>) {
    && m < |frames| && Passes(client, frames[..m]) && |frames[m]| <= 262_144
    && client.parse(frames[m]).Some?
    && var past, e := EventsIn(frames[..m], client), client.parse(frames[m]).value;
       events == past + [e] && client.throws(client.heard + past, e)
  }

  // ---- How a run ends --------------------------------------------------------------------------------

  function FramesBefore(s: Session, n: nat): seq<string>
    requires n <= |s.chunks|
  {
    Received(TextOf(s.chunks[..n])).frames
  }

  /** Nothing ended the run before read `n`. */
  ghost predicate Smooth(s: Session, client: Client, n: nat)
    requires n <= |s.chunks|
  {
    && (n > 0 ==> !SeenAborted(s, 2 * n - 1))
    && BytesOf(s.chunks[..n]) <= 8_388_608
    && (forall j :: 0 <= j < n ==> |CutAfter(s, j).rest| <= 262_144)
    && Passes(client, FramesBefore(s, n))
  }

  /** The last event: the trimmed rest, if it parses. */
  function LastEvents(s: Session, client: Client): seq<Event> {
    var last := client.parse(Trim(CutAfter(s, |s.chunks|).rest));
    if last.Some? then [last.value] else []
  }

  /** What goes wrong once read `n` has succeeded, and what is delivered until then. */
  ghost predicate Trouble(s: Session, client: Client, n: nat, error: Outcome, events: seq<Event>)
    requires n <= |s.chunks|
  {
    var frames, rest := CutAfter(s, n).frames, CutAfter(s, n).rest;
    match error
    case ResponseTooLarge =>
      && n < |s.chunks| && BytesOf(s.chunks[..n + 1]) > 8_388_608
      && events == EventsIn(FramesBefore(s, n), client)
    case EventTooLarge =>
      || (exists m: nat :: TooLargeAt(client, frames, m, events))
      || (Passes(client, frames) && |rest| > 262_144 && events == EventsIn(frames, client))
    case HandlerFailed =>
      || (exists m: nat :: ThrowsAt(client, frames, m, events))
      || (&& n == |s.chunks| && Passes(client, frames) && LastEvents(s, client) != []
          && events == EventsIn(frames, client) + LastEvents(s, client)
          && !Accepts(client, events))
    case _ => false
  }

  /** The whole text was received within the limits and every handler returned. */
  ghost predicate Completes(s: Session, client: Client, events: seq<Event>) {
    var cut := CutAfter(s, |s.chunks|);
    && Passes(client, cut.frames) && |cut.rest| <= 262_144
    && events == EventsIn(cut.frames, client) + LastEvents(s, client)
    && Accepts(client, events)
  }

  /** The result of a run that ends at read `n`.  An abort seen around the read, or after an error,
      comes before the error. */
  ghost predicate EndsAt(s: Session, client: Client, n: nat, r: Result) {
    && n <= |s.chunks| && Smooth(s, client, n)
    && if SeenAborted(s, 2 * n + 1) then
         r == Result(EventsIn(FramesBefore(s, n), client), Aborted)
       else if n == |s.chunks| && s.ending.ReadRejects? then
         r == Result(EventsIn(FramesBefore(s, n), client), ReadFailed)
       else
         || (n == |s.chunks| && r.outcome == Finished && Completes(s, client, r.events))
         || exists error :: Trouble(s, client, n, error, r.events)
                            && r.outcome == if SeenAborted(s, 2 * n + 2) then Aborted else error
  }

  function AllEvents(s: Session, client: Client): seq<Event> {
    EventsIn(CutAfter(s, |s.chunks|).frames, client) + LastEvents(s, client)
  }

  ghost predicate Untroubled(s: Session, client: Client) {
    && !SeenAborted(s, 2 * |s.chunks| + 1) && s.ending.Closed?
    && BytesOf(s.chunks) <= 8_388_608
    && (forall j :: 0 <= j <= |s.chunks| ==> |CutAfter(s, j).rest| <= 262_144)
    && Small(CutAfter(s, |s.chunks|).frames) && Accepts(client, AllEvents(s, client))
  }

  // ---- The main results --------------------------------------------------------------------------------

  /** Every run ends at some read, with the outcome and the events which that read gives reason for,
      and nothing gave a reason before. */
  lemma EveryRunEnds(s: Session, client: Client)
    ensures exists n: nat :: EndsAt(s, client, n, Run(s, client, 0))
  {
    HeardNothing(client);
    assert Received("") == Cutting([], "");
    assert BytesOf([]) == 0;
    var n := RunEnds(s, client, 0);
    ThenNothing(Run(s, client, 0));
  }

  /** A handler that throws ends the stream: whenever it throws on an event delivered, given those
      before it, that event is the last, and the caller is told of the failure, or of the abort if
      the signal is aborted by then; and it is told of a failing handler only then. */
  lemma HandlerErrorsEndTheStream(s: Session, client: Client, k: nat)
    ensures var r := Run(s, client, 0);
            && (k < |r.events| && client.throws(client.heard + r.events[..k], r.events[k]) ==>
                  && k == |r.events| - 1
                  && (r.outcome == HandlerFailed
                      || (r.outcome == Aborted && SeenAborted(s, 2 * |s.chunks| + 2))))
            && (r.outcome == HandlerFailed ==>
                  && r.events != []
                  && var n := |r.events| - 1;
                     client.throws(client.heard + r.events[..n], r.events[n]))
  {
    RunAccepts(s, client);
    OnlyTheLast(client, Run(s, client, 0).events, k);
  }

  lemma RunAccepts(s: Session, client: Client)
    ensures var r := Run(s, client, 0);
            && AcceptsAllButLast(client, r.events)
            && (!Accepts(client, r.events) ==>
                  || r.outcome == HandlerFailed
                  || (r.outcome == Aborted && SeenAborted(s, 2 * |s.chunks| + 2)))
            && (r.outcome == HandlerFailed ==> !Accepts(client, r.events))
  {
    EveryRunEnds(s, client);
    var n: nat :| EndsAt(s, client, n, Run(s, client, 0));
    HandlerEnds(s, client, n, Run(s, client, 0));
  }

  /** A stream counts as finished exactly when it was not aborted before its last poll, closed by
      itself, stayed within the limits, all of them, and no handler threw; and then everything in it
      was delivered. */
  lemma FinishedExactly(s: Session, client: Client)
    ensures Run(s, client, 0).outcome == Finished <==> Untroubled(s, client)
    ensures Untroubled(s, client) ==> Run(s, client, 0).events == AllEvents(s, client)
  {
    EveryRunEnds(s, client);
    var n: nat :| EndsAt(s, client, n, Run(s, client, 0));
    if Untroubled(s, client) {
      UntroubledFinishes(s, client, n, Run(s, client, 0));
    } else {
      FinishedIsUntroubled(s, client, n, Run(s, client, 0));
    }
  }

  lemma ThenNothing(r: Result)
    ensures Then([], r) == r
  {
  }

  // ---- Delivery ------------------------------------------------------------------------------------------

  lemma {:induction false} EventsInConcat(a: seq<string>, b: seq<string>, client: Client)
    ensures EventsIn(a + b, client) == EventsIn(a, client) + EventsIn(b, client)
  {
    if a == [] {
      assert a + b == b;
    } else {
      assert (a + b)[1..] == a[1..] + b;
      EventsInConcat(a[1..], b, client);
    }
  }

  lemma {:induction false} EventsInHeard(frames: seq<string>, client: Client, events: seq<Event>)
    ensures EventsIn(frames, Heard(client, events)) == EventsIn(frames, client)
  {
    if frames != [] {
      EventsInHeard(frames[1..], client, events);
    }
  }

  lemma AcceptsConcat(client: Client, a: seq<Event>, b: seq<Event>)
    ensures Accepts(client, a + b) <==> Accepts(client, a) && Accepts(Heard(client, a), b)
  {
    var all := a + b;
    forall k | 0 <= k < |all|
      ensures client.heard + all[..k] ==
              if k < |a| then client.heard + a[..k] else client.heard + a + b[..k - |a|]
    {
      assert all[..k] == if k < |a| then a[..k] else a + b[..k - |a|];
    }
    assert forall k :: 0 <= k < |b| ==> all[|a| + k] == b[k];
    assert forall k :: 0 <= k < |a| ==> all[k] == a[k];
    if Accepts(client, all) {
      forall k | 0 <= k < |b|
        ensures !client.throws(client.heard + a + b[..k], b[k])
      {
        assert !client.throws(client.heard + all[..|a| + k], all[|a| + k]);
      }
      forall k | 0 <= k < |a| ensures !client.throws(client.heard + a[..k], a[k]) {
        assert !client.throws(client.heard + all[..k], all[k]);
      }
    }
  }

  lemma PassesConcat(client: Client, a: seq<string>, b: seq<string>)
    requires Passes(client, a)
    ensures Passes(client, a + b) <==> Passes(Heard(client, EventsIn(a, client)), b)
    ensures EventsIn(a + b, client) == EventsIn(a, client) + EventsIn(b, client)
  {
    EventsInConcat(a, b, client);
    EventsInHeard(b, client, EventsIn(a, client));
    AcceptsConcat(client, EventsIn(a, client), EventsIn(b, client));
    SmallConcat(a, b);
  }

  lemma SmallConcat(a: seq<string>, b: seq<string>)
    ensures Small(a + b) <==> Small(a) && Small(b)
  {
    assert forall k :: 0 <= k < |b| ==> (a + b)[|a| + k] == b[k];
    assert forall k :: 0 <= k < |a| ==> (a + b)[k] == a[k];
  }

  /** What delivering some frames means: all pass, or it stops at the first that does not. */
  ghost predicate Delivers(client: Client, frames: seq<string>, d: Delivery) {
    match d.stop
    case None => Passes(client, frames) && d.events == EventsIn(frames, client)
    case Some(EventTooLarge) => exists m: nat :: TooLargeAt(client, frames, m, d.events)
    case Some(HandlerFailed) => exists m: nat :: ThrowsAt(client, frames, m, d.events)
    case _ => false
  }

  lemma TooLargeLater(client: Client, a: seq<string>, b: seq<string>, m: nat, events: seq<Event>)
    requires Passes(client, a) && TooLargeAt(Heard(client, EventsIn(a, client)), b, m, events)
    ensures TooLargeAt(client, a + b, |a| + m, EventsIn(a, client) + events)
  {
    assert (a + b)[..|a| + m] == a + b[..m];
    PassesConcat(client, a, b[..m]);
    EventsInHeard(b[..m], client, EventsIn(a, client));
  }

  lemma ThrowsLater(client: Client, a: seq<string>, b: seq<string>, m: nat, events: seq<Event>)
    requires Passes(client, a) && ThrowsAt(Heard(client, EventsIn(a, client)), b, m, events)
    ensures ThrowsAt(client, a + b, |a| + m, EventsIn(a, client) + events)
  {
    assert (a + b)[..|a| + m] == a + b[..m];
    PassesConcat(client, a, b[..m]);
    EventsInHeard(b[..m], client, EventsIn(a, client));
    var past, e := EventsIn(b[..m], client), client.parse(b[m]).value;
    Associate(EventsIn(a, client), past, [e]);
    Associate(client.heard, EventsIn(a, client), past);
  }

  /** Delivering more frames after some that passed. */
  lemma DeliversLater(client: Client, a: seq<string>, b: seq<string>, d: Delivery)
    requires Passes(client, a) && Delivers(Heard(client, EventsIn(a, client)), b, d)
    ensures Delivers(client, a + b, After(EventsIn(a, client), d))
  {
    var next := Heard(client, EventsIn(a, client));
    PassesConcat(client, a, b);
    EventsInHeard(b, client, EventsIn(a, client));
    if d.stop == Some(EventTooLarge) {
      var m: nat :| TooLargeAt(next, b, m, d.events);
      TooLargeLater(client, a, b, m, d.events);
    } else if d.stop == Some(HandlerFailed) {
      var m: nat :| ThrowsAt(next, b, m, d.events);
      ThrowsLater(client, a, b, m, d.events);
    }
  }

  lemma {:induction false} DeliverDelivers(client: Client, frames: seq<string>)
    ensures Delivers(client, frames, Deliver(frames, client))
    decreases |frames|
  {
    if frames != [] {
      var one := DeliverOne(frames[0], client);
      OneDelivers(client, frames);
      if one.stop.None? {
        HeadAndTail(frames);
        DeliverDelivers(Heard(client, one.events), frames[1..]);
        DeliversLater(client, [frames[0]], frames[1..], Deliver(frames[1..], Heard(client, one.events)));
      }
    }
  }

  lemma OneDelivers(client: Client, frames: seq<string>)
    requires frames != []
    ensures var one := DeliverOne(frames[0], client);
            if one.stop.Some? then Delivers(client, frames, one)
            else Passes(client, [frames[0]]) && one.events == EventsIn([frames[0]], client)
  {
    var one := DeliverOne(frames[0], client);
    assert frames[..0] == [] && client.heard + [] == client.heard;
    if one.stop == Some(EventTooLarge) {
      assert TooLargeAt(client, frames, 0, []);
    } else if one.stop == Some(HandlerFailed) {
      assert ThrowsAt(client, frames, 0, one.events);
    } else {
      assert EventsIn([frames[0]], client) == one.events;
      assert forall k :: 0 <= k < |one.events| ==> one.events[..k] == [];
    }
  }

  // ---- Read by read ----------------------------------------------------------------------------------------

  /** The client once all before read `i` is delivered. */
  function Later(s: Session, client: Client, i: nat): Client
    requires i <= |s.chunks|
  {
    Heard(client, EventsIn(FramesBefore(s, i), client))
  }

  lemma {:induction false} RunEnds(s: Session, client: Client, i: nat) returns (n: nat)
    requires i <= |s.chunks| && Smooth(s, client, i)
    ensures EndsAt(s, client, n,
                   Then(EventsIn(FramesBefore(s, i), client), Run(s, Later(s, client, i), i)))
    decreases |s.chunks| - i
  {
    var before, next := EventsIn(FramesBefore(s, i), client), Later(s, client, i);
    if Interrupted(s, i).Some? {
      InterruptedEnds(s, client, i);
      WithEmpty(before);
      n := i;
    } else {
      var d := Deliver(NewFrames(s, i), next);
      RunIsStep(s, next, i);
      ThenStep(before, d, Stopped(s, i, d.stop), Remaining(s, Heard(next, d.events), i));
      DeliverDelivers(next, NewFrames(s, i));
      ReadStep(s, i);
      DeliversLater(client, FramesBefore(s, i), NewFrames(s, i), d);
      if Stopped(s, i, d.stop).Some? {
        StoppedEnds(s, client, i, After(before, d));
        n := i;
      } else {
        HeardMore(client, before, d.events);
        if i == |s.chunks| {
          LastEnds(s, client, before + d.events);
          n := i;
        } else {
          NextIsSmooth(s, client, i);
          n := RunEnds(s, client, i + 1);
        }
      }
    }
  }

  lemma InterruptedEnds(s: Session, client: Client, i: nat)
    requires i <= |s.chunks| && Smooth(s, client, i) && Interrupted(s, i).Some?
    ensures EndsAt(s, client, i, Result(EventsIn(FramesBefore(s, i), client), Interrupted(s, i).value))
  {
    var before := EventsIn(FramesBefore(s, i), client);
    if i == |s.chunks| {
      assert s.chunks[..i] == s.chunks;
    } else if !SeenAborted(s, 2 * i + 1) {
      assert Trouble(s, client, i, ResponseTooLarge, before);
    }
  }

  lemma ThenStep(before: seq<Event>, d: Delivery, stop: Option<Outcome>, later: Result)
    ensures Then(before, Step(d, stop, later)) ==
            if stop.Some? then Result(before + d.events, stop.value)
            else Then(before + d.events, later)
  {
    ThenThen(before, d.events, if stop.Some? then Result([], stop.value) else later);
    WithEmpty(before + d.events);
  }

  /** Read `i` was not interrupted, so it is within the limit and neither rejected nor aborted. */
  lemma ReadSucceeded(s: Session, i: nat)
    requires i <= |s.chunks| && Interrupted(s, i).None?
    ensures !SeenAborted(s, 2 * i + 1) && !(i == |s.chunks| && s.ending.ReadRejects?)
    ensures i < |s.chunks| ==> BytesOf(s.chunks[..i + 1]) <= 8_388_608
  {
  }

  lemma StoppedEnds(s: Session, client: Client, i: nat, d: Delivery)
    requires i <= |s.chunks| && Smooth(s, client, i) && Interrupted(s, i).None?
    requires Delivers(client, CutAfter(s, i).frames, d) && Stopped(s, i, d.stop).Some?
    ensures EndsAt(s, client, i, Result(d.events, Stopped(s, i, d.stop).value))
  {
    ReadSucceeded(s, i);
    var error := if d.stop.Some? then d.stop.value else EventTooLarge;
    assert Trouble(s, client, i, error, d.events);
  }

  lemma LastEnds(s: Session, client: Client, events: seq<Event>)
    requires var i := |s.chunks|;
             && Smooth(s, client, i) && Interrupted(s, i).None?
             && |CutAfter(s, i).rest| <= 262_144 && Passes(client, CutAfter(s, i).frames)
             && events == EventsIn(CutAfter(s, i).frames, client)
    ensures EndsAt(s, client, |s.chunks|, Then(events, Last(s, Heard(client, events))))
  {
    var i, r := |s.chunks|, Then(events, Last(s, Heard(client, events)));
    ReadSucceeded(s, i);
    AcceptsConcat(client, events, LastEvents(s, client));
    assert r.events == events + LastEvents(s, client);
    OneAccepted(Heard(client, events), LastEvents(s, client));
    if Accepts(client, r.events) {
      assert Completes(s, client, r.events);
    } else {
      assert Trouble(s, client, i, HandlerFailed, r.events);
    }
  }

  lemma OneAccepted(client: Client, events: seq<Event>)
    requires |events| <= 1
    ensures Accepts(client, events) <==> events == [] || !ThrowsOn(client, events[0])
  {
    assert events != [] ==> client.heard + events[..0] == client.heard;
  }

  lemma NextIsSmooth(s: Session, client: Client, i: nat)
    requires i < |s.chunks| && Smooth(s, client, i) && Interrupted(s, i).None?
    requires Passes(client, CutAfter(s, i).frames) && |CutAfter(s, i).rest| <= 262_144
    ensures Smooth(s, client, i + 1) && FramesBefore(s, i + 1) == CutAfter(s, i).frames
  {
    ReadSucceeded(s, i);
  }

  // ---- Consequences ----------------------------------------------------------------------------------------

  /** Before the last event the handler threw on none. */
  predicate AcceptsAllButLast(client: Client, events: seq<Event>) {
    events != [] ==> Accepts(client, events[..|events| - 1])
  }

  lemma AcceptedPrefix(client: Client, a: seq<Event>, b: seq<Event>)
    requires a <= b && Accepts(client, b)
    ensures Accepts(client, a)
  {
    assert b == a + b[|a|..];
    AcceptsConcat(client, a, b[|a|..]);
  }

  lemma AcceptedButLast(client: Client, events: seq<Event>)
    requires Accepts(client, events)
    ensures AcceptsAllButLast(client, events)
  {
    if events != [] { AcceptedPrefix(client, events[..|events| - 1], events); }
  }

  lemma ThrowsLast(client: Client, frames: seq<string>, m: nat, events: seq<Event>)
    requires ThrowsAt(client, frames, m, events)
    ensures AcceptsAllButLast(client, events) && !Accepts(client, events)
  {
    var n := |events| - 1;
    assert events[..n] == EventsIn(frames[..m], client);
  }

  lemma LastThrows(client: Client, before: seq<Event>, last: seq<Event>)
    requires Accepts(client, before) && |last| <= 1
    ensures AcceptsAllButLast(client, before + last)
  {
    if last == [] {
      WithEmpty(before);
      AcceptedButLast(client, before);
    } else {
      assert (before + last)[..|before|] == before;
    }
  }

  lemma HandlerEnds(s: Session, client: Client, n: nat, r: Result)
    requires EndsAt(s, client, n, r)
    ensures AcceptsAllButLast(client, r.events)
    ensures !Accepts(client, r.events) ==>
              r.outcome == HandlerFailed || (r.outcome == Aborted && SeenAborted(s, 2 * n + 2))
    ensures r.outcome == HandlerFailed ==> !Accepts(client, r.events)
  {
    if error :| Trouble(s, client, n, error, r.events)
                && r.outcome == if SeenAborted(s, 2 * n + 2) then Aborted else error {
      TroubleThrows(s, client, n, error, r.events);
    } else {
      AcceptedButLast(client, r.events);
    }
  }

  /** So the one event it can have thrown on is the last. */
  lemma OnlyTheLast(client: Client, events: seq<Event>, k: nat)
    requires AcceptsAllButLast(client, events)
    ensures k < |events| && client.throws(client.heard + events[..k], events[k]) ==>
              k == |events| - 1 && !Accepts(client, events)
    ensures !Accepts(client, events) ==>
              events != []
              && var n := |events| - 1; client.throws(client.heard + events[..n], events[n])
  {
    forall j | 0 <= j < |events| - 1
      ensures !client.throws(client.heard + events[..j], events[j])
    {
      var before := events[..|events| - 1];
      assert before[..j] == events[..j] && before[j] == events[j];
      assert !client.throws(client.heard + before[..j], before[j]);
    }
  }

  lemma TroubleThrows(s: Session, client: Client, n: nat, error: Outcome, events: seq<Event>)
    requires n <= |s.chunks| && Smooth(s, client, n) && Trouble(s, client, n, error, events)
    ensures AcceptsAllButLast(client, events)
    ensures error != HandlerFailed <==> Accepts(client, events)
  {
    var frames := CutAfter(s, n).frames;
    if error.HandlerFailed? {
      if m: nat :| ThrowsAt(client, frames, m, events) {
        ThrowsLast(client, frames, m, events);
      } else {
        LastThrows(client, EventsIn(frames, client), LastEvents(s, client));
      }
    } else {
      AcceptedButLast(client, events);
    }
  }

  /** The frames of the reads before `n`, and those of read `n` with them, are the first of all. */
  lemma FramesBeginAll(s: Session, n: nat)
    requires n <= |s.chunks|
    ensures FramesBefore(s, n) <= CutAfter(s, |s.chunks|).frames
  {
    LaterFramesFollow(s, n);
    IsPrefix(FramesBefore(s, n), LaterFrames(s, n), CutAfter(s, |s.chunks|).frames);
  }

  lemma FramesGrow(s: Session, n: nat)
    requires n <= |s.chunks|
    ensures CutAfter(s, n).frames <= CutAfter(s, |s.chunks|).frames
  {
    if n < |s.chunks| {
      FramesBeginAll(s, n + 1);
      AfterIsBefore(s, n);
    }
  }

  lemma AfterIsBefore(s: Session, n: nat)
    requires n < |s.chunks|
    ensures CutAfter(s, n).frames == FramesBefore(s, n + 1)
  {
  }

  lemma IsPrefix(a: seq<string>, b: seq<string>, whole: seq<string>)
    requires a + b == whole
    ensures a <= whole
  {
  }

  lemma EventsGrow(a: seq<string>, b: seq<string>, client: Client)
    requires a <= b
    ensures EventsIn(a, client) <= EventsIn(b, client)
  {
    assert b == a + b[|a|..];
    EventsInConcat(a, b[|a|..], client);
  }

  lemma ThrownIsDelivered(client: Client, frames: seq<string>, m: nat, events: seq<Event>)
    requires ThrowsAt(client, frames, m, events)
    ensures events <= EventsIn(frames, client)
  {
    assert frames[..m + 1] == frames[..m] + [frames[m]];
    EventsInConcat(frames[..m], [frames[m]], client);
    EventsGrow(frames[..m + 1], frames, client);
  }

  lemma FinishedIsUntroubled(s: Session, client: Client, n: nat, r: Result)
    requires EndsAt(s, client, n, r)
    ensures r.outcome == Finished ==> Untroubled(s, client)
  {
    if r.outcome == Finished {
      assert n == |s.chunks| && Completes(s, client, r.events);
      assert s.chunks[..n] == s.chunks;
    }
  }

  lemma UntroubledFinishes(s: Session, client: Client, n: nat, r: Result)
    requires EndsAt(s, client, n, r) && Untroubled(s, client)
    ensures r == Result(AllEvents(s, client), Finished)
  {
    if error :| Trouble(s, client, n, error, r.events) {
      NoTrouble(s, client, n, error, r.events);
    }
  }

  lemma NoTrouble(s: Session, client: Client, n: nat, error: Outcome, events: seq<Event>)
    requires n <= |s.chunks| && Untroubled(s, client)
    ensures !Trouble(s, client, n, error, events)
  {
    var frames, all := CutAfter(s, n).frames, CutAfter(s, |s.chunks|).frames;
    FramesGrow(s, n);
    assert forall m :: 0 <= m < |frames| ==> frames[m] == all[m];
    EventsGrow(frames, all, client);
    match error
    case ResponseTooLarge => if n < |s.chunks| { BytesGrow(s.chunks, n + 1); }
    case HandlerFailed =>
      if m: nat :| ThrowsAt(client, frames, m, events) {
        ThrownIsDelivered(client, frames, m, events);
        ThrowsLast(client, frames, m, events);
        AcceptedPrefix(client, events, AllEvents(s, client));
      }
    case _ =>
  }
}
