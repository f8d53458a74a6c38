/** `consumeAiCommandEventStream` of `apps/web/lib/ai-command-client.ts`: the read loop, the frame
    loop, the limits, abort, and the claim that what is delivered does not depend on how the
    network cut the bytes into reads. */
module EventConsumer {
  import opened JsText
  import opened EventStream
  import opened EventFrames

  const FRAME_CHARACTERS := 256 * 1024
  const TOTAL_BYTES := 8 * 1024 * 1024

  /** One successful read: its byte length and the text the decoder made of it. */
  datatype Chunk = Chunk(text: string, bytes: nat)

  /** The read after the chunks: the stream is done and the decoder is flushed, or it rejects. */
  datatype Ending = Closed(flush: string) | ReadRejects

  /** All a run depends on.  The signal is polled before (2 * i) and after (2 * i + 1) read `i`, and
      once more when that read's processing throws (2 * i + 2); it stays aborted. */
  datatype Session = Session(chunks: seq<Chunk>, ending: Ending, abortedFrom: Option<nat>)

  /** The frame parser, the handler, which throws on an event or not depending on what it was given
      before, and the events it has been given. */
  datatype Client = Client(parse: string -> Option<Event>, throws: (seq<Event>, Event) -> bool,
                           heard: seq<Event>)

  /** The client of the source: its frame parser is `ParseEventFrame` over a JSON parser. */
  function ClientOver(json: string -> Json, throws: (seq<Event>, Event) -> bool): Client {
    Client(frame => FrameEvent(frame, json), throws, [])
  }

  function Heard(client: Client, events: seq<Event>): Client {
    client.(heard := client.heard + events)
  }

  predicate ThrowsOn(client: Client, e: Event) {
    client.throws(client.heard, e)
  }

  ghost predicate NeverThrows(client: Client) {
    forall past, e :: !client.throws(past, e)
  }

  datatype Outcome =
    Finished | Aborted | ReadFailed | ResponseTooLarge | EventTooLarge | HandlerFailed

  datatype Result = Result(events: seq<Event>, outcome: Outcome)

  predicate SeenAborted(s: Session, poll: nat) {
    s.abortedFrom.Some? && s.abortedFrom.value <= poll
  }

  /** The `catch` block reports an abort in place of the error when the signal is aborted. */
  function Raised(s: Session, error: Outcome, poll: nat): Outcome {
    if SeenAborted(s, poll) then Aborted else error
  }

  // ---- Specification: what is delivered, in terms of the text received -----------------------

  datatype Delivery = Delivery(events: seq<Event>, stop: Option<Outcome>)

  function DeliverOne(frame: string, client: Client): Delivery {
    if |frame| > FRAME_CHARACTERS then Delivery([], Some(EventTooLarge))
    else
      match client.parse(frame)
      case None => Delivery([], None)
      case Some(e) => Delivery([e], if ThrowsOn(client, e) then Some(HandlerFailed) else None)
  }

  function After(events: seq<Event>, d: Delivery): Delivery {
    Delivery(events + d.events, d.stop)
  }

  /** Frames are delivered in order until one is too large or its handler throws. */
  function Deliver(frames: seq<string>, client: Client): (d: Delivery)
    ensures d.stop != Some(Finished)
  {
    if frames == [] then Delivery([], None)
    else
      var one := DeliverOne(frames[0], client);
      if one.stop.Some? then one
      else After(one.events, Deliver(frames[1..], Heard(client, one.events)))
  }

  function Conclude(rest: string, client: Client): Result {
    match client.parse(Trim(rest))
    case None => Result([], Finished)
    case Some(e) => Result([e], if ThrowsOn(client, e) then HandlerFailed else Finished)
  }

  function Finish(frames: seq<string>, rest: string, client: Client): Result {
    var d := Deliver(frames, client);
    if d.stop.Some? then Result(d.events, d.stop.value)
    else Then(d.events, Conclude(rest, Heard(client, d.events)))
  }

  /** The chunk-free meaning of a stream: normalise the whole text once, cut it at each leftmost
      blank line, parse each frame, then parse the trimmed rest. */
  function Reference(text: string, client: Client): Result {
    var cut := Cut(LineEndsAsLf(text));
    Finish(cut.frames, cut.rest, client)
  }

  function TextOf(chunks: seq<Chunk>): string {
    if chunks == [] then "" else TextOf(chunks[..|chunks| - 1]) + chunks[|chunks| - 1].text
  }

  function BytesOf(chunks: seq<Chunk>): nat {
    if chunks == [] then 0 else BytesOf(chunks[..|chunks| - 1]) + chunks[|chunks| - 1].bytes
  }

  function WholeText(s: Session): string {
    TextOf(s.chunks) + if s.ending.Closed? then s.ending.flush else ""
  }

  /** The text after read `i`, and the frames it completes. */
  function CutAfter(s: Session, i: nat): Cutting
    requires i <= |s.chunks|
  {
    if i < |s.chunks| then Received(TextOf(s.chunks[..i + 1])) else Cut(LineEndsAsLf(WholeText(s)))
  }

  function NewFrames(s: Session, i: nat): seq<string>
    requires i <= |s.chunks|
  {
    var seen := |Received(TextOf(s.chunks[..i])).frames|;
    var now := CutAfter(s, i).frames;
    if seen <= |now| then now[seen..] else []
  }

  /** What ends the run at read `i` before anything is delivered: the polls, a failed read, the
      byte limit. */
  function Interrupted(s: Session, i: nat): Option<Outcome>
    requires i <= |s.chunks|
  {
    if SeenAborted(s, 2 * i) then Some(Aborted)
    else if i == |s.chunks| && s.ending.ReadRejects? then Some(Raised(s, ReadFailed, 2 * i + 1))
    else if SeenAborted(s, 2 * i + 1) then Some(Aborted)
    else if BytesOf(if i == |s.chunks| then s.chunks else s.chunks[..i + 1]) > TOTAL_BYTES then
      Some(Raised(s, ResponseTooLarge, 2 * i + 2))
    else None
  }

  function Then(events: seq<Event>, r: Result): Result {
    Result(events + r.events, r.outcome)
  }

  /** What ends the run after the frames of read `i` were delivered. */
  function Stopped(s: Session, i: nat, stop: Option<Outcome>): Option<Outcome>
    requires i <= |s.chunks|
  {
    if stop.Some? then Some(Raised(s, stop.value, 2 * i + 2))
    else if |CutAfter(s, i).rest| > FRAME_CHARACTERS then
      Some(Raised(s, EventTooLarge, 2 * i + 2))
    else None
  }

  function Last(s: Session, client: Client): Result {
    var last := Conclude(CutAfter(s, |s.chunks|).rest, client);
    if last.outcome == Finished then last
    else Result(last.events, Raised(s, last.outcome, 2 * |s.chunks| + 2))
  }

  /** The run from read `i` on. */
  function Run(s: Session, client: Client, i: nat): Result
    requires i <= |s.chunks|
    decreases |s.chunks| - i
  {
    if Interrupted(s, i).Some? then Result([], Interrupted(s, i).value)
    else
      var d := Deliver(NewFrames(s, i), client);
      var stop := Stopped(s, i, d.stop);
      Then(d.events, if stop.Some? then Result([], stop.value)
                     else if i == |s.chunks| then Last(s, Heard(client, d.events))
                     else Run(s, Heard(client, d.events), i + 1))
  }

  /** What follows read `i`. */
  function Remaining(s: Session, client: Client, i: nat): Result
    requires i <= |s.chunks|
  {
    if i == |s.chunks| then Last(s, client) else Run(s, client, i + 1)
  }

  /** One read that was not interrupted, and the rest of the run. */
  function Step(d: Delivery, stop: Option<Outcome>, later: Result): Result {
    Then(d.events, if stop.Some? then Result([], stop.value) else later)
  }

  lemma RunIsStep(s: Session, client: Client, i: nat)
    requires i <= |s.chunks| && Interrupted(s, i).None?
    ensures var d := Deliver(NewFrames(s, i), client);
            Run(s, client, i) ==
            Step(d, Stopped(s, i, d.stop), Remaining(s, Heard(client, d.events), i))
  {
  }

  // ---- The loop ------------------------------------------------------------------------------

  lemma TextStep(s: Session, i: nat)
    requires i < |s.chunks|
    ensures TextOf(s.chunks[..i + 1]) == TextOf(s.chunks[..i]) + s.chunks[i].text
    ensures BytesOf(s.chunks[..i + 1]) == BytesOf(s.chunks[..i]) + s.chunks[i].bytes
  {
    assert s.chunks[..i + 1][..i] == s.chunks[..i];
  }

  function TextRead(s: Session, i: nat): string
    requires i <= |s.chunks|
  {
    if i < |s.chunks| then s.chunks[i].text
    else if s.ending.Closed? then s.ending.flush else ""
  }

  /** One read brings exactly the frames cut from the normalised buffer, and leaves its rest. */
  lemma ReadStep(s: Session, i: nat)
    requires i <= |s.chunks|
    ensures var before := Received(TextOf(s.chunks[..i]));
            var now := Cut(NormalizeSseBuffer(before.rest + TextRead(s, i), i == |s.chunks|));
            && NewFrames(s, i) == now.frames && CutAfter(s, i).rest == now.rest
            && CutAfter(s, i).frames == before.frames + now.frames
  {
    if i < |s.chunks| {
      TextStep(s, i);
      Advance(TextOf(s.chunks[..i]), TextRead(s, i), false);
    } else {
      assert s.chunks[..i] == s.chunks;
      Advance(TextOf(s.chunks), TextRead(s, i), true);
    }
  }

  lemma DeliverCons(frame: string, frames: seq<string>, client: Client)
    ensures var one := DeliverOne(frame, client);
            Deliver([frame] + frames, client) ==
            if one.stop.Some? then one
            else After(one.events, Deliver(frames, Heard(client, one.events)))
  {
    assert ([frame] + frames)[1..] == frames;
  }

  /** The inner loop: frames are cut from the front of the buffer and delivered. */
  method DeliverBuffered(input: string, client: Client)
    returns (buffer: string, delivered: seq<Event>, stop: Option<Outcome>)
    ensures Delivery(delivered, stop) == Deliver(Cut(input).frames, client)
    ensures stop.None? ==> buffer == Cut(input).rest
  {
    buffer, delivered, stop := input, [], None;
    ghost var goal := Deliver(Cut(input).frames, client);
    assert After([], goal) == goal;
    HeardNothing(client);
    var boundary := Boundary(buffer);
    while boundary >= 0
      invariant boundary == Boundary(buffer)
      invariant Cut(buffer).rest == Cut(input).rest
      invariant After(delivered, Deliver(Cut(buffer).frames, Heard(client, delivered))) == goal
      decreases |buffer|
    {
      var frame, later := buffer[..boundary], buffer[boundary + 2..];
      ghost var one := DeliverOne(frame, Heard(client, delivered));
      DeliverStep(buffer, client, delivered);
      if boundary > FRAME_CHARACTERS {
        assert delivered + [] == delivered;
        stop := Some(EventTooLarge);
        return;
      }
      var event := client.parse(frame);
      buffer := later;
      if event.Some? {
        var throws := client.throws(client.heard + delivered, event.value);
        delivered := delivered + [event.value];
        if throws {
          stop := Some(HandlerFailed);
          return;
        }
      } else {
        assert delivered + [] == delivered;
      }
      boundary := Boundary(buffer);
    }
  }

  lemma DeliverStep(buffer: string, client: Client, before: seq<Event>)
    requires Boundary(buffer) >= 0
    ensures var b := Boundary(buffer);
            var one := DeliverOne(buffer[..b], Heard(client, before));
            var later := Cut(buffer[b + 2..]);
            && Cut(buffer).rest == later.rest
            && After(before, Deliver(Cut(buffer).frames, Heard(client, before))) ==
               if one.stop.Some? then Delivery(before + one.events, one.stop)
               else After(before + one.events,
                          Deliver(later.frames, Heard(client, before + one.events)))
  {
    var b := Boundary(buffer);
    var later := Cut(buffer[b + 2..]);
    assert Cut(buffer).frames == [buffer[..b]] + later.frames;
    var one := DeliverOne(buffer[..b], Heard(client, before));
    DeliverCons(buffer[..b], later.frames, Heard(client, before));
    HeardMore(client, before, one.events);
    AfterAfter(before, one.events, Deliver(later.frames, Heard(client, before + one.events)));
  }

  lemma HeardNothing(client: Client)
    ensures Heard(client, []) == client
  {
    assert client.heard + [] == client.heard;
  }

  lemma HeardMore(client: Client, a: seq<Event>, b: seq<Event>)
    ensures Heard(Heard(client, a), b) == Heard(client, a + b)
  {
    Associate(client.heard, a, b);
  }

  lemma ThenThen(a: seq<Event>, b: seq<Event>, r: Result)
    ensures Then(a, Then(b, r)) == Then(a + b, r)
  {
    assert a + (b + r.events) == a + b + r.events;
  }

  lemma AfterAfter(a: seq<Event>, b: seq<Event>, d: Delivery)
    ensures After(a, After(b, d)) == After(a + b, d)
  {
    assert a + (b + d.events) == a + b + d.events;
  }

  /** The polls and the byte count around one read. */
  method ReadChunk(s: Session, i: nat, counted: nat)
    returns (totalBytes: nat, text: string, error: Option<Outcome>)
    requires i <= |s.chunks| && counted == BytesOf(s.chunks[..i])
    ensures error == Interrupted(s, i)
    ensures error.None? ==> text == TextRead(s, i)
    ensures error.None? && i < |s.chunks| ==> totalBytes == BytesOf(s.chunks[..i + 1])
  {
    totalBytes, text, error := counted, "", None;
    if SeenAborted(s, 2 * i) { return totalBytes, text, Some(Aborted); }
    if i == |s.chunks| {
      assert s.chunks[..i] == s.chunks;
      if s.ending.ReadRejects? { return totalBytes, text, Some(Raised(s, ReadFailed, 2 * i + 1)); }
    } else {
      TextStep(s, i);
    }
    if SeenAborted(s, 2 * i + 1) { return totalBytes, text, Some(Aborted); }
    text := TextRead(s, i);
    if i < |s.chunks| { totalBytes := totalBytes + s.chunks[i].bytes; }
    if totalBytes > TOTAL_BYTES { error := Some(Raised(s, ResponseTooLarge, 2 * i + 2)); }
  }

  lemma RunStep(s: Session, client: Client, i: nat, before: seq<Event>)
    requires i <= |s.chunks| && Interrupted(s, i).None?
    ensures var d := Deliver(NewFrames(s, i), Heard(client, before));
            var stop := Stopped(s, i, d.stop);
            Then(before, Run(s, Heard(client, before), i)) ==
            if stop.Some? then Result(before + d.events, stop.value)
            else Then(before + d.events, Remaining(s, Heard(client, before + d.events), i))
  {
    var d := Deliver(NewFrames(s, i), Heard(client, before));
    var stop := Stopped(s, i, d.stop);
    HeardMore(client, before, d.events);
    RunIsStep(s, Heard(client, before), i);
    ThenThen(before, d.events,
             if stop.Some? then Result([], stop.value)
             else Remaining(s, Heard(client, before + d.events), i));
  }

  /** One read after its polls: the frame loop and the limit on the rest. */
  method ProcessChunk(s: Session, i: nat, held: string, text: string, client: Client)
    returns (buffer: string, events: seq<Event>, error: Option<Outcome>)
    requires i <= |s.chunks| && held == Received(TextOf(s.chunks[..i])).rest && text == TextRead(s, i)
    ensures var d := Deliver(NewFrames(s, i), client);
            events == d.events && error == Stopped(s, i, d.stop)
    ensures error.None? ==> buffer == CutAfter(s, i).rest
  {
    ReadStep(s, i);
    var stop;
    buffer, events, stop :=
      DeliverBuffered(NormalizeSseBuffer(held + text, i == |s.chunks|), client);
    error := None;
    if stop.Some? {
      error := Some(Raised(s, stop.value, 2 * i + 2));
    } else if |buffer| > FRAME_CHARACTERS {
      error := Some(Raised(s, EventTooLarge, 2 * i + 2));
    }
  }

  /** The unterminated rest. */
  method DeliverRest(s: Session, buffer: string, client: Client) returns (result: Result)
    requires buffer == CutAfter(s, |s.chunks|).rest
    ensures result == Last(s, client)
  {
    var finalEvent := client.parse(Trim(buffer));
    if finalEvent.None? { return Result([], Finished); }
    result := Result([finalEvent.value],
                     if ThrowsOn(client, finalEvent.value)
                     then Raised(s, HandlerFailed, 2 * |s.chunks| + 2) else Finished);
  }

  method Consume(s: Session, client: Client) returns (result: Result)
    ensures result == Run(s, client, 0)
  {
    var buffer, totalBytes := "", 0;
    var delivered: seq<Event> := [];
    var i := 0;
    assert Received("") == Cutting([], "");
    HeardNothing(client);
    while true
      invariant i <= |s.chunks|
      invariant buffer == Received(TextOf(s.chunks[..i])).rest
      invariant totalBytes == BytesOf(s.chunks[..i])
      invariant Then(delivered, Run(s, Heard(client, delivered), i)) == Run(s, client, 0)
      decreases |s.chunks| - i
    {
      var text, error;
      totalBytes, text, error := ReadChunk(s, i, totalBytes);
      assert delivered + [] == delivered;
      if error.Some? { return Result(delivered, error.value); }
      RunStep(s, client, i, delivered);
      var events;
      buffer, events, error := ProcessChunk(s, i, buffer, text, Heard(client, delivered));
      delivered := delivered + events;
      if error.Some? { return Result(delivered, error.value); }
      if i == |s.chunks| { break; }
      i := i + 1;
    }
    var last := DeliverRest(s, buffer, Heard(client, delivered));
    result := Result(delivered + last.events, last.outcome);
  }
}
