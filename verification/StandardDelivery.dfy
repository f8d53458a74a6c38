/** The whole client against the standard: what `consumeAiCommandEventStream` hands to its handler is
    what the messages of sections 9.2.5 and 9.2.6 mean, however the network cut the stream, and what
    an unterminated rest adds to that. */
module StandardDelivery {
  import opened JsText
  import opened EventStream
  import opened EventFrames
  import opened EventConsumer
  import opened ChunkInvariance
  import opened StreamStandard

  /** The events of the messages that parse as one. */
  function EventsOf(messages: seq<StreamMessage>, json: string -> Json): seq<Event> {
    if messages == [] then []
    else
      var first := MessageEvent(messages[0], json);
      (if first.Some? then [first.value] else []) + EventsOf(messages[1..], json)
  }

  /** For every stream of plain frames within the limits and every chunking of it, a handler that
      accepts all events is given those of the standard's messages, then that of the rest. */
  lemma DeliversTheStandard(s: Session, text: string, json: string -> Json,
                            throws: (seq<Event>, Event) -> bool)
    requires Sends(s, text) && Fits(text) && PlainFrames(text)
    requires NeverThrows(ClientOver(json, throws))
    ensures Run(s, ClientOver(json, throws), 0) ==
            Result(EventsOf(StandardMessages(text), json)
                   + EventsOf(Sent(Trim(Cut(LineEndsAsLf(text)).rest)), json), Finished)
  {
    var client, cut := ClientOver(json, throws), Cut(LineEndsAsLf(text));
    ChunkInvariance.ChunkInvariance(s, text, client);
    FramesMatchStandard(text);
    FramesDeliver(cut.frames, client, json);
    RestDelivers(cut.rest, Heard(client, Deliver(cut.frames, client).events), json);
  }

  /** So it is given exactly what the standard dispatches if and only if the rest has no data line
      whose data is an event. */
  lemma DeliversTheStandardExactly(s: Session, text: string, json: string -> Json,
                                   throws: (seq<Event>, Event) -> bool)
    requires Sends(s, text) && Fits(text) && PlainFrames(text)
    requires NeverThrows(ClientOver(json, throws))
    ensures Run(s, ClientOver(json, throws), 0).events == EventsOf(StandardMessages(text), json) <==>
            FrameEvent(Trim(Cut(LineEndsAsLf(text)).rest), json).None?
    ensures !HasData(Trim(Cut(LineEndsAsLf(text)).rest)) ==>
              Run(s, ClientOver(json, throws), 0).events == EventsOf(StandardMessages(text), json)
  {
    var rest := Trim(Cut(LineEndsAsLf(text)).rest);
    DeliversTheStandard(s, text, json, throws);
    SentEvent(rest, json);
    SentHasData(rest);
    var mine := EventsOf(StandardMessages(text), json);
    assert mine + [] == mine;
    assert FrameEvent(rest, json).Some? ==> |mine + EventsOf(Sent(rest), json)| == |mine| + 1;
  }

  lemma SentEvent(frame: string, json: string -> Json)
    ensures EventsOf(Sent(frame), json) ==
            match FrameEvent(frame, json) case None => [] case Some(e) => [e]
  {
  }

  lemma {:induction false} EventsConcat(a: seq<StreamMessage>, b: seq<StreamMessage>, json: string -> Json)
    ensures EventsOf(a + b, json) == EventsOf(a, json) + EventsOf(b, json)
  {
    if a == [] {
      assert a + b == b;
    } else {
      var first := MessageEvent(a[0], json);
      assert (a + b)[1..] == a[1..] + b;
      EventsConcat(a[1..], b, json);
      Associate(if first.Some? then [first.value] else [], EventsOf(a[1..], json), EventsOf(b, json));
    }
  }

  ghost predicate Parses(client: Client, json: string -> Json) {
    NeverThrows(client) && forall frame :: client.parse(frame) == FrameEvent(frame, json)
  }

  lemma {:induction false} FramesDeliver(frames: seq<string>, client: Client, json: string -> Json)
    requires Parses(client, json) && forall f :: f in frames ==> |f| <= FRAME_CHARACTERS
    ensures Deliver(frames, client) == Delivery(EventsOf(SentAll(frames), json), None)
  {
    if frames != [] {
      var one := DeliverOne(frames[0], client);
      SentEvent(frames[0], json);
      assert client.parse(frames[0]) == FrameEvent(frames[0], json);
      assert one == Delivery(EventsOf(Sent(frames[0]), json), None);
      FramesDeliver(frames[1..], Heard(client, one.events), json);
      EventsConcat(Sent(frames[0]), SentAll(frames[1..]), json);
    }
  }

  lemma RestDelivers(rest: string, client: Client, json: string -> Json)
    requires Parses(client, json)
    ensures Conclude(rest, client) == Result(EventsOf(Sent(Trim(rest)), json), Finished)
  {
    SentEvent(Trim(rest), json);
    assert client.parse(Trim(rest)) == FrameEvent(Trim(rest), json);
  }
}
