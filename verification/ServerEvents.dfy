/** From the server to the handler: the events `encodeEvent` writes are delivered, each once and in
    order, however the network cuts the response. */
module ServerEvents {
  import opened JsText
  import opened EventStream
  import opened EventFrames
  import opened EventReading
  import opened EventConsumer
  import opened ChunkInvariance

  /** The response body of the stream route. */
  function Body(events: seq<Event>, stringify: Event -> string): string {
    if events == [] then ""
    else Written(events[0], stringify) + "\n\n" + Body(events[1..], stringify)
  }

  ghost predicate AllPrint(events: seq<Event>, stringify: Event -> string, json: string -> Json) {
    forall e :: e in events ==> Prints(stringify, json, e)
  }

  predicate AllShort(events: seq<Event>, stringify: Event -> string) {
    forall e :: e in events ==> |Written(e, stringify)| <= 262_142
  }

  /** Round trip: what the server wrote is what the handler is given, for every chunking of the
      body, as long as no frame exceeds the limit less two characters. */
  lemma ServerEventsArrive(s: Session, events: seq<Event>, stringify: Event -> string,
                           json: string -> Json, throws: (seq<Event>, Event) -> bool)
    requires AllPrint(events, stringify, json) && AllShort(events, stringify)
    requires Sends(s, Body(events, stringify)) && NeverThrows(ClientOver(json, throws))
    ensures Run(s, ClientOver(json, throws), 0) == Result(events, Finished)
  {
    var client := ClientOver(json, throws);
    BodyCuts(events, stringify, json);
    BodyFits(events, stringify);
    ChunkInvariance.ChunkInvariance(s, Body(events, stringify), client);
    FramesArrive(events, stringify, json, client);
    NothingLeft(Heard(client, events), json);
    WithEmpty(events);
  }

  /** The frames of some events. */
  function Frames(events: seq<Event>, stringify: Event -> string): seq<string> {
    seq(|events|, i requires 0 <= i < |events| => Written(events[i], stringify))
  }

  lemma FramesCons(events: seq<Event>, stringify: Event -> string)
    requires events != []
    ensures Frames(events, stringify) ==
            [Written(events[0], stringify)] + Frames(events[1..], stringify)
  {
  }

  /** A written frame has one line break, inside. */
  lemma WrittenIsFrame(e: Event, stringify: Event -> string, json: string -> Json)
    requires Prints(stringify, json, e)
    ensures FrameLike(Written(e, stringify)) && '\r' !in Written(e, stringify)
  {
    KindIsWord(KindOf(e));
    WordHasNoSpace(KindName(KindOf(e)));
    TwoLinesAreFrame("event: " + KindName(KindOf(e)), "data: " + stringify(e));
    var first, second := "event: " + KindName(KindOf(e)), "data: " + stringify(e);
    assert Written(e, stringify) == first + "\n" + second;
  }

  lemma TwoLinesAreFrame(first: string, second: string)
    requires '\n' !in first && '\n' !in second && first != "" && second != ""
    ensures FrameLike(first + "\n" + second)
  {
    var f := first + "\n" + second;
    var whole := f + "\n\n";
    assert BlankLineAt(whole, |f|);
    assert whole[|first| + 1] == second[0];
    forall k | 0 <= k < |f| && k != |first| ensures whole[k] != '\n' {
      assert whole[k] == if k < |first| then first[k] else second[k - |first| - 1];
    }
  }

  lemma {:induction false} BodyCuts(events: seq<Event>, stringify: Event -> string,
                                    json: string -> Json)
    requires AllPrint(events, stringify, json)
    ensures LineEndsAsLf(Body(events, stringify)) == Body(events, stringify)
    ensures Cut(Body(events, stringify)) == Cutting(Frames(events, stringify), "")
  {
    if events != [] {
      var f, later := Written(events[0], stringify), Body(events[1..], stringify);
      BodyCuts(events[1..], stringify, json);
      WrittenIsFrame(events[0], stringify, json);
      FrameNormalized(f, later);
      CutOnce(f, later);
      FramesCons(events, stringify);
    }
  }

  lemma FrameNormalized(f: string, later: string)
    requires '\r' !in f && LineEndsAsLf(later) == later
    ensures LineEndsAsLf(f + "\n\n" + later) == f + "\n\n" + later
  {
    NoCrIsNormalized(f + "\n\n");
    NormalizeConcat(f + "\n\n", later);
  }

  lemma BodyFits(events: seq<Event>, stringify: Event -> string)
    requires AllShort(events, stringify)
    requires Cut(LineEndsAsLf(Body(events, stringify))) == Cutting(Frames(events, stringify), "")
    ensures Fits(Body(events, stringify))
  {
    forall f | f in Frames(events, stringify) ensures |f| <= FRAME_CHARACTERS - 2 {
      var i :| 0 <= i < |events| && f == Frames(events, stringify)[i];
      assert events[i] in events;
    }
  }

  lemma {:induction false} FramesArrive(events: seq<Event>, stringify: Event -> string,
                                        json: string -> Json, client: Client)
    requires AllPrint(events, stringify, json) && AllShort(events, stringify)
    requires NeverThrows(client)
    requires client.parse == (frame => FrameEvent(frame, json))
    ensures Deliver(Frames(events, stringify), client) == Delivery(events, None)
  {
    if events != [] {
      WrittenIsRead(events[0], stringify, json);
      FramesCons(events, stringify);
      DeliverCons(Written(events[0], stringify), Frames(events[1..], stringify), client);
      FramesArrive(events[1..], stringify, json, Heard(client, [events[0]]));
      HeadAndTail(events);
    }
  }

  lemma NothingLeft(client: Client, json: string -> Json)
    requires client.parse == (frame => FrameEvent(frame, json))
    ensures Conclude("", client) == Result([], Finished)
  {
    LinesOfOne("");
    assert DataValues([""]) == [];
  }
}
