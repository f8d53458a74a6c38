/** What an abort does to `consumeAiCommandEventStream`: it stops further reads and is reported, but
    the frames of the reads already made are still delivered. */
module AbortedStreams {
  import opened JsText
  import opened EventStream
  import opened EventFrames
  import opened EventConsumer

  /** The session without the abort, cut off where the abort stops it reading: after `p / 2` reads for
      an abort first seen at poll `p`, and not at all for one that comes after the last poll around
      a read. */
  function WithoutAbort(s: Session): Session {
    if s.abortedFrom.None? || s.abortedFrom.value > 2 * |s.chunks| + 1 then s.(abortedFrom := None)
    else Session(s.chunks[..s.abortedFrom.value / 2], ReadRejects, None)
  }

  predicate SameButAborted(mine: Result, calm: Result) {
    mine.events == calm.events && (mine.outcome == Aborted || mine.outcome == calm.outcome)
  }

  /** Whenever the abort comes, it leaves exactly the events of the reads made until then, and the
      caller is told of it unless an error came first. */
  lemma AbortOnlyStopsReading(s: Session, client: Client)
    ensures SameButAborted(Run(s, client, 0), Run(WithoutAbort(s), client, 0))
    ensures SeenAborted(s, 2 * |s.chunks| + 1) ==>
              Run(s, client, 0).outcome != Finished && Run(s, client, 0).outcome != ReadFailed
  {
    SameUntil(s, client, 0);
    if SeenAborted(s, 2 * |s.chunks| + 1) { AbortIsReported(s, client, 0); }
  }

  /** A stream that was aborted before its last poll never counts as finished, or as broken. */
  lemma {:induction false} AbortIsReported(s: Session, client: Client, i: nat)
    requires i <= |s.chunks| && SeenAborted(s, 2 * |s.chunks| + 1)
    ensures Run(s, client, i).outcome != Finished && Run(s, client, i).outcome != ReadFailed
    decreases |s.chunks| - i
  {
    if Interrupted(s, i).None? {
      var d := Deliver(NewFrames(s, i), client);
      DeliveryStops(NewFrames(s, i), client);
      RunIsStep(s, client, i);
      AbortIsReported(s, Heard(client, d.events), i + 1);
    }
  }

  lemma {:induction false} DeliveryStops(frames: seq<string>, client: Client)
    ensures Deliver(frames, client).stop in [None, Some(EventTooLarge), Some(HandlerFailed)]
  {
    if frames != [] {
      DeliveryStops(frames[1..], Heard(client, DeliverOne(frames[0], client).events));
    }
  }

  // ---- Read by read ------------------------------------------------------------------------------

  lemma {:induction false} SameUntil(s: Session, client: Client, j: nat)
    requires j <= |WithoutAbort(s).chunks|
    ensures SameButAborted(Run(s, client, j), Run(WithoutAbort(s), client, j))
    decreases |s.chunks| - j
  {
    if j < |WithoutAbort(s).chunks| {
      SameUntil(s, Heard(client, Deliver(NewFrames(s, j), client).events), j + 1);
      SameReads(s, j);
      SameStep(s, WithoutAbort(s), client, j);
    } else {
      SameEnd(s, client);
    }
  }

  predicate SameOrAborted(mine: Option<Outcome>, calm: Option<Outcome>) {
    && (mine.Some? <==> calm.Some?)
    && (mine.Some? ==> mine.value == Aborted || mine.value == calm.value)
  }

  lemma SameReads(s: Session, j: nat)
    requires j < |WithoutAbort(s).chunks|
    ensures var calm := WithoutAbort(s);
            && NewFrames(s, j) == NewFrames(calm, j) && CutAfter(s, j) == CutAfter(calm, j)
            && SameOrAborted(Interrupted(s, j), Interrupted(calm, j))
  {
    var n := |WithoutAbort(s).chunks|;
    assert s.chunks[..n][..j] == s.chunks[..j];
    assert s.chunks[..n][..j + 1] == s.chunks[..j + 1];
    assert WithoutAbort(s).chunks == s.chunks[..n];
  }

  /** The last read is rejected or aborted in both, or the same in both. */
  lemma SameEnd(s: Session, client: Client)
    ensures var n := |WithoutAbort(s).chunks|;
            SameButAborted(Run(s, client, n), Run(WithoutAbort(s), client, n))
  {
    if s.abortedFrom.Some? && s.abortedFrom.value > 2 * |s.chunks| + 1 {
      LateEnd(s, client);
    }
  }

  lemma LateEnd(s: Session, client: Client)
    requires s.abortedFrom.Some? && s.abortedFrom.value > 2 * |s.chunks| + 1
    ensures var n := |s.chunks|;
            SameButAborted(Run(s, client, n), Run(s.(abortedFrom := None), client, n))
  {
    var calm := s.(abortedFrom := None);
    assert NewFrames(s, |s.chunks|) == NewFrames(calm, |s.chunks|);
    assert CutAfter(s, |s.chunks|) == CutAfter(calm, |s.chunks|);
    SameLast(s, calm, Heard(client, Deliver(NewFrames(s, |s.chunks|), client).events));
    SameStep(s, calm, client, |s.chunks|);
  }

  lemma SameLast(s: Session, calm: Session, client: Client)
    requires |s.chunks| == |calm.chunks| && calm.abortedFrom.None?
    requires CutAfter(s, |s.chunks|) == CutAfter(calm, |s.chunks|)
    ensures SameButAborted(Last(s, client), Last(calm, client))
  {
  }

  lemma SameSteps(d: Delivery, mine: Option<Outcome>, calm: Option<Outcome>, a: Result, b: Result)
    requires SameOrAborted(mine, calm) && SameButAborted(a, b)
    ensures SameButAborted(Step(d, mine, a), Step(d, calm, b))
  {
  }

  lemma SameStep(s: Session, calm: Session, client: Client, j: nat)
    requires j <= |s.chunks| && j <= |calm.chunks| && calm.abortedFrom.None?
    requires SameOrAborted(Interrupted(s, j), Interrupted(calm, j))
    requires NewFrames(s, j) == NewFrames(calm, j) && CutAfter(s, j) == CutAfter(calm, j)
    requires var next := Heard(client, Deliver(NewFrames(s, j), client).events);
             SameButAborted(Remaining(s, next, j), Remaining(calm, next, j))
    ensures SameButAborted(Run(s, client, j), Run(calm, client, j))
  {
    if Interrupted(s, j).None? {
      var d := Deliver(NewFrames(s, j), client);
      var next := Heard(client, d.events);
      RunIsStep(s, client, j);
      RunIsStep(calm, client, j);
      SameSteps(d, Stopped(s, j, d.stop), Stopped(calm, j, d.stop), Remaining(s, next, j),
                Remaining(calm, next, j));
    }
  }
}
