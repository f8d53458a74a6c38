/** What `consumeAiCommandEventStream` delivers does not depend on how the network cut the response
    into reads: when that holds, exactly, and what is delivered whatever happens. */
module ChunkInvariance {
  import opened JsText
  import opened EventStream
  import opened EventFrames
  import opened EventConsumer

  /** A session in which nothing but the limits and the handlers can end the run early. */
  predicate Clean(s: Session) {
    s.abortedFrom.None? && s.ending.Closed? && BytesOf(s.chunks) <= TOTAL_BYTES
  }

  predicate Sends(s: Session, text: string) {
    Clean(s) && WholeText(s) == text
  }

  /** The margin of two leaves room for the pending line break and a held-back CR. */
  predicate Fits(text: string) {
    var cut := Cut(LineEndsAsLf(text));
    && (forall f :: f in cut.frames ==> |f| <= FRAME_CHARACTERS - 2)
    && |cut.rest| <= FRAME_CHARACTERS
  }

  // ---- The main results ----------------------------------------------------------------------

  /** Within the limits, every session delivers what the whole text means. */
  lemma ChunkInvariance(s: Session, text: string, client: Client)
    requires Sends(s, text) && Fits(text)
    ensures Run(s, client, 0) == Reference(text, client)
  {
    FittingPrefixesFit(text);
    PrefixesSuffice(s, text, client);
  }

  /** The exact condition: every way of cutting a text into reads lets it through if and only if
      no prefix of it leaves a rest over the frame limit. */
  lemma EveryChunkingFinishes(text: string, client: Client)
    requires |text| <= TOTAL_BYTES && NeverThrows(client)
    ensures (forall s :: Sends(s, text) ==> Run(s, client, 0).outcome == Finished) <==>
            PrefixesFit(text)
  {
    if PrefixesFit(text) {
      forall s | Sends(s, text) ensures Run(s, client, 0).outcome == Finished {
        PrefixesFinish(s, text, client);
      }
    } else {
      CharacterReadsText(text);
      SomeChunkingFails(text, client);
    }
  }

  /** Whatever ends a run, what it delivered is a prefix of what the text it was sent means. */
  lemma DeliveredIsPrefix(s: Session, client: Client)
    ensures Run(s, client, 0).events <= Reference(WholeText(s), client).events
  {
    LaterFramesAreAll(s);
    RunIsPrefix(s, client, 0);
  }

  /** Without the margin the claim is false: a frame of 262,143 or 262,144 characters passes in one
      read, and is refused when the read ends inside its final CRLF. */
  lemma MarginIsNeeded(frame: string, client: Client)
    requires '\n' !in frame && '\r' !in frame
    requires FRAME_CHARACTERS - 1 <= |frame| <= FRAME_CHARACTERS
    requires NeverThrows(client)
    ensures var whole := frame + "\r\n\r\n";
            var once := Session([Chunk(whole, |whole|)], Closed(""), None);
            var twice := Session([Chunk(frame + "\r\n\r", |frame| + 3), Chunk("\n", 1)],
                                 Closed(""), None);
            && Sends(once, whole) && Sends(twice, whole)
            && Run(once, client, 0).outcome == Finished
            && Run(twice, client, 0).outcome == EventTooLarge
  {
    var whole := frame + "\r\n\r\n";
    var once := Session([Chunk(whole, |whole|)], Closed(""), None);
    var twice := Session([Chunk(frame + "\r\n\r", |frame| + 3), Chunk("\n", 1)], Closed(""), None);
    OnceFinishes(once, frame, client);
    TwiceFails(twice, frame, client);
  }

  // ---- Frames still to come --------------------------------------------------------------------

  function LaterFrames(s: Session, i: nat): seq<string>
    requires i <= |s.chunks|
    decreases |s.chunks| - i
  {
    NewFrames(s, i) + if i < |s.chunks| then LaterFrames(s, i + 1) else []
  }

  lemma {:induction false} LaterFramesFollow(s: Session, i: nat)
    requires i <= |s.chunks|
    ensures Received(TextOf(s.chunks[..i])).frames + LaterFrames(s, i) ==
            CutAfter(s, |s.chunks|).frames
    decreases |s.chunks| - i
  {
    ReadStep(s, i);
    if i < |s.chunks| {
      LaterFramesFollow(s, i + 1);
      FollowStep(s, i);
    } else {
      WithEmpty(NewFrames(s, i));
    }
  }

  lemma FollowStep(s: Session, i: nat)
    requires i < |s.chunks|
    requires CutAfter(s, i).frames == Received(TextOf(s.chunks[..i])).frames + NewFrames(s, i)
    ensures Received(TextOf(s.chunks[..i])).frames + LaterFrames(s, i) ==
            Received(TextOf(s.chunks[..i + 1])).frames + LaterFrames(s, i + 1)
  {
    Associate(Received(TextOf(s.chunks[..i])).frames, NewFrames(s, i), LaterFrames(s, i + 1));
  }

  lemma LaterFramesAreAll(s: Session)
    ensures LaterFrames(s, 0) == Cut(LineEndsAsLf(WholeText(s))).frames
  {
    LaterFramesFollow(s, 0);
    assert Received("").frames == [];
    assert [] + LaterFrames(s, 0) == LaterFrames(s, 0);
  }

  lemma {:induction false} DeliverConcat(a: seq<string>, b: seq<string>, client: Client)
    ensures var d := Deliver(a, client);
            Deliver(a + b, client) ==
            if d.stop.Some? then d else After(d.events, Deliver(b, Heard(client, d.events)))
  {
    if a == [] {
      assert a + b == b;
      HeardNothing(client);
    } else {
      var one := DeliverOne(a[0], client);
      assert a + b == [a[0]] + (a[1..] + b);
      DeliverCons(a[0], a[1..] + b, client);
      DeliverCons(a[0], a[1..], client);
      assert a == [a[0]] + a[1..];
      if one.stop.None? {
        var next := Heard(client, one.events);
        var d := Deliver(a[1..], next);
        DeliverConcat(a[1..], b, next);
        HeardMore(client, one.events, d.events);
        AfterAfter(one.events, d.events, Deliver(b, Heard(next, d.events)));
      }
    }
  }

  lemma FinishConcat(a: seq<string>, b: seq<string>, rest: string, client: Client)
    ensures var d := Deliver(a, client);
            Finish(a + b, rest, client) ==
            if d.stop.Some? then Result(d.events, d.stop.value)
            else Then(d.events, Finish(b, rest, Heard(client, d.events)))
  {
    DeliverConcat(a, b, client);
    var d := Deliver(a, client);
    if d.stop.None? {
      var next := Heard(client, d.events);
      var later := Deliver(b, next);
      HeardMore(client, d.events, later.events);
      ThenThen(d.events, later.events, Conclude(rest, Heard(next, later.events)));
    }
  }

  lemma {:induction false} BytesGrow(chunks: seq<Chunk>, i: nat)
    requires i <= |chunks|
    ensures BytesOf(chunks[..i]) <= BytesOf(chunks)
  {
    if i == |chunks| {
      assert chunks[..i] == chunks;
    } else {
      assert chunks[..|chunks| - 1][..i] == chunks[..i];
      BytesGrow(chunks[..|chunks| - 1], i);
    }
  }

  /** What the frames still to come after read `i` mean, and the rest. */
  function Whole(s: Session, client: Client, i: nat): Result
    requires i <= |s.chunks|
  {
    Finish(LaterFrames(s, i), CutAfter(s, |s.chunks|).rest, client)
  }

  /** Read by read the meaning is the frames of that read, then the meaning of what follows. */
  lemma WholeIsStep(s: Session, client: Client, i: nat)
    requires i <= |s.chunks|
    ensures var d := Deliver(NewFrames(s, i), client);
            var next := Heard(client, d.events);
            Whole(s, client, i) ==
            Step(d, d.stop, if i < |s.chunks| then Whole(s, next, i + 1)
                            else Conclude(CutAfter(s, i).rest, next))
  {
    var d := Deliver(NewFrames(s, i), client);
    assert d.events + [] == d.events;
    if i < |s.chunks| {
      FinishConcat(NewFrames(s, i), LaterFrames(s, i + 1), CutAfter(s, |s.chunks|).rest, client);
    } else {
      assert NewFrames(s, i) + [] == NewFrames(s, i);
    }
  }

  lemma {:induction false} RunIsFinish(s: Session, client: Client, i: nat)
    requires Clean(s) && i <= |s.chunks|
    requires forall j :: i <= j <= |s.chunks| ==> |CutAfter(s, j).rest| <= FRAME_CHARACTERS
    ensures Run(s, client, i) == Whole(s, client, i)
    decreases |s.chunks| - i
  {
    var d := Deliver(NewFrames(s, i), client);
    CleanRead(s, i, d.stop);
    RunIsStep(s, client, i);
    WholeIsStep(s, client, i);
    if i < |s.chunks| {
      RunIsFinish(s, Heard(client, d.events), i + 1);
    } else {
      CleanLast(s, Heard(client, d.events));
    }
  }

  lemma CleanLast(s: Session, client: Client)
    requires Clean(s)
    ensures Last(s, client) == Conclude(CutAfter(s, |s.chunks|).rest, client)
  {
  }

  /** In a clean session a read is never interrupted, and only delivery can stop the run. */
  lemma CleanRead(s: Session, i: nat, stop: Option<Outcome>)
    requires Clean(s) && i <= |s.chunks| && |CutAfter(s, i).rest| <= FRAME_CHARACTERS
    ensures Interrupted(s, i).None? && Stopped(s, i, stop) == stop
  {
    NotInterrupted(s, i);
  }

  lemma NotInterrupted(s: Session, i: nat)
    requires Clean(s) && i <= |s.chunks|
    ensures Interrupted(s, i).None?
  {
    var read := if i == |s.chunks| then s.chunks else s.chunks[..i + 1];
    assert BytesOf(read) <= TOTAL_BYTES by {
      if i < |s.chunks| { BytesGrow(s.chunks, i + 1); }
    }
  }

  predicate Begins(a: Result, b: Result) {
    a.events <= b.events
  }

  /** A read that is stopped for whatever reason has delivered a beginning. */
  lemma StepBegins(d: Delivery, stop: Option<Outcome>, x: Result, y: Result)
    requires Begins(x, y) && (d.stop.Some? ==> stop.Some?)
    ensures Begins(Step(d, stop, x), Step(d, d.stop, y))
  {
    assert d.events + [] == d.events;
  }

  lemma {:induction false} RunIsPrefix(s: Session, client: Client, i: nat)
    requires i <= |s.chunks|
    ensures Begins(Run(s, client, i), Whole(s, client, i))
    decreases |s.chunks| - i
  {
    if Interrupted(s, i).None? {
      var d := Deliver(NewFrames(s, i), client);
      var next := Heard(client, d.events);
      RunIsStep(s, client, i);
      WholeIsStep(s, client, i);
      if i < |s.chunks| {
        RunIsPrefix(s, next, i + 1);
        StepBegins(d, Stopped(s, i, d.stop), Run(s, next, i + 1), Whole(s, next, i + 1));
      } else {
        LastBegins(s, next);
        StepBegins(d, Stopped(s, i, d.stop), Last(s, next), Conclude(CutAfter(s, i).rest, next));
      }
    }
  }

  lemma LastBegins(s: Session, client: Client)
    ensures Begins(Last(s, client), Conclude(CutAfter(s, |s.chunks|).rest, client))
  {
  }

  // ---- Prefixes and the frame limit --------------------------------------------------------------

  predicate PrefixFits(text: string, k: nat)
    requires k <= |text|
  {
    |Received(text[..k]).rest| <= FRAME_CHARACTERS
  }

  predicate PrefixesFit(text: string) {
    forall k :: 0 <= k <= |text| ==> PrefixFits(text, k)
  }

  lemma {:induction false} TextIsPrefix(chunks: seq<Chunk>, i: nat)
    requires i <= |chunks|
    ensures TextOf(chunks[..i]) <= TextOf(chunks)
  {
    if i == |chunks| {
      assert chunks[..i] == chunks;
    } else {
      assert chunks[..|chunks| - 1][..i] == chunks[..i];
      TextIsPrefix(chunks[..|chunks| - 1], i);
    }
  }

  lemma {:induction false} NormalizedIsNoLonger(s: string)
    ensures |LineEndsAsLf(s)| <= |s|
  {
    if s != "" {
      NormalizedIsNoLonger(s[if s[0] == '\r' && |s| >= 2 && s[1] == '\n' then 2 else 1..]);
    }
  }

  lemma {:induction false} CutIsNoLonger(s: string)
    ensures |Cut(s).rest| <= |s|
    ensures forall f :: f in Cut(s).frames ==> |f| + 2 <= |s|
    decreases |s|
  {
    if Boundary(s) >= 0 {
      CutIsNoLonger(s[Boundary(s) + 2..]);
    }
  }

  lemma FinalRest(text: string)
    ensures |Cut(LineEndsAsLf(text)).rest| <= |Received(text).rest|
    ensures forall f :: f in Cut(LineEndsAsLf(text)).frames ==>
              f in Received(text).frames || |f| + 2 <= |Received(text).rest|
  {
    var rest := Received(text).rest;
    assert text + "" == text && rest + "" == rest;
    Advance(text, "", true);
    NormalizeIsStandard(rest, true);
    NormalizedIsNoLonger(rest);
    CutIsNoLonger(LineEndsAsLf(rest));
  }

  lemma PrefixesSuffice(s: Session, text: string, client: Client)
    requires Sends(s, text) && PrefixesFit(text)
    ensures Run(s, client, 0) == Reference(text, client)
  {
    forall j | 0 <= j <= |s.chunks| ensures |CutAfter(s, j).rest| <= FRAME_CHARACTERS {
      if j < |s.chunks| {
        TextIsPrefix(s.chunks, j + 1);
        var p := TextOf(s.chunks[..j + 1]);
        assert text[..|p|] == p;
        assert PrefixFits(text, |p|);
      } else {
        assert text[..|text|] == text;
        assert PrefixFits(text, |text|);
        FinalRest(text);
      }
    }
    RunIsFinish(s, client, 0);
    LaterFramesAreAll(s);
  }

  lemma PrefixesFinish(s: Session, text: string, client: Client)
    requires Sends(s, text) && PrefixesFit(text) && NeverThrows(client)
    ensures Run(s, client, 0).outcome == Finished
  {
    PrefixesSuffice(s, text, client);
    PrefixesFitFrames(text);
    SmallFramesFinish(Cut(LineEndsAsLf(text)), client);
  }

  lemma SmallFramesFinish(cut: Cutting, client: Client)
    requires forall f :: f in cut.frames ==> |f| <= FRAME_CHARACTERS
    requires NeverThrows(client)
    ensures Finish(cut.frames, cut.rest, client).outcome == Finished
  {
    SmallFramesPass(cut.frames, client);
  }

  lemma FittingPrefixesFit(text: string)
    requires Fits(text)
    ensures PrefixesFit(text)
  {
    forall k | 0 <= k <= |text| ensures PrefixFits(text, k) {
      assert text[..k] + text[k..] == text;
      FittingPrefixFits(text[..k], text[k..]);
    }
  }

  /** The rest after a prefix is no longer than the frame, or the final rest, that it begins, plus
      the line break and the CR that may be pending. */
  lemma FittingPrefixFits(p: string, c: string)
    requires Fits(p + c)
    ensures |Received(p).rest| <= FRAME_CHARACTERS
  {
    var rest := Received(p).rest;
    Advance(p, c, true);
    NormalizeIsStandard(rest + c, true);
    CutRestHasNoBlankLine(Normalized(p, false));
    RestShape(p);
    RestBegins(rest, c);
    var now := Cut(LineEndsAsLf(rest + c));
    if now.frames != [] {
      assert now.frames[0] in Cut(LineEndsAsLf(p + c)).frames;
    }
  }

  function WithoutCr(s: string): string {
    if EndsWithCr(s) then s[..|s| - 1] else s
  }

  lemma HeldCr(rest: string) returns (tail: string)
    ensures rest == WithoutCr(rest) + tail && tail in ["", "\r"] && |tail| <= 1
    ensures |rest| == |WithoutCr(rest)| + |tail|
  {
    tail := if EndsWithCr(rest) then "\r" else "";
  }

  /** A rest is the beginning of the first frame, or of the rest, that the text after it brings. */
  lemma RestBegins(rest: string, c: string)
    requires Boundary(rest) < 0 && '\r' !in WithoutCr(rest)
    ensures var now := Cut(LineEndsAsLf(rest + c));
            if now.frames != [] then |rest| <= |now.frames[0]| + 2 else |rest| <= |now.rest|
  {
    var head := WithoutCr(rest);
    var tail := HeldCr(rest);
    HeadHasNoBlankLine(rest, head, tail);
    var later := LaterText(rest, head, tail, c);
    HeadBegins(head, later, LineEndsAsLf(rest + c), |rest|);
  }

  lemma HeadBegins(head: string, later: string, text: string, n: nat)
    requires text == head + later && Boundary(head) < 0
    requires |head| <= n <= |head| + 1 && n <= |head| + |later|
    ensures var now := Cut(text);
            if now.frames != [] then n <= |now.frames[0]| + 2 else n <= |now.rest|
  {
    HeadLength(head, later);
  }

  lemma HeadHasNoBlankLine(rest: string, head: string, tail: string)
    requires rest == head + tail && Boundary(rest) < 0
    ensures Boundary(head) < 0
  {
    if Boundary(head) >= 0 {
      BoundaryStays(head, tail);
      assert false;
    }
  }

  /** What follows the head of a rest begins with a line end when a CR is pending. */
  lemma LaterText(rest: string, head: string, tail: string, c: string) returns (later: string)
    requires rest == head + tail && '\r' !in head && tail in ["", "\r"]
    ensures LineEndsAsLf(rest + c) == head + later && |tail| <= |later|
  {
    later := LineEndsAsLf(tail + c);
    assert rest + c == head + (tail + c);
    NormalizeAfterClean(head, tail + c, true);
  }

  lemma RestShape(p: string)
    ensures '\r' !in WithoutCr(Received(p).rest)
  {
    ConsumedThenRest(p);
    HeldCrIsLast(p, false);
    SuffixCr(Normalized(p, false), Terminated(Received(p).frames), Received(p).rest);
  }

  lemma SuffixCr(whole: string, x: string, rest: string)
    requires whole == x + rest
    requires forall i :: 0 <= i < |whole| && whole[i] == '\r' ==> i == |whole| - 1
    ensures '\r' !in WithoutCr(rest)
  {
    forall i | 0 <= i < |rest| && rest[i] == '\r' ensures i == |rest| - 1 {
      assert whole[|x| + i] == rest[i];
    }
  }

  lemma HeadLength(head: string, tail: string)
    requires Boundary(head) < 0
    ensures var cut := Cut(head + tail);
            if cut.frames != [] then |head| <= |cut.frames[0]| + 1
            else |cut.rest| == |head| + |tail|
  {
    assert forall k :: BlankLineAt(head + tail, k) && k + 2 <= |head| ==> BlankLineAt(head, k);
  }

  /** One read a character: this session ends a read after every prefix. */
  function CharacterReads(text: string): Session {
    Session(seq(|text|, i requires 0 <= i < |text| => Chunk([text[i]], 1)), Closed(""), None)
  }

  lemma {:induction false} CharacterPrefix(text: string, k: nat)
    requires k <= |text|
    ensures TextOf(CharacterReads(text).chunks[..k]) == text[..k]
    ensures BytesOf(CharacterReads(text).chunks[..k]) == k
  {
    if k > 0 {
      CharacterPrefix(text, k - 1);
      TextStep(CharacterReads(text), k - 1);
      assert text[..k] == text[..k - 1] + [text[k - 1]];
    }
  }

  lemma CharacterReadsText(text: string)
    requires |text| <= TOTAL_BYTES
    ensures Sends(CharacterReads(text), text)
  {
    var s := CharacterReads(text);
    CharacterPrefix(text, |text|);
    assert s.chunks[..|text|] == s.chunks;
    assert text[..|text|] == text && text + "" == text;
  }

  /** A clean run that finishes has passed the limit after every read. */
  lemma {:induction false} FinishedRestsFit(s: Session, client: Client, i: nat, j: nat)
    requires Clean(s) && i <= j <= |s.chunks| && Run(s, client, i).outcome == Finished
    ensures |CutAfter(s, j).rest| <= FRAME_CHARACTERS
    decreases j - i
  {
    NotInterrupted(s, i);
    RunIsStep(s, client, i);
    var d := Deliver(NewFrames(s, i), client);
    if i < j {
      FinishedRestsFit(s, Heard(client, d.events), i + 1, j);
    }
  }

  lemma SomeChunkingFails(text: string, client: Client)
    requires |text| <= TOTAL_BYTES && !PrefixesFit(text)
    ensures Run(CharacterReads(text), client, 0).outcome != Finished
  {
    var s := CharacterReads(text);
    CharacterReadsText(text);
    var k :| 0 <= k <= |text| && !PrefixFits(text, k);
    if k == 0 {
      EmptyPrefixFits(text);
    } else if Run(s, client, 0).outcome == Finished {
      FinishedRestsFit(s, client, 0, k - 1);
      CharacterPrefix(text, k);
    }
  }

  lemma EmptyPrefixFits(text: string)
    ensures PrefixFits(text, 0)
  {
    assert text[..0] == "" && Received("").rest == "";
  }

  /** If no prefix leaves a rest over the limit, no frame is over it. */
  lemma PrefixesFitFrames(text: string)
    requires PrefixesFit(text)
    ensures forall f :: f in Cut(LineEndsAsLf(text)).frames ==> |f| <= FRAME_CHARACTERS
  {
    PrefixFrames(text, text);
    PrefixRest(text, text);
    FinalRest(text);
  }

  predicate FramesFit(p: string) {
    forall f :: f in Received(p).frames ==> |f| <= FRAME_CHARACTERS
  }

  lemma {:induction false} PrefixFrames(text: string, p: string)
    requires PrefixesFit(text) && p <= text
    ensures FramesFit(p)
    decreases |p|
  {
    if p == "" {
      NothingFits();
    } else {
      FrontAndLast(p);
      PrefixFrames(text, p[..|p| - 1]);
      PrefixRest(text, p[..|p| - 1]);
      OneCharacterFits(p, p[..|p| - 1], p[|p| - 1]);
    }
  }

  lemma NothingFits()
    ensures FramesFit("")
  {
    assert Received("").frames == [];
  }

  lemma PrefixRest(text: string, p: string)
    requires PrefixesFit(text) && p <= text
    ensures |Received(p).rest| <= FRAME_CHARACTERS
  {
    assert text[..|p|] == p;
    assert PrefixFits(text, |p|);
  }

  lemma OneCharacterFits(longer: string, p: string, c: char)
    requires longer == p + [c] && FramesFit(p) && |Received(p).rest| <= FRAME_CHARACTERS
    ensures FramesFit(longer)
  {
    OneCharacter(p, c);
  }

  lemma OneCharacter(p: string, c: char)
    ensures forall f :: f in Received(p + [c]).frames ==>
              f in Received(p).frames || |f| < |Received(p).rest|
  {
    var rest := Received(p).rest;
    Advance(p, [c], false);
    NormalizeIsStandard(rest + [c], false);
    NormalizedIsNoLonger(rest + [c]);
    NormalizedIsNoLonger(rest);
    assert (rest + [c])[..|rest + [c]| - 1] == rest;
    CutIsNoLonger(Normalized(rest + [c], false));
  }

  lemma {:induction false} SmallFramesPass(frames: seq<string>, client: Client)
    requires NeverThrows(client)
    requires forall f :: f in frames ==> |f| <= FRAME_CHARACTERS
    ensures Deliver(frames, client).stop == None
  {
    if frames != [] {
      var one := DeliverOne(frames[0], client);
      SmallFramesPass(frames[1..], Heard(client, one.events));
    }
  }

  // ---- The counterexample --------------------------------------------------------------------------

  lemma NoBoundary(frame: string, tail: string)
    requires '\n' !in frame && tail in ["", "\n", "\n\r"]
    ensures Boundary(frame + tail) < 0
  {
    assert forall k :: BlankLineAt(frame + tail, k) ==> k >= |frame|;
  }

  lemma PlainIsFrameLike(frame: string)
    requires '\n' !in frame
    ensures FrameLike(frame)
  {
    assert BlankLineAt(frame + "\n\n", |frame|);
    assert forall k :: BlankLineAt(frame + "\n\n", k) ==> k >= |frame|;
  }

  lemma LineEndSamples()
    ensures LineEndsAsLf("\r\n") == "\n" && LineEndsAsLf("\r\n\r\n") == "\n\n"
  {
    assert "\r\n\r\n"[2..] == "\r\n" && "\r\n"[2..] == "";
    assert LineEndsAsLf("\r\n") == "\n" + LineEndsAsLf("");
  }

  lemma HalfFrame(frame: string)
    requires '\n' !in frame && '\r' !in frame
    ensures Received(frame + "\r\n\r") == Cutting([], frame + "\n\r")
  {
    var p := frame + "\r\n\r";
    assert p[..|p| - 1] == frame + "\r\n";
    NoCrIsNormalized(frame);
    LineEndSamples();
    NormalizeConcat(frame, "\r\n");
    NoBoundary(frame, "\n\r");
    assert frame + "\n" + "\r" == frame + "\n\r";
  }

  lemma WholeFrame(frame: string)
    requires '\n' !in frame && '\r' !in frame
    ensures Cut(LineEndsAsLf(frame + "\r\n\r\n")) == Cutting([frame], "")
    ensures Received(frame + "\r\n\r\n") == Cutting([frame], "")
  {
    WholeFrameLines(frame);
    PlainIsFrameLike(frame);
    CutOnce(frame, "");
    WithEmpty(frame + "\n\n");
    WithEmpty([frame]);
  }

  lemma WholeFrameLines(frame: string)
    requires '\n' !in frame && '\r' !in frame
    ensures LineEndsAsLf(frame + "\r\n\r\n") == frame + "\n\n"
  {
    NoCrIsNormalized(frame);
    LineEndSamples();
    NormalizeConcat(frame, "\r\n\r\n");
  }

  lemma TextOfOne(chunk: Chunk)
    ensures TextOf([chunk]) == chunk.text && BytesOf([chunk]) == chunk.bytes
  {
    assert [chunk][..0] == [] && "" + chunk.text == chunk.text;
  }

  lemma TextOfTwo(a: Chunk, b: Chunk)
    ensures TextOf([a, b]) == a.text + b.text && BytesOf([a, b]) == a.bytes + b.bytes
  {
    assert [a, b][..1] == [a];
    TextOfOne(a);
  }

  lemma OnceFinishes(s: Session, frame: string, client: Client)
    requires '\n' !in frame && '\r' !in frame && |frame| <= FRAME_CHARACTERS
    requires s == Session([Chunk(frame + "\r\n\r\n", |frame| + 4)], Closed(""), None)
    requires NeverThrows(client)
    ensures Sends(s, frame + "\r\n\r\n") && Run(s, client, 0).outcome == Finished
  {
    WholeFrame(frame);
    OneRead(s);
    OneReadIsReference(s, client);
    SmallFramesFinish(Cutting([frame], ""), client);
  }

  lemma OneRead(s: Session)
    requires |s.chunks| == 1 && s.ending == Closed("") && s.abortedFrom.None?
    requires s.chunks[0].bytes <= TOTAL_BYTES
    ensures Sends(s, s.chunks[0].text)
    ensures CutAfter(s, 0) == Received(s.chunks[0].text)
    ensures CutAfter(s, 1) == Cut(LineEndsAsLf(s.chunks[0].text))
  {
    assert s.chunks == [s.chunks[0]] && s.chunks[..1] == s.chunks;
    TextOfOne(s.chunks[0]);
    WithEmpty(s.chunks[0].text);
  }

  lemma OneReadIsReference(s: Session, client: Client)
    requires Clean(s) && |s.chunks| == 1
    requires CutAfter(s, 0).rest == "" && CutAfter(s, 1).rest == ""
    ensures Run(s, client, 0) == Reference(WholeText(s), client)
  {
    RunIsFinish(s, client, 0);
    LaterFramesAreAll(s);
  }

  lemma TwiceFails(s: Session, frame: string, client: Client)
    requires '\n' !in frame && '\r' !in frame
    requires FRAME_CHARACTERS - 1 <= |frame| <= FRAME_CHARACTERS
    requires s == Session([Chunk(frame + "\r\n\r", |frame| + 3), Chunk("\n", 1)], Closed(""), None)
    ensures Sends(s, frame + "\r\n\r\n") && Run(s, client, 0).outcome == EventTooLarge
  {
    var first := frame + "\r\n\r";
    HalfFrame(frame);
    assert s.chunks[..1] == [s.chunks[0]];
    TextOfOne(s.chunks[0]);
    TextOfTwo(s.chunks[0], s.chunks[1]);
    assert first + "\n" + "" == frame + "\r\n\r\n";
    FirstReadTooLarge(s, client);
  }

  lemma FirstReadTooLarge(s: Session, client: Client)
    requires Clean(s) && s.chunks != [] && CutAfter(s, 0).frames == []
    requires |CutAfter(s, 0).rest| > FRAME_CHARACTERS
    ensures Run(s, client, 0).outcome == EventTooLarge
  {
    NotInterrupted(s, 0);
    RunIsStep(s, client, 0);
    assert NewFrames(s, 0) == [];
  }
}
