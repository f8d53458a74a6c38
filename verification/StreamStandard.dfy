/** The client's frames against section 9.2.6 of the HTML standard, for a whole stream. */
module StreamStandard {
  import opened JsText
  import opened EventStream
  import opened EventFrames

  function SentAll(frames: seq<string>): seq<StreamMessage> {
    if frames == [] then [] else Sent(frames[0]) + SentAll(frames[1..])
  }

  /** All that the client parses of a stream: its frames, and the trimmed rest. */
  function ClientMessages(stream: string): seq<StreamMessage> {
    var cut := Cut(LineEndsAsLf(stream));
    SentAll(cut.frames) + Sent(Trim(cut.rest))
  }

  predicate PlainFrames(stream: string) {
    forall f :: f in Cut(LineEndsAsLf(stream)).frames ==> PlainFrame(f)
  }

  predicate HasData(frame: string) {
    exists line :: line in Lines(frame) && IsDataLine(line)
  }

  /** If every complete frame is plain, the client parses from the frames exactly the messages that
      the standard dispatches for the raw stream, in order. */
  lemma FramesMatchStandard(stream: string)
    requires PlainFrames(stream)
    ensures SentAll(Cut(LineEndsAsLf(stream)).frames) == StandardMessages(stream)
  {
    NormalizedHasNoCr(stream);
    LineEndsKeepLines(stream, "");
    NormalizedMatches(LineEndsAsLf(stream));
  }

  /** The whole client agrees with the standard on such a stream if and only if the unterminated rest
      has no data line. */
  lemma StreamMatchesExactly(stream: string)
    requires PlainFrames(stream)
    ensures ClientMessages(stream) == StandardMessages(stream) <==>
            !HasData(Trim(Cut(LineEndsAsLf(stream)).rest))
  {
    var cut := Cut(LineEndsAsLf(stream));
    FramesMatchStandard(stream);
    SentHasData(Trim(cut.rest));
    var frames, last := SentAll(cut.frames), Sent(Trim(cut.rest));
    if last == [] {
      assert frames + last == frames;
    } else {
      assert |frames + last| == |frames| + 1;
    }
  }

  lemma SentHasData(frame: string)
    ensures Sent(frame) != [] <==> HasData(frame)
  {
    DataValuesAre(Lines(frame));
  }

  lemma {:induction false} DataValuesAre(lines: seq<string>)
    ensures DataValues(lines) != [] <==> exists line :: line in lines && IsDataLine(line)
  {
    if lines != [] {
      DataValuesAre(lines[1..]);
      assert lines == [lines[0]] + lines[1..];
    }
  }

  /** An input on which they differ: one data line and no blank line.  The standard discards it, the
      client parses it. */
  lemma UnterminatedFrameIsParsed(value: string)
    requires value != "" && !IsSpace(value[0]) && !IsSpace(value[|value| - 1])
    requires '\n' !in value && '\r' !in value
    ensures StandardMessages("data: " + value) == []
    ensures ClientMessages("data: " + value) == [StreamMessage("", value)]
    ensures PlainFrames("data: " + value)
  {
    var stream := "data: " + value;
    UnfinishedLine(stream, "");
    OneLineIsRest(stream);
    OneLineIsSent(value);
    assert [] + Sent(stream) == Sent(stream);
  }

  lemma OneLineIsRest(stream: string)
    requires '\n' !in stream && '\r' !in stream && stream != ""
    requires !IsSpace(stream[0]) && !IsSpace(stream[|stream| - 1])
    ensures Cut(LineEndsAsLf(stream)) == Cutting([], stream) && Trim(stream) == stream
  {
    NoCrIsNormalized(stream);
    assert Boundary(stream) < 0;
  }

  lemma OneLineIsSent(value: string)
    requires Printable(value)
    ensures Sent("data: " + value) == [StreamMessage("", value)]
  {
    var line := "data: " + value;
    PrintedLine(value);
    LinesOfOne(line);
    var lines: seq<string> := [line];
    assert lines[..0] == [] && line[0] == 'd';
    assert EventName(lines) == "";
  }

  lemma {:induction false} LineEndsKeepLines(s: string, line: string)
    ensures StreamLines(LineEndsAsLf(s), line) == StreamLines(s, line)
    decreases |s|
  {
    if s == "" {
    } else if s[0] == '\r' {
      var n := if |s| >= 2 && s[1] == '\n' then 2 else 1;
      LineEndsKeepLines(s[n..], "");
      assert ("\n" + LineEndsAsLf(s[n..]))[1..] == LineEndsAsLf(s[n..]);
    } else {
      LineEndsKeepLines(s[1..], if s[0] == '\n' then "" else line + [s[0]]);
      assert ([s[0]] + LineEndsAsLf(s[1..]))[1..] == LineEndsAsLf(s[1..]);
    }
  }

  lemma {:induction false} NormalizedMatches(n: string)
    requires '\r' !in n && forall f :: f in Cut(n).frames ==> PlainFrame(f)
    ensures SentAll(Cut(n).frames) == Interpret(StreamLines(n, ""), "", "")
    decreases |n|
  {
    var b := Boundary(n);
    if b < 0 {
      RestDispatchesNothing(n);
    } else {
      var f, t := n[..b], n[b + 2..];
      assert n == f + "\n" + ("\n" + t);
      assert Cut(n).frames == [f] + Cut(t).frames;
      assert ([f] + Cut(t).frames)[1..] == Cut(t).frames;
      NormalizedMatches(t);
      LeftmostIsFrameLike(n);
      FrameDispatches(f, t);
      PlainFrameIsStandard(f);
    }
  }

  lemma {:induction false} LinesUpToLf(f: string, t: string, line: string)
    requires '\r' !in f
    ensures StreamLines(f + "\n" + t, line) ==
            [line + Lines(f)[0]] + Lines(f)[1..] + StreamLines(t, "")
    decreases |f|
  {
    var s := f + "\n" + t;
    if f == "" {
      assert s[1..] == t;
      assert line + "" == line;
    } else {
      assert s[1..] == f[1..] + "\n" + t;
      if f[0] == '\n' {
        LinesUpToLf(f[1..], t, "");
        assert "" + Lines(f[1..])[0] == Lines(f[1..])[0];
        assert [Lines(f[1..])[0]] + Lines(f[1..])[1..] == Lines(f[1..]);
        assert ([""] + Lines(f[1..]))[1..] == Lines(f[1..]);
        assert line + "" == line;
      } else {
        LinesUpToLf(f[1..], t, line + [f[0]]);
        assert line + [f[0]] + Lines(f[1..])[0] == line + ([f[0]] + Lines(f[1..])[0]);
      }
    }
  }

  /** Only the first line before a line end can be empty when no blank line ends there. */
  lemma {:induction false} BlankLineIsFirst(f: string)
    requires Boundary(f + "\n") < 0
    ensures "" !in Lines(f)[1..]
    ensures f != "" && f[0] != '\n' ==> "" !in Lines(f)
  {
    if f != "" {
      var later := f[1..];
      assert (f + "\n")[1..] == later + "\n";
      assert forall k :: BlankLineAt(later + "\n", k) ==> BlankLineAt(f + "\n", k + 1);
      BlankLineIsFirst(later);
      if f[0] == '\n' {
        assert !BlankLineAt(f + "\n", 0);
        assert (f + "\n")[1] == (later + "\n")[0];
      }
    }
  }

  lemma {:induction false} BlankLineDispatches(lines: seq<string>, tail: seq<string>,
                                               name: string, buffer: string)
    requires "" !in lines && tail != [] && tail[0] == ""
    ensures Interpret(lines + tail, name, buffer) ==
            Dispatch(NameAfter(lines, name), buffer + DataBuffer(lines))
            + Interpret(tail[1..], "", "")
  {
    if lines == [] {
      assert lines + tail == tail;
      assert buffer + "" == buffer;
    } else {
      assert (lines + tail)[1..] == lines[1..] + tail;
      BlankLineDispatches(lines[1..], tail, NameOfLine(lines[0], name),
                          buffer + DataOfLine(lines[0]));
      AddToBuffer(buffer, lines);
    }
  }

  lemma AddToBuffer(buffer: string, lines: seq<string>)
    requires lines != []
    ensures buffer + DataOfLine(lines[0]) + DataBuffer(lines[1..]) == buffer + DataBuffer(lines)
  {
    Associate(buffer, DataOfLine(lines[0]), DataBuffer(lines[1..]));
  }

  lemma FrameDispatches(f: string, t: string)
    requires FrameLike(f) && '\r' !in f
    ensures Interpret(StreamLines(f + "\n" + ("\n" + t), ""), "", "") ==
            Dispatch(NameAfter(Lines(f), ""), DataBuffer(Lines(f)))
            + Interpret(StreamLines(t, ""), "", "")
  {
    var lines, tail := Lines(f), [""] + StreamLines(t, "");
    FrameLines(f, t);
    FrameEndsLine(f);
    BlankLineIsFirst(f);
    Associate(lines, [""], StreamLines(t, ""));
    LinesDispatch(lines, tail);
  }

  /** An empty first line dispatches nothing. */
  lemma LinesDispatch(lines: seq<string>, tail: seq<string>)
    requires lines != [] && "" !in lines[1..] && tail != [] && tail[0] == ""
    ensures Interpret(lines + tail, "", "") ==
            Dispatch(NameAfter(lines, ""), DataBuffer(lines)) + Interpret(tail[1..], "", "")
  {
    if lines[0] == "" {
      assert (lines + tail)[1..] == lines[1..] + tail;
      BlankLineDispatches(lines[1..], tail, "", "");
      assert "" + DataBuffer(lines[1..]) == DataBuffer(lines);
      assert DataOfLine("") == "" && NameOfLine("", "") == "";
      assert [] + Interpret(lines[1..] + tail, "", "") == Interpret(lines[1..] + tail, "", "");
    } else {
      assert lines == [lines[0]] + lines[1..];
      BlankLineDispatches(lines, tail, "", "");
      assert "" + DataBuffer(lines) == DataBuffer(lines);
    }
  }

  lemma FrameEndsLine(f: string)
    requires FrameLike(f)
    ensures Boundary(f + "\n") < 0
  {
    assert forall k :: BlankLineAt(f + "\n", k) ==> k < |f| && BlankLineAt(f + "\n\n", k);
  }

  lemma FrameLines(f: string, t: string)
    requires '\r' !in f
    ensures StreamLines(f + "\n" + ("\n" + t), "") == Lines(f) + [""] + StreamLines(t, "")
  {
    LinesUpToLf(f, "\n" + t, "");
    assert "" + Lines(f)[0] == Lines(f)[0];
    assert ("\n" + t)[0] == '\n' && ("\n" + t)[1..] == t;
  }

  lemma {:induction false} NoBlankLineNoDispatch(lines: seq<string>, name: string, buffer: string)
    requires "" !in lines
    ensures Interpret(lines, name, buffer) == []
  {
    if lines != [] {
      NoBlankLineNoDispatch(lines[1..], NameOfLine(lines[0], name), buffer + DataOfLine(lines[0]));
    }
  }

  lemma {:induction false} UnfinishedLine(s: string, line: string)
    requires '\r' !in s && '\n' !in s
    ensures StreamLines(s, line) == []
  {
    if s != "" {
      UnfinishedLine(s[1..], line + [s[0]]);
    }
  }

  lemma {:induction false} LastLf(s: string) returns (g: string, tail: string)
    requires '\n' in s
    ensures s == g + "\n" + tail && '\n' !in tail
  {
    var last := |s| - 1;
    if s[last] == '\n' {
      g, tail := s[..last], "";
    } else {
      g, tail := LastLf(s[..last]);
      tail := tail + [s[last]];
    }
  }

  lemma RestDispatchesNothing(rest: string)
    requires '\r' !in rest && Boundary(rest) < 0
    ensures Interpret(StreamLines(rest, ""), "", "") == []
  {
    if '\n' !in rest {
      UnfinishedLine(rest, "");
    } else {
      var g, tail := LastLf(rest);
      UnfinishedLine(tail, "");
      LinesUpToLf(g, tail, "");
      var lines := Lines(g);
      assert "" + lines[0] == lines[0];
      assert StreamLines(rest, "") == lines;
      assert forall k :: BlankLineAt(g + "\n", k) ==> BlankLineAt(rest, k);
      BlankLineIsFirst(g);
      if lines[0] == "" {
        NoBlankLineNoDispatch(lines[1..], "", "");
      } else {
        NoBlankLineNoDispatch(lines, "", "");
      }
    }
  }
}
