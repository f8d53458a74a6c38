/** Which frames are read as which event, said of the lines of the frame by their places, and the
    frames the server writes. */
module EventReading {
  import opened JsText
  import opened EventStream
  import opened EventFrames
  import opened Selections

  // ---- Name and data by lines --------------------------------------------------------------------

  predicate IsName(line: string) { "event:" <= line }

  function NameText(line: string): string {
    if |line| >= 6 then Trim(line[6..]) else ""
  }

  predicate LastName(lines: seq<string>, name: string, k: nat) {
    && k < |lines| && IsName(lines[k]) && name == NameText(lines[k])
    && forall j :: k < j < |lines| ==> !IsName(lines[j])
  }

  predicate NoName(lines: seq<string>) {
    forall k :: 0 <= k < |lines| ==> !IsName(lines[k])
  }

  /** `name` is the trimmed value of the last `event:` line, or empty if there is none. */
  ghost predicate NameIs(lines: seq<string>, name: string) {
    || (name == "" && NoName(lines))
    || exists k: nat :: LastName(lines, name, k)
  }

  predicate IsData(line: string) { "data:" <= line }

  function DataText(line: string): string {
    if |line| >= 5 then TrimStart(line[5..]) else ""
  }

  /** `data` are the values of the `data:` lines in order, leading white space off. */
  ghost predicate DataIs(lines: seq<string>, data: seq<string>) {
    Selects(lines, IsData, DataText, data)
  }

  /** Text that is the JSON of a record that carries the fields of `e`. */
  predicate Means(json: string -> Json, text: string, e: Event) {
    text != "[DONE]" && json(text).JObject? && Carries(json(text).fields, e)
  }

  /** There is data, it means `e`, and the name is that of `e` or missing. */
  predicate Accepted(name: string, data: seq<string>, json: string -> Json, e: Event) {
    data != [] && Means(json, Join(data), e) && (name == "" || name == KindName(KindOf(e)))
  }

  ghost predicate ReadsAs(lines: seq<string>, json: string -> Json, e: Event) {
    exists name, data :: NameIs(lines, name) && DataIs(lines, data) && Accepted(name, data, json, e)
  }

  /** A frame is read as an event exactly when it has a data line, its joined data is the JSON of a
      record carrying that event's fields, and it names that event or none. */
  lemma ReadExactly(frame: string, json: string -> Json, e: Event)
    ensures FrameEvent(frame, json) == Some(e) <==> ReadsAs(Lines(frame), json, e)
  {
    LinesReadExactly(Lines(frame), json, e);
  }

  lemma LinesReadExactly(lines: seq<string>, json: string -> Json, e: Event)
    ensures EventOf(EventName(lines), DataValues(lines), json) == Some(e) <==> ReadsAs(lines, json, e)
  {
    var name, data := EventName(lines), DataValues(lines);
    EventExactly(name, data, json, e);
    NameExactly(lines, name);
    DataExactly(lines, data);
    if ReadsAs(lines, json, e) {
      var n, d :| NameIs(lines, n) && DataIs(lines, d) && Accepted(n, d, json, e);
      NameExactly(lines, n);
      DataExactly(lines, d);
    }
  }

  lemma EventExactly(name: string, data: seq<string>, json: string -> Json, e: Event)
    ensures EventOf(name, data, json) == Some(e) <==> Accepted(name, data, json, e)
  {
    if data != [] && json(Join(data)).JObject? {
      var v := json(Join(data)).fields;
      ValidExactly(v, e);
      CarriesByField(v, e);
    }
  }

  lemma {:induction false} NameExactly(lines: seq<string>, name: string)
    ensures NameIs(lines, name) <==> name == EventName(lines)
  {
    if lines != [] {
      var n := |lines| - 1;
      NameExactly(lines[..n], name);
      NameOfMore(lines, name);
    }
  }

  lemma NameOfMore(lines: seq<string>, name: string)
    requires lines != []
    ensures var n := |lines| - 1;
            NameIs(lines, name) <==>
            if IsName(lines[n]) then name == NameText(lines[n]) else NameIs(lines[..n], name)
  {
    var n := |lines| - 1;
    if IsName(lines[n]) {
      assert LastName(lines, NameText(lines[n]), n);
    } else {
      FrontAndLast(lines);
      forall k: nat ensures LastName(lines[..n], name, k) <==> LastName(lines, name, k) {
        NotTheLast(lines[..n], lines[n], name, k);
      }
      NoNameBefore(lines);
    }
  }

  lemma NotTheLast(before: seq<string>, last: string, name: string, k: nat)
    requires !IsName(last)
    ensures LastName(before, name, k) <==> LastName(before + [last], name, k)
  {
    var lines := before + [last];
    if k < |before| {
      assert lines[k] == before[k];
      if LastName(before, name, k) {
        forall j | k < j < |lines| ensures !IsName(lines[j]) {
          assert lines[j] == if j < |before| then before[j] else last;
        }
      }
      if LastName(lines, name, k) {
        forall j | k < j < |before| ensures !IsName(before[j]) {
          assert lines[j] == before[j];
        }
      }
    }
  }

  lemma NoNameBefore(lines: seq<string>)
    requires lines != []
    ensures NoName(lines) <==> NoName(lines[..|lines| - 1]) && !IsName(lines[|lines| - 1])
  {
  }

  lemma DataExactly(lines: seq<string>, data: seq<string>)
    ensures DataIs(lines, data) <==> data == DataValues(lines)
  {
    SelectsExactly(lines, IsData, DataText, data);
    DataIsPicked(lines);
  }

  lemma {:induction false} DataIsPicked(lines: seq<string>)
    ensures DataValues(lines) == Picked(lines, IsData, DataText)
  {
    if lines != [] {
      var n := |lines| - 1;
      DataIsPicked(lines[..n]);
      LineStep(lines, n);
      assert lines[..n + 1] == lines;
    }
  }

  // ---- What the server writes --------------------------------------------------------------------

  /** `encodeEvent` of the stream route, up to the blank line. */
  function Written(e: Event, stringify: Event -> string): string {
    "event: " + KindName(KindOf(e)) + "\ndata: " + stringify(e)
  }

  /** `JSON.stringify` prints an event on one line, as an object that parses back to its fields. */
  predicate Prints(stringify: Event -> string, json: string -> Json, e: Event) {
    var text := stringify(e);
    && text != "" && text[0] == '{' && '\n' !in text && '\r' !in text
    && json(text).JObject? && Carries(json(text).fields, e)
  }

  predicate IsWord(s: string) {
    s != "" && forall i :: 0 <= i < |s| ==> 'a' <= s[i] <= 'z' || s[i] == '.' || s[i] == '_'
  }

  lemma KindIsWord(k: Kind)
    ensures IsWord(KindName(k))
  {
    if k.KStarted? || k.KTextDelta? || k.KCitation? || k.KFileSource? || k.KToolCall? {
      FirstKinds(k);
    } else {
      OtherKinds(k);
    }
  }

  lemma FirstKinds(k: Kind)
    requires k.KStarted? || k.KTextDelta? || k.KCitation? || k.KFileSource? || k.KToolCall?
    ensures IsWord(KindName(k))
  {
  }

  lemma OtherKinds(k: Kind)
    requires k.KGeneratedArtifact? || k.KUsage? || k.KCompleted? || k.KCancelled? || k.KFailed?
    ensures IsWord(KindName(k))
  {
  }

  lemma WordHasNoSpace(s: string)
    requires IsWord(s)
    ensures '\n' !in s && '\r' !in s && !IsSpace(s[0]) && !IsSpace(s[|s| - 1])
  {
  }

  lemma WrittenLines(name: string, text: string)
    requires '\n' !in name && '\n' !in text
    ensures Lines("event: " + name + "\ndata: " + text) == ["event: " + name, "data: " + text]
  {
    var first, second := "event: " + name, "data: " + text;
    assert "event: " + name + "\ndata: " + text == first + "\n" + second;
    LinesAcrossLf(first, second);
    LinesOfOne(first);
    LinesOfOne(second);
  }

  lemma TrimmedWord(name: string)
    requires name != "" && !IsSpace(name[0]) && !IsSpace(name[|name| - 1])
    ensures Trim(" " + name) == name
  {
    assert (" " + name)[1..] == name;
  }

  lemma OneDataLine(first: string, second: string)
    requires !IsData(first) && IsData(second)
    ensures Picked([first, second], IsData, DataText) == [DataText(second)]
  {
    assert [first, second][..1] == [first];
    assert Picked([first], IsData, DataText) == [];
  }

  lemma DataLineText(text: string)
    requires text != "" && !IsSpace(text[0])
    ensures IsData("data: " + text) && DataText("data: " + text) == text
  {
    assert ("data: " + text)[5..] == " " + text;
    assert (" " + text)[1..] == text;
  }

  /** The two lines of a written frame hold its name and its data. */
  lemma TwoLines(name: string, text: string)
    requires IsWord(name) && text != "" && !IsSpace(text[0])
    ensures var lines := ["event: " + name, "data: " + text];
            NameIs(lines, name) && DataIs(lines, [text])
  {
    var first, second := "event: " + name, "data: " + text;
    WordHasNoSpace(name);
    TrimmedWord(name);
    assert first[6..] == " " + name;
    assert second[0] == 'd';
    assert LastName([first, second], name, 0);
    DataLineText(text);
    OneDataLine(first, second);
    SelectsExactly([first, second], IsData, DataText, [text]);
  }

  /** The frame the server writes for an event is read as that event. */
  lemma WrittenIsRead(e: Event, stringify: Event -> string, json: string -> Json)
    requires Prints(stringify, json, e)
    ensures FrameEvent(Written(e, stringify), json) == Some(e)
  {
    var name, text := KindName(KindOf(e)), stringify(e);
    KindIsWord(KindOf(e));
    WordHasNoSpace(name);
    WrittenLines(name, text);
    TwoLines(name, text);
    TwoLinesRead(["event: " + name, "data: " + text], name, text, json, e);
    ReadExactly(Written(e, stringify), json, e);
  }

  lemma TwoLinesRead(lines: seq<string>, name: string, text: string, json: string -> Json, e: Event)
    requires NameIs(lines, name) && DataIs(lines, [text])
    requires name == KindName(KindOf(e)) && Means(json, text, e)
    ensures ReadsAs(lines, json, e)
  {
    assert Join([text]) == text;
    assert Accepted(name, [text], json, e);
  }
}
