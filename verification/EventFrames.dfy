/** Frames, events and the WHATWG event stream format: `validStreamEvent` and `parseEventFrame` of
    `apps/web/lib/ai-command-client.ts`, and the interpretation of section 9.2.6 of the HTML
    standard as a reference. */
module EventFrames {
  import opened JsText
  import opened EventStream

  // ---- Events ----------------------------------------------------------------------------

  datatype Json =
    | JNull
    | JBool(flag: bool)
    | JNumber(number: real)
    | JString(text: string)
    | JArray(items: seq<Json>)
    | JObject(fields: map<string, Json>)

  type Record = map<string, Json>

  datatype Event =
    | Started(requestId: string, providerResponseId: string, model: string, simulated: bool)
    | TextDelta(delta: string)
    | Citation(citation: Record)
    | FileSource(source: Record)
    | ToolCall(toolCall: Record)
    | GeneratedArtifact(artifact: Record)
    | Usage(usage: Record)
    | Completed(result: Record)
    | Cancelled(cancelledId: string)
    | Failed(code: string, safeMessage: string, retryable: bool)

  /** The event types the client knows. */
  datatype Kind =
    | KStarted | KTextDelta | KCitation | KFileSource | KToolCall | KGeneratedArtifact | KUsage
    | KCompleted | KCancelled | KFailed

  function KindName(k: Kind): string {
    match k
    case KStarted => "response.started"
    case KTextDelta => "response.output_text.delta"
    case KCitation => "response.citation"
    case KFileSource => "response.file_source"
    case KToolCall => "response.tool_call"
    case KGeneratedArtifact => "response.generated_artifact"
    case KUsage => "response.usage"
    case KCompleted => "response.completed"
    case KCancelled => "response.cancelled"
    case KFailed => "response.error"
  }

  function KindNamed(s: string): (k: Option<Kind>)
    ensures k.Some? ==> s == KindName(k.value)
  {
    if s == KindName(KStarted) then Some(KStarted)
    else if s == KindName(KTextDelta) then Some(KTextDelta)
    else if s == KindName(KCitation) then Some(KCitation)
    else if s == KindName(KFileSource) then Some(KFileSource)
    else if s == KindName(KToolCall) then Some(KToolCall)
    else if s == KindName(KGeneratedArtifact) then Some(KGeneratedArtifact)
    else if s == KindName(KUsage) then Some(KUsage)
    else if s == KindName(KCompleted) then Some(KCompleted)
    else if s == KindName(KCancelled) then Some(KCancelled)
    else if s == KindName(KFailed) then Some(KFailed)
    else None
  }

  function KindOf(e: Event): Kind {
    match e
    case Started(_, _, _, _) => KStarted
    case TextDelta(_) => KTextDelta
    case Citation(_) => KCitation
    case FileSource(_) => KFileSource
    case ToolCall(_) => KToolCall
    case GeneratedArtifact(_) => KGeneratedArtifact
    case Usage(_) => KUsage
    case Completed(_) => KCompleted
    case Cancelled(_) => KCancelled
    case Failed(_, _, _) => KFailed
  }

  predicate IsString(v: Record, key: string) { key in v && v[key].JString? }
  predicate IsBool(v: Record, key: string) { key in v && v[key].JBool? }
  predicate IsRecord(v: Record, key: string) { key in v && v[key].JObject? }

  function ReadEvent(v: Record, k: Kind): Option<Event> {
    match k
    case KStarted =>
      if IsString(v, "requestId") && IsString(v, "providerResponseId") && IsString(v, "model")
         && IsBool(v, "simulated")
      then Some(Started(v["requestId"].text, v["providerResponseId"].text, v["model"].text,
                        v["simulated"].flag))
      else None
    case KTextDelta =>
      if IsString(v, "delta") then Some(TextDelta(v["delta"].text)) else None
    case KCitation =>
      if IsRecord(v, "citation") then Some(Citation(v["citation"].fields)) else None
    case KFileSource =>
      if IsRecord(v, "source") then Some(FileSource(v["source"].fields)) else None
    case KToolCall =>
      if IsRecord(v, "toolCall") then Some(ToolCall(v["toolCall"].fields)) else None
    case KGeneratedArtifact =>
      if IsRecord(v, "artifact") then Some(GeneratedArtifact(v["artifact"].fields)) else None
    case KUsage =>
      if IsRecord(v, "usage") then Some(Usage(v["usage"].fields)) else None
    case KCompleted =>
      if IsRecord(v, "result") then Some(Completed(v["result"].fields)) else None
    case KCancelled =>
      if IsString(v, "requestId") then Some(Cancelled(v["requestId"].text)) else None
    case KFailed =>
      if IsString(v, "code") && IsString(v, "safeMessage") && IsBool(v, "retryable")
      then Some(Failed(v["code"].text, v["safeMessage"].text, v["retryable"].flag))
      else None
  }

  function ValidStreamEvent(v: Record): Option<Event> {
    if !IsString(v, "type") then None
    else
      match KindNamed(v["type"].text)
      case None => None
      case Some(k) => ReadEvent(v, k)
  }

  /** The record the server serialises for an event. */
  function Fields(e: Event): Record {
    var kind := JString(KindName(KindOf(e)));
    match e
    case Started(requestId, providerResponseId, model, simulated) =>
      map["type" := kind, "requestId" := JString(requestId),
          "providerResponseId" := JString(providerResponseId), "model" := JString(model),
          "simulated" := JBool(simulated)]
    case TextDelta(delta) => map["type" := kind, "delta" := JString(delta)]
    case Citation(citation) => map["type" := kind, "citation" := JObject(citation)]
    case FileSource(source) => map["type" := kind, "source" := JObject(source)]
    case ToolCall(toolCall) => map["type" := kind, "toolCall" := JObject(toolCall)]
    case GeneratedArtifact(artifact) => map["type" := kind, "artifact" := JObject(artifact)]
    case Usage(usage) => map["type" := kind, "usage" := JObject(usage)]
    case Completed(result) => map["type" := kind, "result" := JObject(result)]
    case Cancelled(requestId) => map["type" := kind, "requestId" := JString(requestId)]
    case Failed(code, safeMessage, retryable) =>
      map["type" := kind, "code" := JString(code), "safeMessage" := JString(safeMessage),
          "retryable" := JBool(retryable)]
  }

  predicate Has(v: Record, key: string, value: Json) {
    key in v && v[key] == value
  }

  predicate Carries(v: Record, e: Event) {
    forall key :: key in Fields(e) ==> Has(v, key, Fields(e)[key])
  }

  /** Validation accepts exactly the records that carry the fields of an event, whatever else they
      hold, and reads that event. */
  lemma ValidExactly(v: Record, e: Event)
    ensures ValidStreamEvent(v) == Some(e) <==> Carries(v, e)
  {
    CarriesByField(v, e);
    if IsString(v, "type") && v["type"].text == KindName(KindOf(e)) {
      KindIsNamed(KindOf(e));
      ReadByField(v, e);
    } else if ValidStreamEvent(v) == Some(e) {
      ReadIsOfKind(v, KindNamed(v["type"].text).value, e);
    }
  }

  lemma KindIsNamed(k: Kind)
    ensures KindNamed(KindName(k)) == Some(k)
  {
  }

  lemma ReadIsOfKind(v: Record, k: Kind, e: Event)
    requires ReadEvent(v, k) == Some(e)
    ensures KindOf(e) == k
  {
  }

  predicate FieldsMatch(v: Record, e: Event) {
    && Has(v, "type", JString(KindName(KindOf(e))))
    && match e
       case Started(requestId, providerResponseId, model, simulated) =>
         && Has(v, "requestId", JString(requestId))
         && Has(v, "providerResponseId", JString(providerResponseId))
         && Has(v, "model", JString(model)) && Has(v, "simulated", JBool(simulated))
       case TextDelta(delta) => Has(v, "delta", JString(delta))
       case Citation(citation) => Has(v, "citation", JObject(citation))
       case FileSource(source) => Has(v, "source", JObject(source))
       case ToolCall(toolCall) => Has(v, "toolCall", JObject(toolCall))
       case GeneratedArtifact(artifact) => Has(v, "artifact", JObject(artifact))
       case Usage(usage) => Has(v, "usage", JObject(usage))
       case Completed(result) => Has(v, "result", JObject(result))
       case Cancelled(requestId) => Has(v, "requestId", JString(requestId))
       case Failed(code, safeMessage, retryable) =>
         && Has(v, "code", JString(code)) && Has(v, "safeMessage", JString(safeMessage))
         && Has(v, "retryable", JBool(retryable))
  }

  lemma CarriesByField(v: Record, e: Event)
    ensures Carries(v, e) <==> FieldsMatch(v, e)
  {
    var f := Fields(e);
    assert "type" in f;
    match e
    case Started(_, _, _, _) => StartedByField(v, e);
    case TextDelta(_) => assert "delta" in f;
    case Citation(_) => assert "citation" in f;
    case FileSource(_) => assert "source" in f;
    case ToolCall(_) => assert "toolCall" in f;
    case GeneratedArtifact(_) => assert "artifact" in f;
    case Usage(_) => assert "usage" in f;
    case Completed(_) => assert "result" in f;
    case Cancelled(_) => assert "requestId" in f;
    case Failed(_, _, _) => FailedByField(v, e);
  }

  lemma StartedByField(v: Record, e: Event)
    requires e.Started?
    ensures Carries(v, e) <==> FieldsMatch(v, e)
  {
    var f := Fields(e);
    assert "type" in f && "requestId" in f && "providerResponseId" in f && "model" in f
           && "simulated" in f;
  }

  lemma FailedByField(v: Record, e: Event)
    requires e.Failed?
    ensures Carries(v, e) <==> FieldsMatch(v, e)
  {
    var f := Fields(e);
    assert "type" in f && "code" in f && "safeMessage" in f && "retryable" in f;
  }

  lemma ReadByField(v: Record, e: Event)
    requires Has(v, "type", JString(KindName(KindOf(e))))
    ensures ReadEvent(v, KindOf(e)) == Some(e) <==> FieldsMatch(v, e)
  {
  }

  // ---- Frames ----------------------------------------------------------------------------

  function DataValues(lines: seq<string>): seq<string> {
    if lines == [] then []
    else (if IsDataLine(lines[0]) then [DataValue(lines[0])] else []) + DataValues(lines[1..])
  }

  /** The trimmed value of the last `event:` line. */
  function EventName(lines: seq<string>): string {
    if lines == [] then ""
    else
      var last := lines[|lines| - 1];
      if IsEventLine(last) then EventValue(last) else EventName(lines[..|lines| - 1])
  }

  /** An event name and the joined data. */
  datatype StreamMessage = StreamMessage(name: string, data: string)

  function MessageEvent(m: StreamMessage, json: string -> Json): Option<Event> {
    if m.data == "[DONE]" then None
    else
      match json(m.data)
      case JObject(v) =>
        if !IsString(v, "type") || (m.name != "" && m.name != v["type"].text) then None
        else ValidStreamEvent(v)
      case _ => None
  }

  function EventOf(name: string, data: seq<string>, json: string -> Json): Option<Event> {
    if data == [] then None else MessageEvent(StreamMessage(name, Join(data)), json)
  }

  function FrameEvent(frame: string, json: string -> Json): Option<Event> {
    EventOf(EventName(Lines(frame)), DataValues(Lines(frame)), json)
  }

  predicate IsEventLine(line: string) { StartsWith(line, "event:") }
  predicate IsDataLine(line: string) { StartsWith(line, "data:") }

  function EventValue(line: string): string
    requires IsEventLine(line)
  {
    Trim(line[6..])
  }

  function DataValue(line: string): string
    requires IsDataLine(line)
  {
    TrimStart(line[5..])
  }

  method ParseEventFrame(frame: string, json: string -> Json) returns (event: Option<Event>)
    ensures event == FrameEvent(frame, json)
  {
    var lines := Lines(frame);
    var eventName := "";
    var data: seq<string> := [];
    for i := 0 to |lines|
      invariant eventName == EventName(lines[..i])
      invariant data == DataValues(lines[..i])
    {
      var line := lines[i];
      LineStep(lines, i);
      if IsEventLine(line) { eventName := EventValue(line); }
      if IsDataLine(line) { data := data + [DataValue(line)]; }
    }
    assert lines[..|lines|] == lines;
    event := EventOf(eventName, data, json);
  }

  lemma LineStep(lines: seq<string>, i: nat)
    requires i < |lines|
    ensures EventName(lines[..i + 1]) ==
            if IsEventLine(lines[i]) then EventValue(lines[i]) else EventName(lines[..i])
    ensures DataValues(lines[..i + 1]) ==
            DataValues(lines[..i]) + if IsDataLine(lines[i]) then [DataValue(lines[i])] else []
  {
    assert lines[..i + 1][..i] == lines[..i];
    assert lines[..i + 1] == lines[..i] + [lines[i]];
    DataValuesConcat(lines[..i], [lines[i]]);
    assert [lines[i]][1..] == [];
  }

  lemma {:induction false} DataValuesConcat(a: seq<string>, b: seq<string>)
    ensures DataValues(a + b) == DataValues(a) + DataValues(b)
  {
    if a == [] {
      assert a + b == b;
    } else {
      assert (a + b)[1..] == a[1..] + b;
      DataValuesConcat(a[1..], b);
    }
  }

  // ---- Section 9.2.6 ---------------------------------------------------------------------

  function FieldEnd(line: string): (n: nat)
    ensures n <= |line| && ':' !in line[..n] && (n < |line| ==> line[n] == ':')
  {
    if line == "" || line[0] == ':' then 0 else 1 + FieldEnd(line[1..])
  }

  function WithoutOneSpace(value: string): string {
    if value != "" && value[0] == ' ' then value[1..] else value
  }

  /** What a line appends to the data buffer. */
  function DataOfLine(line: string): string {
    var n := FieldEnd(line);
    if line[..n] != "data" then ""
    else if n == |line| then "\n"
    else WithoutOneSpace(line[n + 1..]) + "\n"
  }

  function DataBuffer(lines: seq<string>): string {
    if lines == [] then "" else DataOfLine(lines[0]) + DataBuffer(lines[1..])
  }

  /** The event type buffer after a line. */
  function NameOfLine(line: string, name: string): string {
    var n := FieldEnd(line);
    if line[..n] != "event" then name
    else if n == |line| then ""
    else WithoutOneSpace(line[n + 1..])
  }

  function NameAfter(lines: seq<string>, name: string): string {
    if lines == [] then name else NameAfter(lines[1..], NameOfLine(lines[0], name))
  }

  /** The data dispatched for a data buffer: nothing for an empty one, else the buffer without its
      final LF. */
  function DispatchData(buffer: string): seq<string> {
    if buffer == "" then [] else [buffer[..|buffer| - 1]]
  }

  function Dispatch(name: string, buffer: string): seq<StreamMessage> {
    if buffer == "" then [] else [StreamMessage(name, buffer[..|buffer| - 1])]
  }

  /** The messages dispatched by a sequence of complete lines; a trailing event without a blank line
      is discarded. */
  function Interpret(lines: seq<string>, name: string, buffer: string): seq<StreamMessage> {
    if lines == [] then []
    else if lines[0] == "" then Dispatch(name, buffer) + Interpret(lines[1..], "", "")
    else Interpret(lines[1..], NameOfLine(lines[0], name), buffer + DataOfLine(lines[0]))
  }

  /** The complete lines of a raw stream, ended by CRLF, LF or CR; an unfinished line is dropped. */
  function StreamLines(s: string, line: string): seq<string> {
    if s == "" then []
    else if s[0] == '\n' then [line] + StreamLines(s[1..], "")
    else if s[0] != '\r' then StreamLines(s[1..], line + [s[0]])
    else if |s| >= 2 && s[1] == '\n' then [line] + StreamLines(s[2..], "")
    else [line] + StreamLines(s[1..], "")
  }

  function StandardMessages(stream: string): seq<StreamMessage> {
    Interpret(StreamLines(stream, ""), "", "")
  }

  // ---- The client's frames against the standard ---------------------------------------------

  /** What the client hands to the JSON parser for a frame. */
  function Payload(frame: string): seq<string> {
    var data := DataValues(Lines(frame));
    if data == [] then [] else [Join(data)]
  }

  /** The same with the event name. */
  function Sent(frame: string): seq<StreamMessage> {
    var data := DataValues(Lines(frame));
    if data == [] then [] else [StreamMessage(EventName(Lines(frame)), Join(data))]
  }

  /** A line on which stripping all leading white space from a `data:` value is stripping one
      space, and which is not a `data` field without a colon. */
  predicate PlainLine(line: string) {
    && line != "data"
    && (IsDataLine(line) ==> DataValue(line) == WithoutOneSpace(line[5..]))
  }

  /** The same of the name: trimming an `event:` value is stripping one space. */
  predicate PlainNameLine(line: string) {
    && line != "event"
    && (IsEventLine(line) ==> EventValue(line) == WithoutOneSpace(line[6..]))
  }

  predicate PlainFrame(frame: string) {
    AllPlain(Lines(frame)) && forall line :: line in Lines(frame) ==> PlainNameLine(line)
  }

  /** The standard's data values of a frame. */
  function StandardValues(lines: seq<string>): seq<string> {
    if lines == [] then []
    else (if lines[0] == "data" then [""]
          else if IsDataLine(lines[0]) then [WithoutOneSpace(lines[0][5..])] else [])
         + StandardValues(lines[1..])
  }

  lemma DataOfLineCases(line: string)
    ensures DataOfLine(line) ==
            if line == "data" then "\n"
            else if IsDataLine(line) then WithoutOneSpace(line[5..]) + "\n" else ""
  {
    var n := FieldEnd(line);
    if IsDataLine(line) {
      assert line[..4] == "data" && line[4] == ':';
      FieldEndAt(line, 4);
    }
    if n == 4 && n < |line| && line[..4] == "data" {
      assert line[..5] == "data:";
    }
  }

  lemma {:induction false} FieldEndAt(line: string, k: nat)
    requires k < |line| && line[k] == ':' && ':' !in line[..k]
    ensures FieldEnd(line) == k
  {
    if k > 0 {
      assert line[0] == line[..k][0];
      FieldEndAt(line[1..], k - 1);
    }
  }

  lemma {:induction false} BufferIsJoin(lines: seq<string>)
    ensures DataBuffer(lines) == Buffered(StandardValues(lines))
  {
    if lines != [] {
      BufferIsJoin(lines[1..]);
      DataOfLineCases(lines[0]);
      if lines[0] == "data" {
        BufferedCons("", StandardValues(lines[1..]));
      } else if IsDataLine(lines[0]) {
        BufferedCons(WithoutOneSpace(lines[0][5..]), StandardValues(lines[1..]));
      } else {
        assert StandardValues(lines) == StandardValues(lines[1..]);
      }
    }
  }

  function Buffered(values: seq<string>): string {
    if values == [] then "" else Join(values) + "\n"
  }

  lemma BufferedCons(v: string, later: seq<string>)
    ensures v + "\n" + Buffered(later) == Buffered([v] + later)
  {
    assert ([v] + later)[1..] == later;
  }

  predicate AllPlain(lines: seq<string>) {
    forall line :: line in lines ==> PlainLine(line)
  }

  lemma {:induction false} PlainValues(lines: seq<string>)
    ensures |DataValues(lines)| <= |StandardValues(lines)|
    ensures DataValues(lines) == StandardValues(lines) <==> AllPlain(lines)
  {
    if lines != [] {
      var head, tail := lines[0], lines[1..];
      PlainValues(tail);
      assert lines == [head] + tail;
      assert AllPlain(lines) <==> PlainLine(head) && AllPlain(tail);
      if IsDataLine(head) {
        ConsEquality(DataValue(head), DataValues(tail), WithoutOneSpace(head[5..]),
                     StandardValues(tail));
      } else if head != "data" {
        assert DataValues(lines) == DataValues(tail);
        assert StandardValues(lines) == StandardValues(tail);
      }
    }
  }

  lemma ConsEquality(a: string, s: seq<string>, b: string, t: seq<string>)
    ensures [a] + s == [b] + t <==> a == b && s == t
  {
    assert ([a] + s)[0] == a && ([b] + t)[0] == b;
    assert ([a] + s)[1..] == s && ([b] + t)[1..] == t;
  }

  lemma {:induction false} ValuesHaveNoLf(lines: seq<string>)
    requires forall line :: line in lines ==> '\n' !in line
    ensures forall v :: v in DataValues(lines) || v in StandardValues(lines) ==> '\n' !in v
  {
    if lines != [] {
      ValuesHaveNoLf(lines[1..]);
      var head := lines[0];
      assert '\n' !in head;
      if IsDataLine(head) {
        assert '\n' !in head[5..];
        TrimStartKeepsOut(head[5..], '\n');
      }
    }
  }

  lemma {:induction false} TrimStartKeepsOut(s: string, c: char)
    requires c !in s
    ensures c !in TrimStart(s)
  {
    if s != "" && IsSpace(s[0]) {
      TrimStartKeepsOut(s[1..], c);
    }
  }

  /** The client reads the standard's payload from a frame exactly when all its lines are plain. */
  lemma PayloadExactly(frame: string)
    ensures Payload(frame) == DispatchData(DataBuffer(Lines(frame))) <==> AllPlain(Lines(frame))
  {
    var lines := Lines(frame);
    BufferIsJoin(lines);
    PlainValues(lines);
    LinesHaveNoLf(frame);
    ValuesHaveNoLf(lines);
    var mine, theirs := DataValues(lines), StandardValues(lines);
    if mine != [] && theirs != [] && Join(mine) == Join(theirs) {
      SplitOfJoin(mine);
      SplitOfJoin(theirs);
    }
  }

  lemma NameOfLineCases(line: string, name: string)
    ensures NameOfLine(line, name) ==
            if line == "event" then ""
            else if IsEventLine(line) then WithoutOneSpace(line[6..]) else name
  {
    var n := FieldEnd(line);
    if IsEventLine(line) {
      assert line[..5] == "event" && line[5] == ':';
      FieldEndAt(line, 5);
    }
    if n == 5 && n < |line| && line[..5] == "event" {
      assert line[..6] == "event:";
    }
  }

  lemma {:induction false} NameAfterLast(lines: seq<string>, name: string)
    requires lines != []
    ensures NameAfter(lines, name) ==
            NameOfLine(lines[|lines| - 1], NameAfter(lines[..|lines| - 1], name))
  {
    if |lines| > 1 {
      NameAfterLast(lines[1..], NameOfLine(lines[0], name));
      assert lines[1..][..|lines| - 2] == lines[..|lines| - 1][1..];
    }
  }

  lemma {:induction false} PlainNames(lines: seq<string>)
    requires forall line :: line in lines ==> PlainNameLine(line)
    ensures NameAfter(lines, "") == EventName(lines)
  {
    if lines != [] {
      var last := lines[|lines| - 1];
      NameAfterLast(lines, "");
      NameOfLineCases(last, NameAfter(lines[..|lines| - 1], ""));
      assert PlainNameLine(last);
      PlainNames(lines[..|lines| - 1]);
    }
  }

  /** From a plain frame the client reads the standard's message. */
  lemma PlainFrameIsStandard(frame: string)
    requires PlainFrame(frame)
    ensures Sent(frame) == Dispatch(NameAfter(Lines(frame), ""), DataBuffer(Lines(frame)))
  {
    PayloadExactly(frame);
    PlainNames(Lines(frame));
    NamedPayload(DataValues(Lines(frame)), EventName(Lines(frame)), DataBuffer(Lines(frame)));
  }

  lemma NamedPayload(data: seq<string>, name: string, buffer: string)
    requires (if data == [] then [] else [Join(data)]) == DispatchData(buffer)
    ensures (if data == [] then [] else [StreamMessage(name, Join(data))]) == Dispatch(name, buffer)
  {
  }

  function DataLines(values: seq<string>): string {
    Join(Printed(values))
  }

  function Printed(values: seq<string>): seq<string> {
    if values == [] then [] else ["data: " + values[0]] + Printed(values[1..])
  }

  predicate Printable(v: string) {
    '\n' !in v && (v == "" || !IsSpace(v[0]))
  }

  lemma PrintedLine(v: string)
    requires Printable(v)
    ensures '\n' !in "data: " + v && DataValues(["data: " + v]) == [v]
  {
    var line := "data: " + v;
    assert line[..5] == "data:";
    assert line[5..] == " " + v;
    assert (" " + v)[1..] == v;
  }

  lemma DataValuesCons(line: string, lines: seq<string>)
    ensures DataValues([line] + lines) == DataValues([line]) + DataValues(lines)
  {
    assert ([line] + lines)[1..] == lines;
    assert [line][1..] == [];
  }

  lemma {:induction false} PrintedValues(values: seq<string>)
    requires forall v :: v in values ==> Printable(v)
    ensures |Printed(values)| == |values| && DataValues(Printed(values)) == values
    ensures forall line :: line in Printed(values) ==> '\n' !in line
  {
    if values != [] {
      PrintedValues(values[1..]);
      assert Printable(values[0]);
      PrintedLine(values[0]);
      DataValuesCons("data: " + values[0], Printed(values[1..]));
    }
  }

  /** Data lines printed without line breaks or leading white space are read back. */
  lemma PrintThenParse(values: seq<string>)
    requires values != [] && forall v :: v in values ==> Printable(v)
    ensures Payload(DataLines(values)) == [Join(values)]
  {
    PrintedValues(values);
    SplitOfJoin(Printed(values));
  }
}
