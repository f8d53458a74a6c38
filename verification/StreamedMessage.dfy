/** The assistant message on screen while a response streams: `applyStreamEvent` of
    `apps/web/components/ai-command-motion-workspace.tsx`. */
module StreamedMessage {
  import opened JsText
  import opened EventFrames

  datatype Status = Starting | Streaming | Complete | Partial | Stopped | Broken

  datatype Message = Message(
    generation: nat, status: Status, content: string, citations: seq<Record>,
    fileSources: seq<Record>, generatedArtifacts: seq<Record>, toolCalls: seq<Record>)

  type Shown = Option<Message>

  /** `sendMessage` puts this on screen before it opens the stream. */
  function Fresh(generation: nat): Message {
    Message(generation, Starting, "", [], [], [], [])
  }

  /** `current ? { ...current, status } : current` with the status chosen by `current.content`. */
  function Interrupted(shown: Shown, otherwise: Status): Shown {
    if shown.None? then None
    else Some(shown.value.(status := if shown.value.content != "" then Partial else otherwise))
  }

  /** The state update of one event of the current request. */
  function Applied(shown: Shown, e: Event, generation: nat): Shown {
    var base := if shown.Some? then shown.value else Fresh(generation);
    match e
    case Started(_, _, _, _) => Some(base.(generation := generation, status := Streaming))
    case TextDelta(delta) =>
      Some(base.(generation := generation, status := Streaming, content := base.content + delta))
    case Citation(c) =>
      if shown.None? then None else Some(base.(citations := base.citations + [c]))
    case FileSource(f) =>
      if shown.None? then None else Some(base.(fileSources := base.fileSources + [f]))
    case ToolCall(t) =>
      if shown.None? then None else Some(base.(toolCalls := base.toolCalls + [t]))
    case GeneratedArtifact(a) =>
      if shown.None? then None
      else Some(base.(generatedArtifacts := base.generatedArtifacts + [a]))
    case Completed(_) => if shown.None? then None else Some(base.(status := Complete))
    case Cancelled(_) => Interrupted(shown, Stopped)
    case Usage(_) => shown
    case Failed(_, _, _) => shown
  }

  // ---- What a list of events puts on screen ------------------------------------------------

  /** The deltas of the events, joined in order. */
  function Deltas(events: seq<Event>): string {
    if events == [] then ""
    else
      var e := events[|events| - 1];
      var before := Deltas(events[..|events| - 1]);
      if e.TextDelta? then before + e.delta else before
  }

  function CitationOf(e: Event): Option<Record> {
    if e.Citation? then Some(e.citation) else None
  }

  function FileSourceOf(e: Event): Option<Record> {
    if e.FileSource? then Some(e.source) else None
  }

  function ToolCallOf(e: Event): Option<Record> {
    if e.ToolCall? then Some(e.toolCall) else None
  }

  function ArtifactOf(e: Event): Option<Record> {
    if e.GeneratedArtifact? then Some(e.artifact) else None
  }

  /** What the events of one kind carried, in order. */
  function Carried(events: seq<Event>, part: Event -> Option<Record>): seq<Record> {
    if events == [] then []
    else
      var last := part(events[|events| - 1]);
      var before := Carried(events[..|events| - 1], part);
      if last.Some? then before + [last.value] else before
  }

  /** What a message shows of its events. */
  datatype Contents = Contents(
    text: string, citations: seq<Record>, fileSources: seq<Record>,
    generatedArtifacts: seq<Record>, toolCalls: seq<Record>)

  function ContentsOf(m: Message): Contents {
    Contents(m.content, m.citations, m.fileSources, m.generatedArtifacts, m.toolCalls)
  }

  function Add(c: Contents, e: Event): Contents {
    match e
    case TextDelta(delta) => c.(text := c.text + delta)
    case Citation(r) => c.(citations := c.citations + [r])
    case FileSource(r) => c.(fileSources := c.fileSources + [r])
    case ToolCall(r) => c.(toolCalls := c.toolCalls + [r])
    case GeneratedArtifact(r) => c.(generatedArtifacts := c.generatedArtifacts + [r])
    case _ => c
  }

  function Collected(events: seq<Event>): Contents {
    if events == [] then Contents("", [], [], [], [])
    else Add(Collected(events[..|events| - 1]), events[|events| - 1])
  }

  predicate Collects(m: Message, events: seq<Event>) {
    ContentsOf(m) == Collected(events)
  }

  /** The text collected is the deltas joined in order, and each list what the events of its kind
      carried, in order. */
  lemma {:induction false} CollectedIs(events: seq<Event>)
    ensures var c := Collected(events);
            && c.text == Deltas(events)
            && c.citations == Carried(events, CitationOf)
            && c.fileSources == Carried(events, FileSourceOf)
            && c.generatedArtifacts == Carried(events, ArtifactOf)
            && c.toolCalls == Carried(events, ToolCallOf)
  {
    if events != [] {
      CollectedIs(events[..|events| - 1]);
    }
  }

  /** An event added to a message is an event added to what the message collects. */
  lemma {:induction false} AppliedCollects(m: Message, events: seq<Event>, e: Event)
    requires Collects(m, events)
    ensures var after := Applied(Some(m), e, m.generation);
            after.Some? && after.value.generation == m.generation
            && Collects(after.value, events + [e])
  {
    OneMore(events, e);
    AppliedAdds(m, e);
  }

  lemma OneMore(events: seq<Event>, e: Event)
    ensures Collected(events + [e]) == Add(Collected(events), e)
  {
    assert (events + [e])[..|events|] == events;
  }

  lemma AppliedAdds(m: Message, e: Event)
    ensures var after := Applied(Some(m), e, m.generation);
            after.Some? && after.value.generation == m.generation
            && ContentsOf(after.value) == Add(ContentsOf(m), e)
  {
  }

  lemma {:induction false} DeltasOfPrefix(a: seq<Event>, b: seq<Event>)
    requires a <= b
    ensures Deltas(a) <= Deltas(b)
    decreases |b|
  {
    if |a| == |b| {
      assert a == b;
    } else {
      DeltasOfPrefix(a, b[..|b| - 1]);
    }
  }
}
