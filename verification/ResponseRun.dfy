/** A response run of `processAiCommandStream` in `apps/web/lib/ai-command-stream.ts`, from the moment
    the run record exists: the provider's events, persistence, supersession, compensation and the
    outer `catch`.  Calls into the database, the provider and the store are steps that may fail as
    `Faults` says; every theorem is for all faults and all provider streams. */
module ResponseRun {
  import opened JsText
  import opened StoredArtifacts

  // ---- What a run leaves behind ----------------------------------------------------------------

  datatype RunStatus = CompletedRun | CancelledRun | IncompleteRun | FailedRun

  /** One `completeResponseRun` call, and whether it went through. */
  datatype Attempt = Attempt(status: RunStatus, ok: bool)

  datatype ArtifactRecord = ArtifactRecord(reference: ReferenceId, storage: Option<FileId>, ready: bool)

  /** The content saved for a run without a result: the trimmed partial text, or the notice "The AI
      Command response was cancelled before completion." or "... did not complete." */
  datatype Content = Partial(text: string) | CancelledNotice | IncompleteNotice

  /** One attempt to save such a message. */
  datatype Message = Message(content: Content, status: RunStatus)

  datatype Records = Records(attempts: seq<Attempt>, artifacts: seq<ArtifactRecord>, messages: seq<Message>)

  datatype World = World(copies: Copies, records: Records)

  /** The status the database keeps: `completeResponseRun` updates only a run that is still started,
      so the first call that goes through is the last word. */
  function Recorded(attempts: seq<Attempt>): Option<RunStatus> {
    if attempts == [] then None
    else if attempts[0].ok then Some(attempts[0].status)
    else Recorded(attempts[1..])
  }

  function Closing(r: Records, status: RunStatus, works: bool): Records {
    r.(attempts := r.attempts + [Attempt(status, works)])
  }

  /** The storage references of the ready records, which a failing run orphans. */
  function ReadyStorage(artifacts: seq<ArtifactRecord>): seq<FileId> {
    if artifacts == [] then []
    else (if artifacts[0].ready && artifacts[0].storage.Some? then [artifacts[0].storage.value] else [])
         + ReadyStorage(artifacts[1..])
  }

  function Failing(artifacts: seq<ArtifactRecord>): seq<ArtifactRecord> {
    if artifacts == [] then []
    else (if artifacts[0].ready then [artifacts[0].(storage := None, ready := false)] else [artifacts[0]])
         + Failing(artifacts[1..])
  }

  class RunDatabase {
    var records: Records

    constructor ()
      ensures records == Records([], [], [])
    {
      records := Records([], [], []);
    }

    method Complete(status: RunStatus, works: bool) returns (ok: bool)
      modifies this
      ensures records == Closing(old(records), status, works) && ok == works
    {
      records, ok := Closing(records, status, works), works;
    }

    method RecordArtifact(artifact: ArtifactRecord)
      modifies this
      ensures records == old(records).(artifacts := old(records).artifacts + [artifact])
    {
      records := records.(artifacts := records.artifacts + [artifact]);
    }

    method SaveMessage(message: Message)
      modifies this
      ensures records == old(records).(messages := old(records).messages + [message])
    {
      records := records.(messages := records.messages + [message]);
    }

    method FailArtifacts(works: bool) returns (orphaned: seq<FileId>)
      modifies this
      ensures orphaned == if works then ReadyStorage(old(records).artifacts) else []
      ensures records == if works then old(records).(artifacts := Failing(old(records).artifacts))
                         else old(records)
    {
      orphaned := if works then ReadyStorage(records.artifacts) else [];
      if works { records := records.(artifacts := Failing(records.artifacts)); }
    }
  }

  // ---- What may happen ---------------------------------------------------------------------------

  datatype RunEvent =
    | Started
    | Delta(text: string)
    | Detail(name: string)
    | Completed(references: seq<ReferenceId>)
    | Cancelled
    | Failed(code: string)

  datatype WorkspaceStep = WorkspaceThrows | NoWorkspace | Workspace(executedTool: bool)
  datatype Finalization = FinalizeThrows | Superseded | Finalized

  /** `streamEnds` is false when the provider throws after its last event; `aborted` is the signal
      as the outer `catch` sees it.  Every other flag says whether the named call works. */
  datatype Faults = Faults(
    inputFiles: bool, streamEnds: bool, aborted: bool,
    openAi: bool, contentProvider: bool, preparationSettings: bool, output: nat -> Generated,
    workspace: WorkspaceStep, finalization: Finalization,
    earlierRecords: bool, artifactRecord: nat -> bool, usage: bool, packet: bool,
    failArtifacts: bool, release: Release, completion: bool, audit: bool,
    terminal: Finalization, terminalCompletion: bool, finalCompletion: bool)

  // ---- Preparing and persisting a completed result ---------------------------------------------------

  function Outputs(f: Faults, n: nat): seq<Generated> {
    seq(n, k requires 0 <= k < n => f.output(k))
  }

  function Unprovided(references: seq<ReferenceId>): seq<Prepared> {
    if references == [] then []
    else [Without(references[0], ProviderUnavailable)] + Unprovided(references[1..])
  }

  predicate PreparationThrows(references: seq<ReferenceId>, f: Faults) {
    f.openAi && references != [] && f.contentProvider && !f.preparationSettings
  }

  function Entries(references: seq<ReferenceId>, f: Faults): seq<Prepared> {
    if !f.openAi || references == [] then []
    else if !f.contentProvider then Unprovided(references)
    else if !f.preparationSettings then []
    else PreparedAll(references, Outputs(f, |references|))
  }

  /** Whether any content is fetched at all. */
  predicate Fetches(references: seq<ReferenceId>, f: Faults) {
    f.openAi && references != [] && f.contentProvider && f.preparationSettings
  }

  function PreparedCopies(copies: Copies, references: seq<ReferenceId>, f: Faults): Copies {
    if Fetches(references, f) then AfterPreparing(copies, Outputs(f, |references|)) else copies
  }

  method PrepareProviderArtifacts(store: FileStore, references: seq<ReferenceId>, f: Faults)
    returns (threw: bool, prepared: seq<Prepared>)
    modifies store
    ensures threw == PreparationThrows(references, f)
    ensures prepared == Entries(references, f)
    ensures store.copies == PreparedCopies(old(store.copies), references, f)
  {
    threw, prepared := false, [];
    if !f.openAi || references == [] { return; }
    if !f.contentProvider { return false, Unprovided(references); }
    if !f.preparationSettings { return true, []; }
    prepared := PrepareAll(store, references, Outputs(f, |references|));
    PushesAreEntries(Preparing([], old(store.copies)), references, Outputs(f, |references|));
    assert [] + Entries(references, f) == Entries(references, f);
  }

  predicate HasManifest(prepared: seq<Prepared>) {
    exists k :: 0 <= k < |prepared| && prepared[k].manifest.Some?
  }

  /** A generated manifest replaces the workspace artifact, and with it the executed tool call. */
  predicate Executed(prepared: seq<Prepared>, f: Faults) {
    !HasManifest(prepared) && f.workspace.Workspace? && f.workspace.executedTool
  }

  /** `providerGeneratedArtifacts.find((candidate) => candidate.reference.id === reference.id)` */
  function Find(prepared: seq<Prepared>, reference: ReferenceId): Option<Prepared> {
    if prepared == [] then None
    else if prepared[0].reference == reference then Some(prepared[0])
    else Find(prepared[1..], reference)
  }

  function RecordFor(reference: ReferenceId, prepared: seq<Prepared>): ArtifactRecord {
    match Find(prepared, reference)
    case None => ArtifactRecord(reference, None, false)
    case Some(p) => ArtifactRecord(reference, p.stored, p.stored.Some? && p.manifest.Some?)
  }

  datatype Recording = Recording(records: Records, ok: bool)

  function ArtifactsFrom(r: Records, references: seq<ReferenceId>, prepared: seq<Prepared>, f: Faults,
                         k: nat): Recording
    requires k <= |references|
    decreases |references| - k
  {
    if k == |references| then Recording(r, true)
    else if !f.artifactRecord(k) then Recording(r, false)
    else ArtifactsFrom(r.(artifacts := r.artifacts + [RecordFor(references[k], prepared)]),
                       references, prepared, f, k + 1)
  }

  function Metadata(r: Records, references: seq<ReferenceId>, prepared: seq<Prepared>, f: Faults): Recording {
    if !f.earlierRecords then Recording(r, false)
    else
      var recorded := if Executed(prepared, f) then [] else references;
      var a := ArtifactsFrom(r, recorded, prepared, f, 0);
      if !a.ok || !f.usage then Recording(a.records, false)
      else Recording(Closing(a.records, CompletedRun, f.completion), f.completion && f.packet)
  }

  method RecordMetadata(db: RunDatabase, references: seq<ReferenceId>, prepared: seq<Prepared>, f: Faults)
    returns (ok: bool)
    modifies db
    ensures Recording(db.records, ok) == Metadata(old(db.records), references, prepared, f)
  {
    if !f.earlierRecords { return false; }
    var recorded := if Executed(prepared, f) then [] else references;
    for k := 0 to |recorded|
      invariant ArtifactsFrom(db.records, recorded, prepared, f, k) ==
                ArtifactsFrom(old(db.records), recorded, prepared, f, 0)
    {
      if !f.artifactRecord(k) { return false; }
      db.RecordArtifact(RecordFor(recorded[k], prepared));
    }
    if !f.usage { return false; }
    ok := db.Complete(CompletedRun, f.completion);
    ok := ok && f.packet;
  }

  datatype Persisted = PersistThrew | PersistSuperseded | PersistCompleted
  datatype Persistence = Persistence(world: World, outcome: Persisted)

  function Persist(w: World, references: seq<ReferenceId>, prepared: seq<Prepared>, f: Faults): Persistence {
    match f.finalization
    case FinalizeThrows => Persistence(w, PersistThrew)
    case Superseded =>
      var due := Due(prepared, map[]);
      if !f.release.finalSettingsWork then
        if due != [] then Persistence(w, PersistThrew)
        else Persistence(w.(records := Closing(w.records, CancelledRun, f.completion)),
                         if f.completion then PersistSuperseded else PersistThrew)
      else
        Persistence(World(AfterDeletes(w.copies, due, f.release.finalWorks, 0),
                          Closing(w.records, CancelledRun, f.completion)),
                    if f.completion then PersistSuperseded else PersistThrew)
    case Finalized =>
      var m := Metadata(w.records, references, prepared, f);
      if m.ok then Persistence(w.(records := m.records), PersistCompleted)
      else if !f.failArtifacts then
        Persistence(World(Compensated(w.copies, prepared, [], f.release), m.records), PersistThrew)
      else
        Persistence(World(Compensated(w.copies, prepared, ReadyStorage(m.records.artifacts), f.release),
                          m.records.(artifacts := Failing(m.records.artifacts))), PersistThrew)
  }

  method PersistCompletedResult(store: FileStore, db: RunDatabase, references: seq<ReferenceId>,
                                prepared: seq<Prepared>, f: Faults)
    returns (outcome: Persisted)
    modifies store, db
    ensures Persistence(World(store.copies, db.records), outcome) ==
            Persist(World(old(store.copies), old(db.records)), references, prepared, f)
  {
    if f.finalization.FinalizeThrows? { return PersistThrew; }
    if f.finalization.Superseded? {
      var threw := Cleanup(store, prepared, map[], f.release);
      if threw { return PersistThrew; }
      var closed := db.Complete(CancelledRun, f.completion);
      return if closed then PersistSuperseded else PersistThrew;
    }
    var ok := RecordMetadata(db, references, prepared, f);
    if ok { return PersistCompleted; }
    var orphaned := db.FailArtifacts(f.failArtifacts);
    Compensate(store, prepared, orphaned, f.release);
    outcome := PersistThrew;
  }

  // ---- The event loop --------------------------------------------------------------------------------

  const PARTIAL_TEXT := 20_000

  /** What `persistTerminalStreamResult` saves. */
  function MessageOf(partial: string, status: RunStatus): Message {
    var text := Take(Trim(partial), PARTIAL_TEXT);
    Message(if text != "" then Partial(text)
            else if status == CancelledRun then CancelledNotice else IncompleteNotice, status)
  }

  function Saved(r: Records, partial: string, status: RunStatus): Records {
    r.(messages := r.messages + [MessageOf(partial, status)])
  }

  method PersistTerminal(db: RunDatabase, partial: string, status: RunStatus)
    modifies db
    ensures db.records == Saved(old(db.records), partial, status)
  {
    var content := Partial(Take(Trim(partial), PARTIAL_TEXT));
    if content.text == "" {
      content := if status == CancelledRun then CancelledNotice else IncompleteNotice;
    }
    db.SaveMessage(Message(content, status));
  }

  /** The generator between two events. */
  datatype State = State(world: World, yielded: seq<RunEvent>, partial: string)

  /** The generator left its `try` block: it returned or threw. */
  datatype Left = Left(state: State, threw: bool, terminalPersisted: bool)

  function OnCompleted(s: State, references: seq<ReferenceId>, f: Faults): Left {
    var prepared := Entries(references, f);
    var w := World(PreparedCopies(s.world.copies, references, f), s.world.records);
    if PreparationThrows(references, f) || f.workspace.WorkspaceThrows? then
      Left(s.(world := w), true, false)
    else
      var p := Persist(w, references, prepared, f);
      var after := s.(world := p.world);
      match p.outcome
      case PersistThrew => Left(after, true, false)
      case PersistSuperseded => Left(after.(yielded := s.yielded + [Cancelled]), false, true)
      case PersistCompleted =>
        if !f.audit then Left(after, true, true)
        else Left(after.(yielded := s.yielded + [Completed([])]), false, true)
  }

  function OnTerminal(s: State, e: RunEvent, f: Faults): Left {
    var status := if e.Cancelled? then CancelledRun else IncompleteRun;
    var saved := Saved(s.world.records, s.partial, status);
    if f.terminal.FinalizeThrows? then Left(s.(world := s.world.(records := saved)), true, false)
    else
      var closing := if f.terminal.Superseded? then CancelledRun else status;
      var w := s.world.(records := Closing(saved, closing, f.terminalCompletion));
      if !f.terminalCompletion then Left(s.(world := w), true, false)
      else Left(s.(world := w, yielded := s.yielded + [if f.terminal.Superseded? then Cancelled else e]),
                false, true)
  }

  /** The provider stream just ended. */
  function OnEnd(s: State, f: Faults): Left {
    if !f.streamEnds then Left(s, true, false)
    else
      var saved := Saved(s.world.records, s.partial, IncompleteRun);
      if f.terminal.FinalizeThrows? then Left(s.(world := s.world.(records := saved)), true, false)
      else Left(s.(world := s.world.(records := Closing(saved, IncompleteRun, f.terminalCompletion))),
                !f.terminalCompletion, false)
  }

  function Grown(partial: string, e: RunEvent): string {
    if e.Delta? && |partial| < PARTIAL_TEXT then partial + Take(e.text, PARTIAL_TEXT - |partial|)
    else partial
  }

  function Loop(s: State, events: seq<RunEvent>, f: Faults, k: nat): Left
    requires k <= |events|
    decreases |events| - k
  {
    if k == |events| then OnEnd(s, f)
    else if events[k].Completed? then OnCompleted(s, events[k].references, f)
    else if events[k].Cancelled? || events[k].Failed? then OnTerminal(s, events[k], f)
    else Loop(State(s.world, s.yielded + [events[k]], Grown(s.partial, events[k])), events, f, k + 1)
  }

  /** What the outer `catch` closes the run as. */
  function CatchStatus(f: Faults): RunStatus {
    if f.aborted then CancelledRun else FailedRun
  }

  /** The outer `catch`. */
  function Caught(l: Left, f: Faults): World {
    var status := CatchStatus(f);
    var saved := if l.terminalPersisted then l.state.world.records
                 else Saved(l.state.world.records, l.state.partial, status);
    l.state.world.(records := Closing(saved, status, f.finalCompletion))
  }

  datatype Trace = Trace(world: World, yielded: seq<RunEvent>, threw: bool)

  function InTry(w: World, events: seq<RunEvent>, f: Faults): Left {
    if !f.inputFiles then Left(State(w, [], ""), true, false)
    else Loop(State(w, [], ""), events, f, 0)
  }

  function Run(copies: Copies, events: seq<RunEvent>, f: Faults): Trace {
    var l := InTry(World(copies, Records([], [], [])), events, f);
    Trace(if l.threw then Caught(l, f) else l.state.world, l.state.yielded, l.threw)
  }

  // ---- The generator ------------------------------------------------------------------------------------

  function Append(yielded: seq<RunEvent>, e: Option<RunEvent>): seq<RunEvent> {
    if e.Some? then yielded + [e.value] else yielded
  }

  method HandleCompleted(store: FileStore, db: RunDatabase, references: seq<ReferenceId>, f: Faults,
                         ghost s: State)
    returns (terminal: Option<RunEvent>, terminalPersisted: bool)
    requires s.world == World(store.copies, db.records)
    modifies store, db
    ensures OnCompleted(s, references, f) ==
            Left(State(World(store.copies, db.records), Append(s.yielded, terminal), s.partial),
                 terminal.None?, terminalPersisted)
  {
    var threw, prepared := PrepareProviderArtifacts(store, references, f);
    if threw || f.workspace.WorkspaceThrows? { return None, false; }
    var outcome := PersistCompletedResult(store, db, references, prepared, f);
    match outcome
    case PersistThrew => return None, false;
    case PersistSuperseded => return Some(Cancelled), true;
    case PersistCompleted =>
      if !f.audit { return None, true; }
      return Some(Completed([])), true;
  }

  method HandleTerminal(db: RunDatabase, partial: string, e: RunEvent, f: Faults, ghost s: State)
    returns (terminal: Option<RunEvent>)
    requires s.world.records == db.records && s.partial == partial
    modifies db
    ensures OnTerminal(s, e, f) ==
            Left(State(s.world.(records := db.records), Append(s.yielded, terminal), partial),
                 terminal.None?, terminal.Some?)
  {
    var status := if e.Cancelled? then CancelledRun else IncompleteRun;
    PersistTerminal(db, partial, status);
    terminal := None;
    if f.terminal.FinalizeThrows? { return; }
    var superseded := f.terminal.Superseded?;
    var ok := db.Complete(if superseded then CancelledRun else status, f.terminalCompletion);
    if ok { terminal := Some(if superseded then Cancelled else e); }
  }

  method Process(store: FileStore, db: RunDatabase, events: seq<RunEvent>, f: Faults)
    returns (yielded: seq<RunEvent>, threw: bool)
    requires db.records == Records([], [], [])
    modifies store, db
    ensures Trace(World(store.copies, db.records), yielded, threw) ==
            Run(old(store.copies), events, f)
  {
    var partialText, terminalPersisted := "", false;
    yielded, threw := [], !f.inputFiles;
    ghost var goal := InTry(World(store.copies, db.records), events, f);
    var k := 0;
    while !threw && k < |events| && !events[k].Completed? && !events[k].Cancelled? && !events[k].Failed?
      invariant k <= |events|
      invariant threw == !f.inputFiles
      invariant !threw ==>
        Loop(State(World(store.copies, db.records), yielded, partialText), events, f, k) == goal
      invariant threw ==>
        Left(State(World(store.copies, db.records), yielded, partialText), true, false) == goal
    {
      partialText := Grown(partialText, events[k]);
      yielded := yielded + [events[k]];
      k := k + 1;
    }
    if !threw {
      ghost var s := State(World(store.copies, db.records), yielded, partialText);
      if k == |events| {
        threw := true;
        if f.streamEnds {
          PersistTerminal(db, partialText, IncompleteRun);
          if !f.terminal.FinalizeThrows? {
            var ok := db.Complete(IncompleteRun, f.terminalCompletion);
            threw := !ok;
          }
        }
      } else {
        var terminal;
        if events[k].Completed? {
          terminal, terminalPersisted := HandleCompleted(store, db, events[k].references, f, s);
        } else {
          terminal := HandleTerminal(db, partialText, events[k], f, s);
          terminalPersisted := terminal.Some?;
        }
        threw := terminal.None?;
        if terminal.Some? { yielded := yielded + [terminal.value]; }
      }
    }
    assert goal == Left(State(World(store.copies, db.records), yielded, partialText), threw, terminalPersisted);
    if threw {
      var status := if f.aborted then CancelledRun else FailedRun;
      if !terminalPersisted { PersistTerminal(db, partialText, status); }
      var ok := db.Complete(status, f.finalCompletion);
    }
  }
}
