/** A response run as a decision table: what the provider's first terminal event and the calls that
    fail decide about the outcome, the events yielded, the closing attempts and the messages saved.
    The table names only the calls; `RunFollowsTable` ties it to the generator for every run. */
module RunTable {
  import opened JsText
  import opened StoredArtifacts
  import opened ResponseRun
  import opened RunProperties
  import opened RunFiles

  /** The provider's events before its first terminal event. */
  function Streamed(events: seq<RunEvent>): seq<RunEvent> {
    if events == [] || Terminal(events[0]) then []
    else [events[0]] + Streamed(events[1..])
  }

  // ---- The table -------------------------------------------------------------------------------

  /** A superseded completion has stored files to release, and cannot read the settings for it. */
  predicate CannotRelease(references: seq<ReferenceId>, f: Faults) {
    RendersOne(references, f) && !f.release.finalSettingsWork
  }

  predicate CompletionThrows(references: seq<ReferenceId>, f: Faults) {
    || CannotPrepare(references, f) || f.workspace.WorkspaceThrows?
    || match f.finalization
       case FinalizeThrows => true
       case Superseded => CannotRelease(references, f) || !f.completion
       case Finalized => !RecordsWork(references, f) || !f.completion || !f.packet || !f.audit
  }

  predicate Throws(first: Option<RunEvent>, f: Faults) {
    || !f.inputFiles
    || match first
       case None => !f.streamEnds || f.terminal.FinalizeThrows? || !f.terminalCompletion
       case Some(Completed(references)) => CompletionThrows(references, f)
       case _ => f.terminal.FinalizeThrows? || !f.terminalCompletion
  }

  /** The last event of a run that returns: a superseded answer is reported as cancelled. */
  function LastEvent(first: Option<RunEvent>, f: Faults): seq<RunEvent> {
    match first
    case None => []
    case Some(Completed(_)) => if f.finalization.Superseded? then [Cancelled] else [Completed([])]
    case Some(e) => if f.terminal.Superseded? then [Cancelled] else [e]
  }

  /** The attempts to close the run before the outer handler makes its own. */
  function CompletionAttempts(references: seq<ReferenceId>, f: Faults): seq<Attempt> {
    if CannotPrepare(references, f) || f.workspace.WorkspaceThrows? then []
    else
      match f.finalization
      case FinalizeThrows => []
      case Superseded =>
        if CannotRelease(references, f) then [] else [Attempt(CancelledRun, f.completion)]
      case Finalized =>
        if RecordsWork(references, f) then [Attempt(CompletedRun, f.completion)] else []
  }

  function InnerAttempts(first: Option<RunEvent>, f: Faults): seq<Attempt> {
    match first
    case Some(Completed(references)) => CompletionAttempts(references, f)
    case None =>
      if !f.streamEnds || f.terminal.FinalizeThrows? then []
      else [Attempt(IncompleteRun, f.terminalCompletion)]
    case Some(e) =>
      match f.terminal
      case FinalizeThrows => []
      case Superseded => [Attempt(CancelledRun, f.terminalCompletion)]
      case Finalized =>
        [Attempt(if e.Cancelled? then CancelledRun else IncompleteRun, f.terminalCompletion)]
  }

  function FinalAttempt(f: Faults): Attempt {
    Attempt(if f.aborted then CancelledRun else FailedRun, f.finalCompletion)
  }

  /** The statuses of the messages saved before the outer handler: none for a completion. */
  function InnerMessages(first: Option<RunEvent>, f: Faults): seq<RunStatus> {
    match first
    case None => if f.streamEnds then [IncompleteRun] else []
    case Some(Completed(_)) => []
    case Some(e) => [if e.Cancelled? then CancelledRun else IncompleteRun]
  }

  /** The outer handler saves a message of its own unless the answer itself is already saved, which
      leaves only the audit record to fail. */
  predicate AnswerIsSaved(first: Option<RunEvent>, f: Faults) {
    && f.inputFiles && first.Some? && first.value.Completed?
    && CompletionWorks(first.value.references, f) && f.packet
  }

  function SavedStatuses(first: Option<RunEvent>, f: Faults): seq<RunStatus> {
    (if f.inputFiles then InnerMessages(first, f) else [])
    + if Throws(first, f) && !AnswerIsSaved(first, f)
      then [if f.aborted then CancelledRun else FailedRun] else []
  }

  predicate MessagesAre(messages: seq<Message>, statuses: seq<RunStatus>, text: string) {
    && |messages| == |statuses|
    && forall k :: 0 <= k < |messages| ==>
         messages[k].status == statuses[k] && Holds(messages[k], text)
  }

  // ---- The main result -------------------------------------------------------------------------

  /** Every run: it throws exactly when the table says so; it yields the provider's events up to the
      first terminal one, and then, if it returns, the last event of the table; it attempts to close
      its record as the table says, and once more, as cancelled or failed, if it throws; and it saves
      the text streamed, once for each status of the table. */
  lemma RunFollowsTable(copies: Copies, events: seq<RunEvent>, f: Faults)
    ensures var t, first := Run(copies, events, f), FirstTerminal(events);
            && (t.threw <==> Throws(first, f))
            && t.yielded == (if f.inputFiles then Streamed(events) else [])
                            + (if t.threw then [] else LastEvent(first, f))
            && t.world.records.attempts == (if f.inputFiles then InnerAttempts(first, f) else [])
                                           + (if t.threw then [FinalAttempt(f)] else [])
            && MessagesAre(t.world.records.messages, SavedStatuses(first, f),
                           if f.inputFiles then Take(StreamedText(Streamed(events)), 20_000) else "")
  {
    var l := InTry(World(copies, Records([], [], [])), events, f);
    var text := if f.inputFiles then Take(StreamedText(Streamed(events)), 20_000) else "";
    TrimIsNoLonger(text);
    if f.inputFiles {
      assert events[0..] == events && [] + Streamed(events) == Streamed(events);
      LoopFollows(State(World(copies, Records([], [], [])), [], ""), events, f, 0);
      if l.threw { CaughtFollows(l, Streamed(events), text, FirstTerminal(events), f); }
    } else {
      CaughtAtOnce(l, FirstTerminal(events), f);
    }
  }

  /** What the outer handler adds. */
  lemma CaughtFollows(l: Left, streamed: seq<RunEvent>, text: string, first: Option<RunEvent>, f: Faults)
    requires f.inputFiles && l.threw && Follows(l, streamed, text, first, f) && |text| <= 20_000
    ensures Caught(l, f).records.attempts == InnerAttempts(first, f) + [FinalAttempt(f)]
    ensures MessagesAre(Caught(l, f).records.messages, SavedStatuses(first, f), text)
  {
    MessageHolds(text, if f.aborted then CancelledRun else FailedRun);
  }

  lemma CaughtAtOnce(l: Left, first: Option<RunEvent>, f: Faults)
    requires !f.inputFiles && l.threw && !l.terminalPersisted && l.state.partial == ""
    requires l.state.world.records == Records([], [], [])
    ensures Caught(l, f).records.attempts == [FinalAttempt(f)]
    ensures MessagesAre(Caught(l, f).records.messages, SavedStatuses(first, f), "")
  {
    MessageHolds("", if f.aborted then CancelledRun else FailedRun);
  }

  lemma MessageHolds(text: string, status: RunStatus)
    requires |text| <= 20_000
    ensures MessageOf(text, status).status == status && Holds(MessageOf(text, status), text)
  {
    TrimIsNoLonger(text);
  }

  /** What the table says of the generator as it leaves its `try` block. */
  predicate Follows(l: Left, streamed: seq<RunEvent>, text: string, first: Option<RunEvent>, f: Faults) {
    && (l.threw <==> Throws(first, f))
    && (l.threw ==> (l.terminalPersisted <==> AnswerIsSaved(first, f)))
    && l.state.partial == text
    && l.state.yielded == streamed + (if l.threw then [] else LastEvent(first, f))
    && l.state.world.records.attempts == InnerAttempts(first, f)
    && MessagesAre(l.state.world.records.messages, InnerMessages(first, f), text)
  }

  lemma {:induction false} LoopFollows(s: State, events: seq<RunEvent>, f: Faults, k: nat)
    requires k <= |events| && f.inputFiles
    requires s.world.records == Records([], [], [])
    requires s.partial == Take(StreamedText(s.yielded), 20_000)
    ensures var streamed := s.yielded + Streamed(events[k..]);
            Follows(Loop(s, events, f, k), streamed, Take(StreamedText(streamed), 20_000),
                    FirstTerminal(events[k..]), f)
    decreases |events| - k
  {
    if k == |events| {
      assert s.yielded + [] == s.yielded;
      MessageHolds(s.partial, IncompleteRun);
    } else {
      var e := events[k];
      assert events[k..][0] == e && events[k..][1..] == events[k + 1..];
      if Terminal(e) {
        assert s.yielded + [] == s.yielded;
        if e.Completed? {
          CompletedFollows(s, e.references, f);
        } else {
          TerminalFollows(s, e, f);
        }
      } else {
        var y := s.yielded + [e];
        assert y[..|y| - 1] == s.yielded;
        GrownText(StreamedText(s.yielded), s.partial, e);
        LoopFollows(State(s.world, y, Grown(s.partial, e)), events, f, k + 1);
        Associate(s.yielded, [e], Streamed(events[k + 1..]));
      }
    }
  }

  lemma TerminalFollows(s: State, e: RunEvent, f: Faults)
    requires (e.Cancelled? || e.Failed?) && f.inputFiles && |s.partial| <= 20_000
    requires s.world.records == Records([], [], [])
    ensures Follows(OnTerminal(s, e, f), s.yielded, s.partial, Some(e), f)
  {
    MessageHolds(s.partial, if e.Cancelled? then CancelledRun else IncompleteRun);
    assert s.yielded + [] == s.yielded;
  }

  lemma {:induction false} SomethingStored(prepared: seq<Prepared>)
    requires forall k :: 0 <= k < |prepared| ==> AllOrNothing(prepared[k])
    ensures StoredIds(prepared) != [] <==> HasManifest(prepared)
  {
    if prepared != [] {
      SomethingStored(prepared[1..]);
      assert AllOrNothing(prepared[0]);
      assert prepared[0].manifest.Some? ==> HasManifest(prepared);
      assert forall k :: 0 < k < |prepared| ==> prepared[k] == prepared[1..][k - 1];
    }
  }

  /** With nothing released yet, something is due exactly when some file was stored. */
  lemma DueIffRendered(references: seq<ReferenceId>, f: Faults)
    ensures Due(Entries(references, f), map[]) != [] <==> RendersOne(references, f)
  {
    ManifestIsRendered(references, f);
    UnprovidedShape(references);
    EntriesAreShaped(references, Outputs(f, |references|));
    SomethingStored(Entries(references, f));
    NothingReleased(StoredIds(Entries(references, f)));
  }

  lemma {:induction false} NothingReleased(ids: seq<FileId>)
    ensures Unreleased(ids, map[]) == ids
  {
    if ids != [] {
      NothingReleased(ids[1..]);
    }
  }

  lemma CompletedFollows(s: State, references: seq<ReferenceId>, f: Faults)
    requires f.inputFiles && s.world.records == Records([], [], [])
    ensures Follows(OnCompleted(s, references, f), s.yielded, s.partial, Some(Completed(references)), f)
  {
    WithEmpty(s.yielded);
    if !CannotPrepare(references, f) && !f.workspace.WorkspaceThrows? {
      var w := World(PreparedCopies(s.world.copies, references, f), s.world.records);
      PersistFollows(w, references, f);
      PersistedLeaves(s, references, f, Persist(w, references, Entries(references, f), f));
    }
  }

  /** How a persisted completion leaves the generator. */
  lemma PersistedLeaves(s: State, references: seq<ReferenceId>, f: Faults, p: Persistence)
    requires !CannotPrepare(references, f) && !f.workspace.WorkspaceThrows?
    requires p == Persist(World(PreparedCopies(s.world.copies, references, f), s.world.records),
                          references, Entries(references, f), f)
    ensures var l := OnCompleted(s, references, f);
            && l.state.world == p.world && l.state.partial == s.partial
            && (l.threw <==> p.outcome.PersistThrew? || (p.outcome.PersistCompleted? && !f.audit))
            && (l.terminalPersisted <==> !p.outcome.PersistThrew?)
            && l.state.yielded == if l.threw then s.yielded
                                  else if p.outcome.PersistSuperseded? then s.yielded + [Cancelled]
                                  else s.yielded + [Completed([])]
  {
  }

  lemma PersistFollows(w: World, references: seq<ReferenceId>, f: Faults)
    requires w.records == Records([], [], [])
    requires !CannotPrepare(references, f) && !f.workspace.WorkspaceThrows?
    ensures var p := Persist(w, references, Entries(references, f), f);
            && p.world.records.attempts == CompletionAttempts(references, f)
            && p.world.records.messages == []
            && (p.outcome.PersistSuperseded? <==>
                  f.finalization.Superseded? && !CannotRelease(references, f) && f.completion)
            && (p.outcome.PersistCompleted? <==>
                  f.finalization.Finalized? && RecordsWork(references, f) && f.completion && f.packet)
  {
    DueIffRendered(references, f);
    MetadataIs(w.records, references, f);
  }

  /** A completion whose records fail leaves no artifact recorded as ready, if that call works. */
  lemma FailedRecordsLeaveNoneReady(copies: Copies, events: seq<RunEvent>, references: seq<ReferenceId>,
                                    f: Faults)
    requires f.inputFiles && FirstTerminal(events) == Some(Completed(references))
    requires f.failArtifacts && !(RecordsWork(references, f) && f.completion && f.packet)
    ensures ReadyStorage(Run(copies, events, f).world.records.artifacts) == []
  {
    var start := State(World(copies, Records([], [], [])), [], "");
    assert events[0..] == events;
    var s := ReachesCompletion(start, events, f, 0, references);
    var w := World(PreparedCopies(s.world.copies, references, f), s.world.records);
    PersistLeavesNoneReady(w, references, f);
    if !PreparationThrows(references, f) && !f.workspace.WorkspaceThrows? {
      CompletionPersists(s, references, f);
    }
  }

  lemma PersistLeavesNoneReady(w: World, references: seq<ReferenceId>, f: Faults)
    requires w.records == Records([], [], [])
    requires f.failArtifacts && !(RecordsWork(references, f) && f.completion && f.packet)
    ensures ReadyStorage(Persist(w, references, Entries(references, f), f).world.records.artifacts) == []
  {
    MetadataIs(w.records, references, f);
    FailingLeavesNone(Metadata(w.records, references, Entries(references, f), f).records.artifacts);
  }

  /** Only a completion touches the store. */
  lemma {:induction false} OnlyCompletionsStore(copies: Copies, events: seq<RunEvent>, f: Faults)
    requires !f.inputFiles || FirstTerminal(events).None? || !FirstTerminal(events).value.Completed?
    ensures Run(copies, events, f).world.copies == copies
  {
    var start := State(World(copies, Records([], [], [])), [], "");
    if f.inputFiles {
      assert events[0..] == events;
      LoopStoresNothing(start, events, f, 0);
    }
  }

  lemma {:induction false} LoopStoresNothing(s: State, events: seq<RunEvent>, f: Faults, k: nat)
    requires k <= |events|
    requires var first := FirstTerminal(events[k..]); first.None? || !first.value.Completed?
    ensures Loop(s, events, f, k).state.world.copies == s.world.copies
    decreases |events| - k
  {
    if k < |events| {
      assert events[k..][0] == events[k] && events[k..][1..] == events[k + 1..];
      if !Terminal(events[k]) {
        LoopStoresNothing(State(s.world, s.yielded + [events[k]], Grown(s.partial, events[k])),
                          events, f, k + 1);
      }
    }
  }
}
