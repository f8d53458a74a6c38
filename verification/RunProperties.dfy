/** What every response run keeps: the event yielded and the status the database keeps, and the
    partial text saved. */
module RunProperties {
  import opened JsText
  import opened StoredArtifacts
  import opened ResponseRun

  predicate Terminal(e: RunEvent) {
    e.Completed? || e.Cancelled? || e.Failed?
  }

  predicate Open(yielded: seq<RunEvent>) {
    forall k :: 0 <= k < |yielded| ==> !Terminal(yielded[k])
  }

  /** The status that goes with what was yielded. */
  function StatusFor(yielded: seq<RunEvent>): RunStatus {
    if Open(yielded) then IncompleteRun
    else
      match yielded[|yielded| - 1]
      case Completed(_) => CompletedRun
      case Cancelled => CancelledRun
      case _ => IncompleteRun
  }

  /** All but a final terminal event. */
  function Shown(yielded: seq<RunEvent>): seq<RunEvent> {
    if yielded != [] && Terminal(yielded[|yielded| - 1]) then yielded[..|yielded| - 1] else yielded
  }

  predicate LastAttempt(r: Records, status: RunStatus) {
    r.attempts != [] && r.attempts[|r.attempts| - 1].status == status
  }

  // ---- Which calls decide -----------------------------------------------------------------------------

  /** The provider's first terminal event, which ends the run. */
  function FirstTerminal(events: seq<RunEvent>): Option<RunEvent> {
    if events == [] then None
    else if Terminal(events[0]) then Some(events[0])
    else FirstTerminal(events[1..])
  }

  /** There is content to fetch, and the settings of the store cannot be read. */
  predicate CannotPrepare(references: seq<ReferenceId>, f: Faults) {
    f.openAi && f.contentProvider && references != [] && !f.preparationSettings
  }

  /** Some generated file was fetched, stored and given a manifest. */
  predicate RendersOne(references: seq<ReferenceId>, f: Faults) {
    && f.openAi && f.contentProvider && f.preparationSettings
    && exists k :: 0 <= k < |references| && f.output(k).Stored? && f.output(k).manifest.Rendered?
  }

  /** The workspace artifact stands for an executed tool call, and no generated file replaces it. */
  predicate RunsTool(references: seq<ReferenceId>, f: Faults) {
    !RendersOne(references, f) && f.workspace.Workspace? && f.workspace.executedTool
  }

  /** Every record before the closing of the run is written. */
  predicate RecordsWork(references: seq<ReferenceId>, f: Faults) {
    && f.earlierRecords && f.usage
    && (RunsTool(references, f) || forall k :: 0 <= k < |references| ==> f.artifactRecord(k))
  }

  /** The run gets as far as being closed as completed, and that call goes through. */
  predicate CompletionWorks(references: seq<ReferenceId>, f: Faults) {
    && !CannotPrepare(references, f) && !f.workspace.WorkspaceThrows?
    && f.finalization.Finalized? && RecordsWork(references, f) && f.completion
  }

  predicate CompletionGoesThrough(first: Option<RunEvent>, f: Faults) {
    first.Some? && first.value.Completed? && CompletionWorks(first.value.references, f)
  }

  lemma {:induction false} PreparedAt(references: seq<ReferenceId>, outputs: seq<Generated>, k: nat)
    requires |references| == |outputs| && k < |references|
    ensures |PreparedAll(references, outputs)| == |references|
    ensures PreparedAll(references, outputs)[k] == PreparedOf(references[k], outputs[k])
  {
    EntriesAreShaped(references, outputs);
    if k > 0 {
      PreparedAt(references[1..], outputs[1..], k - 1);
    }
  }

  lemma {:induction false} UnprovidedShape(references: seq<ReferenceId>)
    ensures Shaped(references, Unprovided(references)) && StoredIds(Unprovided(references)) == []
    ensures !HasManifest(Unprovided(references))
  {
    if references != [] {
      UnprovidedShape(references[1..]);
      StoredIdsCons(Without(references[0], ProviderUnavailable), Unprovided(references[1..]));
    }
  }

  /** One entry per reference, in order, all or nothing, whichever provider there is. */
  predicate Shaped(references: seq<ReferenceId>, prepared: seq<Prepared>) {
    && |prepared| == |references|
    && forall k :: 0 <= k < |prepared| ==>
         prepared[k].reference == references[k] && AllOrNothing(prepared[k])
  }

  lemma ManifestIsRendered(references: seq<ReferenceId>, f: Faults)
    ensures HasManifest(Entries(references, f)) <==> RendersOne(references, f)
    ensures Executed(Entries(references, f), f) <==> RunsTool(references, f)
  {
    UnprovidedShape(references);
    if Fetches(references, f) {
      var outputs := Outputs(f, |references|);
      EntriesAreShaped(references, outputs);
      forall k | 0 <= k < |references|
        ensures PreparedAll(references, outputs)[k].manifest.Some? <==>
                f.output(k).Stored? && f.output(k).manifest.Rendered?
      {
        PreparedAt(references, outputs, k);
      }
    }
  }

  lemma {:induction false} ArtifactsOnly(r: Records, references: seq<ReferenceId>,
                                         prepared: seq<Prepared>, f: Faults, k: nat)
    requires k <= |references|
    ensures var a := ArtifactsFrom(r, references, prepared, f, k);
            && a.records.attempts == r.attempts && a.records.messages == r.messages
            && (a.ok <==> forall j :: k <= j < |references| ==> f.artifactRecord(j))
    decreases |references| - k
  {
    if k < |references| && f.artifactRecord(k) {
      ArtifactsOnly(r.(artifacts := r.artifacts + [RecordFor(references[k], prepared)]),
                    references, prepared, f, k + 1);
    }
  }

  /** The metadata of a result: when it is all written, and what it does to the run record. */
  lemma MetadataIs(r: Records, references: seq<ReferenceId>, f: Faults)
    ensures var m := Metadata(r, references, Entries(references, f), f);
            && (m.ok <==> RecordsWork(references, f) && f.completion && f.packet)
            && m.records.messages == r.messages
            && m.records.attempts ==
               if RecordsWork(references, f) then r.attempts + [Attempt(CompletedRun, f.completion)]
               else r.attempts
  {
    ManifestIsRendered(references, f);
    var prepared := Entries(references, f);
    ArtifactsOnly(r, if Executed(prepared, f) then [] else references, prepared, f, 0);
  }

  // ---- Event and status -----------------------------------------------------------------------------

  /** In every run that returns or throws by itself: nothing follows a terminal event; what precedes
      it is the provider's stream, unchanged; a run that returns made exactly one attempt to close
      its record, which went through with the status of the terminal event (incomplete if the
      provider just ended); a run that throws yielded no terminal event and tried last to close its
      record as failed, or as cancelled if the signal was aborted. */
  lemma EventAndStatusAgree(copies: Copies, events: seq<RunEvent>, f: Faults)
    ensures var t := Run(copies, events, f);
            && Open(Shown(t.yielded)) && Shown(t.yielded) <= events
            && (!t.threw ==> t.world.records.attempts == [Attempt(StatusFor(t.yielded), true)])
            && (!t.threw && Open(t.yielded) ==> t.yielded == events)
            && (t.threw ==> Open(t.yielded))
            && (t.threw ==> LastAttempt(t.world.records,
                                        if f.aborted then CancelledRun else FailedRun))
  {
    var start := State(World(copies, Records([], [], [])), [], "");
    if f.inputFiles {
      LoopAgrees(start, events, f, 0);
    }
  }

  /** The status the database keeps.  For a run that returns it is the status of what was yielded.
      A run that throws is kept as failed or cancelled, or left open if that call fails too, except
      that it is kept as completed if and only if the closing of its completion went through; such
      a run throws exactly when the packet or the audit record fails after that. */
  lemma StatusKept(copies: Copies, events: seq<RunEvent>, f: Faults)
    ensures var t := Run(copies, events, f);
            var kept := Recorded(t.world.records.attempts);
            var closed := f.inputFiles && CompletionGoesThrough(FirstTerminal(events), f);
            && (!t.threw ==> kept == Some(StatusFor(t.yielded)))
            && (t.threw ==> kept == if closed then Some(CompletedRun)
                                    else if !f.finalCompletion then None
                                    else if f.aborted then Some(CancelledRun) else Some(FailedRun))
            && (closed ==> (t.threw <==> !f.packet || !f.audit))
  {
    EventAndStatusAgree(copies, events, f);
    var start := State(World(copies, Records([], [], [])), [], "");
    var l := InTry(start.world, events, f);
    if f.inputFiles {
      assert events[0..] == events;
      LoopCloses(start, events, f, 0);
    }
    RecordedThen(l.state.world.records.attempts, Attempt(CatchStatus(f), f.finalCompletion));
  }

  /** A run that fails to save its packet is kept as completed although it throws without a terminal
      event, and its artifacts are failed. */
  lemma PacketFailureKeepsCompleted(copies: Copies, events: seq<RunEvent>, f: Faults)
    requires f.inputFiles && CompletionGoesThrough(FirstTerminal(events), f) && !f.packet
    ensures var t := Run(copies, events, f);
            && t.threw && Open(t.yielded)
            && Recorded(t.world.records.attempts) == Some(CompletedRun)
            && t.world.records.attempts ==
               [Attempt(CompletedRun, true),
                Attempt(if f.aborted then CancelledRun else FailedRun, f.finalCompletion)]
            && (f.failArtifacts ==> ReadyStorage(t.world.records.artifacts) == [])
  {
    EventAndStatusAgree(copies, events, f);
    StatusKept(copies, events, f);
    var references := FirstTerminal(events).value.references;
    var start := State(World(copies, Records([], [], [])), [], "");
    assert events[0..] == events;
    var s := ReachesCompletion(start, events, f, 0, references);
    PacketFails(s, references, f);
  }

  lemma PacketFails(s: State, references: seq<ReferenceId>, f: Faults)
    requires CompletionWorks(references, f) && !f.packet && s.world.records.attempts == []
    ensures var l := OnCompleted(s, references, f);
            && l.threw && l.state.yielded == s.yielded
            && l.state.world.records.attempts == [Attempt(CompletedRun, true)]
            && (f.failArtifacts ==> ReadyStorage(l.state.world.records.artifacts) == [])
  {
    MetadataIs(s.world.records, references, f);
    var m := Metadata(s.world.records, references, Entries(references, f), f);
    FailingLeavesNone(m.records.artifacts);
  }

  lemma {:induction false} FailingLeavesNone(artifacts: seq<ArtifactRecord>)
    ensures ReadyStorage(Failing(artifacts)) == []
  {
    if artifacts != [] {
      FailingLeavesNone(artifacts[1..]);
      var one := if artifacts[0].ready then artifacts[0].(storage := None, ready := false)
                 else artifacts[0];
      assert Failing(artifacts) == [one] + Failing(artifacts[1..]);
      assert ([one] + Failing(artifacts[1..]))[1..] == Failing(artifacts[1..]);
    }
  }

  lemma {:induction false} ReachesCompletion(s: State, events: seq<RunEvent>, f: Faults, i: nat,
                                             references: seq<ReferenceId>)
    returns (reached: State)
    requires i <= |events| && FirstTerminal(events[i..]) == Some(Completed(references))
    requires Open(s.yielded)
    ensures Open(reached.yielded) && reached.world == s.world
    ensures Loop(s, events, f, i) == OnCompleted(reached, references, f)
    decreases |events| - i
  {
    assert events[i..][0] == events[i] && events[i..][1..] == events[i + 1..];
    if Terminal(events[i]) {
      reached := s;
    } else {
      var next := State(s.world, s.yielded + [events[i]], Grown(s.partial, events[i]));
      reached := ReachesCompletion(next, events, f, i + 1, references);
    }
  }

  lemma {:induction false} RecordedThen(attempts: seq<Attempt>, last: Attempt)
    ensures Recorded(attempts + [last]) ==
            if Recorded(attempts).Some? then Recorded(attempts)
            else if last.ok then Some(last.status) else None
  {
    if attempts != [] {
      assert (attempts + [last])[1..] == attempts[1..] + [last];
      RecordedThen(attempts[1..], last);
    }
  }

  /** What the attempts made inside the `try` block have fixed by the time the run leaves it. */
  predicate Closes(l: Left, closed: bool, f: Faults) {
    && (l.threw ==> Recorded(l.state.world.records.attempts) ==
                    if closed then Some(CompletedRun) else None)
    && (closed ==> (l.threw <==> !f.packet || !f.audit))
  }

  lemma {:induction false} LoopCloses(s: State, events: seq<RunEvent>, f: Faults, k: nat)
    requires k <= |events| && s.world.records.attempts == []
    ensures Closes(Loop(s, events, f, k), CompletionGoesThrough(FirstTerminal(events[k..]), f), f)
    decreases |events| - k
  {
    if k == |events| {
    } else {
      assert events[k..][0] == events[k] && events[k..][1..] == events[k + 1..];
      if events[k].Completed? {
        CompletedCloses(s, events[k].references, f);
      } else if Terminal(events[k]) {
        TerminalCloses(s, events[k], f);
      } else {
        LoopCloses(State(s.world, s.yielded + [events[k]], Grown(s.partial, events[k])), events, f,
                   k + 1);
      }
    }
  }

  lemma TerminalCloses(s: State, e: RunEvent, f: Faults)
    requires s.world.records.attempts == []
    ensures Closes(OnTerminal(s, e, f), false, f)
  {
  }

  lemma CompletedCloses(s: State, references: seq<ReferenceId>, f: Faults)
    requires s.world.records.attempts == []
    ensures Closes(OnCompleted(s, references, f), CompletionWorks(references, f), f)
  {
    MetadataIs(s.world.records, references, f);
  }

  predicate Agrees(l: Left, events: seq<RunEvent>) {
    var y := l.state.yielded;
    && Open(Shown(y)) && Shown(y) <= events
    && (!l.threw ==> l.state.world.records.attempts == [Attempt(StatusFor(y), true)])
    && (!l.threw && Open(y) ==> y == events)
    && (l.threw ==> Open(y))
  }

  lemma {:induction false} LoopAgrees(s: State, events: seq<RunEvent>, f: Faults, k: nat)
    requires k <= |events| && s.yielded == events[..k] && Open(s.yielded)
    requires s.world.records.attempts == []
    ensures Agrees(Loop(s, events, f, k), events)
    decreases |events| - k
  {
    if k == |events| {
      assert s.yielded == events;
      EndAgrees(s, events, f);
    } else if events[k].Completed? {
      CompletedAgrees(s, events[k].references, events, f);
    } else if Terminal(events[k]) {
      TerminalAgrees(s, events[k], events, f);
    } else {
      assert events[..k + 1] == s.yielded + [events[k]];
      LoopAgrees(State(s.world, s.yielded + [events[k]], Grown(s.partial, events[k])), events, f, k + 1);
    }
  }

  lemma EndAgrees(s: State, events: seq<RunEvent>, f: Faults)
    requires s.yielded == events && Open(events) && s.world.records.attempts == []
    ensures Agrees(OnEnd(s, f), events)
  {
  }

  lemma ShownThenTerminal(yielded: seq<RunEvent>, e: RunEvent)
    requires Open(yielded) && Terminal(e)
    ensures Shown(yielded + [e]) == yielded && !Open(yielded + [e]) && Shown(yielded) == yielded
    ensures StatusFor(yielded + [e]) == if e.Completed? then CompletedRun
                                        else if e.Cancelled? then CancelledRun else IncompleteRun
  {
    assert (yielded + [e])[|yielded|] == e;
  }

  lemma TerminalAgrees(s: State, e: RunEvent, events: seq<RunEvent>, f: Faults)
    requires e.Cancelled? || e.Failed?
    requires s.yielded <= events && Open(s.yielded) && s.world.records.attempts == []
    ensures Agrees(OnTerminal(s, e, f), events)
  {
    var l := OnTerminal(s, e, f);
    var last := if f.terminal.Superseded? then Cancelled else e;
    ShownThenTerminal(s.yielded, last);
    assert l.state.yielded == if l.threw then s.yielded else s.yielded + [last];
  }

  lemma CompletedAgrees(s: State, references: seq<ReferenceId>, events: seq<RunEvent>, f: Faults)
    requires s.yielded <= events && Open(s.yielded) && s.world.records.attempts == []
    ensures Agrees(OnCompleted(s, references, f), events)
  {
    ShownThenTerminal(s.yielded, Completed([]));
    ShownThenTerminal(s.yielded, Cancelled);
    var w := World(PreparedCopies(s.world.copies, references, f), s.world.records);
    PersistCloses(w, references, Entries(references, f), f);
  }

  lemma PersistCloses(w: World, references: seq<ReferenceId>, prepared: seq<Prepared>, f: Faults)
    requires w.records.attempts == []
    ensures var p := Persist(w, references, prepared, f);
            && (p.outcome.PersistSuperseded? ==> p.world.records.attempts == [Attempt(CancelledRun, true)])
            && (p.outcome.PersistCompleted? ==> p.world.records.attempts == [Attempt(CompletedRun, true)])
  {
    ArtifactsOnly(w.records, if Executed(prepared, f) then [] else references, prepared, f, 0);
  }

  // ---- The partial text -------------------------------------------------------------------------------

  function StreamedText(events: seq<RunEvent>): string {
    if events == [] then ""
    else
      var last := events[|events| - 1];
      StreamedText(events[..|events| - 1]) + if last.Delta? then last.text else ""
  }

  /** The message holds the trimmed text, or the notice of its status if that is empty. */
  predicate Holds(m: Message, text: string) {
    && (Trim(text) != "" ==> m.content == Partial(Trim(text)))
    && (Trim(text) == "" ==>
          m.content == if m.status.CancelledRun? then CancelledNotice else IncompleteNotice)
  }

  lemma TrimIsNoLonger(s: string)
    ensures |TrimStart(s)| <= |s| && |Trim(s)| <= |s|
  {
    if s != "" && IsSpace(s[0]) { TrimIsNoLonger(s[1..]); }
  }

  /** Every message saved for a run without a result holds the text shown so far, cut at 20,000
      characters, or the fallback of its status. */
  lemma SavedTextIsShownText(copies: Copies, events: seq<RunEvent>, f: Faults)
    ensures var t := Run(copies, events, f);
            var text := Take(StreamedText(Shown(t.yielded)), PARTIAL_TEXT);
            forall m :: m in t.world.records.messages ==> Holds(m, text)
  {
    var start := State(World(copies, Records([], [], [])), [], "");
    var t := Run(copies, events, f);
    if f.inputFiles {
      LoopSaves(start, events, f, 0);
    }
    TrimIsNoLonger(Take(StreamedText(Shown(t.yielded)), PARTIAL_TEXT));
  }

  predicate Saves(l: Left) {
    && l.state.partial == Take(StreamedText(Shown(l.state.yielded)), PARTIAL_TEXT)
    && forall m :: m in l.state.world.records.messages ==>
         m == MessageOf(l.state.partial, m.status)
  }

  lemma {:induction false} LoopSaves(s: State, events: seq<RunEvent>, f: Faults, k: nat)
    requires k <= |events| && Open(s.yielded) && s.world.records.messages == []
    requires s.partial == Take(StreamedText(s.yielded), PARTIAL_TEXT)
    ensures Saves(Loop(s, events, f, k))
    decreases |events| - k
  {
    if k == |events| {
      EndSaves(s, f);
    } else if events[k].Completed? {
      CompletedSaves(s, events[k].references, f);
    } else if Terminal(events[k]) {
      TerminalSaves(s, events[k], f);
    } else {
      var y := s.yielded + [events[k]];
      assert y[..|y| - 1] == s.yielded;
      GrownText(StreamedText(s.yielded), s.partial, events[k]);
      LoopSaves(State(s.world, y, Grown(s.partial, events[k])), events, f, k + 1);
    }
  }

  lemma GrownText(text: string, partial: string, e: RunEvent)
    requires partial == Take(text, PARTIAL_TEXT)
    ensures Grown(partial, e) == Take(text + if e.Delta? then e.text else "", PARTIAL_TEXT)
  {
    if e.Delta? {
      var n := PARTIAL_TEXT - |partial|;
      if |text| < PARTIAL_TEXT {
        assert Take(text + e.text, PARTIAL_TEXT) == text + Take(e.text, n);
      } else {
        assert text[..PARTIAL_TEXT] == (text + e.text)[..PARTIAL_TEXT];
      }
    } else {
      assert text + "" == text;
    }
  }

  lemma EndSaves(s: State, f: Faults)
    requires Open(s.yielded) && s.world.records.messages == []
    requires s.partial == Take(StreamedText(s.yielded), PARTIAL_TEXT)
    ensures Saves(OnEnd(s, f))
  {
    var l := OnEnd(s, f);
    assert l.state.yielded == s.yielded && Shown(s.yielded) == s.yielded;
    assert l.state.world.records.messages ==
           if f.streamEnds then [MessageOf(s.partial, IncompleteRun)] else [];
  }

  lemma TerminalSaves(s: State, e: RunEvent, f: Faults)
    requires Open(s.yielded) && (e.Cancelled? || e.Failed?) && s.world.records.messages == []
    requires s.partial == Take(StreamedText(s.yielded), PARTIAL_TEXT)
    ensures Saves(OnTerminal(s, e, f))
  {
    var l := OnTerminal(s, e, f);
    var last := if f.terminal.Superseded? then Cancelled else e;
    ShownThenTerminal(s.yielded, last);
    assert l.state.yielded == if l.threw then s.yielded else s.yielded + [last];
    TerminalMessage(s, e, f);
  }

  lemma TerminalMessage(s: State, e: RunEvent, f: Faults)
    requires (e.Cancelled? || e.Failed?) && s.world.records.messages == []
    ensures var status := if e.Cancelled? then CancelledRun else IncompleteRun;
            OnTerminal(s, e, f).state.world.records.messages == [MessageOf(s.partial, status)]
  {
  }

  lemma CompletedSaves(s: State, references: seq<ReferenceId>, f: Faults)
    requires Open(s.yielded) && s.world.records.messages == []
    requires s.partial == Take(StreamedText(s.yielded), PARTIAL_TEXT)
    ensures Saves(OnCompleted(s, references, f))
  {
    CompletedShows(s, references, f);
    var w := World(PreparedCopies(s.world.copies, references, f), s.world.records);
    PersistSavesNothing(w, references, Entries(references, f), f);
  }

  lemma CompletedShows(s: State, references: seq<ReferenceId>, f: Faults)
    requires Open(s.yielded)
    ensures var l := OnCompleted(s, references, f);
            Shown(l.state.yielded) == s.yielded && l.state.partial == s.partial
  {
    ShownThenTerminal(s.yielded, Completed([]));
    ShownThenTerminal(s.yielded, Cancelled);
  }

  lemma PersistSavesNothing(w: World, references: seq<ReferenceId>, prepared: seq<Prepared>, f: Faults)
    ensures Persist(w, references, prepared, f).world.records.messages == w.records.messages
  {
    ArtifactsOnly(w.records, if Executed(prepared, f) then [] else references, prepared, f, 0);
  }
}
