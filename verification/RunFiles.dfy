/** Where the stored files of a response run end up: recorded as ready, released exactly as often as
    they were stored, or left to retention cleanup; and why that needs distinct reference ids. */
module RunFiles {
  import opened JsText
  import opened StoredArtifacts
  import opened ResponseRun
  import opened RunProperties

  predicate Distinct(references: seq<ReferenceId>) {
    forall i, j :: 0 <= i < j < |references| ==> references[i] != references[j]
  }

  /** The first terminal event of the provider's stream is the completion with these references. */
  predicate CompletesWith(events: seq<RunEvent>, references: seq<ReferenceId>) {
    FirstTerminal(events) == Some(Completed(references))
  }

  predicate EndsCompleted(t: Trace) {
    t.yielded != [] && t.yielded[|t.yielded| - 1].Completed?
  }

  /** A completed run keeps its files; so do the paths that throw before the answer is finalised,
      which leave them to retention cleanup.  Supersession and metadata failures release them. */
  predicate KeepsFiles(references: seq<ReferenceId>, f: Faults) {
    || f.workspace.WorkspaceThrows? || f.finalization.FinalizeThrows?
    || (f.finalization.Finalized? && RecordsWork(references, f) && f.completion && f.packet)
  }

  ghost predicate FinalDeletesWork(f: Faults) {
    f.release.finalSettingsWork && forall k :: f.release.finalWorks(k)
  }

  // ---- The main results --------------------------------------------------------------------------------

  /** Every stored file of this run is recorded as ready, in order, if it ends completed. */
  predicate RecordsFiles(copies: Copies, events: seq<RunEvent>, references: seq<ReferenceId>,
                         f: Faults) {
    var t := Run(copies, events, f);
    EndsCompleted(t) ==>
      ReadyStorage(t.world.records.artifacts) == StoredIds(Entries(references, f))
  }

  /** A run that ends completed has recorded every stored file as ready, in order, and kept it,
      whatever fails on the way, if and only if no reference id repeats. */
  lemma CompletedRunRecordsFilesExactly(copies: Copies, events: seq<RunEvent>,
                                        references: seq<ReferenceId>)
    requires CompletesWith(events, references)
    ensures (forall f: Faults :: f.inputFiles ==> RecordsFiles(copies, events, references, f)) <==>
            Distinct(references)
  {
    if Distinct(references) {
      forall f: Faults | f.inputFiles ensures RecordsFiles(copies, events, references, f) {
        if EndsCompleted(Run(copies, events, f)) {
          CompletedRunRecordsFiles(copies, events, references, f);
        }
      }
    } else {
      var i, j :| 0 <= i < j < |references| && references[i] == references[j];
      RepeatedIdLosesAFile(copies, events, references, i, j);
    }
  }

  lemma CompletedRunRecordsFiles(copies: Copies, events: seq<RunEvent>, references: seq<ReferenceId>, f: Faults)
    requires f.inputFiles && CompletesWith(events, references) && Distinct(references)
    requires EndsCompleted(Run(copies, events, f))
    ensures var t := Run(copies, events, f);
            && ReadyStorage(t.world.records.artifacts) == StoredIds(Entries(references, f))
            && t.world.copies == PreparedCopies(copies, references, f)
  {
    var start := State(World(copies, Records([], [], [])), [], "");
    assert events[0..] == events;
    var s := ReachesCompletion(start, events, f, 0, references);
    CompletionIsRecorded(s, references, f);
    EntriesShape(references, f);
    MetadataRecords(s.world.records, references, Entries(references, f), f);
  }

  /** The run that fails for a repeated id: every call works, and all references but the later
      duplicate `j` are stored as file "a", which is another file than its "b". */
  function RepeatedRun(j: nat, packet: bool): Faults {
    Faults(true, true, false, true, true, true, k => StoredAs(if k == j then "b" else "a"),
           NoWorkspace, Finalized, true, k => true, true, packet, true,
           Release(true, k => true, true, k => true), true, true, Finalized, true, true)
  }

  function StoredAs(id: FileId): Generated {
    Stored(id, Rendered, true, true)
  }

  /** With a repeated id, that run ends completed, has stored "b", and has no ready record of it. */
  lemma RepeatedIdLosesAFile(copies: Copies, events: seq<RunEvent>, references: seq<ReferenceId>,
                             i: nat, j: nat)
    requires CompletesWith(events, references)
    requires i < j < |references| && references[i] == references[j]
    ensures var f := RepeatedRun(j, true);
            var t := Run(copies, events, f);
            && f.inputFiles && EndsCompleted(t)
            && "b" in StoredIds(Entries(references, f))
            && "b" !in ReadyStorage(t.world.records.artifacts)
            && !RecordsFiles(copies, events, references, f)
  {
    var f := RepeatedRun(j, true);
    var start := State(World(copies, Records([], [], [])), [], "");
    assert events[0..] == events;
    var s := ReachesCompletion(start, events, f, 0, references);
    MetadataIs(s.world.records, references, f);
    RepeatedRecords(s.world.records, references, f, i, j);
  }

  /** Where the files of this completion end up: the run keeps what preparation left in the store, or
      releases the id exactly as often as it was stored. */
  predicate KeepsOrReleases(copies: Copies, events: seq<RunEvent>, references: seq<ReferenceId>,
                            f: Faults, id: FileId) {
    Held(Run(copies, events, f).world.copies, id) ==
    Held(PreparedCopies(copies, references, f), id)
    - if KeepsFiles(references, f) then 0 else Times(StoredIds(Entries(references, f)), id)
  }

  /** Conservation over whole runs: every completion whose final deletes work keeps its files or
      releases each exactly as often as it was stored, whichever other calls fail, if and only if no
      reference id repeats. */
  lemma FilesAreKeptOrReleasedExactly(events: seq<RunEvent>, references: seq<ReferenceId>)
    requires CompletesWith(events, references)
    ensures (forall copies: Copies, f: Faults, id: FileId :: f.inputFiles && FinalDeletesWork(f) ==>
               KeepsOrReleases(copies, events, references, f, id)) <==> Distinct(references)
  {
    if Distinct(references) {
      forall copies: Copies, f: Faults, id: FileId | f.inputFiles && FinalDeletesWork(f)
        ensures KeepsOrReleases(copies, events, references, f, id)
      {
        FilesAreKeptOrReleased(copies, events, references, f, id);
      }
    } else {
      var i, j :| 0 <= i < j < |references| && references[i] == references[j];
      RepeatedIdReleasesTooMuch(events, references, i, j);
      assert FinalDeletesWork(RepeatedRun(j, false)) && RepeatedRun(j, false).inputFiles;
    }
  }

  lemma FilesAreKeptOrReleased(copies: Copies, events: seq<RunEvent>, references: seq<ReferenceId>,
                               f: Faults, id: FileId)
    requires f.inputFiles && CompletesWith(events, references) && Distinct(references)
    requires FinalDeletesWork(f)
    ensures KeepsOrReleases(copies, events, references, f, id)
  {
    var start := State(World(copies, Records([], [], [])), [], "");
    assert events[0..] == events;
    var s := ReachesCompletion(start, events, f, 0, references);
    CompletionHolds(s, references, f, id);
  }

  /** Whatever fails, the final deletes included, no file is released more often than it was stored. */
  lemma NeverOverReleased(copies: Copies, events: seq<RunEvent>, references: seq<ReferenceId>,
                          f: Faults, id: FileId)
    requires f.inputFiles && CompletesWith(events, references) && Distinct(references)
    ensures var left := Held(Run(copies, events, f).world.copies, id);
            var prepared := Held(PreparedCopies(copies, references, f), id);
            prepared - Times(StoredIds(Entries(references, f)), id) <= left <= prepared
  {
    var start := State(World(copies, Records([], [], [])), [], "");
    assert events[0..] == events;
    var s := ReachesCompletion(start, events, f, 0, references);
    var w := World(PreparedCopies(s.world.copies, references, f), s.world.records);
    PreparedHolds(s.world.copies, references, f, id);
    if !PreparationThrows(references, f) && !f.workspace.WorkspaceThrows? {
      PersistReleases(w, references, f, id);
      CompletionPersists(s, references, f);
    }
  }

  /** With a repeated id, a failing packet releases file "a", of which the store held a copy before,
      once too often. */
  lemma RepeatedIdReleasesTooMuch(events: seq<RunEvent>, references: seq<ReferenceId>, i: nat, j: nat)
    requires CompletesWith(events, references)
    requires i < j < |references| && references[i] == references[j]
    ensures !KeepsOrReleases(map["a" := 1], events, references, RepeatedRun(j, false), "a")
  {
    var f, copies: Copies := RepeatedRun(j, false), map["a" := 1];
    var start := State(World(copies, Records([], [], [])), [], "");
    assert events[0..] == events;
    var s := ReachesCompletion(start, events, f, 0, references);
    RepeatedCompletion(s, references, i, j);
  }

  lemma RepeatedCompletion(s: State, references: seq<ReferenceId>, i: nat, j: nat)
    requires i < j < |references| && references[i] == references[j]
    requires s.world == World(map["a" := 1], Records([], [], []))
    ensures var f := RepeatedRun(j, false);
            var l := OnCompleted(s, references, f);
            && l.threw
            && Held(l.state.world.copies, "a") !=
               Held(PreparedCopies(s.world.copies, references, f), "a")
               - Times(StoredIds(Entries(references, f)), "a")
  {
    var f := RepeatedRun(j, false);
    var copies := PreparedCopies(s.world.copies, references, f);
    RepeatedRecords(s.world.records, references, f, i, j);
    PreparedHolds(s.world.copies, references, f, "a");
    NothingLeaks(j, false, |references|);
    assert Held(copies, "a") == |references|;
    RepeatedPersist(World(copies, s.world.records), references, i, j);
    CompletionPersists(s, references, f);
  }

  lemma RepeatedPersist(w: World, references: seq<ReferenceId>, i: nat, j: nat)
    requires i < j < |references| && references[i] == references[j]
    requires w.records == Records([], [], [])
    ensures var f := RepeatedRun(j, false);
            var stored := StoredIds(Entries(references, f));
            var p := Persist(w, references, Entries(references, f), f);
            && p.outcome.PersistThrew?
            && (Held(w.copies, "a") == |references| ==>
                  Held(p.world.copies, "a") != Held(w.copies, "a") - Times(stored, "a"))
  {
    var f := RepeatedRun(j, false);
    var prepared := Entries(references, f);
    MetadataIs(w.records, references, f);
    RepeatedRecords(w.records, references, f, i, j);
    if Held(w.copies, "a") == |references| {
      var orphaned := ReadyStorage(Metadata(w.records, references, prepared, f).records.artifacts);
      ContainmentIsNeeded(w.copies, prepared, orphaned, f.release, "a");
    }
  }

  lemma CompletionPersists(s: State, references: seq<ReferenceId>, f: Faults)
    requires !PreparationThrows(references, f) && !f.workspace.WorkspaceThrows?
    ensures var w := World(PreparedCopies(s.world.copies, references, f), s.world.records);
            var p := Persist(w, references, Entries(references, f), f);
            var l := OnCompleted(s, references, f);
            l.state.world == p.world && (p.outcome.PersistThrew? ==> l.threw)
  {
  }

  // ---- Completion --------------------------------------------------------------------------------------

  lemma CompletionHolds(s: State, references: seq<ReferenceId>, f: Faults, id: FileId)
    requires Distinct(references) && FinalDeletesWork(f) && s.world.records == Records([], [], [])
    ensures Held(OnCompleted(s, references, f).state.world.copies, id) ==
            Held(PreparedCopies(s.world.copies, references, f), id)
            - if KeepsFiles(references, f) then 0 else Times(StoredIds(Entries(references, f)), id)
  {
    var w := World(PreparedCopies(s.world.copies, references, f), s.world.records);
    PreparedHolds(s.world.copies, references, f, id);
    if !PreparationThrows(references, f) && !f.workspace.WorkspaceThrows? {
      PersistHolds(w, references, f, id);
      CompletionPersists(s, references, f);
    }
  }

  /** What preparation leaves in the store: the stored files of its entries, and the files whose
      immediate deletes failed. */
  lemma PreparedHolds(copies: Copies, references: seq<ReferenceId>, f: Faults, id: FileId)
    ensures Held(PreparedCopies(copies, references, f), id) ==
            Held(copies, id) + Times(StoredIds(Entries(references, f)), id)
            + if Fetches(references, f) then Times(Leaked(Outputs(f, |references|)), id) else 0
  {
    UnprovidedShape(references);
    AddedAreEntriesOrLeaks(copies, references, Outputs(f, |references|), id);
  }

  lemma CompletionIsRecorded(s: State, references: seq<ReferenceId>, f: Faults)
    requires Open(s.yielded) && EndsCompleted(Trace(s.world, OnCompleted(s, references, f).state.yielded, false))
    ensures var l := OnCompleted(s, references, f);
            var m := Metadata(s.world.records, references, Entries(references, f), f);
            && !l.threw && m.ok
            && l.state.world == World(PreparedCopies(s.world.copies, references, f), m.records)
  {
  }

  lemma EntriesShape(references: seq<ReferenceId>, f: Faults)
    ensures Entries(references, f) == [] || Shaped(references, Entries(references, f))
  {
    UnprovidedShape(references);
    EntriesAreShaped(references, Outputs(f, |references|));
  }

  lemma {:induction false} FindDistinct(references: seq<ReferenceId>, prepared: seq<Prepared>, k: nat)
    requires Distinct(references) && Shaped(references, prepared) && k < |references|
    ensures Find(prepared, references[k]) == Some(prepared[k])
  {
    if k > 0 {
      assert prepared[0].reference != references[k];
      FindDistinct(references[1..], prepared[1..], k - 1);
    }
  }

  lemma {:induction false} ReadyConcat(a: seq<ArtifactRecord>, b: seq<ArtifactRecord>)
    ensures ReadyStorage(a + b) == ReadyStorage(a) + ReadyStorage(b)
  {
    if a == [] {
      assert a + b == b;
    } else {
      assert (a + b)[1..] == a[1..] + b;
      ReadyConcat(a[1..], b);
    }
  }

  /** The records written from reference `k` on orphan the stored files of some first entries, and of
      all of them if every record was written. */
  lemma {:induction false} RecordedStorage(r: Records, references: seq<ReferenceId>,
                                           prepared: seq<Prepared>, f: Faults, k: nat)
    requires Distinct(references) && Shaped(references, prepared) && k <= |references|
    ensures var a := ArtifactsFrom(r, references, prepared, f, k);
            var ready := ReadyStorage(a.records.artifacts);
            && ready <= ReadyStorage(r.artifacts) + StoredIds(prepared[k..])
            && (a.ok ==> ready == ReadyStorage(r.artifacts) + StoredIds(prepared[k..]))
    decreases |references| - k
  {
    if k == |references| {
      assert ReadyStorage(r.artifacts) + [] == ReadyStorage(r.artifacts);
    } else if f.artifactRecord(k) {
      var record := RecordFor(references[k], prepared);
      RecordedStorage(r.(artifacts := r.artifacts + [record]), references, prepared, f, k + 1);
      FindDistinct(references, prepared, k);
      assert AllOrNothing(prepared[k]);
      OneRecord(r.artifacts, record, prepared, k);
    }
  }

  lemma OneRecord(artifacts: seq<ArtifactRecord>, record: ArtifactRecord, prepared: seq<Prepared>, k: nat)
    requires k < |prepared| && AllOrNothing(prepared[k])
    requires record.storage == prepared[k].stored && record.ready == prepared[k].stored.Some?
    ensures ReadyStorage(artifacts + [record]) + StoredIds(prepared[k + 1..]) ==
            ReadyStorage(artifacts) + StoredIds(prepared[k..])
  {
    var p := prepared[k];
    ReadyConcat(artifacts, [record]);
    assert ReadyStorage([record]) == StoredId(p);
    assert prepared[k..] == [p] + prepared[k + 1..];
    StoredIdsCons(p, prepared[k + 1..]);
    Associate(ReadyStorage(artifacts), StoredId(p), StoredIds(prepared[k + 1..]));
  }

  lemma {:induction false} NoManifestNoFile(references: seq<ReferenceId>, prepared: seq<Prepared>)
    requires Shaped(references, prepared) && !HasManifest(prepared)
    ensures StoredIds(prepared) == []
  {
    if prepared != [] {
      assert prepared[0].manifest.None? && AllOrNothing(prepared[0]);
      assert forall k :: 0 <= k < |prepared[1..]| ==> prepared[1..][k] == prepared[k + 1];
      NoManifestNoFile(references[1..], prepared[1..]);
    }
  }

  /** An executed workspace tool call, for which the artifact records are skipped, never coexists
      with a stored provider file. */
  lemma ExecutedToolHasNoFile(references: seq<ReferenceId>, f: Faults)
    requires Executed(Entries(references, f), f)
    ensures StoredIds(Entries(references, f)) == []
  {
    EntriesShape(references, f);
    if Entries(references, f) != [] { NoManifestNoFile(references, Entries(references, f)); }
  }

  lemma MetadataRecords(r: Records, references: seq<ReferenceId>, prepared: seq<Prepared>, f: Faults)
    requires Distinct(references) && r.artifacts == []
    requires prepared == [] || Shaped(references, prepared)
    ensures var m := Metadata(r, references, prepared, f);
            && ReadyStorage(m.records.artifacts) <= StoredIds(prepared)
            && (m.ok ==> ReadyStorage(m.records.artifacts) == StoredIds(prepared))
  {
    if Executed(prepared, f) {
      if prepared != [] { NoManifestNoFile(references, prepared); }
    } else if prepared == [] {
      UnpreparedStorage(r, references, f, 0);
    } else {
      RecordedStorage(r, references, prepared, f, 0);
      assert prepared[0..] == prepared;
      assert [] + StoredIds(prepared) == StoredIds(prepared);
    }
  }

  lemma {:induction false} UnpreparedStorage(r: Records, references: seq<ReferenceId>, f: Faults, k: nat)
    requires k <= |references| && ReadyStorage(r.artifacts) == []
    ensures ReadyStorage(ArtifactsFrom(r, references, [], f, k).records.artifacts) == []
    decreases |references| - k
  {
    if k < |references| && f.artifactRecord(k) {
      ReadyConcat(r.artifacts, [RecordFor(references[k], [])]);
      UnpreparedStorage(r.(artifacts := r.artifacts + [RecordFor(references[k], [])]), references, f, k + 1);
    }
  }

  lemma PrefixTimes(a: seq<FileId>, b: seq<FileId>, id: FileId)
    requires a <= b
    ensures Times(a, id) <= Times(b, id)
  {
    assert b == a + b[|a|..];
    TimesConcat(a, b[|a|..], id);
  }

  lemma PersistHolds(w: World, references: seq<ReferenceId>, f: Faults, id: FileId)
    requires Distinct(references) && w.records == Records([], [], []) && FinalDeletesWork(f)
    requires Times(StoredIds(Entries(references, f)), id) <= Held(w.copies, id)
    requires !f.workspace.WorkspaceThrows?
    ensures Held(Persist(w, references, Entries(references, f), f).world.copies, id) ==
            Held(w.copies, id) -
            if KeepsFiles(references, f) then 0 else Times(StoredIds(Entries(references, f)), id)
  {
    var prepared := Entries(references, f);
    EntriesShape(references, f);
    match f.finalization
    case FinalizeThrows =>
    case Superseded =>
      UnreleasedCount(StoredIds(prepared), map[], id);
      var due := Due(prepared, map[]);
      assert due[0..] == due;
      DeletesRelease(w.copies, due, f.release.finalWorks, 0, id);
    case Finalized =>
      var m := Metadata(w.records, references, prepared, f);
      MetadataIs(w.records, references, f);
      MetadataRecords(w.records, references, prepared, f);
      if !m.ok {
        var orphaned := if f.failArtifacts then ReadyStorage(m.records.artifacts) else [];
        PrefixTimes(orphaned, StoredIds(prepared), id);
        CompensationConserves(w.copies, prepared, orphaned, f.release, id);
      }
  }

  lemma PersistReleases(w: World, references: seq<ReferenceId>, f: Faults, id: FileId)
    requires Distinct(references) && w.records == Records([], [], [])
    requires Times(StoredIds(Entries(references, f)), id) <= Held(w.copies, id)
    ensures var left := Held(Persist(w, references, Entries(references, f), f).world.copies, id);
            Held(w.copies, id) - Times(StoredIds(Entries(references, f)), id)
            <= left <= Held(w.copies, id)
  {
    var prepared := Entries(references, f);
    EntriesShape(references, f);
    match f.finalization
    case FinalizeThrows =>
    case Superseded => DueReleases(w.copies, prepared, f.release, id);
    case Finalized =>
      var m := Metadata(w.records, references, prepared, f);
      MetadataRecords(w.records, references, prepared, f);
      OrphansRelease(w.copies, prepared, ReadyStorage(m.records.artifacts), f.release, id);
      OrphansRelease(w.copies, prepared, [], f.release, id);
  }

  lemma OrphansRelease(copies: Copies, prepared: seq<Prepared>, orphaned: seq<FileId>, r: Release,
                       id: FileId)
    requires orphaned <= StoredIds(prepared) && Times(StoredIds(prepared), id) <= Held(copies, id)
    ensures Held(copies, id) - Times(StoredIds(prepared), id)
            <= Held(Compensated(copies, prepared, orphaned, r), id) <= Held(copies, id)
  {
    PrefixTimes(orphaned, StoredIds(prepared), id);
    CompensationReleases(copies, prepared, orphaned, r, id);
  }

  lemma DueReleases(copies: Copies, prepared: seq<Prepared>, r: Release, id: FileId)
    requires Times(StoredIds(prepared), id) <= Held(copies, id)
    ensures Held(copies, id) - Times(StoredIds(prepared), id)
            <= Held(AfterDeletes(copies, Due(prepared, map[]), r.finalWorks, 0), id)
            <= Held(copies, id)
  {
    var due := Due(prepared, map[]);
    UnreleasedCount(StoredIds(prepared), map[], id);
    assert due[0..] == due;
    DeletesRelease(copies, due, r.finalWorks, 0, id);
    FailedAreDue(due, r.finalWorks, 0, id);
  }

  lemma CompensationReleases(copies: Copies, prepared: seq<Prepared>, orphaned: seq<FileId>,
                             r: Release, id: FileId)
    requires Times(orphaned, id) <= Times(StoredIds(prepared), id) <= Held(copies, id)
    ensures Held(copies, id) - Times(StoredIds(prepared), id)
            <= Held(Compensated(copies, prepared, orphaned, r), id) <= Held(copies, id)
  {
    FirstPassCounts(copies, orphaned, r, id);
    if r.finalSettingsWork {
      var p := FirstPass(copies, orphaned, r);
      var due := Due(prepared, p.released);
      UnreleasedCount(StoredIds(prepared), p.released, id);
      assert due[0..] == due;
      DeletesRelease(p.copies, due, r.finalWorks, 0, id);
      FailedAreDue(due, r.finalWorks, 0, id);
    }
  }

  lemma {:induction false} FailedAreDue(ids: seq<FileId>, works: nat -> bool, k: nat, id: FileId)
    requires k <= |ids|
    ensures Times(FailedDeletes(ids, works, k), id) <= Times(ids[k..], id)
    decreases |ids| - k
  {
    if k < |ids| {
      assert ids[k..][1..] == ids[k + 1..];
      FailedAreDue(ids, works, k + 1, id);
      TimesConcat(if works(k) then [] else [ids[k]], FailedDeletes(ids, works, k + 1), id);
    }
  }

  // ---- Repeated ids ------------------------------------------------------------------------------------

  predicate AllReadyAs(artifacts: seq<ArtifactRecord>, id: FileId) {
    forall k :: 0 <= k < |artifacts| ==> artifacts[k].ready && artifacts[k].storage == Some(id)
  }

  /** Of the repeated run: "b" is stored once, among as many files as there are references, but all
      records are of "a". */
  lemma RepeatedRecords(r: Records, references: seq<ReferenceId>, f: Faults, i: nat, j: nat)
    requires i < j < |references| && references[i] == references[j]
    requires r.artifacts == [] && (f == RepeatedRun(j, true) || f == RepeatedRun(j, false))
    ensures var stored := StoredIds(Entries(references, f));
            var ready := ReadyStorage(Metadata(r, references, Entries(references, f), f).records.artifacts);
            && "b" in stored && Times(stored, "a") == |references| - 1
            && "b" !in ready && Times(ready, "a") == |references|
  {
    var outputs, prepared := Outputs(f, |references|), Entries(references, f);
    EntriesAreShaped(references, outputs);
    forall k | 0 <= k < |references|
      ensures prepared[k].stored == Some(if k == j then "b" else "a") == prepared[k].manifest
    {
      PreparedAt(references, outputs, k);
      assert outputs[k] == f.output(k) == StoredAs(if k == j then "b" else "a");
    }
    StoredIdsOfAll(prepared, j);
    forall k | 0 <= k < |references|
      ensures RecordFor(references[k], prepared) == ArtifactRecord(references[k], Some("a"), true)
    {
      var m := FindFirst(prepared, references[k], k);
      assert m != j;
    }
    AllRecordsAreA(r, references, prepared, f, 0);
    ManifestIsRendered(references, f);
    ReadyOfAll(Metadata(r, references, prepared, f).records.artifacts);
  }

  /** `Find` stops at the first entry with the id. */
  lemma {:induction false} FindFirst(prepared: seq<Prepared>, reference: ReferenceId, k: nat)
    returns (m: nat)
    requires k < |prepared| && prepared[k].reference == reference
    ensures m < |prepared| && Find(prepared, reference) == Some(prepared[m])
    ensures prepared[m].reference == reference
    ensures forall l :: 0 <= l < m ==> prepared[l].reference != reference
  {
    if prepared[0].reference == reference {
      m := 0;
    } else {
      m := FindFirst(prepared[1..], reference, k - 1);
      assert prepared[1..][m] == prepared[m + 1];
      assert forall l :: 0 < l < m + 1 ==> prepared[l] == prepared[1..][l - 1];
      m := m + 1;
    }
  }

  lemma {:induction false} AllRecordsAreA(r: Records, references: seq<ReferenceId>,
                                          prepared: seq<Prepared>, f: Faults, k: nat)
    requires k <= |references| == |r.artifacts| + |references| - k
    requires AllReadyAs(r.artifacts, "a") && forall l :: f.artifactRecord(l)
    requires forall l :: 0 <= l < |references| ==>
               RecordFor(references[l], prepared) == ArtifactRecord(references[l], Some("a"), true)
    ensures var a := ArtifactsFrom(r, references, prepared, f, k);
            a.ok && |a.records.artifacts| == |references| && AllReadyAs(a.records.artifacts, "a")
    decreases |references| - k
  {
    if k < |references| {
      var record := RecordFor(references[k], prepared);
      AllRecordsAreA(r.(artifacts := r.artifacts + [record]), references, prepared, f, k + 1);
    }
  }

  lemma {:induction false} ReadyOfAll(artifacts: seq<ArtifactRecord>)
    requires AllReadyAs(artifacts, "a")
    ensures "b" !in ReadyStorage(artifacts) && Times(ReadyStorage(artifacts), "a") == |artifacts|
  {
    if artifacts != [] {
      ReadyOfAll(artifacts[1..]);
      TimesConcat(["a"], ReadyStorage(artifacts[1..]), "a");
    }
  }

  lemma {:induction false} StoredIdsOfAll(prepared: seq<Prepared>, j: nat)
    requires forall k :: 0 <= k < |prepared| ==>
               prepared[k].stored == Some(if k == j then "b" else "a")
    ensures j < |prepared| ==> "b" in StoredIds(prepared)
    ensures Times(StoredIds(prepared), "a") == |prepared| - if j < |prepared| then 1 else 0
  {
    if prepared != [] {
      var later := prepared[1..];
      TimesConcat(StoredId(prepared[0]), StoredIds(later), "a");
      if j == 0 {
        AllStoredAsA(later);
      } else {
        StoredIdsOfAll(later, j - 1);
      }
    }
  }

  lemma {:induction false} AllStoredAsA(prepared: seq<Prepared>)
    requires forall k :: 0 <= k < |prepared| ==> prepared[k].stored == Some("a")
    ensures Times(StoredIds(prepared), "a") == |prepared|
  {
    if prepared != [] {
      AllStoredAsA(prepared[1..]);
      TimesConcat(["a"], StoredIds(prepared[1..]), "a");
    }
  }

  lemma NothingLeaks(j: nat, packet: bool, n: nat)
    ensures Leaked(Outputs(RepeatedRun(j, packet), n)) == []
  {
    var f := RepeatedRun(j, packet);
    forall k | 0 <= k < n ensures Outputs(f, n)[k] == StoredAs(if k == j then "b" else "a") {
      assert Outputs(f, n)[k] == f.output(k);
    }
    NoneLeaks(Outputs(f, n));
  }

  lemma {:induction false} NoneLeaks(outputs: seq<Generated>)
    requires forall k :: 0 <= k < |outputs| ==> outputs[k].Stored? && outputs[k].manifest.Rendered?
    ensures Leaked(outputs) == []
  {
    if outputs != [] {
      NoneLeaks(outputs[1..]);
    }
  }
}
