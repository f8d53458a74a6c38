/** Provider-generated files of `apps/web/lib/ai-command-stream.ts`: preparation, first-pass release
    of orphaned references and final cleanup.  The artifact store counts references: one `Put` is
    one more copy of an id and one `Delete` releases one. */
module StoredArtifacts {
  import opened JsText

  type FileId = string
  type ReferenceId = string

  /** Reference counts; an id that is missing, or counted zero, has no file. */
  type Copies = map<FileId, nat>

  function Held(copies: Copies, id: FileId): nat {
    if id in copies then copies[id] else 0
  }

  function AfterPut(copies: Copies, id: FileId): Copies {
    copies[id := Held(copies, id) + 1]
  }

  /** A delete fails when the store fails (`works` is false) or holds no copy; it then changes
      nothing. */
  predicate Deletes(copies: Copies, id: FileId, works: bool) {
    works && Held(copies, id) > 0
  }

  function AfterDelete(copies: Copies, id: FileId, works: bool): Copies {
    if Deletes(copies, id, works) then copies[id := Held(copies, id) - 1] else copies
  }

  class FileStore {
    var copies: Copies

    constructor ()
      ensures copies == map[]
    {
      copies := map[];
    }

    method Put(id: FileId)
      modifies this
      ensures copies == AfterPut(old(copies), id)
    {
      copies := AfterPut(copies, id);
    }

    method Delete(id: FileId, works: bool) returns (ok: bool)
      modifies this
      ensures ok == Deletes(old(copies), id, works)
      ensures copies == AfterDelete(old(copies), id, works)
    {
      ok := Deletes(copies, id, works);
      copies := AfterDelete(copies, id, works);
    }
  }

  /** How often an id occurs in a list. */
  function Times(ids: seq<FileId>, id: FileId): nat {
    if ids == [] then 0 else (if ids[0] == id then 1 else 0) + Times(ids[1..], id)
  }

  lemma {:induction false} TimesConcat(a: seq<FileId>, b: seq<FileId>, id: FileId)
    ensures Times(a + b, id) == Times(a, id) + Times(b, id)
  {
    if a == [] {
      assert a + b == b;
    } else {
      assert (a + b)[1..] == a[1..] + b;
      TimesConcat(a[1..], b, id);
    }
  }

  // ---- Preparation ---------------------------------------------------------------------------

  datatype ManifestStep = Rendered | NoRenderer | RenderThrows

  /** What happens to one reference.  `deleteWorks` and `retryWorks` are the two immediate deletes
      of a file that gets no manifest. */
  datatype Generated =
    | FetchThrows
    | Unavailable
    | TooLarge
    | Untyped
    | PutThrows
    | Stored(id: FileId, manifest: ManifestStep, deleteWorks: bool, retryWorks: bool)

  /** The codes GENERATED_CONTENT_VALIDATION_FAILED, _UNAVAILABLE, _TOO_LARGE, _TYPE_UNSUPPORTED,
      _RENDERER_UNAVAILABLE and _PROVIDER_UNAVAILABLE. */
  datatype ErrorCode =
    | ValidationFailed
    | ContentUnavailable
    | ContentTooLarge
    | TypeUnsupported
    | RendererUnavailable
    | ProviderUnavailable

  datatype Prepared = Prepared(reference: ReferenceId, stored: Option<FileId>,
                               manifest: Option<FileId>, errorCode: Option<ErrorCode>)

  function Without(reference: ReferenceId, code: ErrorCode): Prepared {
    Prepared(reference, None, None, Some(code))
  }

  /** The loop of preparation between two references: the entries pushed, and the store. */
  datatype Preparing = Preparing(prepared: seq<Prepared>, copies: Copies)

  function Push(s: Preparing, p: Prepared): Preparing {
    s.(prepared := s.prepared + [p])
  }

  /** How the `try` block of one reference ends: it is done, or it threw, with the file that is
      still to be cleaned up. */
  datatype Tried = Done(after: Preparing) | Threw(after: Preparing, storedForCleanup: Option<FileId>)

  function TryReference(s: Preparing, reference: ReferenceId, g: Generated): Tried {
    match g
    case FetchThrows => Threw(s, None)
    case Unavailable => Done(Push(s, Without(reference, ContentUnavailable)))
    case TooLarge => Done(Push(s, Without(reference, ContentTooLarge)))
    case Untyped => Done(Push(s, Without(reference, TypeUnsupported)))
    case PutThrows => Threw(s, None)
    case Stored(id, manifest, deleteWorks, _) =>
      var put := s.(copies := AfterPut(s.copies, id));
      match manifest
      case RenderThrows => Threw(put, Some(id))
      case Rendered => Done(Push(put, Prepared(reference, Some(id), Some(id), None)))
      case NoRenderer =>
        if !Deletes(put.copies, id, deleteWorks) then Threw(put, Some(id))
        else Done(Push(put.(copies := AfterDelete(put.copies, id, deleteWorks)),
                       Without(reference, RendererUnavailable)))
  }

  /** The handler: a last delete, whose failure is ignored, and a push. */
  function CatchReference(t: Tried, reference: ReferenceId, retryWorks: bool): Preparing {
    match t
    case Done(after) => after
    case Threw(after, None) => Push(after, Without(reference, ValidationFailed))
    case Threw(after, Some(id)) =>
      Push(after.(copies := AfterDelete(after.copies, id, retryWorks)),
           Without(reference, ValidationFailed))
  }

  function PrepareReference(s: Preparing, reference: ReferenceId, g: Generated): Preparing {
    CatchReference(TryReference(s, reference, g), reference, g.Stored? && g.retryWorks)
  }

  function PrepareFrom(s: Preparing, references: seq<ReferenceId>, outputs: seq<Generated>): Preparing
    requires |references| == |outputs|
    decreases |references|
  {
    if references == [] then s
    else PrepareFrom(PrepareReference(s, references[0], outputs[0]), references[1..], outputs[1..])
  }

  // ---- What preparation gives ------------------------------------------------------------------

  function PreparedOf(reference: ReferenceId, g: Generated): Prepared {
    match g
    case FetchThrows => Without(reference, ValidationFailed)
    case Unavailable => Without(reference, ContentUnavailable)
    case TooLarge => Without(reference, ContentTooLarge)
    case Untyped => Without(reference, TypeUnsupported)
    case PutThrows => Without(reference, ValidationFailed)
    case Stored(id, manifest, deleteWorks, _) =>
      if manifest.Rendered? then Prepared(reference, Some(id), Some(id), None)
      else if manifest.NoRenderer? && deleteWorks then Without(reference, RendererUnavailable)
      else Without(reference, ValidationFailed)
  }

  /** The copy a reference without an entry leaves to retention cleanup: every immediate delete of
      its file failed. */
  function LeakedBy(g: Generated): seq<FileId> {
    if !g.Stored? || g.manifest.Rendered? || g.retryWorks
       || (g.manifest.NoRenderer? && g.deleteWorks)
    then [] else [g.id]
  }

  function PreparedAll(references: seq<ReferenceId>, outputs: seq<Generated>): seq<Prepared>
    requires |references| == |outputs|
  {
    if references == [] then []
    else [PreparedOf(references[0], outputs[0])] + PreparedAll(references[1..], outputs[1..])
  }

  function Leaked(outputs: seq<Generated>): seq<FileId> {
    if outputs == [] then [] else LeakedBy(outputs[0]) + Leaked(outputs[1..])
  }

  function StoredId(p: Prepared): seq<FileId> {
    if p.stored.Some? then [p.stored.value] else []
  }

  function StoredIds(prepared: seq<Prepared>): seq<FileId> {
    if prepared == [] then [] else StoredId(prepared[0]) + StoredIds(prepared[1..])
  }

  /** Stored file, manifest and null error code are all present or all absent. */
  predicate AllOrNothing(p: Prepared) {
    && (p.stored.Some? <==> p.manifest.Some?)
    && (p.stored.Some? <==> p.errorCode.None?)
  }

  /** The copies after one reference: put, and the immediate deletes if there is no manifest. */
  function AfterOne(copies: Copies, g: Generated): Copies {
    if !g.Stored? then copies
    else
      var put := AfterPut(copies, g.id);
      if g.manifest.Rendered? then put
      else if g.manifest.NoRenderer? && g.deleteWorks then AfterDelete(put, g.id, true)
      else AfterDelete(put, g.id, g.retryWorks)
  }

  function AfterPreparing(copies: Copies, outputs: seq<Generated>): Copies
    decreases |outputs|
  {
    if outputs == [] then copies else AfterPreparing(AfterOne(copies, outputs[0]), outputs[1..])
  }

  /** However the `try` block and the handler interleave, one reference is one push. */
  lemma OnePush(s: Preparing, reference: ReferenceId, g: Generated)
    ensures PrepareReference(s, reference, g) ==
            Preparing(s.prepared + [PreparedOf(reference, g)], AfterOne(s.copies, g))
  {
  }

  lemma {:induction false} PushesAreEntries(s: Preparing, references: seq<ReferenceId>,
                                            outputs: seq<Generated>)
    requires |references| == |outputs|
    ensures PrepareFrom(s, references, outputs) ==
            Preparing(s.prepared + PreparedAll(references, outputs),
                      AfterPreparing(s.copies, outputs))
    decreases |references|
  {
    if references == [] {
      assert s.prepared + [] == s.prepared;
    } else {
      OnePush(s, references[0], outputs[0]);
      PushesAreEntries(PrepareReference(s, references[0], outputs[0]), references[1..], outputs[1..]);
      Associate(s.prepared, [PreparedOf(references[0], outputs[0])],
                PreparedAll(references[1..], outputs[1..]));
    }
  }

  /** The error code of an entry says what went wrong; a file that cannot be cleaned up at once fails
      validation. */
  predicate Explains(code: Option<ErrorCode>, g: Generated) {
    && (code == None <==> g.Stored? && g.manifest.Rendered?)
    && (code == Some(ContentUnavailable) <==> g.Unavailable?)
    && (code == Some(ContentTooLarge) <==> g.TooLarge?)
    && (code == Some(TypeUnsupported) <==> g.Untyped?)
    && (code == Some(RendererUnavailable) <==> g.Stored? && g.manifest.NoRenderer? && g.deleteWorks)
    && (code == Some(ValidationFailed) <==>
          || g.FetchThrows? || g.PutThrows? || (g.Stored? && g.manifest.RenderThrows?)
          || (g.Stored? && g.manifest.NoRenderer? && !g.deleteWorks))
  }

  /** The loop pushes exactly one entry per reference, in order, each all or nothing, with the code of
      what happened to it, and with the file if it was stored and rendered. */
  lemma OneEntryPerReference(copies: Copies, references: seq<ReferenceId>, outputs: seq<Generated>)
    requires |references| == |outputs|
    ensures var p := PrepareFrom(Preparing([], copies), references, outputs).prepared;
            && |p| == |references| && p == PreparedAll(references, outputs)
            && forall k :: 0 <= k < |p| ==>
                 && p[k].reference == references[k] && AllOrNothing(p[k])
                 && Explains(p[k].errorCode, outputs[k])
                 && (p[k].stored.Some? ==> outputs[k].Stored? && p[k].stored == Some(outputs[k].id))
  {
    PushesAreEntries(Preparing([], copies), references, outputs);
    assert [] + PreparedAll(references, outputs) == PreparedAll(references, outputs);
    EntriesAreShaped(references, outputs);
  }

  lemma {:induction false} EntriesAreShaped(references: seq<ReferenceId>, outputs: seq<Generated>)
    requires |references| == |outputs|
    ensures var p := PreparedAll(references, outputs);
            && |p| == |references|
            && forall k :: 0 <= k < |p| ==>
                 && p[k].reference == references[k] && AllOrNothing(p[k])
                 && Explains(p[k].errorCode, outputs[k])
                 && (p[k].stored.Some? ==> outputs[k].Stored? && p[k].stored == Some(outputs[k].id))
  {
    if references != [] {
      EntriesAreShaped(references[1..], outputs[1..]);
      var one := PreparedOf(references[0], outputs[0]);
      assert one.reference == references[0] && AllOrNothing(one);
      assert Explains(one.errorCode, outputs[0]);
    }
  }

  /** Every copy preparation adds is the stored file of an entry, or leaked. */
  lemma {:induction false} AddedAreEntriesOrLeaks(copies: Copies, references: seq<ReferenceId>,
                                                  outputs: seq<Generated>, id: FileId)
    requires |references| == |outputs|
    ensures Held(AfterPreparing(copies, outputs), id) ==
            Held(copies, id) + Times(StoredIds(PreparedAll(references, outputs)), id)
            + Times(Leaked(outputs), id)
    decreases |outputs|
  {
    if references != [] {
      var p := PreparedOf(references[0], outputs[0]);
      AddedAreEntriesOrLeaks(AfterOne(copies, outputs[0]), references[1..], outputs[1..], id);
      AddedByOne(copies, references[0], outputs[0], id);
      StoredIdsCons(p, PreparedAll(references[1..], outputs[1..]));
      TimesConcat(StoredId(p), StoredIds(PreparedAll(references[1..], outputs[1..])), id);
      TimesConcat(LeakedBy(outputs[0]), Leaked(outputs[1..]), id);
    }
  }

  lemma StoredIdsCons(p: Prepared, later: seq<Prepared>)
    ensures StoredIds([p] + later) == StoredId(p) + StoredIds(later)
  {
    assert ([p] + later)[1..] == later;
  }

  lemma AddedByOne(copies: Copies, reference: ReferenceId, g: Generated, id: FileId)
    ensures Held(AfterOne(copies, g), id) ==
            Held(copies, id) + Times(StoredId(PreparedOf(reference, g)), id) + Times(LeakedBy(g), id)
  {
  }

  method PrepareOne(store: FileStore, prepared: seq<Prepared>, reference: ReferenceId, g: Generated)
    returns (pushed: seq<Prepared>)
    modifies store
    ensures Preparing(pushed, store.copies) ==
            PrepareReference(Preparing(prepared, old(store.copies)), reference, g)
  {
    pushed := prepared;
    var storedForCleanup: Option<FileId> := None;
    label Try: {
      if g.FetchThrows? { break Try; }
      if g.Unavailable? || g.TooLarge? {
        pushed := pushed + [Without(reference,
                                    if g.TooLarge? then ContentTooLarge else ContentUnavailable)];
        return;
      }
      if g.Untyped? {
        pushed := pushed + [Without(reference, TypeUnsupported)];
        return;
      }
      if g.PutThrows? { break Try; }
      store.Put(g.id);
      storedForCleanup := Some(g.id);
      if g.manifest.RenderThrows? { break Try; }
      if g.manifest.NoRenderer? {
        var deleted := store.Delete(g.id, g.deleteWorks);
        if !deleted { break Try; }
        storedForCleanup := None;
        pushed := pushed + [Without(reference, RendererUnavailable)];
        return;
      }
      pushed := pushed + [Prepared(reference, Some(g.id), Some(g.id), None)];
      return;
    }
    if storedForCleanup.Some? {
      var retried := store.Delete(storedForCleanup.value, g.Stored? && g.retryWorks);
    }
    pushed := pushed + [Without(reference, ValidationFailed)];
  }

  method PrepareAll(store: FileStore, references: seq<ReferenceId>, outputs: seq<Generated>)
    returns (prepared: seq<Prepared>)
    requires |references| == |outputs|
    modifies store
    ensures Preparing(prepared, store.copies) ==
            PrepareFrom(Preparing([], old(store.copies)), references, outputs)
  {
    prepared := [];
    for k := 0 to |references|
      invariant PrepareFrom(Preparing(prepared, store.copies), references[k..], outputs[k..]) ==
                PrepareFrom(Preparing([], old(store.copies)), references, outputs)
    {
      assert references[k..][1..] == references[k + 1..] && outputs[k..][1..] == outputs[k + 1..];
      prepared := PrepareOne(store, prepared, references[k], outputs[k]);
    }
  }

  // ---- Release -------------------------------------------------------------------------------

  type Counts = map<FileId, nat>

  /** The stored ids that the first pass has not released already. */
  function Unreleased(ids: seq<FileId>, released: Counts): seq<FileId> {
    if ids == [] then []
    else
      var n := Held(released, ids[0]);
      if n > 0 then Unreleased(ids[1..], released[ids[0] := n - 1])
      else [ids[0]] + Unreleased(ids[1..], released)
  }

  function Max(a: int, b: int): int { if a < b then b else a }

  /** However often an id repeats, the final pass takes exactly the copies not yet released. */
  lemma {:induction false} UnreleasedCount(ids: seq<FileId>, released: Counts, id: FileId)
    ensures Times(Unreleased(ids, released), id) == Max(0, Times(ids, id) - Held(released, id))
  {
    if ids != [] {
      var n := Held(released, ids[0]);
      UnreleasedCount(ids[1..], if n > 0 then released[ids[0] := n - 1] else released, id);
      if n == 0 { TimesConcat([ids[0]], Unreleased(ids[1..], released), id); }
    }
  }

  /** The first pass over the orphaned references: the copies, and the counts of the successful
      deletes. */
  datatype Pass = Pass(copies: Copies, released: Counts)

  function PassStep(p: Pass, id: FileId, works: bool): Pass {
    Pass(AfterDelete(p.copies, id, works),
         if Deletes(p.copies, id, works) then AfterPut(p.released, id) else p.released)
  }

  function AfterOrphans(p: Pass, orphaned: seq<FileId>, works: nat -> bool, k: nat): Pass
    requires k <= |orphaned|
    decreases |orphaned| - k
  {
    if k == |orphaned| then p
    else AfterOrphans(PassStep(p, orphaned[k], works(k)), orphaned, works, k + 1)
  }

  /** The first pass counts what it releases, and releases no id more often than it is listed. */
  lemma {:induction false} OrphansAreCounted(p: Pass, orphaned: seq<FileId>, works: nat -> bool, k: nat, id: FileId)
    requires k <= |orphaned|
    ensures var q := AfterOrphans(p, orphaned, works, k);
            && Held(q.copies, id) + Held(q.released, id) == Held(p.copies, id) + Held(p.released, id)
            && Held(p.released, id) <= Held(q.released, id)
               <= Held(p.released, id) + Times(orphaned[k..], id)
    decreases |orphaned| - k
  {
    if k < |orphaned| {
      OrphansAreCounted(PassStep(p, orphaned[k], works(k)), orphaned, works, k + 1, id);
      assert orphaned[k..][1..] == orphaned[k + 1..];
    }
  }

  method ReleaseOrphans(store: FileStore, orphaned: seq<FileId>, works: nat -> bool)
    returns (released: Counts)
    modifies store
    ensures Pass(store.copies, released) ==
            AfterOrphans(Pass(old(store.copies), map[]), orphaned, works, 0)
  {
    released := map[];
    for k := 0 to |orphaned|
      invariant AfterOrphans(Pass(store.copies, released), orphaned, works, k) ==
                AfterOrphans(Pass(old(store.copies), map[]), orphaned, works, 0)
    {
      ghost var p := Pass(store.copies, released);
      var ok := store.Delete(orphaned[k], works(k));
      if ok { released := AfterPut(released, orphaned[k]); }
      assert Pass(store.copies, released) == PassStep(p, orphaned[k], works(k));
    }
  }

  /** The final deletes from id `k` on, all attempted whatever becomes of the others. */
  function AfterDeletes(copies: Copies, ids: seq<FileId>, works: nat -> bool, k: nat): Copies
    requires k <= |ids|
    decreases |ids| - k
  {
    if k == |ids| then copies
    else AfterDeletes(AfterDelete(copies, ids[k], works(k)), ids, works, k + 1)
  }

  function FailedDeletes(ids: seq<FileId>, works: nat -> bool, k: nat): (failed: seq<FileId>)
    requires k <= |ids|
    ensures (forall j :: works(j)) ==> failed == []
    decreases |ids| - k
  {
    if k == |ids| then []
    else (if works(k) then [] else [ids[k]]) + FailedDeletes(ids, works, k + 1)
  }

  lemma {:induction false} DeletesRelease(copies: Copies, ids: seq<FileId>, works: nat -> bool, k: nat, id: FileId)
    requires k <= |ids| && Times(ids[k..], id) <= Held(copies, id)
    ensures Held(AfterDeletes(copies, ids, works, k), id) ==
            Held(copies, id) - Times(ids[k..], id) + Times(FailedDeletes(ids, works, k), id)
    decreases |ids| - k
  {
    if k < |ids| {
      assert ids[k..][1..] == ids[k + 1..];
      DeletesRelease(AfterDelete(copies, ids[k], works(k)), ids, works, k + 1, id);
      TimesConcat(if works(k) then [] else [ids[k]], FailedDeletes(ids, works, k + 1), id);
    }
  }

  method DeleteAll(store: FileStore, ids: seq<FileId>, works: nat -> bool)
    modifies store
    ensures store.copies == AfterDeletes(old(store.copies), ids, works, 0)
  {
    for k := 0 to |ids|
      invariant AfterDeletes(store.copies, ids, works, k) ==
                AfterDeletes(old(store.copies), ids, works, 0)
    {
      var ok := store.Delete(ids[k], works(k));
    }
  }

  /** The cleanup's filter over the prepared entries. */
  function Due(prepared: seq<Prepared>, released: Counts): seq<FileId> {
    Unreleased(StoredIds(prepared), released)
  }

  method CollectDue(prepared: seq<Prepared>, released: Counts) returns (due: seq<FileId>)
    ensures due == Due(prepared, released)
  {
    var remaining := released;
    due := [];
    for k := 0 to |prepared|
      invariant due + Unreleased(StoredIds(prepared[k..]), remaining) == Due(prepared, released)
    {
      var artifact := prepared[k];
      assert prepared[k..] == [artifact] + prepared[k + 1..];
      StoredIdsCons(artifact, prepared[k + 1..]);
      if artifact.stored.Some? {
        UnreleasedCons(artifact.stored.value, StoredIds(prepared[k + 1..]), remaining);
        var n := Held(remaining, artifact.stored.value);
        if n > 0 { remaining := remaining[artifact.stored.value := n - 1]; }
        else { due := due + [artifact.stored.value]; }
      } else {
        assert [] + StoredIds(prepared[k + 1..]) == StoredIds(prepared[k + 1..]);
      }
    }
  }

  lemma UnreleasedCons(id: FileId, ids: seq<FileId>, released: Counts)
    ensures Unreleased([id] + ids, released) ==
            if Held(released, id) > 0 then Unreleased(ids, released[id := Held(released, id) - 1])
            else [id] + Unreleased(ids, released)
  {
    assert ([id] + ids)[1..] == ids;
  }

  /** How the two release passes go: whether the settings can be read, and which deletes work. */
  datatype Release = Release(firstSettingsWork: bool, firstWorks: nat -> bool,
                             finalSettingsWork: bool, finalWorks: nat -> bool)

  /** `cleanupPreparedProviderArtifacts`: it throws exactly when there is something to delete and
      the settings cannot be read. */
  method Cleanup(store: FileStore, prepared: seq<Prepared>, released: Counts, r: Release)
    returns (threw: bool)
    modifies store
    ensures threw == (!r.finalSettingsWork && Due(prepared, released) != [])
    ensures store.copies ==
            if r.finalSettingsWork
            then AfterDeletes(old(store.copies), Due(prepared, released), r.finalWorks, 0)
            else old(store.copies)
  {
    var due := CollectDue(prepared, released);
    if due == [] { return false; }
    if !r.finalSettingsWork { return true; }
    DeleteAll(store, due, r.finalWorks);
    threw := false;
  }

  /** The copies and counts after the orphaned references were tried. */
  function FirstPass(copies: Copies, orphaned: seq<FileId>, r: Release): Pass {
    if orphaned == [] || !r.firstSettingsWork then Pass(copies, map[])
    else AfterOrphans(Pass(copies, map[]), orphaned, r.firstWorks, 0)
  }

  function Compensated(copies: Copies, prepared: seq<Prepared>, orphaned: seq<FileId>, r: Release): Copies {
    var p := FirstPass(copies, orphaned, r);
    if r.finalSettingsWork then AfterDeletes(p.copies, Due(prepared, p.released), r.finalWorks, 0)
    else p.copies
  }

  /** Release after a metadata failure: the orphaned references, then what they did not cover. */
  method Compensate(store: FileStore, prepared: seq<Prepared>, orphaned: seq<FileId>, r: Release)
    modifies store
    ensures store.copies == Compensated(old(store.copies), prepared, orphaned, r)
  {
    var released: Counts := map[];
    if orphaned != [] && r.firstSettingsWork {
      released := ReleaseOrphans(store, orphaned, r.firstWorks);
    }
    var threw := Cleanup(store, prepared, released, r);
  }

  /** The final deletes that fail. */
  function LeftOver(copies: Copies, prepared: seq<Prepared>, orphaned: seq<FileId>, r: Release): seq<FileId> {
    FailedDeletes(Due(prepared, FirstPass(copies, orphaned, r).released), r.finalWorks, 0)
  }

  lemma FirstPassCounts(copies: Copies, orphaned: seq<FileId>, r: Release, id: FileId)
    ensures var p := FirstPass(copies, orphaned, r);
            && Held(p.copies, id) == Held(copies, id) - Held(p.released, id)
            && Held(p.released, id) <= Times(orphaned, id)
  {
    OrphansAreCounted(Pass(copies, map[]), orphaned, r.firstWorks, 0, id);
    assert orphaned[0..] == orphaned;
  }

  /** The orphaned references whose delete works. */
  function Working(orphaned: seq<FileId>, works: nat -> bool, k: nat): seq<FileId>
    requires k <= |orphaned|
    decreases |orphaned| - k
  {
    if k == |orphaned| then []
    else (if works(k) then [orphaned[k]] else []) + Working(orphaned, works, k + 1)
  }

  lemma {:induction false} WorkingRelease(p: Pass, orphaned: seq<FileId>, works: nat -> bool, k: nat, id: FileId)
    requires k <= |orphaned| && Times(orphaned[k..], id) <= Held(p.copies, id)
    ensures Held(AfterOrphans(p, orphaned, works, k).released, id) ==
            Held(p.released, id) + Times(Working(orphaned, works, k), id)
    decreases |orphaned| - k
  {
    if k < |orphaned| {
      assert orphaned[k..][1..] == orphaned[k + 1..];
      WorkingRelease(PassStep(p, orphaned[k], works(k)), orphaned, works, k + 1, id);
      TimesConcat(if works(k) then [orphaned[k]] else [], Working(orphaned, works, k + 1), id);
    }
  }

  /** How often the first pass releases an id: once for each reference to it whose delete works, and
      never if the settings cannot be read. */
  function FirstReleases(orphaned: seq<FileId>, r: Release, id: FileId): nat {
    if r.firstSettingsWork then Times(Working(orphaned, r.firstWorks, 0), id) else 0
  }

  lemma FirstPassReleases(copies: Copies, orphaned: seq<FileId>, r: Release, id: FileId)
    requires Times(orphaned, id) <= Held(copies, id)
    ensures Held(FirstPass(copies, orphaned, r).released, id) == FirstReleases(orphaned, r, id)
  {
    assert orphaned[0..] == orphaned;
    WorkingRelease(Pass(copies, map[]), orphaned, r.firstWorks, 0, id);
  }

  /** What happens to one id in general: it leaves the store as often as it was stored, or as the
      first pass released it, whichever is more, except for the final deletes that fail; and without
      the settings for the final pass, only as the first pass released it. */
  lemma ReleasedCount(copies: Copies, prepared: seq<Prepared>, orphaned: seq<FileId>, r: Release, id: FileId)
    requires Max(Times(StoredIds(prepared), id), Times(orphaned, id)) <= Held(copies, id)
    ensures var stored, first := Times(StoredIds(prepared), id), FirstReleases(orphaned, r, id);
            Held(Compensated(copies, prepared, orphaned, r), id) ==
            Held(copies, id)
            - if r.finalSettingsWork
              then Max(stored, first) - Times(LeftOver(copies, prepared, orphaned, r), id) else first
  {
    FirstPassCounts(copies, orphaned, r, id);
    FirstPassReleases(copies, orphaned, r, id);
    if r.finalSettingsWork {
      var p := FirstPass(copies, orphaned, r);
      var due := Due(prepared, p.released);
      UnreleasedCount(StoredIds(prepared), p.released, id);
      assert due[0..] == due;
      DeletesRelease(p.copies, due, r.finalWorks, 0, id);
    }
  }

  /** Conservation: when an id is not orphaned more often than it was stored and the final deletes
      work, it leaves the store exactly as often as it was stored, whichever first-pass deletes
      failed and however often it repeats. */
  lemma CompensationConserves(copies: Copies, prepared: seq<Prepared>, orphaned: seq<FileId>, r: Release, id: FileId)
    requires r.finalSettingsWork && forall k :: r.finalWorks(k)
    requires Times(orphaned, id) <= Times(StoredIds(prepared), id) <= Held(copies, id)
    ensures Held(Compensated(copies, prepared, orphaned, r), id) ==
            Held(copies, id) - Times(StoredIds(prepared), id)
  {
    ReleasedCount(copies, prepared, orphaned, r, id);
    FirstPassReleases(copies, orphaned, r, id);
    FirstPassCounts(copies, orphaned, r, id);
  }

  /** The containment is needed, exactly: when every delete works, an id is released as often as it
      was stored if and only if it is not orphaned more often than that. */
  lemma ContainmentIsNeeded(copies: Copies, prepared: seq<Prepared>, orphaned: seq<FileId>, r: Release, id: FileId)
    requires r.firstSettingsWork && r.finalSettingsWork
    requires (forall k :: r.firstWorks(k)) && forall k :: r.finalWorks(k)
    requires Max(Times(StoredIds(prepared), id), Times(orphaned, id)) <= Held(copies, id)
    ensures Held(Compensated(copies, prepared, orphaned, r), id) ==
            Held(copies, id) - Times(StoredIds(prepared), id) <==>
            Times(orphaned, id) <= Times(StoredIds(prepared), id)
  {
    ReleasedCount(copies, prepared, orphaned, r, id);
    AllWorking(orphaned, r.firstWorks, 0);
    assert orphaned[0..] == orphaned;
  }

  lemma {:induction false} AllWorking(orphaned: seq<FileId>, works: nat -> bool, k: nat)
    requires k <= |orphaned| && forall j :: works(j)
    ensures Working(orphaned, works, k) == orphaned[k..]
    decreases |orphaned| - k
  {
    if k < |orphaned| {
      AllWorking(orphaned, works, k + 1);
    }
  }
}
