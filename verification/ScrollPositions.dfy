/** `rememberPdfScrollPosition` of `apps/web/components/application-pdf-viewer.tsx`: an
    insertion-ordered map that keeps the forty sources used last. */
module ScrollPositions {
  import opened InsertionMap

  const MAX_PDF_SCROLL_POSITIONS := 40

  type Positions = seq<Entry<string, real>>

  /** One call: the scroll offset reported for a source. */
  datatype Call = Call(src: string, scrollTop: real)

  function AtLeastZero(x: real): real {
    if x < 0.0 then 0.0 else x
  }

  /** The entry moves to the end; while there are too many, the first one goes. */
  function Remembered(m: Positions, call: Call): Positions {
    Newest(Set(Delete(m, call.src), call.src, AtLeastZero(call.scrollTop)))
  }

  function Newest(m: Positions): Positions {
    if |m| > MAX_PDF_SCROLL_POSITIONS then m[|m| - MAX_PDF_SCROLL_POSITIONS..] else m
  }

  function After(calls: seq<Call>): Positions {
    if calls == [] then [] else Remembered(After(calls[..|calls| - 1]), calls[|calls| - 1])
  }

  class ScrollMemory {
    var positions: Positions

    constructor ()
      ensures positions == After([])
    {
      positions := [];
    }

    method RememberPdfScrollPosition(src: string, scrollTop: real)
      modifies this
      ensures positions == Remembered(old(positions), Call(src, scrollTop))
    {
      positions := Delete(positions, src);
      positions := Set(positions, src, AtLeastZero(scrollTop));
      ghost var all := positions;
      while |positions| > MAX_PDF_SCROLL_POSITIONS
        invariant Newest(positions) == Newest(all)
      {
        var oldest := positions[0].key;
        DeleteFirst(positions);
        positions := Delete(positions, oldest);
      }
    }
  }

  lemma DeleteFirst(m: Positions)
    requires m != []
    ensures Delete(m, m[0].key) == m[1..]
    ensures |m| > MAX_PDF_SCROLL_POSITIONS ==> Newest(m[1..]) == Newest(m)
  {
    assert Position(m, m[0].key) == 0;
  }

  // ---- What the trace of calls says ------------------------------------------------------------

  /** The place of the last call for a source, or -1. */
  function LastCall(calls: seq<Call>, src: string): (i: int)
    ensures -1 <= i < |calls| && (i >= 0 ==> calls[i].src == src)
  {
    if calls == [] then -1
    else if calls[|calls| - 1].src == src then |calls| - 1
    else LastCall(calls[..|calls| - 1], src)
  }

  function Sources(calls: seq<Call>): set<string> {
    set c | c in calls :: c.src
  }

  /** The sources remembered after the last call for `src`. */
  function Newer(calls: seq<Call>, src: string): set<string> {
    set s | s in Sources(calls) && LastCall(calls, s) > LastCall(calls, src)
  }

  predicate Raised(value: real, scrollTop: real) {
    value == if scrollTop >= 0.0 then scrollTop else 0.0
  }

  /** An entry holds the last value reported for its source, raised to zero. */
  predicate LastValues(m: Positions, calls: seq<Call>) {
    forall i :: 0 <= i < |m| ==>
      LastCall(calls, m[i].key) >= 0
      && Raised(m[i].value, calls[LastCall(calls, m[i].key)].scrollTop)
  }

  predicate ByRecency(m: Positions, calls: seq<Call>) {
    forall i, j :: 0 <= i < j < |m| ==> LastCall(calls, m[i].key) < LastCall(calls, m[j].key)
  }

  predicate IsOlder(m: Positions, calls: seq<Call>, src: string) {
    && |m| == MAX_PDF_SCROLL_POSITIONS
    && forall i :: 0 <= i < |m| ==> LastCall(calls, src) < LastCall(calls, m[i].key)
  }

  /** A source that was forgotten is older than each of the forty that are kept. */
  predicate OnlyOlderForgotten(m: Positions, calls: seq<Call>) {
    forall src :: src in Sources(calls) && !Has(m, src) ==> IsOlder(m, calls, src)
  }

  /** In every run the entries are in order of their last call and hold its value, and what was
      forgotten is older than all that is kept. */
  lemma {:induction false} RemembersTheMostRecent(calls: seq<Call>)
    ensures var m := After(calls);
            && |m| <= MAX_PDF_SCROLL_POSITIONS && Valid(m)
            && LastValues(m, calls) && ByRecency(m, calls) && OnlyOlderForgotten(m, calls)
  {
    if calls != [] {
      RemembersTheMostRecent(calls[..|calls| - 1]);
      OneMoreCall(After(calls[..|calls| - 1]), calls);
    }
  }

  lemma SkipKeepsValues(m: Positions, calls: seq<Call>, p: nat)
    requires p < |m| && LastValues(m, calls)
    ensures LastValues(m[..p] + m[p + 1..], calls)
  {
    var d := m[..p] + m[p + 1..];
    assert forall i :: 0 <= i < |d| ==> d[i] == if i < p then m[i] else m[i + 1];
  }

  lemma SkipKeepsOrder(m: Positions, calls: seq<Call>, p: nat)
    requires p < |m| && ByRecency(m, calls)
    ensures ByRecency(m[..p] + m[p + 1..], calls)
  {
    var d := m[..p] + m[p + 1..];
    forall i, j | 0 <= i < j < |d| ensures LastCall(calls, d[i].key) < LastCall(calls, d[j].key) {
      assert d[i] == m[if i < p then i else i + 1] && d[j] == m[if j < p then j else j + 1];
    }
  }

  /** What is left once a source is deleted: the other entries, in order. */
  lemma WithoutSource(m: Positions, calls: seq<Call>, src: string)
    requires LastValues(m, calls) && ByRecency(m, calls)
    ensures LastValues(Delete(m, src), calls) && ByRecency(Delete(m, src), calls)
  {
    if Has(m, src) {
      SkipKeepsValues(m, calls, Position(m, src));
      SkipKeepsOrder(m, calls, Position(m, src));
    }
  }

  /** A call changes only what is last for its own source. */
  lemma OtherSources(calls: seq<Call>, s: string)
    requires calls != []
    ensures LastCall(calls, s) == if s == calls[|calls| - 1].src then |calls| - 1
                                  else LastCall(calls[..|calls| - 1], s)
  {
  }

  lemma StillRecent(d: Positions, calls: seq<Call>)
    requires calls != [] && !Has(d, calls[|calls| - 1].src)
    requires LastValues(d, calls[..|calls| - 1]) && ByRecency(d, calls[..|calls| - 1])
    ensures LastValues(d, calls) && ByRecency(d, calls)
  {
    forall i | 0 <= i < |d|
      ensures LastCall(calls, d[i].key) == LastCall(calls[..|calls| - 1], d[i].key)
    {
      assert Keys(d)[i] == d[i].key;
      OtherSources(calls, d[i].key);
    }
  }

  function Moved(m: Positions, call: Call): Positions {
    Delete(m, call.src) + [Entry(call.src, AtLeastZero(call.scrollTop))]
  }

  lemma MovedIsRecent(m: Positions, calls: seq<Call>)
    requires calls != []
    requires var before := calls[..|calls| - 1];
             Valid(m) && LastValues(m, before) && ByRecency(m, before)
    ensures var call := calls[|calls| - 1];
            && Remembered(m, call) == Newest(Moved(m, call))
            && LastValues(Moved(m, call), calls) && ByRecency(Moved(m, call), calls)
            && |Moved(m, call)| == |m| + if Has(m, call.src) then 0 else 1
  {
    var call := calls[|calls| - 1];
    WithoutSource(m, calls[..|calls| - 1], call.src);
    DeleteKeys(m, call.src);
    StillRecent(Delete(m, call.src), calls);
    OtherSources(calls, call.src);
  }

  lemma MovedHas(m: Positions, call: Call, s: string)
    requires Valid(m) && s != call.src && Has(m, s)
    ensures Has(Moved(m, call), s)
  {
    DeleteKeys(m, call.src);
    var p, d, i := Position(m, call.src), Delete(m, call.src), Position(m, s);
    assert Keys(Moved(m, call))[if i < p then i else i - 1] == s;
  }

  lemma NewestIsRecent(m: Positions, calls: seq<Call>)
    requires LastValues(m, calls) && ByRecency(m, calls)
    ensures var after := Newest(m);
            && |after| <= MAX_PDF_SCROLL_POSITIONS && Valid(after)
            && LastValues(after, calls) && ByRecency(after, calls)
  {
  }

  /** What the oldest entry loses its place to is newer. */
  lemma DroppedIsOlder(m: Positions, calls: seq<Call>, s: string)
    requires |m| <= MAX_PDF_SCROLL_POSITIONS + 1 && ByRecency(m, calls)
    requires Has(m, s) && !Has(Newest(m), s)
    ensures |Newest(m)| == MAX_PDF_SCROLL_POSITIONS
    ensures forall i :: 0 <= i < |Newest(m)| ==>
              LastCall(calls, s) < LastCall(calls, Newest(m)[i].key)
  {
    assert Keys(m)[Position(m, s)] == s;
  }

  /** Exactly the sources with fewer than forty others remembered since are kept. */
  lemma KeptExactly(calls: seq<Call>, src: string)
    ensures Has(After(calls), src) <==>
            src in Sources(calls) && |Newer(calls, src)| < 40
  {
    var m := After(calls);
    RemembersTheMostRecent(calls);
    if Has(m, src) {
      KeptSince(m, calls, Position(m, src));
    } else if src in Sources(calls) {
      ForgottenSince(m, calls, src);
    }
  }

  function KeySet(m: Positions): set<string> {
    set k | k in Keys(m)
  }

  lemma SubsetSize(a: set<string>, b: set<string>)
    requires a <= b
    ensures |a| <= |b|
  {
    assert b == a + (b - a);
  }

  lemma {:induction false} CountKeys(m: Positions)
    requires Valid(m)
    ensures |KeySet(m)| == |m|
  {
    if m != [] {
      CountKeys(m[1..]);
      assert Keys(m) == [m[0].key] + Keys(m[1..]);
      assert KeySet(m) == {m[0].key} + KeySet(m[1..]);
    }
  }

  lemma EntrySource(m: Positions, calls: seq<Call>, i: nat)
    requires i < |m| && LastValues(m, calls)
    ensures m[i].key in Sources(calls)
  {
    assert calls[LastCall(calls, m[i].key)] in calls;
  }

  /** The sources newer than a kept one are after it in the map. */
  lemma NewerIsLater(m: Positions, calls: seq<Call>, i: nat, s: string)
    requires i < |m| && ByRecency(m, calls) && OnlyOlderForgotten(m, calls)
    requires s in Newer(calls, m[i].key)
    ensures s in Keys(m[i + 1..])
  {
    assert LastCall(calls, m[i].key) < LastCall(calls, s);
    var j := Position(m, s);
    assert j < |m| && j > i;
    assert Keys(m[i + 1..])[j - i - 1] == s;
  }

  lemma KeptSince(m: Positions, calls: seq<Call>, i: nat)
    requires i < |m| && Valid(m)
    requires LastValues(m, calls) && ByRecency(m, calls) && OnlyOlderForgotten(m, calls)
    ensures m[i].key in Sources(calls) && |Newer(calls, m[i].key)| < |m|
  {
    EntrySource(m, calls, i);
    forall s | s in Newer(calls, m[i].key) ensures s in KeySet(m[i + 1..]) {
      NewerIsLater(m, calls, i, s);
    }
    CountKeys(m[i + 1..]);
    SubsetSize(Newer(calls, m[i].key), KeySet(m[i + 1..]));
  }

  lemma ForgottenSince(m: Positions, calls: seq<Call>, src: string)
    requires Valid(m) && LastValues(m, calls) && IsOlder(m, calls, src)
    ensures |Newer(calls, src)| >= MAX_PDF_SCROLL_POSITIONS
  {
    forall s | s in KeySet(m) ensures s in Newer(calls, src) {
      EntrySource(m, calls, Position(m, s));
    }
    CountKeys(m);
    SubsetSize(KeySet(m), Newer(calls, src));
  }

  lemma OneMoreCall(m: Positions, calls: seq<Call>)
    requires calls != []
    requires var before := calls[..|calls| - 1];
             && |m| <= MAX_PDF_SCROLL_POSITIONS && Valid(m)
             && LastValues(m, before) && ByRecency(m, before) && OnlyOlderForgotten(m, before)
    ensures var after := Remembered(m, calls[|calls| - 1]);
            && |after| <= MAX_PDF_SCROLL_POSITIONS && Valid(after)
            && LastValues(after, calls) && ByRecency(after, calls)
            && OnlyOlderForgotten(after, calls)
  {
    var call := calls[|calls| - 1];
    MovedIsRecent(m, calls);
    NewestIsRecent(Moved(m, call), calls);
    forall s | s in Sources(calls) && !Has(Newest(Moved(m, call)), s)
      ensures IsOlder(Newest(Moved(m, call)), calls, s)
    {
      ForgottenIsOlder(m, calls, s);
    }
  }

  lemma ForgottenIsOlder(m: Positions, calls: seq<Call>, s: string)
    requires calls != []
    requires var before := calls[..|calls| - 1];
             && |m| <= MAX_PDF_SCROLL_POSITIONS && Valid(m)
             && LastValues(m, before) && ByRecency(m, before) && OnlyOlderForgotten(m, before)
    requires s in Sources(calls) && !Has(Newest(Moved(m, calls[|calls| - 1])), s)
    ensures IsOlder(Newest(Moved(m, calls[|calls| - 1])), calls, s)
  {
    var call := calls[|calls| - 1];
    var moved := Moved(m, call);
    MovedIsRecent(m, calls);
    LastIsKept(moved);
    if Has(m, s) {
      MovedHas(m, call, s);
      DroppedIsOlder(moved, calls, s);
    } else {
      EarlierForgotten(m, calls, s);
    }
  }

  lemma LastIsKept(m: Positions)
    requires m != []
    ensures Has(Newest(m), m[|m| - 1].key)
  {
    var n := Newest(m);
    assert Keys(n)[|n| - 1] == m[|m| - 1].key;
  }

  lemma EarlierForgotten(m: Positions, calls: seq<Call>, s: string)
    requires calls != [] && s in Sources(calls) && s != calls[|calls| - 1].src && !Has(m, s)
    requires |m| <= MAX_PDF_SCROLL_POSITIONS && Valid(m)
    requires OnlyOlderForgotten(m, calls[..|calls| - 1])
    ensures IsOlder(Newest(Moved(m, calls[|calls| - 1])), calls, s)
  {
    var before, call := calls[..|calls| - 1], calls[|calls| - 1];
    var c :| c in calls && c.src == s;
    assert c in before;
    assert IsOlder(m, before, s);
    DeleteKeys(m, call.src);
    var n := Newest(Moved(m, call));
    forall i | 0 <= i < |n| ensures LastCall(calls, s) < LastCall(calls, n[i].key) {
      OtherSources(calls, s);
      OtherSources(calls, n[i].key);
    }
  }
}
