/** Line-end normalisation and frame cutting of `apps/web/lib/ai-command-client.ts`.

    The client normalises a growing buffer again after every read, holds a trailing CR back
    because the next read may begin with the LF that completes it, and cuts frames at the
    leftmost blank line.  The lemma `Advance` says that all this is the same as normalising and
    cutting the whole text received so far: the state of the client is a function of the text,
    not of the reads that brought it. */
module EventStream {
  import opened JsText

  // ---- Line ends -------------------------------------------------------------------------

  /** `value.replaceAll("\r\n", "\n")` */
  function ReplaceCrLf(s: string): string {
    if s == "" then ""
    else if |s| >= 2 && s[0] == '\r' && s[1] == '\n' then "\n" + ReplaceCrLf(s[2..])
    else [s[0]] + ReplaceCrLf(s[1..])
  }

  /** `value.replaceAll("\r", "\n")` */
  function ReplaceCr(s: string): string {
    if s == "" then ""
    else [if s[0] == '\r' then '\n' else s[0]] + ReplaceCr(s[1..])
  }

  predicate EndsWithCr(s: string) {
    s != "" && s[|s| - 1] == '\r'
  }

  function NormalizeSseBuffer(value: string, final: bool): string {
    var preserves := !final && EndsWithCr(value);
    var complete := if preserves then value[..|value| - 1] else value;
    ReplaceCr(ReplaceCrLf(complete)) + if preserves then "\r" else ""
  }

  /** Section 9.2.5 of the WHATWG HTML standard: a line ends at a CRLF pair, an LF or a CR. */
  function LineEndsAsLf(s: string): string {
    if s == "" then ""
    else if s[0] != '\r' then [s[0]] + LineEndsAsLf(s[1..])
    else if |s| >= 2 && s[1] == '\n' then "\n" + LineEndsAsLf(s[2..])
    else "\n" + LineEndsAsLf(s[1..])
  }

  lemma {:induction false} TwoPassesAreOneScan(s: string)
    ensures ReplaceCr(ReplaceCrLf(s)) == LineEndsAsLf(s)
  {
    if s == "" {
    } else if |s| >= 2 && s[0] == '\r' && s[1] == '\n' {
      TwoPassesAreOneScan(s[2..]);
      assert ("\n" + ReplaceCrLf(s[2..]))[1..] == ReplaceCrLf(s[2..]);
    } else {
      TwoPassesAreOneScan(s[1..]);
      assert ([s[0]] + ReplaceCrLf(s[1..]))[1..] == ReplaceCrLf(s[1..]);
    }
  }

  lemma {:induction false} NormalizedHasNoCr(s: string)
    ensures '\r' !in LineEndsAsLf(s)
  {
    if s == "" {
    } else if |s| >= 2 && s[0] == '\r' && s[1] == '\n' {
      NormalizedHasNoCr(s[2..]);
    } else {
      NormalizedHasNoCr(s[1..]);
    }
  }

  lemma {:induction false} NoCrIsNormalized(s: string)
    requires '\r' !in s
    ensures LineEndsAsLf(s) == s
  {
    if s != "" {
      NoCrIsNormalized(s[1..]);
    }
  }

  /** Normalising commutes with concatenation unless the cut falls inside a CRLF pair. */
  lemma {:induction false} NormalizeConcat(a: string, b: string)
    requires !(EndsWithCr(a) && b != "" && b[0] == '\n')
    ensures LineEndsAsLf(a + b) == LineEndsAsLf(a) + LineEndsAsLf(b)
  {
    if a == "" {
      assert a + b == b;
    } else {
      var n := if |a| >= 2 && a[0] == '\r' && a[1] == '\n' then 2 else 1;
      assert (a + b)[n..] == a[n..] + b;
      NormalizeConcat(a[n..], b);
    }
  }

  /** The text with the standard's line ends, except that without `final` a trailing CR stays. */
  function Normalized(s: string, final: bool): string {
    if !final && EndsWithCr(s) then LineEndsAsLf(s[..|s| - 1]) + "\r" else LineEndsAsLf(s)
  }

  lemma NormalizeIsStandard(s: string, final: bool)
    ensures NormalizeSseBuffer(s, final) == Normalized(s, final)
  {
    TwoPassesAreOneScan(s);
    if EndsWithCr(s) {
      TwoPassesAreOneScan(s[..|s| - 1]);
    }
  }

  /** Only the held-back CR, at the very end, survives normalisation. */
  lemma HeldCrIsLast(s: string, final: bool)
    ensures var n := Normalized(s, final);
            forall i :: 0 <= i < |n| && n[i] == '\r' ==> i == |n| - 1 && !final && EndsWithCr(s)
  {
    NormalizedHasNoCr(s);
    if EndsWithCr(s) {
      NormalizedHasNoCr(s[..|s| - 1]);
    }
  }

  lemma NormalizeAfterClean(x: string, y: string, final: bool)
    requires '\r' !in x
    ensures Normalized(x + y, final) == x + Normalized(y, final)
  {
    NoCrIsNormalized(x);
    if !final && EndsWithCr(y) {
      assert (x + y)[..|x + y| - 1] == x + y[..|y| - 1];
      NormalizeConcat(x, y[..|y| - 1]);
    } else {
      assert y == "" ==> x + y == x;
      NormalizeConcat(x, y);
    }
  }

  /** Normalising again what was already normalised changes nothing but the held-back CR. */
  lemma Renormalize(p: string, c: string, final: bool)
    ensures Normalized(Normalized(p, false) + c, final) == Normalized(p + c, final)
  {
    if EndsWithCr(p) {
      var q := p[..|p| - 1];
      NormalizedHasNoCr(q);
      assert Normalized(p, false) + c == LineEndsAsLf(q) + ("\r" + c);
      NormalizeAfterClean(LineEndsAsLf(q), "\r" + c, final);
      assert p + c == q + ("\r" + c);
      NormalizeHead(q, "\r" + c, final);
    } else {
      NormalizedHasNoCr(p);
      NormalizeAfterClean(LineEndsAsLf(p), c, final);
      NormalizeHead(p, c, final);
    }
  }

  lemma NormalizeHead(q: string, d: string, final: bool)
    requires !(EndsWithCr(q) && (d == "" || d[0] == '\n'))
    ensures Normalized(q + d, final) == LineEndsAsLf(q) + Normalized(d, final)
  {
    if !final && EndsWithCr(d) {
      assert (q + d)[..|q + d| - 1] == q + d[..|d| - 1];
      NormalizeConcat(q, d[..|d| - 1]);
    } else {
      assert d == "" ==> q + d == q;
      NormalizeConcat(q, d);
    }
  }

  // ---- Frames ----------------------------------------------------------------------------

  predicate BlankLineAt(s: string, k: int) {
    0 <= k && k + 1 < |s| && s[k] == '\n' && s[k + 1] == '\n'
  }

  function BoundaryFrom(s: string, i: nat): (b: int)
    ensures b == -1 || i <= b
    ensures b >= 0 ==> BlankLineAt(s, b)
    ensures forall k :: i <= k && BlankLineAt(s, k) ==> 0 <= b <= k
    decreases |s| - i
  {
    if i + 1 >= |s| then -1
    else if s[i] == '\n' && s[i + 1] == '\n' then i
    else BoundaryFrom(s, i + 1)
  }

  /** `buffer.indexOf("\n\n")` */
  function Boundary(s: string): (b: int)
    ensures -1 <= b
    ensures b >= 0 ==> BlankLineAt(s, b)
    ensures forall k :: BlankLineAt(s, k) ==> 0 <= b <= k
  {
    BoundaryFrom(s, 0)
  }

  /** The complete frames of a buffer, and the text after the last of them. */
  datatype Cutting = Cutting(frames: seq<string>, rest: string)

  function Cut(s: string): Cutting
    decreases |s|
  {
    var b := Boundary(s);
    if b < 0 then Cutting([], s)
    else
      var later := Cut(s[b + 2..]);
      Cutting([s[..b]] + later.frames, later.rest)
  }

  lemma BoundaryStays(s: string, t: string)
    requires Boundary(s) >= 0
    ensures Boundary(s + t) == Boundary(s)
  {
    var b, whole := Boundary(s), Boundary(s + t);
    assert BlankLineAt(s + t, b);
    assert BlankLineAt(s, whole);
  }

  /** Frames cut from a buffer stay cut however the buffer grows. */
  lemma {:induction false} CutAppend(s: string, t: string)
    ensures Cut(s + t) == Cutting(Cut(s).frames + Cut(Cut(s).rest + t).frames,
                                  Cut(Cut(s).rest + t).rest)
    decreases |s|
  {
    var b := Boundary(s);
    if b >= 0 {
      BoundaryStays(s, t);
      CutAppend(s[b + 2..], t);
      CutFirst(s, t, b);
      var later := Cut(s[b + 2..]);
      Associate([s[..b]], later.frames, Cut(later.rest + t).frames);
    } else {
      WithEmpty(Cut(s + t).frames);
    }
  }

  lemma CutFirst(s: string, t: string, b: int)
    requires b == Boundary(s) == Boundary(s + t) && b >= 0
    ensures Cut(s + t) == Cutting([s[..b]] + Cut(s[b + 2..] + t).frames, Cut(s[b + 2..] + t).rest)
  {
    assert (s + t)[b + 2..] == s[b + 2..] + t;
    assert (s + t)[..b] == s[..b];
  }

  /** The frames with the blank line that ended each of them. */
  function Terminated(frames: seq<string>): string {
    if frames == [] then "" else frames[0] + "\n\n" + Terminated(frames[1..])
  }

  lemma TerminatedCons(f: string, frames: seq<string>)
    ensures Terminated([f] + frames) == f + "\n\n" + Terminated(frames)
  {
    assert ([f] + frames)[1..] == frames;
  }

  /** Cutting loses nothing. */
  lemma {:induction false} CutKeepsText(s: string)
    ensures s == Terminated(Cut(s).frames) + Cut(s).rest
    decreases |s|
  {
    var b := Boundary(s);
    if b >= 0 {
      CutKeepsText(s[b + 2..]);
      var later := Cut(s[b + 2..]);
      TerminatedCons(s[..b], later.frames);
      Rejoin(s, b, Terminated(later.frames), later.rest);
    }
  }

  lemma Rejoin(s: string, b: nat, t: string, rest: string)
    requires BlankLineAt(s, b) && s[b + 2..] == t + rest
    ensures s == s[..b] + "\n\n" + t + rest
  {
    assert s == s[..b] + "\n\n" + s[b + 2..];
  }

  lemma {:induction false} CutRestHasNoBlankLine(s: string)
    ensures Boundary(Cut(s).rest) < 0
    decreases |s|
  {
    if Boundary(s) >= 0 {
      CutRestHasNoBlankLine(s[Boundary(s) + 2..]);
    }
  }

  lemma CutOnce(f: string, t: string)
    requires Boundary(f + "\n\n") == |f|
    ensures Cut(f + "\n\n" + t) == Cutting([f] + Cut(t).frames, Cut(t).rest)
  {
    BoundaryStays(f + "\n\n", t);
    assert (f + "\n\n" + t)[|f| + 2..] == t;
    assert (f + "\n\n" + t)[..|f|] == f;
  }

  /** Frames as `Cut` produces them: the first blank line after a frame is the one that ends it. */
  predicate FrameLike(f: string) {
    Boundary(f + "\n\n") == |f|
  }

  lemma {:induction false} CutFramesAreFrameLike(s: string)
    ensures forall f :: f in Cut(s).frames ==> FrameLike(f)
    decreases |s|
  {
    var b := Boundary(s);
    if b >= 0 {
      CutFramesAreFrameLike(s[b + 2..]);
      LeftmostIsFrameLike(s);
    }
  }

  lemma LeftmostIsFrameLike(s: string)
    requires Boundary(s) >= 0
    ensures FrameLike(s[..Boundary(s)])
  {
    var b := Boundary(s);
    var f := s[..b] + "\n\n";
    assert BlankLineAt(f, b);
    assert f == s[..b + 2];
    assert BlankLineAt(s, Boundary(f));
  }

  /** The complete frames alone leave no rest. */
  lemma {:induction false} CutTerminated(frames: seq<string>)
    requires forall f :: f in frames ==> FrameLike(f)
    ensures Cut(Terminated(frames)) == Cutting(frames, "")
  {
    if frames != [] {
      CutTerminated(frames[1..]);
      assert FrameLike(frames[0]);
      CutOnce(frames[0], Terminated(frames[1..]));
      assert [frames[0]] + frames[1..] == frames;
    }
  }

  lemma {:induction false} TerminatedEndsWithLf(frames: seq<string>)
    requires frames != []
    ensures Terminated(frames) != "" && Terminated(frames)[|Terminated(frames)| - 1] == '\n'
  {
    if |frames| > 1 {
      TerminatedEndsWithLf(frames[1..]);
    }
  }

  /** The client's buffer after the text `p` has been received, and the frames it has cut. */
  function Received(p: string): Cutting {
    Cut(Normalized(p, false))
  }

  /** One read: normalising and cutting the buffer extended by `c` is normalising and cutting the
      whole text, with the frames that were delivered before in front. */
  lemma Advance(p: string, c: string, final: bool)
    ensures var before := Received(p);
            var now := Cut(NormalizeSseBuffer(before.rest + c, final));
            Cut(Normalized(p + c, final)) == Cutting(before.frames + now.frames, now.rest)
  {
    var before, x := Received(p), Terminated(Received(p).frames);
    ConsumedThenRest(p);
    NormalizeIsStandard(before.rest + c, final);
    assert Normalized(p + c, final) == x + Normalized(before.rest + c, final) by {
      RenormalizeFrom(p, c, x, before.rest, final);
    }
    CutAfterConsumed(x, before.frames, Normalized(before.rest + c, final));
  }

  lemma RenormalizeFrom(p: string, c: string, x: string, rest: string, final: bool)
    requires Normalized(p, false) == x + rest && '\r' !in x
    ensures Normalized(p + c, final) == x + Normalized(rest + c, final)
  {
    Renormalize(p, c, final);
    Associate(x, rest, c);
    NormalizeAfterClean(x, rest + c, final);
  }

  lemma CutAfterConsumed(x: string, frames: seq<string>, y: string)
    requires Cut(x) == Cutting(frames, "")
    ensures Cut(x + y) == Cutting(frames + Cut(y).frames, Cut(y).rest)
  {
    CutAppend(x, y);
    assert "" + y == y;
  }

  /** The text received is the frames cut, which hold no CR, and the buffer. */
  lemma ConsumedThenRest(p: string)
    ensures var x := Terminated(Received(p).frames);
            && Normalized(p, false) == x + Received(p).rest
            && Cut(x) == Cutting(Received(p).frames, "")
            && '\r' !in x
  {
    var whole := Normalized(p, false);
    CutKeepsText(whole);
    CutFramesAreFrameLike(whole);
    CutTerminated(Cut(whole).frames);
    ConsumedHasNoCr(p);
  }

  lemma ConsumedHasNoCr(p: string)
    ensures '\r' !in Terminated(Received(p).frames)
  {
    var whole := Normalized(p, false);
    var consumed := Terminated(Cut(whole).frames);
    CutKeepsText(whole);
    HeldCrIsLast(p, false);
    if Cut(whole).frames != [] {
      TerminatedEndsWithLf(Cut(whole).frames);
    }
    forall i | 0 <= i < |consumed| ensures consumed[i] != '\r' {
      assert consumed[i] == whole[i];
    }
  }
}
