/** The JavaScript string operations the modelled code uses.  One `char` stands for one UTF-16
    code unit. */
module JsText {
  datatype Option<+T> = None | Some(value: T)

  /** The characters that `trim`, `trimStart` and `\s` treat as white space. */
  predicate IsSpace(c: char) {
    c in "\t\n\r \U{0B}\U{0C}\U{A0}\U{1680}\U{2028}\U{2029}\U{202F}\U{205F}\U{3000}\U{FEFF}"
    || '\U{2000}' <= c <= '\U{200A}'
  }

  function TrimStart(s: string): (t: string)
    ensures t == s <==> s == "" || !IsSpace(s[0])
    ensures t == "" || !IsSpace(t[0])
  {
    if s != "" && IsSpace(s[0]) then TrimStart(s[1..]) else s
  }

  function TrimEnd(s: string): (t: string)
    ensures t == s <==> s == "" || !IsSpace(s[|s| - 1])
    ensures t <= s
  {
    if s != "" && IsSpace(s[|s| - 1]) then TrimEnd(s[..|s| - 1]) else s
  }

  function Trim(s: string): string {
    TrimEnd(TrimStart(s))
  }

  /** `s.slice(0, n)` */
  function Take(s: string, n: nat): string {
    if |s| <= n then s else s[..n]
  }

  predicate StartsWith(s: string, prefix: string) {
    prefix <= s
  }

  /** `s.split("\n")` */
  function Lines(s: string): (lines: seq<string>)
    ensures lines != []
  {
    if s == "" then [""]
    else
      var later := Lines(s[1..]);
      if s[0] == '\n' then [""] + later else [[s[0]] + later[0]] + later[1..]
  }

  /** `parts.join("\n")` */
  function Join(parts: seq<string>): string {
    if parts == [] then ""
    else if |parts| == 1 then parts[0]
    else parts[0] + "\n" + Join(parts[1..])
  }

  lemma {:induction false} LinesHaveNoLf(s: string)
    ensures forall line :: line in Lines(s) ==> '\n' !in line
  {
    if s != "" {
      LinesHaveNoLf(s[1..]);
    }
  }

  /** Splitting undoes joining, so lines without LF can be read back from their join. */
  lemma {:induction false} SplitOfJoin(parts: seq<string>)
    requires parts != [] && forall p :: p in parts ==> '\n' !in p
    ensures Lines(Join(parts)) == parts
  {
    if |parts| == 1 {
      LinesOfOne(parts[0]);
    } else {
      SplitOfJoin(parts[1..]);
      LinesAcrossLf(parts[0], Join(parts[1..]));
      LinesOfOne(parts[0]);
      assert parts[0] + "\n" + Join(parts[1..]) == Join(parts);
      assert parts == [parts[0]] + parts[1..];
    }
  }

  lemma {:induction false} LinesOfOne(s: string)
    requires '\n' !in s
    ensures Lines(s) == [s]
  {
    if s != "" {
      LinesOfOne(s[1..]);
      assert [s[0]] + s[1..] == s;
    }
  }

  lemma {:induction false} LinesAcrossLf(a: string, b: string)
    ensures Lines(a + "\n" + b) == Lines(a) + Lines(b)
  {
    Associate(a, "\n", b);
    if a == "" {
      WithEmpty("\n" + b);
      DropWithin("\n", b, 1);
      WithEmpty(b);
    } else {
      DropWithin(a, "\n" + b, 1);
      Associate(a[1..], "\n", b);
      LinesAcrossLf(a[1..], b);
    }
  }

  // ---- Trimming ----------------------------------------------------------------------------

  lemma {:induction false} TrimEndAfter(s: string, after: string)
    requires s != "" && !IsSpace(s[|s| - 1])
    ensures TrimEnd(s + after) == s + TrimEnd(after)
    decreases |after|
  {
    if after == "" {
      assert s + after == s;
    } else {
      LastOfBoth(s, after);
      if IsSpace(after[|after| - 1]) {
        TrimEndAfter(s, after[..|after| - 1]);
      }
    }
  }

  lemma LastOfBoth(a: string, b: string)
    requires b != ""
    ensures (a + b)[|a + b| - 1] == b[|b| - 1]
    ensures (a + b)[..|a + b| - 1] == a + b[..|b| - 1]
  {
  }

  // ---- Sequence identities the proofs name -------------------------------------------------

  lemma Associate<T>(a: seq<T>, b: seq<T>, c: seq<T>)
    ensures a + b + c == a + (b + c)
  {
  }

  lemma WithEmpty<T>(s: seq<T>)
    ensures [] + s == s && s + [] == s
  {
  }

  /** The head and the tail make up a sequence, and the tail is what follows the head. */
  lemma HeadAndTail<T>(s: seq<T>)
    requires s != []
    ensures s == [s[0]] + s[1..]
  {
  }

  lemma FrontAndLast<T>(s: seq<T>)
    requires s != []
    ensures s == s[..|s| - 1] + [s[|s| - 1]]
  {
  }

  lemma DropWithin<T>(a: seq<T>, b: seq<T>, n: nat)
    requires n <= |a|
    ensures (a + b)[n..] == a[n..] + b
  {
  }
}
