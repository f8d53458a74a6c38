/** The canonical form of workspace paths: parsing is idempotent, ignores what may surround a
    canonical path, leads to parents that parse, and undoes the building of paths. */
module WorkspacePathLaws {
  import opened JsText
  import opened WorkspacePaths

  /** The characters of the names in the path table and of record ids. */
  predicate IsPlain(c: char) {
    'a' <= c <= 'z' || 'A' <= c <= 'Z' || '0' <= c <= '9' || c == '-'
  }

  predicate Plain(s: string) {
    s != "" && forall i :: 0 <= i < |s| ==> IsPlain(s[i])
  }

  predicate AllPlain(segments: seq<string>) {
    forall i :: 0 <= i < |segments| ==> Plain(segments[i])
  }

  predicate Blank(s: string) {
    forall i :: 0 <= i < |s| ==> IsSpace(s[i])
  }

  predicate Slashes(s: string) {
    forall i :: 0 <= i < |s| ==> s[i] == '/'
  }

  predicate QueryOrFragment(s: string) {
    s == "" || s[0] == '?' || s[0] == '#'
  }

  /** Each segment after a slash. */
  function Canonical(segments: seq<string>): string {
    if segments == [] then ""
    else Canonical(segments[..|segments| - 1]) + "/" + segments[|segments| - 1]
  }

  // ---- Words and segments ------------------------------------------------------------------------

  lemma PlainIsOrdinary(c: char)
    requires IsPlain(c)
    ensures !IsSpace(c) && c != '/' && c != '?' && c != '#'
  {
  }

  lemma {:induction false} WordThen(word: string, rest: string, part: string)
    requires forall i :: 0 <= i < |word| ==> word[i] != '/'
    ensures Segments(word + rest, part) == Segments(rest, part + word)
    decreases |word|
  {
    if word == "" {
      assert word + rest == rest && part + word == part;
    } else {
      assert (word + rest)[1..] == word[1..] + rest;
      WordThen(word[1..], rest, part + [word[0]]);
      assert part + [word[0]] + word[1..] == part + word;
    }
  }

  /** After a canonical path the segments go on. */
  lemma {:induction false} SegmentsAfter(segments: seq<string>, rest: string)
    requires AllPlain(segments) && (rest == "" || rest[0] == '/')
    ensures Segments(Canonical(segments) + rest, "") == segments + Segments(rest, "")
  {
    if segments == [] {
      WithEmpty(rest);
      WithEmpty(Segments(rest, ""));
    } else {
      var front, last := segments[..|segments| - 1], segments[|segments| - 1];
      CanonicalThen(segments, rest);
      SegmentsAfter(front, "/" + (last + rest));
      OneSegment(last, rest);
      FrontAndLast(segments);
      Associate(front, [last], Segments(rest, ""));
    }
  }

  lemma CanonicalThen(segments: seq<string>, rest: string)
    requires segments != []
    ensures var front, last := segments[..|segments| - 1], segments[|segments| - 1];
            Canonical(segments) + rest == Canonical(front) + ("/" + (last + rest))
  {
    var front, last := segments[..|segments| - 1], segments[|segments| - 1];
    Associate(Canonical(front), "/", last);
    Associate(Canonical(front), "/" + last, rest);
    Associate("/", last, rest);
  }

  /** A slash and a word are one segment. */
  lemma OneSegment(word: string, rest: string)
    requires Plain(word) && (rest == "" || rest[0] == '/')
    ensures Segments("/" + (word + rest), "") == [word] + Segments(rest, "")
  {
    forall i | 0 <= i < |word| ensures word[i] != '/' { PlainIsOrdinary(word[i]); }
    DropWithin("/", word + rest, 1);
    WithEmpty(word + rest);
    WithEmpty(Segments(word + rest, ""));
    WordThen(word, rest, "");
    WithEmpty(word);
    LastWord(word, rest);
  }

  lemma LastWord(last: string, rest: string)
    requires last != "" && (rest == "" || rest[0] == '/')
    ensures Segments(rest, last) == [last] + Segments(rest, "")
  {
    if rest != "" {
      assert [] + Segments(rest[1..], "") == Segments(rest[1..], "");
    }
  }

  lemma SegmentsOfCanonical(segments: seq<string>)
    requires AllPlain(segments)
    ensures Segments(Canonical(segments), "") == segments
  {
    SegmentsAfter(segments, "");
    assert Canonical(segments) + "" == Canonical(segments) && segments + [] == segments;
  }

  // ---- Trimming, queries, slashes ------------------------------------------------------------------

  lemma {:induction false} TrimStartBlank(before: string, s: string)
    requires Blank(before) && s != "" && !IsSpace(s[0])
    ensures TrimStart(before + s) == s
  {
    if before == "" {
      assert before + s == s;
    } else {
      assert (before + s)[1..] == before[1..] + s;
      TrimStartBlank(before[1..], s);
    }
  }

  lemma {:induction false} TrimEndBlank(s: string)
    requires Blank(s)
    ensures TrimEnd(s) == ""
  {
    if s != "" {
      TrimEndBlank(s[..|s| - 1]);
    }
  }

  /** Trimming leaves a query or fragment a query or fragment. */
  lemma TrimEndQuery(query: string, after: string)
    requires QueryOrFragment(query) && Blank(after)
    ensures QueryOrFragment(TrimEnd(query + after))
  {
    if query == "" {
      WithEmpty(after);
      TrimEndBlank(after);
    } else {
      HeadAndTail(query);
      Associate([query[0]], query[1..], after);
      TrimEndAfter([query[0]], query[1..] + after);
    }
  }

  lemma {:induction false} BeforeQueryIs(s: string, query: string)
    requires forall i :: 0 <= i < |s| ==> s[i] != '?' && s[i] != '#'
    requires QueryOrFragment(query)
    ensures BeforeQuery(s + query) == s
  {
    if s == "" {
      assert s + query == query;
    } else {
      assert (s + query)[1..] == s[1..] + query;
      BeforeQueryIs(s[1..], query);
    }
  }

  lemma {:induction false} StripSlashesAfter(s: string, slashes: string)
    requires s != "" && s[|s| - 1] != '/' && Slashes(slashes)
    ensures StripSlashes(s + slashes) == s
    decreases |slashes|
  {
    if slashes == "" {
      assert s + slashes == s;
    } else {
      LastOfBoth(s, slashes);
      StripSlashesAfter(s, slashes[..|slashes| - 1]);
    }
  }

  // ---- The canonical path --------------------------------------------------------------------------

  /** What the string steps need to know of a canonical path. */
  predicate PathLike(s: string) {
    && |s| >= 2 && s[0] == '/' && s[1] != '/' && s[|s| - 1] != '/'
    && forall i :: 0 <= i < |s| ==> !IsSpace(s[i]) && s[i] != '?' && s[i] != '#'
  }

  lemma {:induction false} CanonicalIsPathLike(segments: seq<string>)
    requires AllPlain(segments) && segments != []
    ensures PathLike(Canonical(segments))
  {
    var front, last := segments[..|segments| - 1], segments[|segments| - 1];
    if front != [] { CanonicalIsPathLike(front); }
    assert Plain(last);
    forall i | 0 <= i < |last|
      ensures !IsSpace(last[i]) && last[i] != '/' && last[i] != '?' && last[i] != '#'
    {
      PlainIsOrdinary(last[i]);
    }
    var c := Canonical(segments);
    assert c == Canonical(front) + "/" + last;
    assert c[|c| - 1] == last[|last| - 1];
    assert front == [] ==> c[1] == last[0];
  }

  lemma {:induction false} TrimEndTwice(s: string)
    ensures TrimEnd(TrimEnd(s)) == TrimEnd(s)
  {
    if s != "" && IsSpace(s[|s| - 1]) {
      TrimEndTwice(s[..|s| - 1]);
    }
  }

  lemma TrimPath(body: string, query: string, after: string)
    requires body != "" && !IsSpace(body[0]) && !IsSpace(body[|body| - 1])
    ensures Trim(body + query + after) == body + TrimEnd(query + after)
  {
    assert body + query + after == body + (query + after);
    assert "" + (body + query + after) == body + query + after;
    TrimStartBlank("", body + query + after);
    TrimEndAfter(body, query + after);
  }

  lemma TrimTwice(s: string)
    ensures Trim(Trim(s)) == Trim(s)
  {
    var t := TrimStart(s);
    TrimEndTwice(t);
    assert Trim(s) != "" ==> Trim(s)[0] == t[0];
    assert TrimStart(Trim(s)) == Trim(s);
  }

  lemma PathHasNoOrigin(s: string)
    requires s != "" && s[0] == '/'
    ensures WithoutOrigin(s) == s && !HasScheme(s)
  {
  }

  lemma NormalizeDecorated(value: string, path: string, slashes: string, tail: string)
    requires PathLike(path) && Slashes(slashes) && QueryOrFragment(tail)
    requires Trim(value) == path + slashes + tail
    ensures NormalizePathname(value) == path && !HasScheme(Trim(value))
  {
    PathHasNoOrigin(Trim(value));
    BeforeQueryIs(path + slashes, tail);
    StripSlashesAfter(path, slashes);
    var body := path + slashes;
    assert body[0] == '/' && body[1] != '/';
  }

  lemma TrimDecorated(before: string, path: string, slashes: string, query: string, after: string)
    requires PathLike(path) && Slashes(slashes) && QueryOrFragment(query)
    requires Blank(before) && Blank(after)
    ensures Trim(before + path + slashes + query + after) ==
            path + slashes + TrimEnd(query + after)
  {
    var body := path + slashes;
    assert before + path + slashes + query + after == before + (body + query + after);
    TrimStartBlank(before, body + query + after);
    TrimStartBlank("", body + query + after);
    assert "" + (body + query + after) == body + query + after;
    TrimPath(body, query, after);
  }

  /** A canonical path parses as its segments, whatever white space, slashes, query and fragment are
      put around it. */
  lemma ParseDecorated(before: string, segments: seq<string>, slashes: string, query: string,
                       after: string)
    requires AllPlain(segments) && segments != [] && Slashes(slashes) && QueryOrFragment(query)
    requires Blank(before) && Blank(after)
    requires |before + Canonical(segments) + slashes + query + after| <= MAX_LENGTH
    ensures Parse(Some(before + Canonical(segments) + slashes + query + after)) ==
            ParseSegments(segments)
  {
    var path := Canonical(segments);
    var value := before + path + slashes + query + after;
    CanonicalIsPathLike(segments);
    TrimDecorated(before, path, slashes, query, after);
    TrimEndQuery(query, after);
    TrimTwice(value);
    NormalizeDecorated(value, path, slashes, TrimEnd(query + after));
    NormalizeDecorated(Trim(value), path, slashes, TrimEnd(query + after));
    SegmentsOfCanonical(segments);
    FirstSlash(path);
  }

  lemma FirstSlash(path: string)
    requires path != "" && path[0] == '/'
    ensures Segments(path, "") == Segments(path[1..], "")
  {
    assert [] + Segments(path[1..], "") == Segments(path[1..], "");
  }

  // ---- Accepted segments ---------------------------------------------------------------------------

  lemma RootIsPlain(r: Root)
    ensures Plain(RootName(r)) && |RootName(r)| <= 16
  {
  }

  lemma RootIsNamed(r: Root)
    ensures RootNamed(RootName(r)) == Some(r) && RootName(r) != WORKFORCE
  {
  }

  lemma CollectionIsPlain(c: Collection)
    ensures Plain(CollectionName(c)) && |CollectionName(c)| <= 16
    ensures CollectionNamed(CollectionName(c)) == Some(c)
  {
  }

  lemma WorkforceIsPlain()
    ensures Plain(WORKFORCE) && |WORKFORCE| == 17
  {
  }

  lemma UuidIsPlain(id: string)
    requires IsUuid(id)
    ensures Plain(id) && |id| == 36
  {
  }

  lemma CanonicalOne(a: string)
    ensures Canonical([a]) == "/" + a
  {
    assert [a][..0] == [] && "" + "/" + a == "/" + a;
  }

  lemma CanonicalMore(front: seq<string>, last: string)
    ensures Canonical(front + [last]) == Canonical(front) + "/" + last
  {
    assert (front + [last])[..|front|] == front;
  }

  lemma CanonicalTwo(a: string, b: string)
    ensures Canonical([a, b]) == "/" + a + "/" + b
  {
    CanonicalOne(a);
    CanonicalMore([a], b);
    assert [a] + [b] == [a, b];
  }

  lemma CanonicalThree(a: string, b: string, c: string)
    ensures Canonical([a, b, c]) == "/" + a + "/" + b + "/" + c
  {
    CanonicalTwo(a, b);
    CanonicalMore([a, b], c);
    assert [a, b] + [c] == [a, b, c];
  }

  lemma CanonicalShort(segments: seq<string>)
    requires 1 <= |segments| <= 3
    ensures Canonical(segments) ==
            if |segments| == 1 then "/" + segments[0]
            else if |segments| == 2 then "/" + segments[0] + "/" + segments[1]
            else "/" + segments[0] + "/" + segments[1] + "/" + segments[2]
  {
    if |segments| == 1 {
      assert segments == [segments[0]];
      CanonicalOne(segments[0]);
    } else if |segments| == 2 {
      assert segments == [segments[0], segments[1]];
      CanonicalTwo(segments[0], segments[1]);
    } else {
      assert segments == [segments[0], segments[1], segments[2]];
      CanonicalThree(segments[0], segments[1], segments[2]);
    }
  }

  predicate Short(s: string) {
    Plain(s) && |s| <= 36
  }

  predicate AllShort(segments: seq<string>) {
    && 1 <= |segments| <= 3 && Short(segments[0])
    && (|segments| >= 2 ==> Short(segments[1])) && (|segments| == 3 ==> Short(segments[2]))
  }

  lemma ShortPath(segments: seq<string>)
    requires AllShort(segments)
    ensures AllPlain(segments) && |Canonical(segments)| <= 111
  {
    CanonicalShort(segments);
  }

  lemma ShortWorkforce(segments: seq<string>)
    requires segments != [] && ParseWorkforce(segments).Some?
    ensures AllShort(segments)
  {
    WorkforceIsPlain();
    if |segments| >= 2 { CollectionIsPlain(CollectionNamed(segments[1]).value); }
    if |segments| == 3 { UuidIsPlain(segments[2]); }
  }

  lemma WorkforcePath(segments: seq<string>)
    requires segments != [] && ParseWorkforce(segments).Some?
    ensures ParseWorkforce(segments).value.path == Canonical(segments)
  {
    CanonicalShort(segments);
  }

  /** What is accepted is returned in canonical form. */
  lemma Accepted(segments: seq<string>)
    requires ParseSegments(segments).Some?
    ensures segments != [] && AllPlain(segments)
    ensures ParseSegments(segments).value.path == Canonical(segments)
    ensures |Canonical(segments)| <= 111
  {
    if ParseWorkforce(segments).Some? {
      ShortWorkforce(segments);
      WorkforcePath(segments);
    } else {
      RootIsPlain(RootNamed(segments[0]).value);
      if |segments| == 2 { UuidIsPlain(segments[1]); }
      CanonicalShort(segments);
    }
    ShortPath(segments);
  }

  lemma RootAccepted(r: Root)
    ensures ParseSegments([RootName(r)]) ==
            Some(Parsed("/" + RootName(r), ListView(r), None, None))
  {
    RootIsNamed(r);
  }

  lemma CollectionAccepted(c: Collection)
    requires CollectionView(c).Some?
    ensures ParseSegments([WORKFORCE, CollectionName(c)]).Some?
  {
    CollectionIsPlain(c);
  }

  /** The segments of a parent, which are accepted too and fewer. */
  lemma ParentAccepted(segments: seq<string>) returns (parent: seq<string>)
    requires ParseSegments(segments).Some? && ParseSegments(segments).value.parentPath.Some?
    ensures ParseSegments(parent).Some? && |parent| < |segments|
    ensures ParseSegments(segments).value.parentPath.value == Canonical(parent)
  {
    if ParseWorkforce(segments).None? {
      RootAccepted(RootNamed(segments[0]).value);
      parent := [segments[0]];
      CanonicalOne(segments[0]);
    } else if |segments| == 2 {
      parent := [WORKFORCE];
      CanonicalOne(WORKFORCE);
    } else {
      parent := MemberParentSegments(CollectionNamed(segments[1]).value);
    }
  }

  lemma MemberParentSegments(c: Collection) returns (parent: seq<string>)
    ensures ParseSegments(parent).Some? && |parent| <= 2 && MemberParent(c) == Canonical(parent)
  {
    var list := if c.Agents? then Agents else Runs;
    if c.Departments? || c.Teams? {
      parent := [WORKFORCE];
      CanonicalOne(WORKFORCE);
    } else {
      parent := [WORKFORCE, CollectionName(list)];
      CollectionAccepted(list);
      CanonicalTwo(WORKFORCE, CollectionName(list));
    }
  }

  // ---- The main results ----------------------------------------------------------------------------

  /** The segments an accepted value was reduced to. */
  lemma AcceptedSegments(value: Option<string>) returns (segments: seq<string>)
    requires Parse(value).Some?
    ensures Parse(value) == ParseSegments(segments)
  {
    segments := Segments(NormalizePathname(Trim(value.value))[1..], "");
  }

  /** Every value that shows an accepted path, with white space, trailing slashes, a query or a
      fragment around it, parses to the same result. */
  lemma SurroundingsAreIgnored(value: Option<string>, before: string, slashes: string,
                               query: string, after: string)
    requires Parse(value).Some? && Blank(before) && Blank(after)
    requires Slashes(slashes) && QueryOrFragment(query)
    requires |before + Parse(value).value.path + slashes + query + after| <= MAX_LENGTH
    ensures Parse(Some(before + Parse(value).value.path + slashes + query + after)) ==
            Parse(value)
  {
    var segments := AcceptedSegments(value);
    Accepted(segments);
    ParseDecorated(before, segments, slashes, query, after);
  }

  lemma Undecorated(path: string)
    ensures "" + path + "" + "" + "" == path
  {
  }

  lemma CanonicalParses(segments: seq<string>)
    requires ParseSegments(segments).Some?
    ensures Parse(Some(Canonical(segments))) == ParseSegments(segments)
  {
    Accepted(segments);
    Undecorated(Canonical(segments));
    ParseDecorated("", segments, "", "", "");
  }

  /** Parsing a returned path gives the same result. */
  lemma ParseIsIdempotent(value: Option<string>)
    requires Parse(value).Some?
    ensures Parse(Some(Parse(value).value.path)) == Parse(value)
  {
    var segments := AcceptedSegments(value);
    Accepted(segments);
    CanonicalParses(segments);
  }

  /** Every parent path is itself accepted, is canonical and has strictly fewer segments. */
  lemma ParentsAreAccepted(value: Option<string>)
    requires Parse(value).Some? && Parse(value).value.parentPath.Some?
    ensures var r := Parse(value).value;
            && Parse(r.parentPath).Some? && Parse(r.parentPath).value.path == r.parentPath.value
            && |Segments(r.parentPath.value, "")| < |Segments(r.path, "")|
  {
    var segments := AcceptedSegments(value);
    Accepted(segments);
    var parent := ParentAccepted(segments);
    Accepted(parent);
    CanonicalParses(parent);
    SegmentsOfCanonical(parent);
    SegmentsOfCanonical(segments);
  }

  predicate ParsesToItself(path: string) {
    Parse(Some(path)).Some? && Parse(Some(path)).value.path == path
  }

  lemma CanonicalParsesToItself(segments: seq<string>)
    requires ParseSegments(segments).Some?
    ensures ParsesToItself(Canonical(segments))
  {
    Accepted(segments);
    CanonicalParses(segments);
  }

  /** A path that parses to itself below some segments has them as its first segments. */
  lemma BelowSegments(front: seq<string>, id: string, segments: seq<string>)
    requires AllPlain(front) && AllPlain(segments)
    requires Canonical(segments) == Canonical(front) + "/" + id
    ensures |front| <= |segments| && segments[..|front|] == front
  {
    var rest := "/" + id;
    SegmentsOfCanonical(segments);
    SegmentsAfter(front, rest);
    Associate(Canonical(front), "/", id);
    Prefix(segments, front, Segments(rest, ""));
  }

  lemma Prefix(whole: seq<string>, front: seq<string>, rest: seq<string>)
    requires whole == front + rest
    ensures |front| <= |whole| && whole[..|front|] == front
  {
  }

  lemma Below(front: seq<string>, id: string) returns (segments: seq<string>)
    requires AllPlain(front) && front != [] && ParsesToItself(Canonical(front) + "/" + id)
    ensures ParseSegments(segments).Some? && |front| <= |segments|
    ensures segments[..|front|] == front
    ensures Canonical(segments) == Canonical(front) + "/" + id
  {
    segments := AcceptedSegments(Some(Canonical(front) + "/" + id));
    Accepted(segments);
    BelowSegments(front, id, segments);
  }

  lemma RecordIsUuid(r: Root, id: string)
    requires ParsesToItself("/" + RootName(r) + "/" + id)
    ensures IsUuid(id)
  {
    RootIsPlain(r);
    RootIsNamed(r);
    CanonicalOne(RootName(r));
    var segments := Below([RootName(r)], id);
    CanonicalShort(segments);
    assert segments[0] == [RootName(r)][0];
    if |segments| == 2 { SameEnd("/" + RootName(r) + "/", id, segments[1]); }
  }

  lemma SameEnd(a: string, b: string, c: string)
    requires a + b == a + c
    ensures b == c
  {
    assert (a + b)[|a|..] == b && (a + c)[|a|..] == c;
  }

  lemma MemberIsUuid(c: Collection, id: string)
    requires ParsesToItself("/" + WORKFORCE + "/" + CollectionName(c) + "/" + id)
    ensures IsUuid(id)
  {
    WorkforceIsPlain();
    CollectionIsPlain(c);
    CanonicalTwo(WORKFORCE, CollectionName(c));
    var front := [WORKFORCE, CollectionName(c)];
    var segments := Below(front, id);
    WorkforceOnly(segments, front);
    CanonicalShort(segments);
    if |segments| == 3 {
      SameEnd("/" + WORKFORCE + "/" + CollectionName(c) + "/", id, segments[2]);
    }
  }

  lemma WorkforceOnly(segments: seq<string>, front: seq<string>)
    requires ParseSegments(segments).Some? && 2 <= |segments| && |front| == 2
    requires segments[..2] == front && front[0] == WORKFORCE
    ensures segments[0] == WORKFORCE && segments[1] == front[1] && |segments| <= 3
    ensures |segments| == 3 ==> IsUuid(segments[2])
  {
    assert segments[0] == segments[..2][0] && segments[1] == segments[..2][1];
  }

  lemma RecordParses(r: Root, id: string)
    requires DetailView(r).Some? && IsUuid(id)
    ensures ParsesToItself("/" + RootName(r) + "/" + id)
  {
    RootIsNamed(r);
    CanonicalTwo(RootName(r), id);
    CanonicalParsesToItself([RootName(r), id]);
  }

  lemma MemberAccepted(c: Collection, id: string)
    requires IsUuid(id)
    ensures ParseSegments([WORKFORCE, CollectionName(c), id]).Some?
  {
    CollectionIsPlain(c);
  }

  lemma MemberParses(c: Collection, id: string)
    requires IsUuid(id)
    ensures ParsesToItself("/" + WORKFORCE + "/" + CollectionName(c) + "/" + id)
  {
    MemberAccepted(c, id);
    CanonicalThree(WORKFORCE, CollectionName(c), id);
    CanonicalParsesToItself([WORKFORCE, CollectionName(c), id]);
  }

  lemma ListsParse(r: Root, c: Collection)
    ensures ParsesToItself("/" + RootName(r)) && ParsesToItself("/" + WORKFORCE)
    ensures ParsesToItself(MemberParent(c))
  {
    RootAccepted(r);
    CanonicalOne(RootName(r));
    CanonicalParsesToItself([RootName(r)]);
    var organization := MemberParentSegments(Teams);
    CanonicalParsesToItself(organization);
    var parent := MemberParentSegments(c);
    CanonicalParsesToItself(parent);
  }

  predicate UsesId(t: Target) {
    t.RecordOf? || t.MemberOf?
  }

  lemma TargetsParseBack(t: Target, id: Option<string>)
    requires TargetPath(t, id).Some?
    requires t.RecordOf? ==> DetailView(t.root).Some?
    requires t.CollectionOf? ==> CollectionView(t.collection).Some?
    ensures ParsesToItself(TargetPath(t, id).value) <==>
            !UsesId(t) || !Given(id) || IsUuid(id.value)
  {
    match t
    case ListOf(r) => ListsParse(r, Teams);
    case Workforce => ListsParse(Companies, Teams);
    case CollectionOf(c) => ListsParse(Companies, c);
    case RecordOf(r) => RecordParsesBack(r, id.value);
    case MemberOf(c) =>
      if Given(id) { MemberParsesBack(c, id.value); } else { ListsParse(Companies, c); }
  }

  lemma RecordParsesBack(r: Root, id: string)
    requires DetailView(r).Some?
    ensures ParsesToItself("/" + RootName(r) + "/" + id) <==> IsUuid(id)
  {
    if IsUuid(id) { RecordParses(r, id); }
    if ParsesToItself("/" + RootName(r) + "/" + id) { RecordIsUuid(r, id); }
  }

  lemma MemberParsesBack(c: Collection, id: string)
    ensures ParsesToItself("/" + WORKFORCE + "/" + CollectionName(c) + "/" + id) <==> IsUuid(id)
  {
    if IsUuid(id) { MemberParses(c, id); }
    if ParsesToItself("/" + WORKFORCE + "/" + CollectionName(c) + "/" + id) {
      MemberIsUuid(c, id);
    }
  }

  /** The path of an artifact parses back to itself exactly when its record id is not used, absent or
      empty, or a UUID. */
  lemma ArtifactPathsParseBack(t: ArtifactType, id: Option<string>)
    requires PathForArtifactType(t, id).Some?
    ensures ParsesToItself(PathForArtifactType(t, id).value) <==>
            !UsesId(TargetOf(t)) || !Given(id) || IsUuid(id.value)
  {
    TargetsParseBack(TargetOf(t), id);
  }

  /** No absolute URL is accepted, whatever its host: the scheme is refused before the origin would be
      cut off, which therefore never happens. */
  lemma AbsoluteUrlsAreRefused(value: string)
    requires OriginHost(Trim(value)).Some?
    ensures Parse(Some(value)) == None
  {
    OriginIsScheme(Trim(value));
  }

  lemma OriginIsScheme(s: string)
    requires OriginHost(s).Some?
    ensures HasScheme(s)
  {
    var scheme := OriginHost(s).value - 3;
    assert s[scheme..][0] == ':';
    assert SchemeEnds(s[scheme..]);
    OriginLetters(s, scheme);
    SchemeFrom(s, scheme);
  }

  lemma OriginLetters(s: string, scheme: nat)
    requires OriginHost(s) == Some(scheme + 3)
    ensures 1 <= scheme < |s| && IsLetter(s[0]) && forall i :: 1 <= i < scheme ==> InScheme(s[i])
  {
  }

  lemma {:induction false} SchemeFrom(s: string, k: nat)
    requires 1 <= k <= |s| && SchemeEnds(s[k..]) && IsLetter(s[0])
    requires forall i :: 1 <= i < k ==> InScheme(s[i])
    ensures HasScheme(s)
  {
    if k > 1 {
      assert s[k - 1..][1..] == s[k..] && s[k - 1..][0] == s[k - 1];
      SchemeFrom(s, k - 1);
    }
  }
}
