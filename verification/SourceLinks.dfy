/** The two deduplications of provider sources in `apps/web/lib/ai-command-stream.ts`: the source
    board keeps the last web source of a URL, the ordered links keep the first, and still both list
    the same URLs in the same order. */
module SourceLinks {
  import opened JsText
  import opened InsertionMap

  datatype Source = Source(id: string, title: string, domain: string, url: string, retrievedAt: string)
  datatype Link = Link(id: string, title: string, url: string)

  type Board = seq<Entry<string, Source>>

  const MAX_LINKS := 30

  function Urls(sources: seq<Source>): seq<string> {
    seq(|sources|, i requires 0 <= i < |sources| => sources[i].url)
  }

  // ---- First appearances -------------------------------------------------------------------------

  /** The keys after setting each URL in turn. */
  function Extend(keys: seq<string>, urls: seq<string>): seq<string>
    decreases |urls|
  {
    if urls == [] then keys
    else Extend(if urls[0] in keys then keys else keys + [urls[0]], urls[1..])
  }

  /** The URLs of a list without repeats, in the order of first appearance. */
  function FirstSeen(urls: seq<string>): seq<string> {
    Extend([], urls)
  }

  function FirstIndex(urls: seq<string>, url: string): (i: nat)
    ensures i <= |urls| && (i < |urls| ==> urls[i] == url) && url !in urls[..i]
    ensures i < |urls| <==> url in urls
  {
    if urls == [] || urls[0] == url then 0 else 1 + FirstIndex(urls[1..], url)
  }

  lemma {:induction false} ExtendConcat(keys: seq<string>, a: seq<string>, b: seq<string>)
    ensures Extend(Extend(keys, a), b) == Extend(keys, a + b)
    decreases |a|
  {
    if a == [] {
      assert a + b == b;
    } else {
      assert (a + b)[1..] == a[1..] + b;
      ExtendConcat(if a[0] in keys then keys else keys + [a[0]], a[1..], b);
    }
  }

  lemma ExtendOne(keys: seq<string>, url: string)
    ensures Extend(keys, [url]) == if url in keys then keys else keys + [url]
  {
    assert [url][1..] == [];
  }

  /** What `FirstSeen` means: the same URLs, ordered by where they first appear. */
  lemma {:induction false} FirstSeenIsFirstAppearance(urls: seq<string>)
    ensures forall u :: u in FirstSeen(urls) <==> u in urls
    ensures var r := FirstSeen(urls);
            forall i, j :: 0 <= i < j < |r| ==> FirstIndex(urls, r[i]) < FirstIndex(urls, r[j])
    decreases |urls|
  {
    if urls != [] {
      var n := |urls| - 1;
      var before, last := urls[..n], urls[n];
      FirstSeenIsFirstAppearance(before);
      assert urls == before + [last];
      ExtendConcat([], before, [last]);
      ExtendOne(FirstSeen(before), last);
      forall u | u in before ensures FirstIndex(urls, u) == FirstIndex(before, u) {
        FirstIndexPrefix(before, last, u);
      }
      if last !in before {
        FirstIndexLast(before, last);
      }
    }
  }

  lemma {:induction false} FirstIndexPrefix(before: seq<string>, last: string, u: string)
    requires u in before
    ensures FirstIndex(before + [last], u) == FirstIndex(before, u) < |before|
  {
    if before[0] != u {
      assert (before + [last])[1..] == before[1..] + [last];
      FirstIndexPrefix(before[1..], last, u);
    }
  }

  lemma {:induction false} FirstIndexLast(before: seq<string>, last: string)
    requires last !in before
    ensures FirstIndex(before + [last], last) == |before|
  {
    if before != [] {
      assert (before + [last])[1..] == before[1..] + [last];
      FirstIndexLast(before[1..], last);
    }
  }

  // ---- The two maps ----------------------------------------------------------------------------------

  /** `byUrl.set` for each source. */
  function SetAll(m: Board, sources: seq<Source>): Board
    decreases |sources|
  {
    if sources == [] then m else SetAll(Set(m, sources[0].url, sources[0]), sources[1..])
  }

  /** `if (!byUrl.has(...)) byUrl.set(...)` for each source. */
  function AddMissing(m: Board, sources: seq<Source>): Board
    decreases |sources|
  {
    if sources == [] then m
    else AddMissing(if Has(m, sources[0].url) then m else Set(m, sources[0].url, sources[0]),
                    sources[1..])
  }

  function SourceBoard(web: seq<Source>, citations: seq<Source>): Board {
    AddMissing(SetAll([], web), citations)
  }

  function AllLinks(web: seq<Source>, citations: seq<Source>): Board {
    AddMissing([], web + citations)
  }

  function FirstLinks(m: Board): seq<Link> {
    seq(if |m| <= MAX_LINKS then |m| else MAX_LINKS,
        i requires 0 <= i < |m| => Link(m[i].value.id, m[i].value.title, m[i].value.url))
  }

  method SourceBoardForResult(web: seq<Source>, citations: seq<Source>) returns (byUrl: Board)
    ensures byUrl == SourceBoard(web, citations)
  {
    byUrl := [];
    for k := 0 to |web|
      invariant SetAll(byUrl, web[k..]) == SetAll([], web)
    {
      assert web[k..][1..] == web[k + 1..];
      byUrl := Set(byUrl, web[k].url, web[k]);
    }
    for k := 0 to |citations|
      invariant AddMissing(byUrl, citations[k..]) == SourceBoard(web, citations)
    {
      assert citations[k..][1..] == citations[k + 1..];
      if !Has(byUrl, citations[k].url) { byUrl := Set(byUrl, citations[k].url, citations[k]); }
    }
  }

  method OrderedSourceLinks(web: seq<Source>, citations: seq<Source>) returns (links: seq<Link>)
    ensures links == FirstLinks(AllLinks(web, citations))
  {
    var byUrl: Board := [];
    var sources := web + citations;
    for k := 0 to |sources|
      invariant AddMissing(byUrl, sources[k..]) == AllLinks(web, citations)
    {
      AddMissingStep(byUrl, sources, k);
      if !Has(byUrl, sources[k].url) { byUrl := Set(byUrl, sources[k].url, sources[k]); }
    }
    links := FirstLinks(byUrl);
  }

  lemma AddMissingStep(m: Board, sources: seq<Source>, k: nat)
    requires k < |sources|
    ensures AddMissing(m, sources[k..]) ==
            AddMissing(if Has(m, sources[k].url) then m else Set(m, sources[k].url, sources[k]),
                       sources[k + 1..])
  {
    assert sources[k..][1..] == sources[k + 1..];
  }

  // ---- Agreement ---------------------------------------------------------------------------------------

  /** Every entry is filed under its own URL. */
  predicate Filed(m: Board) {
    forall i :: 0 <= i < |m| ==> m[i].key == m[i].value.url
  }

  lemma {:induction false} SetAllKeys(m: Board, sources: seq<Source>)
    requires Filed(m)
    ensures Keys(SetAll(m, sources)) == Extend(Keys(m), Urls(sources)) && Filed(SetAll(m, sources))
    decreases |sources|
  {
    if sources != [] {
      SetKeys(m, sources[0].url, sources[0]);
      assert Urls(sources)[1..] == Urls(sources[1..]);
      SetAllKeys(Set(m, sources[0].url, sources[0]), sources[1..]);
    }
  }

  lemma {:induction false} AddMissingKeys(m: Board, sources: seq<Source>)
    requires Filed(m)
    ensures Keys(AddMissing(m, sources)) == Extend(Keys(m), Urls(sources))
    ensures Filed(AddMissing(m, sources))
    decreases |sources|
  {
    if sources != [] {
      SetKeys(m, sources[0].url, sources[0]);
      assert Urls(sources)[1..] == Urls(sources[1..]);
      AddMissingKeys(if Has(m, sources[0].url) then m else Set(m, sources[0].url, sources[0]),
                     sources[1..]);
    }
  }

  function LinkUrls(links: seq<Link>): seq<string> {
    seq(|links|, i requires 0 <= i < |links| => links[i].url)
  }

  /** The board lists every URL once, in first-appearance order over web sources then citations, and
      the links are its first 30 URLs. */
  lemma DeduplicationsAgree(web: seq<Source>, citations: seq<Source>)
    ensures var board := Keys(SourceBoard(web, citations));
            && board == FirstSeen(Urls(web) + Urls(citations))
            && LinkUrls(FirstLinks(AllLinks(web, citations))) ==
               if |board| <= 30 then board else board[..30]
  {
    BoardKeys(web, citations);
    LinkKeys(web, citations);
    LinksAreFirstKeys(AllLinks(web, citations));
  }

  lemma BoardKeys(web: seq<Source>, citations: seq<Source>)
    ensures Keys(SourceBoard(web, citations)) == FirstSeen(Urls(web) + Urls(citations))
  {
    var none: Board := [];
    assert Keys(none) == [];
    SetAllKeys(none, web);
    AddMissingKeys(SetAll(none, web), citations);
    ExtendConcat([], Urls(web), Urls(citations));
  }

  lemma LinkKeys(web: seq<Source>, citations: seq<Source>)
    ensures Filed(AllLinks(web, citations))
    ensures Keys(AllLinks(web, citations)) == FirstSeen(Urls(web) + Urls(citations))
  {
    var none: Board := [];
    assert Keys(none) == [];
    AddMissingKeys(none, web + citations);
    assert Urls(web + citations) == Urls(web) + Urls(citations);
  }

  lemma LinksAreFirstKeys(m: Board)
    requires Filed(m)
    ensures LinkUrls(FirstLinks(m)) ==
            if |m| <= MAX_LINKS then Keys(m) else Keys(m)[..MAX_LINKS]
  {
  }

  // ---- Which source is kept ------------------------------------------------------------------------------

  /** The last source of a list with a URL, or what was there before. */
  function LastWith(sources: seq<Source>, url: string, before: seq<Source>): seq<Source>
    decreases |sources|
  {
    if sources == [] then before
    else LastWith(sources[1..], url, if sources[0].url == url then [sources[0]] else before)
  }

  function FirstWith(sources: seq<Source>, url: string, before: seq<Source>): seq<Source>
    decreases |sources|
  {
    if sources == [] then before
    else FirstWith(sources[1..], url,
                   if sources[0].url == url && before == [] then [sources[0]] else before)
  }

  lemma {:induction false} SetAllKeepsLast(m: Board, sources: seq<Source>, url: string)
    ensures ValueAt(SetAll(m, sources), url) == LastWith(sources, url, ValueAt(m, url))
    decreases |sources|
  {
    if sources != [] {
      ValueAfterSet(m, sources[0].url, sources[0], url);
      SetAllKeepsLast(Set(m, sources[0].url, sources[0]), sources[1..], url);
    }
  }

  lemma {:induction false} AddMissingKeepsFirst(m: Board, sources: seq<Source>, url: string)
    ensures ValueAt(AddMissing(m, sources), url) == FirstWith(sources, url, ValueAt(m, url))
    decreases |sources|
  {
    if sources != [] {
      ValueAfterSet(m, sources[0].url, sources[0], url);
      AddMissingKeepsFirst(if Has(m, sources[0].url) then m else Set(m, sources[0].url, sources[0]),
                           sources[1..], url);
    }
  }

  /** The board shows the last web source of a URL, or the first citation if there is none; the links
      show the first of web sources and citations. */
  lemma WhichSourceIsKept(web: seq<Source>, citations: seq<Source>, url: string)
    ensures ValueAt(SourceBoard(web, citations), url) ==
            FirstWith(citations, url, LastWith(web, url, []))
    ensures ValueAt(AllLinks(web, citations), url) == FirstWith(web + citations, url, [])
  {
    SetAllKeepsLast([], web, url);
    AddMissingKeepsFirst(SetAll([], web), citations, url);
    AddMissingKeepsFirst([], web + citations, url);
  }

  lemma DistinctKeys<V>(m: seq<Entry<string, V>>, keys: seq<string>)
    requires Keys(m) == FirstSeen(keys)
    ensures forall i, j :: 0 <= i < j < |m| ==> m[i].key != m[j].key
  {
    FirstSeenIsFirstAppearance(keys);
    forall i, j | 0 <= i < j < |m| ensures m[i].key != m[j].key {
      assert FirstIndex(keys, Keys(m)[i]) < FirstIndex(keys, Keys(m)[j]);
    }
  }

  lemma {:induction false} FirstWithIsFirst(sources: seq<Source>, url: string)
    requires url in Urls(sources)
    ensures FirstWith(sources, url, []) == [sources[FirstIndex(Urls(sources), url)]]
    decreases |sources|
  {
    assert Urls(sources)[1..] == Urls(sources[1..]);
    if sources[0].url == url {
      FoundStays(sources[1..], url, sources[0]);
    } else {
      HeadAndTail(Urls(sources));
      FirstWithIsFirst(sources[1..], url);
    }
  }

  lemma {:induction false} FoundStays(sources: seq<Source>, url: string, found: Source)
    ensures FirstWith(sources, url, [found]) == [found]
    decreases |sources|
  {
    if sources != [] { FoundStays(sources[1..], url, found); }
  }

  /** Each link shows the id, the title and the URL of the first source with its URL, web sources
      before citations. */
  lemma LinksShowTheirFirstSource(web: seq<Source>, citations: seq<Source>, i: nat)
    requires i < |FirstLinks(AllLinks(web, citations))|
    ensures var link, sources := FirstLinks(AllLinks(web, citations))[i], web + citations;
            var k := FirstIndex(Urls(sources), link.url);
            && i < 30 && k < |sources|
            && link == Link(sources[k].id, sources[k].title, sources[k].url)
  {
    var m, sources := AllLinks(web, citations), web + citations;
    LinkKeys(web, citations);
    assert Urls(sources) == Urls(web) + Urls(citations);
    DistinctKeys(m, Urls(sources));
    FirstSeenIsFirstAppearance(Urls(sources));
    assert Keys(m)[i] == m[i].key == m[i].value.url;
    PositionIs(m, i, m[i].key);
    WhichSourceIsKept(web, citations, m[i].key);
    FirstWithIsFirst(sources, m[i].key);
  }
}
