/** The paths of the workspace as a table of pages: which texts are accepted, exactly, and as what. */
module WorkspaceRoutes {
  import opened JsText
  import opened WorkspacePaths
  import opened WorkspacePathLaws

  // ---- The pages -----------------------------------------------------------------------------------

  predicate ListPage(name: string, view: View) {
    || (name == "companies" && view == CompanyList)
    || (name == "contacts" && view == ContactList)
    || (name == "leads" && view == LeadList)
    || (name == "tasks" && view == TaskList)
    || (name == "activities" && view == ActivityView)
    || (name == "notifications" && view == NotificationView)
    || (name == "workflow-runs" && view == WorkflowRunsView)
    || (name == "integrations" && view == IntegrationHealth)
    || (name == "sources" && view == SourcesView)
    || (name == "digital-workforce" && view == Organization)
  }

  predicate RecordPage(name: string, view: View) {
    || (name == "companies" && view == CompanyDetail)
    || (name == "contacts" && view == ContactDetail)
    || (name == "leads" && view == LeadDetail)
    || (name == "tasks" && view == TaskDetail)
    || (name == "workflow-runs" && view == WorkflowRunDetail)
  }

  predicate CollectionPage(name: string, view: View) {
    || (name == "agents" && view == AgentList)
    || (name == "runs" && view == RunList)
  }

  predicate MemberPage(name: string, view: View, parent: string) {
    || (name == "agents" && view == AgentDetail && parent == "/digital-workforce/agents")
    || (name == "runs" && view == RunTrace && parent == "/digital-workforce/runs")
    || (name == "handoffs" && view == HandoffDetail && parent == "/digital-workforce/runs")
    || (name == "departments" && view == DepartmentView && parent == "/digital-workforce")
    || (name == "teams" && view == TeamView && parent == "/digital-workforce")
  }

  predicate HexDigit(c: char) {
    c in "0123456789abcdefABCDEF"
  }

  predicate Hex(s: string, n: nat) {
    |s| == n && forall i :: 0 <= i < n ==> HexDigit(s[i])
  }

  /** Five groups of hexadecimal digits; version 1 to 8, variant 8, 9, a or b. */
  predicate UuidOf(s: string, a: string, b: string, c: string, d: string, e: string) {
    && s == a + "-" + b + "-" + c + "-" + d + "-" + e
    && Hex(a, 8) && Hex(b, 4) && Hex(c, 4) && Hex(d, 4) && Hex(e, 12)
    && c[0] in "12345678" && d[0] in "89abAB"
  }

  ghost predicate Uuid(s: string) {
    exists a, b, c, d, e :: UuidOf(s, a, b, c, d, e)
  }

  /** The page that some segments name, with its canonical path, its record and its parent. */
  ghost predicate Page(segments: seq<string>, p: Parsed) {
    match |segments|
    case 1 =>
      && ListPage(segments[0], p.view)
      && p.path == "/" + segments[0] && p.recordId == None && p.parentPath == None
    case 2 =>
      && p.path == "/" + segments[0] + "/" + segments[1] && p.parentPath == Some("/" + segments[0])
      && if segments[0] == "digital-workforce"
         then CollectionPage(segments[1], p.view) && p.recordId == None
         else RecordPage(segments[0], p.view) && Uuid(segments[1]) && p.recordId == Some(segments[1])
    case 3 =>
      && segments[0] == "digital-workforce" && Uuid(segments[2])
      && p.parentPath.Some? && MemberPage(segments[1], p.view, p.parentPath.value)
      && p.path == "/" + segments[0] + "/" + segments[1] + "/" + segments[2]
      && p.recordId == Some(segments[2])
    case _ => false
  }

  lemma UuidExactly(s: string)
    ensures IsUuid(s) <==> Uuid(s)
  {
    if IsUuid(s) {
      var a, b, c, d, e := s[..8], s[9..13], s[14..18], s[19..23], s[24..];
      UuidGroups(s);
      assert UuidOf(s, a, b, c, d, e);
    }
    if Uuid(s) {
      var a, b, c, d, e :| UuidOf(s, a, b, c, d, e);
      GroupsAreUuid(s, a, b, c, d, e);
    }
  }

  lemma HexDigits(c: char)
    ensures HexDigit(c) <==> IsHex(c)
  {
  }

  lemma UuidGroups(s: string)
    requires IsUuid(s)
    ensures s == s[..8] + "-" + s[9..13] + "-" + s[14..18] + "-" + s[19..23] + "-" + s[24..]
    ensures Hex(s[..8], 8) && Hex(s[9..13], 4) && Hex(s[14..18], 4) && Hex(s[19..23], 4)
    ensures Hex(s[24..], 12) && s[14] in "12345678"
  {
    FiveGroups(s);
    UuidDigits(s);
  }

  lemma FiveGroups(s: string)
    requires |s| == 36 && s[8] == '-' && s[13] == '-' && s[18] == '-' && s[23] == '-'
    ensures s == s[..8] + "-" + s[9..13] + "-" + s[14..18] + "-" + s[19..23] + "-" + s[24..]
  {
  }

  lemma UuidDigits(s: string)
    requires IsUuid(s)
    ensures forall i :: 0 <= i < 36 && i != 8 && i != 13 && i != 18 && i != 23 ==> HexDigit(s[i])
    ensures s[14] in "12345678"
  {
    forall i | 0 <= i < 36 && i != 8 && i != 13 && i != 18 && i != 23 ensures HexDigit(s[i]) {
      HexDigits(s[i]);
    }
  }

  lemma GroupsAreUuid(s: string, a: string, b: string, c: string, d: string, e: string)
    requires UuidOf(s, a, b, c, d, e)
    ensures IsUuid(s)
  {
    forall i | 0 <= i < 36
      ensures s[i] == if i < 8 then a[i] else if i == 8 then '-' else if i < 13 then b[i - 9]
                      else if i == 13 then '-' else if i < 18 then c[i - 14]
                      else if i == 18 then '-' else if i < 23 then d[i - 19]
                      else if i == 23 then '-' else e[i - 24]
    {
    }
  }

  /** Segments are accepted exactly as the page they name. */
  lemma SegmentsExactly(segments: seq<string>, p: Parsed)
    ensures ParseSegments(segments) == Some(p) <==> Page(segments, p)
  {
    if |segments| == 1 {
      OneExactly(segments[0], p);
      assert segments == [segments[0]];
    } else if |segments| == 2 {
      TwoExactly(segments[0], segments[1], p);
      assert segments == [segments[0], segments[1]];
    } else if |segments| == 3 {
      ThreeExactly(segments[0], segments[1], segments[2], p);
      assert segments == [segments[0], segments[1], segments[2]];
    }
  }

  lemma RootPages(r: Root, view: View)
    ensures ListPage(RootName(r), view) <==> view == ListView(r)
    ensures RecordPage(RootName(r), view) <==> DetailView(r) == Some(view)
  {
  }

  lemma NoRootPages(name: string, view: View)
    requires RootNamed(name).None?
    ensures ListPage(name, view) <==> name == "digital-workforce" && view == Organization
    ensures !RecordPage(name, view)
  {
  }

  lemma WorkforceIsNoRoot()
    ensures RootNamed(WORKFORCE) == None
  {
  }

  lemma CollectionPages(c: Collection, view: View)
    ensures CollectionPage(CollectionName(c), view) <==> CollectionView(c) == Some(view)
  {
  }

  /** The parents of the table, spelled out. */
  function ParentPath(c: Collection): string {
    match c
    case Agents => "/digital-workforce/agents"
    case Runs => "/digital-workforce/runs"
    case Handoffs => "/digital-workforce/runs"
    case Departments => "/digital-workforce"
    case Teams => "/digital-workforce"
  }

  lemma ParentPaths(c: Collection)
    ensures MemberParent(c) == ParentPath(c)
  {
    match c
    case Agents => assert "/" + WORKFORCE + "/" + "agents" == "/digital-workforce/agents";
    case Runs => assert "/" + WORKFORCE + "/" + "runs" == "/digital-workforce/runs";
    case Handoffs => assert "/" + WORKFORCE + "/" + "runs" == "/digital-workforce/runs";
    case _ => assert "/" + WORKFORCE == "/digital-workforce";
  }

  lemma MemberPages(c: Collection, view: View, parent: string)
    ensures MemberPage(CollectionName(c), view, parent) <==>
            view == MemberView(c) && parent == MemberParent(c)
  {
    ParentPaths(c);
  }

  lemma NoCollectionPages(name: string, view: View)
    requires CollectionNamed(name).None?
    ensures !CollectionPage(name, view)
  {
    NotACollection(name);
  }

  lemma NoMemberPages(name: string, view: View, parent: string)
    requires CollectionNamed(name).None?
    ensures !MemberPage(name, view, parent)
  {
    NotACollection(name);
  }

  lemma NotACollection(name: string)
    requires CollectionNamed(name).None?
    ensures name != "agents" && name != "runs" && name != "handoffs"
    ensures name != "departments" && name != "teams"
  {
  }

  lemma OneExactly(a: string, p: Parsed)
    ensures ParseSegments([a]) == Some(p) <==> Page([a], p)
  {
    WorkforceIsNoRoot();
    if RootNamed(a).Some? {
      RootPages(RootNamed(a).value, p.view);
    } else {
      NoRootPages(a, p.view);
    }
  }

  lemma TwoExactly(a: string, b: string, p: Parsed)
    ensures ParseSegments([a, b]) == Some(p) <==> Page([a, b], p)
  {
    WorkforceIsNoRoot();
    UuidExactly(b);
    if RootNamed(a).Some? {
      RootPages(RootNamed(a).value, p.view);
    } else {
      NoRootPages(a, p.view);
    }
    if CollectionNamed(b).Some? {
      CollectionPages(CollectionNamed(b).value, p.view);
    } else {
      NoCollectionPages(b, p.view);
    }
  }

  lemma ThreeExactly(a: string, b: string, c: string, p: Parsed)
    ensures ParseSegments([a, b, c]) == Some(p) <==> Page([a, b, c], p)
  {
    UuidExactly(c);
    var parent := if p.parentPath.Some? then p.parentPath.value else "";
    if CollectionNamed(b).Some? {
      MemberPages(CollectionNamed(b).value, p.view, parent);
    } else {
      NoMemberPages(b, p.view, parent);
    }
  }

  // ---- The text of a path ----------------------------------------------------------------------------

  /** Each segment after one or more slashes, and any number of slashes after the last. */
  ghost predicate Spells(text: string, segments: seq<string>)
    decreases |segments|
  {
    if segments == [] then Slashes(text)
    else exists slashes, rest :: Begins(text, slashes, segments[0], rest) && Spells(rest, segments[1..])
  }

  predicate Begins(text: string, slashes: string, word: string, rest: string) {
    && text == slashes + (word + rest) && slashes != "" && Slashes(slashes)
    && word != "" && '/' !in word && (rest == "" || rest[0] == '/')
  }

  /** The text stands for a page: a path whose segments name it, and perhaps a query or a fragment,
      with white space around. */
  ghost predicate Shows(value: string, p: Parsed) {
    exists path, tail, segments :: PathAndTail(Trim(value), path, tail) && Spells(path, segments)
                                   && Page(segments, p)
  }

  predicate PathAndTail(text: string, path: string, tail: string) {
    && text == path + tail && '?' !in path && '#' !in path && QueryOrFragment(tail)
    && "/" <= path && !("//" <= path)
  }

  /** What is accepted, exactly: texts of up to 2,048 characters that show a page, as that page. */
  lemma ParsesExactly(value: Option<string>, p: Parsed)
    ensures Parse(value) == Some(p) <==>
            value.Some? && |value.value| <= 2_048 && Shows(value.value, p)
  {
    if value.Some? {
      if Parse(value) == Some(p) {
        ParsedShows(value.value, p);
      }
      if |value.value| <= 2_048 && Shows(value.value, p) {
        var path, tail, segments :| PathAndTail(Trim(value.value), path, tail)
                                    && Spells(path, segments) && Page(segments, p);
        ShownParses(value.value, p, path, tail, segments);
      }
    }
  }

  lemma ParsedShows(value: string, p: Parsed)
    requires Parse(Some(value)) == Some(p)
    ensures Shows(value, p)
  {
    var t := Trim(value);
    TrimTwice(value);
    if OriginHost(t).Some? { OriginIsScheme(t); }
    assert WithoutOrigin(t) == t;
    var path := BeforeQuery(t);
    var tail := Tail(t);
    var segments := Segments(path, "");
    FirstSlash(StripSlashes(path));
    TrailingSlashes(path);
    SegmentsSpell(path);
    SegmentsExactly(segments, p);
    assert PathAndTail(t, path, tail);
  }

  lemma ShownParses(value: string, p: Parsed, path: string, tail: string, segments: seq<string>)
    requires |value| <= 2_048
    requires PathAndTail(Trim(value), path, tail) && Spells(path, segments) && Page(segments, p)
    ensures Parse(Some(value)) == Some(p)
  {
    var t := Trim(value);
    TrimTwice(value);
    PathIsNormalized(t, path, tail);
    SpelledSegments(path, segments);
    TrailingSlashes(path);
    SegmentsExactly(segments, p);
    PathSegments(path, segments, p);
  }

  lemma PathIsNormalized(t: string, path: string, tail: string)
    requires PathAndTail(t, path, tail) && Trim(t) == t
    ensures !HasScheme(t)
    ensures NormalizePathname(t) == if StripSlashes(path) == "" then "/" else StripSlashes(path)
  {
    PathHasNoOrigin(t);
    BeforeQueryIs(path, tail);
  }

  /** A path that has a page is not all slashes. */
  lemma PathSegments(path: string, segments: seq<string>, p: Parsed)
    requires Segments(StripSlashes(path), "") == segments && ParseSegments(segments) == Some(p)
    requires StripSlashes(path) == "" || StripSlashes(path)[0] == '/'
    ensures StripSlashes(path) != "" && StripSlashes(path) != "/"
    ensures Segments(StripSlashes(path)[1..], "") == segments
  {
    assert Segments("", "") == [];
    FirstSlash("/");
    assert "/"[1..] == "";
    if StripSlashes(path) != "" { FirstSlash(StripSlashes(path)); }
  }

  lemma {:induction false} Tail(t: string) returns (tail: string)
    ensures t == BeforeQuery(t) + tail && QueryOrFragment(tail)
    ensures '?' !in BeforeQuery(t) && '#' !in BeforeQuery(t)
  {
    if t == "" || t[0] == '?' || t[0] == '#' {
      tail := t;
    } else {
      tail := Tail(t[1..]);
      Associate([t[0]], BeforeQuery(t[1..]), tail);
      HeadAndTail(t);
    }
  }

  lemma {:induction false} SlashAdds(s: string, part: string)
    ensures Segments(s + "/", part) == Segments(s, part)
    decreases |s|
  {
    if s == "" {
      assert "/"[1..] == "" && Kept(part) + [] == Kept(part);
    } else {
      DropWithin(s, "/", 1);
      SlashAdds(s[1..], if s[0] == '/' then "" else part + [s[0]]);
    }
  }

  /** Stripping the slashes at the end of a path changes no segment, and leaves its first slash
      unless there is nothing else. */
  lemma {:induction false} TrailingSlashes(path: string)
    ensures Segments(StripSlashes(path), "") == Segments(path, "")
    ensures StripSlashes(path) == "" || StripSlashes(path)[0] == path[0]
  {
    if path != "" && path[|path| - 1] == '/' {
      FrontAndLast(path);
      SlashAdds(path[..|path| - 1], "");
      TrailingSlashes(path[..|path| - 1]);
    }
  }

  lemma {:induction false} SlashesSkip(slashes: string, rest: string)
    requires Slashes(slashes)
    ensures Segments(slashes + rest, "") == Segments(rest, "")
    decreases |slashes|
  {
    if slashes == "" {
      WithEmpty(rest);
    } else {
      DropWithin(slashes, rest, 1);
      SlashesSkip(slashes[1..], rest);
      WithEmpty(Segments(rest, ""));
    }
  }

  lemma WordSkips(word: string, rest: string)
    requires word != "" && '/' !in word && (rest == "" || rest[0] == '/')
    ensures Segments(word + rest, "") == [word] + Segments(rest, "")
  {
    WordThen(word, rest, "");
    WithEmpty(word);
    LastWord(word, rest);
  }

  lemma {:induction false} SpelledSegments(text: string, segments: seq<string>)
    requires Spells(text, segments)
    ensures Segments(text, "") == segments
    decreases |segments|
  {
    if segments == [] {
      SlashesSkip(text, "");
      WithEmpty(text);
    } else {
      var slashes, rest :| Begins(text, slashes, segments[0], rest) && Spells(rest, segments[1..]);
      SlashesSkip(slashes, segments[0] + rest);
      WordSkips(segments[0], rest);
      SpelledSegments(rest, segments[1..]);
      HeadAndTail(segments);
    }
  }

  lemma {:induction false} LeadingSlashes(text: string) returns (slashes: string, later: string)
    ensures text == slashes + later && Slashes(slashes) && (later == "" || later[0] != '/')
    ensures text != "" && text[0] == '/' ==> slashes != ""
  {
    if text != "" && text[0] == '/' {
      slashes, later := LeadingSlashes(text[1..]);
      slashes := "/" + slashes;
      HeadAndTail(text);
    } else {
      slashes, later := "", text;
    }
  }

  lemma {:induction false} FirstWord(text: string) returns (word: string, rest: string)
    ensures text == word + rest && '/' !in word && (rest == "" || rest[0] == '/')
    ensures text != "" && text[0] != '/' ==> word != ""
  {
    if text != "" && text[0] != '/' {
      word, rest := FirstWord(text[1..]);
      word := [text[0]] + word;
      HeadAndTail(text);
    } else {
      word, rest := "", text;
    }
  }

  lemma {:induction false} SegmentsSpell(text: string)
    requires text == "" || text[0] == '/'
    ensures Spells(text, Segments(text, ""))
    decreases |text|
  {
    var slashes, later := LeadingSlashes(text);
    SlashesSkip(slashes, later);
    if later == "" {
      WithEmpty(slashes);
    } else {
      var word, rest := FirstWord(later);
      WordSkips(word, rest);
      SegmentsSpell(rest);
      var segments := [word] + Segments(rest, "");
      assert segments[0] == word && segments[1..] == Segments(rest, "");
      assert Begins(text, slashes, segments[0], rest) && Spells(rest, segments[1..]);
      assert Spells(text, segments);
    }
  }

  // ---- Artifacts ---------------------------------------------------------------------------------------

  /** The page meant for an artifact: with and without a record id. */
  function ViewMeant(t: ArtifactType, given: bool): Option<View> {
    match t
    case TypeCompanyList => Some(CompanyList)
    case TypeCompanyDetail => if given then Some(CompanyDetail) else None
    case TypeContactList => Some(ContactList)
    case TypeContactDetail => if given then Some(ContactDetail) else None
    case TypeLeadList => Some(LeadList)
    case TypeLeadDetail => if given then Some(LeadDetail) else None
    case TypeTaskList => Some(TaskList)
    case TypeTaskDetail => if given then Some(TaskDetail) else None
    case TypeActivityTimeline => Some(ActivityView)
    case TypeNotificationList => Some(NotificationView)
    case TypeWorkflowRunList => Some(WorkflowRunsView)
    case TypeWorkflowRunDetail => if given then Some(WorkflowRunDetail) else None
    case TypeIntegrationHealthSummary => Some(IntegrationHealth)
    case TypeIntegrationDetail => Some(IntegrationHealth)
    case TypeOrganization => Some(Organization)
    case TypeAgentList => Some(AgentList)
    case TypeAgentDetail => Some(if given then AgentDetail else AgentList)
    case TypeAgentDraft => Some(if given then AgentDetail else AgentList)
    case TypeRunList => Some(RunList)
    case TypeRunTrace => Some(if given then RunTrace else RunList)
    case TypeArtifacts => Some(if given then RunTrace else RunList)
    case TypeHandoffDetail => Some(if given then HandoffDetail else RunList)
    case TypeHandoffList => Some(if given then HandoffDetail else RunList)
    case TypeDepartment => Some(if given then DepartmentView else Organization)
    case TypeTeam => Some(if given then TeamView else Organization)
    case TypeOther => None
  }

  /** The path of an artifact opens the page meant for it, on its record if it names one. */
  lemma ArtifactsOpenTheirPage(t: ArtifactType, id: Option<string>)
    requires Given(id) ==> IsUuid(id.value)
    ensures PathForArtifactType(t, id).Some? <==> ViewMeant(t, Given(id)).Some?
    ensures PathForArtifactType(t, id).Some? ==>
              Opens(PathForArtifactType(t, id).value, ViewMeant(t, Given(id)), id)
  {
    TargetsAreMeant(t, Given(id));
    TargetOpens(TargetOf(t), id);
  }

  function TargetView(t: Target, given: bool): Option<View> {
    match t
    case ListOf(r) => Some(ListView(r))
    case RecordOf(r) => if given then DetailView(r) else None
    case Workforce => Some(Organization)
    case CollectionOf(c) => CollectionView(c)
    case MemberOf(c) => Some(if given then MemberView(c) else ParentView(c))
    case Nothing => None
  }

  function ParentView(c: Collection): View {
    match c
    case Agents => AgentList
    case Runs => RunList
    case Handoffs => RunList
    case Departments => Organization
    case Teams => Organization
  }

  lemma TargetsAreMeant(t: ArtifactType, given: bool)
    ensures TargetView(TargetOf(t), given) == ViewMeant(t, given)
    ensures TargetOf(t).RecordOf? ==> DetailView(TargetOf(t).root).Some?
    ensures TargetOf(t).CollectionOf? ==> CollectionView(TargetOf(t).collection).Some?
  {
  }

  predicate Opens(path: string, view: Option<View>, id: Option<string>) {
    var p := Parse(Some(path));
    && p.Some? && Some(p.value.view) == view && (p.value.recordId.Some? ==> p.value.recordId == id)
  }

  lemma TargetOpens(t: Target, id: Option<string>)
    requires Given(id) ==> IsUuid(id.value)
    requires t.RecordOf? ==> DetailView(t.root).Some?
    requires t.CollectionOf? ==> CollectionView(t.collection).Some?
    ensures TargetPath(t, id).Some? <==> TargetView(t, Given(id)).Some?
    ensures TargetPath(t, id).Some? ==> Opens(TargetPath(t, id).value, TargetView(t, Given(id)), id)
  {
    match t
    case ListOf(r) => ListOpens(r);
    case RecordOf(r) => if Given(id) { RecordOpens(r, id.value); }
    case Workforce => WorkforceOpens();
    case CollectionOf(c) => CollectionOpens(c);
    case MemberOf(c) =>
      if Given(id) { MemberOpens(c, id.value); } else { ParentOpens(c); }
    case Nothing =>
  }

  lemma ListOpens(r: Root)
    ensures Parse(Some("/" + RootName(r))) == Some(Parsed("/" + RootName(r), ListView(r), None, None))
  {
    RootAccepted(r);
    CanonicalOne(RootName(r));
    CanonicalParses([RootName(r)]);
  }

  lemma RecordOpens(r: Root, id: string)
    requires IsUuid(id) && DetailView(r).Some?
    ensures var path := "/" + RootName(r) + "/" + id;
            Parse(Some(path)) == Some(Parsed(path, DetailView(r).value, Some(id), Some("/" + RootName(r))))
  {
    RootIsNamed(r);
    CanonicalTwo(RootName(r), id);
    CanonicalParses([RootName(r), id]);
  }

  lemma WorkforceOpens()
    ensures Parse(Some("/" + WORKFORCE)) == Some(Parsed("/" + WORKFORCE, Organization, None, None))
  {
    CanonicalOne(WORKFORCE);
    CanonicalParses([WORKFORCE]);
  }

  lemma CollectionOpens(c: Collection)
    requires CollectionView(c).Some?
    ensures var path := "/" + WORKFORCE + "/" + CollectionName(c);
            Parse(Some(path)) == Some(Parsed(path, CollectionView(c).value, None, Some("/" + WORKFORCE)))
  {
    CollectionIsPlain(c);
    CanonicalTwo(WORKFORCE, CollectionName(c));
    CanonicalParses([WORKFORCE, CollectionName(c)]);
  }

  lemma ParentOpens(c: Collection)
    ensures Parse(Some(MemberParent(c))).Some?
    ensures var p := Parse(Some(MemberParent(c))).value;
            p.recordId == None && p.view == ParentView(c)
  {
    match c
    case Agents => CollectionOpens(Agents);
    case Runs => CollectionOpens(Runs);
    case Handoffs => CollectionOpens(Runs);
    case Departments => WorkforceOpens();
    case Teams => WorkforceOpens();
  }

  lemma MemberOpens(c: Collection, id: string)
    requires IsUuid(id)
    ensures var path := "/" + WORKFORCE + "/" + CollectionName(c) + "/" + id;
            Parse(Some(path)) == Some(Parsed(path, MemberView(c), Some(id), Some(MemberParent(c))))
  {
    CollectionIsPlain(c);
    CanonicalThree(WORKFORCE, CollectionName(c), id);
    CanonicalParses([WORKFORCE, CollectionName(c), id]);
  }
}
