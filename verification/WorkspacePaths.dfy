/** `apps/web/lib/ai-command-workspace-paths.ts`: which application paths open in the workspace, and
    the canonical path, view, record and parent they stand for. */
module WorkspacePaths {
  import opened JsText

  datatype View =
    | CompanyList | CompanyDetail | ContactList | ContactDetail | LeadList | LeadDetail
    | TaskList | TaskDetail | ActivityView | NotificationView | WorkflowRunsView
    | WorkflowRunDetail | IntegrationHealth | SourcesView
    | Organization | DepartmentView | TeamView | AgentList | AgentDetail
    | RunList | RunTrace | HandoffDetail

  datatype Parsed = Parsed(
    path: string, view: View, recordId: Option<string>, parentPath: Option<string>)

  const MAX_LENGTH := 2048

  // ---- The tables --------------------------------------------------------------------------------

  /** The keys of the path table, and the collections below `/digital-workforce`. */
  datatype Root =
    | Companies | Contacts | Leads | Tasks | Activities | Notifications | WorkflowRuns
    | Integrations | Sources

  datatype Collection = Agents | Runs | Handoffs | Departments | Teams

  const WORKFORCE := "digital-workforce"

  function RootName(r: Root): string {
    match r
    case Companies => "companies"
    case Contacts => "contacts"
    case Leads => "leads"
    case Tasks => "tasks"
    case Activities => "activities"
    case Notifications => "notifications"
    case WorkflowRuns => "workflow-runs"
    case Integrations => "integrations"
    case Sources => "sources"
  }

  function CollectionName(c: Collection): string {
    match c
    case Agents => "agents"
    case Runs => "runs"
    case Handoffs => "handoffs"
    case Departments => "departments"
    case Teams => "teams"
  }

  function RootNamed(s: string): (r: Option<Root>)
    ensures r.Some? ==> s == RootName(r.value)
  {
    if s == RootName(Companies) then Some(Companies)
    else if s == RootName(Contacts) then Some(Contacts)
    else if s == RootName(Leads) then Some(Leads)
    else if s == RootName(Tasks) then Some(Tasks)
    else if s == RootName(Activities) then Some(Activities)
    else if s == RootName(Notifications) then Some(Notifications)
    else if s == RootName(WorkflowRuns) then Some(WorkflowRuns)
    else if s == RootName(Integrations) then Some(Integrations)
    else if s == RootName(Sources) then Some(Sources)
    else None
  }

  function CollectionNamed(s: string): (c: Option<Collection>)
    ensures c.Some? ==> s == CollectionName(c.value)
  {
    if s == CollectionName(Agents) then Some(Agents)
    else if s == CollectionName(Runs) then Some(Runs)
    else if s == CollectionName(Handoffs) then Some(Handoffs)
    else if s == CollectionName(Departments) then Some(Departments)
    else if s == CollectionName(Teams) then Some(Teams)
    else None
  }

  function ListView(r: Root): View {
    match r
    case Companies => CompanyList
    case Contacts => ContactList
    case Leads => LeadList
    case Tasks => TaskList
    case Activities => ActivityView
    case Notifications => NotificationView
    case WorkflowRuns => WorkflowRunsView
    case Integrations => IntegrationHealth
    case Sources => SourcesView
  }

  function DetailView(r: Root): Option<View> {
    match r
    case Companies => Some(CompanyDetail)
    case Contacts => Some(ContactDetail)
    case Leads => Some(LeadDetail)
    case Tasks => Some(TaskDetail)
    case WorkflowRuns => Some(WorkflowRunDetail)
    case _ => None
  }

  function CollectionView(c: Collection): Option<View> {
    match c
    case Agents => Some(AgentList)
    case Runs => Some(RunList)
    case _ => None
  }

  function MemberView(c: Collection): View {
    match c
    case Agents => AgentDetail
    case Runs => RunTrace
    case Handoffs => HandoffDetail
    case Departments => DepartmentView
    case Teams => TeamView
  }

  /** Handoffs are shown below the runs, departments and teams below the organization. */
  function MemberParent(c: Collection): string {
    match c
    case Agents => "/" + WORKFORCE + "/" + CollectionName(Agents)
    case Runs => "/" + WORKFORCE + "/" + CollectionName(Runs)
    case Handoffs => "/" + WORKFORCE + "/" + CollectionName(Runs)
    case Departments => "/" + WORKFORCE
    case Teams => "/" + WORKFORCE
  }

  // ---- Parsing -----------------------------------------------------------------------------------

  predicate IsHex(c: char) {
    '0' <= c <= '9' || 'a' <= c <= 'f' || 'A' <= c <= 'F'
  }

  /** Version 1 to 8, variant 8, 9, a or b, letters of either case. */
  predicate IsUuid(s: string) {
    && |s| == 36
    && forall i :: 0 <= i < 36 ==>
         if i == 8 || i == 13 || i == 18 || i == 23 then s[i] == '-'
         else if i == 14 then '1' <= s[i] <= '8'
         else if i == 19 then s[i] in "89abAB"
         else IsHex(s[i])
  }

  /** `[a-z]` under the flags `i` and `u`: the Kelvin sign and the long s fold to letters. */
  predicate IsLetter(c: char) {
    'a' <= c <= 'z' || 'A' <= c <= 'Z' || c == '\U{212A}' || c == '\U{17F}'
  }

  predicate InScheme(c: char) {
    IsLetter(c) || '0' <= c <= '9' || c in "+.-"
  }

  predicate HasScheme(s: string) {
    s != "" && IsLetter(s[0]) && SchemeEnds(s[1..])
  }

  predicate SchemeEnds(s: string) {
    s != "" && (s[0] == ':' || (InScheme(s[0]) && SchemeEnds(s[1..])))
  }

  /** Whether `http://` or `https://` in any case, and a host of at least one character, begin `s`;
      then where the host starts. */
  function OriginHost(s: string): Option<nat> {
    var scheme := 4 + if |s| > 4 && (s[4] == 's' || s[4] == 'S' || s[4] == '\U{17F}') then 1 else 0;
    if && |s| > scheme + 3
       && s[0] in "hH" && s[1] in "tT" && s[2] in "tT" && s[3] in "pP"
       && s[scheme] == ':' && s[scheme + 1] == '/' && s[scheme + 2] == '/' && s[scheme + 3] != '/'
    then Some(scheme + 3) else None
  }

  function FromSlash(s: string): string {
    if s == "" || s[0] == '/' then s else FromSlash(s[1..])
  }

  function WithoutOrigin(s: string): string {
    var host := OriginHost(s);
    if host.Some? && host.value <= |s| then FromSlash(s[host.value..]) else s
  }

  /** `split(/[?#]/)[0]` */
  function BeforeQuery(s: string): string {
    if s == "" || s[0] == '?' || s[0] == '#' then "" else [s[0]] + BeforeQuery(s[1..])
  }

  function StripSlashes(s: string): string {
    if s != "" && s[|s| - 1] == '/' then StripSlashes(s[..|s| - 1]) else s
  }

  function NormalizePathname(value: string): string {
    var pathname := BeforeQuery(WithoutOrigin(Trim(value)));
    if !StartsWith(pathname, "/") || StartsWith(pathname, "//") then ""
    else if StripSlashes(pathname) == "" then "/" else StripSlashes(pathname)
  }

  function Kept(part: string): seq<string> {
    if part == "" then [] else [part]
  }

  /** `split("/").filter(Boolean)`, with `part` the segment read so far. */
  function Segments(s: string, part: string): seq<string>
    decreases |s|
  {
    if s == "" then Kept(part)
    else if s[0] == '/' then Kept(part) + Segments(s[1..], "")
    else Segments(s[1..], part + [s[0]])
  }

  function ParseWorkforce(segments: seq<string>): Option<Parsed>
    requires segments != []
  {
    if segments[0] != WORKFORCE then None
    else if |segments| == 1 then Some(Parsed("/" + WORKFORCE, Organization, None, None))
    else
      var collection := CollectionNamed(segments[1]);
      if collection.None? then None
      else
        var c := collection.value;
        var name := CollectionName(c);
        if |segments| == 2 then
          if CollectionView(c).None? then None
          else Some(Parsed("/" + WORKFORCE + "/" + name, CollectionView(c).value, None,
                           Some("/" + WORKFORCE)))
        else if |segments| != 3 || !IsUuid(segments[2]) then None
        else Some(Parsed("/" + WORKFORCE + "/" + name + "/" + segments[2], MemberView(c),
                         Some(segments[2]), Some(MemberParent(c))))
  }

  function ParseSegments(segments: seq<string>): Option<Parsed> {
    if segments == [] || |segments| > 3 then None
    else if ParseWorkforce(segments).Some? then ParseWorkforce(segments)
    else if |segments| > 2 then None
    else
      var root := RootNamed(segments[0]);
      if root.None? then None
      else if |segments| == 1 then
        Some(Parsed("/" + segments[0], ListView(root.value), None, None))
      else if DetailView(root.value).None? || !IsUuid(segments[1]) then None
      else Some(Parsed("/" + segments[0] + "/" + segments[1], DetailView(root.value).value,
                       Some(segments[1]), Some("/" + segments[0])))
  }

  function Parse(value: Option<string>): Option<Parsed> {
    if value.None? || value.value == "" || |value.value| > MAX_LENGTH then None
    else
      var trimmed := Trim(value.value);
      if HasScheme(trimmed) then None
      else
        var pathname := NormalizePathname(trimmed);
        if !StartsWith(pathname, "/") || pathname == "/" then None
        else ParseSegments(Segments(pathname[1..], ""))
  }

  // ---- Building paths ----------------------------------------------------------------------------

  /** The artifact types with a workspace path; every other type has none. */
  datatype ArtifactType =
    | TypeCompanyList | TypeCompanyDetail | TypeContactList | TypeContactDetail
    | TypeLeadList | TypeLeadDetail | TypeTaskList | TypeTaskDetail
    | TypeActivityTimeline | TypeNotificationList | TypeWorkflowRunList | TypeWorkflowRunDetail
    | TypeIntegrationHealthSummary | TypeIntegrationDetail
    | TypeOrganization | TypeAgentList | TypeAgentDetail | TypeAgentDraft
    | TypeRunList | TypeRunTrace | TypeArtifacts | TypeHandoffDetail | TypeHandoffList
    | TypeDepartment | TypeTeam | TypeOther

  /** What the path of an artifact type names. */
  datatype Target =
    | ListOf(root: Root) | RecordOf(root: Root) | Workforce | CollectionOf(collection: Collection)
    | MemberOf(collection: Collection) | Nothing

  function TargetOf(t: ArtifactType): Target {
    match t
    case TypeCompanyList => ListOf(Companies)
    case TypeCompanyDetail => RecordOf(Companies)
    case TypeContactList => ListOf(Contacts)
    case TypeContactDetail => RecordOf(Contacts)
    case TypeLeadList => ListOf(Leads)
    case TypeLeadDetail => RecordOf(Leads)
    case TypeTaskList => ListOf(Tasks)
    case TypeTaskDetail => RecordOf(Tasks)
    case TypeActivityTimeline => ListOf(Activities)
    case TypeNotificationList => ListOf(Notifications)
    case TypeWorkflowRunList => ListOf(WorkflowRuns)
    case TypeWorkflowRunDetail => RecordOf(WorkflowRuns)
    case TypeIntegrationHealthSummary => ListOf(Integrations)
    case TypeIntegrationDetail => ListOf(Integrations)
    case TypeOrganization => Workforce
    case TypeAgentList => CollectionOf(Agents)
    case TypeAgentDetail => MemberOf(Agents)
    case TypeAgentDraft => MemberOf(Agents)
    case TypeRunList => CollectionOf(Runs)
    case TypeRunTrace => MemberOf(Runs)
    case TypeArtifacts => MemberOf(Runs)
    case TypeHandoffDetail => MemberOf(Handoffs)
    case TypeHandoffList => MemberOf(Handoffs)
    case TypeDepartment => MemberOf(Departments)
    case TypeTeam => MemberOf(Teams)
    case TypeOther => Nothing
  }

  /** `recordId ? … : …` */
  predicate Given(id: Option<string>) {
    id.Some? && id.value != ""
  }

  function TargetPath(t: Target, id: Option<string>): Option<string> {
    match t
    case ListOf(r) => Some("/" + RootName(r))
    case RecordOf(r) => if Given(id) then Some("/" + RootName(r) + "/" + id.value) else None
    case Workforce => Some("/" + WORKFORCE)
    case CollectionOf(c) => Some("/" + WORKFORCE + "/" + CollectionName(c))
    case MemberOf(c) =>
      if Given(id) then Some("/" + WORKFORCE + "/" + CollectionName(c) + "/" + id.value)
      else Some(MemberParent(c))
    case Nothing => None
  }

  function PathForArtifactType(t: ArtifactType, id: Option<string>): Option<string> {
    TargetPath(TargetOf(t), id)
  }
}
