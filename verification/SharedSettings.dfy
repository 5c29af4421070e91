/**
 The settings document that the desktop application and the MCP server share, what makes
 it valid, and the store that saves it by compare-and-set on its revision.
 */
module SharedSettings {
  import opened Wrappers
  import Text

  // ----- Capabilities -----

  datatype Capability =
    | ReadJiraIssues
    | EditJiraIssues
    | CommentJiraIssues
    | TransitionJiraIssues
    | ReadOwnTimeEntries
    | WriteOwnTimeEntries
    | ReadBitbucketPullRequests
    | CreateBitbucketPullRequests
    | EditBitbucketPullRequests
    | CommentBitbucketPullRequests
    | ReviewBitbucketPullRequests
    | MergeBitbucketPullRequests
    | DeclineBitbucketPullRequests

  datatype ModuleId = Jira | Bitbucket

  function ModuleOf(capability: Capability): ModuleId {
    match capability
    case ReadJiraIssues => Jira
    case EditJiraIssues => Jira
    case CommentJiraIssues => Jira
    case TransitionJiraIssues => Jira
    case ReadOwnTimeEntries => Jira
    case WriteOwnTimeEntries => Jira
    case _ => Bitbucket
  }

  /** The read capability that has to come with this one. */
  function RequiredRead(capability: Capability): Option<Capability> {
    match capability
    case EditJiraIssues => Some(ReadJiraIssues)
    case CommentJiraIssues => Some(ReadJiraIssues)
    case TransitionJiraIssues => Some(ReadJiraIssues)
    case WriteOwnTimeEntries => Some(ReadOwnTimeEntries)
    case CreateBitbucketPullRequests => Some(ReadBitbucketPullRequests)
    case EditBitbucketPullRequests => Some(ReadBitbucketPullRequests)
    case CommentBitbucketPullRequests => Some(ReadBitbucketPullRequests)
    case ReviewBitbucketPullRequests => Some(ReadBitbucketPullRequests)
    case MergeBitbucketPullRequests => Some(ReadBitbucketPullRequests)
    case DeclineBitbucketPullRequests => Some(ReadBitbucketPullRequests)
    case _ => None
  }

  /** The capabilities fit their module and bring their reads along. */
  predicate GrantsAreClosed(moduleId: ModuleId, capabilities: set<Capability>) {
    forall c :: c in capabilities ==>
      ModuleOf(c) == moduleId && (RequiredRead(c).Some? ==> RequiredRead(c).value in capabilities)
  }

  /** The capabilities of each module. */
  lemma ModulesAre(capability: Capability)
    ensures ModuleOf(capability) == Jira <==>
              capability in {ReadJiraIssues, EditJiraIssues, CommentJiraIssues, TransitionJiraIssues,
                             ReadOwnTimeEntries, WriteOwnTimeEntries}
  {}

  /** Which capabilities come with a read, and with which. */
  lemma ReadsAre(capability: Capability)
    ensures RequiredRead(capability) == Some(ReadJiraIssues) <==>
              capability in {EditJiraIssues, CommentJiraIssues, TransitionJiraIssues}
    ensures RequiredRead(capability) == Some(ReadOwnTimeEntries) <==> capability == WriteOwnTimeEntries
    ensures RequiredRead(capability) == Some(ReadBitbucketPullRequests) <==>
              ModuleOf(capability) == Bitbucket && capability != ReadBitbucketPullRequests
    ensures RequiredRead(capability) == None <==>
              capability in {ReadJiraIssues, ReadOwnTimeEntries, ReadBitbucketPullRequests}
  {}

  // ----- The document -----

  datatype Language = English | Spanish

  datatype JiraSection = JiraSection(
    baseUrl: Option<string>,
    email: Option<string>,
    boardId: Option<nat>,
    requestTimeoutSeconds: Option<nat>,
    pageSize: Option<nat>,
    maximumCollectionItems: Option<nat>,
    maximumIssueSearchResults: Option<nat>,
    maximumConcurrentWorklogRequests: Option<nat>)

  datatype HoursSection = HoursSection(
    weeklyTargetHours: Option<nat>,
    utcOffsetMinutes: Option<int>,
    maximumDailyHours: Option<nat>,
    maximumReportPeriodDays: Option<nat>,
    defaultWorklogStartHour: Option<nat>,
    defaultWorklogStartMinute: Option<nat>)

  datatype ReportsSection = ReportsSection(enableTeamReports: Option<bool>)

  datatype PullRequestDefaults = PullRequestDefaults(reviewerAccountIds: set<string>, closeSourceBranch: bool)

  datatype BitbucketSection = BitbucketSection(
    email: Option<string>,
    workspaces: Option<map<string, set<string>>>,
    requestTimeoutSeconds: Option<nat>,
    pageSize: Option<nat>,
    maximumCollectionItems: Option<nat>,
    pullRequestDefaults: Option<PullRequestDefaults>)

  datatype ModuleSettings = ModuleSettings(enabled: bool, capabilities: set<Capability>)

  datatype McpSection = McpSection(modules: map<ModuleId, ModuleSettings>)

  datatype Document = Document(
    schemaVersion: nat,
    revision: nat,
    language: Option<Language>,
    jira: Option<JiraSection>,
    hours: Option<HoursSection>,
    reports: Option<ReportsSection>,
    bitbucket: Option<BitbucketSection>,
    mcp: Option<McpSection>)

  const SCHEMA_VERSION: nat := 1
  const DEFAULT_MAXIMUM_REPORT_PERIOD_DAYS: nat := 7
  const MAXIMUM_REVISION: nat := 0xFFFF_FFFF_FFFF_FFFF

  function EmptyHours(): HoursSection { HoursSection(None, None, None, None, None, None) }

  function EmptyDocument(): Document { Document(SCHEMA_VERSION, 0, None, None, None, None, None, None) }

  function OrEmpty(saved: Option<Document>): Document { Or(saved, EmptyDocument()) }

  // ----- Validity -----

  predicate Within(value: Option<nat>, low: nat, high: nat) { value.Some? ==> low <= value.value <= high }

  predicate IsPositive(value: Option<nat>) { value != Some(0) }

  predicate EmailIsValid(email: Option<string>) {
    email.Some? ==> '@' in email.value && forall c :: c in email.value ==> !Text.IsWhitespace(c)
  }

  predicate JiraIsValid(jira: JiraSection) {
    && IsPositive(jira.boardId)
    && IsPositive(jira.requestTimeoutSeconds)
    && IsPositive(jira.pageSize)
    && IsPositive(jira.maximumCollectionItems)
    && IsPositive(jira.maximumIssueSearchResults)
    && IsPositive(jira.maximumConcurrentWorklogRequests)
    && EmailIsValid(jira.email)
    && (jira.baseUrl.Some? ==> !Text.IsBlank(jira.baseUrl.value))
  }

  predicate HoursAreValid(hours: HoursSection) {
    && Within(hours.weeklyTargetHours, 1, 168)
    && (hours.utcOffsetMinutes.Some? ==> -840 <= hours.utcOffsetMinutes.value <= 840)
    && Within(hours.maximumDailyHours, 1, 24)
    && Within(hours.maximumReportPeriodDays, 1, 31)
    && Within(hours.defaultWorklogStartHour, 0, 23)
    && Within(hours.defaultWorklogStartMinute, 0, 59)
  }

  predicate BitbucketIsValid(bitbucket: BitbucketSection) {
    && EmailIsValid(bitbucket.email)
    && IsPositive(bitbucket.requestTimeoutSeconds)
    && IsPositive(bitbucket.pageSize)
    && IsPositive(bitbucket.maximumCollectionItems)
  }

  predicate ConsentIsValid(mcp: McpSection) {
    forall id :: id in mcp.modules ==> GrantsAreClosed(id, mcp.modules[id].capabilities)
  }

  predicate DocumentIsValid(document: Document) {
    && document.schemaVersion == SCHEMA_VERSION
    && (document.jira.Some? ==> JiraIsValid(document.jira.value))
    && (document.hours.Some? ==> HoursAreValid(document.hours.value))
    && (document.bitbucket.Some? ==> BitbucketIsValid(document.bitbucket.value))
    && (document.mcp.Some? ==> ConsentIsValid(document.mcp.value))
  }

  /** Nothing that is there may be zero. */
  ghost predicate NoneIsZero(values: seq<Option<nat>>) { Some(0) !in values }

  /** Which connections to Jira a document may hold. */
  lemma JiraValidIff(jira: JiraSection)
    ensures JiraIsValid(jira) <==>
              && NoneIsZero([jira.boardId, jira.requestTimeoutSeconds, jira.pageSize, jira.maximumCollectionItems,
                             jira.maximumIssueSearchResults, jira.maximumConcurrentWorklogRequests])
              && (jira.email == None || IsEmail(jira.email.value))
              && (jira.baseUrl == None || exists c :: c in jira.baseUrl.value && !Text.IsWhitespace(c))
  {
    if jira.baseUrl.Some? { Text.BlankIff(jira.baseUrl.value); }
  }

  ghost predicate IsEmail(email: string) {
    (exists i :: 0 <= i < |email| && email[i] == '@') && forall i :: 0 <= i < |email| ==> !Text.IsWhitespace(email[i])
  }

  /** Which hours a document may hold: of a week, a day, a report period, and a start on the clock. */
  lemma HoursValidIff(hours: HoursSection)
    ensures HoursAreValid(hours) <==>
              && (forall n :: hours.weeklyTargetHours == Some(n) ==> 0 < n <= 7 * 24)
              && (forall m :: hours.utcOffsetMinutes == Some(m) ==> -14 * 60 <= m <= 14 * 60)
              && (forall n :: hours.maximumDailyHours == Some(n) ==> 0 < n <= 24)
              && (forall n :: hours.maximumReportPeriodDays == Some(n) ==> 0 < n <= 31)
              && (forall n :: hours.defaultWorklogStartHour == Some(n) ==> n < 24)
              && (forall n :: hours.defaultWorklogStartMinute == Some(n) ==> n < 60)
  {}

  /** Which documents are valid. */
  lemma DocumentValidIff(document: Document)
    ensures DocumentIsValid(document) <==>
              && document.schemaVersion == 1
              && (forall jira :: document.jira == Some(jira) ==> JiraIsValid(jira))
              && (forall hours :: document.hours == Some(hours) ==> HoursAreValid(hours))
              && (forall bitbucket :: document.bitbucket == Some(bitbucket) ==>
                    && NoneIsZero([bitbucket.requestTimeoutSeconds, bitbucket.pageSize,
                                   bitbucket.maximumCollectionItems])
                    && (bitbucket.email == None || IsEmail(bitbucket.email.value)))
              && (forall mcp, id, c ::
                    document.mcp == Some(mcp) && id in mcp.modules && c in mcp.modules[id].capabilities ==>
                      && ModuleOf(c) == id
                      && (RequiredRead(c) == None || RequiredRead(c).value in mcp.modules[id].capabilities))
  {
    if document.mcp.Some? { ConsentIff(document.mcp.value); }
  }

  lemma ConsentIff(mcp: McpSection)
    ensures ConsentIsValid(mcp) <==>
              forall id, c :: id in mcp.modules && c in mcp.modules[id].capabilities ==>
                && ModuleOf(c) == id
                && (RequiredRead(c) == None || RequiredRead(c).value in mcp.modules[id].capabilities)
  {
    if forall id, c :: id in mcp.modules && c in mcp.modules[id].capabilities ==>
         && ModuleOf(c) == id
         && (RequiredRead(c) == None || RequiredRead(c).value in mcp.modules[id].capabilities)
    {
      forall id | id in mcp.modules ensures GrantsAreClosed(id, mcp.modules[id].capabilities) {}
    }
  }

  /** What stands in for a document that does not exist yet. */
  lemma EmptyIs()
    ensures OrEmpty(None) == Document(1, 0, None, None, None, None, None, None) && DocumentIsValid(OrEmpty(None))
    ensures Revision(None) == OrEmpty(None).revision
  {}

  // ----- The store -----

  /** `Unavailable` stands for every failure of the file or of its lock; it changes nothing. */
  datatype SettingsError = Conflict(expected: nat, actual: nat) | Invalid(what: string) | Unavailable

  function Revision(saved: Option<Document>): nat {
    if saved.Some? then saved.value.revision else 0
  }

  function Loaded(saved: Option<Document>, fault: bool): Result<Option<Document>, SettingsError> {
    if fault then Failure(Unavailable)
    else if saved.Some? && !DocumentIsValid(saved.value) then Failure(Invalid("document"))
    else Success(saved)
  }

  /** The document that a save commits, or why it commits nothing. */
  function Committed(saved: Option<Document>, document: Document, expected: nat,
                     fault: bool): Result<Document, SettingsError> {
    if !DocumentIsValid(document) then Failure(Invalid("document"))
    else
      match Loaded(saved, fault)
      case Failure(error) => Failure(error)
      case Success(current) =>
        var actual := Revision(current);
        if actual != expected then Failure(Conflict(expected, actual))
        else if actual >= MAXIMUM_REVISION then Failure(Invalid("revision"))
        else Success(document.(revision := actual + 1))
  }

  /** A save commits exactly a valid document that was made from the stored revision. */
  lemma CommitsIff(saved: Option<Document>, document: Document, expected: nat, fault: bool)
    ensures Committed(saved, document, expected, fault).Success? <==>
              && !fault
              && DocumentIsValid(document)
              && (saved.Some? ==> DocumentIsValid(saved.value))
              && expected == Revision(saved) < 0xFFFF_FFFF_FFFF_FFFF
    ensures var committed := Committed(saved, document, expected, fault);
            committed.Success? ==>
              && DocumentIsValid(committed.value)
              && Revision(saved) < committed.value.revision
              && committed.value.(revision := document.revision) == document
  {}

  class SharedStore {
    var saved: Option<Document>

    constructor (saved: Option<Document>)
      ensures this.saved == saved
    {
      this.saved := saved;
    }

    method Load(fault: bool) returns (result: Result<Option<Document>, SettingsError>)
      ensures result == Loaded(saved, fault)
    {
      if fault { return Failure(Unavailable); }
      if saved.Some? && !DocumentIsValid(saved.value) { return Failure(Invalid("document")); }
      result := Success(saved);
    }

    method Save(document: Document, expected: nat, fault: bool) returns (result: Result<Document, SettingsError>)
      modifies this
      ensures result == Committed(old(saved), document, expected, fault)
      ensures saved == if result.Success? then Some(result.value) else old(saved)
    {
      if !DocumentIsValid(document) { return Failure(Invalid("document")); }
      var current := Load(fault);
      if current.Failure? { return Failure(current.error); }
      var actual := Revision(current.value);
      if actual != expected { return Failure(Conflict(expected, actual)); }
      if actual >= MAXIMUM_REVISION { return Failure(Invalid("revision")); }
      var committed := document.(revision := actual + 1);
      saved := Some(committed);
      result := Success(committed);
    }
  }
}
