/**
 The MCP server's view of the shared settings document, and the capabilities granted in it.
 */
module McpConfiguration {
  import opened Wrappers
  import opened SharedSettings

  datatype HoursConfiguration = HoursConfiguration(
    weeklyTargetHours: nat,
    utcOffsetMinutes: int,
    maximumDailyHours: nat,
    maximumReportPeriodDays: nat,
    maximumConcurrentWorklogRequests: nat)

  datatype JiraConfiguration = JiraConfiguration(
    baseUrl: string,
    email: string,
    boardId: nat,
    requestTimeoutSeconds: nat,
    pageSize: nat,
    maximumCollectionItems: nat,
    maximumIssueSearchResults: nat,
    hours: Option<HoursConfiguration>)

  datatype BitbucketConfiguration = BitbucketConfiguration(
    email: string,
    workspaces: map<string, set<string>>,
    requestTimeoutSeconds: nat,
    pageSize: nat,
    maximumCollectionItems: nat,
    pullRequestDefaults: PullRequestDefaults)

  datatype Configuration = Configuration(
    jira: Option<JiraConfiguration>,
    bitbucket: Option<BitbucketConfiguration>,
    modules: map<ModuleId, ModuleSettings>)

  /** The tests of the two connections: addresses, e-mail addresses, scopes and limits. */
  datatype Checks = Checks(jira: JiraConfiguration -> bool, bitbucket: BitbucketConfiguration -> bool)

  // ----- Modules -----

  predicate ModuleEnabled(modules: map<ModuleId, ModuleSettings>, id: ModuleId) {
    id in modules && modules[id].enabled
  }

  predicate CapabilityEnabled(modules: map<ModuleId, ModuleSettings>, capability: Capability) {
    ModuleEnabled(modules, ModuleOf(capability)) && capability in modules[ModuleOf(capability)].capabilities
  }

  function SetCapability(grants: ModuleSettings, capability: Capability, enabled: bool): ModuleSettings {
    var capabilities :=
      if enabled then
        grants.capabilities + {capability}
        + (if RequiredRead(capability).Some? then {RequiredRead(capability).value} else {})
      else
        set c | c in grants.capabilities && c != capability && RequiredRead(c) != Some(capability);
    ModuleSettings(capabilities != {}, capabilities)
  }

  /**
   Switching a capability on adds it and the read it needs; switching it off takes away it
   and what needs it. Nothing else changes, and closed grants stay closed.
   */
  lemma SetCapabilityIs(id: ModuleId, grants: ModuleSettings, capability: Capability, enabled: bool)
    requires ModuleOf(capability) == id && GrantsAreClosed(id, grants.capabilities)
    ensures var after := SetCapability(grants, capability, enabled);
            && GrantsAreClosed(id, after.capabilities)
            && (after.enabled <==> after.capabilities != {})
            && (capability in after.capabilities <==> enabled)
            && forall c :: c != capability ==>
                 (c in after.capabilities <==>
                  if enabled then c in grants.capabilities || RequiredRead(capability) == Some(c)
                  else c in grants.capabilities && RequiredRead(c) != Some(capability))
  {}

  lemma SetCapabilityGrants(grants: ModuleSettings, capability: Capability, enabled: bool, other: Capability)
    ensures other in SetCapability(grants, capability, enabled).capabilities <==>
              if enabled
              then other == capability || RequiredRead(capability) == Some(other) || other in grants.capabilities
              else other != capability && RequiredRead(other) != Some(capability) && other in grants.capabilities
  {}

  // ----- Reading and writing the document -----

  function Modules(document: Document): map<ModuleId, ModuleSettings> {
    if document.mcp.Some? then document.mcp.value.modules else map[]
  }

  function ProjectHours(document: Document): Option<HoursConfiguration> {
    if document.hours.None? || document.jira.None? then None
    else
      var hours := document.hours.value;
      var concurrent := document.jira.value.maximumConcurrentWorklogRequests;
      if hours.weeklyTargetHours.None? || hours.utcOffsetMinutes.None? || concurrent.None? then None
      else
        Some(HoursConfiguration(
          hours.weeklyTargetHours.value,
          hours.utcOffsetMinutes.value,
          Or(hours.maximumDailyHours, 24),
          Or(hours.maximumReportPeriodDays, DEFAULT_MAXIMUM_REPORT_PERIOD_DAYS),
          concurrent.value))
  }

  function ProjectJira(document: Document): Option<JiraConfiguration> {
    if document.jira.None? then None
    else
      var jira := document.jira.value;
      if jira.baseUrl.None? || jira.email.None? || jira.boardId.None? || jira.requestTimeoutSeconds.None?
         || jira.pageSize.None? || jira.maximumCollectionItems.None? || jira.maximumIssueSearchResults.None?
      then None
      else
        Some(JiraConfiguration(
          jira.baseUrl.value,
          jira.email.value,
          jira.boardId.value,
          jira.requestTimeoutSeconds.value,
          jira.pageSize.value,
          jira.maximumCollectionItems.value,
          jira.maximumIssueSearchResults.value,
          ProjectHours(document)))
  }

  function ProjectBitbucket(document: Document): Option<BitbucketConfiguration> {
    if document.bitbucket.None? then None
    else
      var bitbucket := document.bitbucket.value;
      if bitbucket.email.None? || bitbucket.workspaces.None? || bitbucket.requestTimeoutSeconds.None?
         || bitbucket.pageSize.None? || bitbucket.maximumCollectionItems.None?
      then None
      else
        Some(BitbucketConfiguration(
          bitbucket.email.value,
          bitbucket.workspaces.value,
          bitbucket.requestTimeoutSeconds.value,
          bitbucket.pageSize.value,
          bitbucket.maximumCollectionItems.value,
          Or(bitbucket.pullRequestDefaults, PullRequestDefaults({}, false))))
  }

  /** Every enabled module has the connection it needs. */
  predicate IsConnected(configuration: Configuration) {
    && (ModuleEnabled(configuration.modules, Jira) ==> configuration.jira.Some?)
    && (CapabilityEnabled(configuration.modules, ReadOwnTimeEntries) ==>
          configuration.jira.Some? && configuration.jira.value.hours.Some?)
    && (ModuleEnabled(configuration.modules, Bitbucket) ==> configuration.bitbucket.Some?)
  }

  predicate IsValid(checks: Checks, configuration: Configuration) {
    && (configuration.jira.Some? ==> checks.jira(configuration.jira.value))
    && (configuration.bitbucket.Some? ==> checks.bitbucket(configuration.bitbucket.value))
    && (forall id :: id in configuration.modules ==> GrantsAreClosed(id, configuration.modules[id].capabilities))
    && IsConnected(configuration)
  }

  /** In a valid configuration connections pass their tests, and grants have their reads and connections. */
  lemma ValidIff(checks: Checks, configuration: Configuration)
    ensures IsValid(checks, configuration) <==>
              && (configuration.jira == None || checks.jira(configuration.jira.value))
              && (configuration.bitbucket == None || checks.bitbucket(configuration.bitbucket.value))
              && (forall id, c :: id in configuration.modules && c in configuration.modules[id].capabilities ==>
                    && ModuleOf(c) == id
                    && (RequiredRead(c).Some? ==> RequiredRead(c).value in configuration.modules[id].capabilities))
              && (ModuleEnabled(configuration.modules, Jira) ==>
                    && configuration.jira.Some?
                    && (ReadOwnTimeEntries in configuration.modules[Jira].capabilities ==>
                          configuration.jira.value.hours.Some?))
              && (ModuleEnabled(configuration.modules, Bitbucket) ==> configuration.bitbucket.Some?)
  {}

  predicate AnyEnabled(modules: map<ModuleId, ModuleSettings>) {
    exists id :: id in modules && modules[id].enabled
  }

  /** The configuration in a document; none when nothing is enabled or something is incomplete. */
  function FromShared(checks: Checks, document: Document): Result<Option<Configuration>, SettingsError> {
    if !DocumentIsValid(document) then Failure(Invalid("document"))
    else if !AnyEnabled(Modules(document)) then Success(None)
    else
      var configuration := Configuration(ProjectJira(document), ProjectBitbucket(document), Modules(document));
      if !IsConnected(configuration) then Success(None)
      else if IsValid(checks, configuration) then Success(Some(configuration))
      else Failure(Invalid("configuration"))
  }

  function UpdateJira(jira: JiraConfiguration, document: Document): Document {
    var concurrent :=
      if jira.hours.Some? then Some(jira.hours.value.maximumConcurrentWorklogRequests)
      else if document.jira.Some? then document.jira.value.maximumConcurrentWorklogRequests
      else None;
    document.(jira := Some(JiraSection(
                        Some(jira.baseUrl),
                        Some(jira.email),
                        Some(jira.boardId),
                        Some(jira.requestTimeoutSeconds),
                        Some(jira.pageSize),
                        Some(jira.maximumCollectionItems),
                        Some(jira.maximumIssueSearchResults),
                        concurrent)))
  }

  /** Sets four of the six fields; without hours nothing is changed, and nothing is removed. */
  function UpdateHours(hours: Option<HoursConfiguration>, document: Document): Document {
    if hours.None? then document
    else
      var current := Or(document.hours, EmptyHours());
      document.(hours := Some(current.(
                              weeklyTargetHours := Some(hours.value.weeklyTargetHours),
                              utcOffsetMinutes := Some(hours.value.utcOffsetMinutes),
                              maximumDailyHours := Some(hours.value.maximumDailyHours),
                              maximumReportPeriodDays := Some(hours.value.maximumReportPeriodDays))))
  }

  function UpdateBitbucket(bitbucket: BitbucketConfiguration, document: Document): Document {
    document.(bitbucket := Some(BitbucketSection(
                             Some(bitbucket.email),
                             Some(bitbucket.workspaces),
                             Some(bitbucket.requestTimeoutSeconds),
                             Some(bitbucket.pageSize),
                             Some(bitbucket.maximumCollectionItems),
                             Some(bitbucket.pullRequestDefaults))))
  }

  /** Writes a configuration into a document; a missing connection leaves its section as it is. */
  function UpdateShared(configuration: Configuration, document: Document): Document {
    var withJira :=
      if configuration.jira.Some? then
        UpdateHours(configuration.jira.value.hours, UpdateJira(configuration.jira.value, document))
      else document;
    var withBitbucket :=
      if configuration.bitbucket.Some? then UpdateBitbucket(configuration.bitbucket.value, withJira) else withJira;
    withBitbucket.(mcp := Some(McpSection(configuration.modules)))
  }

  /** Writing a configuration changes nothing that is none of the server's business. */
  lemma UpdateLeavesTheRest(configuration: Configuration, document: Document)
    ensures var updated := UpdateShared(configuration, document);
            && updated.schemaVersion == document.schemaVersion
            && updated.revision == document.revision
            && updated.language == document.language
            && updated.reports == document.reports
            && (configuration.jira.None? ==> updated.jira == document.jira && updated.hours == document.hours)
            && (configuration.jira.Some? && configuration.jira.value.hours.None? ==> updated.hours == document.hours)
            && (configuration.jira.Some? && configuration.jira.value.hours.Some? && document.hours.Some? ==>
                  && updated.hours.Some?
                  && updated.hours.value.defaultWorklogStartHour == document.hours.value.defaultWorklogStartHour
                  && updated.hours.value.defaultWorklogStartMinute == document.hours.value.defaultWorklogStartMinute)
            && (configuration.bitbucket.None? ==> updated.bitbucket == document.bitbucket)
  {}

  /** When the server has hours, and what stands in for the two fields that may be missing. */
  lemma LoadedHours(document: Document)
    ensures ProjectHours(document).Some? <==>
              && document.hours.Some? && document.jira.Some?
              && document.hours.value.weeklyTargetHours.Some?
              && document.hours.value.utcOffsetMinutes.Some?
              && document.jira.value.maximumConcurrentWorklogRequests.Some?
    ensures ProjectHours(document).Some? && document.hours.value.maximumDailyHours.None? ==>
              ProjectHours(document).value.maximumDailyHours == 24
    ensures ProjectHours(document).Some? && document.hours.value.maximumReportPeriodDays.None? ==>
              ProjectHours(document).value.maximumReportPeriodDays == 7
  {}

  /** When the server has a connection to Jira: every field but the hours is needed. */
  lemma LoadedJira(document: Document)
    ensures ProjectJira(document).Some? <==>
              && document.jira.Some?
              && document.jira.value.baseUrl.Some?
              && document.jira.value.email.Some?
              && document.jira.value.boardId.Some?
              && document.jira.value.requestTimeoutSeconds.Some?
              && document.jira.value.pageSize.Some?
              && document.jira.value.maximumCollectionItems.Some?
              && document.jira.value.maximumIssueSearchResults.Some?
  {}

  /** When the server has a connection to Bitbucket, and what it assumes about new pull requests if nothing is said. */
  lemma LoadedBitbucket(document: Document)
    ensures ProjectBitbucket(document).Some? <==>
              && document.bitbucket.Some?
              && document.bitbucket.value.email.Some?
              && document.bitbucket.value.workspaces.Some?
              && document.bitbucket.value.requestTimeoutSeconds.Some?
              && document.bitbucket.value.pageSize.Some?
              && document.bitbucket.value.maximumCollectionItems.Some?
    ensures ProjectBitbucket(document).Some? && document.bitbucket.value.pullRequestDefaults.None? ==>
              && ProjectBitbucket(document).value.pullRequestDefaults.reviewerAccountIds == {}
              && !ProjectBitbucket(document).value.pullRequestDefaults.closeSourceBranch
  {}

  /** What must be there before anything is loaded: every module that grants something has its connection. */
  lemma LoadsSomethingIff(checks: Checks, document: Document)
    requires DocumentIsValid(document)
    ensures FromShared(checks, document) != Success(None) <==>
              && (exists id :: id in Modules(document) && Modules(document)[id].enabled)
              && (ModuleEnabled(Modules(document), Jira) ==> ProjectJira(document).Some?)
              && (ModuleEnabled(Modules(document), Jira)
                  && ReadOwnTimeEntries in Modules(document)[Jira].capabilities ==>
                    ProjectHours(document).Some?)
              && (ModuleEnabled(Modules(document), Bitbucket) ==> ProjectBitbucket(document).Some?)
  {}

  // ----- Round trips -----

  /** A Jira connection is read back as written, unless it has no hours and the document does. */
  lemma JiraReadsBack(jira: JiraConfiguration, document: Document)
    ensures ProjectJira(UpdateHours(jira.hours, UpdateJira(jira, document))) == Some(jira) <==>
              jira.hours.Some? || ProjectHours(UpdateJira(jira, document)).None?
  {}

  /**
   A valid configuration with something enabled is read back as written exactly if the
   document held nothing that the configuration lacks.
   */
  lemma ReadsBackIff(checks: Checks, configuration: Configuration, document: Document)
    requires IsValid(checks, configuration) && AnyEnabled(configuration.modules)
    requires DocumentIsValid(UpdateShared(configuration, document))
    ensures FromShared(checks, UpdateShared(configuration, document)) == Success(Some(configuration)) <==>
              && (configuration.bitbucket.None? ==> ProjectBitbucket(document).None?)
              && match configuration.jira
                 case None => ProjectJira(document).None?
                 case Some(jira) => jira.hours.Some? || ProjectHours(UpdateJira(jira, document)).None?
  {
    var updated := UpdateShared(configuration, document);
    assert Modules(updated) == configuration.modules;
    assert ProjectBitbucket(updated)
        == if configuration.bitbucket.Some? then configuration.bitbucket else ProjectBitbucket(document);
    if configuration.jira.Some? {
      JiraReadsBack(configuration.jira.value, document);
      assert ProjectJira(updated)
          == ProjectJira(UpdateHours(configuration.jira.value.hours, UpdateJira(configuration.jira.value, document)));
    } else {
      assert ProjectJira(updated) == ProjectJira(document);
    }
  }

  lemma JiraStaysValid(source: Document, document: Document)
    requires DocumentIsValid(source) && DocumentIsValid(document) && ProjectJira(source).Some?
    ensures JiraIsValid(UpdateJira(ProjectJira(source).value, document).jira.value)
  {}

  lemma HoursStayValid(source: Document, document: Document)
    requires DocumentIsValid(source) && DocumentIsValid(document)
    ensures var updated := UpdateHours(ProjectHours(source), document);
            updated.hours.Some? ==> HoursAreValid(updated.hours.value)
  {}

  /** What was read from a valid document can be written into any valid document. */
  lemma UpdateKeepsValid(checks: Checks, source: Document, document: Document)
    requires DocumentIsValid(source) && DocumentIsValid(document)
    requires FromShared(checks, source).Success? && FromShared(checks, source).value.Some?
    ensures DocumentIsValid(UpdateShared(FromShared(checks, source).value.value, document))
  {
    if ProjectJira(source).Some? {
      JiraStaysValid(source, document);
      HoursStayValid(source, document);
    }
  }

  // ----- The store -----

  function LoadedConfiguration(checks: Checks, saved: Option<Document>,
                               fault: bool): Result<Option<Configuration>, SettingsError> {
    match Loaded(saved, fault)
    case Failure(error) => Failure(error)
    case Success(None) => Success(None)
    case Success(Some(document)) => FromShared(checks, document)
  }

  /** The document after the configuration has been saved, or cleared, in one commit. */
  function AfterSave(configuration: Option<Configuration>, saved: Option<Document>): Option<Document> {
    match configuration
    case Some(configuration) => Some(UpdateShared(configuration, OrEmpty(saved)).(revision := Revision(saved) + 1))
    case None => if saved.Some? then Some(saved.value.(mcp := None, revision := Revision(saved) + 1)) else None
  }

  /** The store of the server's configuration, kept in the shared document. */
  class ConfigurationStore {
    const checks: Checks
    const store: SharedStore

    constructor (checks: Checks, store: SharedStore)
      ensures this.checks == checks && this.store == store
    {
      this.checks, this.store := checks, store;
    }

    method LoadConfiguration(fault: bool) returns (result: Result<Option<Configuration>, SettingsError>)
      ensures result == LoadedConfiguration(checks, store.saved, fault)
    {
      var document := store.Load(fault);
      if document.Failure? { return Failure(document.error); }
      if document.value.None? { return Success(None); }
      result := FromShared(checks, document.value.value);
    }

    method Save(configuration: Configuration, fault: bool) returns (result: Outcome<SettingsError>)
      modifies store
      ensures result.Pass? ==>
                IsValid(checks, configuration) && store.saved == AfterSave(Some(configuration), old(store.saved))
      ensures result.Pass? ==> DocumentIsValid(store.saved.value)
      ensures result.Fail? ==> store.saved == old(store.saved)
      ensures result.Pass? <==> !fault && CanSave(checks, configuration, old(store.saved))
    {
      if !IsValid(checks, configuration) { return Fail(Invalid("configuration")); }
      var loaded := store.Load(fault);
      if loaded.Failure? { return Fail(loaded.error); }
      var document := UpdateShared(configuration, OrEmpty(loaded.value));
      if !DocumentIsValid(document) { return Fail(Invalid("document")); }
      var committed := store.Save(document, document.revision, fault);
      return if committed.Success? then Pass else Fail(committed.error);
    }

    method Clear(fault: bool) returns (result: Outcome<SettingsError>)
      modifies store
      ensures result.Pass? ==> store.saved == AfterSave(None, old(store.saved))
      ensures result.Fail? ==> store.saved == old(store.saved)
      ensures !fault && CanClear(old(store.saved)) ==> result.Pass?
    {
      var loaded := store.Load(fault);
      if loaded.Failure? { return Fail(loaded.error); }
      if loaded.value.None? { return Pass; }
      var document := loaded.value.value.(mcp := None);
      var committed := store.Save(document, document.revision, fault);
      return if committed.Success? then Pass else Fail(committed.error);
    }
  }

  ghost predicate CanClear(saved: Option<Document>) {
    (saved.Some? ==> DocumentIsValid(saved.value)) && Revision(saved) < MAXIMUM_REVISION
  }

  ghost predicate CanSave(checks: Checks, configuration: Configuration, saved: Option<Document>) {
    && IsValid(checks, configuration)
    && (saved.Some? ==> DocumentIsValid(saved.value))
    && DocumentIsValid(UpdateShared(configuration, OrEmpty(saved)))
    && Revision(saved) < MAXIMUM_REVISION
  }
}
