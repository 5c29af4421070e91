/**
 The desktop application's view of the shared settings document: what it reads from it,
 what it writes into it, and the observed document on which its next save builds.
 */
module DesktopSettings {
  import opened Wrappers
  import opened SharedSettings
  import Text

  datatype JiraSettings = JiraSettings(
    baseUrl: string,
    email: string,
    boardId: nat,
    requestTimeoutSeconds: nat,
    pageSize: nat,
    maximumCollectionItems: nat,
    maximumIssueSearchResults: nat,
    maximumConcurrentWorklogRequests: nat)

  datatype HoursSettings = HoursSettings(
    weeklyTarget: nat,
    utcOffsetMinutes: int,
    maximumDailyHours: nat,
    maximumReportPeriodDays: nat,
    defaultWorklogStartHour: nat,
    defaultWorklogStartMinute: nat)

  datatype AppSettings = AppSettings(
    schemaVersion: nat,
    jira: JiraSettings,
    hours: HoursSettings,
    enableTeamReports: bool)

  // ----- The organization's profile -----

  datatype JiraLimits = JiraLimits(
    requestTimeoutSeconds: nat,
    pageSize: nat,
    maximumCollectionItems: nat,
    maximumIssueSearchResults: nat,
    maximumConcurrentWorklogRequests: nat)
  {
    predicate Within(allowed: JiraLimits) {
      && 0 < requestTimeoutSeconds <= allowed.requestTimeoutSeconds
      && 0 < pageSize <= allowed.pageSize
      && 0 < maximumCollectionItems <= allowed.maximumCollectionItems
      && 0 < maximumIssueSearchResults <= allowed.maximumIssueSearchResults
      && 0 < maximumConcurrentWorklogRequests <= allowed.maximumConcurrentWorklogRequests
    }
  }

  datatype HoursProfile = HoursProfile(
    minimumWeeklyTargetHours: nat,
    maximumWeeklyTargetHours: nat,
    suggestedWeeklyTargetHours: nat,
    maximumDailyHours: nat,
    defaultWorklogStartHour: nat,
    defaultWorklogStartMinute: nat,
    maximumCustomRangeDays: nat,
    suggestedUtcOffsetMinutes: int,
    utcOffsetOptions: set<int>)
  {
    predicate AllowsWeeklyTarget(hours: nat) { minimumWeeklyTargetHours <= hours <= maximumWeeklyTargetHours }

    predicate AllowsUtcOffset(minutes: int) { minutes in utcOffsetOptions }

    predicate Valid() {
      && minimumWeeklyTargetHours > 0
      && AllowsWeeklyTarget(suggestedWeeklyTargetHours)
      && maximumWeeklyTargetHours <= 168
      && 1 <= maximumDailyHours <= 24
      && defaultWorklogStartHour <= 23
      && defaultWorklogStartMinute <= 59
      && 1 <= maximumCustomRangeDays <= 366
      && (forall minutes :: minutes in utcOffsetOptions ==> -840 <= minutes <= 840)
      && AllowsUtcOffset(suggestedUtcOffsetMinutes)
    }
  }

  const ABSOLUTE_LIMITS := JiraLimits(300, 100, 250_000, 5_000, 64)

  /** `acceptsConnection` is the test of the site, the e-mail address and the organization's sites and boards. */
  datatype OrganizationProfile = OrganizationProfile(
    defaults: JiraLimits,
    allowed: JiraLimits,
    hours: HoursProfile,
    acceptsConnection: (string, string, nat) -> bool)
  {
    predicate Valid() { defaults.Within(allowed) && allowed.Within(ABSOLUTE_LIMITS) && hours.Valid() }
  }

  const EXAMPLE_PROFILE := OrganizationProfile(
    JiraLimits(30, 50, 10_000, 100, 8), ABSOLUTE_LIMITS,
    HoursProfile(1, 168, 40, 24, 9, 0, 31, 0, {0}), (_, _, _) => true)

  /** Every profile the program uses was validated when it was read. */
  type Profile = profile: OrganizationProfile | profile.Valid() witness EXAMPLE_PROFILE

  const MAXIMUM_16_BIT: nat := 0xFFFF

  function LimitsOf(jira: JiraSettings): JiraLimits {
    JiraLimits(jira.requestTimeoutSeconds, jira.pageSize, jira.maximumCollectionItems, jira.maximumIssueSearchResults,
               jira.maximumConcurrentWorklogRequests)
  }

  predicate JiraSettingsAreValid(profile: Profile, jira: JiraSettings) {
    && jira.boardId > 0
    && profile.acceptsConnection(jira.baseUrl, jira.email, jira.boardId)
    && LimitsOf(jira).Within(profile.allowed)
  }

  predicate HoursSettingsAreValid(profile: Profile, hours: HoursSettings) {
    && 1 <= hours.weeklyTarget <= 168
    && 1 <= hours.maximumDailyHours <= 24
    && 1 <= hours.maximumReportPeriodDays <= 31
    && hours.defaultWorklogStartHour < 24
    && hours.defaultWorklogStartMinute < 60
    && -840 <= hours.utcOffsetMinutes <= 840
    && profile.hours.AllowsWeeklyTarget(hours.weeklyTarget)
    && hours.maximumDailyHours <= profile.hours.maximumDailyHours
    && hours.maximumReportPeriodDays <= profile.hours.maximumCustomRangeDays
    && profile.hours.AllowsUtcOffset(hours.utcOffsetMinutes)
  }

  predicate SettingsAreValid(profile: Profile, settings: AppSettings) {
    && settings.schemaVersion == SCHEMA_VERSION
    && JiraSettingsAreValid(profile, settings.jira)
    && HoursSettingsAreValid(profile, settings.hours)
  }

  /** Which hours a profile may have. */
  lemma HoursProfileIff(hours: HoursProfile)
    ensures hours.Valid() <==>
              && 0 < hours.minimumWeeklyTargetHours <= hours.suggestedWeeklyTargetHours
              && hours.suggestedWeeklyTargetHours <= hours.maximumWeeklyTargetHours <= 7 * 24
              && 0 < hours.maximumDailyHours < 25
              && hours.defaultWorklogStartHour < 24 && hours.defaultWorklogStartMinute < 60
              && 0 < hours.maximumCustomRangeDays < 367
              && hours.suggestedUtcOffsetMinutes in hours.utcOffsetOptions
              && forall minutes :: minutes in hours.utcOffsetOptions ==> -14 * 60 <= minutes <= 14 * 60
  {}

  /** No profile allows more than this, and none suggests more than it allows. */
  lemma ProfileBounds(profile: Profile)
    ensures var limits := profile.allowed;
            && limits.requestTimeoutSeconds <= 300 && limits.pageSize <= 100 && limits.maximumCollectionItems <= 250_000
            && limits.maximumIssueSearchResults <= 5_000 && limits.maximumConcurrentWorklogRequests <= 64
    ensures 0 < profile.defaults.pageSize <= profile.allowed.pageSize
    ensures 0 < profile.defaults.requestTimeoutSeconds <= profile.allowed.requestTimeoutSeconds
    ensures 0 < profile.defaults.maximumCollectionItems <= profile.allowed.maximumCollectionItems
    ensures 0 < profile.defaults.maximumIssueSearchResults <= profile.allowed.maximumIssueSearchResults
    ensures 0 < profile.defaults.maximumConcurrentWorklogRequests <= profile.allowed.maximumConcurrentWorklogRequests
  {}

  // ----- Reading and writing the document -----

  function ProjectJira(profile: Profile, jira: JiraSection): Option<JiraSettings> {
    if jira.baseUrl.None? || jira.email.None? || jira.boardId.None? then None
    else
      Some(JiraSettings(
        jira.baseUrl.value,
        jira.email.value,
        jira.boardId.value,
        Or(jira.requestTimeoutSeconds, profile.defaults.requestTimeoutSeconds),
        Or(jira.pageSize, profile.defaults.pageSize),
        Or(jira.maximumCollectionItems, profile.defaults.maximumCollectionItems),
        Or(jira.maximumIssueSearchResults, profile.defaults.maximumIssueSearchResults),
        Or(jira.maximumConcurrentWorklogRequests, profile.defaults.maximumConcurrentWorklogRequests)))
  }

  /** The test of the suggestion never fails, because the profile is a valid one. */
  function ProjectHours(profile: Profile, section: Option<HoursSection>): (hours: Result<HoursSettings, SettingsError>)
    ensures hours.Success?
  {
    var hours := Or(section, EmptyHours());
    if profile.hours.suggestedWeeklyTargetHours > MAXIMUM_16_BIT then Failure(Invalid("default weekly target"))
    else
      Success(HoursSettings(
        Or(hours.weeklyTargetHours, profile.hours.suggestedWeeklyTargetHours),
        Or(hours.utcOffsetMinutes, profile.hours.suggestedUtcOffsetMinutes),
        Or(hours.maximumDailyHours, profile.hours.maximumDailyHours),
        Or(hours.maximumReportPeriodDays, DEFAULT_MAXIMUM_REPORT_PERIOD_DAYS),
        Or(hours.defaultWorklogStartHour, profile.hours.defaultWorklogStartHour),
        Or(hours.defaultWorklogStartMinute, profile.hours.defaultWorklogStartMinute)))
  }

  /** The desktop's settings, or none while the Jira connection is incomplete. */
  function FromShared(profile: Profile, document: Document): Result<Option<AppSettings>, SettingsError> {
    var jira := if document.jira.Some? then ProjectJira(profile, document.jira.value) else None;
    if jira.None? then Success(None)
    else
      match ProjectHours(profile, document.hours)
      case Failure(error) => Failure(error)
      case Success(hours) =>
        var reports := if document.reports.Some? then Or(document.reports.value.enableTeamReports, false) else false;
        var settings := AppSettings(SCHEMA_VERSION, jira.value, hours, reports);
        if SettingsAreValid(profile, settings) then Success(Some(settings)) else Failure(Invalid("settings"))
  }

  function UpdateShared(settings: AppSettings, document: Document): Document {
    document.(
    jira := Some(JiraSection(
      Some(settings.jira.baseUrl),
      Some(settings.jira.email),
      Some(settings.jira.boardId),
      Some(settings.jira.requestTimeoutSeconds),
      Some(settings.jira.pageSize),
      Some(settings.jira.maximumCollectionItems),
      Some(settings.jira.maximumIssueSearchResults),
      Some(settings.jira.maximumConcurrentWorklogRequests))),
    hours := Some(HoursSection(
      Some(settings.hours.weeklyTarget),
      Some(settings.hours.utcOffsetMinutes),
      Some(settings.hours.maximumDailyHours),
      Some(settings.hours.maximumReportPeriodDays),
      Some(settings.hours.defaultWorklogStartHour),
      Some(settings.hours.defaultWorklogStartMinute))),
    reports := Some(ReportsSection(Some(settings.enableTeamReports))))
  }

  /** Valid settings written into any document are read back unchanged. */
  lemma ReadsBackWhatWasWritten(profile: Profile, settings: AppSettings, document: Document)
    requires SettingsAreValid(profile, settings)
    ensures FromShared(profile, UpdateShared(settings, document)) == Success(Some(settings))
  {}

  // ----- What is loaded, field by field -----

  /** The field of the document, or what stands in for it. */
  ghost predicate Reads<T>(loaded: T, present: Option<T>, standIn: T) {
    match present
    case Some(value) => loaded == value
    case None => loaded == standIn
  }

  /** Where each loaded value comes from: from its own field of the document, or else from the profile. */
  lemma LoadedFields(profile: Profile, document: Document, settings: AppSettings)
    requires FromShared(profile, document) == Success(Some(settings))
    ensures settings.schemaVersion == 1
    ensures document.jira.Some?
    ensures var jira := document.jira.value;
            && jira.baseUrl == Some(settings.jira.baseUrl)
            && jira.email == Some(settings.jira.email)
            && jira.boardId == Some(settings.jira.boardId)
            && Reads(settings.jira.requestTimeoutSeconds, jira.requestTimeoutSeconds,
                     profile.defaults.requestTimeoutSeconds)
            && Reads(settings.jira.pageSize, jira.pageSize, profile.defaults.pageSize)
            && Reads(settings.jira.maximumCollectionItems, jira.maximumCollectionItems,
                     profile.defaults.maximumCollectionItems)
            && Reads(settings.jira.maximumIssueSearchResults, jira.maximumIssueSearchResults,
                     profile.defaults.maximumIssueSearchResults)
            && Reads(settings.jira.maximumConcurrentWorklogRequests, jira.maximumConcurrentWorklogRequests,
                     profile.defaults.maximumConcurrentWorklogRequests)
    ensures document.hours.Some? ==>
              var hours := document.hours.value;
              && Reads(settings.hours.weeklyTarget, hours.weeklyTargetHours, profile.hours.suggestedWeeklyTargetHours)
              && Reads(settings.hours.utcOffsetMinutes, hours.utcOffsetMinutes, profile.hours.suggestedUtcOffsetMinutes)
              && Reads(settings.hours.maximumDailyHours, hours.maximumDailyHours, profile.hours.maximumDailyHours)
              && Reads(settings.hours.maximumReportPeriodDays, hours.maximumReportPeriodDays, 7)
              && Reads(settings.hours.defaultWorklogStartHour, hours.defaultWorklogStartHour,
                       profile.hours.defaultWorklogStartHour)
              && Reads(settings.hours.defaultWorklogStartMinute, hours.defaultWorklogStartMinute,
                       profile.hours.defaultWorklogStartMinute)
    ensures document.hours.None? ==>
              settings.hours == HoursSettings(profile.hours.suggestedWeeklyTargetHours,
                                              profile.hours.suggestedUtcOffsetMinutes, profile.hours.maximumDailyHours,
                                              7, profile.hours.defaultWorklogStartHour,
                                              profile.hours.defaultWorklogStartMinute)
    ensures settings.enableTeamReports <==> document.reports == Some(ReportsSection(Some(true)))
  {}

  /**
   The desktop accepts hours exactly if they may stand in a shared document, and the
   organization allows them.
   */
  lemma HoursAcceptedIff(profile: Profile, settings: AppSettings, document: Document)
    ensures HoursSettingsAreValid(profile, settings.hours) <==>
              && HoursAreValid(UpdateShared(settings, document).hours.value)
              && profile.hours.minimumWeeklyTargetHours <= settings.hours.weeklyTarget
              && settings.hours.weeklyTarget <= profile.hours.maximumWeeklyTargetHours
              && settings.hours.maximumDailyHours <= profile.hours.maximumDailyHours
              && settings.hours.maximumReportPeriodDays <= profile.hours.maximumCustomRangeDays
              && settings.hours.utcOffsetMinutes in profile.hours.utcOffsetOptions
  {}

  /**
   A connection is accepted exactly if the organization accepts it, every limit is allowed,
   and nothing but the site or the e-mail address could keep it out of a document.
   */
  lemma JiraAcceptedIff(profile: Profile, settings: AppSettings, document: Document)
    requires !Text.IsBlank(settings.jira.baseUrl) && EmailIsValid(Some(settings.jira.email))
    ensures JiraSettingsAreValid(profile, settings.jira) <==>
              && JiraIsValid(UpdateShared(settings, document).jira.value)
              && profile.acceptsConnection(settings.jira.baseUrl, settings.jira.email, settings.jira.boardId)
              && settings.jira.requestTimeoutSeconds <= profile.allowed.requestTimeoutSeconds
              && settings.jira.pageSize <= profile.allowed.pageSize
              && settings.jira.maximumCollectionItems <= profile.allowed.maximumCollectionItems
              && settings.jira.maximumIssueSearchResults <= profile.allowed.maximumIssueSearchResults
              && settings.jira.maximumConcurrentWorklogRequests <= profile.allowed.maximumConcurrentWorklogRequests
  {}

  /** Settings can be saved into a valid document exactly if its own tests of site and e-mail address pass too. */
  lemma SettingsFitIff(profile: Profile, settings: AppSettings, document: Document)
    requires SettingsAreValid(profile, settings) && DocumentIsValid(document)
    ensures DocumentIsValid(UpdateShared(settings, document)) <==>
              !Text.IsBlank(settings.jira.baseUrl) && EmailIsValid(Some(settings.jira.email))
  {
    HoursAcceptedIff(profile, settings, document);
  }

  // ----- Documents that say nothing about hours -----

  /** What the document says of the connection is accepted: the connection itself, and every limit that is set. */
  predicate ConnectionIsAccepted(profile: Profile, jira: JiraSection)
    requires jira.baseUrl.Some? && jira.email.Some? && jira.boardId.Some?
  {
    && jira.boardId.value > 0
    && profile.acceptsConnection(jira.baseUrl.value, jira.email.value, jira.boardId.value)
    && Within(jira.requestTimeoutSeconds, 1, profile.allowed.requestTimeoutSeconds)
    && Within(jira.pageSize, 1, profile.allowed.pageSize)
    && Within(jira.maximumCollectionItems, 1, profile.allowed.maximumCollectionItems)
    && Within(jira.maximumIssueSearchResults, 1, profile.allowed.maximumIssueSearchResults)
    && Within(jira.maximumConcurrentWorklogRequests, 1, profile.allowed.maximumConcurrentWorklogRequests)
  }

  /**
   A document with a connection and no hours loads exactly if the connection is accepted
   and the organization allows reports over seven days. The profile's own suggestions are
   always accepted; the length of a report period is the one default that does not come
   from the profile.
   */
  lemma WithoutHoursLoadsIff(profile: Profile, document: Document)
    requires document.hours.None? && document.jira.Some?
    requires ProjectJira(profile, document.jira.value).Some?
    ensures FromShared(profile, document).Success? <==>
              && ConnectionIsAccepted(profile, document.jira.value)
              && 7 <= profile.hours.maximumCustomRangeDays
  {}

  // ----- Interleavings with another frontend -----

  datatype Observed = NotLoaded | ObservedAs(document: Option<Document>)

  /** A save in progress: the document it builds on and the document it is about to commit. */
  datatype Draft = Draft(base: Option<Document>, document: Document, settings: AppSettings)

  datatype World = World(saved: Option<Document>, observed: Observed, draft: Option<Draft>)

  /** A save is two steps, because another frontend can commit between its read and its commit. */
  datatype Event =
    | Load(fault: bool)
    | BeginSave(settings: AppSettings, fault: bool)
    | CommitSave(fault: bool)
    | OtherSave(document: Document, expected: nat, fault: bool)

  function LoadStep(profile: Profile, w: World, fault: bool): World {
    match Loaded(w.saved, fault)
    case Failure(_) => w
    case Success(document) =>
      if document.Some? && FromShared(profile, document.value).Failure? then w
      else w.(observed := ObservedAs(document))
  }

  /** The document a save builds on: what was observed, or what is stored if nothing was. */
  function Base(observed: Observed, saved: Option<Document>, fault: bool): Result<Option<Document>, SettingsError> {
    match observed
    case ObservedAs(document) => Success(document)
    case NotLoaded => Loaded(saved, fault)
  }

  function DraftOf(profile: Profile, w: World, settings: AppSettings, fault: bool): Result<Draft, SettingsError> {
    if !SettingsAreValid(profile, settings) then Failure(Invalid("settings"))
    else
      match Base(w.observed, w.saved, fault)
      case Failure(error) => Failure(error)
      case Success(base) =>
        var document := UpdateShared(settings, OrEmpty(base));
        if DocumentIsValid(document) then Success(Draft(base, document, settings)) else Failure(Invalid("document"))
  }

  function CommitStep(w: World, fault: bool): World {
    match w.draft
    case None => w
    case Some(draft) =>
      match Committed(w.saved, draft.document, draft.document.revision, fault)
      case Success(committed) => World(Some(committed), ObservedAs(Some(committed)), None)
      case Failure(_) => w.(draft := None)
  }

  function Step(profile: Profile, w: World, e: Event): World {
    match e
    case Load(fault) => LoadStep(profile, w, fault)
    case BeginSave(settings, fault) =>
      (match DraftOf(profile, w, settings, fault)
       case Success(draft) => w.(draft := Some(draft))
       case Failure(_) => w.(draft := None))
    case CommitSave(fault) => CommitStep(w, fault)
    case OtherSave(document, expected, fault) =>
      (match Committed(w.saved, document, expected, fault)
       case Success(committed) => w.(saved := Some(committed))
       case Failure(_) => w)
  }

  function After(profile: Profile, w: World, events: seq<Event>): World {
    if events == [] then w
    else Step(profile, After(profile, w, events[..|events| - 1]), events[|events| - 1])
  }

  /** A document seen earlier: it is older than the stored one, or it is the stored one. */
  ghost predicate SeenEarlier(seen: Option<Document>, saved: Option<Document>) {
    seen == saved || Revision(seen) < Revision(saved)
  }

  ghost predicate Consistent(profile: Profile, w: World) {
    && (w.observed.ObservedAs? ==> SeenEarlier(w.observed.document, w.saved))
    && (w.draft.Some? ==>
          && SeenEarlier(w.draft.value.base, w.saved)
          && SettingsAreValid(profile, w.draft.value.settings)
          && w.draft.value.document == UpdateShared(w.draft.value.settings, OrEmpty(w.draft.value.base)))
  }

  lemma StepKeepsConsistent(profile: Profile, w: World, e: Event)
    requires Consistent(profile, w)
    ensures Consistent(profile, Step(profile, w, e))
    ensures SeenEarlier(w.saved, Step(profile, w, e).saved)
  {}

  /** In every interleaving the stored document only moves forward, and nothing is confused with it. */
  lemma {:induction false} RunKeepsConsistent(profile: Profile, w: World, events: seq<Event>)
    requires Consistent(profile, w)
    ensures Consistent(profile, After(profile, w, events))
    ensures SeenEarlier(w.saved, After(profile, w, events).saved)
  {
    if events != [] {
      var init := events[..|events| - 1];
      RunKeepsConsistent(profile, w, init);
      StepKeepsConsistent(profile, After(profile, w, init), events[|events| - 1]);
    }
  }

  /** What a desktop save may do to the stored document. */
  ghost predicate CommitsOn(saved: Option<Document>, draft: Draft, committed: Document) {
    && saved == draft.base
    && committed == UpdateShared(draft.settings, OrEmpty(saved)).(revision := Revision(saved) + 1)
    && committed.mcp == OrEmpty(saved).mcp
    && committed.bitbucket == OrEmpty(saved).bitbucket
    && committed.language == OrEmpty(saved).language
  }

  /**
   In every interleaving, a desktop save commits exactly if the stored document is still
   the one it was built on (and nothing else prevents it). It then changes only the
   desktop's sections; otherwise it changes nothing. It does not matter what happened
   between the two steps of the save.
   */
  lemma SaveCommitsOnTop(profile: Profile, w: World, events: seq<Event>, fault: bool)
    requires Consistent(profile, w)
    requires After(profile, w, events).draft.Some?
    ensures var before := After(profile, w, events);
            var after := Step(profile, before, CommitSave(fault));
            var draft := before.draft.value;
            if after.saved != before.saved
            then after.saved.Some? && CommitsOn(before.saved, draft, after.saved.value)
            else after.observed == before.observed
    ensures var before := After(profile, w, events);
            var draft := before.draft.value;
            Step(profile, before, CommitSave(fault)).saved != before.saved <==>
              && !fault
              && before.saved == draft.base
              && Revision(before.saved) < MAXIMUM_REVISION
              && DocumentIsValid(draft.document)
              && (before.saved.Some? ==> DocumentIsValid(before.saved.value))
  {
    RunKeepsConsistent(profile, w, events);
    var before := After(profile, w, events);
    var draft := before.draft.value;
    CommitsIff(before.saved, draft.document, draft.document.revision, fault);
    assert draft.document.revision == Revision(draft.base);
  }

  /** After a save that went through, loading gives the saved settings, whatever the document was. */
  lemma LoadAfterSave(profile: Profile, w: World, events: seq<Event>, fault: bool)
    requires Consistent(profile, w)
    requires After(profile, w, events).draft.Some?
    requires Step(profile, After(profile, w, events), CommitSave(fault)).saved != After(profile, w, events).saved
    ensures var settings := After(profile, w, events).draft.value.settings;
            var after := Step(profile, After(profile, w, events), CommitSave(fault));
            && Loaded(after.saved, false) == Success(after.saved)
            && FromShared(profile, after.saved.value) == Success(Some(settings))
  {
    SaveCommitsOnTop(profile, w, events, fault);
    RunKeepsConsistent(profile, w, events);
    var before := After(profile, w, events);
    var settings := before.draft.value.settings;
    var after := Step(profile, before, CommitSave(fault));
    CommitsIff(before.saved, before.draft.value.document, before.draft.value.document.revision, fault);
    var base := OrEmpty(before.saved).(revision := Revision(before.saved) + 1);
    assert after.saved.value == UpdateShared(settings, base);
    ReadsBackWhatWasWritten(profile, settings, base);
  }

  // ----- The store -----

  class DesktopStore {
    const profile: Profile
    const store: SharedStore
    var observed: Observed

    ghost function View(): World
      reads this, store
    {
      World(store.saved, observed, None)
    }

    constructor (profile: Profile, store: SharedStore)
      ensures this.profile == profile && this.store == store && observed == NotLoaded
    {
      this.profile, this.store, this.observed := profile, store, NotLoaded;
    }

    method LoadSettings(fault: bool) returns (result: Result<Option<AppSettings>, SettingsError>)
      modifies this
      ensures View() == Step(profile, old(View()), Load(fault))
      ensures result == match Loaded(store.saved, fault)
                        case Failure(error) => Failure(error)
                        case Success(None) => Success(None)
                        case Success(Some(document)) => FromShared(profile, document)
    {
      var document := store.Load(fault);
      if document.Failure? { return Failure(document.error); }
      result := Success(None);
      if document.value.Some? { result := FromShared(profile, document.value.value); }
      if result.Success? { observed := ObservedAs(document.value); }
    }

    method Save(settings: AppSettings, loadFault: bool, saveFault: bool) returns (result: Outcome<SettingsError>)
      modifies this, store
      ensures View() == Step(profile, Step(profile, old(View()), BeginSave(settings, loadFault)), CommitSave(saveFault))
      ensures result.Pass? <==> store.saved != old(store.saved)
      ensures result.Fail? ==> View() == old(View())
    {
      if !SettingsAreValid(profile, settings) { return Fail(Invalid("settings")); }
      var base: Option<Document>;
      if observed.ObservedAs? {
        base := observed.document;
      } else {
        var loaded := store.Load(loadFault);
        if loaded.Failure? { return Fail(loaded.error); }
        base := loaded.value;
      }
      var document := UpdateShared(settings, OrEmpty(base));
      if !DocumentIsValid(document) { return Fail(Invalid("document")); }
      var committed := store.Save(document, document.revision, saveFault);
      if committed.Failure? { return Fail(committed.error); }
      observed := ObservedAs(Some(committed.value));
      return Pass;
    }

    /** The document belongs to both frontends, so clearing leaves it as it is. */
    method Clear() returns (result: Outcome<SettingsError>)
      ensures result.Pass?
    {
      return Pass;
    }
  }
}
