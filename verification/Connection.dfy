/**
 Storing and removing a connection: a token in the credential store and settings in the
 shared document, changed one after the other with compensation when a step fails. Both
 operations run under a guard that keeps other credential transactions out.
 */
module Connection {
  import opened Wrappers
  import opened Credentials
  import opened DesktopSettings
  import S = SharedSettings

  datatype ConnectionRequest = ConnectionRequest(
    site: string,
    email: string,
    token: string,
    boardId: nat,
    weeklyTargetHours: nat,
    utcOffsetMinutes: int,
    requestTimeoutSeconds: nat,
    pageSize: nat,
    maximumCollectionItems: nat,
    maximumIssueSearchResults: nat,
    maximumConcurrentWorklogRequests: nat,
    maximumDailyHours: nat,
    maximumReportPeriodDays: nat,
    defaultWorklogStartHour: nat,
    defaultWorklogStartMinute: nat,
    enableTeamReports: bool)

  datatype ConnectionError =
    | TargetDoesNotFit
    | SettingsFailed(settings: S.SettingsError)
    | CredentialsFailed(credentials: CredentialError)
    | RollbackFailed

  // ----- Requests and settings -----

  function SettingsFrom(request: ConnectionRequest): Result<AppSettings, ConnectionError> {
    if request.weeklyTargetHours > MAXIMUM_16_BIT then Failure(TargetDoesNotFit)
    else
      Success(AppSettings(
        S.SCHEMA_VERSION,
        JiraSettings(
          request.site,
          request.email,
          request.boardId,
          request.requestTimeoutSeconds,
          request.pageSize,
          request.maximumCollectionItems,
          request.maximumIssueSearchResults,
          request.maximumConcurrentWorklogRequests),
        HoursSettings(
          request.weeklyTargetHours,
          request.utcOffsetMinutes,
          request.maximumDailyHours,
          request.maximumReportPeriodDays,
          request.defaultWorklogStartHour,
          request.defaultWorklogStartMinute),
        request.enableTeamReports))
  }

  function RequestFrom(settings: AppSettings, token: string): ConnectionRequest {
    ConnectionRequest(
      settings.jira.baseUrl,
      settings.jira.email,
      token,
      settings.jira.boardId,
      settings.hours.weeklyTarget,
      settings.hours.utcOffsetMinutes,
      settings.jira.requestTimeoutSeconds,
      settings.jira.pageSize,
      settings.jira.maximumCollectionItems,
      settings.jira.maximumIssueSearchResults,
      settings.jira.maximumConcurrentWorklogRequests,
      settings.hours.maximumDailyHours,
      settings.hours.maximumReportPeriodDays,
      settings.hours.defaultWorklogStartHour,
      settings.hours.defaultWorklogStartMinute,
      settings.enableTeamReports)
  }

  lemma RequestRoundTrip(request: ConnectionRequest)
    ensures SettingsFrom(request).Success? <==> request.weeklyTargetHours < 0x1_0000
    ensures SettingsFrom(request).Success? ==> RequestFrom(SettingsFrom(request).value, request.token) == request
  {}

  // ----- What the two stores say together -----

  /** The settings as projected from the stored document. */
  function Projected(profile: Profile, saved: Option<S.Document>): Result<Option<AppSettings>, S.SettingsError> {
    match S.Loaded(saved, false)
    case Failure(error) => Failure(error)
    case Success(None) => Success(None)
    case Success(Some(document)) => FromShared(profile, document)
  }

  /** The connection the application would restore: settings and a token for them. */
  function SavedRequest(profile: Profile, rules: Rules, saved: Option<S.Document>, tokens: map<string, string>):
    Result<Option<ConnectionRequest>, ConnectionError>
  {
    match Projected(profile, saved)
    case Failure(error) => Failure(SettingsFailed(error))
    case Success(None) => Success(None)
    case Success(Some(settings)) =>
      match rules.account(settings.jira.baseUrl, settings.jira.email)
      case None => Failure(CredentialsFailed(InvalidCoordinates))
      case Some(account) =>
        match Lookup(tokens, account)
        case None => Success(None)
        case Some(token) => Success(Some(RequestFrom(settings, token)))
  }

  /** The document was written by saving these settings on top of the earlier one. */
  ghost predicate Installed(before: Option<S.Document>, after: Option<S.Document>, settings: AppSettings) {
    && after.Some?
    && S.DocumentIsValid(after.value)
    && after.value == UpdateShared(settings, S.OrEmpty(before)).(revision := S.Revision(before) + 1)
  }

  // ----- Persisting -----

  datatype PersistFaults = PersistFaults(load: bool, loadToken: Fault, saveToken: Fault, save: bool, restore: Fault)

  const NO_PERSIST_FAULTS := PersistFaults(false, NoFault, NoFault, false, NoFault)

  /** Everything the two stores demand of a request before they take it. */
  ghost predicate CanPersist(profile: Profile, rules: Rules, saved: Option<S.Document>, request: ConnectionRequest) {
    && SettingsFrom(request).Success?
    && SettingsAreValid(profile, SettingsFrom(request).value)
    && Projected(profile, saved).Success?
    && rules.account(request.site, request.email).Some?
    && rules.validToken(request.token)
    && S.DocumentIsValid(UpdateShared(SettingsFrom(request).value, S.OrEmpty(saved)))
    && S.Revision(saved) < S.MAXIMUM_REVISION
  }

  /**
   Saves the token and then the settings; when the settings cannot be saved, puts the
   previous token back. A success has installed both. A failure has changed no settings,
   and no token unless the store failed after taking the new one or failed to take the
   previous one back.
   */
  method Persist(profile: Profile, shared: S.SharedStore, credentials: CredentialStore, request: ConnectionRequest,
                 faults: PersistFaults)
    returns (result: Outcome<ConnectionError>)
    requires credentials.Valid()
    modifies shared, credentials
    ensures credentials.Valid()
    ensures result.Pass? ==>
              && SettingsFrom(request).Success?
              && SettingsAreValid(profile, SettingsFrom(request).value)
              && credentials.rules.account(request.site, request.email).Some?
              && Installed(old(shared.saved), shared.saved, SettingsFrom(request).value)
              && var account := credentials.rules.account(request.site, request.email).value;
                 credentials.tokens == old(credentials.tokens)[account := request.token]
    ensures result.Fail? ==> shared.saved == old(shared.saved)
    ensures result.Fail? && credentials.tokens != old(credentials.tokens) ==>
              faults.saveToken.FailsAfter? || faults.restore.FailsBefore?
    ensures faults == NO_PERSIST_FAULTS ==>
              (result.Pass? <==> CanPersist(profile, credentials.rules, old(shared.saved), request))
  {
    var settings := SettingsFrom(request);
    if settings.Failure? { return Fail(settings.error); }
    var store := new DesktopStore(profile, shared);
    var loaded := store.LoadSettings(faults.load);
    if loaded.Failure? { return Fail(SettingsFailed(loaded.error)); }
    var previous := credentials.LoadToken(request.site, request.email, faults.loadToken);
    if previous.Failure? { return Fail(CredentialsFailed(previous.error)); }
    result := SaveBoth(store, credentials, request, settings.value, previous.value, faults);
  }

  /** The settings, once the token was stored and put back again; else the token that could not be. */
  ghost predicate SaysWhatFailed(error: ConnectionError, request: ConnectionRequest, rules: Rules,
                                 faults: PersistFaults) {
    match error
    case SettingsFailed(_) => faults.saveToken.NoFault? && faults.restore.NoFault?
    case CredentialsFailed(_) =>
      !faults.saveToken.NoFault? || !rules.validToken(request.token) || !faults.restore.NoFault?
    case _ => false
  }

  /** The changing half: over a store that has just been loaded, and knowing the previous token. */
  method SaveBoth(store: DesktopStore, credentials: CredentialStore, request: ConnectionRequest, settings: AppSettings,
                  previous: Option<string>, faults: PersistFaults)
    returns (result: Outcome<ConnectionError>)
    requires credentials.Valid() && credentials.rules.account(request.site, request.email).Some?
    requires previous == Lookup(credentials.tokens, credentials.rules.account(request.site, request.email).value)
    requires store.observed == ObservedAs(store.store.saved)
    modifies store, store.store, credentials
    ensures credentials.Valid()
    ensures result.Pass? ==>
              && SettingsAreValid(store.profile, settings)
              && Installed(old(store.store.saved), store.store.saved, settings)
              && var account := credentials.rules.account(request.site, request.email).value;
                 credentials.tokens == old(credentials.tokens)[account := request.token]
    ensures result.Fail? ==> store.store.saved == old(store.store.saved)
    ensures result.Fail? ==> SaysWhatFailed(result.error, request, credentials.rules, faults)
    ensures result.Fail? && credentials.tokens != old(credentials.tokens) ==>
              faults.saveToken.FailsAfter? || faults.restore.FailsBefore?
    ensures faults == NO_PERSIST_FAULTS && S.Loaded(old(store.store.saved), false).Success? ==>
              (result.Pass? <==>
                && SettingsAreValid(store.profile, settings)
                && credentials.rules.validToken(request.token)
                && S.DocumentIsValid(UpdateShared(settings, S.OrEmpty(old(store.store.saved))))
                && S.Revision(old(store.store.saved)) < S.MAXIMUM_REVISION)
  {
    ghost var account := credentials.rules.account(request.site, request.email).value;
    var stored := credentials.SaveToken(request.site, request.email, request.token, faults.saveToken);
    if stored.Fail? { return Fail(CredentialsFailed(stored.error)); }
    var saved := store.Save(settings, false, faults.save);
    if saved.Fail? {
      assert credentials.tokens - {account} == old(credentials.tokens) - {account};
      RestoreUndoes(old(credentials.tokens), credentials.tokens, account);
      var restored := credentials.Restore(request.site, request.email, previous, faults.restore);
      if restored.Fail? { return Fail(CredentialsFailed(restored.error)); }
      return Fail(SettingsFailed(saved.error));
    }
    return Pass;
  }

  /** What has been persisted is what the application restores at its next start. */
  lemma PersistedIsRestored(profile: Profile, rules: Rules, before: Option<S.Document>, after: Option<S.Document>,
                            tokens: map<string, string>, request: ConnectionRequest)
    requires SettingsFrom(request).Success? && SettingsAreValid(profile, SettingsFrom(request).value)
    requires rules.account(request.site, request.email).Some?
    requires Lookup(tokens, rules.account(request.site, request.email).value) == Some(request.token)
    requires Installed(before, after, SettingsFrom(request).value)
    ensures SavedRequest(profile, rules, after, tokens) == Success(Some(request))
  {
    RequestRoundTrip(request);
  }

  // ----- Disconnecting -----

  datatype DisconnectFaults = DisconnectFaults(load: bool, loadToken: Fault, delete: Fault, restore: Fault, save: bool)

  const NO_DISCONNECT_FAULTS := DisconnectFaults(false, NoFault, NoFault, NoFault, false)

  /**
   Removes the token of the saved connection; the shared settings stay. After a success
   there is no connection to restore. After a failure the settings read as before and no
   token is lost, unless the store failed after deleting it and then refused it back.
   */
  method Disconnect(profile: Profile, shared: S.SharedStore, credentials: CredentialStore, faults: DisconnectFaults)
    returns (result: Outcome<ConnectionError>)
    requires credentials.Valid()
    modifies shared, credentials
    ensures credentials.Valid()
    ensures result.Pass? ==>
              && shared.saved == old(shared.saved)
              && SavedRequest(profile, credentials.rules, shared.saved, credentials.tokens) == Success(None)
    ensures result.Fail? ==> Projected(profile, shared.saved) == Projected(profile, old(shared.saved))
    ensures result.Fail? && credentials.tokens != old(credentials.tokens) ==>
              faults.delete.FailsAfter? && faults.restore.FailsBefore?
    ensures OtherAccountsKept(profile, credentials.rules, old(shared.saved), old(credentials.tokens),
                              credentials.tokens)
    ensures faults == NO_DISCONNECT_FAULTS ==>
              (result.Pass? <==>
                match Projected(profile, old(shared.saved))
                case Failure(_) => false
                case Success(None) => true
                case Success(Some(settings)) =>
                  credentials.rules.account(settings.jira.baseUrl, settings.jira.email).Some?)
  {
    var store := new DesktopStore(profile, shared);
    var settings := store.LoadSettings(faults.load);
    if settings.Failure? { return Fail(SettingsFailed(settings.error)); }
    if settings.value.None? {
      var cleared := store.Clear();
      return Pass;
    }
    result := DisconnectConfigured(store, credentials, settings.value.value, faults);
  }

  /** Only the account of the saved connection may have changed. */
  ghost predicate OtherAccountsKept(profile: Profile, rules: Rules, saved: Option<S.Document>,
                                    before: map<string, string>, after: map<string, string>) {
    match Projected(profile, saved)
    case Success(Some(settings)) =>
      var account := rules.account(settings.jira.baseUrl, settings.jira.email);
      if account.Some? then before - {account.value} == after - {account.value} else before == after
    case _ => before == after
  }

  method DisconnectConfigured(store: DesktopStore, credentials: CredentialStore, settings: AppSettings,
                              faults: DisconnectFaults)
    returns (result: Outcome<ConnectionError>)
    requires credentials.Valid()
    requires Projected(store.profile, store.store.saved) == Success(Some(settings))
    requires store.observed == ObservedAs(store.store.saved)
    modifies store, store.store, credentials
    ensures credentials.Valid()
    ensures result.Pass? ==> store.store.saved == old(store.store.saved)
    ensures result.Pass? ==>
              && credentials.rules.account(settings.jira.baseUrl, settings.jira.email).Some?
              && var account := credentials.rules.account(settings.jira.baseUrl, settings.jira.email).value;
                 credentials.tokens == old(credentials.tokens) - {account}
    ensures Projected(store.profile, store.store.saved) == Projected(store.profile, old(store.store.saved))
    ensures result.Fail? && credentials.tokens != old(credentials.tokens) ==>
              faults.delete.FailsAfter? && faults.restore.FailsBefore?
    ensures result == Fail(RollbackFailed) ==>
              !faults.restore.NoFault? || store.store.saved == old(store.store.saved)
    ensures OtherAccountsKept(store.profile, credentials.rules, old(store.store.saved), old(credentials.tokens),
                              credentials.tokens)
    ensures faults == NO_DISCONNECT_FAULTS ==>
              (result.Pass? <==> credentials.rules.account(settings.jira.baseUrl, settings.jira.email).Some?)
  {
    var token := credentials.LoadToken(settings.jira.baseUrl, settings.jira.email, faults.loadToken);
    if token.Failure? { return Fail(CredentialsFailed(token.error)); }
    ghost var account := credentials.rules.account(settings.jira.baseUrl, settings.jira.email).value;
    var cleared := store.Clear();
    var deletion := credentials.DeleteToken(settings.jira.baseUrl, settings.jira.email, faults.delete);
    assert credentials.tokens - {account} == old(credentials.tokens) - {account};
    if deletion.Fail? {
      RestoreUndoes(old(credentials.tokens), credentials.tokens, account);
      var rollback := RollbackDisconnect(store, credentials, settings, token.value, faults);
      return Fail(if rollback.Pass? then CredentialsFailed(deletion.error) else RollbackFailed);
    }
    return Pass;
  }

  /** The document after the settings were saved on top of it, or as it was if that was refused. */
  function Resaved(saved: Option<S.Document>, settings: AppSettings, fault: bool): Option<S.Document> {
    match S.Committed(saved, UpdateShared(settings, S.OrEmpty(saved)), S.Revision(saved), fault)
    case Success(committed) => Some(committed)
    case Failure(_) => saved
  }

  /** Puts the token back and saves the settings once more, each whether or not the other succeeds. */
  method RollbackDisconnect(store: DesktopStore, credentials: CredentialStore, settings: AppSettings,
                            token: Option<string>,
                            faults: DisconnectFaults)
    returns (result: Outcome<ConnectionError>)
    requires credentials.Valid() && (token.Some? ==> credentials.rules.validToken(token.value))
    requires credentials.rules.account(settings.jira.baseUrl, settings.jira.email).Some?
    requires Projected(store.profile, store.store.saved) == Success(Some(settings))
    requires store.observed == ObservedAs(store.store.saved)
    modifies store, store.store, credentials
    ensures credentials.Valid()
    ensures var account := credentials.rules.account(settings.jira.baseUrl, settings.jira.email).value;
            credentials.tokens == if faults.restore.FailsBefore? then old(credentials.tokens)
                                  else WithToken(old(credentials.tokens), account, token)
    ensures Projected(store.profile, store.store.saved) == Success(Some(settings))
    ensures store.store.saved == Resaved(old(store.store.saved), settings, faults.save)
    ensures result.Pass? <==> faults.restore.NoFault? && store.store.saved != old(store.store.saved)
  {
    var restored := credentials.Restore(settings.jira.baseUrl, settings.jira.email, token, faults.restore);
    ghost var saved := store.store.saved;
    var resaved := store.Save(settings, false, faults.save);
    if resaved.Pass? { ResavingKeepsProjection(store.profile, saved, store.store.saved, settings); }
    return if restored.Pass? && resaved.Pass? then Pass else Fail(RollbackFailed);
  }

  /** Saving loaded settings again changes the document, but not what is read from it. */
  lemma ResavingKeepsProjection(profile: Profile, before: Option<S.Document>, after: Option<S.Document>,
                                settings: AppSettings)
    requires Projected(profile, before) == Success(Some(settings))
    requires Installed(before, after, settings)
    ensures Projected(profile, after) == Projected(profile, before)
  {}
}
