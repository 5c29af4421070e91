/**
 Switching a capability of the MCP server on or off: the configuration is saved first,
 then the server's Jira token is made to follow it, and both are put back when that fails.
 This is the variant with a credential store of its own for the server.
 */
module McpManagement {
  import opened Wrappers
  import opened Credentials
  import opened McpConfiguration
  import S = SharedSettings
  import Text

  /** The desktop connection from which a first configuration is made. */
  datatype Application = Application(
    site: string,
    email: string,
    boardId: nat,
    requestTimeoutSeconds: nat,
    pageSize: nat,
    maximumCollectionItems: nat,
    maximumIssueSearchResults: nat,
    hours: HoursConfiguration)

  /** What the organization allows, and the modules that are part of this program. */
  datatype Policy = Policy(
    allows: S.Capability -> bool,
    bundled: set<S.ModuleId>,
    withinScopesAndLimits: Configuration -> bool)

  datatype ConfigureError =
    | CapabilityBlocked
    | ConfigurationInvalid
    | SettingsFailed(settings: S.SettingsError)
    | CredentialsFailed(credentials: CredentialError)
    | ScopeCredentialMissing
    | DesktopCredentialMissing
    | RollbackFailed

  // ----- The new configuration -----

  function JiraOf(application: Application): JiraConfiguration {
    JiraConfiguration(
      application.site,
      application.email,
      application.boardId,
      application.requestTimeoutSeconds,
      application.pageSize,
      application.maximumCollectionItems,
      application.maximumIssueSearchResults,
      Some(application.hours))
  }

  function NewJira(application: Application, capability: S.Capability, enabled: bool,
                   current: Option<Configuration>): JiraConfiguration {
    var jira := if current.Some? && current.value.jira.Some? then current.value.jira.value else JiraOf(application);
    if enabled && capability == S.ReadOwnTimeEntries && jira.hours.None? then jira.(hours := Some(application.hours))
    else jira
  }

  function NewModules(capability: S.Capability, enabled: bool,
                      current: Option<Configuration>): map<S.ModuleId, S.ModuleSettings> {
    var modules := if current.Some? then current.value.modules else map[];
    var id := S.ModuleOf(capability);
    var entry := if id in modules then modules[id] else S.ModuleSettings(false, {});
    modules[id := SetCapability(entry, capability, enabled)]
  }

  /** Takes away what the organization does not allow or this program does not contain. */
  function Restricted(policy: Policy, modules: map<S.ModuleId, S.ModuleSettings>): map<S.ModuleId, S.ModuleSettings> {
    map id | id in modules ::
      var capabilities := set c | c in modules[id].capabilities && id in policy.bundled && policy.allows(c);
      S.ModuleSettings(modules[id].enabled && capabilities != {}, capabilities)
  }

  function NewConfiguration(application: Application, capability: S.Capability, enabled: bool,
                            current: Option<Configuration>,
                            checks: Checks, policy: Policy): Result<Configuration, ConfigureError> {
    if enabled && !policy.allows(capability) then Failure(CapabilityBlocked)
    else
      var jira := NewJira(application, capability, enabled, current);
      var bitbucket := if current.Some? then current.value.bitbucket else None;
      var built := Configuration(Some(jira), bitbucket, NewModules(capability, enabled, current));
      if !IsValid(checks, built) then Failure(ConfigurationInvalid)
      else
        var configuration := built.(modules := Restricted(policy, built.modules));
        if policy.withinScopesAndLimits(configuration) && IsValid(checks, configuration)
           && forall id :: id in configuration.modules && configuration.modules[id].enabled ==> id in policy.bundled
        then Success(configuration)
        else Failure(ConfigurationInvalid)
  }

  /** Enabled, allowed, and part of this program. */
  predicate Usable(policy: Policy, modules: map<S.ModuleId, S.ModuleSettings>, capability: S.Capability) {
    CapabilityEnabled(modules, capability) && policy.allows(capability) && S.ModuleOf(capability) in policy.bundled
  }

  /** Switching a capability never changes an existing Jira connection, except that hours may be added. */
  lemma CoordinatesStay(application: Application, capability: S.Capability, enabled: bool,
                        current: Option<Configuration>,
                        checks: Checks, policy: Policy)
    requires NewConfiguration(application, capability, enabled, current, checks, policy).Success?
    ensures var updated := NewConfiguration(application, capability, enabled, current, checks, policy).value;
            && updated.jira.Some?
            && (current.Some? && current.value.jira.Some? ==>
                  updated.jira.value.(hours := current.value.jira.value.hours) == current.value.jira.value)
            && (current.Some? && current.value.jira.Some? && current.value.jira.value.hours.Some? ==>
                  updated.jira == current.value.jira)
            && (current.None? || current.value.jira.None? ==> updated.jira == Some(JiraOf(application)))
            && (current.Some? ==> updated.bitbucket == current.value.bitbucket)
  {}

  /** A capability that is in a module stays usable when the module is restricted, if it is allowed and bundled. */
  lemma RestrictedKeeps(policy: Policy, modules: map<S.ModuleId, S.ModuleSettings>, capability: S.Capability)
    ensures CapabilityEnabled(Restricted(policy, modules), capability) <==> Usable(policy, modules, capability)
  {
    var id := S.ModuleOf(capability);
    if id in modules && capability in modules[id].capabilities && id in policy.bundled && policy.allows(capability) {
      assert capability in Restricted(policy, modules)[id].capabilities;
    }
  }

  /** The capability ends up switched as asked for, if this program contains its module. */
  lemma CapabilityFollows(application: Application, capability: S.Capability, enabled: bool,
                          current: Option<Configuration>,
                          checks: Checks, policy: Policy)
    requires NewConfiguration(application, capability, enabled, current, checks, policy).Success?
    ensures var updated := NewConfiguration(application, capability, enabled, current, checks, policy).value;
            CapabilityEnabled(updated.modules, capability) <==> enabled && S.ModuleOf(capability) in policy.bundled
  {}

  /** Hours come from what there was, or from the desktop where there is no connection yet or they are needed now. */
  lemma HoursAre(application: Application, capability: S.Capability, enabled: bool, current: Option<Configuration>)
    ensures var jira := NewJira(application, capability, enabled, current);
            if current.Some? && current.value.jira.Some? then
              && (current.value.jira.value.hours.Some? ==> jira == current.value.jira.value)
              && (current.value.jira.value.hours.None? ==>
                    jira.hours
                      == if enabled && capability == S.ReadOwnTimeEntries then Some(application.hours) else None)
            else jira.hours == Some(application.hours)
  {}

  predicate Granted(modules: map<S.ModuleId, S.ModuleSettings>, id: S.ModuleId, capability: S.Capability) {
    id in modules && capability in modules[id].capabilities
  }

  /** What a module grants after the switch, before the policy is looked at. */
  ghost predicate GrantedNext(before: map<S.ModuleId, S.ModuleSettings>, id: S.ModuleId, other: S.Capability,
                              capability: S.Capability, enabled: bool) {
    if id != S.ModuleOf(capability) then Granted(before, id, other)
    else if enabled then other == capability || S.RequiredRead(capability) == Some(other) || Granted(before, id, other)
    else other != capability && S.RequiredRead(other) != Some(capability) && Granted(before, id, other)
  }

  /**
   What a switch does to all modules: the switched one gains the capability and its read,
   or loses it and what needs it, and is enabled if it grants anything; every other module
   stays as it is. The policy then takes away what it does not allow.
   */
  ghost predicate OnlySwitches(before: map<S.ModuleId, S.ModuleSettings>, after: map<S.ModuleId, S.ModuleSettings>,
                               capability: S.Capability, enabled: bool, policy: Policy) {
    && after.Keys == before.Keys + {S.ModuleOf(capability)}
    && (forall id, other :: id in after ==>
          (other in after[id].capabilities <==>
           id in policy.bundled && policy.allows(other) && GrantedNext(before, id, other, capability, enabled)))
    && (forall id :: id in after ==>
          (after[id].enabled <==>
           after[id].capabilities != {} && (id == S.ModuleOf(capability) || ModuleEnabled(before, id))))
  }

  lemma SwitchesOnly(application: Application, capability: S.Capability, enabled: bool,
                     current: Option<Configuration>, checks: Checks, policy: Policy)
    requires NewConfiguration(application, capability, enabled, current, checks, policy).Success?
    ensures OnlySwitches(ModulesBefore(current),
                         NewConfiguration(application, capability, enabled, current, checks, policy).value.modules,
                         capability, enabled, policy)
  {
    EditSwitchesOnly(capability, enabled, current, policy);
  }

  function ModulesBefore(current: Option<Configuration>): map<S.ModuleId, S.ModuleSettings> {
    if current.Some? then current.value.modules else map[]
  }

  lemma EditSwitchesOnly(capability: S.Capability, enabled: bool, current: Option<Configuration>, policy: Policy)
    ensures OnlySwitches(ModulesBefore(current), Restricted(policy, NewModules(capability, enabled, current)),
                         capability, enabled, policy)
  {
    var before, edited := ModulesBefore(current), NewModules(capability, enabled, current);
    forall id, other | id in edited
      ensures other in Restricted(policy, edited)[id].capabilities <==>
                id in policy.bundled && policy.allows(other) && GrantedNext(before, id, other, capability, enabled)
    {
      RestrictedGrants(policy, edited, id);
      EditedGrants(capability, enabled, current, id, other);
    }
    forall id | id in edited
      ensures Restricted(policy, edited)[id].enabled <==>
                && Restricted(policy, edited)[id].capabilities != {}
                && (id == S.ModuleOf(capability) || ModuleEnabled(before, id))
    {
      RestrictedGrants(policy, edited, id);
      EditedIsEnabled(capability, enabled, current, id);
      var c :| Restricted(policy, edited)[id].capabilities == {} || c in Restricted(policy, edited)[id].capabilities;
    }
  }

  lemma EditedGrants(capability: S.Capability, enabled: bool, current: Option<Configuration>, id: S.ModuleId,
                     other: S.Capability)
    requires id in NewModules(capability, enabled, current)
    ensures other in NewModules(capability, enabled, current)[id].capabilities <==>
              GrantedNext(ModulesBefore(current), id, other, capability, enabled)
  {
    if id == S.ModuleOf(capability) { SwitchedGrants(capability, enabled, current, other); }
  }

  lemma SwitchedGrants(capability: S.Capability, enabled: bool, current: Option<Configuration>, other: S.Capability)
    ensures other in NewModules(capability, enabled, current)[S.ModuleOf(capability)].capabilities <==>
              GrantedNext(ModulesBefore(current), S.ModuleOf(capability), other, capability, enabled)
  {
    var before, id := ModulesBefore(current), S.ModuleOf(capability);
    var entry := if id in before then before[id] else S.ModuleSettings(false, {});
    SetCapabilityGrants(entry, capability, enabled, other);
  }

  lemma EditedIsEnabled(capability: S.Capability, enabled: bool, current: Option<Configuration>, id: S.ModuleId)
    ensures NewModules(capability, enabled, current).Keys == ModulesBefore(current).Keys + {S.ModuleOf(capability)}
    ensures id in NewModules(capability, enabled, current) ==>
              (NewModules(capability, enabled, current)[id].enabled <==>
               if id == S.ModuleOf(capability) then NewModules(capability, enabled, current)[id].capabilities != {}
               else ModuleEnabled(ModulesBefore(current), id))
  {}

  lemma RestrictedGrants(policy: Policy, modules: map<S.ModuleId, S.ModuleSettings>, id: S.ModuleId)
    requires id in modules
    ensures forall c :: c in Restricted(policy, modules)[id].capabilities <==>
                          c in modules[id].capabilities && id in policy.bundled && policy.allows(c)
    ensures Restricted(policy, modules)[id].enabled <==>
              modules[id].enabled && Restricted(policy, modules)[id].capabilities != {}
  {}

  /** Switching a capability off leaves every other usable one that does not need it. */
  lemma OthersStayWhenOff(application: Application, capability: S.Capability, current: Configuration,
                          checks: Checks, policy: Policy, other: S.Capability)
    requires NewConfiguration(application, capability, false, Some(current), checks, policy).Success?
    requires Usable(policy, current.modules, other)
    requires other != capability && S.RequiredRead(other) != Some(capability)
    ensures var updated := NewConfiguration(application, capability, false, Some(current), checks, policy).value;
            CapabilityEnabled(updated.modules, other)
  {
    SwitchesOnly(application, capability, false, Some(current), checks, policy);
    assert GrantedNext(current.modules, S.ModuleOf(other), other, capability, false);
  }

  /** Switching a capability on never switches off another one that may be used. */
  lemma OthersStay(application: Application, capability: S.Capability, current: Configuration,
                   checks: Checks, policy: Policy, other: S.Capability)
    requires NewConfiguration(application, capability, true, Some(current), checks, policy).Success?
    requires Usable(policy, current.modules, other)
    ensures var updated := NewConfiguration(application, capability, true, Some(current), checks, policy).value;
            CapabilityEnabled(updated.modules, other)
  {
    var edited := NewModules(capability, true, Some(current));
    RestrictedKeeps(policy, edited, other);
    assert other in edited[S.ModuleOf(other)].capabilities;
  }

  /** The policy takes nothing away: every grant is allowed and bundled, and a module enabled just when it has one. */
  ghost predicate Unrestricted(policy: Policy, modules: map<S.ModuleId, S.ModuleSettings>) {
    forall id :: id in modules ==>
      && id in policy.bundled
      && (modules[id].enabled <==> modules[id].capabilities != {})
      && forall c :: c in modules[id].capabilities ==> policy.allows(c)
  }

  lemma NothingIsTakenAway(policy: Policy, modules: map<S.ModuleId, S.ModuleSettings>)
    requires Unrestricted(policy, modules)
    ensures Restricted(policy, modules) == modules
  {
    var restricted := Restricted(policy, modules);
    forall id | id in modules ensures restricted[id] == modules[id] {
      assert restricted[id].capabilities == modules[id].capabilities;
    }
  }

  /** A change that the policy takes nothing away from and that is valid is accepted as it is. */
  lemma NothingIsRefused(application: Application, capability: S.Capability, enabled: bool,
                         current: Option<Configuration>, checks: Checks, policy: Policy, built: Configuration)
    requires enabled ==> policy.allows(capability)
    requires built.jira == Some(NewJira(application, capability, enabled, current))
    requires built.bitbucket == if current.Some? then current.value.bitbucket else None
    requires built.modules == NewModules(capability, enabled, current)
    requires IsValid(checks, built) && policy.withinScopesAndLimits(built) && Unrestricted(policy, built.modules)
    ensures NewConfiguration(application, capability, enabled, current, checks, policy) == Success(built)
  {
    NothingIsTakenAway(policy, built.modules);
  }

  // ----- The token follows the configuration -----

  datatype CredentialAction = Delete | Preserve | Reject | Transfer

  function JiraCredentialAction(enabled: bool, tokenExists: bool, coordinatesMatch: bool): CredentialAction {
    if !enabled then Delete
    else if tokenExists then Preserve
    else if coordinatesMatch then Transfer
    else Reject
  }

  datatype SyncFaults = SyncFaults(loadCurrent: Fault, loadDesktop: Fault, change: Fault)

  const NO_SYNC_FAULTS := SyncFaults(NoFault, NoFault, NoFault)

  /** There is a token for the connection if one is needed: the server's own, or the desktop's for the same account. */
  predicate HasToken(application: Application, jira: JiraConfiguration, enabled: bool, rules: Rules,
                     mcp: map<string, string>, desktop: map<string, string>)
  {
    var account := AccountOf(rules, jira);
    && account.Some?
    && (enabled && account.value !in mcp ==>
          && rules.account(application.site, application.email) == account
          && account.value in desktop
          && rules.validToken(desktop[account.value]))
  }

  /** The server's account for the Jira connection, if the connection can be filed. */
  function AccountOf(rules: Rules, jira: JiraConfiguration): Option<string> {
    rules.account(jira.baseUrl, jira.email)
  }

  /** Why the token cannot follow, when no store fails. */
  ghost predicate Rejected(application: Application, jira: JiraConfiguration, error: ConfigureError, rules: Rules,
                           mcp: map<string, string>, desktop: map<string, string>)
  {
    var account, connected := AccountOf(rules, jira), rules.account(application.site, application.email);
    match error
    case CredentialsFailed(InvalidCoordinates) => account.None? || (account.value !in mcp && connected.None?)
    case ScopeCredentialMissing => account.Some? && account.value !in mcp && connected.Some? && connected != account
    case DesktopCredentialMissing =>
      account.Some? && account.value !in mcp && connected == account && account.value !in desktop
    case CredentialsFailed(InvalidToken) =>
      account.Some? && account.value in desktop && !rules.validToken(desktop[account.value])
    case _ => false
  }

  /**
   Makes the server's token follow the configuration. On success it is there exactly if
   the Jira module is enabled: an existing token is kept, a missing one is the desktop's.
   */
  method SynchronizeCredential(application: Application, jira: JiraConfiguration, enabled: bool,
                               mcp: CredentialStore, desktop: CredentialStore, faults: SyncFaults)
    returns (result: Outcome<ConfigureError>)
    requires mcp != desktop && mcp.rules == desktop.rules && mcp.Valid()
    modifies mcp
    ensures mcp.Valid()
    ensures result.Pass? ==>
              && AccountOf(mcp.rules, jira).Some?
              && Lookup(mcp.tokens, AccountOf(mcp.rules, jira).value) ==
                   if !enabled then None
                   else if AccountOf(mcp.rules, jira).value in old(mcp.tokens)
                   then Some(old(mcp.tokens)[AccountOf(mcp.rules, jira).value])
                   else Lookup(desktop.tokens, AccountOf(mcp.rules, jira).value)
    ensures result.Pass? && enabled ==> AccountOf(mcp.rules, jira).value in mcp.tokens
    ensures mcp.tokens != old(mcp.tokens) ==>
              && AccountOf(mcp.rules, jira).Some?
              && mcp.tokens - {AccountOf(mcp.rules, jira).value} == old(mcp.tokens) - {AccountOf(mcp.rules, jira).value}
    ensures result.Fail? && mcp.tokens != old(mcp.tokens) ==> faults.change.FailsAfter?
    ensures result.Fail? ==>
              || result.error == CredentialsFailed(Unavailable)
              || Rejected(application, jira, result.error, mcp.rules, old(mcp.tokens), desktop.tokens)
    ensures faults == NO_SYNC_FAULTS ==>
              (result.Pass? <==> HasToken(application, jira, enabled, mcp.rules, old(mcp.tokens), desktop.tokens))
  {
    var current := mcp.LoadToken(jira.baseUrl, jira.email, faults.loadCurrent);
    if current.Failure? { return Fail(CredentialsFailed(current.error)); }
    var tokenExists := current.value.Some?;
    var coordinatesMatch := false;
    if enabled && !tokenExists {
      var first, second := mcp.rules.account(application.site, application.email), AccountOf(mcp.rules, jira);
      if first.None? || second.None? { return Fail(CredentialsFailed(InvalidCoordinates)); }
      coordinatesMatch := first == second;
    }
    match JiraCredentialAction(enabled, tokenExists, coordinatesMatch)
    case Delete =>
      var deleted := mcp.DeleteToken(jira.baseUrl, jira.email, faults.change);
      result := if deleted.Pass? then Pass else Fail(CredentialsFailed(deleted.error));
    case Preserve =>
      result := Pass;
    case Reject =>
      result := Fail(ScopeCredentialMissing);
    case Transfer =>
      var token := desktop.LoadToken(jira.baseUrl, jira.email, faults.loadDesktop);
      if token.Failure? {
        result := Fail(CredentialsFailed(token.error));
      } else if token.value.None? {
        result := Fail(DesktopCredentialMissing);
      } else {
        var saved := mcp.SaveToken(jira.baseUrl, jira.email, token.value.value, faults.change);
        result := if saved.Pass? then Pass else Fail(CredentialsFailed(saved.error));
      }
  }

  // ----- The whole operation -----

  datatype ConfigureFaults = ConfigureFaults(load: bool, loadPrevious: Fault, save: bool, sync: SyncFaults,
                                             restoreToken: Fault, restoreConfiguration: bool)

  const NO_CONFIGURE_FAULTS := ConfigureFaults(false, NoFault, false, NO_SYNC_FAULTS, NoFault, false)

  /** The document after the new configuration has been saved and the previous one put back. */
  function RolledBack(updated: Configuration, previous: Option<Configuration>,
                      saved: Option<S.Document>): Option<S.Document> {
    AfterSave(previous, AfterSave(Some(updated), saved))
  }

  /** Whether saving the previous configuration again goes through, faults aside. */
  lemma CanRollBack(checks: Checks, updated: Configuration, previous: Option<Configuration>, saved: Option<S.Document>)
    requires LoadedConfiguration(checks, saved, false) == Success(previous)
    requires S.DocumentIsValid(AfterSave(Some(updated), saved).value)
    requires S.Revision(saved) + 1 < S.MAXIMUM_REVISION
    ensures previous.Some? ==> CanSave(checks, previous.value, AfterSave(Some(updated), saved))
    ensures previous.None? ==> CanClear(AfterSave(Some(updated), saved))
  {
    if previous.Some? { UpdateKeepsValid(checks, saved.value, AfterSave(Some(updated), saved).value); }
  }

  /** The new configuration goes on from the previous one: same connections, perhaps with hours added. */
  ghost predicate GoesOnFrom(updated: Configuration, previous: Configuration) {
    && updated.jira.Some?
    && updated.bitbucket == previous.bitbucket
    && (previous.jira.Some? ==>
          && updated.jira.value.(hours := previous.jira.value.hours) == previous.jira.value
          && (previous.jira.value.hours.Some? ==> updated.jira == previous.jira))
  }

  /** What the document holds, after the change was saved, that the previous configuration lacks. */
  lemma LeftBehind(updated: Configuration, previous: Configuration, before: S.Document, after: S.Document)
    requires after == UpdateShared(updated, before).(revision := before.revision + 1)
    requires previous.jira == ProjectJira(before) && previous.bitbucket == ProjectBitbucket(before)
    requires GoesOnFrom(updated, previous)
    ensures previous.bitbucket.None? ==> ProjectBitbucket(after).None?
    ensures previous.jira.None? ==> ProjectJira(after).Some?
    ensures previous.jira.Some? && previous.jira.value.hours.None? ==>
              (ProjectHours(UpdateJira(previous.jira.value, after)).None? <==> updated.jira.value.hours.None?)
  {}

  lemma RestoresIff(checks: Checks, updated: Configuration, previous: Configuration, saved: Option<S.Document>)
    requires LoadedConfiguration(checks, saved, false) == Success(Some(previous))
    requires GoesOnFrom(updated, previous)
    requires S.DocumentIsValid(AfterSave(Some(updated), saved).value)
    ensures LoadedConfiguration(checks, RolledBack(updated, Some(previous), saved), false)
                  == Success(Some(previous)) <==>
              previous.jira.Some? && (previous.jira.value.hours.Some? || updated.jira.value.hours.None?)
  {
    var after := AfterSave(Some(updated), saved).value;
    UpdateKeepsValid(checks, saved.value, after);
    LeftBehind(updated, previous, saved.value, after);
    ReadsBackIff(checks, previous, after);
    LoadsRolledBack(checks, updated, previous, saved);
  }

  lemma LoadsRolledBack(checks: Checks, updated: Configuration, previous: Configuration, saved: Option<S.Document>)
    requires S.DocumentIsValid(UpdateShared(previous, AfterSave(Some(updated), saved).value))
    ensures LoadedConfiguration(checks, RolledBack(updated, Some(previous), saved), false)
              == FromShared(checks, UpdateShared(previous, AfterSave(Some(updated), saved).value))
  {
    var after := AfterSave(Some(updated), saved).value;
    var restored := UpdateShared(previous, after);
    RevisionDoesNotMatter(checks, restored, after.revision + 1);
    assert RolledBack(updated, Some(previous), saved) == Some(restored.(revision := after.revision + 1));
  }

  lemma RevisionDoesNotMatter(checks: Checks, document: S.Document, revision: nat)
    ensures FromShared(checks, document.(revision := revision)) == FromShared(checks, document)
    ensures S.DocumentIsValid(document.(revision := revision)) <==> S.DocumentIsValid(document)
  {
    var revised := document.(revision := revision);
    assert S.DocumentIsValid(revised) <==> S.DocumentIsValid(document);
    assert Modules(revised) == Modules(document);
    assert ProjectJira(revised) == ProjectJira(document);
    assert ProjectBitbucket(revised) == ProjectBitbucket(document);
  }

  /**
   What is loaded after the configuration has been put back is the previous one exactly if
   there was none, or if it had a Jira connection and the failed change added no hours to
   it. Otherwise the connection or the hours stay behind: saving removes no section.
   */
  lemma RollbackRestoresIff(application: Application, capability: S.Capability, enabled: bool,
                            previous: Option<Configuration>,
                            checks: Checks, policy: Policy, saved: Option<S.Document>)
    requires LoadedConfiguration(checks, saved, false) == Success(previous)
    requires NewConfiguration(application, capability, enabled, previous, checks, policy).Success?
    requires var updated := NewConfiguration(application, capability, enabled, previous, checks, policy).value;
             S.DocumentIsValid(AfterSave(Some(updated), saved).value)
    ensures var updated := NewConfiguration(application, capability, enabled, previous, checks, policy).value;
            LoadedConfiguration(checks, RolledBack(updated, previous, saved), false) == Success(previous) <==>
              || previous.None?
              || (previous.value.jira.Some? && !AddsHours(capability, enabled, previous.value.jira.value))
  {
    var updated := NewConfiguration(application, capability, enabled, previous, checks, policy).value;
    CoordinatesStay(application, capability, enabled, previous, checks, policy);
    if previous.Some? {
      RestoresIff(checks, updated, previous.value, saved);
    } else {
      assert !AnyEnabled(Modules(RolledBack(updated, None, saved).value));
    }
  }

  /**
   What the rollback does to the grants in the document, loadable or not: they are as
   before exactly if a configuration had been loaded from them, or there were none. Grants
   that nothing was loaded from, because none is enabled or a connection is incomplete,
   are erased.
   */
  lemma RollbackKeepsGrantsIff(checks: Checks, updated: Configuration, previous: Option<Configuration>,
                               saved: Option<S.Document>)
    requires LoadedConfiguration(checks, saved, false) == Success(previous)
    ensures RolledBack(updated, previous, saved).Some?
    ensures RolledBack(updated, previous, saved).value.mcp == S.OrEmpty(saved).mcp <==>
              previous.Some? || S.OrEmpty(saved).mcp.None?
  {}

  /**
   The new configuration itself keeps the grants of the other modules exactly if a
   configuration was loaded; otherwise it starts over with the module that is switched.
   */
  lemma OtherGrantsStayIff(application: Application, capability: S.Capability, enabled: bool,
                           previous: Option<Configuration>,
                           checks: Checks, policy: Policy, saved: Option<S.Document>, other: S.ModuleId)
    requires LoadedConfiguration(checks, saved, false) == Success(previous)
    requires NewConfiguration(application, capability, enabled, previous, checks, policy).Success?
    requires other != S.ModuleOf(capability)
    ensures var updated := NewConfiguration(application, capability, enabled, previous, checks, policy).value;
            var after := Modules(AfterSave(Some(updated), saved).value);
            && (other in after <==> previous.Some? && other in Modules(saved.value))
            && (other in after ==> StaysUpTo(policy, other, Modules(saved.value)[other], after[other]))
  {
    OtherModule(policy, capability, enabled, previous, other);
  }

  /** The module grants what it granted before, up to what the policy takes away. */
  ghost predicate StaysUpTo(policy: Policy, id: S.ModuleId, before: S.ModuleSettings, after: S.ModuleSettings) {
    && (forall c :: c in after.capabilities <==> c in before.capabilities && id in policy.bundled && policy.allows(c))
    && (after.enabled <==> before.enabled && after.capabilities != {})
  }

  lemma OtherModule(policy: Policy, capability: S.Capability, enabled: bool, current: Option<Configuration>,
                    other: S.ModuleId)
    requires other != S.ModuleOf(capability)
    ensures var after := Restricted(policy, NewModules(capability, enabled, current));
            && (other in after <==> other in ModulesBefore(current))
            && (other in after ==> StaysUpTo(policy, other, ModulesBefore(current)[other], after[other]))
  {}

  predicate AddsHours(capability: S.Capability, enabled: bool, jira: JiraConfiguration) {
    enabled && capability == S.ReadOwnTimeEntries && jira.hours.None?
  }

  // Documents for which the rollback does not restore what was there, for every site and
  // e-mail address that a document may hold. The Jira section is one that the desktop can
  // load, because the limits that it leaves out have defaults there.

  predicate CanBeFiled(site: string, email: string) { !Text.IsBlank(site) && S.EmailIsValid(Some(email)) }

  function ExampleApplication(site: string, email: string): Application {
    Application(site, email, 1, 30, 50, 10_000, 100, HoursConfiguration(40, 0, 24, 7, 8))
  }

  const EXAMPLE_MODULES: map<S.ModuleId, S.ModuleSettings> :=
    map[S.Bitbucket := S.ModuleSettings(true, {S.ReadBitbucketPullRequests})]
  const EXAMPLE_WORKSPACES: map<string, set<string>> := map["acme" := {"app"}]
  const EXAMPLE_CHECKS := Checks(_ => true, _ => true)
  const EXAMPLE_POLICY := Policy(_ => true, {S.Jira, S.Bitbucket}, _ => true)

  /** Bitbucket is granted, but its connection is not there yet. */
  function IncompleteDocument(site: string, email: string): S.Document {
    S.EmptyDocument().(
    jira := Some(S.JiraSection(Some(site), Some(email), Some(1), None, None, None, None, None)),
    mcp := Some(S.McpSection(EXAMPLE_MODULES)))
  }

  function CompleteDocument(site: string, email: string): S.Document {
    IncompleteDocument(site, email).(
    bitbucket := Some(S.BitbucketSection(Some(email), Some(EXAMPLE_WORKSPACES), Some(30), Some(50), Some(100), None)))
  }

  function ExampleBitbucket(email: string): BitbucketConfiguration {
    BitbucketConfiguration(email, EXAMPLE_WORKSPACES, 30, 50, 100, S.PullRequestDefaults({}, false))
  }

  /** What the server loads from the complete document. */
  function ExamplePrevious(email: string): Configuration {
    Configuration(None, Some(ExampleBitbucket(email)), EXAMPLE_MODULES)
  }

  lemma ExampleLoads(site: string, email: string)
    requires CanBeFiled(site, email)
    ensures LoadedConfiguration(EXAMPLE_CHECKS, Some(CompleteDocument(site, email)), false)
              == Success(Some(ExamplePrevious(email)))
    ensures LoadedConfiguration(EXAMPLE_CHECKS, Some(IncompleteDocument(site, email)), false) == Success(None)
  {
    assert EXAMPLE_MODULES[S.Bitbucket].enabled;
  }

  /** The change of a Bitbucket capability that goes on from the complete document. */
  function BitbucketUpdate(site: string, email: string): Result<Configuration, ConfigureError> {
    NewConfiguration(ExampleApplication(site, email), S.CreateBitbucketPullRequests, true, Some(ExamplePrevious(email)),
                     EXAMPLE_CHECKS, EXAMPLE_POLICY)
  }

  /** The change of a Jira capability that starts over, because nothing was loaded. */
  function JiraUpdate(site: string, email: string): Result<Configuration, ConfigureError> {
    NewConfiguration(ExampleApplication(site, email), S.ReadJiraIssues, true, None, EXAMPLE_CHECKS, EXAMPLE_POLICY)
  }

  lemma ExampleSaves(built: Configuration, site: string, email: string, document: S.Document)
    requires CanBeFiled(site, email)
    requires document == IncompleteDocument(site, email) || document == CompleteDocument(site, email)
    requires built.jira == Some(JiraOf(ExampleApplication(site, email)))
    requires built.bitbucket.None? || built.bitbucket == Some(ExampleBitbucket(email))
    requires IsValid(EXAMPLE_CHECKS, built)
    ensures CanSave(EXAMPLE_CHECKS, built, Some(document))
  {}

  lemma BitbucketUpdateSaves(site: string, email: string)
    requires CanBeFiled(site, email)
    ensures BitbucketUpdate(site, email).Success?
    ensures CanSave(EXAMPLE_CHECKS, BitbucketUpdate(site, email).value, Some(CompleteDocument(site, email)))
  {
    var capability, grants := S.CreateBitbucketPullRequests, EXAMPLE_MODULES[S.Bitbucket];
    var built := Configuration(Some(JiraOf(ExampleApplication(site, email))), Some(ExampleBitbucket(email)),
                               map[S.Bitbucket := SetCapability(grants, capability, true)]);
    SetCapabilityIs(S.Bitbucket, grants, capability, true);
    NothingIsRefused(ExampleApplication(site, email), capability, true, Some(ExamplePrevious(email)),
                     EXAMPLE_CHECKS, EXAMPLE_POLICY, built);
    ExampleSaves(built, site, email, CompleteDocument(site, email));
  }

  lemma JiraUpdateSaves(site: string, email: string)
    requires CanBeFiled(site, email)
    ensures JiraUpdate(site, email).Success?
    ensures CanSave(EXAMPLE_CHECKS, JiraUpdate(site, email).value, Some(IncompleteDocument(site, email)))
  {
    var capability, grants := S.ReadJiraIssues, S.ModuleSettings(false, {});
    var built := Configuration(Some(JiraOf(ExampleApplication(site, email))), None,
                               map[S.Jira := SetCapability(grants, capability, true)]);
    SetCapabilityIs(S.Jira, grants, capability, true);
    NothingIsRefused(ExampleApplication(site, email), capability, true, None, EXAMPLE_CHECKS, EXAMPLE_POLICY, built);
    ExampleSaves(built, site, email, IncompleteDocument(site, email));
  }

  /** A Bitbucket capability switched on and put back leaves a Jira connection behind. */
  lemma RollbackLeavesJiraBehind(site: string, email: string)
    requires CanBeFiled(site, email)
    ensures var previous, saved := Some(ExamplePrevious(email)), Some(CompleteDocument(site, email));
            var updated := BitbucketUpdate(site, email);
            && LoadedConfiguration(EXAMPLE_CHECKS, saved, false) == Success(previous)
            && updated.Success?
            && CanSave(EXAMPLE_CHECKS, updated.value, saved)
            && LoadedConfiguration(EXAMPLE_CHECKS, RolledBack(updated.value, previous, saved), false)
                 != Success(previous)
  {
    ExampleLoads(site, email);
    BitbucketUpdateSaves(site, email);
    RollbackRestoresIff(ExampleApplication(site, email), S.CreateBitbucketPullRequests, true,
                        Some(ExamplePrevious(email)),
                        EXAMPLE_CHECKS, EXAMPLE_POLICY, Some(CompleteDocument(site, email)));
  }

  /** A Jira capability switched on and put back erases the grants for Bitbucket. */
  lemma RollbackErasesGrants(site: string, email: string)
    requires CanBeFiled(site, email)
    ensures var saved, updated := Some(IncompleteDocument(site, email)), JiraUpdate(site, email);
            && LoadedConfiguration(EXAMPLE_CHECKS, saved, false) == Success(None)
            && updated.Success?
            && CanSave(EXAMPLE_CHECKS, updated.value, saved)
            && RolledBack(updated.value, None, saved).value.mcp == None
  {
    ExampleLoads(site, email);
    JiraUpdateSaves(site, email);
  }

  // ----- One change, seen from the document -----

  /** How a change of a capability ends: saved for good, saved and put back, or refused without effect. */
  datatype Ending = Done | Undone | NotDone

  function Switched(application: Application, capability: S.Capability, enabled: bool, ending: Ending,
                    checks: Checks, policy: Policy, saved: Option<S.Document>): Option<S.Document>
  {
    match LoadedConfiguration(checks, saved, false)
    case Failure(_) => saved
    case Success(previous) =>
      match NewConfiguration(application, capability, enabled, previous, checks, policy)
      case Failure(_) => saved
      case Success(updated) =>
        match ending
        case Done => AfterSave(Some(updated), saved)
        case Undone => RolledBack(updated, previous, saved)
        case NotDone => saved
  }

  /** What a change left in the document is one of its endings. */
  ghost predicate EndsSomehow(application: Application, capability: S.Capability, enabled: bool,
                              checks: Checks, policy: Policy, saved: Option<S.Document>, after: Option<S.Document>)
  {
    exists ending :: after == Switched(application, capability, enabled, ending, checks, policy, saved)
  }

  lemma Endings(application: Application, capability: S.Capability, enabled: bool,
                checks: Checks, policy: Policy, saved: Option<S.Document>)
    ensures EndsSomehow(application, capability, enabled, checks, policy, saved, saved)
    ensures var previous := LoadedConfiguration(checks, saved, false);
            previous.Success? ==>
              var updated := NewConfiguration(application, capability, enabled, previous.value, checks, policy);
              updated.Success? ==>
                && EndsSomehow(application, capability, enabled, checks, policy, saved,
                               AfterSave(Some(updated.value), saved))
                && EndsSomehow(application, capability, enabled, checks, policy, saved,
                               RolledBack(updated.value, previous.value, saved))
  {
    assert Switched(application, capability, enabled, NotDone, checks, policy, saved) == saved;
    var done := Switched(application, capability, enabled, Done, checks, policy, saved);
    var undone := Switched(application, capability, enabled, Undone, checks, policy, saved);
    assert EndsSomehow(application, capability, enabled, checks, policy, saved, done);
    assert EndsSomehow(application, capability, enabled, checks, policy, saved, undone);
  }

  // The parts of the operation's contract.

  /** The configuration was saved and the server's token follows it. */
  ghost predicate Configured(updated: Configuration, saved: Option<S.Document>, after: Option<S.Document>,
                             rules: Rules, tokens: map<string, string>)
    requires updated.jira.Some?
  {
    && after == AfterSave(Some(updated), saved)
    && AccountOf(rules, updated.jira.value).Some?
    && (AccountOf(rules, updated.jira.value).value in tokens <==> ModuleEnabled(updated.modules, S.Jira))
  }

  /** What a change of a capability takes when every store works. */
  ghost predicate CanConfigure(application: Application, capability: S.Capability, enabled: bool, policy: Policy,
                               checks: Checks,
                               saved: Option<S.Document>, rules: Rules, mcp: map<string, string>,
                               desktop: map<string, string>)
  {
    var previous := LoadedConfiguration(checks, saved, false);
    && previous.Success?
    && var updated := NewConfiguration(application, capability, enabled, previous.value, checks, policy);
       && updated.Success?
       && updated.value.jira.Some?
       && CanSave(checks, updated.value, saved)
       && HasToken(application, updated.value.jira.value, ModuleEnabled(updated.value.modules, S.Jira), rules, mcp,
                   desktop)
  }

  /** Nothing was saved, or it was saved and put back, or putting it back was impossible. */
  ghost predicate PutBack(updated: Configuration, previous: Option<Configuration>, saved: Option<S.Document>,
                          after: Option<S.Document>, faults: ConfigureFaults)
  {
    || after == saved
    || after == RolledBack(updated, previous, saved)
    || (after == AfterSave(Some(updated), saved)
        && (faults.restoreConfiguration || S.Revision(saved) + 1 >= S.MAXIMUM_REVISION))
  }

  /**
   Switches one capability on or off. After a success the token is at the new
   configuration's Jira connection exactly if the Jira module is enabled. After a failure
   the configuration has been put back and so has the token, unless the store failed after
   changing it and then refused it back. No other account is touched in any case.
   */
  method Configure(application: Application, capability: S.Capability, enabled: bool, policy: Policy,
                   store: ConfigurationStore, mcp: CredentialStore, desktop: CredentialStore,
                   faults: ConfigureFaults)
    returns (result: Outcome<ConfigureError>)
    requires mcp != desktop && mcp.rules == desktop.rules && mcp.Valid()
    modifies store.store, mcp
    ensures mcp.Valid()
    ensures var previous := LoadedConfiguration(store.checks, old(store.store.saved), faults.load);
            var updated := if previous.Success?
                           then NewConfiguration(application, capability, enabled, previous.value, store.checks, policy)
                           else Failure(SettingsFailed(previous.error));
            if updated.Failure?
            then result.Fail? && store.store.saved == old(store.store.saved) && mcp.tokens == old(mcp.tokens)
            else if result.Pass? then
              && updated.value.jira.Some?
              && Configured(updated.value, old(store.store.saved), store.store.saved, mcp.rules, mcp.tokens)
              && OnlySwitches(ModulesBefore(previous.value), updated.value.modules, capability, enabled, policy)
              && mcp.tokens - {AccountOf(mcp.rules, updated.value.jira.value).value}
                 == old(mcp.tokens) - {AccountOf(mcp.rules, updated.value.jira.value).value}
            else PutBack(updated.value, previous.value, old(store.store.saved), store.store.saved, faults)
    ensures faults == NO_CONFIGURE_FAULTS ==>
              (result.Pass? <==>
                CanConfigure(application, capability, enabled, policy, store.checks, old(store.store.saved),
                                              mcp.rules, old(mcp.tokens), desktop.tokens))
    ensures result.Fail? && mcp.tokens != old(mcp.tokens) ==>
              faults.sync.change.FailsAfter? && faults.restoreToken.FailsBefore?
    ensures EndsSomehow(application, capability, enabled, store.checks, policy, old(store.store.saved),
                        store.store.saved)
  {
    ghost var saved := store.store.saved;
    Endings(application, capability, enabled, store.checks, policy, saved);
    var previous := store.LoadConfiguration(faults.load);
    if previous.Failure? { return Fail(SettingsFailed(previous.error)); }
    var configuration := NewConfiguration(application, capability, enabled, previous.value, store.checks, policy);
    if configuration.Failure? { return Fail(configuration.error); }
    CoordinatesStay(application, capability, enabled, previous.value, store.checks, policy);
    SwitchesOnly(application, capability, enabled, previous.value, store.checks, policy);
    result := PersistConfiguration(application, configuration.value, previous.value, store, mcp, desktop, faults);
  }

  method PersistConfiguration(application: Application, configuration: Configuration, previous: Option<Configuration>,
                              store: ConfigurationStore, mcp: CredentialStore, desktop: CredentialStore,
                              faults: ConfigureFaults)
    returns (result: Outcome<ConfigureError>)
    requires mcp != desktop && mcp.rules == desktop.rules && mcp.Valid()
    requires configuration.jira.Some?
    requires LoadedConfiguration(store.checks, store.store.saved, false) == Success(previous)
    modifies store.store, mcp
    ensures mcp.Valid()
    ensures result.Pass? ==>
              && Configured(configuration, old(store.store.saved), store.store.saved, mcp.rules, mcp.tokens)
              && mcp.tokens - {AccountOf(mcp.rules, configuration.jira.value).value}
                 == old(mcp.tokens) - {AccountOf(mcp.rules, configuration.jira.value).value}
    ensures result.Fail? ==> PutBack(configuration, previous, old(store.store.saved), store.store.saved, faults)
    ensures faults == NO_CONFIGURE_FAULTS ==>
              (result.Pass? <==>
                && CanSave(store.checks, configuration, old(store.store.saved))
                && HasToken(application, configuration.jira.value, ModuleEnabled(configuration.modules, S.Jira),
                            mcp.rules, old(mcp.tokens), desktop.tokens))
    ensures result.Fail? && mcp.tokens != old(mcp.tokens) ==>
              faults.sync.change.FailsAfter? && faults.restoreToken.FailsBefore?
  {
    var jira := configuration.jira.value;
    ghost var saved := store.store.saved;
    var previousToken := mcp.LoadToken(jira.baseUrl, jira.email, faults.loadPrevious);
    if previousToken.Failure? { return Fail(CredentialsFailed(previousToken.error)); }
    var stored := store.Save(configuration, faults.save);
    if stored.Fail? { return Fail(SettingsFailed(stored.error)); }
    result := ApplyOrRollback(application, configuration, previous, previousToken.value, store, mcp, desktop, faults,
                              saved);
  }

  /** The second half, once the configuration is saved; `saved` is the document before that. */
  method ApplyOrRollback(application: Application, configuration: Configuration, previous: Option<Configuration>,
                         previousToken: Option<string>, store: ConfigurationStore, mcp: CredentialStore,
                         desktop: CredentialStore, faults: ConfigureFaults, ghost saved: Option<S.Document>)
    returns (result: Outcome<ConfigureError>)
    requires mcp != desktop && mcp.rules == desktop.rules && mcp.Valid()
    requires configuration.jira.Some? && AccountOf(mcp.rules, configuration.jira.value).Some?
    requires previousToken == Lookup(mcp.tokens, AccountOf(mcp.rules, configuration.jira.value).value)
    requires LoadedConfiguration(store.checks, saved, false) == Success(previous)
    requires store.store.saved == AfterSave(Some(configuration), saved) && S.DocumentIsValid(store.store.saved.value)
    modifies store.store, mcp
    ensures mcp.Valid()
    ensures result.Pass? ==>
              && Configured(configuration, saved, store.store.saved, mcp.rules, mcp.tokens)
              && mcp.tokens - {AccountOf(mcp.rules, configuration.jira.value).value}
                 == old(mcp.tokens) - {AccountOf(mcp.rules, configuration.jira.value).value}
    ensures result.Fail? ==> PutBack(configuration, previous, saved, store.store.saved, faults)
    ensures result.Fail?
            && (!faults.restoreToken.NoFault? || store.store.saved != RolledBack(configuration, previous, saved)) ==>
              result.error == RollbackFailed
    ensures result == Fail(RollbackFailed) ==>
              || !faults.restoreToken.NoFault?
              || faults.restoreConfiguration || S.Revision(saved) + 1 >= S.MAXIMUM_REVISION
    ensures faults.sync == NO_SYNC_FAULTS ==>
              (result.Pass? <==>
                HasToken(application, configuration.jira.value, ModuleEnabled(configuration.modules, S.Jira),
                         mcp.rules, old(mcp.tokens), desktop.tokens))
    ensures result.Fail? && mcp.tokens != old(mcp.tokens) ==>
              faults.sync.change.FailsAfter? && faults.restoreToken.FailsBefore?
  {
    var jira := configuration.jira.value;
    ghost var tokens := mcp.tokens;
    result := SynchronizeCredential(application, jira, ModuleEnabled(configuration.modules, S.Jira), mcp, desktop,
                                    faults.sync);
    if result.Fail? {
      RestoreUndoes(tokens, mcp.tokens, AccountOf(mcp.rules, jira).value);
      var recovery := Recover(configuration, previous, previousToken, store, mcp, faults, saved);
      if recovery.Fail? { result := recovery; }
    }
  }

  /** Puts back the token and the configuration, each whether or not the other could be. */
  method Recover(configuration: Configuration, previous: Option<Configuration>, previousToken: Option<string>,
                 store: ConfigurationStore, mcp: CredentialStore, faults: ConfigureFaults,
                 ghost saved: Option<S.Document>)
    returns (result: Outcome<ConfigureError>)
    requires mcp.Valid() && (previousToken.Some? ==> mcp.rules.validToken(previousToken.value))
    requires configuration.jira.Some? && AccountOf(mcp.rules, configuration.jira.value).Some?
    requires LoadedConfiguration(store.checks, saved, false) == Success(previous)
    requires store.store.saved == AfterSave(Some(configuration), saved) && S.DocumentIsValid(store.store.saved.value)
    modifies store.store, mcp
    ensures mcp.Valid()
    ensures var account := AccountOf(mcp.rules, configuration.jira.value).value;
            mcp.tokens == if faults.restoreToken.FailsBefore? then old(mcp.tokens)
                          else WithToken(old(mcp.tokens), account, previousToken)
    ensures result.Pass? ==> store.store.saved == RolledBack(configuration, previous, saved)
    ensures result.Pass? ==> faults.restoreToken.NoFault?
    ensures result.Fail? ==> result.error == RollbackFailed
    ensures result.Fail? ==>
              || !faults.restoreToken.NoFault?
              || faults.restoreConfiguration || S.Revision(saved) + 1 >= S.MAXIMUM_REVISION
    ensures store.store.saved == RolledBack(configuration, previous, saved)
            || (store.store.saved == old(store.store.saved)
                && (faults.restoreConfiguration || S.Revision(saved) + 1 >= S.MAXIMUM_REVISION))
  {
    var jira := configuration.jira.value;
    var credentialResult := mcp.Restore(jira.baseUrl, jira.email, previousToken, faults.restoreToken);
    if S.Revision(saved) + 1 < S.MAXIMUM_REVISION { CanRollBack(store.checks, configuration, previous, saved); }
    var configurationResult := RestoreConfiguration(store, previous, faults.restoreConfiguration);
    return if credentialResult.Pass? && configurationResult.Pass? then Pass else Fail(RollbackFailed);
  }

  method RestoreConfiguration(store: ConfigurationStore, previous: Option<Configuration>, fault: bool)
    returns (result: Outcome<S.SettingsError>)
    modifies store.store
    ensures result.Pass? ==> store.store.saved == AfterSave(previous, old(store.store.saved))
    ensures result.Fail? ==> store.store.saved == old(store.store.saved)
    ensures !fault && (if previous.Some? then CanSave(store.checks, previous.value, old(store.store.saved))
                       else CanClear(old(store.store.saved)))
            ==> result.Pass?
  {
    if previous.Some? {
      result := store.Save(previous.value, fault);
    } else {
      result := store.Clear(fault);
    }
  }
}
