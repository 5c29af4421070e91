/**
 Two frontends on one document: what the desktop application saves is what the MCP server
 reads, and the other way round.
 */
module Frontends {
  import opened Wrappers
  import S = SharedSettings
  import Desktop = DesktopSettings
  import Mcp = McpConfiguration
  import Management = McpManagement

  /** The desktop connection that these settings describe. */
  function ApplicationOf(settings: Desktop.AppSettings): Management.Application {
    Management.Application(
      settings.jira.baseUrl,
      settings.jira.email,
      settings.jira.boardId,
      settings.jira.requestTimeoutSeconds,
      settings.jira.pageSize,
      settings.jira.maximumCollectionItems,
      settings.jira.maximumIssueSearchResults,
      Mcp.HoursConfiguration(
        settings.hours.weeklyTarget,
        settings.hours.utcOffsetMinutes,
        settings.hours.maximumDailyHours,
        settings.hours.maximumReportPeriodDays,
        settings.jira.maximumConcurrentWorklogRequests))
  }

  /**
   After a desktop save the server sees exactly the configuration that it would be given
   for that connection, and grants nothing that was not granted before.
   */
  lemma ServerSeesDesktop(settings: Desktop.AppSettings, document: S.Document)
    ensures var saved := Desktop.UpdateShared(settings, document);
            && Mcp.ProjectJira(saved) == Some(Management.JiraOf(ApplicationOf(settings)))
            && Mcp.ProjectBitbucket(saved) == Mcp.ProjectBitbucket(document)
            && Mcp.Modules(saved) == Mcp.Modules(document)
  {}

  /** What the server changes of the connection is what the desktop then shows of it. */
  lemma DesktopSeesServer(profile: Desktop.Profile, configuration: Mcp.Configuration, document: S.Document)
    requires configuration.jira.Some?
    requires Desktop.FromShared(profile, Mcp.UpdateShared(configuration, document)).Success?
    ensures var shown := Desktop.FromShared(profile, Mcp.UpdateShared(configuration, document)).value;
            var jira := configuration.jira.value;
            && shown.Some?
            && Management.JiraOf(ApplicationOf(shown.value)).(hours := jira.hours) == jira
            && (jira.hours.Some? ==> ApplicationOf(shown.value).hours == jira.hours.value)
  {}

  /** The connection of the example documents is the one that the desktop loads from them. */
  lemma ExampleIsLoaded(site: string, email: string, document: S.Document)
    requires
      || document == Management.IncompleteDocument(site, email)
      || document == Management.CompleteDocument(site, email)
    ensures var loaded := Desktop.FromShared(Desktop.EXAMPLE_PROFILE, document);
            && loaded.Success? && loaded.value.Some?
            && ApplicationOf(loaded.value.value) == Management.ExampleApplication(site, email)
  {
    Desktop.WithoutHoursLoadsIff(Desktop.EXAMPLE_PROFILE, document);
  }

  // ----- A connection without hours -----

  /** An organization that allows reports over five days only. */
  const SHORT_RANGES := Desktop.EXAMPLE_PROFILE.(hours := Desktop.EXAMPLE_PROFILE.hours.(maximumCustomRangeDays := 5))

  function WithoutHours(site: string, email: string): Mcp.Configuration {
    Mcp.Configuration(
      Some(Management.JiraOf(Management.ExampleApplication(site, email)).(hours := None)),
      None,
      map[S.Jira := S.ModuleSettings(true, {S.ReadJiraIssues})])
  }

  lemma WithoutHoursIsSaved(site: string, email: string)
    requires Management.CanBeFiled(site, email)
    ensures Mcp.CanSave(Management.EXAMPLE_CHECKS, WithoutHours(site, email), None)
    ensures var saved := Mcp.AfterSave(Some(WithoutHours(site, email)), None);
            Mcp.LoadedConfiguration(Management.EXAMPLE_CHECKS, saved, false) == Success(Some(WithoutHours(site, email)))
  {
    assert WithoutHours(site, email).modules[S.Jira].enabled;
  }

  /**
   A first connection that the server saves without hours: the server reads it back, and so
   does a desktop whose organization allows reports over 31 days, but under one that allows
   five days the desktop cannot load its settings.
   */
  lemma ServerSaveBlocksDesktop(site: string, email: string)
    requires Management.CanBeFiled(site, email)
    ensures Mcp.CanSave(Management.EXAMPLE_CHECKS, WithoutHours(site, email), None)
    ensures var saved := Mcp.AfterSave(Some(WithoutHours(site, email)), None);
            && Mcp.LoadedConfiguration(Management.EXAMPLE_CHECKS, saved, false)
                 == Success(Some(WithoutHours(site, email)))
            && Desktop.FromShared(Desktop.EXAMPLE_PROFILE, saved.value).Success?
            && SHORT_RANGES.Valid()
            && Desktop.FromShared(SHORT_RANGES, saved.value).Failure?
  {
    WithoutHoursIsSaved(site, email);
    var saved := Mcp.AfterSave(Some(WithoutHours(site, email)), None).value;
    Desktop.WithoutHoursLoadsIff(Desktop.EXAMPLE_PROFILE, saved);
    Desktop.WithoutHoursLoadsIff(SHORT_RANGES, saved);
  }

  // ----- Any number of switches -----

  datatype Switch = Switch(capability: S.Capability, enabled: bool, ending: Management.Ending)

  /** The document after one change by the server for this connection. */
  function Switched(application: Management.Application, switch: Switch, checks: Mcp.Checks, policy: Management.Policy,
                    saved: Option<S.Document>): Option<S.Document>
  {
    Management.Switched(application, switch.capability, switch.enabled, switch.ending, checks, policy, saved)
  }

  function AfterSwitches(application: Management.Application, switches: seq<Switch>, checks: Mcp.Checks,
                         policy: Management.Policy, saved: Option<S.Document>): Option<S.Document>
  {
    if switches == [] then saved
    else
      Switched(application, switches[|switches| - 1], checks, policy,
               AfterSwitches(application, switches[..|switches| - 1], checks, policy, saved))
  }

  /** Writing the settings into the document again would change nothing. */
  ghost predicate HoldsSettings(saved: Option<S.Document>, settings: Desktop.AppSettings) {
    saved.Some? && Desktop.UpdateShared(settings, saved.value) == saved.value
  }

  lemma SaveHoldsSettings(configuration: Option<Mcp.Configuration>, saved: Option<S.Document>,
                          settings: Desktop.AppSettings)
    requires HoldsSettings(saved, settings)
    requires configuration.Some? ==>
               || configuration.value.jira.None?
               || configuration.value.jira == Some(Management.JiraOf(ApplicationOf(settings)))
    ensures HoldsSettings(Mcp.AfterSave(configuration, saved), settings)
  {}

  lemma SwitchHoldsSettings(settings: Desktop.AppSettings, switch: Switch, checks: Mcp.Checks,
                            policy: Management.Policy,
                            saved: Option<S.Document>)
    requires HoldsSettings(saved, settings)
    ensures HoldsSettings(Switched(ApplicationOf(settings), switch, checks, policy, saved), settings)
  {
    ServerSeesDesktop(settings, saved.value);
    var loaded := Mcp.LoadedConfiguration(checks, saved, false);
    if loaded.Success? {
      var previous, application := loaded.value, ApplicationOf(settings);
      var changed :=
        Management.NewConfiguration(application, switch.capability, switch.enabled, previous, checks, policy);
      if changed.Success? {
        Management.CoordinatesStay(application, switch.capability, switch.enabled, previous, checks, policy);
        SaveHoldsSettings(Some(changed.value), saved, settings);
        SaveHoldsSettings(previous, Mcp.AfterSave(Some(changed.value), saved), settings);
      }
    }
  }

  /**
   However often capabilities are switched for the connection of the saved settings, and
   whether each change is saved, put back or refused, the desktop reads its settings
   unchanged. The rollback may leave sections behind, but never a different connection.
   */
  lemma {:induction false} SwitchesKeepSettings(profile: Desktop.Profile, settings: Desktop.AppSettings,
                                                switches: seq<Switch>,
                                                checks: Mcp.Checks, policy: Management.Policy,
                                                saved: Option<S.Document>)
    requires Desktop.SettingsAreValid(profile, settings)
    requires HoldsSettings(saved, settings)
    ensures var after := AfterSwitches(ApplicationOf(settings), switches, checks, policy, saved);
            && HoldsSettings(after, settings)
            && Desktop.FromShared(profile, after.value) == Success(Some(settings))
  {
    if switches != [] {
      var init := switches[..|switches| - 1];
      SwitchesKeepSettings(profile, settings, init, checks, policy, saved);
      SwitchHoldsSettings(settings, switches[|switches| - 1], checks, policy,
                          AfterSwitches(ApplicationOf(settings), init, checks, policy, saved));
    }
    var after := AfterSwitches(ApplicationOf(settings), switches, checks, policy, saved);
    Desktop.ReadsBackWhatWasWritten(profile, settings, after.value);
  }
}
