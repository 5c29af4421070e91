# Worklogger: verified models

Worklogger is a desktop application and an MCP server for working hours in Jira and pull
requests in Bitbucket. This project models the parts of it whose correctness no finite set
of examples settles, and proves their properties for all inputs, all servers, all faults and
all interleavings.

`dafny verify dfyconfig.toml` checks everything.

## The parts

| part | modules |
|---|---|
| Report arithmetic: one list of worklogs, regrouped by member, task, category, day and week, in 32-bit seconds that saturate or wrap | `Seconds`, `Ordering`, `Worklogs`, `ReportExport`, `TopSlices`, `TeamMembers`, `TeamTasks`, `TeamCategories`, `TeamReport`, `ReportTrend` |
| Paging against servers that are not trusted: page tokens, numeric offsets, next-page addresses | `PageChain`, `JiraClient`, `JiraTokenPaging`, `JiraOffsetPaging`, `BitbucketPaging` |
| Queries: the quoted text of a search, the time bounds of a period | `Text`, `SearchQuery`, `Dates`, `WorklogBounds` |
| Tasks that race for the dashboard's state | `AsyncRequests` |
| Two stores changed together: shared settings by compare-and-set, tokens in a credential store, with compensation when a step fails | `SharedSettings`, `DesktopSettings`, `Credentials`, `Connection`, `McpConfiguration`, `McpManagement`, `Frontends` |
| Editing another program's configuration file | `ClientRegistration` |
| Pull request changes that were previewed first | `PullRequests` |

## How things are modelled

- A server is a function of the number of the request and of the cursor, so it may answer the
  same cursor differently every time. What a loop returns is compared with the chain of pages
  that this function describes on its own, without the loop.
- The three complete token collections are one loop: only the collection of board issues gives up
  as soon as a full result is not finished, which is an argument.
- A date is the number of its day. In the reports the multiples of seven are Mondays; in
  `Dates` day 0 is 1970-01-01 and the range is that of the time library.
- `saturating_add` folds saturate at 2^32 - 1; `Iterator::sum` wraps around, as it does in a
  release build. Every statement about sums says when the result is exact.
- `sort_by` is a stable insertion sort, and a `BTreeMap` or `BTreeSet` is enumerated in
  ascending order. Strings are compared by code point.
- A store operation takes a fault as an argument. The settings store fails without effect; the
  credential store may also fail after its effect.
- The organization's profile is one that passed its validation, with the limits and hours that
  the settings are tested against.
- Validators of sites, e-mail addresses and organization scopes, the address parser, the tests
  of paths, and the size test of a written file are parameters about which nothing is assumed,
  except that a path equals itself.

## Where the code does not do what one might expect

Each of these is proved, with the exact condition under which the expectation holds.

- `TopSlices.WholeIsOneHundredPercent`: the whole is shown as 100 % only while 100 times the
  total fits 32 bits; 42,949,673 seconds of 42,949,673 are 99 %.
- `JiraOffsetPaging.CollectsTheList`: an empty page before the end of an offset collection ends
  it without an error, and the result is cut short.
- `JiraTokenPaging.SearchEndsIff`: the bounded board search has no page budget, so it stops only
  on a server that does not keep it reading; `BoundedSearchMayNotEnd` is one that invents a new
  token with every empty page, and `FewRequests` bounds it on servers with finitely many tokens.
- `AsyncRequests.CompletionIsHarmlessIff`: the completion of a submitted worklog is not guarded by
  a request number. It replaces the session on show unless the run last put on show the very
  session it brings (`StaleMutationWins` is a run that puts an older session over a newer one),
  and it drops a refresh in flight for good (`LoadedPeriodIsLost`).
- `DesktopSettings.WithoutHoursLoadsIff`: the default report period of seven days is not capped
  by the organization's maximum, so the desktop cannot load a document without hours under a
  smaller maximum; `Frontends.ServerSaveBlocksDesktop` is a server save that makes one.
- `McpManagement.RollbackRestoresIff`: putting the configuration back does not restore it when
  there was no complete Jira connection before, or when the failed change added hours to it, because
  saving a configuration never removes a section of the document.
- `McpManagement.RollbackKeepsGrantsIff`: grants from which no configuration was loaded, as when a
  connection is incomplete, do not survive a change that was rolled back; `RollbackErasesGrants`
  is such a change.
- `ClientRegistration.RoundTripIff`: registering overwrites an entry of the same name that
  belongs to someone else; removing the registration does not bring it back.
- `PullRequests.RevisionSeesRepeatedRoles`: when a participant is listed twice with the same
  role, the order of the two entries changes the revision.
- `PullRequests.CreateFulfilsIff`: title and description of a new pull request are previewed as
  typed and sent without surrounding whitespace, as `UntrimmedTitleIsNotSent` shows.

## Model

| member | source | states |
|---|---|---|
| Seconds.SaturatingSumIsClamped | desktop-app/src/report_export.rs:603-610 | A saturating fold is the true total cut off at the 32-bit maximum, whatever the order of the values. |
| Seconds.WrappingSumIsModular | desktop-app/src/report_analytics.rs:121-124 | A plain sum is the true total modulo 2^32, hence exact if and only if the total fits. |
| Ordering.SortKeepsTies | crates/worklogger-mcp/src/bitbucket_pull_requests.rs:1399-1416 | The stable sort keeps the relative order of any elements that are tied with each other. |
| Ordering.StringLeIs | crates/worklogger-mcp/src/bitbucket_pull_requests.rs:1412-1414 | Strings are compared by code point: a prefix comes first, else the string with the smaller character where they part. |
| Ordering.InOrder | crates/worklogger-mcp/src/bitbucket_pull_requests.rs:1662-1676 | Enumerating an ordered set yields every element exactly once, ascending. |
| Worklogs.Conservation | desktop-app/src/report_analytics.rs:179-191 | Grouping by keys that are distinct and cover every entry loses and double-counts nothing: the groups' true totals add up to the whole. |
| ReportExport.BuildReportWeeks | desktop-app/src/report_export.rs:584-601 | The loop over Mondays builds the specified list of clipped weeks and terminates for every start and end. |
| ReportExport.ReportWeeksAreTheCut | desktop-app/src/report_export.rs:584-601 | A list of weeks is the report's if and only if it cuts the period, without gaps or overlaps, into non-empty pieces exactly at the Mondays inside it. |
| ReportExport.ExactlyOneWeek | desktop-app/src/report_export.rs:613-615 | A date of the period lies in exactly one of the weeks, and any other date in none. |
| ReportExport.WeekTotalsAddUp | desktop-app/src/report_export.rs:603-610 | The true week totals of any list of worklogs add up to the true total inside the period. |
| ReportExport.WeekCellsBalance | desktop-app/src/report_export.rs:603-610 | The saturating cells of a row never exceed the period's total, and equal it if and only if no single week overflows. |
| TopSlices.TopSecondsConserve | desktop-app/src/report_analytics.rs:360-395 | Merging the tail of a ranking keeps the sum if and only if nothing is merged or the merged tail fits 32 bits. |
| TopSlices.TopSecondsAreTheLargest | desktop-app/src/report_analytics.rs:371-395 | There are at most max(maximum, 2) slices, the named ones are the first of the ranking, and each is at least as large as every merged value. |
| TopSlices.TopSecondsAre | desktop-app/src/report_analytics.rs:371-395 | All values if there are at most two or at most the maximum; else the first as they are, and the rest as their total modulo 2^32. |
| TopSlices.PercentagesAddUp | desktop-app/src/report_analytics.rs:453-458 | Percentages of slices that make up the total add up to at most 100, and to more than 100 - k for k slices while 100 times the total fits. |
| TopSlices.WholeIsOneHundredPercent | desktop-app/src/report_analytics.rs:453-458 | The whole is 100 per cent if and only if the total is positive and 100 times it fits 32 bits; with a total for which it does not. |
| TopSlices.TopSecondsChart | desktop-app/src/report_analytics.rs:360-458 | The chart of any descending ranking shows the whole total in at most max(maximum, 2) slices, with percentages that add up to at most 100 and lose less than one point a slice while 100 times the total fits, and merges nothing larger than a named slice. |
| TeamMembers.SummarizeMembers | desktop-app/src/report_analytics.rs:243-286 | One row for every roster account and every author and no other, each holding exactly that member's worklogs, ranked, ties in account order. |
| TeamMembers.RowsShow | desktop-app/src/report_analytics.rs:243-286 | Each row shows its member's clamped total, numbers of days, issues and worklogs, and the name of the last worklog or else of the last roster entry; rows stand by seconds, then name, then account. |
| TeamMembers.MembersAddUp | desktop-app/src/report_analytics.rs:243-286 | The members' seconds add up to the whole report when its total fits. |
| TeamTasks.SummarizeTeamTasks | desktop-app/src/report_analytics.rs:288-312 | One task for every issue with worklogs, holding exactly those, by descending seconds with ties in key order. |
| TeamTasks.TasksShow | desktop-app/src/report_analytics.rs:288-312 | Each task shows the summary of its first worklog, its clamped total and its number of worklogs; tasks stand by seconds, then key. |
| TeamTasks.TasksAddUp | desktop-app/src/report_analytics.rs:288-312 | The tasks' seconds add up to the whole report when its total fits. |
| TeamCategories.GroupCategorySeconds | desktop-app/src/report_analytics.rs:179-191 | The map holds exactly the labels that occur, each with the saturating sum of its own worklogs. |
| TeamCategories.RankCategories | desktop-app/src/report_analytics.rs:164-214 | Every label that occurs is ranked once, with its seconds and percentage, in chart order. |
| TeamCategories.FiledUnder | desktop-app/src/report_analytics.rs:193-199 | A worklog is filed under its value as it is, and as unspecified exactly if the value is missing or whitespace. |
| TeamCategories.SlicesShow | desktop-app/src/report_analytics.rs:164-214 | The ranking has a slice for every value that occurs and no other, with the clamped total of the worklogs that have it; it stands by seconds, then name, the unspecified last. |
| TeamCategories.CategorySlices | desktop-app/src/report_analytics.rs:164-241 | The slices are the limited ranking, have distinct labels, number at most max(maximum, 2), and add up to the report when its total fits. |
| TeamCategories.ChartIsShown | desktop-app/src/report_analytics.rs:216-241 | The chart shows that ranking as it is if at most two slices or at most the maximum; else its first slices, and the rest as one more with their total modulo 2^32. |
| TeamCategories.LimitedCategories | desktop-app/src/report_analytics.rs:216-241 | Limiting a ranking acts on its seconds as every chart does, keeps labels distinct because the merged label is a new one, and recomputes percentages of the total. |
| TeamCategories.CategoryChart | desktop-app/src/report_analytics.rs:164-241 | The chart of a classification of any report whose total fits charts its ranking in that sense, and the percentages shown are those of the seconds shown. |
| TeamReport.TaskSlicesAreTop | desktop-app/src/report_analytics.rs:360-395 | Task slices name the first tasks of the ranking and merge the rest, keep distinct keys, and carry the top seconds and their percentages of the total. |
| TeamReport.MemberSlicesAreTop | desktop-app/src/report_analytics.rs:397-433 | Member slices name the first members, merge the rest, and act on the seconds as every chart does. |
| TeamReport.RankingsDescend | desktop-app/src/report_analytics.rs:243-312 | Ranked tasks and ranked members stand in descending order of their seconds. |
| TeamReport.TasksAndMembersChart | desktop-app/src/report_analytics.rs:360-433 | The task chart and the member chart of any report whose total fits chart their rankings in that sense, and task percentages are those of the seconds shown. |
| TeamReport.TrendPoints | desktop-app/src/report_analytics.rs:435-451 | Each point carries its day and the running total up to it, cut off at the maximum. |
| TeamReport.DaysAddUp | desktop-app/src/report_analytics.rs:314-327 | The days share out everything inside the period when that total fits. |
| TeamReport.Calculate | desktop-app/src/report_analytics.rs:110-141 | Every view of the report shows what the fields of the worklogs say: members, tasks, task slices, the charts of types and statuses, and for each day of the period its date, its seconds and the running total. All of them account for the same total when it fits 32 bits. |
| TeamReport.ReportShows | desktop-app/src/report_analytics.rs:110-141 | The same for any report made of the summaries, in one statement about the fields of the worklogs. |
| TeamReport.RowBalances | desktop-app/src/report_export.rs:1324-1338 | A member's week cells add up to the member's seconds when the member's dates are in the period and the total fits. |
| TeamReport.ColumnBalances | desktop-app/src/report_export.rs:1080-1089 | The cells of a week over any distinct accounts that cover the authors add up to the team's week, provided that fits. |
| TeamReport.TableBalances | desktop-app/src/report_export.rs:1287-1338 | The whole table balances: rows, columns and grand total agree with the members, the team's weeks and the seconds loaded, and every cell is its true total. |
| TeamReport.CellsAreExact | desktop-app/src/report_export.rs:603-610 | When the total fits, no cell, row or column total saturates: each is the true total of its worklogs. |
| TeamReport.CellsAreInPlace | desktop-app/src/report_export.rs:1287-1338 | The cell of a member and a week stands in that row and that column, and holds what that member worked between the first and the last day of that week. |
| ReportTrend.IntervalIsLeast | desktop-app/src/reports.rs:461-474 | The chosen interval is the least one that shows at most max(maximum, 2) points. |
| ReportTrend.VisibleTrend | desktop-app/src/reports.rs:461-478 | The visible points are an ordered selection within the budget that contains the first and the last point, for every length and maximum. |
| ReportTrend.LabelsMarkVisiblePoints | desktop-app/src/reports.rs:440-459 | A label is non-empty at exactly the visible points, given that dates format to something. |
| ReportTrend.LabelIs | desktop-app/src/reports.rs:440-459 | A label is the format of its own point at a visible index, and nothing elsewhere. |
| JiraTokenPaging.CollectIssues | crates/jira-adapter/src/client.rs:780-804 | For any server: at most `maxItems` requests, none repeated; a success exactly when the chain can be read completely within the limits, and then it is the whole chain in order; an error is that of the last page asked for, at exactly that request, or a spent budget. |
| JiraTokenPaging.CompleteReadIs | crates/jira-adapter/src/client.rs:929-974 | A chain that ends within the limits with usable tokens is exactly one that the loop's own page-by-page tests accept. |
| JiraTokenPaging.TokenTest | crates/jira-adapter/src/client.rs:1545-1556 | The test against the remembered tokens accepts exactly the tokens that are there, not empty and never used before. |
| JiraTokenPaging.FailureIsFinal | crates/jira-adapter/src/client.rs:1486-1497 | When the loop gives up, for whichever reason, no complete read of the chain exists. |
| JiraTokenPaging.FindBoardIssue | crates/jira-adapter/src/client.rs:1002-1021 | The answer is no if and only if the whole chain can be read and lacks the key, and yes if and only if a page that can be read has it, at the first such page; an error is that of the last page asked for, or a spent budget. |
| JiraTokenPaging.SearchLimited | crates/jira-adapter/src/client.rs:976-1000 | Each request asks for a full page or for what is still wanted, whichever is less; there is a result exactly when a bounded read exists; a result marked as having more is exactly full and its chain unfinished, any other is the whole chain; an error is that of the last page asked for; no request beyond the horizon at which the loop cannot still be reading. |
| JiraTokenPaging.SearchEndsIff | crates/jira-adapter/src/client.rs:976-1000 | On any server the bounded search stops at some page if and only if after some number of pages it is not still reading; on a server that always keeps it reading there is no bounded read at all. |
| JiraTokenPaging.FewRequests | crates/jira-adapter/src/client.rs:976-1000 | On a server with finitely many tokens the bounded search makes at most one request more than there are tokens. |
| JiraTokenPaging.FiniteTokensEnd | crates/jira-adapter/src/client.rs:976-1000 | On a server with finitely many tokens the bounded search cannot still be reading after one page more than there are tokens. |
| JiraTokenPaging.BoundedSearchMayNotEnd | crates/jira-adapter/src/client.rs:976-1000 | A server that sends empty pages with ever new tokens, on which the bounded search is still reading after any number of pages. |
| JiraOffsetPaging.CollectOffsets | crates/jira-adapter/src/client.rs:877-898 | For any server: at most `maxItems` requests and items; a success is the concatenation of the pages up to the first that ends the collection, a failure is the first refusal. |
| JiraOffsetPaging.TakePage | crates/jira-adapter/src/client.rs:1508-1535 | The checks on a page, in their order, refuse it for exactly the specified reason, and otherwise say whether it ends the collection. |
| JiraOffsetPaging.AnswerIsUnique | crates/jira-adapter/src/client.rs:498-511 | The specification of the loop determines the result and the number of requests. |
| JiraOffsetPaging.PagesBringItems | crates/jira-adapter/src/client.rs:1516-1528 | After n pages that did not end the collection at least n and fewer than `maxItems` items are held. |
| JiraOffsetPaging.CollectsTheList | crates/jira-adapter/src/client.rs:498-511 | Against a server that holds a list: an error if and only if the list is too long, else a prefix, which is the whole list if and only if no page before the end is empty. |
| JiraOffsetPaging.EmptyPageCutsShort | crates/jira-adapter/src/client.rs:1516-1528 | A server with one item and an empty first page yields a successful empty result. |
| BitbucketPaging.CollectPages | crates/bitbucket-adapter/src/lib.rs:726-757 | For any server: at most `maximumItems` requests to different addresses, the first the initial one and each later one the parsed and safe next address of the page before; a success is the first items of the concatenation of the values that the server sent, exactly when the chain is readable under the policy; an error other than one of paging is the server's answer to the last request. |
| BitbucketPaging.ChainMirrors | crates/bitbucket-adapter/src/lib.rs:746-757 | What the loop sees of an answer are exactly the server's values and its next address, or the reason why there is none to follow. |
| BitbucketPaging.ListItems | crates/worklogger-mcp/src/bitbucket_pull_requests.rs:519-535 | A list asked for with fewer items than configured is exactly the first items asked for of what the server sent, or all if there are fewer; any other list is complete or an error; without room for one item nothing is requested. |
| BitbucketPaging.ListLimitsAre | crates/worklogger-mcp/src/bitbucket_pull_requests.rs:519-535 | The limit is the lesser of the items asked for and configured, the page size no larger; an overflow is cut off exactly if fewer were asked for than are configured. |
| BitbucketPaging.FollowPages | crates/bitbucket-adapter/src/lib.rs:726-744 | The loop returns a collection exactly when the chain is readable under the policy, for any way of loading pages, and gives up exactly at the page or the next address that is the reason. |
| BitbucketPaging.RejectingIsComplete | crates/bitbucket-adapter/src/lib.rs:983-999 | With the rejecting policy a success is the full concatenation of a chain that ends. |
| BitbucketPaging.SuccessIsPrefix | crates/bitbucket-adapter/src/lib.rs:983-999 | With either policy a success is the first `maximumItems` items of the whole chain, or all of it if it is shorter. |
| BitbucketPaging.AppendPage | crates/bitbucket-adapter/src/lib.rs:983-999 | Fails exactly on an overflow or an unfinished full collection that the policy rejects; otherwise appends what fits and says whether the collection is full. |
| BitbucketPaging.NextIsSafe | crates/bitbucket-adapter/src/lib.rs:830-841 | Every address after the first has the scheme, host and port of the configured server and the path of the collection, and carries no credentials and no fragment. |
| BitbucketPaging.FollowedIff | crates/bitbucket-adapter/src/lib.rs:830-841 | A next address is followed if and only if it can be parsed and is such an address. |
| BitbucketPaging.PortsAre | crates/bitbucket-adapter/src/lib.rs:830-841 | The port compared is the one in the address, or the usual one of its scheme. |
| SearchQuery.TwoPassesAreOne | crates/bitbucket-adapter/src/lib.rs:903-906 | Replacing backslashes and then quotes equals escaping character by character in one pass. |
| SearchQuery.ReadsBack | crates/bitbucket-adapter/src/lib.rs:903-906 | A reader that honours backslashes gets the text back from its escaped form and stops at the intended quote. |
| SearchQuery.QueryQuotesTheText | crates/bitbucket-adapter/src/lib.rs:903-906 | The query reads as the trimmed text, twice, each followed by exactly the intended continuation. |
| SearchQuery.QueryIsInjective | crates/bitbucket-adapter/src/lib.rs:903-906 | Two searches send the same query if and only if their trimmed texts are equal. |
| SearchQuery.PlainQuery | crates/bitbucket-adapter/src/lib.rs:903-906 | The whole query, in full, for a text without quotes and backslashes. |
| Text.TrimIs | crates/bitbucket-adapter/src/lib.rs:903-906 | Trimming takes only whitespace, from both ends, and all of it there. |
| Text.BlankIff | crates/bitbucket-adapter/src/lib.rs:927-932 | A text is blank if and only if it has no other character than whitespace. |
| WorklogBounds.BoundsAreThePeriod | crates/jira-adapter/src/client.rs:1597-1615 | An instant is within the bounds if and only if its local date under the offset is in the period. |
| WorklogBounds.DayBeginsAt | crates/jira-adapter/src/client.rs:1597-1615 | A local day begins the offset before it does in UTC, east of it earlier and west of it later. |
| Dates.RangeOfDays | crates/jira-adapter/src/client.rs:1597-1615 | The days that exist are those of the Gregorian years -9999 to 9999. |
| WorklogBounds.BoundsExist | crates/jira-adapter/src/client.rs:1597-1615 | Bounds exist for every period except one that ends on the last representable day; no offset makes them overflow. |
| WorklogBounds.BoundsTile | crates/jira-adapter/src/client.rs:1597-1615 | The bounds are day-count times 86,400,000 ms long, and meet those of another period if and only if it follows on. |
| WorklogBounds.LoadOwnEntries | crates/hours-core/src/application/load_own_time_entries.rs:11-24 | The filter keeps exactly the subject's entries whose local date is in the period, in order. |
| WorklogBounds.NothingIsCutOff | crates/hours-core/src/application/load_own_time_entries.rs:11-24 | Asking the server for the bounds and then filtering equals filtering everything. |
| AsyncRequests.IssuedAreDistinct | desktop-app/src/async_request.rs:8-12 | In every run the request numbers handed out are strictly ascending, hence distinct. |
| AsyncRequests.AppliedAtMostOnce | desktop-app/src/ui.rs:731-739 | In every run each refresh sets the state at most once. |
| AsyncRequests.TakesEffectIffUndisturbed | desktop-app/src/ui.rs:717-739 | A refresh in flight is still current after a run if and only if nothing in that run has set the state. |
| AsyncRequests.RefreshTakesEffect | desktop-app/src/ui.rs:646-739 | A finishing refresh shows its outcome if nothing set the state since it started, and otherwise leaves the state as it is. |
| AsyncRequests.CompletionShows | desktop-app/src/ui.rs:779-803 | In every run after a completion its result is shown until the next submission, a failure with its message, and the session with its warning or error until something sets the state. |
| AsyncRequests.TeamShowsTheLastPeriod | desktop-app/src/reports.rs:160-183 | In every run whatever the team view shows or waits for carries the period of the team request started last. |
| AsyncRequests.TeamReportShows | desktop-app/src/reports.rs:167-183 | In every run after the awaited team report has arrived, its contents or its message are shown under the period asked for, until another one is asked for or the reports are left. |
| AsyncRequests.ShownIsLastShown | desktop-app/src/ui.rs:646-803 | In every run the session on show is the one that the run last put on show. |
| AsyncRequests.CompletionKeepsShownIff | desktop-app/src/ui.rs:766-803 | In every run from a submission to its completion: a completion without a new session keeps the session on show if and only if the run last put its own fallback on show, one with a new session if and only if that session was already put on show; for the former it suffices that nothing set the state meanwhile. |
| AsyncRequests.CompletionIsHarmlessIff | desktop-app/src/ui.rs:717-803 | It does no harm at all, to the session on show or to a refresh in flight, if and only if the run last put on show the session it brings, and not by starting a refresh. |
| AsyncRequests.CompletionDropsRefresh | desktop-app/src/ui.rs:731-803 | A refresh that was in flight at the completion takes effect in no run after it. |
| AsyncRequests.StaleMutationWins | desktop-app/src/ui.rs:766-803 | A run in which the unguarded completion of a failed submission replaces a newer session by an older one. |
| AsyncRequests.LoadedPeriodIsLost | desktop-app/src/ui.rs:717-803 | A run in which a period chosen after the submission is loaded without an error and never shown. |
| AsyncRequests.Dashboard.BeginPeriodRefresh | desktop-app/src/ui.rs:717-729 | The cells change exactly as the transition system's start of a refresh, with a new request number. |
| AsyncRequests.Dashboard.CompleteRefresh | desktop-app/src/ui.rs:731-739 | The cells change exactly as the transition for a finishing refresh. |
| AsyncRequests.Dashboard.StartWorklog | desktop-app/src/ui.rs:766-777 | Submitting a worklog spawns its task and leaves the dashboard's state alone. |
| AsyncRequests.Dashboard.FinishWorklogSubmission | desktop-app/src/ui.rs:779-803 | The cells change exactly as the transition for a finishing submission. |
| AsyncRequests.Dashboard.StartTeam | desktop-app/src/reports.rs:167-179 | The cells change exactly as the transition for a started team report. |
| AsyncRequests.Dashboard.CompleteTeam | desktop-app/src/reports.rs:167-183 | The cells change exactly as the transition for a finishing team report. |
| SharedSettings.CommitsIff | crates/worklogger-settings/src/storage.rs:87-108 | A save commits if and only if the document is valid and was made from the stored revision, and then it raises the revision and changes nothing else. |
| SharedSettings.DocumentValidIff | crates/worklogger-settings/src/lib.rs:124-245 | A document is valid if and only if its version is 1, every section that is there is valid, and every grant is in its module and has its read. |
| SharedSettings.JiraValidIff | crates/worklogger-settings/src/lib.rs:139-165 | Which connections to Jira a document may hold: no zero, an e-mail address with an @ and without whitespace, a site that is not blank. |
| SharedSettings.HoursValidIff | crates/worklogger-settings/src/lib.rs:167-204 | Which hours a document may hold. |
| SharedSettings.EmptyIs | crates/worklogger-settings/src/storage.rs:87-108 | A document that does not exist yet counts as an empty one of version 1 and revision 0. |
| SharedSettings.ModulesAre | crates/worklogger-profile/src/lib.rs:104-120 | Which capabilities belong to Jira, and hence which to Bitbucket. |
| SharedSettings.ReadsAre | crates/worklogger-profile/src/lib.rs:123-140 | Which read each capability needs. |
| SharedSettings.SharedStore.Save | crates/worklogger-settings/src/storage.rs:87-108 | The stored document becomes the committed one, or stays as it was when the save fails. |
| DesktopSettings.ReadsBackWhatWasWritten | desktop-app/src/shared_settings.rs:9-112 | Valid settings written into any document are read back unchanged, under every valid profile. |
| DesktopSettings.LoadedFields | desktop-app/src/shared_settings.rs:9-112 | Each loaded value is its own field of the document, or what stands in for it: the profile's default, seven days for the report period, and no team reports. |
| DesktopSettings.HoursAcceptedIff | desktop-app/src/settings.rs:309-351 | The desktop accepts hours if and only if a shared document may hold them and the organization allows them. |
| DesktopSettings.JiraAcceptedIff | desktop-app/src/settings.rs:253-290 | The desktop accepts a connection if and only if a shared document may hold its limits, these are allowed, and the organization accepts site, e-mail address and board. |
| DesktopSettings.SettingsFitIff | desktop-app/src/shared_settings.rs:30-58 | Valid settings fit into a valid document if and only if its own tests of site and e-mail address pass. |
| DesktopSettings.HoursProfileIff | crates/worklogger-profile/src/lib.rs:720-747 | Which hours a profile may have. |
| DesktopSettings.ProfileBounds | crates/worklogger-profile/src/lib.rs:690-711 | No profile allows more than the absolute limits or suggests more than it allows. |
| DesktopSettings.WithoutHoursLoadsIff | desktop-app/src/shared_settings.rs:82-112 | A document with a connection and no hours loads if and only if the connection is accepted and the organization allows reports over seven days; every other default is always accepted. |
| DesktopSettings.RunKeepsConsistent | desktop-app/src/settings.rs:155-198 | In every interleaving with another frontend, documents seen earlier are either the stored one or of a smaller revision. |
| DesktopSettings.SaveCommitsOnTop | desktop-app/src/settings.rs:177-198 | In every interleaving a desktop save commits if and only if the stored document is still the one it was built on; it then keeps language, Bitbucket and MCP sections, and otherwise changes nothing. |
| DesktopSettings.LoadAfterSave | desktop-app/src/settings.rs:155-198 | After a save that went through, in any interleaving, loading gives the saved settings. |
| DesktopSettings.DesktopStore.LoadSettings | desktop-app/src/settings.rs:155-175 | Loading changes the observed document exactly as the transition system says, and only when it succeeds. |
| DesktopSettings.DesktopStore.Save | desktop-app/src/settings.rs:177-198 | Saving is the two transitions of the system one after the other; it succeeds exactly if the stored document changed, and a failure changes nothing. |
| Credentials.CredentialStore.Restore | desktop-app/src/connection.rs:629-640 | Puts the previous token, or its absence, back under the account, unless the store fails before doing so. |
| Credentials.RestoreUndoes | desktop-app/src/connection.rs:621-640 | Restoring one account undoes any changes confined to that account. |
| Connection.Persist | desktop-app/src/connection.rs:585-619 | Without faults it succeeds if and only if both stores can take the request. A success installs token and settings; a failure changes no settings, and no token unless the store failed after taking the new one or refused the previous one back. |
| Connection.PersistedIsRestored | desktop-app/src/connection.rs:393-411 | What was persisted is what the application restores. |
| Connection.Disconnect | desktop-app/src/connection.rs:246-278 | After a success there is no connection to restore; after a failure the settings read as before and the token is lost only if the store failed after deleting it and refused it back. |
| Connection.RollbackDisconnect | desktop-app/src/connection.rs:280-305 | The settings are saved once more whether or not the token could be put back, the document ends as exactly that save, and what is read from it stays the same; it succeeds if and only if both halves do. |
| McpConfiguration.SetCapabilityIs | crates/worklogger-mcp/src/configuration.rs:483-495 | Switching a capability on adds it and its read, off removes it and what needs it; nothing else changes and grants stay closed. |
| McpConfiguration.ValidIff | crates/worklogger-mcp/src/configuration.rs:429-530 | A configuration is valid if and only if its connections pass their tests and every grant has its read and its connection. |
| McpConfiguration.ReadsBackIff | crates/worklogger-mcp/src/shared_configuration.rs:19-75 | A valid configuration with something enabled is read back as written if and only if the document held nothing that the configuration lacks. |
| McpConfiguration.LoadsSomethingIff | crates/worklogger-mcp/src/shared_configuration.rs:19-35 | A valid document loads as none if and only if nothing is enabled in it or an enabled module lacks its connection or its hours. |
| McpConfiguration.LoadedJira | crates/worklogger-mcp/src/shared_configuration.rs:95-107 | The server has a connection to Jira if and only if every field of it but the hours is there. |
| McpConfiguration.LoadedHours | crates/worklogger-mcp/src/shared_configuration.rs:109-123 | The server has hours if and only if target, offset and number of concurrent requests are there; 24 hours a day and seven days a report stand in. |
| McpConfiguration.LoadedBitbucket | crates/worklogger-mcp/src/shared_configuration.rs:125-141 | The server has a connection to Bitbucket if and only if all its fields are there; no reviewers and open branches stand in. |
| McpConfiguration.UpdateLeavesTheRest | crates/worklogger-mcp/src/shared_configuration.rs:37-75 | Saving a configuration changes no language, no report settings, no default start time, and no section of a connection that it lacks. |
| McpConfiguration.UpdateKeepsValid | crates/worklogger-mcp/src/shared_configuration.rs:37-195 | What was read from a valid document can be written into any valid document. |
| McpConfiguration.ConfigurationStore.Save | crates/worklogger-mcp/src/configuration.rs:602-615 | Succeeds if and only if the configuration and the resulting document are valid and a revision is left, and then commits exactly that document. |
| McpManagement.CoordinatesStay | desktop-app/src/mcp_management.rs:403-434 | Switching a capability never changes an existing Jira or Bitbucket connection, except that hours may be added to one without. |
| McpManagement.HoursAre | desktop-app/src/mcp_management.rs:420-434 | Existing hours stay; missing ones are the desktop's where there was no connection yet or the capability switched on needs them, and stay missing otherwise. |
| McpManagement.CapabilityFollows | desktop-app/src/mcp_management.rs:403-434 | The capability ends up as asked for if its module is part of the program, and off otherwise. |
| McpManagement.OthersStay | desktop-app/src/mcp_management.rs:509-523 | Switching a capability on switches off no other capability that may be used. |
| McpManagement.OthersStayWhenOff | desktop-app/src/mcp_management.rs:509-523 | Switching a capability off leaves every other one that may be used and does not need it. |
| McpManagement.SwitchesOnly | desktop-app/src/mcp_management.rs:403-523 | After a change the modules are those before and the switched one; that one gains the capability and its read or loses it and what needs it, every other stays as it is, and then the policy takes away exactly what it does not allow. |
| McpManagement.SynchronizeCredential | desktop-app/src/mcp_management.rs:582-680 | On success the server's token is present if and only if the module is enabled, an existing one kept and a missing one taken from the desktop's account; without faults it succeeds if and only if such a token is to be had, and every refusal has its reason. |
| McpManagement.Configure | desktop-app/src/mcp_management.rs:252-265 | A success changes the grants as `SwitchesOnly` says and leaves the token at the new configuration's connection if and only if the Jira module is enabled; a failure puts configuration and token back unless a store refuses; no other account is touched; the document ends in one of the three ways that `Switched` describes. |
| McpManagement.PersistConfiguration | desktop-app/src/mcp_management.rs:278-295 | The same transaction for one configuration that has been computed. |
| McpManagement.ApplyOrRollback | desktop-app/src/mcp_management.rs:297-312 | The second half of the transaction: a success changes nothing but the token of that account, a failure puts both stores back unless one refuses, and says so then. |
| McpManagement.Recover | desktop-app/src/mcp_management.rs:304-308 | Token and configuration are both put back, each whether or not the other could be; it succeeds only if both were. |
| McpManagement.CanRollBack | desktop-app/src/mcp_management.rs:370-379 | Faults aside, the previous configuration can always be put back as long as a revision is left. |
| McpManagement.RollbackRestoresIff | desktop-app/src/mcp_management.rs:278-312 | After the rollback the configuration loads as before if and only if there was none, or it had a Jira connection and the change added no hours to it. |
| McpManagement.RollbackLeavesJiraBehind | desktop-app/src/mcp_management.rs:370-379 | For every site and e-mail address, a document with a Bitbucket connection and the desktop's own Jira connection, for which the rollback leaves a server connection to Jira behind. |
| McpManagement.RollbackKeepsGrantsIff | desktop-app/src/mcp_management.rs:370-379 | After the rollback the document grants what it granted before if and only if a configuration had been loaded from it or it had no grants. |
| McpManagement.OtherGrantsStayIff | desktop-app/src/mcp_management.rs:509-523 | A change keeps another module in the document if and only if it was there and a configuration had been loaded, with the same grants up to the policy; otherwise the change starts over. |
| McpManagement.RollbackErasesGrants | desktop-app/src/mcp_management.rs:370-379 | For every site and e-mail address, a document in which Bitbucket is granted and not yet connected, whose grants a rolled-back change of a Jira capability erases. |
| Frontends.DesktopSeesServer | desktop-app/src/shared_settings.rs:61-112 | What the server wrote of connection and hours is what the desktop then reads. |
| Frontends.ServerSaveBlocksDesktop | crates/worklogger-mcp/src/shared_configuration.rs:37-75 | For every site and e-mail address, a first connection that the server saves without hours and reads back, and that the desktop cannot load under a profile that allows reports over five days. |
| Frontends.ExampleIsLoaded | desktop-app/src/shared_settings.rs:9-27 | The desktop loads the documents of the rollback examples, and its connection is the one the examples use. |
| Frontends.SwitchesKeepSettings | desktop-app/src/mcp_management.rs:252-312 | In any sequence of changes of capabilities for the saved connection, each ending in one of the ways of `Configure`, the desktop reads its settings unchanged. |
| ClientRegistration.EditsChangeNothingElse | crates/worklogger-mcp/src/client_registration.rs:755-791 | Any sequence of registrations and removals leaves every other root member and every other server as it was. |
| ClientRegistration.RegisteredAfterwards | crates/worklogger-mcp/src/client_registration.rs:988-1017 | What was just written is recognised as registered, or as broken while the file is missing. |
| ClientRegistration.EntryIsWritten | crates/worklogger-mcp/src/client_registration.rs:988-993 | What is written is exactly an entry with the command and the one argument "serve", under "worklogger" of "mcpServers". |
| ClientRegistration.StatesAre | crates/worklogger-mcp/src/client_registration.rs:995-1017 | What each state says about the entry under that name: its command, its arguments and the file. |
| ClientRegistration.OwnedIff | crates/worklogger-mcp/src/client_registration.rs:995-1045 | An entry is our own if and only if it runs this server or a versioned executable beside it with exactly that argument. |
| ClientRegistration.AvailableAfterwards | crates/worklogger-mcp/src/client_registration.rs:770-791 | Removal leaves no entry of our own and leaves a foreign entry alone. |
| ClientRegistration.RoundTripIff | crates/worklogger-mcp/src/client_registration.rs:755-791 | Registering and removing gives the document back, up to an empty object of servers, if and only if it had no entry under the name. |
| ClientRegistration.ConfigurationFile.WriteJson | crates/worklogger-mcp/src/client_registration.rs:1047-1066 | Writes if and only if the file still says what the document was made from, the document fits and the storage works. |
| ClientRegistration.ConfigurationFile.RegisterServer | crates/worklogger-mcp/src/client_registration.rs:302-314 | Succeeds if and only if the server is an absolute path of a file, the file did not change between the reads, and the write works; it then is registered. |
| ClientRegistration.ConfigurationFile.UnregisterServer | crates/worklogger-mcp/src/client_registration.rs:321-336 | Writes only a document without our own entry, made from what both reads saw; an entry that is not our own stays, and so does what another program wrote in between. |
| PullRequests.CanonicalIff | crates/worklogger-mcp/src/bitbucket_pull_requests.rs:1399-1416 | Two lists of participants have the same canonical form if and only if every account and role has the same entries in the same order. |
| PullRequests.ParticipantsAreSorted | crates/worklogger-mcp/src/bitbucket_pull_requests.rs:1399-1416 | The canonical list holds the same participants by account, and by role for each account. |
| PullRequests.RevisionIff | crates/worklogger-mcp/src/bitbucket_pull_requests.rs:1442-1463 | Two states of a pull request have the same revision if and only if texts, branches, state, commits, time of update and flags are equal, and so are the participants of every account and role. |
| PullRequests.RevisionIgnoresOrder | crates/worklogger-mcp/src/bitbucket_pull_requests.rs:1442-1456 | The revision is the same for every order of participants with different account and role. |
| PullRequests.RevisionSeesRepeatedRoles | crates/worklogger-mcp/src/bitbucket_pull_requests.rs:1399-1416 | Two different entries for the same account and role, swapped, change the revision. |
| PullRequests.MergeReviewers | crates/worklogger-mcp/src/bitbucket_pull_requests.rs:1662-1676 | Exactly the default, configured and requested reviewers, each once, ascending. |
| PullRequests.PullRequestService.ApplyExisting | crates/worklogger-mcp/src/bitbucket_pull_requests.rs:716-824 | A change is made only for a confirmed request in scope and directly after a read that found the pull request with every field and commit of the expected revision; every refusal has its reason, and the log keeps that property. |
| PullRequests.PullRequestService.ExecuteExisting | crates/worklogger-mcp/src/server.rs:1081-1097 | What reaches the provider fulfils the previewed effect on the previewed pull request; a confirmed, accepted request in scope that the client sends to a cooperating provider succeeds if and only if no field or commit of the pull request has changed between the two reads. Without acceptance nothing is changed, and every refusal has its reason. |
| PullRequests.PullRequestService.PreviewCreate | crates/worklogger-mcp/src/bitbucket_pull_requests.rs:846-860 | The plan names the repository, the fields of the request and the merged reviewers of this moment; it fails only out of scope or when the provider fails. |
| PullRequests.PullRequestService.ApplyCreate | crates/worklogger-mcp/src/bitbucket_pull_requests.rs:694-714 | Only a confirmed request in scope that the client sends creates anything, in the repository and from and to the branches asked for, with the bound reviewers, or else the merge of those the provider gives now, the configured and the requested ones; every refusal has its reason. |
| PullRequests.PullRequestService.ExecuteCreate | crates/worklogger-mcp/src/server.rs:1099-1116 | The plan holds the fields of the request and the merged reviewers of that moment; what is sent goes to the repository and the branches that the plan shows, with its reviewers whatever the defaults have become; the body fulfils the plan if and only if the request was trimmed. Every refusal has its reason, and a confirmed, accepted request in scope that the client sends succeeds when the provider cooperates. |
| PullRequests.CreateFulfilsIff | crates/worklogger-mcp/src/bitbucket_pull_requests.rs:1615-1646 | What is sent for a new pull request goes to the repository and the branches of the request, and is what was previewed if and only if title and description have no whitespace around them. |
| PullRequests.UntrimmedTitleIsNotSent | crates/bitbucket-adapter/src/lib.rs:953-966 | The title " x" is previewed as it is and sent as "x". |
| PullRequests.SendableIff | crates/bitbucket-adapter/src/lib.rs:927-951 | The client sends a new pull request if title and both branches have text, an update if it updates something and a new title has text, a comment if it has text, and anything else. |
| PullRequests.PullRequestService.ScopeIs | crates/worklogger-mcp/src/bitbucket_pull_requests.rs:504-517 | A repository is in scope if and only if it is configured for its workspace. |

## Left out

- HTTP, authentication headers, JSON decoding, retries and timeouts; a server is reduced to its page contents, cursors and errors.
- The page size sent to a server is not an argument of the modelled server; being an arbitrary function of the request number, it may have taken any size into account.
- Counters of pages, days and uncommented entries are unbounded; request numbers are taken not to wrap at 2^64.
- Active days, the busiest day, averages, `page_window`, the comment and text filters of the team view, and all drawing of sheets, documents and charts.
- The calendar: weekday arithmetic is modular arithmetic on day numbers, without the limits of the date type except in `Dates`.
- The individual report, which calls the same slicing functions.
- Configuration files read by path instead of through the shared document, development-mode paths, and the variant of the MCP configuration without a credential store.
- The registration of clients through their command line or a TOML file; both make the same two edits to the same kind of map.
- ClientRegistration.ConfigurationFile.WriteJson: does not close the gap between the re-read and the commit of the file, which the code does not close either.
- PullRequests.PullRequestService.ApplyExisting: says nothing about changes at the provider between the read and the change; the code does not prevent them.
- PullRequests.PullRequestService.ExecuteExisting: whether a confirmation token is accepted is an argument; how tokens are made and spent is not modelled.
- Locks of processes and files; each credential transaction runs without another one in between, and other frontends' changes during a transaction appear only as a failing save.
- The older format of the settings file, whose field for team reports is moved when the file is read.
- The dashboard's dialogs, navigation, the submission state of the preferences dialog, and the reactive signals that render the state.
