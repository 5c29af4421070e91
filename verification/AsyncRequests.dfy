/**
 The dashboard's shared state and the tasks that write to it when they finish. Refreshes
 and team reports are guarded by request numbers; the completion of a submitted worklog
 is not guarded, nor are the other screens' own changes.
 */
module AsyncRequests {
  import opened Wrappers
  import opened Dates

  // ----- States -----

  datatype Session = Session(period: DateRange, contents: string)

  datatype AppState =
    | Starting
    | Setup(problem: Option<string>, loading: bool)
    | Connected(session: Session, error: Option<string>)
    | Refreshing(session: Session, period: DateRange, id: nat)
    | Disconnecting
    | Demo

  datatype TeamReport = TeamReport(period: DateRange, contents: string)

  datatype TeamState =
    | Idle
    | Loading(period: DateRange, id: nat)
    | Ready(report: TeamReport)
    | Failed(period: DateRange, message: string)

  datatype Submission = NotSubmitted | Pending | Succeeded | Rejected(message: string)

  /** How a change of a worklog ends. */
  datatype MutationOutcome =
    | Refreshed(session: Session)
    | CommittedWithoutRefresh(message: string)
    | MutationFailed(message: string)

  /**
   Everything the tasks can see: the request counter, the three cells, and the spawned
   tasks that have not finished. A refresh remembers the session to fall back to, a team
   load its period. The counter is a 64-bit number that is taken not to wrap.
   */
  datatype World = World(
    nextId: nat,
    app: AppState,
    team: TeamState,
    submission: Submission,
    refreshes: map<nat, Session>,
    teamLoads: map<nat, DateRange>,
    mutations: multiset<Session>)

  datatype Event =
    | StartRefresh(fallback: Session, period: DateRange)
    | FinishRefresh(id: nat, outcome: MutationOutcome)
    | StartMutation(fallback: Session)
    | FinishMutation(fallback: Session, outcome: MutationOutcome)
    | SetState(next: AppState)
    | StartTeamReport(period: DateRange)
    | FinishTeamReport(id: nat, loaded: Result<string, string>)
    | LeaveReports

  // ----- Transitions -----

  /** The state after a refresh or a change: the new session, or the old one and a message. */
  function MutationState(outcome: MutationOutcome, fallback: Session): AppState {
    match outcome
    case Refreshed(session) => Connected(session, None)
    case CommittedWithoutRefresh(message) => Connected(fallback, Some(message))
    case MutationFailed(message) => Connected(fallback, Some(message))
  }

  predicate IsCurrentRefresh(app: AppState, id: nat) {
    app.Refreshing? && app.id == id
  }

  predicate TeamRequestIsCurrent(team: TeamState, id: nat) {
    team.Loading? && team.id == id
  }

  /** A loaded team report is labelled with the period that was asked for. */
  function LoadedTeam(period: DateRange, loaded: Result<string, string>): TeamState {
    match loaded
    case Success(contents) => Ready(TeamReport(period, contents))
    case Failure(message) => Failed(period, message)
  }

  function SubmissionOf(outcome: MutationOutcome): Submission {
    if outcome.MutationFailed? then Rejected(outcome.message) else Succeeded
  }

  /** Only spawned tasks finish, and only a refresh makes the state Refreshing. */
  predicate Enabled(w: World, e: Event) {
    match e
    case FinishRefresh(id, _) => id in w.refreshes
    case FinishMutation(fallback, _) => fallback in w.mutations
    case SetState(next) => !next.Refreshing?
    case FinishTeamReport(id, _) => id in w.teamLoads
    case _ => true
  }

  function Step(w: World, e: Event): World
    requires Enabled(w, e)
  {
    match e
    case StartRefresh(fallback, period) =>
      w.(nextId := w.nextId + 1,
         app := Refreshing(fallback, period, w.nextId),
         refreshes := w.refreshes[w.nextId := fallback])
    case FinishRefresh(id, outcome) =>
      w.(app := if IsCurrentRefresh(w.app, id) then MutationState(outcome, w.refreshes[id]) else w.app,
         refreshes := w.refreshes - {id})
    case StartMutation(fallback) =>
      w.(submission := Pending, mutations := w.mutations + multiset{fallback})
    case FinishMutation(fallback, outcome) =>
      w.(app := MutationState(outcome, fallback),
         submission := SubmissionOf(outcome),
         mutations := w.mutations - multiset{fallback})
    case SetState(next) =>
      w.(app := next)
    case StartTeamReport(period) =>
      w.(nextId := w.nextId + 1, team := Loading(period, w.nextId), teamLoads := w.teamLoads[w.nextId := period])
    case FinishTeamReport(id, loaded) =>
      w.(team := if TeamRequestIsCurrent(w.team, id) then LoadedTeam(w.teamLoads[id], loaded) else w.team,
         teamLoads := w.teamLoads - {id})
    case LeaveReports =>
      w.(team := Idle)
  }

  /** The event sets the dashboard's state, even if to an equal value. */
  predicate SetsState(w: World, e: Event) {
    match e
    case StartRefresh(_, _) => true
    case FinishRefresh(id, _) => IsCurrentRefresh(w.app, id)
    case FinishMutation(_, _) => true
    case SetState(_) => true
    case _ => false
  }

  // ----- Runs -----

  ghost predicate Run(w: World, events: seq<Event>)
    decreases |events|
  {
    events == [] || (Enabled(w, events[0]) && Run(Step(w, events[0]), events[1..]))
  }

  ghost function After(w: World, events: seq<Event>): World
    requires Run(w, events)
    decreases |events|
  {
    if events == [] then w else After(Step(w, events[0]), events[1..])
  }

  ghost predicate NoneSetsState(w: World, events: seq<Event>)
    requires Run(w, events)
    decreases |events|
  {
    events == [] || (!SetsState(w, events[0]) && NoneSetsState(Step(w, events[0]), events[1..]))
  }

  /** The request numbers handed out in a run, in order. */
  ghost function Issued(w: World, events: seq<Event>): seq<nat>
    requires Run(w, events)
    decreases |events|
  {
    if events == [] then []
    else
      (if events[0].StartRefresh? || events[0].StartTeamReport? then [w.nextId] else [])
      + Issued(Step(w, events[0]), events[1..])
  }

  /** The refreshes whose completion set the state in a run, in order. */
  ghost function Applied(w: World, events: seq<Event>): seq<nat>
    requires Run(w, events)
    decreases |events|
  {
    if events == [] then []
    else
      (if events[0].FinishRefresh? && SetsState(w, events[0]) then [events[0].id] else [])
      + Applied(Step(w, events[0]), events[1..])
  }

  /** Request numbers in use are old ones, and a team load agrees with the state that waits for it. */
  ghost predicate Inv(w: World) {
    && (forall id :: id in w.refreshes || id in w.teamLoads ==> id < w.nextId)
    && (w.app.Refreshing? ==> w.app.id < w.nextId)
    && (w.team.Loading? ==> w.team.id < w.nextId)
    && (w.team.Loading? && w.team.id in w.teamLoads ==> w.teamLoads[w.team.id] == w.team.period)
  }

  function InitialWorld(): World {
    World(1, Starting, Idle, NotSubmitted, map[], map[], multiset{})
  }

  lemma StepKeepsInv(w: World, e: Event)
    requires Inv(w) && Enabled(w, e)
    ensures Inv(Step(w, e))
  {}

  lemma {:induction false} RunKeepsInv(w: World, events: seq<Event>)
    requires Inv(w) && Run(w, events)
    ensures Inv(After(w, events))
    decreases |events|
  {
    if events != [] {
      StepKeepsInv(w, events[0]);
      RunKeepsInv(Step(w, events[0]), events[1..]);
    }
  }

  /** Whatever the interleaving, no request number is handed out twice. */
  lemma {:induction false} IssuedAreDistinct(w: World, events: seq<Event>)
    requires Run(w, events)
    ensures forall id :: id in Issued(w, events) ==> id >= w.nextId
    ensures forall i, j :: 0 <= i < j < |Issued(w, events)| ==> Issued(w, events)[i] < Issued(w, events)[j]
    decreases |events|
  {
    if events != [] {
      IssuedAreDistinct(Step(w, events[0]), events[1..]);
      var rest := Issued(Step(w, events[0]), events[1..]);
      assert forall j :: 0 <= j < |rest| ==> rest[j] in rest;
    }
  }

  lemma {:induction false} FinishedStaysFinished(w: World, events: seq<Event>, id: nat)
    requires Run(w, events) && id < w.nextId && id !in w.refreshes
    ensures id !in Applied(w, events)
    decreases |events|
  {
    if events != [] { FinishedStaysFinished(Step(w, events[0]), events[1..], id); }
  }

  /** Every refresh is applied at most once. */
  lemma {:induction false} AppliedAtMostOnce(w: World, events: seq<Event>)
    requires Inv(w) && Run(w, events)
    ensures forall i, j :: 0 <= i < j < |Applied(w, events)| ==> Applied(w, events)[i] != Applied(w, events)[j]
    decreases |events|
  {
    if events != [] {
      var next := Step(w, events[0]);
      StepKeepsInv(w, events[0]);
      AppliedAtMostOnce(next, events[1..]);
      if events[0].FinishRefresh? && SetsState(w, events[0]) {
        FinishedStaysFinished(next, events[1..], events[0].id);
      }
    }
  }

  lemma {:induction false} OvertakenStaysOvertaken(w: World, events: seq<Event>, id: nat)
    requires Run(w, events) && id < w.nextId && !IsCurrentRefresh(w.app, id)
    ensures !IsCurrentRefresh(After(w, events).app, id)
    decreases |events|
  {
    if events != [] { OvertakenStaysOvertaken(Step(w, events[0]), events[1..], id); }
  }

  /**
   A refresh in flight takes effect when it finishes exactly if nothing has set the state
   since it started. In particular a superseded refresh never takes effect.
   */
  lemma {:induction false} TakesEffectIffUndisturbed(w: World, events: seq<Event>, id: nat)
    requires Run(w, events) && id < w.nextId && IsCurrentRefresh(w.app, id)
    ensures IsCurrentRefresh(After(w, events).app, id) <==> NoneSetsState(w, events)
    ensures NoneSetsState(w, events) ==> After(w, events).app == w.app
    decreases |events|
  {
    if events != [] {
      if SetsState(w, events[0]) {
        OvertakenStaysOvertaken(Step(w, events[0]), events[1..], id);
      } else {
        TakesEffectIffUndisturbed(Step(w, events[0]), events[1..], id);
      }
    }
  }

  lemma RefreshTakesEffect(w: World, fallback: Session, period: DateRange, events: seq<Event>, outcome: MutationOutcome)
    requires Run(Step(w, StartRefresh(fallback, period)), events)
    requires w.nextId in After(Step(w, StartRefresh(fallback, period)), events).refreshes
    ensures var started := Step(w, StartRefresh(fallback, period));
            var before := After(started, events);
            var finished := Step(before, FinishRefresh(w.nextId, outcome));
            if NoneSetsState(started, events) then ShowsOutcome(finished.app, outcome, fallback)
            else finished.app == before.app
  {
    var started := Step(w, StartRefresh(fallback, period));
    TakesEffectIffUndisturbed(started, events, w.nextId);
    FallbackIsKept(started, events, w.nextId);
  }

  lemma {:induction false} FallbackIsKept(w: World, events: seq<Event>, id: nat)
    requires Run(w, events) && id < w.nextId && id in w.refreshes && id in After(w, events).refreshes
    ensures After(w, events).refreshes[id] == w.refreshes[id]
    decreases |events|
  {
    if events != [] {
      if id in Step(w, events[0]).refreshes {
        FallbackIsKept(Step(w, events[0]), events[1..], id);
      } else {
        GoneStaysGone(Step(w, events[0]), events[1..], id);
      }
    }
  }

  lemma {:induction false} GoneStaysGone(w: World, events: seq<Event>, id: nat)
    requires Run(w, events) && id < w.nextId && id !in w.refreshes
    ensures id !in After(w, events).refreshes
    decreases |events|
  {
    if events != [] { GoneStaysGone(Step(w, events[0]), events[1..], id); }
  }

  // ----- What is shown when a task has finished -----

  /** What a completion leaves on show: the new session, or the old one with what went wrong. */
  ghost predicate ShowsOutcome(app: AppState, outcome: MutationOutcome, fallback: Session) {
    match outcome
    case Refreshed(session) => app == Connected(session, None)
    case CommittedWithoutRefresh(warning) => app == Connected(fallback, Some(warning))
    case MutationFailed(message) => app == Connected(fallback, Some(message))
  }

  /** Only a change that failed is rejected, and with its message. */
  ghost predicate ShowsSubmission(submission: Submission, outcome: MutationOutcome) {
    match outcome
    case MutationFailed(message) => submission == Rejected(message)
    case _ => submission == Succeeded
  }

  ghost predicate NoneSubmits(events: seq<Event>) {
    forall e :: e in events ==> !e.StartMutation? && !e.FinishMutation?
  }

  lemma {:induction false} SubmissionStays(w: World, events: seq<Event>)
    requires Run(w, events) && NoneSubmits(events)
    ensures After(w, events).submission == w.submission
    decreases |events|
  {
    if events != [] {
      assert events[0] in events && forall e :: e in events[1..] ==> e in events;
      SubmissionStays(Step(w, events[0]), events[1..]);
    }
  }

  /**
   In every run after a submission has been completed: until the next submission its result
   is shown, and until something sets the state so is the session, with the warning or the
   error there was.
   */
  lemma CompletionShows(w: World, fallback: Session, outcome: MutationOutcome, later: seq<Event>)
    requires fallback in w.mutations
    requires Run(Step(w, FinishMutation(fallback, outcome)), later)
    ensures var finished := Step(w, FinishMutation(fallback, outcome));
            && (NoneSubmits(later) ==> ShowsSubmission(After(finished, later).submission, outcome))
            && (NoneSetsState(finished, later) ==> ShowsOutcome(After(finished, later).app, outcome, fallback))
  {
    var finished := Step(w, FinishMutation(fallback, outcome));
    if NoneSubmits(later) { SubmissionStays(finished, later); }
    if NoneSetsState(finished, later) { UndisturbedStays(finished, later); }
  }

  ghost predicate NoneTouchesTeam(events: seq<Event>) {
    forall e :: e in events ==> !e.StartTeamReport? && !e.LeaveReports?
  }

  lemma {:induction false} TeamStays(w: World, events: seq<Event>)
    requires Run(w, events) && NoneTouchesTeam(events) && (w.team.Ready? || w.team.Failed?)
    ensures After(w, events).team == w.team
    decreases |events|
  {
    if events != [] {
      assert events[0] in events && forall e :: e in events[1..] ==> e in events;
      TeamStays(Step(w, events[0]), events[1..]);
    }
  }

  /**
   In every run after the team report that is waited for has arrived: until another one is
   asked for or the reports are left, its contents are shown under the period that was
   asked for, or the message if it failed.
   */
  lemma TeamReportShows(w: World, id: nat, loaded: Result<string, string>, later: seq<Event>)
    requires Inv(w) && id in w.teamLoads && TeamRequestIsCurrent(w.team, id)
    requires Run(Step(w, FinishTeamReport(id, loaded)), later) && NoneTouchesTeam(later)
    ensures var team := After(Step(w, FinishTeamReport(id, loaded)), later).team;
            match loaded
            case Success(contents) => team == Ready(TeamReport(w.team.period, contents))
            case Failure(message) => team == Failed(w.team.period, message)
  {
    TeamStays(Step(w, FinishTeamReport(id, loaded)), later);
  }

  // ----- The team report -----

  /** The period of the team request started last, if any was started. */
  ghost function LastTeamPeriod(events: seq<Event>): Option<DateRange> {
    if events == [] then None
    else
      var last := events[|events| - 1];
      if last.StartTeamReport? then Some(last.period) else LastTeamPeriod(events[..|events| - 1])
  }

  ghost predicate ShowsPeriod(team: TeamState, period: Option<DateRange>) {
    match team
    case Idle => true
    case Loading(shown, _) => period == Some(shown)
    case Ready(report) => period == Some(report.period)
    case Failed(shown, _) => period == Some(shown)
  }

  lemma {:induction false} RunOfConcat(w: World, events: seq<Event>, e: Event)
    requires Run(w, events + [e])
    ensures Run(w, events) && Enabled(After(w, events), e)
    ensures After(w, events + [e]) == Step(After(w, events), e)
    decreases |events|
  {
    if events == [] {
      assert events + [e] == [e];
      assert After(w, [e]) == After(Step(w, e), [e][1..]);
    } else {
      assert (events + [e])[1..] == events[1..] + [e];
      RunOfConcat(Step(w, events[0]), events[1..], e);
    }
  }

  /** In every run, what the team view shows or waits for is the period asked for last. */
  lemma {:induction false} TeamShowsTheLastPeriod(w: World, events: seq<Event>)
    requires Inv(w) && w.team.Idle? && Run(w, events)
    ensures ShowsPeriod(After(w, events).team, LastTeamPeriod(events))
  {
    if events != [] {
      var init, last := events[..|events| - 1], events[|events| - 1];
      assert init + [last] == events;
      RunOfConcat(w, init, last);
      TeamShowsTheLastPeriod(w, init);
      RunKeepsInv(w, init);
    }
  }

  // ----- What is not guarded -----

  /** The session on show, which a refresh keeps on show while it runs. */
  function SessionOf(app: AppState): Option<Session> {
    match app
    case Connected(session, _) => Some(session)
    case Refreshing(session, _, _) => Some(session)
    case _ => None
  }

  /** The session that a completion puts on show. */
  function SessionAfter(outcome: MutationOutcome, fallback: Session): Session {
    if outcome.Refreshed? then outcome.session else fallback
  }

  /** The session on show after one more event, when `shown` was on show before it. */
  function PutOnShow(w: World, e: Event, shown: Option<Session>): Option<Session>
    requires Enabled(w, e)
  {
    if !SetsState(w, e) then shown
    else
      match e
      case StartRefresh(fallback, _) => Some(fallback)
      case FinishRefresh(id, outcome) => Some(SessionAfter(outcome, w.refreshes[id]))
      case FinishMutation(fallback, outcome) => Some(SessionAfter(outcome, fallback))
      case SetState(next) => SessionOf(next)
      case _ => shown
  }

  /** The session that a run last put on show; `shown` if it put none on show. */
  ghost function LastShown(w: World, events: seq<Event>, shown: Option<Session>): Option<Session>
    requires Run(w, events)
    decreases |events|
  {
    if events == [] then shown
    else LastShown(Step(w, events[0]), events[1..], PutOnShow(w, events[0], shown))
  }

  /** In every run, what is on show is the session last put on show. */
  lemma {:induction false} ShownIsLastShown(w: World, events: seq<Event>)
    requires Run(w, events)
    ensures SessionOf(After(w, events).app) == LastShown(w, events, SessionOf(w.app))
    decreases |events|
  {
    if events != [] { ShownIsLastShown(Step(w, events[0]), events[1..]); }
  }

  lemma {:induction false} UndisturbedStays(w: World, events: seq<Event>)
    requires Run(w, events) && NoneSetsState(w, events)
    ensures After(w, events).app == w.app
    decreases |events|
  {
    if events != [] { UndisturbedStays(Step(w, events[0]), events[1..]); }
  }

  /**
   When the unguarded completion of a submission replaces no other session, in every run
   from the submission to its completion. One without a new session keeps what is on show
   exactly if the run last put on show the session that it falls back to; one with a new
   session, exactly if that session was already put on show. It is enough for the former
   that nothing set the state meanwhile, if the submission was made from what was on show.
   */
  lemma CompletionKeepsShownIff(w: World, fallback: Session, events: seq<Event>, outcome: MutationOutcome)
    requires Run(Step(w, StartMutation(fallback)), events)
    requires fallback in After(Step(w, StartMutation(fallback)), events).mutations
    ensures var started := Step(w, StartMutation(fallback));
            var before := After(started, events);
            var finished := Step(before, FinishMutation(fallback, outcome));
            var last := LastShown(started, events, SessionOf(w.app));
            && (!outcome.Refreshed? ==> (SessionOf(finished.app) == SessionOf(before.app) <==> last == Some(fallback)))
            && (outcome.Refreshed? ==>
                  (SessionOf(finished.app) == SessionOf(before.app) <==> last == Some(outcome.session)))
            && (!outcome.Refreshed? && SessionOf(w.app) == Some(fallback) && NoneSetsState(started, events) ==>
                  SessionOf(finished.app) == SessionOf(before.app))
  {
    var started := Step(w, StartMutation(fallback));
    ShownIsLastShown(started, events);
    if NoneSetsState(started, events) { UndisturbedStays(started, events); }
  }

  /** Whether the last event of a run that set the state started a refresh; `refreshing` if none set it. */
  ghost function RefreshIsLast(w: World, events: seq<Event>, refreshing: bool): bool
    requires Run(w, events)
    decreases |events|
  {
    if events == [] then refreshing
    else
      RefreshIsLast(Step(w, events[0]), events[1..],
                    if SetsState(w, events[0]) then events[0].StartRefresh? else refreshing)
  }

  /** A refresh is in flight after a run exactly if the last event that set the state started one. */
  lemma {:induction false} RefreshingIsLast(w: World, events: seq<Event>)
    requires Run(w, events)
    ensures After(w, events).app.Refreshing? <==> RefreshIsLast(w, events, w.app.Refreshing?)
    decreases |events|
  {
    if events != [] { RefreshingIsLast(Step(w, events[0]), events[1..]); }
  }

  /** The same session stays on show, and a refresh in flight stays current. */
  ghost predicate Harmless(before: AppState, after: AppState) {
    && SessionOf(after) == SessionOf(before)
    && forall id :: IsCurrentRefresh(before, id) ==> IsCurrentRefresh(after, id)
  }

  /**
   When the unguarded completion does no harm at all, in every run from the submission:
   the run last put on show the session it brings, and not by starting a refresh.
   */
  lemma CompletionIsHarmlessIff(w: World, fallback: Session, events: seq<Event>, outcome: MutationOutcome)
    requires Run(Step(w, StartMutation(fallback)), events)
    requires fallback in After(Step(w, StartMutation(fallback)), events).mutations
    ensures var started := Step(w, StartMutation(fallback));
            var before := After(started, events);
            Harmless(before.app, Step(before, FinishMutation(fallback, outcome)).app) <==>
              && LastShown(started, events, SessionOf(w.app)) == Some(SessionAfter(outcome, fallback))
              && !RefreshIsLast(started, events, w.app.Refreshing?)
  {
    var started := Step(w, StartMutation(fallback));
    var before := After(started, events);
    CompletionKeepsShownIff(w, fallback, events, outcome);
    RefreshingIsLast(started, events);
    if before.app.Refreshing? { assert IsCurrentRefresh(before.app, before.app.id); }
  }

  /** A refresh that was in flight when a submission was completed takes effect in no run after that. */
  lemma CompletionDropsRefresh(w: World, fallback: Session, outcome: MutationOutcome, id: nat, later: seq<Event>,
                               refreshed: MutationOutcome)
    requires fallback in w.mutations && id < w.nextId
    requires Run(Step(w, FinishMutation(fallback, outcome)), later)
    requires id in After(Step(w, FinishMutation(fallback, outcome)), later).refreshes
    ensures var after := After(Step(w, FinishMutation(fallback, outcome)), later);
            && !IsCurrentRefresh(after.app, id)
            && Step(after, FinishRefresh(id, refreshed)).app == after.app
  {
    OvertakenStaysOvertaken(Step(w, FinishMutation(fallback, outcome)), later, id);
  }

  /**
   A worklog submitted before a period was changed puts the old session back when it
   fails after the new period has been loaded: its completion is not guarded.
   */
  lemma StaleMutationWins(shown: Session, loaded: Session, message: string, w: World)
    requires Inv(w) && w.mutations == multiset{}
    ensures var events := [StartMutation(shown), StartRefresh(shown, loaded.period),
                           FinishRefresh(w.nextId, Refreshed(loaded))];
            && Run(w, events) && After(w, events).app == Connected(loaded, None)
            && Run(w, events + [FinishMutation(shown, MutationFailed(message))])
            && After(w, events + [FinishMutation(shown, MutationFailed(message))]).app
                 == Connected(shown, Some(message))
  {
    var e0, e1 := StartMutation(shown), StartRefresh(shown, loaded.period);
    var e2 := FinishRefresh(w.nextId, Refreshed(loaded));
    ThreeEvents(w, e0, e1, e2);
    Append(w, [e0, e1, e2], FinishMutation(shown, MutationFailed(message)));
  }

  /**
   The same submission, failing before the new period has been loaded: the period is
   loaded without an error, and never shown.
   */
  lemma LoadedPeriodIsLost(shown: Session, loaded: Session, message: string, w: World)
    requires Inv(w) && w.mutations == multiset{}
    ensures var events := [StartMutation(shown), StartRefresh(shown, loaded.period),
                           FinishMutation(shown, MutationFailed(message))];
            && Run(w, events + [FinishRefresh(w.nextId, Refreshed(loaded))])
            && After(w, events + [FinishRefresh(w.nextId, Refreshed(loaded))]).app == Connected(shown, Some(message))
  {
    var e0, e1 := StartMutation(shown), StartRefresh(shown, loaded.period);
    var e2 := FinishMutation(shown, MutationFailed(message));
    ThreeEvents(w, e0, e1, e2);
    Append(w, [e0, e1, e2], FinishRefresh(w.nextId, Refreshed(loaded)));
  }

  lemma ThreeEvents(w: World, e0: Event, e1: Event, e2: Event)
    requires Enabled(w, e0) && Enabled(Step(w, e0), e1) && Enabled(Step(Step(w, e0), e1), e2)
    ensures Run(w, [e0, e1, e2]) && After(w, [e0, e1, e2]) == Step(Step(Step(w, e0), e1), e2)
  {
    Append(w, [], e0);
    Append(w, [e0], e1);
    Append(w, [e0, e1], e2);
    assert [] + [e0] == [e0] && [e0] + [e1] == [e0, e1] && [e0, e1] + [e2] == [e0, e1, e2];
  }

  lemma {:induction false} Append(w: World, events: seq<Event>, e: Event)
    requires Run(w, events) && Enabled(After(w, events), e)
    ensures Run(w, events + [e]) && After(w, events + [e]) == Step(After(w, events), e)
    decreases |events|
  {
    if events == [] {
      assert events + [e] == [e];
      assert After(w, [e]) == After(Step(w, e), [e][1..]);
    } else {
      assert (events + [e])[1..] == events[1..] + [e];
      Append(Step(w, events[0]), events[1..], e);
    }
  }

  // ----- The cells -----

  /** The counter, the signals and the spawned tasks, updated as the handlers update them. */
  class Dashboard {
    var nextId: nat
    var app: AppState
    var team: TeamState
    var submission: Submission
    var refreshes: map<nat, Session>
    var teamLoads: map<nat, DateRange>
    var mutations: multiset<Session>

    ghost function View(): World
      reads this
    {
      World(nextId, app, team, submission, refreshes, teamLoads, mutations)
    }

    constructor ()
      ensures View() == InitialWorld() && Inv(View())
    {
      nextId, app, team, submission := 1, Starting, Idle, NotSubmitted;
      refreshes, teamLoads, mutations := map[], map[], multiset{};
    }

    method NextRequestId() returns (id: nat)
      modifies this`nextId
      ensures id == old(nextId) && nextId == id + 1
    {
      id := nextId;
      nextId := nextId + 1;
    }

    method BeginPeriodRefresh(fallback: Session, period: DateRange) returns (id: nat)
      modifies this
      ensures View() == Step(old(View()), StartRefresh(fallback, period))
      ensures id == old(nextId)
    {
      id := NextRequestId();
      app := Refreshing(fallback, period, id);
      refreshes := refreshes[id := fallback];
    }

    method CompleteRefresh(id: nat, outcome: MutationOutcome)
      requires id in refreshes
      modifies this
      ensures View() == Step(old(View()), FinishRefresh(id, outcome))
    {
      var next := MutationState(outcome, refreshes[id]);
      refreshes := refreshes - {id};
      if IsCurrentRefresh(app, id) { app := next; }
    }

    method StartWorklog(fallback: Session)
      modifies this
      ensures View() == Step(old(View()), StartMutation(fallback))
    {
      submission := Pending;
      mutations := mutations + multiset{fallback};
    }

    method FinishWorklogSubmission(fallback: Session, outcome: MutationOutcome)
      requires fallback in mutations
      modifies this
      ensures View() == Step(old(View()), FinishMutation(fallback, outcome))
    {
      mutations := mutations - multiset{fallback};
      app, submission := MutationState(outcome, fallback), SubmissionOf(outcome);
    }

    method StartTeam(period: DateRange)
      modifies this
      ensures View() == Step(old(View()), StartTeamReport(period))
    {
      var id := NextRequestId();
      team := Loading(period, id);
      teamLoads := teamLoads[id := period];
    }

    method CompleteTeam(id: nat, loaded: Result<string, string>)
      requires id in teamLoads
      modifies this
      ensures View() == Step(old(View()), FinishTeamReport(id, loaded))
    {
      var next := LoadedTeam(teamLoads[id], loaded);
      teamLoads := teamLoads - {id};
      if TeamRequestIsCurrent(team, id) { team := next; }
    }
  }
}
