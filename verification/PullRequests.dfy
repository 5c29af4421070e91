/**
 Changing pull requests through a preview: a plan is shown, and what is then passed to the
 provider is what the plan said, for the pull request in the state that the plan showed.
 */
module PullRequests {
  import opened Wrappers
  import opened Ordering
  import Text

  // ----- Participants and the revision of a pull request -----

  datatype Participant = Participant(
    accountId: string, displayName: string, role: string, approved: bool, state: Option<string>)

  /** By account, then by role. */
  predicate ParticipantLe(a: Participant, b: Participant) {
    if a.accountId == b.accountId then StringLe(a.role, b.role) else StringLe(a.accountId, b.accountId)
  }

  function ParticipantsData(participants: seq<Participant>): seq<Participant> {
    SortBy(participants, ParticipantLe)
  }

  /** The test for one account in one role. */
  function InRole(accountId: string, role: string): Participant -> bool {
    (p: Participant) => p.accountId == accountId && p.role == role
  }

  datatype PullRequest = PullRequest(
    id: nat,
    title: string,
    description: string,
    sourceBranch: string,
    destinationBranch: string,
    state: string,
    sourceCommit: string,
    destinationCommit: string,
    updatedOn: string,
    closeSourceBranch: bool,
    draft: bool,
    participants: seq<Participant>)

  /** The same fields without the number, and with the participants in canonical order. */
  datatype Revision = Revision(
    title: string,
    description: string,
    sourceBranch: string,
    destinationBranch: string,
    state: string,
    sourceCommit: string,
    destinationCommit: string,
    updatedOn: string,
    closeSourceBranch: bool,
    draft: bool,
    participants: seq<Participant>)

  function RevisionOf(pull: PullRequest): Revision {
    Revision(pull.title, pull.description, pull.sourceBranch, pull.destinationBranch, pull.state, pull.sourceCommit,
             pull.destinationCommit, pull.updatedOn, pull.closeSourceBranch, pull.draft,
             ParticipantsData(pull.participants))
  }

  lemma ParticipantOrder()
    ensures TotalPreorder(ParticipantLe)
    ensures forall a, b ::
              ParticipantLe(a, b) && ParticipantLe(b, a) <==> a.accountId == b.accountId && a.role == b.role
  {
    StringOrder();
  }

  /** The canonical order: by account, and the roles of one account in order. */
  lemma ParticipantsAreSorted(participants: seq<Participant>, i: nat, j: nat)
    requires i < j < |ParticipantsData(participants)|
    ensures multiset(ParticipantsData(participants)) == multiset(participants)
    ensures var data := ParticipantsData(participants);
            && StringLe(data[i].accountId, data[j].accountId)
            && (data[i].accountId == data[j].accountId ==> StringLe(data[i].role, data[j].role))
  {
    ParticipantOrder();
    SortIsStable(participants, ParticipantLe, (x: Participant, y: Participant) => true);
    StringLeTotal(ParticipantsData(participants)[i].accountId, ParticipantsData(participants)[j].accountId);
  }

  lemma SameTies(a: seq<Participant>, x: Participant)
    ensures Filter(a, Tied(x, ParticipantLe)) == Filter(a, InRole(x.accountId, x.role))
  {
    ParticipantOrder();
    if a != [] { SameTies(a[..|a| - 1], x); }
  }

  lemma SortKeepsRoles(a: seq<Participant>, accountId: string, role: string)
    ensures Filter(ParticipantsData(a), InRole(accountId, role)) == Filter(a, InRole(accountId, role))
  {
    ParticipantOrder();
    SortKeepsTies(a, ParticipantLe, InRole(accountId, role));
  }

  /**
   Two lists of participants have the same canonical form exactly if, for every account
   and role, they have the same entries in the same order.
   */
  lemma CanonicalIff(a: seq<Participant>, b: seq<Participant>)
    ensures ParticipantsData(a) == ParticipantsData(b) <==>
              forall accountId, role :: Filter(a, InRole(accountId, role)) == Filter(b, InRole(accountId, role))
  {
    forall accountId, role
      ensures Filter(ParticipantsData(a), InRole(accountId, role)) == Filter(a, InRole(accountId, role))
      ensures Filter(ParticipantsData(b), InRole(accountId, role)) == Filter(b, InRole(accountId, role))
    {
      SortKeepsRoles(a, accountId, role);
      SortKeepsRoles(b, accountId, role);
    }
    if forall accountId, role :: Filter(a, InRole(accountId, role)) == Filter(b, InRole(accountId, role)) {
      ParticipantOrder();
      SortIsStable(a, ParticipantLe, (x: Participant, y: Participant) => true);
      SortIsStable(b, ParticipantLe, (x: Participant, y: Participant) => true);
      var left, right := ParticipantsData(a), ParticipantsData(b);
      forall x ensures Filter(left, Tied(x, ParticipantLe)) == Filter(right, Tied(x, ParticipantLe)) {
        SameTies(left, x);
        SameTies(right, x);
        assert Filter(a, InRole(x.accountId, x.role)) == Filter(b, InRole(x.accountId, x.role));
      }
      SortedAreEqual(ParticipantsData(a), ParticipantsData(b), ParticipantLe);
    }
  }

  ghost predicate RolesAreDistinct(a: seq<Participant>) {
    forall i, j :: 0 <= i < j < |a| ==> !(a[i].accountId == a[j].accountId && a[i].role == a[j].role)
  }

  /** The revision does not depend on the order in which the provider lists participants with different roles. */
  lemma RevisionIgnoresOrder(pull: PullRequest, listed: seq<Participant>)
    requires multiset(pull.participants) == multiset(listed) && RolesAreDistinct(pull.participants)
    ensures RevisionOf(pull.(participants := listed)) == RevisionOf(pull)
  {
    var a := pull.participants;
    forall accountId, role ensures Filter(a, InRole(accountId, role)) == Filter(listed, InRole(accountId, role)) {
      var p := InRole(accountId, role);
      forall x ensures multiset(Filter(a, p))[x] == multiset(Filter(listed, p))[x] {
        FilterCounts(a, p, x);
        FilterCounts(listed, p, x);
      }
      OneInRole(a, accountId, role);
      ShortSequencesAreEqual(Filter(a, p), Filter(listed, p));
    }
    CanonicalIff(a, listed);
  }

  lemma {:induction false} OneInRole(a: seq<Participant>, accountId: string, role: string)
    requires RolesAreDistinct(a)
    ensures |Filter(a, InRole(accountId, role))| <= 1
  {
    if a != [] {
      var init, last := a[..|a| - 1], a[|a| - 1];
      OneInRole(init, accountId, role);
      if InRole(accountId, role)(last) { NoneInRole(init, accountId, role); }
    }
  }

  lemma {:induction false} NoneInRole(a: seq<Participant>, accountId: string, role: string)
    requires forall i :: 0 <= i < |a| ==> !(a[i].accountId == accountId && a[i].role == role)
    ensures Filter(a, InRole(accountId, role)) == []
  {
    if a != [] { NoneInRole(a[..|a| - 1], accountId, role); }
  }

  lemma ShortSequencesAreEqual<T>(s: seq<T>, t: seq<T>)
    requires |s| <= 1 && forall x :: multiset(s)[x] == multiset(t)[x]
    ensures s == t
  {
    assert multiset(s) == multiset(t);
    assert |multiset(s)| == |s| && |multiset(t)| == |t|;
    if |s| == 1 {
      assert s[0] in multiset(t);
    }
  }

  lemma RolesTellApart(a: seq<Participant>, b: seq<Participant>, accountId: string, role: string)
    requires Filter(a, InRole(accountId, role)) != Filter(b, InRole(accountId, role))
    ensures ParticipantsData(a) != ParticipantsData(b)
  {
    SortKeepsRoles(a, accountId, role);
    SortKeepsRoles(b, accountId, role);
  }

  /** Everything a reader of a preview sees of a pull request is the same in both, and so are its commits. */
  ghost predicate SameContents(a: PullRequest, b: PullRequest) {
    && a.title == b.title
    && a.description == b.description
    && a.sourceBranch == b.sourceBranch
    && a.destinationBranch == b.destinationBranch
    && a.state == b.state
    && a.sourceCommit == b.sourceCommit
    && a.destinationCommit == b.destinationCommit
    && a.updatedOn == b.updatedOn
    && a.closeSourceBranch == b.closeSourceBranch
    && a.draft == b.draft
    && forall accountId, role ::
         Filter(a.participants, InRole(accountId, role)) == Filter(b.participants, InRole(accountId, role))
  }

  /** The revision is the same exactly if nothing that matters has changed, not even the commits. */
  lemma RevisionIff(a: PullRequest, b: PullRequest)
    ensures RevisionOf(a) == RevisionOf(b) <==> SameContents(a, b)
  {
    CanonicalIff(a.participants, b.participants);
  }

  /** With two entries for one account and role the order does matter: the revision changes. */
  lemma RevisionSeesRepeatedRoles(pull: PullRequest, p: Participant, q: Participant)
    requires p != q && p.accountId == q.accountId && p.role == q.role
    ensures RevisionOf(pull.(participants := [p, q])) != RevisionOf(pull.(participants := [q, p]))
  {
    var a, b := [p, q], [q, p];
    FilterAll(a, InRole(p.accountId, p.role));
    FilterAll(b, InRole(p.accountId, p.role));
    assert a[0] != b[0];
    RolesTellApart(a, b, p.accountId, p.role);
  }

  // ----- Reviewers -----

  function Elements<T>(s: seq<T>): set<T> {
    set x | x in s
  }

  /** Every reviewer once, in order: the provider's defaults, the configured ones and the requested ones. */
  method MergeReviewers(defaults: seq<string>, configured: set<string>,
                        requested: Option<seq<string>>) returns (reviewers: seq<string>)
    ensures AreReviewers(reviewers, defaults, configured, requested)
  {
    StringOrder();
    var ids := Elements(defaults) + configured + if requested.Some? then Elements(requested.value) else {};
    reviewers := InOrder(ids, StringLe);
  }

  ghost predicate AreReviewers(reviewers: seq<string>, defaults: seq<string>, configured: set<string>,
                               requested: Option<seq<string>>) {
    && Distinct(reviewers)
    && Sorted(reviewers, StringLe)
    && forall id :: id in reviewers <==>
         id in defaults || id in configured || (requested.Some? && id in requested.value)
  }

  // ----- Requests, plans and changes -----

  datatype Key = Key(workspace: string, repository: string, id: nat)

  datatype ReviewAction = Approve | Unapprove | RequestChanges | RemoveChangeRequest

  /** What is asked for on an existing pull request. */
  datatype Operation =
    | Update(title: Option<string>, description: Option<string>, destinationBranch: Option<string>,
             closeSourceBranch: Option<bool>)
    | Comment(text: string)
    | Review(action: ReviewAction)
    | Merge(strategy: string, message: Option<string>, closeAfterMerge: Option<bool>)
    | Decline

  datatype Request = Request(key: Key, operation: Operation, expectedRevision: Option<Revision>, confirmed: bool)

  datatype CreateRequest = CreateRequest(
    workspace: string,
    repository: string,
    title: string,
    description: Option<string>,
    sourceBranch: string,
    destinationBranch: string,
    reviewerAccountIds: Option<seq<string>>,
    resolvedReviewerAccountIds: Option<seq<string>>,
    closeSourceBranch: Option<bool>,
    confirmed: bool)

  datatype Effect =
    | CreateEffect(title: string, description: string, reviewerAccountIds: seq<string>, closeSourceBranch: bool)
    | UpdateEffect(newTitle: Option<string>, newDescription: Option<string>, newDestination: Option<string>,
                   newClose: Option<bool>)
    | CommentEffect(text: string)
    | ReviewEffect(action: ReviewAction)
    | MergeEffect(strategy: string, message: Option<string>, closeAfterMerge: bool)
    | DeclineEffect

  datatype Target =
    | RepositoryTarget(workspace: string, repository: string, sourceBranch: string, destinationBranch: string)
    | PullRequestTarget(key: Key, revision: Revision)

  datatype Plan = Plan(actor: string, target: Target, effect: Effect)

  /** What the provider's client is told to do. */
  datatype Change =
    | Create(workspace: string, repository: string, title: string, description: string, sourceBranch: string,
             destinationBranch: string, reviewers: seq<string>, closeSourceBranch: bool)
    | Apply(key: Key, operation: Operation)

  datatype BackendError =
    | InvalidConfiguration
    | OutsideScope
    | ConfirmationRequired
    | StaleConfirmation
    | ProviderFailed

  function EffectOf(operation: Operation): Effect {
    match operation
    case Update(title, description, destination, close) => UpdateEffect(title, description, destination, close)
    case Comment(text) => CommentEffect(Text.Trim(text))
    case Review(action) => ReviewEffect(action)
    case Merge(strategy, message, close) => MergeEffect(strategy, message, Or(close, false))
    case Decline => DeclineEffect
  }

  function BindExpectedRevision(request: Request, plan: Plan): Result<Request, BackendError> {
    match plan.target
    case PullRequestTarget(_, revision) => Success(request.(expectedRevision := Some(revision)))
    case RepositoryTarget(_, _, _, _) => Failure(InvalidConfiguration)
  }

  function BindResolvedReviewers(request: CreateRequest, plan: Plan): Result<CreateRequest, BackendError> {
    match plan.effect
    case CreateEffect(_, _, reviewers, _) => Success(request.(resolvedReviewerAccountIds := Some(reviewers)))
    case _ => Failure(InvalidConfiguration)
  }

  /** The body that reaches the provider: the client trims a comment, and a new title and description. */
  datatype Sent =
    | SentCreate(title: string, description: string, sourceBranch: string, destinationBranch: string,
                 reviewers: seq<string>, closeSourceBranch: bool)
    | SentUpdate(newTitle: Option<string>, newDescription: Option<string>, newDestination: Option<string>,
                 newClose: Option<bool>)
    | SentComment(raw: string)
    | SentReview(action: ReviewAction)
    | SentMerge(strategy: string, message: Option<string>, closeAfterMerge: bool)
    | SentDecline

  function BodyOf(change: Change): Sent {
    match change
    case Create(_, _, title, description, source, destination, reviewers, close) =>
      SentCreate(Text.Trim(title), Text.Trim(description), source, destination, reviewers, close)
    case Apply(_, Update(title, description, destination, close)) => SentUpdate(title, description, destination, close)
    case Apply(_, Comment(text)) => SentComment(Text.Trim(text))
    case Apply(_, Review(action)) => SentReview(action)
    case Apply(_, Merge(strategy, message, close)) => SentMerge(strategy, message, Or(close, false))
    case Apply(_, Decline) => SentDecline
  }

  /** What a reader of the plan expects to reach the provider. */
  ghost predicate Fulfils(sent: Sent, effect: Effect) {
    match (effect, sent)
    case (CreateEffect(title, description, reviewers, close), SentCreate(t, d, _, _, r, c)) =>
      t == title && d == description && r == reviewers && c == close
    case (UpdateEffect(title, description, destination, close), SentUpdate(t, d, b, c)) =>
      t == title && d == description && b == destination && c == close
    case (CommentEffect(text), SentComment(raw)) => raw == text
    case (ReviewEffect(action), SentReview(a)) => a == action
    case (MergeEffect(strategy, message, close), SentMerge(s, m, c)) => s == strategy && m == message && c == close
    case (DeclineEffect, SentDecline) => true
    case _ => false
  }

  /** The change goes to the repository and the branches, or to the pull request, that the plan showed. */
  ghost predicate GoesTo(change: Change, target: Target) {
    match target
    case RepositoryTarget(workspace, repository, source, destination) =>
      && change.Create? && change.workspace == workspace && change.repository == repository
      && BodyOf(change).SentCreate?
      && BodyOf(change).sourceBranch == source && BodyOf(change).destinationBranch == destination
    case PullRequestTarget(key, _) => change.Apply? && change.key == key
  }

  /** What the client checks before it sends anything. */
  predicate IsSendable(change: Change) {
    match change
    case Create(_, _, title, _, source, destination, _, _) =>
      !Text.IsBlank(title) && !Text.IsBlank(source) && !Text.IsBlank(destination)
    case Apply(_, Update(title, description, destination, close)) =>
      && (title.Some? || description.Some? || destination.Some? || close.Some?)
      && (title.Some? ==> !Text.IsBlank(title.value))
    case Apply(_, Comment(text)) => !Text.IsBlank(text)
    case Apply(_, _) => true
  }

  /** There is something to read in it. */
  ghost predicate HasText(s: string) { exists c :: c in s && !Text.IsWhitespace(c) }

  /** What can be sent: a new pull request needs a title and branches, an update needs something to update. */
  lemma SendableIff(change: Change)
    ensures IsSendable(change) <==>
              match change
              case Create(_, _, title, _, source, destination, _, _) =>
                HasText(title) && HasText(source) && HasText(destination)
              case Apply(_, Update(title, description, destination, close)) =>
                && !(title == None && description == None && destination == None && close == None)
                && (title == None || HasText(title.value))
              case Apply(_, Comment(text)) => HasText(text)
              case Apply(_, _) => true
  {
    match change
    case Create(_, _, title, _, source, destination, _, _) =>
      Text.BlankIff(title);
      Text.BlankIff(source);
      Text.BlankIff(destination);
    case Apply(_, Update(title, _, _, _)) => if title.Some? { Text.BlankIff(title.value); }
    case Apply(_, Comment(text)) => Text.BlankIff(text);
    case Apply(_, _) =>
  }

  function CreateEffectOf(request: CreateRequest, reviewers: seq<string>, closeByDefault: bool): Effect {
    CreateEffect(request.title, Or(request.description, ""), reviewers, Or(request.closeSourceBranch, closeByDefault))
  }

  function NewPullRequest(request: CreateRequest, reviewers: seq<string>, closeByDefault: bool): Change {
    Create(request.workspace, request.repository, request.title, Or(request.description, ""), request.sourceBranch,
           request.destinationBranch, reviewers, Or(request.closeSourceBranch, closeByDefault))
  }

  /** Nothing would be trimmed off the title or the description. */
  predicate IsTrimmed(request: CreateRequest) {
    Text.Trim(request.title) == request.title && Text.Trim(Or(request.description, "")) == Or(request.description, "")
  }

  /**
   What is sent for a new pull request is what was previewed exactly if the request was
   trimmed; it goes to the repository and from and to the branches of the request.
   */
  lemma CreateFulfilsIff(request: CreateRequest, reviewers: seq<string>, closeByDefault: bool)
    ensures var target := RepositoryTarget(request.workspace, request.repository, request.sourceBranch,
                                           request.destinationBranch);
            GoesTo(NewPullRequest(request, reviewers, closeByDefault), target)
    ensures Fulfils(BodyOf(NewPullRequest(request, reviewers, closeByDefault)),
                    CreateEffectOf(request, reviewers, closeByDefault)) <==>
              IsTrimmed(request)
  {}

  /** A title with a space before it: previewed with the space, sent without. */
  lemma UntrimmedTitleIsNotSent(request: CreateRequest, reviewers: seq<string>, closeByDefault: bool)
    requires request.title == " x"
    ensures CreateEffectOf(request, reviewers, closeByDefault).title == " x"
    ensures BodyOf(NewPullRequest(request, reviewers, closeByDefault)).SentCreate?
    ensures BodyOf(NewPullRequest(request, reviewers, closeByDefault)).title == "x"
    ensures !Fulfils(BodyOf(NewPullRequest(request, reviewers, closeByDefault)),
                     CreateEffectOf(request, reviewers, closeByDefault))
  {
    assert request.title[1..] == "x";
    assert Text.TrimStart(request.title) == Text.TrimStart("x") == "x";
  }

  // ----- The provider -----

  /** What has happened at the provider, as far as pull requests are concerned. */
  datatype Event =
    | Read(key: Key, revision: Revision)
    | Changed(change: Change, bound: Option<Revision>)

  /** The provider's answers, which may fail to come, and may change from one call to the next. */
  datatype Answers = Answers(
    actor: nat -> Option<string>,
    pullRequest: (nat, Key) -> Option<PullRequest>,
    defaultReviewers: (nat, string, string) -> Option<seq<string>>,
    accepts: (nat, Change) -> bool)

  /** The provider answers every call and accepts every change. */
  ghost predicate Cooperates(answers: Answers) {
    && (forall n :: answers.actor(n).Some?)
    && (forall n, key :: answers.pullRequest(n, key).Some?)
    && (forall n, workspace, repository :: answers.defaultReviewers(n, workspace, repository).Some?)
    && (forall n, change :: answers.accepts(n, change))
  }

  /** A revision in which the provider has the pull request at some call. */
  ghost predicate IsRevision(answers: Answers, key: Key, revision: Revision) {
    exists n :: answers.pullRequest(n, key).Some? && RevisionOf(answers.pullRequest(n, key).value) == revision
  }

  /** The pull request does not change from call to call. */
  ghost predicate IsSteady(answers: Answers, key: Key) {
    forall r, q :: IsRevision(answers, key, r) && IsRevision(answers, key, q) ==> r == q
  }

  datatype Configuration = Configuration(
    workspaces: map<string, set<string>>,
    reviewerAccountIds: set<string>,
    closeSourceBranchByDefault: bool)

  /** Every change of an existing pull request follows directly on a read of it at the bound revision. */
  ghost predicate ChangesAreBound(log: seq<Event>) {
    forall i :: 0 <= i < |log| && log[i].Changed? && log[i].change.Apply? ==>
      i > 0 && log[i].bound.Some? && log[i - 1] == Read(log[i].change.key, log[i].bound.value)
  }

  lemma ReadKeepsBound(log: seq<Event>, key: Key, revision: Revision)
    requires ChangesAreBound(log)
    ensures ChangesAreBound(log + [Read(key, revision)])
  {}

  lemma BoundChangeKeepsBound(log: seq<Event>, key: Key, operation: Operation, revision: Revision)
    requires ChangesAreBound(log)
    ensures var change := Changed(Apply(key, operation), Some(revision));
            && log + [Read(key, revision)] + [change] == log + [Read(key, revision), change]
            && ChangesAreBound(log + [Read(key, revision), change])
  {
    assert log + [Read(key, revision)] + [Changed(Apply(key, operation), Some(revision))]
        == log + [Read(key, revision), Changed(Apply(key, operation), Some(revision))];
  }

  lemma TwoReads(before: seq<Event>, key: Key, first: Revision, second: Revision)
    ensures before + [Read(key, first)] + [Read(key, second)] == before + [Read(key, first), Read(key, second)]
  {}

  class PullRequestService {
    const configuration: Configuration
    const answers: Answers
    var calls: nat
    var log: seq<Event>

    constructor (configuration: Configuration, answers: Answers)
      ensures this.configuration == configuration && this.answers == answers && log == [] && ChangesAreBound(log)
    {
      this.configuration, this.answers, calls, log := configuration, answers, 0, [];
    }

    predicate InScope(workspace: string, repository: string) {
      workspace in configuration.workspaces && repository in configuration.workspaces[workspace]
    }

    /** The repository is one of those configured for its workspace. */
    ghost predicate IsConfigured(workspace: string, repository: string) {
      (workspace, repository) in set w, r | w in configuration.workspaces && r in configuration.workspaces[w] :: (w, r)
    }

    lemma ScopeIs(workspace: string, repository: string)
      ensures InScope(workspace, repository) <==> IsConfigured(workspace, repository)
    {}

    method Actor() returns (actor: Result<string, BackendError>)
      modifies this`calls
      ensures calls == old(calls) + 1
      ensures actor.Failure? ==> actor.error == ProviderFailed && !Cooperates(answers)
    {
      var answer := answers.actor(calls);
      calls := calls + 1;
      actor := if answer.Some? then Success(answer.value) else Failure(ProviderFailed);
    }

    /** The pull request as the provider has it at call n. */
    function At(n: nat, key: Key): Option<PullRequest> { answers.pullRequest(n, key) }

    /** At call n the provider gives the pull request, and it has that revision. */
    ghost predicate HadRevision(n: nat, key: Key, revision: Revision) {
      && At(n, key).Some?
      && RevisionOf(At(n, key).value) == revision
      && IsRevision(answers, key, revision)
    }

    method ReadTarget(key: Key) returns (target: Result<Target, BackendError>)
      modifies this
      ensures calls == old(calls) + 1
      ensures target.Failure? ==> target.error == ProviderFailed && log == old(log) && !Cooperates(answers)
      ensures target.Success? ==>
                && target.value.PullRequestTarget?
                && target.value.key == key
                && HadRevision(old(calls), key, target.value.revision)
                && log == old(log) + [Read(key, target.value.revision)]
    {
      var pull := answers.pullRequest(calls, key);
      calls := calls + 1;
      if pull.None? { return Failure(ProviderFailed); }
      log := log + [Read(key, RevisionOf(pull.value))];
      target := Success(PullRequestTarget(key, RevisionOf(pull.value)));
    }

    /** Hands a change to the client, which sends it if it passes the client's own checks. */
    method Submit(change: Change, bound: Option<Revision>) returns (result: Outcome<BackendError>)
      modifies this
      ensures log == if IsSendable(change) then old(log) + [Changed(change, bound)] else old(log)
      ensures result.Fail? ==> result.error == if IsSendable(change) then ProviderFailed else InvalidConfiguration
      ensures IsSendable(change) && result.Fail? ==> !Cooperates(answers)
      ensures result.Pass? ==> IsSendable(change)
    {
      if !IsSendable(change) { return Fail(InvalidConfiguration); }
      result := if answers.accepts(calls, change) then Pass else Fail(ProviderFailed);
      calls := calls + 1;
      log := log + [Changed(change, bound)];
    }

    // ----- Existing pull requests -----

    /** Only reads of this pull request were added. */
    ghost predicate ReadOnly(key: Key, before: seq<Event>, after: seq<Event>) {
      || after == before
      || (exists revision :: after == before + [Read(key, revision)])
      || (exists revision, again :: after == before + [Read(key, revision), Read(key, again)])
    }

    method PreviewExisting(request: Request) returns (plan: Result<Plan, BackendError>)
      requires ChangesAreBound(log)
      modifies this
      ensures ChangesAreBound(log)
      ensures plan.Success? ==>
                && plan.value.effect == EffectOf(request.operation)
                && plan.value.target.PullRequestTarget?
                && plan.value.target.key == request.key
                && HadRevision(old(calls), request.key, plan.value.target.revision)
                && calls == old(calls) + 2
                && InScope(request.key.workspace, request.key.repository)
                && log == old(log) + [Read(request.key, plan.value.target.revision)]
      ensures plan.Failure? ==> ReadOnly(request.key, old(log), log)
      ensures plan.Failure? && plan.error != ProviderFailed ==> log == old(log)
      ensures plan.Failure? ==>
                plan.error ==
                  if request.operation.Comment? && Text.IsBlank(request.operation.text) then InvalidConfiguration
                              else if !InScope(request.key.workspace, request.key.repository) then OutsideScope
                              else ProviderFailed
      ensures plan == Failure(ProviderFailed) ==> !Cooperates(answers)
    {
      if request.operation.Comment? && Text.IsBlank(request.operation.text) { return Failure(InvalidConfiguration); }
      if !InScope(request.key.workspace, request.key.repository) { return Failure(OutsideScope); }
      var target := ReadTarget(request.key);
      if target.Failure? { return Failure(target.error); }
      ReadKeepsBound(old(log), request.key, target.value.revision);
      var actor := Actor();
      if actor.Failure? { return Failure(actor.error); }
      plan := Success(Plan(actor.value, target.value, EffectOf(request.operation)));
    }

    /** Each reason to refuse, and what had been done by then. */
    ghost predicate RefusedFor(request: Request, error: BackendError, before: seq<Event>, after: seq<Event>) {
      var inScope := InScope(request.key.workspace, request.key.repository);
      match error
      case ConfirmationRequired => !request.confirmed && after == before
      case OutsideScope => request.confirmed && !inScope && after == before
      case StaleConfirmation =>
        && request.confirmed && inScope
        && exists revision ::
             && request.expectedRevision != Some(revision)
             && IsRevision(answers, request.key, revision)
             && after == before + [Read(request.key, revision)]
      case ProviderFailed =>
        && request.confirmed && inScope && !Cooperates(answers)
        && (|| after == before
            || (request.expectedRevision.Some?
                && after == before + [Read(request.key, request.expectedRevision.value),
                                      Changed(Apply(request.key, request.operation), request.expectedRevision)]))
      case InvalidConfiguration =>
        && request.confirmed && inScope && request.expectedRevision.Some?
        && !IsSendable(Apply(request.key, request.operation))
        && after == before + [Read(request.key, request.expectedRevision.value)]
    }

    /** What the provider has at call n is, in everything that matters, a pull request of that revision. */
    ghost predicate Found(n: nat, key: Key, revision: Revision) {
      && HadRevision(n, key, revision)
      && forall seen :: RevisionOf(seen) == revision ==> SameContents(seen, At(n, key).value)
    }

    lemma FoundIt(n: nat, key: Key, revision: Revision)
      requires HadRevision(n, key, revision)
      ensures Found(n, key, revision)
    {
      forall seen | RevisionOf(seen) == revision ensures SameContents(seen, At(n, key).value) {
        RevisionIff(seen, At(n, key).value);
      }
    }

    /**
     Carries out a request. A change is made only for a confirmed request in scope, and
     only directly after a read that found the pull request at the expected revision: with
     every field and every commit of the pull request that had that revision before.
     */
    method ApplyExisting(request: Request) returns (result: Outcome<BackendError>)
      requires ChangesAreBound(log)
      modifies this
      ensures ChangesAreBound(log)
      ensures result.Pass? ==>
                && request.confirmed && InScope(request.key.workspace, request.key.repository)
                && request.expectedRevision.Some? && IsSendable(Apply(request.key, request.operation))
                && Found(old(calls) + 1, request.key, request.expectedRevision.value)
                && log == old(log) + [Read(request.key, request.expectedRevision.value),
                                      Changed(Apply(request.key, request.operation), request.expectedRevision)]
      ensures result.Fail? ==> RefusedFor(request, result.error, old(log), log)
      ensures result == Fail(StaleConfirmation) ==>
                && At(old(calls) + 1, request.key).Some?
                && request.expectedRevision != Some(RevisionOf(At(old(calls) + 1, request.key).value))
    {
      if !request.confirmed { return Fail(ConfirmationRequired); }
      if !InScope(request.key.workspace, request.key.repository) { return Fail(OutsideScope); }
      var actor := Actor();
      if actor.Failure? { return Fail(actor.error); }
      var target := ReadTarget(request.key);
      if target.Failure? { return Fail(target.error); }
      var revision := target.value.revision;
      ReadKeepsBound(old(log), request.key, revision);
      if request.expectedRevision != Some(revision) { return Fail(StaleConfirmation); }
      FoundIt(calls - 1, request.key, revision);
      BoundChangeKeepsBound(old(log), request.key, request.operation, revision);
      result := Submit(Apply(request.key, request.operation), request.expectedRevision);
    }

    /** Each reason for the tool to refuse, and what had been read by then. */
    ghost predicate ExecutionRefusedFor(request: Request, accepted: bool, error: BackendError,
                                        before: seq<Event>, after: seq<Event>) {
      var inScope := InScope(request.key.workspace, request.key.repository);
      var sendable := IsSendable(Apply(request.key, request.operation));
      match error
      case OutsideScope => !inScope && after == before
      case ConfirmationRequired => inScope && !(accepted && request.confirmed) && ReadOnly(request.key, before, after)
      case StaleConfirmation =>
        && inScope && accepted && request.confirmed
        && exists r, q ::
             && r != q && IsRevision(answers, request.key, r) && IsRevision(answers, request.key, q)
             && after == before + [Read(request.key, r), Read(request.key, q)]
      case InvalidConfiguration => !sendable && ReadOnly(request.key, before, after)
      case ProviderFailed => inScope && !Cooperates(answers)
    }

    /**
     The tool: previews, and once the preview is accepted binds the request to it and
     carries it out. What reaches the provider is what the preview said, and the pull
     request was read again, right before, at the very revision that was shown. It succeeds
     whenever the provider cooperates and the pull request stays as it is.
     */
    method ExecuteExisting(request: Request,
                           accepted: bool) returns (plan: Result<Plan, BackendError>, result: Outcome<BackendError>)
      requires ChangesAreBound(log)
      modifies this
      ensures ChangesAreBound(log)
      ensures result.Pass? ==> accepted && Executed(request, plan, old(calls), old(log), log)
      ensures result.Fail? ==> ExecutionRefusedFor(request, accepted, result.error, old(log), log)
      ensures result == Fail(StaleConfirmation) ==> Differs(old(calls), old(calls) + 3, request.key)
      ensures plan.Failure? ==> result == Fail(plan.error)
      ensures accepted && request.confirmed ==> SucceedsIff(request, result.Pass?, old(calls))
      ensures !accepted ==> ReadOnly(request.key, old(log), log)
    {
      plan := PreviewExisting(request);
      if plan.Failure? {
        RefusalHasReason(request, plan.error, old(log), log);
        return plan, Fail(plan.error);
      }
      if !accepted { return plan, Fail(ConfirmationRequired); }
      var bound := BindExpectedRevision(request, plan.value);
      ghost var revision, n := plan.value.target.revision, calls - 2;
      result := ApplyExisting(bound.value);
      if result.Pass? {
        PassIsExecuted(request, plan.value, n, old(log), log);
      } else {
        FailureAgrees(request, revision, result.error, n, old(log), log);
      }
    }

    /**
     The pull request was read twice, the second time right before the change, and was the
     same both times; the change goes where the plan says and does what the plan says.
     */
    ghost predicate Executed(request: Request, plan: Result<Plan, BackendError>, n: nat, before: seq<Event>,
                             after: seq<Event>) {
      && plan.Success? && plan.value.target.PullRequestTarget?
      && Unchanged(n, n + 3, request.key)
      && var change, revision := Apply(request.key, request.operation), plan.value.target.revision;
         && after == before + [Read(request.key, revision), Read(request.key, revision),
                               Changed(change, Some(revision))]
         && Fulfils(BodyOf(change), plan.value.effect)
         && GoesTo(change, plan.value.target)
    }

    /**
     With a provider that cooperates, a request that can be sent succeeds exactly if the
     pull request has not changed between the two calls, and hence if it never changes.
     */
    ghost predicate SucceedsIff(request: Request, passed: bool, n: nat) {
      && (CanExecute(request) ==> passed)
      && (CanAnswer(request) ==> (passed <==> Unchanged(n, n + 3, request.key)))
    }

    lemma PassIsExecuted(request: Request, plan: Plan, n: nat, before: seq<Event>, after: seq<Event>)
      requires plan.effect == EffectOf(request.operation)
      requires plan.target.PullRequestTarget? && plan.target.key == request.key
      requires HadRevision(n, request.key, plan.target.revision) && Found(n + 3, request.key, plan.target.revision)
      requires after == before + [Read(request.key, plan.target.revision)]
                     + [Read(request.key, plan.target.revision),
                        Changed(Apply(request.key, request.operation), Some(plan.target.revision))]
      ensures Executed(request, Success(plan), n, before, after)
    {
      RevisionIff(At(n, request.key).value, At(n + 3, request.key).value);
    }

    lemma FailureAgrees(request: Request, revision: Revision, error: BackendError, n: nat, before: seq<Event>,
                        after: seq<Event>)
      requires InScope(request.key.workspace, request.key.repository) && HadRevision(n, request.key, revision)
      requires RefusedFor(request.(expectedRevision := Some(revision)), error, before + [Read(request.key, revision)],
                          after)
      requires error == StaleConfirmation ==>
                 At(n + 3, request.key).Some? && RevisionOf(At(n + 3, request.key).value) != revision
      ensures ExecutionRefusedFor(request, true, error, before, after)
      ensures error == StaleConfirmation ==> Differs(n, n + 3, request.key)
      ensures request.confirmed ==> SucceedsIff(request, false, n)
    {
      RefusalsAgree(request, revision, error, before, before + [Read(request.key, revision)], after);
      RefusalHasReason(request, error, before, after);
      if error == StaleConfirmation { RevisionIff(At(n, request.key).value, At(n + 3, request.key).value); }
    }

    /** The provider gives the pull request at both calls, with the same contents. */
    ghost predicate Unchanged(m: nat, n: nat, key: Key) {
      At(m, key).Some? && At(n, key).Some? && SameContents(At(m, key).value, At(n, key).value)
    }

    /** The provider gives the pull request at both calls, and something about it has changed. */
    ghost predicate Differs(m: nat, n: nat, key: Key) {
      At(m, key).Some? && At(n, key).Some? && !SameContents(At(m, key).value, At(n, key).value)
    }

    /** A request in scope that the client sends to a cooperating provider. */
    ghost predicate CanAnswer(request: Request) {
      && InScope(request.key.workspace, request.key.repository)
      && IsSendable(Apply(request.key, request.operation))
      && Cooperates(answers)
    }

    /** A request in scope that the client sends, for a pull request that a cooperating provider leaves as it is. */
    ghost predicate CanExecute(request: Request) {
      && InScope(request.key.workspace, request.key.repository)
      && IsSendable(Apply(request.key, request.operation))
      && Cooperates(answers)
      && IsSteady(answers, request.key)
    }

    lemma RefusalHasReason(request: Request, error: BackendError, before: seq<Event>, after: seq<Event>)
      requires ExecutionRefusedFor(request, true, error, before, after)
      ensures !(request.confirmed && CanExecute(request))
    {}

    /** What applying refuses, seen from before the preview. */
    lemma RefusalsAgree(request: Request, revision: Revision, error: BackendError,
                        before: seq<Event>, previewed: seq<Event>, after: seq<Event>)
      requires InScope(request.key.workspace, request.key.repository) && IsRevision(answers, request.key, revision)
      requires previewed == before + [Read(request.key, revision)]
      requires RefusedFor(request.(expectedRevision := Some(revision)), error, previewed, after)
      ensures ExecutionRefusedFor(request, true, error, before, after)
    {
      match error
      case StaleConfirmation =>
        StaleAgrees(request, revision, before, after);
      case InvalidConfiguration =>
        TwoReads(before, request.key, revision, revision);
      case _ =>
    }

    lemma StaleAgrees(request: Request, revision: Revision, before: seq<Event>, after: seq<Event>)
      requires IsRevision(answers, request.key, revision)
      requires RefusedFor(request.(expectedRevision := Some(revision)), StaleConfirmation,
                          before + [Read(request.key, revision)], after)
      ensures ExecutionRefusedFor(request, true, StaleConfirmation, before, after)
    {
      var q :|
        && revision != q && IsRevision(answers, request.key, q)
        && after == before + [Read(request.key, revision)] + [Read(request.key, q)];
      TwoReads(before, request.key, revision, q);
    }

    // ----- New pull requests -----

    /** The bound reviewers, or else those that the provider gives at call n, the configured and the requested ones. */
    ghost predicate AreResolved(request: CreateRequest, reviewers: seq<string>, n: nat) {
      match request.resolvedReviewerAccountIds
      case Some(bound) => reviewers == bound
      case None =>
        var defaults := answers.defaultReviewers(n, request.workspace, request.repository);
        && defaults.Some?
        && AreReviewers(reviewers, defaults.value, configuration.reviewerAccountIds, request.reviewerAccountIds)
    }

    method ResolvedReviewers(request: CreateRequest) returns (reviewers: Result<seq<string>, BackendError>)
      modifies this`calls
      ensures reviewers.Success? ==> AreResolved(request, reviewers.value, old(calls))
      ensures reviewers.Failure? ==> reviewers.error == ProviderFailed && !Cooperates(answers)
    {
      if request.resolvedReviewerAccountIds.Some? { return Success(request.resolvedReviewerAccountIds.value); }
      var defaults := answers.defaultReviewers(calls, request.workspace, request.repository);
      calls := calls + 1;
      if defaults.None? { return Failure(ProviderFailed); }
      var merged := MergeReviewers(defaults.value, configuration.reviewerAccountIds, request.reviewerAccountIds);
      reviewers := Success(merged);
    }

    /** The plan names the repository and the branches, and the fields of the request as they are. */
    ghost predicate PlansCreate(request: CreateRequest, plan: Plan) {
      && plan.target == AskedTarget(request)
      && plan.effect.CreateEffect?
      && plan.effect.title == request.title
      && plan.effect.description == Or(request.description, "")
      && plan.effect.closeSourceBranch == Or(request.closeSourceBranch, configuration.closeSourceBranchByDefault)
    }

    function AskedTarget(request: CreateRequest): Target {
      RepositoryTarget(request.workspace, request.repository, request.sourceBranch, request.destinationBranch)
    }

    /** What is sent has the text of the request without whitespace around it, and these reviewers. */
    ghost predicate Carries(change: Change, request: CreateRequest, reviewers: seq<string>) {
      && BodyOf(change).SentCreate?
      && BodyOf(change).title == Text.Trim(request.title)
      && BodyOf(change).description == Text.Trim(Or(request.description, ""))
      && BodyOf(change).reviewers == reviewers
      && BodyOf(change).closeSourceBranch == Or(request.closeSourceBranch, configuration.closeSourceBranchByDefault)
    }

    method PreviewCreate(request: CreateRequest) returns (plan: Result<Plan, BackendError>)
      modifies this`calls
      ensures plan.Success? ==>
                && InScope(request.workspace, request.repository)
                && PlansCreate(request, plan.value)
      ensures plan.Failure? ==>
                plan.error == if !InScope(request.workspace, request.repository) then OutsideScope else ProviderFailed
      ensures plan == Failure(ProviderFailed) ==> !Cooperates(answers)
      ensures plan.Success? ==> AreResolved(request, plan.value.effect.reviewerAccountIds, old(calls))
    {
      if !InScope(request.workspace, request.repository) { return Failure(OutsideScope); }
      var reviewers := ResolvedReviewers(request);
      if reviewers.Failure? { return Failure(reviewers.error); }
      var actor := Actor();
      if actor.Failure? { return Failure(actor.error); }
      plan := Success(Plan(
        actor.value,
        RepositoryTarget(request.workspace, request.repository, request.sourceBranch, request.destinationBranch),
        CreateEffectOf(request, reviewers.value, configuration.closeSourceBranchByDefault)));
    }

    /** The client would send the new pull request; the reviewers do not matter for that. */
    predicate CanSendNew(request: CreateRequest) {
      IsSendable(NewPullRequest(request, [], configuration.closeSourceBranchByDefault))
    }

    method ApplyCreate(request: CreateRequest) returns (result: Outcome<BackendError>)
      modifies this
      ensures result.Pass? ==> request.confirmed && InScope(request.workspace, request.repository)
      ensures result.Fail? ==>
                match result.error
                case ConfirmationRequired => !request.confirmed
                case OutsideScope => request.confirmed && !InScope(request.workspace, request.repository)
                case InvalidConfiguration => !CanSendNew(request)
                case ProviderFailed => !Cooperates(answers)
                case StaleConfirmation => false
      ensures result.Fail? && result.error != ProviderFailed ==> log == old(log)
      ensures if log == old(log) then result.Fail?
              else
                exists reviewers ::
                  && AreResolved(request, reviewers, old(calls) + 1)
                  && var change := NewPullRequest(request, reviewers, configuration.closeSourceBranchByDefault);
                     && log == old(log) + [Changed(change, None)]
                     && GoesTo(change, AskedTarget(request))
                     && Carries(change, request, reviewers)
    {
      if !request.confirmed { return Fail(ConfirmationRequired); }
      if !InScope(request.workspace, request.repository) { return Fail(OutsideScope); }
      var actor := Actor();
      if actor.Failure? { return Fail(actor.error); }
      var reviewers := ResolvedReviewers(request);
      if reviewers.Failure? { return Fail(reviewers.error); }
      result := Submit(NewPullRequest(request, reviewers.value, configuration.closeSourceBranchByDefault), None);
    }

    /**
     The tool for new pull requests. Whatever the provider's default reviewers have become
     since the preview, the ones of the plan are used. What reaches the provider fulfils
     the plan exactly if title and description of the request have no whitespace around
     them. It succeeds whenever the provider cooperates.
     */
    method ExecuteCreate(request: CreateRequest,
                         accepted: bool) returns (plan: Result<Plan, BackendError>, result: Outcome<BackendError>)
      requires ChangesAreBound(log)
      modifies this
      ensures ChangesAreBound(log)
      ensures plan.Success? ==>
                && PlansCreate(request, plan.value)
                && AreResolved(request, plan.value.effect.reviewerAccountIds, old(calls))
      ensures plan.Failure? ==> result == Fail(plan.error)
      ensures result.Pass? ==>
                && accepted && request.confirmed && plan.Success? && plan.value.effect.CreateEffect?
                && var reviewers := plan.value.effect.reviewerAccountIds;
                   var change := NewPullRequest(request, reviewers, configuration.closeSourceBranchByDefault);
                   && log == old(log) + [Changed(change, None)]
                   && GoesTo(change, plan.value.target)
                   && Carries(change, request, reviewers)
                   && (Fulfils(BodyOf(change), plan.value.effect) <==> IsTrimmed(request))
      ensures result.Fail? ==>
                match result.error
                case OutsideScope => !InScope(request.workspace, request.repository)
                case ConfirmationRequired => !(accepted && request.confirmed)
                case InvalidConfiguration => !CanSendNew(request)
                case ProviderFailed => !Cooperates(answers)
                case StaleConfirmation => false
      ensures accepted && request.confirmed && InScope(request.workspace, request.repository) && CanSendNew(request)
              && Cooperates(answers)
              ==> result.Pass?
      ensures !accepted || (result.Fail? && result.error != ProviderFailed) ==> log == old(log)
    {
      plan := PreviewCreate(request);
      if plan.Failure? { return plan, Fail(plan.error); }
      if !accepted { return plan, Fail(ConfirmationRequired); }
      var bound := BindResolvedReviewers(request, plan.value);
      result := ApplyCreate(bound.value);
      CreateFulfilsIff(request, plan.value.effect.reviewerAccountIds, configuration.closeSourceBranchByDefault);
    }
  }
}
