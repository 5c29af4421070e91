/** The rows of a team report: the roster and the worklogs accumulated member by member. */
module TeamMembers {
  import opened Ordering
  import opened Seconds
  import opened Worklogs

  datatype TeamMember = TeamMember(accountId: string, displayName: string)

  datatype MemberAnalytics = MemberAnalytics(
    accountId: string, displayName: string, seconds: u32, activeDays: nat, taskCount: nat, entries: nat)

  datatype Accumulator = Accumulator(
    displayName: string, seconds: u32, dates: set<int>, issues: set<string>, entries: nat)

  /** The state of a member before any worklog: only a name, empty when not on the roster. */
  function RosterName(roster: seq<TeamMember>, account: string): string {
    if roster == [] then ""
    else if roster[|roster| - 1].accountId == account then roster[|roster| - 1].displayName
    else RosterName(roster[..|roster| - 1], account)
  }

  /** What is known of a member after the given entries: the last author name wins. */
  function MemberOf(roster: seq<TeamMember>, es: seq<Entry>, account: string): Accumulator {
    var mine := Only(es, Author, account);
    Accumulator(
      if mine == [] then RosterName(roster, account) else mine[|mine| - 1].authorName,
      SaturatingSum(Durations(mine)),
      set e | e in mine :: e.date,
      set e | e in mine :: e.issueKey,
      |mine|)
  }

  function Accumulate(member: Accumulator, e: Entry): Accumulator {
    Accumulator(
      e.authorName,
      SaturatingAdd(member.seconds, e.seconds),
      member.dates + {e.date},
      member.issues + {e.issueKey},
      member.entries + 1)
  }

  lemma AccumulateStep(roster: seq<TeamMember>, es: seq<Entry>, e: Entry, account: string)
    ensures MemberOf(roster, es + [e], account)
         == if e.author == account then Accumulate(MemberOf(roster, es, account), e)
            else MemberOf(roster, es, account)
  {
    OnlyAppend(es, e, Author, account);
    if e.author == account { OneMore(Only(es, Author, account), e); }
  }

  lemma OneMore(mine: seq<Entry>, e: Entry)
    ensures SaturatingSum(Durations(mine + [e])) == SaturatingAdd(SaturatingSum(Durations(mine)), e.seconds)
    ensures (set x | x in mine + [e] :: x.date) == (set x | x in mine :: x.date) + {e.date}
    ensures (set x | x in mine + [e] :: x.issueKey) == (set x | x in mine :: x.issueKey) + {e.issueKey}
  {
    assert Durations(mine + [e])[..|mine|] == Durations(mine);
  }

  function Authors(es: seq<Entry>): set<string> { set e | e in es :: e.author }

  function Accounts(roster: seq<TeamMember>): set<string> { set m | m in roster :: m.accountId }

  function MemberRow(account: string, member: Accumulator): MemberAnalytics {
    MemberAnalytics(account, member.displayName, member.seconds, |member.dates|, |member.issues|, member.entries)
  }

  /** Most seconds first, then by name. */
  predicate MemberOrder(a: MemberAnalytics, b: MemberAnalytics) {
    a.seconds > b.seconds || (a.seconds == b.seconds && StringLe(a.displayName, b.displayName))
  }

  predicate ByAccount(a: MemberAnalytics, b: MemberAnalytics) { StringLe(a.accountId, b.accountId) }

  function AccountOf(row: MemberAnalytics): string { row.accountId }

  function SecondsOf(row: MemberAnalytics): u32 { row.seconds }

  /**
   The rows of the report: one for every roster account and every author, each holding
   exactly that member's worklogs, ranked, with ties in account order.
   */
  ghost predicate SummarizesMembers(rows: seq<MemberAnalytics>, roster: seq<TeamMember>, es: seq<Entry>) {
    && Distinct(KeysOf(rows, AccountOf))
    && (forall a :: a in KeysOf(rows, AccountOf) <==> a in Accounts(roster) + Authors(es))
    && (forall i :: 0 <= i < |rows| ==>
          rows[i] == MemberRow(rows[i].accountId, MemberOf(roster, es, rows[i].accountId)))
    && SortedWithTies(rows, MemberOrder, ByAccount)
  }

  lemma MemberOrderIsTotal()
    ensures TotalPreorder(MemberOrder)
  {
    StringOrder();
  }

  /** The map the loops build: every account that was mentioned, with what is known of it. */
  /** What a row shows, in terms of the member's own worklogs. */
  ghost predicate RowShows(row: MemberAnalytics, roster: seq<TeamMember>, es: seq<Entry>) {
    var mine := Only(es, Author, row.accountId);
    && row.seconds == Clamp(Total(mine))
    && row.activeDays == |set e | e in mine :: e.date|
    && row.taskCount == |set e | e in mine :: e.issueKey|
    && row.entries == |mine|
    && if mine != [] then row.displayName == mine[|mine| - 1].authorName
       else exists i :: IsLastNamed(roster, row.accountId, row.displayName, i)
  }

  /** Most seconds first, then by name, then by account. */
  ghost predicate Precedes(a: MemberAnalytics, b: MemberAnalytics) {
    || a.seconds > b.seconds
    || (a.seconds == b.seconds && StringLe(a.displayName, b.displayName)
        && (a.displayName == b.displayName ==> StringLe(a.accountId, b.accountId)))
  }

  /** The i-th entry is the last one of the roster with this account, and has this name. */
  ghost predicate IsLastNamed(roster: seq<TeamMember>, account: string, name: string, i: int) {
    && 0 <= i < |roster| && roster[i] == TeamMember(account, name)
    && forall j :: i < j < |roster| ==> roster[j].accountId != account
  }

  lemma {:induction false} RosterNameIs(roster: seq<TeamMember>, account: string) returns (i: nat)
    requires account in Accounts(roster)
    ensures IsLastNamed(roster, account, RosterName(roster, account), i)
  {
    var init, last := roster[..|roster| - 1], roster[|roster| - 1];
    if last.accountId == account {
      i := |roster| - 1;
    } else {
      var m :| m in roster && m.accountId == account;
      assert m in init;
      i := RosterNameIs(init, account);
      forall j | i < j < |roster| ensures roster[j].accountId != account {
        if j < |init| { assert roster[j] == init[j]; }
      }
    }
  }

  ghost predicate TableShows(rows: seq<MemberAnalytics>, roster: seq<TeamMember>, es: seq<Entry>) {
    && (forall row :: row in rows ==> RowShows(row, roster, es))
    && (forall i, j :: 0 <= i < j < |rows| ==> Precedes(rows[i], rows[j]))
  }

  /** Rows show what their worklogs say, in the order of the report. */
  lemma RowsShow(rows: seq<MemberAnalytics>, roster: seq<TeamMember>, es: seq<Entry>)
    requires SummarizesMembers(rows, roster, es)
    ensures TableShows(rows, roster, es)
  {
    forall row | row in rows ensures RowShows(row, roster, es) {
      var i :| 0 <= i < |rows| && rows[i] == row;
      var mine := Only(es, Author, row.accountId);
      SaturatingSumIsClamped(Durations(mine));
      assert row == MemberRow(row.accountId, MemberOf(roster, es, row.accountId));
      if mine == [] {
        assert KeysOf(rows, AccountOf)[i] in KeysOf(rows, AccountOf);
        assert forall e :: e in es && Author(e) == row.accountId ==> e in mine;
        var last := RosterNameIs(roster, row.accountId);
      }
    }
    forall i, j | 0 <= i < j < |rows| ensures Precedes(rows[i], rows[j]) {
      StringLeTotal(rows[i].displayName, rows[j].displayName);
    }
  }

  ghost predicate Collected(members: map<string, Accumulator>, roster: seq<TeamMember>, es: seq<Entry>) {
    && members.Keys == Accounts(roster) + Authors(es)
    && forall a :: a in members ==> members[a] == MemberOf(roster, es, a)
  }

  lemma RosterStep(members: map<string, Accumulator>, roster: seq<TeamMember>, member: TeamMember)
    requires Collected(members, roster, [])
    ensures Collected(members[member.accountId := Accumulator(member.displayName, 0, {}, {}, 0)], roster + [member], [])
  {}

  lemma EntryStep(members: map<string, Accumulator>, roster: seq<TeamMember>, es: seq<Entry>, e: Entry,
                  member: Accumulator)
    requires Collected(members, roster, es)
    requires member == if e.author in members then members[e.author] else Accumulator("", 0, {}, {}, 0)
    ensures Collected(members[e.author := Accumulate(member, e)], roster, es + [e])
  {
    var updated := members[e.author := Accumulate(member, e)];
    assert updated.Keys == Accounts(roster) + Authors(es + [e]) by { AuthorsAppend(es, e); }
    forall a | a in updated ensures updated[a] == MemberOf(roster, es + [e], a) {
      AccumulateStep(roster, es, e, a);
      if a !in members { UnknownMember(roster, es, a); }
    }
  }

  lemma AuthorsAppend(es: seq<Entry>, e: Entry)
    ensures Authors(es + [e]) == Authors(es) + {e.author}
  {}

  method CollectMembers(roster: seq<TeamMember>, es: seq<Entry>) returns (members: map<string, Accumulator>)
    ensures Collected(members, roster, es)
  {
    members := map[];
    for i := 0 to |roster|
      invariant Collected(members, roster[..i], [])
    {
      assert roster[..i + 1] == roster[..i] + [roster[i]];
      RosterStep(members, roster[..i], roster[i]);
      members := members[roster[i].accountId := Accumulator(roster[i].displayName, 0, {}, {}, 0)];
    }
    assert roster[..|roster|] == roster;
    for i := 0 to |es|
      invariant Collected(members, roster, es[..i])
    {
      assert es[..i + 1] == es[..i] + [es[i]];
      var member := if es[i].author in members then members[es[i].author] else Accumulator("", 0, {}, {}, 0);
      EntryStep(members, roster, es[..i], es[i], member);
      members := members[es[i].author := Accumulate(member, es[i])];
    }
    assert es[..|es|] == es;
  }

  method SummarizeMembers(roster: seq<TeamMember>, es: seq<Entry>) returns (rows: seq<MemberAnalytics>)
    ensures SummarizesMembers(rows, roster, es)
  {
    var members := CollectMembers(roster, es);
    StringOrder();
    var accounts := InOrder(members.Keys, StringLe);
    var unranked := seq(|accounts|, i requires 0 <= i < |accounts| && accounts[i] in members =>
                          MemberRow(accounts[i], members[accounts[i]]));
    rows := SortBy(unranked, MemberOrder);
    RankMembers(rows, unranked, accounts, roster, es);
  }

  /** A member nobody mentioned yet starts empty. */
  lemma UnknownMember(roster: seq<TeamMember>, es: seq<Entry>, account: string)
    requires account !in Accounts(roster) + Authors(es)
    ensures MemberOf(roster, es, account) == Accumulator("", 0, {}, {}, 0)
  {
    NothingFiled(es, Author, account);
    UnknownName(roster, account);
  }

  lemma {:induction false} UnknownName(roster: seq<TeamMember>, account: string)
    requires account !in Accounts(roster)
    ensures RosterName(roster, account) == ""
  {
    if roster != [] {
      assert roster[|roster| - 1] in roster;
      assert forall m :: m in roster[..|roster| - 1] ==> m in roster;
      UnknownName(roster[..|roster| - 1], account);
    }
  }

  lemma RankMembers(rows: seq<MemberAnalytics>, unranked: seq<MemberAnalytics>, accounts: seq<string>,
                    roster: seq<TeamMember>, es: seq<Entry>)
    requires Distinct(accounts) && Sorted(accounts, StringLe)
    requires forall a :: a in accounts <==> a in Accounts(roster) + Authors(es)
    requires |unranked| == |accounts|
    requires forall i :: 0 <= i < |accounts| ==>
               unranked[i] == MemberRow(accounts[i], MemberOf(roster, es, accounts[i]))
    requires rows == SortBy(unranked, MemberOrder)
    ensures SummarizesMembers(rows, roster, es)
  {
    MemberOrderIsTotal();
    assert KeysOf(unranked, AccountOf) == accounts;
    Ranking(unranked, AccountOf, MemberOrder, ByAccount);
    forall i | 0 <= i < |rows|
      ensures rows[i] == MemberRow(rows[i].accountId, MemberOf(roster, es, rows[i].accountId))
    {
      assert rows[i] in rows;
    }
  }

  /** The members' seconds add up to the whole report, unless a member overflows 32 bits. */
  lemma MembersAddUp(rows: seq<MemberAnalytics>, roster: seq<TeamMember>, es: seq<Entry>)
    requires SummarizesMembers(rows, roster, es)
    ensures Sum(KeysOf(rows, SecondsOf)) <= Total(es)
    ensures Sum(KeysOf(rows, SecondsOf)) == Total(es)
       <==> forall i :: 0 <= i < |rows| ==> Total(Only(es, Author, rows[i].accountId)) <= MAXIMUM
    ensures Total(es) <= MAXIMUM ==> Sum(KeysOf(rows, SecondsOf)) == Total(es)
  {
    GroupsAddUp(es, Author, KeysOf(rows, AccountOf), KeysOf(rows, SecondsOf));
  }
}
