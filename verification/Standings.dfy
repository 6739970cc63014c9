/** Tournament standings: one row object per team, accumulated over the completed matches, then sorted and ranked. */
module Standings {
  import opened Common
  import opened StableSort

  datatype Match = Match(
    completed: bool,
    group: Option<string>,
    home: Option<nat>,
    away: Option<nat>,
    homeScore: Option<int>,
    awayScore: Option<int>)

  /** A missing bonus threshold and the threshold 0 both switch the bonus off. */
  datatype Scoring = Scoring(win: int, draw: int, loss: int, bonusThreshold: Option<int>, bonus: int)

  const DEFAULT_SCORING := Scoring(3, 1, 0, None, 0)

  /** The match is rated: both teams and both scores are known. */
  predicate Rated(m: Match) {
    m.home.Some? && m.away.Some? && m.homeScore.Some? && m.awayScore.Some?
  }

  predicate IsRelevant(m: Match, group: Option<string>) {
    m.completed && (group.None? || m.group == group)
  }

  function Relevant(ms: seq<Match>, group: Option<string>): seq<Match> {
    if ms == [] then []
    else
      var last := ms[|ms| - 1];
      Relevant(ms[..|ms| - 1], group) + if IsRelevant(last, group) then [last] else []
  }

  // ---- What the numbers of a team must be ----

  datatype Tally = Tally(played: int, wins: int, draws: int, losses: int, goalsFor: int, goalsAgainst: int, points: int)

  function Zero(): Tally { Tally(0, 0, 0, 0, 0, 0, 0) }

  function Plus(a: Tally, b: Tally): Tally {
    Tally(a.played + b.played, a.wins + b.wins, a.draws + b.draws, a.losses + b.losses,
          a.goalsFor + b.goalsFor, a.goalsAgainst + b.goalsAgainst, a.points + b.points)
  }

  predicate EarnsBonus(sc: Scoring, scored: int) {
    sc.bonusThreshold.Some? && sc.bonusThreshold.value != 0 && scored >= sc.bonusThreshold.value
  }

  /** What one match is worth to a side that scored and conceded these goals. */
  function Side(sc: Scoring, scored: int, conceded: int): Tally {
    var extra := if EarnsBonus(sc, scored) then sc.bonus else 0;
    if scored > conceded then Tally(1, 1, 0, 0, scored, conceded, sc.win + extra)
    else if scored < conceded then Tally(1, 0, 0, 1, scored, conceded, sc.loss + extra)
    else Tally(1, 0, 1, 0, scored, conceded, sc.draw + extra)
  }

  function HomeSide(sc: Scoring, m: Match): Tally
    requires Rated(m)
  {
    Side(sc, m.homeScore.value, m.awayScore.value)
  }

  function AwaySide(sc: Scoring, m: Match): Tally
    requires Rated(m)
  {
    Side(sc, m.awayScore.value, m.homeScore.value)
  }

  /** What a row gains when the home side is worth h and the away side is worth a: both when it stands for both sides. */
  function Gain(isHome: bool, isAway: bool, h: Tally, a: Tally): Tally {
    if isHome && isAway then Plus(h, a) else if isHome then h else if isAway then a else Zero()
  }

  /** What one match is worth to a team: both sides when it meets itself, nothing when it does not play. */
  function Worth(sc: Scoring, m: Match, team: nat): Tally {
    if !Rated(m) then Zero()
    else Gain(m.home.value == team, m.away.value == team, HomeSide(sc, m), AwaySide(sc, m))
  }

  function TeamTally(sc: Scoring, ms: seq<Match>, team: nat): Tally {
    if ms == [] then Zero()
    else Plus(TeamTally(sc, ms[..|ms| - 1], team), Worth(sc, ms[|ms| - 1], team))
  }

  function Add(teams: seq<nat>, team: nat): seq<nat> {
    if team in teams then teams else teams + [team]
  }

  /** The rated teams in the order of their first match, the home team first. */
  function FirstSeen(ms: seq<Match>): seq<nat> {
    if ms == [] then []
    else
      var earlier, last := FirstSeen(ms[..|ms| - 1]), ms[|ms| - 1];
      if Rated(last) then Add(Add(earlier, last.home.value), last.away.value) else earlier
  }

  predicate Involves(m: Match, team: nat) {
    Rated(m) && (m.home.value == team || m.away.value == team)
  }

  predicate Plays(ms: seq<Match>, team: nat) {
    exists m :: m in ms && Involves(m, team)
  }

  lemma {:induction false} FirstSeenArePlayers(ms: seq<Match>)
    ensures NoDuplicates(FirstSeen(ms))
    ensures forall t: nat :: t in FirstSeen(ms) <==> Plays(ms, t)
  {
    if ms != [] {
      var n := |ms| - 1;
      FirstSeenArePlayers(ms[..n]);
      assert ms == ms[..n] + [ms[n]];
      forall t: nat ensures Plays(ms, t) <==> Plays(ms[..n], t) || Involves(ms[n], t) {
        if Plays(ms[..n], t) {
          var m :| m in ms[..n] && Involves(m, t);
          assert m in ms;
        } else if Involves(ms[n], t) {
          assert ms[n] in ms;
        }
      }
    }
  }

  /** The standings key of a team: points, goal difference, goals scored. */
  function TableKey(t: Tally): Key {
    [t.points as real, (t.goalsFor - t.goalsAgainst) as real, t.goalsFor as real]
  }

  function Entry(sc: Scoring, ms: seq<Match>, team: nat): Keyed<nat> {
    Keyed(TableKey(TeamTally(sc, ms, team)), team)
  }

  function Entries(sc: Scoring, ms: seq<Match>, teams: seq<nat>): (r: seq<Keyed<nat>>)
    ensures |r| == |teams| && forall i :: 0 <= i < |teams| ==> r[i] == Entry(sc, ms, teams[i])
  {
    seq(|teams|, i requires 0 <= i < |teams| => Entry(sc, ms, teams[i]))
  }

  /** The table: the rated teams, best key first, teams of equal key in the order they were first seen. */
  function Table(sc: Scoring, ms: seq<Match>): seq<Keyed<nat>> {
    SortDesc(Entries(sc, ms, FirstSeen(ms)))
  }

  // ---- The calculator ----

  /** A row of the standings, updated in place. */
  class TeamStanding {
    const team: nat
    var played: int
    var wins: int
    var draws: int
    var losses: int
    var goalsFor: int
    var goalsAgainst: int
    var goalDifference: int
    var points: int
    var hoursPlayed: real
    var customScore: Option<real>
    var isQualified: bool
    var rank: Option<int>

    constructor (team: nat)
      ensures this.team == team && Numbers() == Zero() && Untouched()
    {
      this.team := team;
      played, wins, draws, losses := 0, 0, 0, 0;
      goalsFor, goalsAgainst, goalDifference, points := 0, 0, 0, 0;
      hoursPlayed, customScore, isQualified, rank := 0.0, None, false, None;
    }

    function Numbers(): Tally
      reads this
    {
      Tally(played, wins, draws, losses, goalsFor, goalsAgainst, points)
    }

    /** The fields that accumulating matches leaves alone. */
    predicate Untouched()
      reads this
    {
      goalDifference == 0 && hoursPlayed == 0.0 && customScore.None? && !isQualified && rank.None?
    }

    method AddGoals(scored: int, conceded: int)
      modifies `played, `goalsFor, `goalsAgainst
      ensures Numbers() == Plus(old(Numbers()), Tally(1, 0, 0, 0, scored, conceded, 0))
    {
      played := played + 1;
      goalsFor := goalsFor + scored;
      goalsAgainst := goalsAgainst + conceded;
    }

    method AddWin(sc: Scoring)
      modifies `wins, `points
      ensures Numbers() == Plus(old(Numbers()), Tally(0, 1, 0, 0, 0, 0, sc.win))
    {
      wins := wins + 1;
      points := points + sc.win;
    }

    method AddDraw(sc: Scoring)
      modifies `draws, `points
      ensures Numbers() == Plus(old(Numbers()), Tally(0, 0, 1, 0, 0, 0, sc.draw))
    {
      draws := draws + 1;
      points := points + sc.draw;
    }

    method AddLoss(sc: Scoring)
      modifies `losses, `points
      ensures Numbers() == Plus(old(Numbers()), Tally(0, 0, 0, 1, 0, 0, sc.loss))
    {
      losses := losses + 1;
      points := points + sc.loss;
    }

    method AddBonus(sc: Scoring)
      modifies `points
      ensures Numbers() == Plus(old(Numbers()), Tally(0, 0, 0, 0, 0, 0, sc.bonus))
    {
      points := points + sc.bonus;
    }
  }

  function Goals(scored: int, conceded: int): Tally {
    Tally(1, 0, 0, 0, scored, conceded, 0)
  }

  function Result(sc: Scoring, scored: int, conceded: int): Tally {
    if scored > conceded then Tally(0, 1, 0, 0, 0, 0, sc.win)
    else if scored < conceded then Tally(0, 0, 0, 1, 0, 0, sc.loss)
    else Tally(0, 0, 1, 0, 0, 0, sc.draw)
  }

  function Bonus(sc: Scoring, scored: int): Tally {
    Tally(0, 0, 0, 0, 0, 0, if EarnsBonus(sc, scored) then sc.bonus else 0)
  }

  lemma SideParts(sc: Scoring, scored: int, conceded: int)
    ensures Side(sc, scored, conceded) == Plus(Plus(Goals(scored, conceded), Result(sc, scored, conceded)), Bonus(sc, scored))
  {
  }

  lemma GainPlus(before: Tally, isHome: bool, isAway: bool, h: Tally, a: Tally, h': Tally, a': Tally)
    ensures Plus(Plus(before, Gain(isHome, isAway, h, a)), Gain(isHome, isAway, h', a')) ==
              Plus(before, Gain(isHome, isAway, Plus(h, h'), Plus(a, a')))
  {
    if isHome && isAway {
    } else if isHome {
    } else if isAway {
    }
  }

  lemma GainParts(before: Tally, isHome: bool, isAway: bool, sc: Scoring, x: int, y: int)
    ensures var goals := Plus(before, Gain(isHome, isAway, Goals(x, y), Goals(y, x)));
            var result := Plus(goals, Gain(isHome, isAway, Result(sc, x, y), Result(sc, y, x)));
            Plus(result, Gain(isHome, isAway, Bonus(sc, x), Bonus(sc, y))) ==
              Plus(before, Gain(isHome, isAway, Side(sc, x, y), Side(sc, y, x)))
  {
    var h, a := Goals(x, y), Goals(y, x);
    var h', a' := Result(sc, x, y), Result(sc, y, x);
    GainPlus(before, isHome, isAway, h, a, h', a');
    GainPlus(before, isHome, isAway, Plus(h, h'), Plus(a, a'), Bonus(sc, x), Bonus(sc, y));
    SideParts(sc, x, y);
    SideParts(sc, y, x);
  }

  method AddGoals(home: TeamStanding, away: TeamStanding, homeScore: int, awayScore: int)
    modifies home`played, home`goalsFor, home`goalsAgainst
    modifies away`played, away`goalsFor, away`goalsAgainst
    ensures home.Numbers() == Plus(old(home.Numbers()),
                                   Gain(true, home == away, Goals(homeScore, awayScore), Goals(awayScore, homeScore)))
    ensures away.Numbers() == Plus(old(away.Numbers()),
                                   Gain(home == away, true, Goals(homeScore, awayScore), Goals(awayScore, homeScore)))
  {
    home.AddGoals(homeScore, awayScore);
    away.AddGoals(awayScore, homeScore);
  }

  method AddResult(home: TeamStanding, away: TeamStanding, homeScore: int, awayScore: int, sc: Scoring)
    modifies home`wins, home`draws, home`losses, home`points
    modifies away`wins, away`draws, away`losses, away`points
    ensures home.Numbers() == Plus(old(home.Numbers()),
                                   Gain(true, home == away, Result(sc, homeScore, awayScore), Result(sc, awayScore, homeScore)))
    ensures away.Numbers() == Plus(old(away.Numbers()),
                                   Gain(home == away, true, Result(sc, homeScore, awayScore), Result(sc, awayScore, homeScore)))
  {
    if homeScore > awayScore {
      home.AddWin(sc);
      away.AddLoss(sc);
    } else if homeScore < awayScore {
      away.AddWin(sc);
      home.AddLoss(sc);
    } else {
      home.AddDraw(sc);
      away.AddDraw(sc);
    }
  }

  method AddBonus(home: TeamStanding, away: TeamStanding, homeScore: int, awayScore: int, sc: Scoring)
    modifies home`points
    modifies away`points
    ensures home.Numbers() == Plus(old(home.Numbers()), Gain(true, home == away, Bonus(sc, homeScore), Bonus(sc, awayScore)))
    ensures away.Numbers() == Plus(old(away.Numbers()), Gain(home == away, true, Bonus(sc, homeScore), Bonus(sc, awayScore)))
  {
    if sc.bonusThreshold.Some? && sc.bonusThreshold.value != 0 {
      if homeScore >= sc.bonusThreshold.value {
        home.AddBonus(sc);
      }
      if awayScore >= sc.bonusThreshold.value {
        away.AddBonus(sc);
      }
    }
  }

  /** Books one match on its two rows, which are the same object when a team meets itself. */
  method AddMatch(home: TeamStanding, away: TeamStanding, homeScore: int, awayScore: int, sc: Scoring)
    modifies home`played, home`wins, home`draws, home`losses, home`goalsFor, home`goalsAgainst, home`points
    modifies away`played, away`wins, away`draws, away`losses, away`goalsFor, away`goalsAgainst, away`points
    ensures home.Numbers() == Plus(old(home.Numbers()),
                                   Gain(true, home == away, Side(sc, homeScore, awayScore), Side(sc, awayScore, homeScore)))
    ensures away.Numbers() == Plus(old(away.Numbers()),
                                   Gain(home == away, true, Side(sc, homeScore, awayScore), Side(sc, awayScore, homeScore)))
  {
    GainParts(home.Numbers(), true, home == away, sc, homeScore, awayScore);
    GainParts(away.Numbers(), home == away, true, sc, homeScore, awayScore);
    AddGoals(home, away, homeScore, awayScore);
    AddResult(home, away, homeScore, awayScore, sc);
    AddBonus(home, away, homeScore, awayScore, sc);
  }

  /** rows is a dictionary with these teams as keys in insertion order, each mapped to its own row. */
  ghost predicate IsDictionary(rows: map<nat, TeamStanding>, teams: seq<nat>) {
    && NoDuplicates(teams)
    && (forall t: nat :: t in teams <==> t in rows)
    && (forall t :: t in rows ==> rows[t].team == t)
  }

  /** Every row holds its team's totals over these matches. */
  ghost predicate HoldsTotals(rows: map<nat, TeamStanding>, sc: Scoring, ms: seq<Match>)
    reads rows.Values
  {
    forall t :: t in rows ==> rows[t].Untouched() && rows[t].Numbers() == TeamTally(sc, ms, t)
  }

  lemma {:induction false} NoMatchesNoNumbers(sc: Scoring, ms: seq<Match>, team: nat)
    requires !Plays(ms, team)
    ensures TeamTally(sc, ms, team) == Zero()
  {
    if ms != [] {
      var n := |ms| - 1;
      assert ms[n] in ms && !Involves(ms[n], team);
      assert !Plays(ms[..n], team);
      NoMatchesNoNumbers(sc, ms[..n], team);
    }
  }

  lemma UnseenHasNothing(sc: Scoring, ms: seq<Match>, team: nat)
    requires team !in FirstSeen(ms)
    ensures TeamTally(sc, ms, team) == Zero()
  {
    FirstSeenArePlayers(ms);
    NoMatchesNoNumbers(sc, ms, team);
  }

  method GetStanding(rows: map<nat, TeamStanding>, teams: seq<nat>, team: nat, ghost sc: Scoring, ghost ms: seq<Match>)
    returns (rows': map<nat, TeamStanding>, teams': seq<nat>)
    requires IsDictionary(rows, teams) && HoldsTotals(rows, sc, ms) && FirstSeen(ms) <= teams
    ensures IsDictionary(rows', teams') && HoldsTotals(rows', sc, ms)
    ensures teams' == Add(teams, team) && fresh(rows'.Values - rows.Values)
  {
    rows', teams' := rows, teams;
    if team !in rows {
      UnseenHasNothing(sc, ms, team);
      var standing := new TeamStanding(team);
      rows', teams' := rows[team := standing], teams + [team];
    }
  }

  method UpdateRows(rows: map<nat, TeamStanding>, ghost teams: seq<nat>, m: Match, sc: Scoring, ghost ms: seq<Match>)
    requires Rated(m) && IsDictionary(rows, teams) && HoldsTotals(rows, sc, ms)
    requires m.home.value in rows && m.away.value in rows
    modifies rows[m.home.value], rows[m.away.value]
    ensures HoldsTotals(rows, sc, ms + [m])
  {
    var home, away := rows[m.home.value], rows[m.away.value];
    assert home.team == m.home.value && away.team == m.away.value;
    AddMatch(home, away, m.homeScore.value, m.awayScore.value, sc);
    forall t | t in rows ensures rows[t].Untouched() && rows[t].Numbers() == TeamTally(sc, ms + [m], t) {
      assert (ms + [m])[..|ms|] == ms;
      assert rows[t].team == t;
      if t == m.home.value {
      } else if t == m.away.value {
      } else {
        assert Worth(sc, m, t) == Zero();
      }
    }
  }

  lemma FirstSeenNext(ms: seq<Match>, m: Match)
    requires Rated(m)
    ensures FirstSeen(ms + [m]) == Add(Add(FirstSeen(ms), m.home.value), m.away.value)
  {
    assert (ms + [m])[..|ms|] == ms;
  }

  /** Books a rated match: its teams get rows if they have none, and every row then holds the totals including this match. */
  method BookMatch(rows: map<nat, TeamStanding>, teams: seq<nat>, m: Match, sc: Scoring, ghost ms: seq<Match>)
    returns (rows': map<nat, TeamStanding>, teams': seq<nat>)
    requires Rated(m) && IsDictionary(rows, teams) && HoldsTotals(rows, sc, ms) && teams == FirstSeen(ms)
    modifies rows.Values
    ensures IsDictionary(rows', teams') && HoldsTotals(rows', sc, ms + [m])
    ensures teams' == FirstSeen(ms + [m]) && fresh(rows'.Values - rows.Values)
  {
    FirstSeenNext(ms, m);
    rows', teams' := GetStanding(rows, teams, m.home.value, sc, ms);
    rows', teams' := GetStanding(rows', teams', m.away.value, sc, ms);
    assert rows'[m.home.value] in rows'.Values && rows'[m.away.value] in rows'.Values;
    UpdateRows(rows', teams', m, sc, ms);
  }

  /** One pass over the matches leaves in every row exactly its team's totals, whatever teams share a row. */
  method Accumulate(ms: seq<Match>, sc: Scoring) returns (rows: map<nat, TeamStanding>, teams: seq<nat>)
    ensures IsDictionary(rows, teams) && HoldsTotals(rows, sc, ms)
    ensures teams == FirstSeen(ms) && fresh(rows.Values)
  {
    rows, teams := map[], [];
    for i := 0 to |ms|
      invariant IsDictionary(rows, teams) && HoldsTotals(rows, sc, ms[..i])
      invariant teams == FirstSeen(ms[..i]) && fresh(rows.Values)
    {
      var m := ms[i];
      assert ms[..i + 1] == ms[..i] + [m];
      assert ms[..i + 1][..i] == ms[..i];
      if m.home.None? || m.away.None? {
        continue;
      }
      if m.homeScore.None? || m.awayScore.None? {
        continue;
      }
      rows, teams := BookMatch(rows, teams, m, sc, ms[..i]);
    }
    assert ms[..|ms|] == ms;
  }

  /** The key an object is sorted by. */
  function RowKey(s: TeamStanding): Key
    reads s
  {
    [s.points as real, s.goalDifference as real, s.goalsFor as real]
  }

  /** The rows show this table: the right teams at the right places, with the right numbers, in one object each. */
  ghost predicate Shows(rows: seq<TeamStanding>, table: seq<Keyed<nat>>, tally: nat -> Tally)
    reads rows
  {
    && |rows| == |table|
    && NoDuplicates(rows)
    && forall i :: 0 <= i < |rows| ==> Keyed(RowKey(rows[i]), rows[i].team) == table[i] && rows[i].Numbers() == tally(rows[i].team)
  }

  ghost function Tallies(sc: Scoring, ms: seq<Match>): nat -> Tally {
    (t: nat) => TeamTally(sc, ms, t)
  }

  ghost predicate ShowsTable(rows: seq<TeamStanding>, sc: Scoring, ms: seq<Match>)
    reads rows
  {
    Shows(rows, Table(sc, ms), Tallies(sc, ms))
  }

  method SetDifferences(rows: seq<TeamStanding>)
    modifies rows`goalDifference
    ensures forall s :: s in rows ==> s.goalDifference == s.goalsFor - s.goalsAgainst
  {
    for i := 0 to |rows|
      invariant forall k :: 0 <= k < i ==> rows[k].goalDifference == rows[k].goalsFor - rows[k].goalsAgainst
    {
      rows[i].goalDifference := rows[i].goalsFor - rows[i].goalsAgainst;
    }
  }

  function Sortable(rows: seq<TeamStanding>): (r: seq<Keyed<TeamStanding>>)
    reads rows
    ensures |r| == |rows| && forall i :: 0 <= i < |rows| ==> r[i] == Keyed(RowKey(rows[i]), rows[i])
  {
    seq(|rows|, i requires 0 <= i < |rows| reads rows => Keyed(RowKey(rows[i]), rows[i]))
  }

  /** One row per rated team, in the order they were first seen, holding the team's totals and goal difference. */
  ghost predicate HoldsAll(rows: seq<TeamStanding>, sc: Scoring, ms: seq<Match>)
    reads rows
  {
    && |rows| == |FirstSeen(ms)|
    && forall i :: 0 <= i < |rows| ==>
         && rows[i].team == FirstSeen(ms)[i]
         && rows[i].Numbers() == TeamTally(sc, ms, rows[i].team)
         && rows[i].goalDifference == rows[i].goalsFor - rows[i].goalsAgainst
  }

  ghost predicate Unjudged(rows: seq<TeamStanding>)
    reads rows
  {
    forall s :: s in rows ==> s.hoursPlayed == 0.0 && !s.isQualified
  }

  function TeamOf(s: TeamStanding): nat {
    s.team
  }

  /** Sorting the rows of all rated teams, each holding its totals, gives the table. */
  lemma SortedRowsShowTable(rows: seq<TeamStanding>, sc: Scoring, ms: seq<Match>)
    requires HoldsAll(rows, sc, ms)
    ensures ShowsTable(Vals(SortDesc(Sortable(rows))), sc, ms)
    ensures multiset(Vals(SortDesc(Sortable(rows)))) == multiset(rows)
  {
    var keyed := Sortable(rows);
    assert Vals(keyed) == rows;
    assert Renamed(keyed, TeamOf) == Entries(sc, ms, FirstSeen(ms));
    SortRenamed(keyed, TeamOf);
    SortedVals(keyed);
    SortDescSorts(keyed);
    FirstSeenArePlayers(ms);
    RearrangedNoDuplicates(rows, Vals(SortDesc(keyed)));
    forall i | 0 <= i < |rows|
      ensures var s := Vals(SortDesc(keyed))[i];
              Keyed(RowKey(s), s.team) == Table(sc, ms)[i] && s.Numbers() == TeamTally(sc, ms, s.team)
    {
      var e := SortDesc(keyed)[i];
      assert e in multiset(keyed);
    }
  }

  method CollectRows(ms: seq<Match>, sc: Scoring) returns (rows: seq<TeamStanding>)
    ensures fresh(rows) && HoldsAll(rows, sc, ms) && Unjudged(rows)
  {
    var dictionary, teams := Accumulate(ms, sc);
    rows := seq(|teams|, i requires 0 <= i < |teams| && teams[i] in dictionary => dictionary[teams[i]]);
    assert forall i :: 0 <= i < |rows| ==> rows[i] in dictionary.Values;
    SetDifferences(rows);
  }

  lemma SameElements(a: seq<TeamStanding>, b: seq<TeamStanding>)
    requires multiset(a) == multiset(b)
    ensures forall s :: s in a <==> s in b
  {
    assert forall s :: s in a <==> s in multiset(a);
  }

  method SortRows(rows: seq<TeamStanding>, ghost sc: Scoring, ghost ms: seq<Match>) returns (result: seq<TeamStanding>)
    requires HoldsAll(rows, sc, ms)
    ensures ShowsTable(result, sc, ms)
    ensures forall s :: s in rows <==> s in result
  {
    SortedRowsShowTable(rows, sc, ms);
    result := Vals(SortDesc(Sortable(rows)));
    SameElements(result, rows);
  }

  method SetRanks(rows: seq<TeamStanding>, ghost table: seq<Keyed<nat>>, ghost tally: nat -> Tally)
    requires Shows(rows, table, tally)
    modifies rows`rank
    ensures Shows(rows, table, tally)
    ensures forall i :: 0 <= i < |rows| ==> rows[i].rank == Some(i + 1)
  {
    for i := 0 to |rows|
      invariant Shows(rows, table, tally)
      invariant forall k :: 0 <= k < i ==> rows[k].rank == Some(k + 1)
    {
      rows[i].rank := Some(i + 1);
    }
  }

  /** The standings of a list of matches: the table of the relevant ones, ranked from 1. */
  method Compute(matches: seq<Match>, rule: Option<Scoring>, group: Option<string>) returns (result: seq<TeamStanding>)
    ensures fresh(result) && Unjudged(result)
    ensures ShowsTable(result, rule.GetOr(DEFAULT_SCORING), Relevant(matches, group))
    ensures forall i :: 0 <= i < |result| ==> result[i].rank == Some(i + 1)
  {
    var sc := rule.GetOr(DEFAULT_SCORING);
    var relevant := Relevant(matches, group);
    var rows := CollectRows(relevant, sc);
    result := SortRows(rows, sc, relevant);
    forall i | 0 <= i < |result| ensures fresh(result[i]) {
      assert result[i] in rows;
    }
    SetRanks(result, Table(sc, relevant), Tallies(sc, relevant));
  }
}
