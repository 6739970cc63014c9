/** What the standings promise: each team's arithmetic, the balance over all teams, and independence of the match order. */
module StandingsFacts {
  import opened Common
  import opened StableSort
  import opened Standings

  // ---- One team ----

  /** What a side scored and conceded in one match. */
  datatype Score = Score(scored: int, conceded: int)

  /** The scores of the team in the matches that count: completed, of the group if one is asked for, with both teams and both
      scores known. A team that meets itself gets one score for each side. */
  function Scores(ms: seq<Match>, group: Option<string>, team: nat): seq<Score> {
    if ms == [] then []
    else
      var earlier, m := Scores(ms[..|ms| - 1], group, team), ms[|ms| - 1];
      if !m.completed || (group.Some? && m.group != group)
         || m.home.None? || m.away.None? || m.homeScore.None? || m.awayScore.None?
      then earlier
      else
        earlier
        + (if m.home.value == team then [Score(m.homeScore.value, m.awayScore.value)] else [])
        + (if m.away.value == team then [Score(m.awayScore.value, m.homeScore.value)] else [])
  }

  function Count(scores: seq<Score>, counts: Score -> bool): nat {
    if scores == [] then 0
    else Count(scores[..|scores| - 1], counts) + if counts(scores[|scores| - 1]) then 1 else 0
  }

  function Sum(scores: seq<Score>, goals: Score -> int): int {
    if scores == [] then 0 else Sum(scores[..|scores| - 1], goals) + goals(scores[|scores| - 1])
  }

  predicate Won(s: Score) { s.scored > s.conceded }

  predicate Drew(s: Score) { s.scored == s.conceded }

  predicate Lost(s: Score) { s.scored < s.conceded }

  function Scored(s: Score): int { s.scored }

  function Conceded(s: Score): int { s.conceded }

  /** The side scored enough for the bonus. Without a threshold, or with the threshold 0, no side does. */
  function ScoredEnough(sc: Scoring): Score -> bool {
    (s: Score) => sc.bonusThreshold.GetOr(0) != 0 && s.scored >= sc.bonusThreshold.GetOr(0)
  }

  /** The matches split into wins, draws and losses, and points are given for each and for every bonus. */
  ghost predicate PointsAddUp(sc: Scoring, t: Tally, bonuses: int) {
    && t.played == t.wins + t.draws + t.losses
    && t.points == sc.win * t.wins + sc.draw * t.draws + sc.loss * t.losses + sc.bonus * bonuses
  }

  /** The side with more goals wins, the other one loses, level sides draw. */
  ghost predicate CountsAdd(t: Tally, scores: seq<Score>) {
    && t.played == |scores|
    && t.wins == Count(scores, Won) && t.draws == Count(scores, Drew) && t.losses == Count(scores, Lost)
    && t.goalsFor == Sum(scores, Scored) && t.goalsAgainst == Sum(scores, Conceded)
  }

  /** The numbers of a team are counts and sums over its scores. */
  ghost predicate IsRecord(sc: Scoring, t: Tally, scores: seq<Score>) {
    CountsAdd(t, scores) && PointsAddUp(sc, t, Count(scores, ScoredEnough(sc)))
  }

  lemma OneMoreCount(t: Tally, sc: Scoring, scores: seq<Score>, s: Score)
    requires CountsAdd(t, scores)
    ensures CountsAdd(Plus(t, Side(sc, s.scored, s.conceded)), scores + [s])
  {
    assert (scores + [s])[..|scores|] == scores;
  }

  lemma SideAddsUp(sc: Scoring, s: Score)
    ensures PointsAddUp(sc, Side(sc, s.scored, s.conceded), if ScoredEnough(sc)(s) then 1 else 0)
  {
  }

  lemma PlusAddsUp(sc: Scoring, s: Tally, b: int, t: Tally, c: int)
    requires PointsAddUp(sc, s, b) && PointsAddUp(sc, t, c)
    ensures PointsAddUp(sc, Plus(s, t), b + c)
  {
    assert sc.win * (s.wins + t.wins) == sc.win * s.wins + sc.win * t.wins;
    assert sc.draw * (s.draws + t.draws) == sc.draw * s.draws + sc.draw * t.draws;
    assert sc.loss * (s.losses + t.losses) == sc.loss * s.losses + sc.loss * t.losses;
    assert sc.bonus * (b + c) == sc.bonus * b + sc.bonus * c;
  }

  lemma OneMoreScore(sc: Scoring, t: Tally, scores: seq<Score>, s: Score)
    requires IsRecord(sc, t, scores)
    ensures IsRecord(sc, Plus(t, Side(sc, s.scored, s.conceded)), scores + [s])
  {
    OneMoreCount(t, sc, scores, s);
    var earned := if ScoredEnough(sc)(s) then 1 else 0;
    SideAddsUp(sc, s);
    PlusAddsUp(sc, t, Count(scores, ScoredEnough(sc)), Side(sc, s.scored, s.conceded), earned);
    assert (scores + [s])[..|scores|] == scores;
  }

  /** What a match adds to the scores of a team. */
  function ScoresIn(m: Match, team: nat): seq<Score>
    requires Rated(m)
  {
    (if m.home.value == team then [Score(m.homeScore.value, m.awayScore.value)] else [])
    + (if m.away.value == team then [Score(m.awayScore.value, m.homeScore.value)] else [])
  }

  lemma PlusAssociative(a: Tally, b: Tally, c: Tally)
    ensures Plus(Plus(a, b), c) == Plus(a, Plus(b, c)) && Plus(a, Zero()) == a
  {
  }

  lemma OneMoreMatch(sc: Scoring, t: Tally, scores: seq<Score>, m: Match, team: nat)
    requires Rated(m) && IsRecord(sc, t, scores)
    ensures IsRecord(sc, Plus(t, Worth(sc, m, team)), scores + ScoresIn(m, team))
  {
    var home, away := Score(m.homeScore.value, m.awayScore.value), Score(m.awayScore.value, m.homeScore.value);
    PlusAssociative(t, HomeSide(sc, m), AwaySide(sc, m));
    if m.home.value == team && m.away.value == team {
      OneMoreScore(sc, t, scores, home);
      OneMoreScore(sc, Plus(t, HomeSide(sc, m)), scores + [home], away);
      assert scores + ScoresIn(m, team) == scores + [home] + [away];
    } else if m.home.value == team {
      OneMoreScore(sc, t, scores, home);
      assert scores + ScoresIn(m, team) == scores + [home];
    } else if m.away.value == team {
      OneMoreScore(sc, t, scores, away);
      assert scores + ScoresIn(m, team) == scores + [away];
    } else {
      assert scores + ScoresIn(m, team) == scores;
    }
  }

  /** Over the matches that count, a team ends up with exactly the record of its scores. */
  lemma {:induction false} TeamAddsUp(sc: Scoring, ms: seq<Match>, group: Option<string>, team: nat)
    ensures IsRecord(sc, TeamTally(sc, Relevant(ms, group), team), Scores(ms, group, team))
  {
    if ms == [] {
      assert CountsAdd(Zero(), []);
    } else {
      var init, m := ms[..|ms| - 1], ms[|ms| - 1];
      var relevant, scores := Relevant(init, group), Scores(init, group, team);
      TeamAddsUp(sc, init, group, team);
      assert IsRelevant(m, group) <==> m.completed && (group.Some? ==> m.group == group);
      if !IsRelevant(m, group) {
        assert Relevant(ms, group) == relevant;
      } else {
        assert Relevant(ms, group) == relevant + [m] && (relevant + [m])[..|relevant|] == relevant;
        PlusAssociative(TeamTally(sc, relevant, team), Zero(), Zero());
        if Rated(m) {
          OneMoreMatch(sc, TeamTally(sc, relevant, team), scores, m, team);
          assert Scores(ms, group, team) == scores + ScoresIn(m, team);
        }
      }
    }
  }

  /** A listed team has played at least once. */
  lemma {:induction false} PlayersPlayed(sc: Scoring, ms: seq<Match>, team: nat)
    ensures TeamTally(sc, ms, team).played >= if Plays(ms, team) then 1 else 0
  {
    if ms != [] {
      var init, m := ms[..|ms| - 1], ms[|ms| - 1];
      PlayersPlayed(sc, init, team);
      assert ms == init + [m];
      assert Worth(sc, m, team).played >= if Involves(m, team) then 1 else 0;
    }
  }

  // ---- All teams ----

  function SumOver(tally: nat -> Tally, teams: seq<nat>): Tally {
    if teams == [] then Zero() else Plus(SumOver(tally, teams[..|teams| - 1]), tally(teams[|teams| - 1]))
  }

  lemma {:induction false} SumOfSums(f: nat -> Tally, g: nat -> Tally, h: nat -> Tally, teams: seq<nat>)
    requires forall t: nat :: h(t) == Plus(f(t), g(t))
    ensures SumOver(h, teams) == Plus(SumOver(f, teams), SumOver(g, teams))
  {
    if teams != [] {
      var init, last := teams[..|teams| - 1], teams[|teams| - 1];
      SumOfSums(f, g, h, init);
      PlusRegroups(SumOver(f, init), SumOver(g, init), f(last), g(last));
    }
  }

  ghost function WorthOf(sc: Scoring, m: Match): nat -> Tally {
    (t: nat) => Worth(sc, m, t)
  }

  /** What one match adds to the sum over these teams. */
  function Share(sc: Scoring, m: Match, teams: seq<nat>): Tally {
    if !Rated(m) then Zero()
    else Gain(m.home.value in teams, m.away.value in teams, HomeSide(sc, m), AwaySide(sc, m))
  }

  lemma GainSplits(h1: bool, a1: bool, h2: bool, a2: bool, h: Tally, a: Tally)
    requires !(h1 && h2) && !(a1 && a2)
    ensures Gain(h1 || h2, a1 || a2, h, a) == Plus(Gain(h1, a1, h, a), Gain(h2, a2, h, a))
  {
  }

  lemma ShareOfOneMore(sc: Scoring, m: Match, teams: seq<nat>, team: nat)
    requires team !in teams
    ensures Share(sc, m, teams + [team]) == Plus(Share(sc, m, teams), Worth(sc, m, team))
  {
    if Rated(m) {
      var home, away := m.home.value, m.away.value;
      assert home in teams + [team] <==> home in teams || home == team;
      assert away in teams + [team] <==> away in teams || away == team;
      GainSplits(home in teams, away in teams, home == team, away == team, HomeSide(sc, m), AwaySide(sc, m));
    }
  }

  lemma PlusSwaps(a: Tally, b: Tally, c: Tally)
    ensures Plus(Plus(a, b), c) == Plus(Plus(a, c), b)
  {
  }

  lemma PlusRegroups(a: Tally, b: Tally, c: Tally, d: Tally)
    ensures Plus(Plus(a, b), Plus(c, d)) == Plus(Plus(a, c), Plus(b, d))
  {
  }

  lemma {:induction false} SumOfWorths(sc: Scoring, m: Match, teams: seq<nat>)
    requires NoDuplicates(teams)
    ensures SumOver(WorthOf(sc, m), teams) == Share(sc, m, teams)
  {
    if teams != [] {
      var init, last := teams[..|teams| - 1], teams[|teams| - 1];
      SumOfWorths(sc, m, init);
      assert teams == init + [last];
      ShareOfOneMore(sc, m, init, last);
    }
  }

  lemma {:induction false} SumOfZeros(tally: nat -> Tally, teams: seq<nat>)
    requires forall t: nat :: tally(t) == Zero()
    ensures SumOver(tally, teams) == Zero()
  {
    if teams != [] {
      var last := teams[|teams| - 1];
      SumOfZeros(tally, teams[..|teams| - 1]);
      assert SumOver(tally, teams) == Plus(Zero(), tally(last));
    }
  }

  predicate Balanced(t: Tally) {
    t.wins == t.losses && t.goalsFor == t.goalsAgainst
  }

  ghost predicate ListsPlayers(teams: seq<nat>, ms: seq<Match>) {
    NoDuplicates(teams) && forall t: nat :: Plays(ms, t) ==> t in teams
  }

  lemma ShareIsBalanced(sc: Scoring, m: Match, teams: seq<nat>)
    requires Rated(m) ==> m.home.value in teams && m.away.value in teams
    ensures Balanced(Share(sc, m, teams))
  {
  }

  lemma StillListsPlayers(teams: seq<nat>, init: seq<Match>, m: Match)
    requires ListsPlayers(teams, init + [m])
    ensures ListsPlayers(teams, init)
    ensures Rated(m) ==> m.home.value in teams && m.away.value in teams
  {
    forall t: nat | Plays(init, t) ensures t in teams {
      var x :| x in init && Involves(x, t);
      assert x in init + [m];
    }
    if Rated(m) {
      assert m in init + [m] && Involves(m, m.home.value) && Involves(m, m.away.value);
    }
  }

  lemma BalancedPlus(a: Tally, b: Tally)
    requires Balanced(a) && Balanced(b)
    ensures Balanced(Plus(a, b))
  {
  }

  lemma SumsGrow(sc: Scoring, init: seq<Match>, m: Match, teams: seq<nat>)
    requires NoDuplicates(teams)
    ensures SumOver(Tallies(sc, init + [m]), teams) == Plus(SumOver(Tallies(sc, init), teams), Share(sc, m, teams))
  {
    assert (init + [m])[..|init|] == init;
    SumOfWorths(sc, m, teams);
    SumOfSums(Tallies(sc, init), WorthOf(sc, m), Tallies(sc, init + [m]), teams);
  }

  /** Every win is another side's loss and every goal scored is conceded by the other side. */
  lemma {:induction false} WinsBalanceLosses(sc: Scoring, ms: seq<Match>, teams: seq<nat>)
    requires ListsPlayers(teams, ms)
    ensures Balanced(SumOver(Tallies(sc, ms), teams))
  {
    if ms == [] {
      SumOfZeros(Tallies(sc, ms), teams);
    } else {
      var init, m := ms[..|ms| - 1], ms[|ms| - 1];
      assert ms == init + [m];
      StillListsPlayers(teams, init, m);
      WinsBalanceLosses(sc, init, teams);
      ShareIsBalanced(sc, m, teams);
      SumsGrow(sc, init, m, teams);
      BalancedPlus(SumOver(Tallies(sc, init), teams), Share(sc, m, teams));
    }
  }

  /** Over the teams of a table. */
  lemma TableBalances(sc: Scoring, ms: seq<Match>)
    ensures Balanced(SumOver(Tallies(sc, ms), Vals(Table(sc, ms))))
  {
    TableLists(sc, ms);
    WinsBalanceLosses(sc, ms, Vals(Table(sc, ms)));
  }

  // ---- The table ----

  lemma TableTeams(sc: Scoring, ms: seq<Match>)
    ensures multiset(Vals(Table(sc, ms))) == multiset(FirstSeen(ms))
  {
    var entries := Entries(sc, ms, FirstSeen(ms));
    SortedVals(entries);
    assert Vals(entries) == FirstSeen(ms);
  }

  lemma TableKeys(sc: Scoring, ms: seq<Match>)
    ensures forall i :: 0 <= i < |Table(sc, ms)| ==> Table(sc, ms)[i].key == TableKey(TeamTally(sc, ms, Table(sc, ms)[i].val))
  {
    var entries := Entries(sc, ms, FirstSeen(ms));
    SortDescSorts(entries);
    forall i | 0 <= i < |Table(sc, ms)| ensures Table(sc, ms)[i].key == TableKey(TeamTally(sc, ms, Table(sc, ms)[i].val)) {
      assert Table(sc, ms)[i] in multiset(entries);
    }
  }

  /** The table lists exactly the rated teams, each once, ordered by points, goal difference and goals scored. */
  lemma TableLists(sc: Scoring, ms: seq<Match>)
    ensures NoDuplicates(Vals(Table(sc, ms))) && SortedDesc(Table(sc, ms))
    ensures forall t: nat :: t in Vals(Table(sc, ms)) <==> Plays(ms, t)
    ensures forall i :: 0 <= i < |Table(sc, ms)| ==> Table(sc, ms)[i].key == TableKey(TeamTally(sc, ms, Table(sc, ms)[i].val))
  {
    TableKeys(sc, ms);
    TableTeams(sc, ms);
    FirstSeenArePlayers(ms);
    SortDescSorts(Entries(sc, ms, FirstSeen(ms)));
    RearrangedNoDuplicates(FirstSeen(ms), Vals(Table(sc, ms)));
    assert forall t: nat :: t in Vals(Table(sc, ms)) <==> t in multiset(Vals(Table(sc, ms)));
    assert forall t: nat :: t in FirstSeen(ms) <==> t in multiset(FirstSeen(ms));
  }

  lemma KeyOrder(a: Tally, b: Tally)
    requires LexLe(TableKey(b), TableKey(a))
    ensures a.points >= b.points
    ensures a.points == b.points ==> a.goalsFor - a.goalsAgainst >= b.goalsFor - b.goalsAgainst
    ensures a.points == b.points && a.goalsFor - a.goalsAgainst == b.goalsFor - b.goalsAgainst ==> a.goalsFor >= b.goalsFor
  {
    var x, y := TableKey(a), TableKey(b);
    assert x[1..] == [x[1], x[2]] && y[1..] == [y[1], y[2]];
    assert x[1..][1..] == [x[2]] && y[1..][1..] == [y[2]];
    assert LexLe([y[2]], [x[2]]) ==> y[2] <= x[2];
  }

  /** Of two rows the upper one has more points; with the same points the better difference of goals scored and conceded, which is
      the one it shows; and with the same difference too, at least as many goals scored. */
  lemma UpperRowIsBetter(rows: seq<TeamStanding>, sc: Scoring, ms: seq<Match>, i: nat, j: nat)
    requires ShowsTable(rows, sc, ms) && i < j < |rows|
    ensures var a, b := rows[i], rows[j];
            && a.goalDifference == a.goalsFor - a.goalsAgainst
            && a.points >= b.points
            && (a.points == b.points ==> a.goalDifference >= b.goalsFor - b.goalsAgainst)
            && (a.points == b.points && a.goalDifference == b.goalsFor - b.goalsAgainst ==> a.goalsFor >= b.goalsFor)
  {
    TableLists(sc, ms);
    var table := Table(sc, ms);
    var a, b := TeamTally(sc, ms, rows[i].team), TeamTally(sc, ms, rows[j].team);
    assert rows[i].Numbers() == a && rows[j].Numbers() == b;
    assert table[i].key == TableKey(a) && table[j].key == TableKey(b);
    assert RowKey(rows[i])[1] == table[i].key[1];
    KeyOrder(a, b);
  }

  /** In a match of two different teams the side with more goals gains a win and the other a loss. */
  lemma WinnerGains(sc: Scoring, ms: seq<Match>, m: Match)
    requires Rated(m) && m.home != m.away
    ensures var home, away, x, y := m.home.value, m.away.value, m.homeScore.value, m.awayScore.value;
            && TeamTally(sc, ms + [m], home).wins == TeamTally(sc, ms, home).wins + (if x > y then 1 else 0)
            && TeamTally(sc, ms + [m], away).wins == TeamTally(sc, ms, away).wins + (if y > x then 1 else 0)
            && TeamTally(sc, ms + [m], home).losses == TeamTally(sc, ms, home).losses + (if x < y then 1 else 0)
            && TeamTally(sc, ms + [m], away).losses == TeamTally(sc, ms, away).losses + (if y < x then 1 else 0)
  {
    assert (ms + [m])[..|ms|] == ms;
  }

  // ---- The order of the matches ----

  function Total(worth: Match -> Tally, ms: seq<Match>): Tally {
    if ms == [] then Zero() else Plus(Total(worth, ms[..|ms| - 1]), worth(ms[|ms| - 1]))
  }

  lemma {:induction false} TotalWithout(worth: Match -> Tally, ms: seq<Match>, i: nat)
    requires i < |ms|
    ensures Total(worth, ms) == Plus(Total(worth, ms[..i] + ms[i + 1..]), worth(ms[i]))
  {
    var n := |ms| - 1;
    var rest := ms[..i] + ms[i + 1..];
    if i < n {
      TotalWithout(worth, ms[..n], i);
      assert rest[..n - 1] == ms[..n][..i] + ms[..n][i + 1..];
      PlusSwaps(Total(worth, rest[..n - 1]), worth(ms[i]), worth(ms[n]));
    } else {
      assert rest == ms[..n];
    }
  }

  lemma {:induction false} TotalIgnoresOrder(worth: Match -> Tally, a: seq<Match>, b: seq<Match>)
    requires multiset(a) == multiset(b)
    ensures Total(worth, a) == Total(worth, b)
  {
    if a == [] {
      assert |multiset(b)| == 0;
    } else {
      var i := RemoveLast(a, b);
      TotalIgnoresOrder(worth, a[..|a| - 1], b[..i] + b[i + 1..]);
      TotalWithout(worth, b, i);
    }
  }

  ghost function WorthTo(sc: Scoring, team: nat): Match -> Tally {
    m => Worth(sc, m, team)
  }

  lemma {:induction false} TallyIsTotal(sc: Scoring, ms: seq<Match>, team: nat)
    ensures TeamTally(sc, ms, team) == Total(WorthTo(sc, team), ms)
  {
    if ms != [] {
      TallyIsTotal(sc, ms[..|ms| - 1], team);
    }
  }

  /** Permuting the matches changes no team's numbers. */
  lemma TallyIgnoresOrder(sc: Scoring, a: seq<Match>, b: seq<Match>, team: nat)
    requires multiset(a) == multiset(b)
    ensures TeamTally(sc, a, team) == TeamTally(sc, b, team)
  {
    TallyIsTotal(sc, a, team);
    TallyIsTotal(sc, b, team);
    TotalIgnoresOrder(WorthTo(sc, team), a, b);
  }

  lemma SamePlayers(a: seq<Match>, b: seq<Match>)
    requires multiset(a) == multiset(b)
    ensures forall t: nat :: Plays(a, t) <==> Plays(b, t)
  {
    assert forall m :: m in a <==> m in multiset(a);
    assert forall m :: m in b <==> m in multiset(b);
  }

  lemma {:induction false} SameMembers(a: seq<nat>, b: seq<nat>)
    requires NoDuplicates(a) && NoDuplicates(b) && forall t: nat :: t in a <==> t in b
    ensures multiset(a) == multiset(b)
  {
    forall t: nat ensures multiset(a)[t] == multiset(b)[t] {
      OccursOnce(a, t);
      OccursOnce(b, t);
      assert t in a <==> t in multiset(a);
      assert t in b <==> t in multiset(b);
    }
  }

  ghost function KeysOf(tally: nat -> Tally, teams: seq<nat>): (r: seq<Key>)
    ensures |r| == |teams| && forall i :: 0 <= i < |teams| ==> r[i] == TableKey(tally(teams[i]))
  {
    seq(|teams|, i requires 0 <= i < |teams| => TableKey(tally(teams[i])))
  }

  lemma {:induction false} KeysFollowTeams(tally: nat -> Tally, a: seq<nat>, b: seq<nat>)
    requires multiset(a) == multiset(b)
    ensures multiset(KeysOf(tally, a)) == multiset(KeysOf(tally, b))
  {
    if a == [] {
      assert |multiset(b)| == 0;
    } else {
      var i := RemoveLast(a, b);
      KeysFollowTeams(tally, a[..|a| - 1], b[..i] + b[i + 1..]);
      var ka, kb := KeysOf(tally, a), KeysOf(tally, b);
      assert ka == KeysOf(tally, a[..|a| - 1]) + [ka[|a| - 1]];
      assert kb == kb[..i] + ([kb[i]] + kb[i + 1..]);
      assert KeysOf(tally, b[..i] + b[i + 1..]) == kb[..i] + kb[i + 1..];
    }
  }

  /** Permuting the matches keeps the teams and the key at every place of the table, so it can only swap teams that are level. */
  lemma TableIgnoresOrder(sc: Scoring, a: seq<Match>, b: seq<Match>)
    requires multiset(a) == multiset(b)
    ensures multiset(Vals(Table(sc, a))) == multiset(Vals(Table(sc, b)))
    ensures Keys(Table(sc, a)) == Keys(Table(sc, b))
  {
    var ta, tb := Vals(Table(sc, a)), Vals(Table(sc, b));
    TableLists(sc, a);
    TableLists(sc, b);
    SamePlayers(a, b);
    SameMembers(ta, tb);
    forall t: nat ensures Tallies(sc, a)(t) == Tallies(sc, b)(t) {
      TallyIgnoresOrder(sc, a, b, t);
    }
    KeysFollowTeams(Tallies(sc, a), ta, tb);
    assert Keys(Table(sc, a)) == KeysOf(Tallies(sc, a), ta);
    assert Keys(Table(sc, b)) == KeysOf(Tallies(sc, a), tb);
    SortedKeysUnique(Keys(Table(sc, a)), Keys(Table(sc, b)));
  }
}
