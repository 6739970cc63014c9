/** What the qualification rules promise, alone and on computed standings. */
module QualificationFacts {
  import opened Common
  import opened StableSort
  import opened Standings
  import opened Qualification
  import Formula
  import FormulaGrammar
  import FormulaLaws
  import StandingsFacts

  // ---- Top n ----

  /** The split cuts one descending list: no eliminated team has a better key than a qualified one. */
  lemma TopSplitIsBest<T>(teams: seq<Keyed<T>>, keep: seq<bool>, n: int)
    requires |keep| == |teams|
    ensures var s, sorted := TopSplit(teams, keep, n), SortDesc(Pick(teams, keep));
            && Vals(sorted) == s.qualified + s.eliminated
            && SortedDesc(sorted) && Stable(Pick(teams, keep), sorted)
            && |s.qualified| == SliceEnd(n, |Pick(teams, keep)|)
            && multiset(s.qualified) + multiset(s.eliminated) == multiset(Pick(Vals(teams), keep))
  {
    SortDescSorts(Pick(teams, keep));
    TopSplitChooses(teams, keep, n);
    TopSplitCuts(teams, keep, n);
  }

  lemma TopSplitCuts<T>(teams: seq<Keyed<T>>, keep: seq<bool>, n: int)
    requires |keep| == |teams|
    ensures var s := TopSplit(teams, keep, n);
            && Vals(SortDesc(Pick(teams, keep))) == s.qualified + s.eliminated
            && |s.qualified| == SliceEnd(n, |Pick(teams, keep)|)
  {
    SortDescSorts(Pick(teams, keep));
    var all := Vals(SortDesc(Pick(teams, keep)));
    assert |all| == |Pick(teams, keep)|;
    assert all[..SliceEnd(n, |all|)] + all[SliceEnd(n, |all|)..] == all;
  }

  lemma QualifiedBeatEliminated<T>(teams: seq<Keyed<T>>, keep: seq<bool>, n: int, i: nat, j: nat) returns (a: nat, b: nat)
    requires |keep| == |teams|
    requires i < |TopSplit(teams, keep, n).qualified| && j < |TopSplit(teams, keep, n).eliminated|
    ensures a < |teams| && teams[a].val == TopSplit(teams, keep, n).qualified[i]
    ensures b < |teams| && teams[b].val == TopSplit(teams, keep, n).eliminated[j]
    ensures LexLe(teams[b].key, teams[a].key)
  {
    var s, sorted := TopSplit(teams, keep, n), SortDesc(Pick(teams, keep));
    TopSplitIsBest(teams, keep, n);
    a := SortedComesFrom(teams, keep, i);
    b := SortedComesFrom(teams, keep, |s.qualified| + j);
    assert Vals(sorted)[i] == s.qualified[i] && Vals(sorted)[|s.qualified| + j] == s.eliminated[j];
  }

  lemma SortedComesFrom<T>(teams: seq<Keyed<T>>, keep: seq<bool>, p: nat) returns (a: nat)
    requires |keep| == |teams| && p < |SortDesc(Pick(teams, keep))|
    ensures a < |teams| && teams[a] == SortDesc(Pick(teams, keep))[p]
  {
    var picked, sorted := Pick(teams, keep), SortDesc(Pick(teams, keep));
    SortDescSorts(picked);
    assert sorted[p] in multiset(picked);
    var m :| 0 <= m < |picked| && picked[m] == sorted[p];
    PickWithin(teams, keep);
    a :| 0 <= a < |teams| && teams[a] == picked[m];
  }

  /** Top n divides exactly the teams with enough matches; n of them qualify, or all if there are fewer, and no eliminated team
      has a lexicographically greater key than a qualified one. */
  lemma TopNChoosesBest(ar: Formula.Arithmetic, standings: seq<TeamStanding>, n: int, sortBy: seq<Stat>, minPlayed: int)
    ensures var eligible := Pick(standings, PlayedEnough(standings, minPlayed));
            var s := Decision(ar, standings, TopN(n, sortBy, minPlayed)).value;
            && multiset(s.qualified) + multiset(s.eliminated) == multiset(eligible)
            && |s.qualified| == (if n >= 0 then Min(n, |eligible|) else Max(0, |eligible| + n))
            && (forall i, j :: 0 <= i < |s.qualified| && 0 <= j < |s.eliminated| ==>
                  LexLe(SortKey(s.eliminated[j], sortBy), SortKey(s.qualified[i], sortBy)))
  {
    var teams, keep := KeyedBy(standings, sortBy), PlayedEnough(standings, minPlayed);
    var s := TopSplit(teams, keep, n);
    assert Vals(teams) == standings;
    TopSplitIsBest(teams, keep, n);
    PickVals(teams, keep);
    forall i, j | 0 <= i < |s.qualified| && 0 <= j < |s.eliminated|
      ensures LexLe(SortKey(s.eliminated[j], sortBy), SortKey(s.qualified[i], sortBy))
    {
      var a, b := QualifiedBeatEliminated(teams, keep, n, i, j);
    }
  }

  lemma TopSplitOfSorted<T>(teams: seq<Keyed<T>>, keep: seq<bool>, n: int)
    requires |keep| == |teams| && SortedDesc(teams) && forall i :: 0 <= i < |keep| ==> keep[i]
    ensures TopSplit(teams, keep, n) == Split(Vals(teams)[..SliceEnd(n, |teams|)], Vals(teams)[SliceEnd(n, |teams|)..])
  {
    PickAll(teams, keep);
    SortedIsFixed(teams);
  }

  /** On rows already in descending order of these keys the sort moves nothing: the first rows qualify. */
  lemma TopNOfSorted(ar: Formula.Arithmetic, standings: seq<TeamStanding>, n: int, sortBy: seq<Stat>, minPlayed: int)
    requires SortedDesc(KeyedBy(standings, sortBy)) && forall s :: s in standings ==> s.played >= minPlayed
    ensures var k := SliceEnd(n, |standings|);
            Decision(ar, standings, TopN(n, sortBy, minPlayed)) == Ok(Split(standings[..k], standings[k..]))
  {
    var teams, keep := KeyedBy(standings, sortBy), PlayedEnough(standings, minPlayed);
    assert Vals(teams) == standings;
    assert forall i :: 0 <= i < |keep| ==> standings[i] in standings && keep[i];
    TopSplitOfSorted(teams, keep, n);
  }

  lemma SingleKeys(x: real, y: real)
    ensures LexLe([x], [y]) <==> x <= y
  {
    assert [x][1..] == [];
  }

  lemma QualifiedHaveMore(ar: Formula.Arithmetic, standings: seq<TeamStanding>, n: int, stat: Stat, minPlayed: int, i: nat, j: nat)
    requires var s := Decision(ar, standings, TopN(n, [stat], minPlayed)).value; i < |s.qualified| && j < |s.eliminated|
    ensures var s := Decision(ar, standings, TopN(n, [stat], minPlayed)).value;
            StatOf(s.eliminated[j], stat) <= StatOf(s.qualified[i], stat)
  {
    TopNChoosesBest(ar, standings, n, [stat], minPlayed);
    var s := Decision(ar, standings, TopN(n, [stat], minPlayed)).value;
    var q, e := s.qualified[i], s.eliminated[j];
    assert SortKey(q, [stat]) == [StatOf(q, stat)] && SortKey(e, [stat]) == [StatOf(e, stat)];
    SingleKeys(StatOf(e, stat), StatOf(q, stat));
  }

  /** Sorted by one attribute, no eliminated team has more of it than a qualified one; an unknown attribute orders nothing. */
  lemma TopNByOne(ar: Formula.Arithmetic, standings: seq<TeamStanding>, n: int, stat: Stat, minPlayed: int, i: nat, j: nat)
    requires var s := Decision(ar, standings, TopN(n, [stat], minPlayed)).value; i < |s.qualified| && j < |s.eliminated|
    ensures var s := Decision(ar, standings, TopN(n, [stat], minPlayed)).value;
            var q, e := s.qualified[i], s.eliminated[j];
            && (stat == Played ==> e.played <= q.played)
            && (stat == Wins ==> e.wins <= q.wins)
            && (stat == Draws ==> e.draws <= q.draws)
            && (stat == Losses ==> e.losses <= q.losses)
            && (stat == GoalsFor ==> e.goalsFor <= q.goalsFor)
            && (stat == GoalsAgainst ==> e.goalsAgainst <= q.goalsAgainst)
            && (stat == GoalDifference ==> e.goalDifference <= q.goalDifference)
            && (stat == Points ==> e.points <= q.points)
            && (stat == HoursPlayed ==> e.hoursPlayed <= q.hoursPlayed)
  {
    QualifiedHaveMore(ar, standings, n, stat, minPlayed, i, j);
  }

  // ---- Formula and hours ----

  /** A team qualifies if and only if it passes, is eliminated if and only if it does not, and the qualified are ordered by
      key. */
  lemma PartSplitMeaning<T>(teams: seq<Keyed<T>>, keep: seq<bool>)
    requires |keep| == |teams| && NoDuplicates(Vals(teams))
    ensures var s := PartSplit(teams, keep);
            && (forall i :: 0 <= i < |teams| ==>
                  (teams[i].val in s.qualified <==> keep[i]) && (teams[i].val in s.eliminated <==> !keep[i]))
            && s.qualified == Vals(SortDesc(Pick(teams, keep))) && SortedDesc(SortDesc(Pick(teams, keep)))
  {
    var s := PartSplit(teams, keep);
    SortDescSorts(Pick(teams, keep));
    PartSplitDivides(teams, keep);
    PartsDiffer(s.qualified, s.eliminated);
    PartsWithin(s.qualified, s.eliminated, Vals(teams));
    SortedVals(Pick(teams, keep));
    PickVals(teams, keep);
    forall i | 0 <= i < |teams| ensures keep[i] ==> teams[i].val in s.qualified {
      if keep[i] {
        KeptIsPicked(Vals(teams), keep, i);
        assert teams[i].val in multiset(Pick(Vals(teams), keep));
        assert teams[i].val in multiset(s.qualified);
      }
    }
    forall i | 0 <= i < |teams| ensures !keep[i] ==> teams[i].val in s.eliminated {
      if !keep[i] {
        DroppedIsDropped(Vals(teams), keep, i);
      }
    }
  }

  /** The qualified teams in order, with their keys. */
  lemma QualifiedInOrder<T>(teams: seq<Keyed<T>>, keep: seq<bool>) returns (sorted: seq<Keyed<T>>)
    requires |keep| == |teams|
    ensures SortedDesc(sorted) && PartSplit(teams, keep).qualified == Vals(sorted)
    ensures forall i :: 0 <= i < |sorted| ==> sorted[i] in teams
  {
    sorted := SortDesc(Pick(teams, keep));
    SortDescSorts(Pick(teams, keep));
    PickWithin(teams, keep);
    forall i | 0 <= i < |sorted| ensures sorted[i] in teams {
      assert sorted[i] in multiset(Pick(teams, keep));
    }
  }

  lemma {:induction false} KeptIsPicked<T>(xs: seq<T>, keep: seq<bool>, i: nat)
    requires |keep| == |xs| && i < |xs| && keep[i]
    ensures xs[i] in Pick(xs, keep)
  {
    if i < |xs| - 1 {
      KeptIsPicked(xs[..|xs| - 1], keep[..|xs| - 1], i);
    }
  }

  lemma {:induction false} DroppedIsDropped<T>(xs: seq<T>, keep: seq<bool>, i: nat)
    requires |keep| == |xs| && i < |xs| && !keep[i]
    ensures xs[i] in Drop(xs, keep)
  {
    if i < |xs| - 1 {
      DroppedIsDropped(xs[..|xs| - 1], keep[..|xs| - 1], i);
    }
  }

  lemma FormulaDivides(ar: Formula.Arithmetic, standings: seq<TeamStanding>, ts: seq<Formula.Token>, threshold: real,
                       op: Comparison)
    requires NoDuplicates(standings) && Decision(ar, standings, ByFormula(ts, threshold, op)).Ok?
    ensures var s := Decision(ar, standings, ByFormula(ts, threshold, op)).value;
            && multiset(s.qualified) + multiset(s.eliminated) == multiset(standings)
            && (forall i :: 0 <= i < |standings| ==>
                  var score := Score(ar, ts, standings[i]);
                  && score.Ok?
                  && (standings[i] in s.qualified <==> Compares(op, score.value, threshold))
                  && (standings[i] in s.eliminated <==> !Compares(op, score.value, threshold)))
  {
    var scores := Scores(ar, ts, standings);
    var teams, keep := KeyedScores(standings, scores), Passing(scores, op, threshold);
    assert Vals(teams) == standings;
    PartSplitDivides(teams, keep);
    PartSplitMeaning(teams, keep);
    NoFailureMeansOk(scores);
    assert forall i :: 0 <= i < |standings| ==> teams[i].val == standings[i];
  }

  /** A formula rule divides all teams: those whose score compares well with the threshold qualify, and all others are
      eliminated. */
  lemma FormulaChooses(ar: Formula.Arithmetic, standings: seq<TeamStanding>, ts: seq<Formula.Token>, threshold: real,
                       op: Comparison, i: nat)
    requires NoDuplicates(standings) && Decision(ar, standings, ByFormula(ts, threshold, op)).Ok? && i < |standings|
    ensures Score(ar, ts, standings[i]).Ok?
    ensures var s, team, score := Decision(ar, standings, ByFormula(ts, threshold, op)).value, standings[i],
                                  Score(ar, ts, standings[i]).value;
            && (op == Ge ==> (team in s.qualified <==> score >= threshold))
            && (op == Gt ==> (team in s.qualified <==> score > threshold))
            && (op == Eq ==> (team in s.qualified <==> score == threshold))
            && (op == Le ==> (team in s.qualified <==> score <= threshold))
            && (op == Lt ==> (team in s.qualified <==> score < threshold))
            && (team in s.eliminated <==> team !in s.qualified)
  {
    FormulaDivides(ar, standings, ts, threshold, op);
  }

  lemma {:induction false} FirstFailureAt(scores: seq<Outcome>, i: nat)
    requires i < |scores| && scores[i].Err? && forall j :: 0 <= j < i ==> scores[j].Ok?
    ensures FirstFailure(scores) == Some(scores[i].error)
  {
    if i > 0 {
      FirstFailureAt(scores[1..], i - 1);
    }
  }

  /** A formula rule fails on an unknown comparison, and otherwise with the error of the first team whose formula has no value. */
  lemma FormulaFailsWithFirst(ar: Formula.Arithmetic, standings: seq<TeamStanding>, ts: seq<Formula.Token>, threshold: real,
                              op: Comparison, i: nat)
    requires i < |standings| && Score(ar, ts, standings[i]).Err?
    requires forall j :: 0 <= j < i ==> Score(ar, ts, standings[j]).Ok?
    ensures Decision(ar, standings, ByFormula(ts, threshold, op)) ==
              if op == OtherComparison then Err(UnknownComparison)
              else Err(FormulaFails(Score(ar, ts, standings[i]).error))
  {
    FirstFailureAt(Scores(ar, ts, standings), i);
  }

  /** The best score comes first. */
  lemma FormulaOrders(ar: Formula.Arithmetic, standings: seq<TeamStanding>, ts: seq<Formula.Token>, threshold: real, op: Comparison,
                      i: nat, j: nat)
    ensures var decision := Decision(ar, standings, ByFormula(ts, threshold, op));
            decision.Ok? && i < j < |decision.value.qualified| ==>
              Number(Score(ar, ts, decision.value.qualified[i])) >= Number(Score(ar, ts, decision.value.qualified[j]))
  {
    var scores := Scores(ar, ts, standings);
    var teams := KeyedScores(standings, scores);
    var sorted: seq<Keyed<TeamStanding>> := QualifiedInOrder(teams, Passing(scores, op, threshold));
    if i < j < |sorted| {
      var p :| 0 <= p < |teams| && teams[p] == sorted[i];
      var q :| 0 <= q < |teams| && teams[q] == sorted[j];
      assert LexLe([Number(scores[q])], [Number(scores[p])]);
    }
  }

  lemma {:induction false} NoFailureMeansOk(scores: seq<Outcome>)
    requires FirstFailure(scores).None?
    ensures forall i :: 0 <= i < |scores| ==> scores[i].Ok?
  {
    if scores != [] {
      NoFailureMeansOk(scores[1..]);
      assert forall i :: 1 <= i < |scores| ==> scores[i] == scores[1..][i - 1];
    }
  }

  // ---- What names in a formula stand for ----

  /** A team's score under a printed formula is the value of the formula with the team's numbers for its names. */
  lemma ScoreIsValue(ar: Formula.Arithmetic, e: Formula.Expr, s: TeamStanding)
    requires FormulaGrammar.InGrammar(e)
    ensures Score(ar, FormulaGrammar.Show(e, 0), s) == FormulaLaws.Value(ar, e, TeamEnv(s))
  {
    var ts, env := FormulaGrammar.Show(e, 0), TeamEnv(s);
    FormulaGrammar.ParseShow(e);
    Formula.ParsedIsReadAsWritten(ts, env);
    Formula.ResultIsMeaningIff(ar, ts, env);
  }

  lemma NameIsItsNumber(ar: Formula.Arithmetic, s: TeamStanding, name: string)
    ensures Score(ar, [Formula.Name(name)], s) == if name in VARIABLES then Ok(ValueOf(s, name)) else Err(Formula.UnsafeNode)
  {
    FormulaLaws.OperandsAreTheirNumbers(ar, 0.0, name, TeamEnv(s));
    assert FormulaGrammar.Show(Formula.Var(name), 0) == [Formula.Name(name)];
    ScoreIsValue(ar, Formula.Var(name), s);
  }

  /** The names, one by one. */
  lemma Variables()
    ensures forall k :: 0 <= k < 9 ==> VARIABLES[k] in VARIABLES
    ensures |VARIABLES| == 9
    ensures VARIABLES[0] == "goal_difference" && VARIABLES[1] == "goals_against" && VARIABLES[2] == "hours_played"
    ensures VARIABLES[3] == "goals_for" && VARIABLES[4] == "losses" && VARIABLES[5] == "points"
    ensures VARIABLES[6] == "played" && VARIABLES[7] == "draws" && VARIABLES[8] == "wins"
  {
  }

  /** The formula that is just the name of a result has the team's number of it. */
  lemma ResultNames(ar: Formula.Arithmetic, s: TeamStanding)
    ensures Score(ar, [Formula.Name("points")], s) == Ok(s.points as real)
    ensures Score(ar, [Formula.Name("played")], s) == Ok(s.played as real)
    ensures Score(ar, [Formula.Name("wins")], s) == Ok(s.wins as real)
    ensures Score(ar, [Formula.Name("draws")], s) == Ok(s.draws as real)
    ensures Score(ar, [Formula.Name("losses")], s) == Ok(s.losses as real)
  {
    Variables();
    NameIsItsNumber(ar, s, "points");
    NameIsItsNumber(ar, s, "played");
    NameIsItsNumber(ar, s, "wins");
    NameIsItsNumber(ar, s, "draws");
    NameIsItsNumber(ar, s, "losses");
  }

  /** The same for goals and hours. Without hours, a thousandth is taken for them, so that dividing by them does not fail. */
  lemma GoalAndHourNames(ar: Formula.Arithmetic, s: TeamStanding)
    ensures Score(ar, [Formula.Name("goals_for")], s) == Ok(s.goalsFor as real)
    ensures Score(ar, [Formula.Name("goals_against")], s) == Ok(s.goalsAgainst as real)
    ensures Score(ar, [Formula.Name("goal_difference")], s) == Ok(s.goalDifference as real)
    ensures Score(ar, [Formula.Name("hours_played")], s) == Ok(if s.hoursPlayed == 0.0 then 0.001 else s.hoursPlayed)
  {
    Variables();
    NameIsItsNumber(ar, s, "goals_for");
    NameIsItsNumber(ar, s, "goals_against");
    NameIsItsNumber(ar, s, "goal_difference");
    NameIsItsNumber(ar, s, "hours_played");
  }

  lemma PointsAndHours(s: TeamStanding)
    requires s.hoursPlayed == 0.0
    ensures var env := TeamEnv(s);
            && "points" in env && env["points"] == s.points as real && "hours_played" in env && env["hours_played"] == 0.001
  {
    Variables();
  }

  /** On a team without hours the formula `points / hours_played` never fails and is worth a thousand times the points. */
  lemma PointsPerHour(ar: Formula.Arithmetic, s: TeamStanding)
    requires FormulaLaws.IsExact(ar) && s.hoursPlayed == 0.0
    ensures Score(ar, [Formula.Name("points"), Formula.Sign(Formula.Divide), Formula.Name("hours_played")], s) ==
              Ok(1000.0 * s.points as real)
  {
    PointsAndHours(s);
    FormulaLaws.NamesDivided(ar, "points", "hours_played", TeamEnv(s));
    ScoreIsValue(ar, Formula.Binary(Formula.Divide, Formula.Var("points"), Formula.Var("hours_played")), s);
  }

  /** An hours rule divides all teams by the hours they played. */
  lemma MinHoursChooses(ar: Formula.Arithmetic, standings: seq<TeamStanding>, minHours: real)
    requires NoDuplicates(standings)
    ensures var s := Decision(ar, standings, MinHours(minHours)).value;
            && multiset(s.qualified) + multiset(s.eliminated) == multiset(standings)
            && (forall i :: 0 <= i < |standings| ==>
                  && (standings[i] in s.qualified <==> standings[i].hoursPlayed >= minHours)
                  && (standings[i] in s.eliminated <==> standings[i].hoursPlayed < minHours))
  {
    var teams, keep := KeyedBy(standings, [HoursPlayed]), LongEnough(standings, minHours);
    assert Vals(teams) == standings;
    assert Decision(ar, standings, MinHours(minHours)).value == PartSplit(teams, keep);
    PartSplitDivides(teams, keep);
    PartSplitMeaning(teams, keep);
    assert forall i :: 0 <= i < |standings| ==> teams[i].val == standings[i];
  }

  /** The longest hours come first. */
  lemma MinHoursOrders(ar: Formula.Arithmetic, standings: seq<TeamStanding>, minHours: real, i: nat, j: nat)
    requires i < j < |Decision(ar, standings, MinHours(minHours)).value.qualified|
    ensures var q := Decision(ar, standings, MinHours(minHours)).value.qualified; q[i].hoursPlayed >= q[j].hoursPlayed
  {
    var teams := KeyedBy(standings, [HoursPlayed]);
    var sorted: seq<Keyed<TeamStanding>> := QualifiedInOrder(teams, LongEnough(standings, minHours));
    var p :| 0 <= p < |teams| && teams[p] == sorted[i];
    var q :| 0 <= q < |teams| && teams[q] == sorted[j];
    assert LexLe(SortKey(standings[q], [HoursPlayed]), SortKey(standings[p], [HoursPlayed]));
  }

  /** The calculator never sets the hours, so on computed standings an hours rule qualifies everyone, unchanged, or nobody. */
  lemma MinHoursOnComputedRows(ar: Formula.Arithmetic, standings: seq<TeamStanding>, minHours: real)
    requires Unjudged(standings)
    ensures Decision(ar, standings, MinHours(minHours)) == Ok(if minHours <= 0.0 then Split(standings, [])
                                                                else Split([], standings))
  {
    var teams, keep := KeyedBy(standings, [HoursPlayed]), LongEnough(standings, minHours);
    assert Vals(teams) == standings;
    forall i | 0 <= i < |standings| ensures keep[i] == (0.0 >= minHours) && teams[i].key == [0.0] {
      assert standings[i] in standings;
      assert SortKey(standings[i], [HoursPlayed]) == [standings[i].hoursPlayed];
    }
    if minHours <= 0.0 {
      PartSplitKeepsAll(teams, keep);
    } else {
      PartSplitKeepsNone(teams, keep);
    }
  }

  lemma EqualHoursWin(ar: Formula.Arithmetic, rows: seq<TeamStanding>, minHours: real)
    requires Unjudged(rows)
    ensures FirstRowsWin(ar, rows, MinHours(minHours))
  {
    assert forall i :: 0 <= i < |rows| ==> rows[i] in rows && LongEnough(rows, minHours)[i] == (0.0 >= minHours);
  }

  lemma PartSplitKeepsAll<T>(teams: seq<Keyed<T>>, keep: seq<bool>)
    requires |keep| == |teams| && forall i :: 0 <= i < |teams| ==> teams[i].key == [0.0] && keep[i]
    ensures PartSplit(teams, keep) == Split(Vals(teams), [])
  {
    PickAll(teams, keep);
    DropNone(Vals(teams), keep);
    LexTotal([0.0], [0.0]);
    SortedIsFixed(teams);
  }

  lemma PartSplitKeepsNone<T>(teams: seq<Keyed<T>>, keep: seq<bool>)
    requires |keep| == |teams| && forall i :: 0 <= i < |teams| ==> !keep[i]
    ensures PartSplit(teams, keep) == Split([], Vals(teams))
  {
    PickNone(teams, keep);
    DropAll(Vals(teams), keep);
  }

  lemma {:induction false} DropNone<T>(xs: seq<T>, keep: seq<bool>)
    requires |keep| == |xs| && forall i :: 0 <= i < |xs| ==> keep[i]
    ensures Drop(xs, keep) == []
  {
    if xs != [] {
      DropNone(xs[..|xs| - 1], keep[..|xs| - 1]);
    }
  }

  lemma {:induction false} DropAll<T>(xs: seq<T>, keep: seq<bool>)
    requires |keep| == |xs| && forall i :: 0 <= i < |xs| ==> !keep[i]
    ensures Drop(xs, keep) == xs
  {
    if xs != [] {
      DropAll(xs[..|xs| - 1], keep[..|xs| - 1]);
    }
  }

  // ---- Ranks ----

  ghost predicate RanksDistinct(rows: seq<TeamStanding>)
    reads rows
  {
    forall i, j :: 0 <= i < j < |rows| ==> rows[i].rank != rows[j].rank
  }

  /** The rows have ranks 1, 2, … as computed, except that the qualified ones were ranked anew. */
  ghost predicate Reranked(rows: seq<TeamStanding>, qualified: seq<TeamStanding>)
    reads rows, qualified
  {
    && NoDuplicates(rows) && NoDuplicates(qualified)
    && (forall i :: 0 <= i < |qualified| ==> qualified[i] in rows && qualified[i].rank == Some(i + 1))
    && (forall i :: 0 <= i < |rows| && rows[i] !in qualified ==> rows[i].rank == Some(i + 1))
  }

  /** The qualified teams are the first rows, in whatever order. */
  ghost predicate AreFirst<T>(qualified: seq<T>, rows: seq<T>) {
    |qualified| <= |rows| && forall i :: 0 <= i < |qualified| ==> rows[i] in qualified
  }

  lemma DistinctIffFirst(rows: seq<TeamStanding>, qualified: seq<TeamStanding>)
    requires Reranked(rows, qualified)
    ensures |qualified| <= |rows|
    ensures RanksDistinct(rows) <==> AreFirst(qualified, rows)
  {
    SublistShorter(qualified, rows);
    if AreFirst(qualified, rows) {
      forall i, j | 0 <= i < j < |rows| ensures rows[i].rank != rows[j].rank {
        if rows[i] in qualified && rows[j] in qualified {
          var p :| 0 <= p < |qualified| && qualified[p] == rows[i];
          var q :| 0 <= q < |qualified| && qualified[q] == rows[j];
        } else if rows[i] in qualified {
          var p :| 0 <= p < |qualified| && qualified[p] == rows[i];
        } else if rows[j] in qualified {
          var q :| 0 <= q < |qualified| && qualified[q] == rows[j];
        }
      }
    } else {
      var i :| 0 <= i < |qualified| && rows[i] !in qualified;
      var j :| 0 <= j < |rows| && rows[j] == qualified[i];
      assert rows[i].rank == rows[j].rank;
    }
  }

  // ---- When the qualified teams are the first rows, in terms of the rows before the rule is applied ----

  predicate PrefixClosed(keep: seq<bool>) {
    forall i, j :: 0 <= i < j < |keep| && keep[j] ==> keep[i]
  }

  /** A list that starts with the teams of q, in any order, has none of them later on. */
  lemma LaterIsNotFirst<T>(vals: seq<T>, q: seq<T>, r: nat, j: nat)
    requires NoDuplicates(vals) && AreFirst(q, vals) && r < |q| <= j < |vals|
    ensures q[r] != vals[j]
  {
    SameSizeSameElements(vals[..|q|], q, r);
    assert q[r] in vals[..|q|];
  }

  lemma PrefixIsFirst<T>(teams: seq<Keyed<T>>, keep: seq<bool>)
    requires |keep| == |teams| && NoDuplicates(Vals(teams)) && PrefixClosed(keep)
    ensures AreFirst(PartSplit(teams, keep).qualified, Vals(teams))
  {
    var s, vals := PartSplit(teams, keep), Vals(teams);
    var q := s.qualified;
    PartSplitMeaning(teams, keep);
    PartSplitDivides(teams, keep);
    PartsDiffer(q, s.eliminated);
    PartsWithin(q, s.eliminated, vals);
    SublistShorter(q, vals);
    forall i | 0 <= i < |q| ensures vals[i] in q {
      if !keep[i] {
        forall p | 0 <= p < |q| ensures q[p] in vals[..i] {
          var m :| 0 <= m < |vals| && vals[m] == q[p];
          assert teams[m].val in q && keep[m] && m < i;
          assert vals[..i][m] == q[p];
        }
        SublistShorter(q, vals[..i]);
      }
      assert teams[i].val in q <==> keep[i];
    }
  }

  lemma FirstIsPrefix<T>(teams: seq<Keyed<T>>, keep: seq<bool>)
    requires |keep| == |teams| && NoDuplicates(Vals(teams)) && AreFirst(PartSplit(teams, keep).qualified, Vals(teams))
    ensures PrefixClosed(keep)
  {
    var q, vals := PartSplit(teams, keep).qualified, Vals(teams);
    PartSplitMeaning(teams, keep);
    forall i, j | 0 <= i < j < |keep| && keep[j] ensures keep[i] {
      assert teams[j].val in q;
      var p :| 0 <= p < |q| && q[p] == vals[j];
      if j >= |q| {
        LaterIsNotFirst(vals, q, p, j);
      }
      assert vals[i] in q && teams[i].val in q;
    }
  }

  lemma PartFirstIff<T>(teams: seq<Keyed<T>>, keep: seq<bool>)
    requires |keep| == |teams| && NoDuplicates(Vals(teams))
    ensures AreFirst(PartSplit(teams, keep).qualified, Vals(teams)) <==> PrefixClosed(keep)
  {
    if PrefixClosed(keep) {
      PrefixIsFirst(teams, keep);
    } else if AreFirst(PartSplit(teams, keep).qualified, Vals(teams)) {
      FirstIsPrefix(teams, keep);
    }
  }

  /** The first k teams are kept and no kept team after them has a greater key than one of them. */
  predicate Dominate<T>(teams: seq<Keyed<T>>, keep: seq<bool>, k: nat)
    requires |keep| == |teams| && k <= |teams|
  {
    && (forall i :: 0 <= i < k ==> keep[i])
    && forall i, j :: 0 <= i < k <= j < |teams| && keep[j] ==> LexLe(teams[j].key, teams[i].key)
  }

  lemma {:induction false} PickKeepsPrefix<T>(xs: seq<T>, keep: seq<bool>, k: nat)
    requires |keep| == |xs| && k <= |xs| && forall i :: 0 <= i < k ==> keep[i]
    ensures k <= |Pick(xs, keep)| && Pick(xs, keep)[..k] == xs[..k]
  {
    if k == |xs| {
      PickAll(xs, keep);
    } else {
      var n := |xs| - 1;
      PickKeepsPrefix(xs[..n], keep[..n], k);
      assert Pick(xs, keep)[..k] == Pick(xs[..n], keep[..n])[..k];
      assert xs[..n][..k] == xs[..k];
    }
  }

  lemma {:induction false} PickedBeyond<T>(xs: seq<T>, keep: seq<bool>, k: nat, p: nat) returns (j: nat)
    requires |keep| == |xs| && k <= |xs| && k <= p < |Pick(xs, keep)| && forall i :: 0 <= i < k ==> keep[i]
    ensures k <= j < |xs| && keep[j] && xs[j] == Pick(xs, keep)[p]
  {
    var n := |xs| - 1;
    if p < |Pick(xs[..n], keep[..n])| {
      if k == |xs| {
        PickAll(xs[..n], keep[..n]);
        assert false;
      }
      j := PickedBeyond(xs[..n], keep[..n], k, p);
    } else {
      if k == |xs| {
        PickAll(xs, keep);
        assert false;
      }
      j := n;
    }
  }

  lemma DominatingTeamsQualify<T>(teams: seq<Keyed<T>>, keep: seq<bool>, n: int, k: nat)
    requires |keep| == |teams| && k == |TopSplit(teams, keep, n).qualified| && k <= |teams| && Dominate(teams, keep, k)
    ensures AreFirst(TopSplit(teams, keep, n).qualified, Vals(teams))
  {
    var picked := Pick(teams, keep);
    PickKeepsPrefix(teams, keep, k);
    var a, b := picked[..k], picked[k..];
    assert picked == a + b;
    forall i, j | 0 <= i < |a| && 0 <= j < |b| ensures LexLe(b[j].key, a[i].key) {
      var m := PickedBeyond(teams, keep, k, k + j);
      assert b[j] == teams[m] && a[i] == teams[i];
    }
    SortInParts(a, b);
    SortDescSorts(a);
    var q := TopSplit(teams, keep, n).qualified;
    assert q == Vals(SortDesc(a)) by {
      assert Vals(SortDesc(a) + SortDesc(b))[..k] == Vals(SortDesc(a));
    }
    SortedVals(a);
    forall i | 0 <= i < k ensures Vals(teams)[i] in q {
      assert Vals(a)[i] == teams[i].val;
      assert Vals(a)[i] in multiset(Vals(a));
    }
  }

  lemma FirstTeamsDominate<T>(teams: seq<Keyed<T>>, keep: seq<bool>, n: int)
    requires |keep| == |teams| && NoDuplicates(Vals(teams)) && AreFirst(TopSplit(teams, keep, n).qualified, Vals(teams))
    ensures Dominate(teams, keep, |TopSplit(teams, keep, n).qualified|)
  {
    var s, vals, sorted := TopSplit(teams, keep, n), Vals(teams), SortDesc(Pick(teams, keep));
    var q, k := s.qualified, |s.qualified|;
    TopSplitIsBest(teams, keep, n);
    TopSplitNoDuplicates(teams, keep, n);
    PartsDiffer(q, s.eliminated);
    PartsWithin(q, s.eliminated, Pick(vals, keep));
    forall i | 0 <= i < k ensures keep[i] {
      var p :| 0 <= p < k && q[p] == vals[i];
      assert vals[i] in Pick(vals, keep);
      PickMembers(vals, keep);
      var m :| 0 <= m < |vals| && keep[m] && vals[m] == vals[i];
    }
    forall i, j | 0 <= i < k <= j < |teams| && keep[j] ensures LexLe(teams[j].key, teams[i].key) {
      var p := PlaceOf(teams, keep, i);
      var r := PlaceOf(teams, keep, j);
      assert Vals(sorted)[p] == vals[i] && Vals(sorted)[r] == vals[j];
      if r < k {
        LaterIsNotFirst(vals, q, r, j);
      }
      var h :| 0 <= h < k && q[h] == vals[i];
      assert Vals(sorted)[h] == vals[i];
      assert sorted[h].val == sorted[p].val;
      SortedValsDistinct(teams, keep);
      assert h == p;
    }
  }

  lemma SortedValsDistinct<T>(teams: seq<Keyed<T>>, keep: seq<bool>)
    requires |keep| == |teams| && NoDuplicates(Vals(teams))
    ensures NoDuplicates(Vals(SortDesc(Pick(teams, keep))))
  {
    PickVals(teams, keep);
    PickNoDuplicates(Vals(teams), keep);
    SortedVals(Pick(teams, keep));
    RearrangedNoDuplicates(Vals(Pick(teams, keep)), Vals(SortDesc(Pick(teams, keep))));
  }

  /** Where a kept team stands in the sorted list. */
  lemma PlaceOf<T>(teams: seq<Keyed<T>>, keep: seq<bool>, i: nat) returns (p: nat)
    requires |keep| == |teams| && i < |teams| && keep[i]
    ensures p < |SortDesc(Pick(teams, keep))| && SortDesc(Pick(teams, keep))[p] == teams[i]
  {
    var sorted := SortDesc(Pick(teams, keep));
    SortDescSorts(Pick(teams, keep));
    KeptIsPicked(teams, keep, i);
    assert teams[i] in multiset(Pick(teams, keep));
    assert teams[i] in multiset(sorted);
    p :| 0 <= p < |sorted| && sorted[p] == teams[i];
  }

  /** What can be read off the rows before a rule is applied: passing rows stand above failing ones; for top n, the first rows
      have enough matches and no later row that has enough gets a greater key. */
  ghost predicate FirstRowsWin(ar: Formula.Arithmetic, rows: seq<TeamStanding>, rule: Rule)
    reads rows
  {
    match rule
    case TopN(n, sortBy, minPlayed) =>
      var keep := PlayedEnough(rows, minPlayed);
      var k := SliceEnd(n, |Pick(rows, keep)|);
      k <= |rows| && Dominate(KeyedBy(rows, sortBy), keep, k)
    case ByFormula(ts, threshold, op) => PrefixClosed(Passing(Scores(ar, ts, rows), op, threshold))
    case MinHours(minHours) => PrefixClosed(LongEnough(rows, minHours))
    case OtherRule => true
  }

  lemma TopNFirstIff(ar: Formula.Arithmetic, rows: seq<TeamStanding>, n: int, sortBy: seq<Stat>, minPlayed: int)
    requires NoDuplicates(rows)
    ensures AreFirst(Decision(ar, rows, TopN(n, sortBy, minPlayed)).value.qualified, rows) <==>
              FirstRowsWin(ar, rows, TopN(n, sortBy, minPlayed))
  {
    var teams, keep := KeyedBy(rows, sortBy), PlayedEnough(rows, minPlayed);
    assert Vals(teams) == rows;
    PickVals(teams, keep);
    TopSplitIsBest(teams, keep, n);
    var k := |TopSplit(teams, keep, n).qualified|;
    if AreFirst(TopSplit(teams, keep, n).qualified, rows) {
      FirstTeamsDominate(teams, keep, n);
    }
    if k <= |rows| && Dominate(teams, keep, k) {
      DominatingTeamsQualify(teams, keep, n, k);
    }
  }

  /** A rule that can be decided qualifies the first rows if and only if they win in this sense. */
  lemma QualifiedAreFirstIff(ar: Formula.Arithmetic, rows: seq<TeamStanding>, rule: Rule)
    requires NoDuplicates(rows) && Decision(ar, rows, rule).Ok?
    ensures AreFirst(Decision(ar, rows, rule).value.qualified, rows) <==> FirstRowsWin(ar, rows, rule)
  {
    match rule
    case TopN(n, sortBy, minPlayed) =>
      TopNFirstIff(ar, rows, n, sortBy, minPlayed);
    case ByFormula(ts, threshold, op) =>
      var scores := Scores(ar, ts, rows);
      assert Vals(KeyedScores(rows, scores)) == rows;
      PartFirstIff(KeyedScores(rows, scores), Passing(scores, op, threshold));
    case MinHours(minHours) =>
      assert Vals(KeyedBy(rows, [HoursPlayed])) == rows;
      PartFirstIff(KeyedBy(rows, [HoursPlayed]), LongEnough(rows, minHours));
    case OtherRule =>
  }

  // ---- Qualification on computed standings ----

  /** Computed rows are in the default order already, and every one of them has played. */
  lemma ComputedRowsAreSorted(rows: seq<TeamStanding>, sc: Scoring, ms: seq<Match>)
    requires ShowsTable(rows, sc, ms)
    ensures SortedDesc(KeyedBy(rows, DEFAULT_SORT))
    ensures forall s :: s in rows ==> s.played >= 1
  {
    StandingsFacts.TableLists(sc, ms);
    var keyed, table := KeyedBy(rows, DEFAULT_SORT), Table(sc, ms);
    forall i | 0 <= i < |rows| ensures keyed[i].key == table[i].key && rows[i].played >= 1 {
      assert keyed[i].key == RowKey(rows[i]);
      assert table[i].val == Vals(table)[i];
      assert rows[i].Numbers() == TeamTally(sc, ms, rows[i].team);
      StandingsFacts.PlayersPlayed(sc, ms, rows[i].team);
    }
  }

  ghost predicate Marked(split: Split<TeamStanding>)
    reads split.qualified, split.eliminated
  {
    && (forall i :: 0 <= i < |split.qualified| ==> split.qualified[i].isQualified)
    && (forall i :: 0 <= i < |split.eliminated| ==> !split.eliminated[i].isQualified)
  }

  method EvaluateTable(ar: Formula.Arithmetic, rows: seq<TeamStanding>, rule: Rule, ghost table: seq<Keyed<nat>>,
                       ghost tally: nat -> Tally)
    returns (r: Result<Split<TeamStanding>, Error>)
    requires Shows(rows, table, tally) && forall i :: 0 <= i < |rows| ==> rows[i].rank == Some(i + 1)
    modifies rows`customScore, rows`isQualified, rows`rank
    ensures r == old(Decision(ar, rows, rule)) && Shows(rows, table, tally)
    ensures r.Ok? ==> Reranked(rows, r.value.qualified) && Marked(r.value)
  {
    ghost var decision := Decision(ar, rows, rule);
    if decision.Ok? {
      QualifiedRows(ar, rows, rule);
    }
    r := Evaluate(ar, rows, rule);
  }

  /** Applying a rule to a ranked table keeps the table: only ranks of qualified teams, marks and scores change. Afterwards
      all ranks differ if and only if the first rows won beforehand. */
  method EvaluateRows(ar: Formula.Arithmetic, rows: seq<TeamStanding>, rule: Rule, ghost table: seq<Keyed<nat>>,
                      ghost tally: nat -> Tally)
    returns (r: Result<Split<TeamStanding>, Error>)
    requires Shows(rows, table, tally) && forall i :: 0 <= i < |rows| ==> rows[i].rank == Some(i + 1)
    modifies rows`customScore, rows`isQualified, rows`rank
    ensures r == old(Decision(ar, rows, rule)) && Shows(rows, table, tally)
    ensures r.Ok? ==> Reranked(rows, r.value.qualified) && Marked(r.value)
    ensures r.Ok? ==> (RanksDistinct(rows) <==> old(FirstRowsWin(ar, rows, rule)))
  {
    ghost var decision := Decision(ar, rows, rule);
    if decision.Ok? {
      QualifiedAreFirstIff(ar, rows, rule);
    }
    r := EvaluateTable(ar, rows, rule, table, tally);
    if r.Ok? {
      DistinctIffFirst(rows, r.value.qualified);
    }
  }

  lemma QualifiedRows(ar: Formula.Arithmetic, rows: seq<TeamStanding>, rule: Rule)
    requires NoDuplicates(rows) && Decision(ar, rows, rule).Ok?
    ensures var s := Decision(ar, rows, rule).value;
            && NoDuplicates(s.qualified)
            && (forall i :: 0 <= i < |s.qualified| ==> s.qualified[i] in rows)
            && (forall i, j :: 0 <= i < |s.qualified| && 0 <= j < |s.eliminated| ==> s.qualified[i] != s.eliminated[j])
  {
    var s := Decision(ar, rows, rule).value;
    DecisionDivides(ar, rows, rule);
    PartsDiffer(s.qualified, s.eliminated);
  }

  /** The service: standings are computed, then a rule is applied to them, if there is one. Under the default order, with no
      minimum beyond the one match every listed team has played, the first n rows qualify and no rank changes. */
  method EvaluateQualification(ar: Formula.Arithmetic, matches: seq<Match>, scoring: Option<Scoring>, rule: Option<Rule>)
    returns (standings: seq<TeamStanding>, r: Result<Split<TeamStanding>, Error>)
    ensures ShowsTable(standings, scoring.GetOr(DEFAULT_SCORING), Relevant(matches, None))
    ensures rule.None? ==> r == Err(NoRule)
    ensures rule.Some? && rule.value.TopN? && rule.value.sortBy == DEFAULT_SORT && rule.value.minPlayed <= 1 ==>
              var k := SliceEnd(rule.value.n, |standings|);
              && r == Ok(Split(standings[..k], standings[k..]))
              && forall i :: 0 <= i < |standings| ==> standings[i].rank == Some(i + 1) && standings[i].isQualified == (i < k)
    ensures rule.Some? && rule.value.MinHours? ==>
              r == Ok(if rule.value.minHours <= 0.0 then Split(standings, []) else Split([], standings)) && RanksDistinct(standings)
    ensures r.Ok? ==> Reranked(standings, r.value.qualified) && Marked(r.value)
  {
    ghost var sc, ms := scoring.GetOr(DEFAULT_SCORING), Relevant(matches, None);
    standings := Compute(matches, scoring, None);
    if rule.None? {
      return standings, Err(NoRule);
    }
    ComputedRowsAreSorted(standings, sc, ms);
    if rule.value.TopN? && rule.value.sortBy == DEFAULT_SORT && rule.value.minPlayed <= 1 {
      TopNOfSorted(ar, standings, rule.value.n, DEFAULT_SORT, rule.value.minPlayed);
    } else if rule.value.MinHours? {
      MinHoursOnComputedRows(ar, standings, rule.value.minHours);
      EqualHoursWin(ar, standings, rule.value.minHours);
    }
    r := EvaluateRows(ar, standings, rule.value, Table(sc, ms), Tallies(sc, ms));
    if rule.value.TopN? && rule.value.sortBy == DEFAULT_SORT && rule.value.minPlayed <= 1 {
      FirstRowsMarked(standings, SliceEnd(rule.value.n, |standings|));
    }
  }

  lemma FirstRowsMarked(rows: seq<TeamStanding>, k: nat)
    requires k <= |rows| && Reranked(rows, rows[..k]) && Marked(Split(rows[..k], rows[k..]))
    ensures forall i :: 0 <= i < |rows| ==> rows[i].rank == Some(i + 1) && rows[i].isQualified == (i < k)
  {
    forall i | 0 <= i < |rows| ensures rows[i].rank == Some(i + 1) && rows[i].isQualified == (i < k) {
      if i < k {
        assert rows[..k][i] == rows[i];
      } else {
        assert rows[k..][i - k] == rows[i];
        assert rows[i] !in rows[..k];
      }
    }
  }

  // ---- Two teams on one rank ----

  /** Team 1 beats team 2 by one goal to nothing. */
  function OneMatch(): seq<Match> {
    [Match(true, None, Some(1), Some(2), Some(1), Some(0))]
  }

  lemma OneMatchTable()
    ensures Relevant(OneMatch(), None) == OneMatch()
    ensures var t := Table(DEFAULT_SCORING, OneMatch());
            && |t| == 2 && t[0].val == 1 && t[1].val == 2
            && TeamTally(DEFAULT_SCORING, OneMatch(), 1) == Tally(1, 1, 0, 0, 1, 0, 3)
            && TeamTally(DEFAULT_SCORING, OneMatch(), 2) == Tally(1, 0, 0, 1, 0, 1, 0)
  {
    var ms := OneMatch();
    assert ms[..0] == [];
    assert Relevant(ms[..0], None) == [] && FirstSeen(ms[..0]) == [];
    assert FirstSeen(ms) == [1, 2];
    var entries := Entries(DEFAULT_SCORING, ms, [1, 2]);
    assert TeamTally(DEFAULT_SCORING, ms[..0], 1) == Zero() && TeamTally(DEFAULT_SCORING, ms[..0], 2) == Zero();
    assert entries[1..] == [entries[1]];
    assert SortDesc([entries[1]]) == [entries[1]] by {
      assert [entries[1]][1..] == [];
    }
    assert !LexLe(entries[0].key, entries[1].key) && LexLe(entries[1].key, entries[0].key);
    assert SortDesc(entries) == Insert(entries[0], [entries[1]]);
  }

  method ComputeOneMatch() returns (rows: seq<TeamStanding>, ghost table: seq<Keyed<nat>>, ghost tally: nat -> Tally)
    ensures fresh(rows) && |rows| == 2 && Shows(rows, table, tally)
    ensures table == Table(DEFAULT_SCORING, OneMatch()) && tally == Tallies(DEFAULT_SCORING, OneMatch())
    ensures rows[0].rank == Some(1) && rows[1].rank == Some(2)
    ensures rows[0].played == rows[1].played == 1 && rows[0].goalsAgainst == 0 && rows[1].goalsAgainst == 1
  {
    OneMatchTable();
    rows := Compute(OneMatch(), None, None);
    table, tally := Table(DEFAULT_SCORING, OneMatch()), Tallies(DEFAULT_SCORING, OneMatch());
    OneMatchRows(rows, table, tally);
  }

  /** Qualifying the one team that conceded most gives it rank 1, which the winner keeps. */
  method SharedRank(ar: Formula.Arithmetic) returns (standings: seq<TeamStanding>)
    ensures ShowsTable(standings, DEFAULT_SCORING, OneMatch())
    ensures |standings| == 2 && standings[0].rank == standings[1].rank
  {
    ghost var table, tally;
    standings, table, tally := ComputeOneMatch();
    LastQualifies(ar, standings, table, tally);
  }

  method LastQualifies(ar: Formula.Arithmetic, rows: seq<TeamStanding>, ghost table: seq<Keyed<nat>>, ghost tally: nat -> Tally)
    requires |rows| == 2 && Shows(rows, table, tally) && rows[0].rank == Some(1) && rows[1].rank == Some(2)
    requires rows[0].played == rows[1].played == 1 && rows[0].goalsAgainst == 0 && rows[1].goalsAgainst == 1
    modifies rows`customScore, rows`isQualified, rows`rank
    ensures Shows(rows, table, tally) && rows[0].rank == rows[1].rank
  {
    ConcededMostWins(ar, rows);
    var _ := EvaluateRows(ar, rows, TopN(1, [GoalsAgainst], 0), table, tally);
  }

  lemma OneMatchRows(rows: seq<TeamStanding>, table: seq<Keyed<nat>>, tally: nat -> Tally)
    requires Shows(rows, table, tally) && |table| == 2 && table[0].val == 1 && table[1].val == 2
    requires tally(1) == Tally(1, 1, 0, 0, 1, 0, 3) && tally(2) == Tally(1, 0, 0, 1, 0, 1, 0)
    ensures rows[0].played == rows[1].played == 1 && rows[0].goalsAgainst == 0 && rows[1].goalsAgainst == 1
  {
    assert rows[0].team == 1 && rows[1].team == 2;
  }

  lemma ConcededMostWins(ar: Formula.Arithmetic, rows: seq<TeamStanding>)
    requires |rows| == 2 && NoDuplicates(rows) && rows[0].played == rows[1].played == 1 && rows[0].goalsAgainst == 0
             && rows[1].goalsAgainst == 1
    ensures !FirstRowsWin(ar, rows, TopN(1, [GoalsAgainst], 0))
  {
    var teams, keep := KeyedBy(rows, [GoalsAgainst]), PlayedEnough(rows, 0);
    PickAll(rows, keep);
    assert teams[0].key == [0.0] && teams[1].key == [1.0];
    SingleKeys(1.0, 0.0);
    assert !LexLe(teams[1].key, teams[0].key);
  }
}
