/** Qualification: which teams of the standings go through, by rank, by formula or by hours played. */
module Qualification {
  import opened Common
  import opened StableSort
  import opened Standings
  import Formula

  /** The numeric attributes a rule may sort by; any other name counts as 0. */
  datatype Stat = Played | Wins | Draws | Losses | GoalsFor | GoalsAgainst | GoalDifference | Points | HoursPlayed | Unknown

  datatype Comparison = Ge | Gt | Eq | Le | Lt | OtherComparison

  datatype Rule =
    | TopN(n: int, sortBy: seq<Stat>, minPlayed: int)
    | ByFormula(expression: seq<Formula.Token>, threshold: real, comparison: Comparison)
    | MinHours(minHours: real)
    | OtherRule

  datatype Error = UnknownRule | UnknownComparison | FormulaFails(error: Formula.Error) | NoRule

  datatype Split<T> = Split(qualified: seq<T>, eliminated: seq<T>)

  const DEFAULT_SORT := [Points, GoalDifference, GoalsFor]

  function StatOf(s: TeamStanding, stat: Stat): real
    reads s
  {
    match stat
    case Played => s.played as real
    case Wins => s.wins as real
    case Draws => s.draws as real
    case Losses => s.losses as real
    case GoalsFor => s.goalsFor as real
    case GoalsAgainst => s.goalsAgainst as real
    case GoalDifference => s.goalDifference as real
    case Points => s.points as real
    case HoursPlayed => s.hoursPlayed
    case Unknown => 0.0
  }

  function SortKey(s: TeamStanding, stats: seq<Stat>): (k: Key)
    reads s
    ensures |k| == |stats| && forall i :: 0 <= i < |stats| ==> k[i] == StatOf(s, stats[i])
  {
    seq(|stats|, i requires 0 <= i < |stats| reads s => StatOf(s, stats[i]))
  }

  function KeyedBy(teams: seq<TeamStanding>, stats: seq<Stat>): (r: seq<Keyed<TeamStanding>>)
    reads teams
    ensures |r| == |teams| && forall i :: 0 <= i < |teams| ==> r[i] == Keyed(SortKey(teams[i], stats), teams[i])
  {
    seq(|teams|, i requires 0 <= i < |teams| reads teams => Keyed(SortKey(teams[i], stats), teams[i]))
  }

  // ---- Choosing part of a list ----

  function Pick<T>(xs: seq<T>, keep: seq<bool>): seq<T>
    requires |keep| == |xs|
  {
    if xs == [] then []
    else
      var n := |xs| - 1;
      Pick(xs[..n], keep[..n]) + if keep[n] then [xs[n]] else []
  }

  function Drop<T>(xs: seq<T>, keep: seq<bool>): seq<T>
    requires |keep| == |xs|
  {
    if xs == [] then []
    else
      var n := |xs| - 1;
      Drop(xs[..n], keep[..n]) + if keep[n] then [] else [xs[n]]
  }

  /** What is kept and what is dropped make up the list. */
  lemma {:induction false} PickSplits<T>(xs: seq<T>, keep: seq<bool>)
    requires |keep| == |xs|
    ensures multiset(Pick(xs, keep)) + multiset(Drop(xs, keep)) == multiset(xs)
  {
    if xs != [] {
      var n := |xs| - 1;
      PickSplits(xs[..n], keep[..n]);
      assert xs == xs[..n] + [xs[n]];
    }
  }

  lemma PickNext<T>(xs: seq<T>, keep: seq<bool>, i: nat)
    requires |keep| == |xs| && i < |xs|
    ensures Pick(xs[..i + 1], keep[..i + 1]) == Pick(xs[..i], keep[..i]) + if keep[i] then [xs[i]] else []
    ensures Drop(xs[..i + 1], keep[..i + 1]) == Drop(xs[..i], keep[..i]) + if keep[i] then [] else [xs[i]]
  {
    assert xs[..i + 1][..i] == xs[..i] && keep[..i + 1][..i] == keep[..i];
  }

  lemma {:induction false} PickMembers<T>(xs: seq<T>, keep: seq<bool>)
    requires |keep| == |xs|
    ensures forall x :: x in Pick(xs, keep) <==> exists i :: 0 <= i < |xs| && keep[i] && xs[i] == x
  {
    if xs != [] {
      var n := |xs| - 1;
      PickMembers(xs[..n], keep[..n]);
      forall x ensures x in Pick(xs, keep) <==> exists i :: 0 <= i < |xs| && keep[i] && xs[i] == x {
        if x in Pick(xs[..n], keep[..n]) {
          var i :| 0 <= i < n && keep[..n][i] && xs[..n][i] == x;
          assert keep[i] && xs[i] == x;
        } else if i :| 0 <= i < |xs| && keep[i] && xs[i] == x {
          assert i < n ==> keep[..n][i] && xs[..n][i] == x;
        }
      }
    }
  }

  lemma {:induction false} PickAll<T>(xs: seq<T>, keep: seq<bool>)
    requires |keep| == |xs| && forall i :: 0 <= i < |xs| ==> keep[i]
    ensures Pick(xs, keep) == xs
  {
    if xs != [] {
      PickAll(xs[..|xs| - 1], keep[..|xs| - 1]);
    }
  }

  lemma {:induction false} PickNone<T>(xs: seq<T>, keep: seq<bool>)
    requires |keep| == |xs| && forall i :: 0 <= i < |xs| ==> !keep[i]
    ensures Pick(xs, keep) == []
  {
    if xs != [] {
      PickNone(xs[..|xs| - 1], keep[..|xs| - 1]);
    }
  }

  lemma {:induction false} PickNoDuplicates<T>(xs: seq<T>, keep: seq<bool>)
    requires |keep| == |xs| && NoDuplicates(xs)
    ensures NoDuplicates(Pick(xs, keep))
  {
    if xs != [] {
      var n := |xs| - 1;
      PickNoDuplicates(xs[..n], keep[..n]);
      if xs[n] in Pick(xs[..n], keep[..n]) {
        PickMembers(xs[..n], keep[..n]);
      }
    }
  }

  // ---- The rules ----

  function PlayedEnough(teams: seq<TeamStanding>, minPlayed: int): (keep: seq<bool>)
    reads teams
    ensures |keep| == |teams| && forall i :: 0 <= i < |teams| ==> keep[i] == (teams[i].played >= minPlayed)
  {
    seq(|teams|, i requires 0 <= i < |teams| reads teams => teams[i].played >= minPlayed)
  }

  function LongEnough(teams: seq<TeamStanding>, minHours: real): (keep: seq<bool>)
    reads teams
    ensures |keep| == |teams| && forall i :: 0 <= i < |teams| ==> keep[i] == (teams[i].hoursPlayed >= minHours)
  {
    seq(|teams|, i requires 0 <= i < |teams| reads teams => teams[i].hoursPlayed >= minHours)
  }

  /** Where a slice [:n] of a list of this length ends: a negative n counts from the end. */
  function SliceEnd(n: int, length: nat): (r: nat)
    ensures r <= length
  {
    if n >= 0 then Min(n, length) else Max(0, length + n)
  }

  /** The best n of the teams that are kept; the others of these are eliminated, and the rest is not judged. */
  function TopSplit<T>(teams: seq<Keyed<T>>, keep: seq<bool>, n: int): Split<T>
    requires |keep| == |teams|
  {
    var sorted := Vals(SortDesc(Pick(teams, keep)));
    Split(sorted[..SliceEnd(n, |sorted|)], sorted[SliceEnd(n, |sorted|)..])
  }

  /** The teams that are kept, best first; all others are eliminated. */
  function PartSplit<T>(teams: seq<Keyed<T>>, keep: seq<bool>): Split<T>
    requires |keep| == |teams|
  {
    Split(Vals(SortDesc(Pick(teams, keep))), Drop(Vals(teams), keep))
  }

  /** The names a formula may use, in the order they are replaced: longest first. */
  const VARIABLES := ["goal_difference", "goals_against", "hours_played", "goals_for", "losses", "points", "played", "draws",
                      "wins"]

  /** The number a name stands for; no hours played count as 0.001. */
  function ValueOf(s: TeamStanding, name: string): real
    reads s`played, s`wins, s`draws, s`losses, s`goalsFor, s`goalsAgainst, s`goalDifference, s`points, s`hoursPlayed
  {
    if name == "goal_difference" then s.goalDifference as real
    else if name == "goals_against" then s.goalsAgainst as real
    else if name == "goals_for" then s.goalsFor as real
    else if name == "losses" then s.losses as real
    else if name == "points" then s.points as real
    else if name == "played" then s.played as real
    else if name == "draws" then s.draws as real
    else if name == "wins" then s.wins as real
    else if s.hoursPlayed == 0.0 then 0.001
    else s.hoursPlayed
  }

  function TeamEnv(s: TeamStanding): Formula.Env
    reads s`played, s`wins, s`draws, s`losses, s`goalsFor, s`goalsAgainst, s`goalDifference, s`points, s`hoursPlayed
  {
    map x | x in VARIABLES :: ValueOf(s, x)
  }

  function Score(ar: Formula.Arithmetic, ts: seq<Formula.Token>, s: TeamStanding): Result<real, Formula.Error>
    reads s`played, s`wins, s`draws, s`losses, s`goalsFor, s`goalsAgainst, s`goalDifference, s`points, s`hoursPlayed
  {
    Formula.Meaning(ar, Formula.AsRead(ts, TeamEnv(s), false), TeamEnv(s))
  }

  predicate Compares(op: Comparison, x: real, y: real) {
    match op
    case Ge => x >= y
    case Gt => x > y
    case Eq => x == y
    case Le => x <= y
    case Lt => x < y
    case OtherComparison => false
  }

  // ---- The evaluators ----

  lemma {:induction false} KeyedPick(teams: seq<TeamStanding>, stats: seq<Stat>, keep: seq<bool>)
    requires |keep| == |teams|
    ensures KeyedBy(Pick(teams, keep), stats) == Pick(KeyedBy(teams, stats), keep)
  {
    if teams != [] {
      var n := |teams| - 1;
      KeyedPick(teams[..n], stats, keep[..n]);
      assert KeyedBy(teams, stats)[..n] == KeyedBy(teams[..n], stats);
    }
  }

  lemma {:induction false} PickVals<T>(xs: seq<Keyed<T>>, keep: seq<bool>)
    requires |keep| == |xs|
    ensures Vals(Pick(xs, keep)) == Pick(Vals(xs), keep)
  {
    if xs != [] {
      var n := |xs| - 1;
      PickVals(xs[..n], keep[..n]);
      assert Vals(xs)[..n] == Vals(xs[..n]);
    }
  }

  method EvalTopN(standings: seq<TeamStanding>, n: int, sortBy: seq<Stat>, minPlayed: int) returns (split: Split<TeamStanding>)
    ensures split == TopSplit(KeyedBy(standings, sortBy), PlayedEnough(standings, minPlayed), n)
  {
    ghost var keep := PlayedEnough(standings, minPlayed);
    var eligible := [];
    for i := 0 to |standings|
      invariant eligible == Pick(standings[..i], keep[..i])
    {
      PickNext(standings, keep, i);
      if standings[i].played >= minPlayed {
        eligible := eligible + [standings[i]];
      }
    }
    assert standings[..|standings|] == standings && keep[..|standings|] == keep;
    KeyedPick(standings, sortBy, keep);
    eligible := Vals(SortDesc(KeyedBy(eligible, sortBy)));
    var end := SliceEnd(n, |eligible|);
    split := Split(eligible[..end], eligible[end..]);
  }

  method EvalMinHours(standings: seq<TeamStanding>, minHours: real) returns (split: Split<TeamStanding>)
    ensures split == PartSplit(KeyedBy(standings, [HoursPlayed]), LongEnough(standings, minHours))
  {
    ghost var keep := LongEnough(standings, minHours);
    var qualified, eliminated := [], [];
    for i := 0 to |standings|
      invariant qualified == Pick(standings[..i], keep[..i])
      invariant eliminated == Drop(standings[..i], keep[..i])
    {
      PickNext(standings, keep, i);
      if standings[i].hoursPlayed >= minHours {
        qualified := qualified + [standings[i]];
      }
      if standings[i].hoursPlayed < minHours {
        eliminated := eliminated + [standings[i]];
      }
    }
    assert standings[..|standings|] == standings && keep[..|standings|] == keep;
    KeyedPick(standings, [HoursPlayed], keep);
    assert Vals(KeyedBy(standings, [HoursPlayed])) == standings;
    qualified := Vals(SortDesc(KeyedBy(qualified, [HoursPlayed])));
    split := Split(qualified, eliminated);
  }

  type Outcome = Result<real, Formula.Error>

  function Scores(ar: Formula.Arithmetic, ts: seq<Formula.Token>, teams: seq<TeamStanding>): (r: seq<Outcome>)
    reads teams
    ensures |r| == |teams| && forall i :: 0 <= i < |teams| ==> r[i] == Score(ar, ts, teams[i])
  {
    seq(|teams|, i requires 0 <= i < |teams| reads teams => Score(ar, ts, teams[i]))
  }

  function FirstFailure(scores: seq<Outcome>): Option<Formula.Error> {
    if scores == [] then None
    else if scores[0].Err? then Some(scores[0].error)
    else FirstFailure(scores[1..])
  }

  function Number(score: Outcome): real {
    if score.Ok? then score.value else 0.0
  }

  function KeyedScores<T>(teams: seq<T>, scores: seq<Outcome>): (r: seq<Keyed<T>>)
    requires |teams| == |scores|
    ensures |r| == |teams| && forall i :: 0 <= i < |teams| ==> r[i] == Keyed([Number(scores[i])], teams[i])
  {
    seq(|teams|, i requires 0 <= i < |teams| => Keyed([Number(scores[i])], teams[i]))
  }

  function Passing(scores: seq<Outcome>, op: Comparison, threshold: real): (keep: seq<bool>)
    ensures |keep| == |scores| && forall i :: 0 <= i < |scores| ==> keep[i] == Compares(op, Number(scores[i]), threshold)
  {
    seq(|scores|, i requires 0 <= i < |scores| => Compares(op, Number(scores[i]), threshold))
  }

  function FormulaSplit<T>(teams: seq<T>, scores: seq<Outcome>, op: Comparison, threshold: real): Result<Split<T>, Error>
    requires |teams| == |scores|
  {
    if op.OtherComparison? then Err(UnknownComparison)
    else
      var failure := FirstFailure(scores);
      if failure.Some? then Err(FormulaFails(failure.value))
      else Ok(PartSplit(KeyedScores(teams, scores), Passing(scores, op, threshold)))
  }

  function ByCustomScore(teams: seq<TeamStanding>): (r: seq<Keyed<TeamStanding>>)
    reads teams
    ensures |r| == |teams| && forall i :: 0 <= i < |teams| ==> r[i] == Keyed([teams[i].customScore.GetOr(0.0)], teams[i])
  {
    seq(|teams|, i requires 0 <= i < |teams| reads teams => Keyed([teams[i].customScore.GetOr(0.0)], teams[i]))
  }

  lemma {:induction false} FirstFailureIs(scores: seq<Outcome>, i: nat)
    requires i < |scores| && scores[i].Err? && forall k :: 0 <= k < i ==> scores[k].Ok?
    ensures FirstFailure(scores) == Some(scores[i].error)
  {
    if i > 0 {
      FirstFailureIs(scores[1..], i - 1);
    }
  }

  lemma {:induction false} NoFailure(scores: seq<Outcome>)
    requires forall k :: 0 <= k < |scores| ==> scores[k].Ok?
    ensures FirstFailure(scores).None?
  {
    if scores != [] {
      NoFailure(scores[1..]);
    }
  }

  /** Scores one team, records the score, and appends the team to the passing or the failing ones. */
  method ScoreTeam(ar: Formula.Arithmetic, ts: seq<Formula.Token>, threshold: real, op: Comparison, team: TeamStanding,
                   qualified: seq<TeamStanding>, eliminated: seq<TeamStanding>)
    returns (score: Outcome, qualified': seq<TeamStanding>, eliminated': seq<TeamStanding>)
    modifies team`customScore
    ensures score == old(Score(ar, ts, team))
    ensures score.Err? ==> qualified' == qualified && eliminated' == eliminated
    ensures score.Ok? ==>
              var passes := Compares(op, score.value, threshold);
              && team.customScore == Some(score.value)
              && qualified' == qualified + (if passes then [team] else [])
              && eliminated' == eliminated + (if !passes then [team] else [])
  {
    qualified', eliminated' := qualified, eliminated;
    score := Formula.SafeEval(ar, ts, VARIABLES, TeamEnv(team));
    if score.Ok? {
      team.customScore := Some(score.value);
      if Compares(op, score.value, threshold) {
        qualified' := qualified + [team];
      } else {
        eliminated' := eliminated + [team];
      }
    }
  }

  /** The list sorted by the recorded scores is the list sorted by the scores themselves. */
  lemma {:induction false} RecordedPick(teams: seq<TeamStanding>, scored: seq<Keyed<TeamStanding>>, keep: seq<bool>)
    requires |scored| == |keep| == |teams|
    requires forall i :: 0 <= i < |teams| ==> scored[i] == Keyed([teams[i].customScore.GetOr(0.0)], teams[i])
    ensures ByCustomScore(Pick(teams, keep)) == Pick(scored, keep)
  {
    if teams != [] {
      var n := |teams| - 1;
      RecordedPick(teams[..n], scored[..n], keep[..n]);
    }
  }

  ghost predicate ScoresAre(ar: Formula.Arithmetic, ts: seq<Formula.Token>, teams: seq<TeamStanding>, scores: seq<Outcome>)
    reads teams
  {
    |scores| == |teams| && forall k {:trigger Score(ar, ts, teams[k])} :: 0 <= k < |teams| ==> Score(ar, ts, teams[k]) == scores[k]
  }

  /** Scores the teams in turn, stopping at the first whose formula fails, and divides them into passing and failing. */
  method ScoreAll(ar: Formula.Arithmetic, standings: seq<TeamStanding>, ts: seq<Formula.Token>, threshold: real, op: Comparison,
                  ghost scores: seq<Outcome>)
    returns (count: nat, failure: Option<Formula.Error>, qualified: seq<TeamStanding>, eliminated: seq<TeamStanding>)
    requires NoDuplicates(standings) && ScoresAre(ar, ts, standings, scores)
    modifies standings`customScore
    ensures count <= |standings|
    ensures forall k :: 0 <= k < count ==> scores[k].Ok? && standings[k].customScore == Some(scores[k].value)
    ensures if failure.Some? then count < |standings| && scores[count] == Err(failure.value) else count == |standings|
    ensures var keep := Passing(scores, op, threshold)[..count];
            qualified == Pick(standings[..count], keep) && eliminated == Drop(standings[..count], keep)
  {
    ghost var keep := Passing(scores, op, threshold);
    count, failure, qualified, eliminated := 0, None, [], [];
    while count < |standings|
      invariant count <= |standings| && ScoresAre(ar, ts, standings, scores)
      invariant forall k :: 0 <= k < count ==> scores[k].Ok? && standings[k].customScore == Some(scores[k].value)
      invariant qualified == Pick(standings[..count], keep[..count])
      invariant eliminated == Drop(standings[..count], keep[..count])
    {
      var score: Outcome;
      PickNext(standings, keep, count);
      assert Score(ar, ts, standings[count]) == scores[count];
      score, qualified, eliminated := ScoreTeam(ar, ts, threshold, op, standings[count], qualified, eliminated);
      if score.Err? {
        failure := Some(score.error);
        break;
      }
      count := count + 1;
    }
  }

  method EvalFormula(ar: Formula.Arithmetic, standings: seq<TeamStanding>, ts: seq<Formula.Token>, threshold: real, op: Comparison)
    returns (r: Result<Split<TeamStanding>, Error>)
    requires NoDuplicates(standings)
    modifies standings`customScore
    ensures r == FormulaSplit(standings, old(Scores(ar, ts, standings)), op, threshold)
  {
    if op.OtherComparison? {
      return Err(UnknownComparison);
    }
    ghost var scores := Scores(ar, ts, standings);
    ghost var keep := Passing(scores, op, threshold);
    var count, failure, qualified, eliminated := ScoreAll(ar, standings, ts, threshold, op, scores);
    if failure.Some? {
      FirstFailureIs(scores, count);
      return Err(FormulaFails(failure.value));
    }
    NoFailure(scores);
    assert standings[..count] == standings && keep[..count] == keep;
    RecordedPick(standings, KeyedScores(standings, scores), keep);
    assert Vals(KeyedScores(standings, scores)) == standings;
    qualified := Vals(SortDesc(ByCustomScore(qualified)));
    r := Ok(Split(qualified, eliminated));
  }

  // ---- The engine ----

  /** What a rule decides about these teams, or why it cannot. */
  function Decision(ar: Formula.Arithmetic, standings: seq<TeamStanding>, rule: Rule): Result<Split<TeamStanding>, Error>
    reads standings
  {
    match rule
    case TopN(n, sortBy, minPlayed) => Ok(TopSplit(KeyedBy(standings, sortBy), PlayedEnough(standings, minPlayed), n))
    case ByFormula(ts, threshold, op) => FormulaSplit(standings, Scores(ar, ts, standings), op, threshold)
    case MinHours(minHours) => Ok(PartSplit(KeyedBy(standings, [HoursPlayed]), LongEnough(standings, minHours)))
    case OtherRule => Err(UnknownRule)
  }

  lemma TopSplitNoDuplicates<T>(teams: seq<Keyed<T>>, keep: seq<bool>, n: int)
    requires |keep| == |teams| && NoDuplicates(Vals(teams))
    ensures var s := TopSplit(teams, keep, n); NoDuplicates(s.qualified + s.eliminated)
  {
    PickVals(teams, keep);
    PickNoDuplicates(Vals(teams), keep);
    SortedVals(Pick(teams, keep));
    var sorted := Vals(SortDesc(Pick(teams, keep)));
    RearrangedNoDuplicates(Vals(Pick(teams, keep)), sorted);
    var s := TopSplit(teams, keep, n);
    assert s.qualified + s.eliminated == sorted;
  }

  /** A rule that keeps or drops every team divides all of them. */
  lemma PartSplitDivides<T>(teams: seq<Keyed<T>>, keep: seq<bool>)
    requires |keep| == |teams|
    ensures var s := PartSplit(teams, keep); multiset(s.qualified) + multiset(s.eliminated) == multiset(Vals(teams))
    ensures NoDuplicates(Vals(teams)) ==> var s := PartSplit(teams, keep); NoDuplicates(s.qualified + s.eliminated)
  {
    var s := PartSplit(teams, keep);
    SortedVals(Pick(teams, keep));
    PickVals(teams, keep);
    PickSplits(Vals(teams), keep);
    if NoDuplicates(Vals(teams)) {
      RearrangedNoDuplicates(Vals(teams), s.qualified + s.eliminated);
    }
  }

  lemma TopSplitChooses<T>(teams: seq<Keyed<T>>, keep: seq<bool>, n: int)
    requires |keep| == |teams|
    ensures var s := TopSplit(teams, keep, n); multiset(s.qualified) + multiset(s.eliminated) == multiset(Pick(Vals(teams), keep))
  {
    PickVals(teams, keep);
    SortedVals(Pick(teams, keep));
    var s, sorted := TopSplit(teams, keep, n), Vals(SortDesc(Pick(teams, keep)));
    CutKeepsAll(sorted, SliceEnd(n, |sorted|));
  }

  lemma CutKeepsAll<T>(xs: seq<T>, k: nat)
    requires k <= |xs|
    ensures multiset(xs[..k]) + multiset(xs[k..]) == multiset(xs)
  {
    assert xs == xs[..k] + xs[k..];
  }

  lemma PartsWithin<T>(q: seq<T>, e: seq<T>, xs: seq<T>)
    requires multiset(q) + multiset(e) == multiset(xs)
    ensures forall i :: 0 <= i < |q| ==> q[i] in xs
    ensures forall i :: 0 <= i < |e| ==> e[i] in xs
    ensures forall i :: 0 <= i < |xs| ==> xs[i] in q || xs[i] in e
  {
    forall i | 0 <= i < |q| ensures q[i] in xs {
      assert q[i] in multiset(xs);
    }
    forall i | 0 <= i < |e| ensures e[i] in xs {
      assert e[i] in multiset(xs);
    }
    forall i | 0 <= i < |xs| ensures xs[i] in q || xs[i] in e {
      assert xs[i] in multiset(q) + multiset(e);
    }
  }

  lemma {:induction false} PickWithin<T>(xs: seq<T>, keep: seq<bool>)
    requires |keep| == |xs|
    ensures forall i :: 0 <= i < |Pick(xs, keep)| ==> Pick(xs, keep)[i] in xs
  {
    if xs != [] {
      PickWithin(xs[..|xs| - 1], keep[..|xs| - 1]);
    }
  }

  /** A decision divides some of the teams, or all of them, without naming any twice. */
  lemma DecisionDivides(ar: Formula.Arithmetic, standings: seq<TeamStanding>, rule: Rule)
    requires NoDuplicates(standings) && Decision(ar, standings, rule).Ok?
    ensures var s := Decision(ar, standings, rule).value;
            && NoDuplicates(s.qualified + s.eliminated)
            && (forall i :: 0 <= i < |s.qualified| ==> s.qualified[i] in standings)
            && (forall i :: 0 <= i < |s.eliminated| ==> s.eliminated[i] in standings)
            && (!rule.TopN? ==> forall i :: 0 <= i < |standings| ==> standings[i] in s.qualified || standings[i] in s.eliminated)
  {
    var s := Decision(ar, standings, rule).value;
    match rule
    case TopN(n, sortBy, minPlayed) =>
      var keep := PlayedEnough(standings, minPlayed);
      assert Vals(KeyedBy(standings, sortBy)) == standings;
      TopSplitNoDuplicates(KeyedBy(standings, sortBy), keep, n);
      TopSplitChooses(KeyedBy(standings, sortBy), keep, n);
      PartsWithin(s.qualified, s.eliminated, Pick(standings, keep));
      PickWithin(standings, keep);
    case ByFormula(ts, threshold, op) =>
      var scores := Scores(ar, ts, standings);
      assert Vals(KeyedScores(standings, scores)) == standings;
      PartSplitDivides(KeyedScores(standings, scores), Passing(scores, op, threshold));
      PartsWithin(s.qualified, s.eliminated, standings);
    case MinHours(minHours) =>
      assert Vals(KeyedBy(standings, [HoursPlayed])) == standings;
      PartSplitDivides(KeyedBy(standings, [HoursPlayed]), LongEnough(standings, minHours));
      PartsWithin(s.qualified, s.eliminated, standings);
    case OtherRule =>
  }

  lemma PartsDiffer<T>(q: seq<T>, e: seq<T>)
    requires NoDuplicates(q + e)
    ensures NoDuplicates(q) && NoDuplicates(e)
    ensures forall i, j :: 0 <= i < |q| && 0 <= j < |e| ==> q[i] != e[j]
  {
    assert forall i :: 0 <= i < |q| ==> q[i] == (q + e)[i];
    forall i, j | 0 <= i < |q| && 0 <= j < |e| ensures q[i] != e[j] {
      assert e[j] == (q + e)[|q| + j];
    }
    forall i, j | 0 <= i < j < |e| ensures e[i] != e[j] {
      assert e[i] == (q + e)[|q| + i] && e[j] == (q + e)[|q| + j];
    }
  }

  /** Qualified teams are marked and ranked from 1; eliminated ones are unmarked and keep the rank they had. */
  method Judge(qualified: seq<TeamStanding>, eliminated: seq<TeamStanding>)
    requires NoDuplicates(qualified + eliminated)
    modifies qualified`isQualified, qualified`rank, eliminated`isQualified
    ensures forall i :: 0 <= i < |qualified| ==> qualified[i].isQualified && qualified[i].rank == Some(i + 1)
    ensures forall i :: 0 <= i < |eliminated| ==> !eliminated[i].isQualified
  {
    PartsDiffer(qualified, eliminated);
    for i := 0 to |qualified|
      invariant forall k :: 0 <= k < i ==> qualified[k].isQualified && qualified[k].rank == Some(k + 1)
    {
      qualified[i].isQualified := true;
      qualified[i].rank := Some(i + 1);
    }
    for i := 0 to |eliminated|
      invariant forall k :: 0 <= k < |qualified| ==> qualified[k].isQualified && qualified[k].rank == Some(k + 1)
      invariant forall k :: 0 <= k < i ==> !eliminated[k].isQualified
    {
      eliminated[i].isQualified := false;
    }
  }

  method Decide(ar: Formula.Arithmetic, standings: seq<TeamStanding>, rule: Rule) returns (r: Result<Split<TeamStanding>, Error>)
    requires NoDuplicates(standings)
    modifies standings`customScore
    ensures r == old(Decision(ar, standings, rule))
  {
    match rule
    case OtherRule =>
      r := Err(UnknownRule);
    case TopN(n, sortBy, minPlayed) =>
      var split := EvalTopN(standings, n, sortBy, minPlayed);
      r := Ok(split);
    case ByFormula(ts, threshold, op) =>
      r := EvalFormula(ar, standings, ts, threshold, op);
    case MinHours(minHours) =>
      var split := EvalMinHours(standings, minHours);
      r := Ok(split);
  }

  /** Carries out a rule's decision on the rows; a failing rule changes no rank and no mark. */
  method Evaluate(ar: Formula.Arithmetic, standings: seq<TeamStanding>, rule: Rule) returns (r: Result<Split<TeamStanding>, Error>)
    requires NoDuplicates(standings)
    modifies standings`customScore, standings`isQualified, standings`rank
    ensures r == old(Decision(ar, standings, rule))
    ensures r.Ok? ==>
              && (forall i :: 0 <= i < |r.value.qualified| ==>
                    r.value.qualified[i].isQualified && r.value.qualified[i].rank == Some(i + 1))
              && (forall i :: 0 <= i < |r.value.eliminated| ==> !r.value.eliminated[i].isQualified)
    ensures forall s :: s in standings && (r.Err? || s !in r.value.qualified) ==> s.rank == old(s.rank)
    ensures forall s :: s in standings && (r.Err? || (s !in r.value.qualified && s !in r.value.eliminated)) ==>
              s.isQualified == old(s.isQualified)
  {
    ghost var decision := Decision(ar, standings, rule);
    if decision.Ok? {
      DecisionDivides(ar, standings, rule);
    }
    r := Decide(ar, standings, rule);
    if r.Ok? {
      Judge(r.value.qualified, r.value.eliminated);
    }
  }
}
