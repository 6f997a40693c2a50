/**
 * The Poisson match-outcome model of examples/poisson_model.py.
 *
 * A `PoissonModel` is fitted on finished matches: league means of home and
 * away goals, then for every team four ratings relative to those means. A
 * fixture's expected goals multiply the ratings and add a flat home
 * advantage; outcome and goal-market probabilities add up the cells of a
 * bounded scoreline grid whose per-goal Poisson probabilities are supplied
 * by the caller (`pmf`), as are the bookmaker odds for the value calculation.
 */
module Poisson {
  import opened Common
  import opened Sorting

  /** One finished match, as `fit` reads it. */
  datatype MatchRecord = MatchRecord(homeTeam: string, awayTeam: string, homeGoals: nat, awayGoals: nat)

  /** A pandas float that may be NaN: the mean of an empty column is NaN. */
  datatype Float = NaN | Num(value: real)

  /** The ratings `fit` stores for one team. */
  datatype TeamRating = TeamRating(
    homeAttack: real, homeDefense: real, awayAttack: real, awayDefense: real,
    homeMatches: nat, awayMatches: nat)

  // ---------------------------------------------------------------------------
  // Means and league baselines
  // ---------------------------------------------------------------------------

  function Sum(xs: seq<nat>): nat
  {
    if xs == [] then 0 else Sum(xs[..|xs| - 1]) + xs[|xs| - 1]
  }

  /** Arithmetic mean of a non-empty column, 0 for an empty one. */
  function Average(xs: seq<nat>): (m: real)
    ensures m >= 0.0
  {
    if |xs| == 0 then 0.0 else Sum(xs) as real / |xs| as real
  }

  /** The mean of a non-empty column times its length is the column's total. */
  lemma AverageTimesLength(xs: seq<nat>)
    requires |xs| > 0
    ensures Average(xs) * |xs| as real == Sum(xs) as real
  {
  }

  /** pandas `Series.mean()`: NaN for an empty column. */
  function Mean(xs: seq<nat>): (m: Float)
    ensures m.NaN? <==> |xs| == 0
  {
    if |xs| == 0 then NaN else Num(Average(xs))
  }

  function HomeGoals(ms: seq<MatchRecord>): (r: seq<nat>)
    ensures |r| == |ms| && forall i :: 0 <= i < |ms| ==> r[i] == ms[i].homeGoals
  {
    seq(|ms|, i requires 0 <= i < |ms| => ms[i].homeGoals)
  }

  function AwayGoals(ms: seq<MatchRecord>): (r: seq<nat>)
    ensures |r| == |ms| && forall i :: 0 <= i < |ms| ==> r[i] == ms[i].awayGoals
  {
    seq(|ms|, i requires 0 <= i < |ms| => ms[i].awayGoals)
  }

  /** `matches[matches['home_team'] == team]`. */
  function HomeMatches(ms: seq<MatchRecord>, team: string): seq<MatchRecord>
  {
    Filter(ms, (m: MatchRecord) => m.homeTeam == team)
  }

  /** `matches[matches['away_team'] == team]`. */
  function AwayMatches(ms: seq<MatchRecord>, team: string): seq<MatchRecord>
  {
    Filter(ms, (m: MatchRecord) => m.awayTeam == team)
  }

  /** Every team appearing as home or away side in some match. */
  function Teams(ms: seq<MatchRecord>): (r: set<string>)
    ensures forall i :: 0 <= i < |ms| ==> ms[i].homeTeam in r && ms[i].awayTeam in r
  {
    (set i | 0 <= i < |ms| :: ms[i].homeTeam) + (set i | 0 <= i < |ms| :: ms[i].awayTeam)
  }

  /** `x / base if base > 0 else 1`. */
  function Ratio(x: real, base: real): real
  {
    if base > 0.0 then x / base else 1.0
  }

  /** The rating `fit` computes for `team`, given the two league means. A role
      the team never played falls back to the league mean for that role. */
  function RateTeam(ms: seq<MatchRecord>, team: string, avgHome: real, avgAway: real): TeamRating
  {
    var hm := HomeMatches(ms, team);
    var am := AwayMatches(ms, team);
    var homeScored := if |hm| > 0 then Average(HomeGoals(hm)) else avgHome;
    var homeConceded := if |hm| > 0 then Average(AwayGoals(hm)) else avgAway;
    var awayScored := if |am| > 0 then Average(AwayGoals(am)) else avgAway;
    var awayConceded := if |am| > 0 then Average(HomeGoals(am)) else avgHome;
    TeamRating(
      Ratio(homeScored, avgHome), Ratio(homeConceded, avgAway),
      Ratio(awayScored, avgAway), Ratio(awayConceded, avgHome),
      |hm|, |am|)
  }

  /** The ratings of the teams in `teams`. */
  function Ratings(ms: seq<MatchRecord>, teams: set<string>, avgHome: real, avgAway: real): (r: map<string, TeamRating>)
    ensures r.Keys == teams
  {
    map t | t in teams :: RateTeam(ms, t, avgHome, avgAway)
  }

  /** The entries one `fit` writes: one per team of `ms`. */
  function FittedRatings(ms: seq<MatchRecord>): (r: map<string, TeamRating>)
    ensures r.Keys == Teams(ms)
  {
    Ratings(ms, Teams(ms), Average(HomeGoals(ms)), Average(AwayGoals(ms)))
  }

  // ---------------------------------------------------------------------------
  // Expected goals, probabilities and odds
  // ---------------------------------------------------------------------------

  datatype XgError =
    | UnknownTeam(available: set<string>)  // `ValueError` listing the fitted teams
    | NotANumber                           // the last fit saw no matches: NaN league means

  /** `home_attack * away_defense * avg_home + home_advantage` and
      `away_attack * home_defense * avg_away`. */
  function ExpectedGoals(home: TeamRating, away: TeamRating, avgHome: real, avgAway: real, homeAdvantage: real): (real, real)
  {
    (home.homeAttack * away.awayDefense * avgHome + homeAdvantage,
     away.awayAttack * home.homeDefense * avgAway)
  }

  /** A decimal price, or the `float('inf')` the source uses for probability 0. */
  datatype Odds = Finite(price: real) | Infinity

  /** `fair_odds`: `1 / probability`, infinite unless the probability is positive. */
  function FairOdds(probability: real): (r: Odds)
    ensures r.Infinity? <==> probability <= 0.0
    ensures r.Finite? ==> r.price * probability == 1.0
  {
    if probability > 0.0 then Finite(1.0 / probability) else Infinity
  }

  /** `implied_probability`: `1 / odds`; `None` where Python divides by zero. */
  function ImpliedProbability(odds: real): (r: Option<real>)
    ensures r.None? <==> odds == 0.0
    ensures r.Some? ==> r.value * odds == 1.0
  {
    if odds == 0.0 then None else Some(1.0 / odds)
  }

  /** The two conversions are inverse to each other on positive values. */
  lemma FairOddsImpliedRoundTrip(p: real)
    requires p > 0.0
    ensures FairOdds(p).Finite?
    ensures ImpliedProbability(FairOdds(p).price) == Some(p)
    ensures FairOdds(ImpliedProbability(p).value) == Finite(p)
  {
    var f := 1.0 / p;
    assert f * p == 1.0;
    assert 1.0 / f == p;
  }

  lemma MulStrictlyMonotone(x: real, y: real, c: real)
    requires c > 0.0 && x > y
    ensures x * c > y * c
  {
    assert (x - y) * c > 0.0;
  }

  /** Expected value in percent of a unit stake at decimal `odds`. */
  function ExpectedValue(probability: real, odds: real): real
  {
    (probability * odds - 1.0) * 100.0
  }

  /** A bet has positive expected value exactly when the bookmaker's price
      beats the fair price of the probability. */
  lemma PositiveValueIffPriceBeatsFairOdds(p: real, odds: real)
    requires p > 0.0
    ensures ExpectedValue(p, odds) > 0.0 <==> odds > FairOdds(p).price
  {
    var f := 1.0 / p;
    assert f * p == 1.0;
    if odds > f {
      MulStrictlyMonotone(odds, f, p);
    } else if odds < f {
      MulStrictlyMonotone(f, odds, p);
    }
  }

  lemma ValueOfEvenChanceAtTwoTen()
    ensures ExpectedValue(0.5, 2.10) == 5.0
  {
  }

  // ---------------------------------------------------------------------------
  // The scoreline grid
  // ---------------------------------------------------------------------------

  /** The sets of scorelines that `predict_probabilities` adds up. */
  datatype Market = HomeWin | Draw | AwayWin | Over25 | Under25 | Over15 | BttsYes | AnyScore

  predicate InMarket(m: Market, h: nat, a: nat)
  {
    match m
    case HomeWin => h > a
    case Draw => h == a
    case AwayWin => h < a
    case Over25 => (h + a) as real > 2.5
    case Under25 => !((h + a) as real > 2.5)
    case Over15 => (h + a) as real > 1.5
    case BttsYes => h > 0 && a > 0
    case AnyScore => true
  }

  /** The joint probability of scoreline (h, a), counted when it is in `m`. */
  function Cell(hp: seq<real>, ap: seq<real>, m: Market, h: nat, a: nat): real
    requires h < |hp| && a < |ap|
  {
    if InMarket(m, h, a) then hp[h] * ap[a] else 0.0
  }

  /** Mass of market `m` in row `h`, columns `0 .. cols - 1`. */
  function RowMass(hp: seq<real>, ap: seq<real>, m: Market, h: nat, cols: nat): real
    requires h < |hp| && cols <= |ap|
  {
    if cols == 0 then 0.0 else RowMass(hp, ap, m, h, cols - 1) + Cell(hp, ap, m, h, cols - 1)
  }

  /** Mass of market `m` in rows `0 .. rows - 1`, columns `0 .. cols - 1`. */
  function GridMass(hp: seq<real>, ap: seq<real>, m: Market, rows: nat, cols: nat): real
    requires rows <= |hp| && cols <= |ap|
  {
    if rows == 0 then 0.0 else GridMass(hp, ap, m, rows - 1, cols) + RowMass(hp, ap, m, rows - 1, cols)
  }

  /** Sum of the first `n` entries. */
  function SumTo(xs: seq<real>, n: nat): real
    requires n <= |xs|
  {
    if n == 0 then 0.0 else SumTo(xs, n - 1) + xs[n - 1]
  }

  /** The unrounded values of the markets in the dictionary `predict_probabilities` returns. */
  datatype Markets = Markets(
    homeWin: real, draw: real, awayWin: real,
    over25: real, under25: real, over15: real, under15: real,
    bttsYes: real, bttsNo: real)

  /** The markets over the full square grid of `hp` by `ap`. `under_25` is its
      own sum; `under_15` and `btts_no` are complements of their partners. */
  function GridMarkets(hp: seq<real>, ap: seq<real>): Markets
    requires |hp| == |ap|
  {
    var n := |hp|;
    Markets(
      GridMass(hp, ap, HomeWin, n, n), GridMass(hp, ap, Draw, n, n), GridMass(hp, ap, AwayWin, n, n),
      GridMass(hp, ap, Over25, n, n), GridMass(hp, ap, Under25, n, n),
      GridMass(hp, ap, Over15, n, n), 1.0 - GridMass(hp, ap, Over15, n, n),
      GridMass(hp, ap, BttsYes, n, n), 1.0 - GridMass(hp, ap, BttsYes, n, n))
  }

  lemma {:induction false} RowResultPartition(hp: seq<real>, ap: seq<real>, h: nat, cols: nat)
    requires h < |hp| && cols <= |ap|
    ensures RowMass(hp, ap, HomeWin, h, cols) + RowMass(hp, ap, Draw, h, cols) + RowMass(hp, ap, AwayWin, h, cols)
         == RowMass(hp, ap, AnyScore, h, cols)
  {
    if cols > 0 {
      RowResultPartition(hp, ap, h, cols - 1);
    }
  }

  /** Every cell goes to exactly one of home win, draw and away win, so the
      three add up to the mass of the whole grid. */
  lemma {:induction false} ResultPartition(hp: seq<real>, ap: seq<real>, rows: nat, cols: nat)
    requires rows <= |hp| && cols <= |ap|
    ensures GridMass(hp, ap, HomeWin, rows, cols) + GridMass(hp, ap, Draw, rows, cols) + GridMass(hp, ap, AwayWin, rows, cols)
         == GridMass(hp, ap, AnyScore, rows, cols)
  {
    if rows > 0 {
      ResultPartition(hp, ap, rows - 1, cols);
      RowResultPartition(hp, ap, rows - 1, cols);
    }
  }

  lemma {:induction false} RowGoalsPartition(hp: seq<real>, ap: seq<real>, h: nat, cols: nat)
    requires h < |hp| && cols <= |ap|
    ensures RowMass(hp, ap, Over25, h, cols) + RowMass(hp, ap, Under25, h, cols) == RowMass(hp, ap, AnyScore, h, cols)
  {
    if cols > 0 {
      RowGoalsPartition(hp, ap, h, cols - 1);
    }
  }

  /** Over 2.5 and under 2.5 are summed separately, and together they are the
      mass of the whole grid. */
  lemma {:induction false} GoalsPartition(hp: seq<real>, ap: seq<real>, rows: nat, cols: nat)
    requires rows <= |hp| && cols <= |ap|
    ensures GridMass(hp, ap, Over25, rows, cols) + GridMass(hp, ap, Under25, rows, cols)
         == GridMass(hp, ap, AnyScore, rows, cols)
  {
    if rows > 0 {
      GoalsPartition(hp, ap, rows - 1, cols);
      RowGoalsPartition(hp, ap, rows - 1, cols);
    }
  }

  lemma {:induction false} RowMassProduct(hp: seq<real>, ap: seq<real>, h: nat, cols: nat)
    requires h < |hp| && cols <= |ap|
    ensures RowMass(hp, ap, AnyScore, h, cols) == hp[h] * SumTo(ap, cols)
  {
    if cols > 0 {
      RowMassProduct(hp, ap, h, cols - 1);
      MulAdd(RowMass(hp, ap, AnyScore, h, cols), RowMass(hp, ap, AnyScore, h, cols - 1),
             Cell(hp, ap, AnyScore, h, cols - 1),
             hp[h], SumTo(ap, cols), SumTo(ap, cols - 1), ap[cols - 1]);
    }
  }

  /** One step of a running sum scaled by a constant factor `c` on the left. */
  lemma MulAdd(total: real, prev: real, cell: real, c: real, sum: real, sumPrev: real, y: real)
    requires total == prev + cell && prev == c * sumPrev && cell == c * y && sum == sumPrev + y
    ensures total == c * sum
  {
  }

  /** One step of a running sum scaled by a constant factor `c` on the right. */
  lemma AddMul(total: real, prev: real, row: real, sum: real, sumPrev: real, x: real, c: real)
    requires total == prev + row && prev == sumPrev * c && row == x * c && sum == sumPrev + x
    ensures total == sum * c
  {
  }

  /** Home and away goals are independent: the grid's mass is the product of
      the two marginal masses. */
  lemma {:induction false} GridMassProduct(hp: seq<real>, ap: seq<real>, rows: nat, cols: nat)
    requires rows <= |hp| && cols <= |ap|
    ensures GridMass(hp, ap, AnyScore, rows, cols) == SumTo(hp, rows) * SumTo(ap, cols)
  {
    if rows > 0 {
      GridMassProduct(hp, ap, rows - 1, cols);
      RowMassProduct(hp, ap, rows - 1, cols);
      AddMul(GridMass(hp, ap, AnyScore, rows, cols), GridMass(hp, ap, AnyScore, rows - 1, cols),
             RowMass(hp, ap, AnyScore, rows - 1, cols),
             SumTo(hp, rows), SumTo(hp, rows - 1), hp[rows - 1], SumTo(ap, cols));
    }
  }

  lemma {:induction false} RowMassBounds(hp: seq<real>, ap: seq<real>, m: Market, h: nat, cols: nat)
    requires h < |hp| && cols <= |ap|
    requires forall i :: 0 <= i < |hp| ==> hp[i] >= 0.0
    requires forall j :: 0 <= j < |ap| ==> ap[j] >= 0.0
    ensures 0.0 <= RowMass(hp, ap, m, h, cols) <= RowMass(hp, ap, AnyScore, h, cols)
  {
    if cols > 0 {
      RowMassBounds(hp, ap, m, h, cols - 1);
      assert hp[h] * ap[cols - 1] >= 0.0;
    }
  }

  /** With non-negative probabilities, every market lies between 0 and the
      grid's mass. */
  lemma {:induction false} GridMassBounds(hp: seq<real>, ap: seq<real>, m: Market, rows: nat, cols: nat)
    requires rows <= |hp| && cols <= |ap|
    requires forall i :: 0 <= i < |hp| ==> hp[i] >= 0.0
    requires forall j :: 0 <= j < |ap| ==> ap[j] >= 0.0
    ensures 0.0 <= GridMass(hp, ap, m, rows, cols) <= GridMass(hp, ap, AnyScore, rows, cols)
  {
    if rows > 0 {
      GridMassBounds(hp, ap, m, rows - 1, cols);
      RowMassBounds(hp, ap, m, rows - 1, cols);
    }
  }

  /** Bookkeeping of `predict_probabilities`: the 1X2 outcomes and over/under
      2.5 each partition the grid, while `under_15` and `btts_no` are exact
      complements. When both per-goal vectors carry all the mass (sum to 1),
      1X2 sums to 1; otherwise the mass beyond the grid ends up in `under_15`
      and `btts_no`. */
  lemma MarketsBookkeeping(hp: seq<real>, ap: seq<real>)
    requires |hp| == |ap|
    ensures var p := GridMarkets(hp, ap);
      var total := SumTo(hp, |hp|) * SumTo(ap, |ap|);
      && p.homeWin + p.draw + p.awayWin == total
      && p.over25 + p.under25 == total
      && p.under15 == 1.0 - p.over15
      && p.bttsNo == 1.0 - p.bttsYes
  {
    var n := |hp|;
    var p := GridMarkets(hp, ap);
    assert p.homeWin == GridMass(hp, ap, HomeWin, n, n) && p.draw == GridMass(hp, ap, Draw, n, n)
        && p.awayWin == GridMass(hp, ap, AwayWin, n, n);
    assert p.over25 == GridMass(hp, ap, Over25, n, n) && p.under25 == GridMass(hp, ap, Under25, n, n);
    ResultPartition(hp, ap, n, n);
    GoalsPartition(hp, ap, n, n);
    GridMassProduct(hp, ap, n, n);
  }

  lemma OutcomesSumToOne(hp: seq<real>, ap: seq<real>)
    requires |hp| == |ap|
    requires SumTo(hp, |hp|) == 1.0 && SumTo(ap, |ap|) == 1.0
    ensures var p := GridMarkets(hp, ap); p.homeWin + p.draw + p.awayWin == 1.0
  {
    MarketsBookkeeping(hp, ap);
  }

  /** With non-negative probabilities, `under_15` is at least as large as
      the grid mass of "at most one goal": the truncated tail counts as under. */
  lemma TruncatedTailCountsAsUnder(hp: seq<real>, ap: seq<real>)
    requires |hp| == |ap|
    requires forall i :: 0 <= i < |hp| ==> hp[i] >= 0.0
    requires forall j :: 0 <= j < |ap| ==> ap[j] >= 0.0
    requires SumTo(hp, |hp|) <= 1.0 && SumTo(ap, |ap|) <= 1.0
    ensures var p := GridMarkets(hp, ap);
      && 0.0 <= p.under15 <= 1.0
      && 0.0 <= p.bttsNo <= 1.0
  {
    var n := |hp|;
    GridMassBounds(hp, ap, Over15, n, n);
    GridMassBounds(hp, ap, BttsYes, n, n);
    GridMassProduct(hp, ap, n, n);
    SumToNonNegative(hp, n);
    SumToNonNegative(ap, n);
    var a := SumTo(hp, n);
    var b := SumTo(ap, n);
    assert a * b <= 1.0 by {
      assert a * b <= 1.0 * b;
    }
  }

  lemma {:induction false} SumToNonNegative(xs: seq<real>, n: nat)
    requires n <= |xs|
    requires forall i :: 0 <= i < |xs| ==> xs[i] >= 0.0
    ensures SumTo(xs, n) >= 0.0
  {
    if n > 0 {
      SumToNonNegative(xs, n - 1);
    }
  }

  /** `[poisson.pmf(i, rate) for i in range(n)]`. */
  function PmfVector(pmf: (nat, real) -> real, rate: real, n: nat): (r: seq<real>)
    ensures |r| == n
  {
    seq(n, i requires 0 <= i < n => pmf(i, rate))
  }

  /** The nested loops of `predict_probabilities` over the square grid of
      `hp` by `ap`. */
  method AggregateGrid(hp: seq<real>, ap: seq<real>) returns (p: Markets)
    requires |hp| == |ap|
    ensures p == GridMarkets(hp, ap)
  {
    var n := |hp|;
    var homeWin, draw, awayWin := 0.0, 0.0, 0.0;
    var over25, under25, over15, bttsYes := 0.0, 0.0, 0.0, 0.0;
    var h := 0;
    while h < n
      invariant 0 <= h <= n
      invariant homeWin == GridMass(hp, ap, HomeWin, h, n)
      invariant draw == GridMass(hp, ap, Draw, h, n)
      invariant awayWin == GridMass(hp, ap, AwayWin, h, n)
      invariant over25 == GridMass(hp, ap, Over25, h, n)
      invariant under25 == GridMass(hp, ap, Under25, h, n)
      invariant over15 == GridMass(hp, ap, Over15, h, n)
      invariant bttsYes == GridMass(hp, ap, BttsYes, h, n)
    {
      var a := 0;
      while a < n
        invariant 0 <= a <= n
        invariant homeWin == GridMass(hp, ap, HomeWin, h, n) + RowMass(hp, ap, HomeWin, h, a)
        invariant draw == GridMass(hp, ap, Draw, h, n) + RowMass(hp, ap, Draw, h, a)
        invariant awayWin == GridMass(hp, ap, AwayWin, h, n) + RowMass(hp, ap, AwayWin, h, a)
        invariant over25 == GridMass(hp, ap, Over25, h, n) + RowMass(hp, ap, Over25, h, a)
        invariant under25 == GridMass(hp, ap, Under25, h, n) + RowMass(hp, ap, Under25, h, a)
        invariant over15 == GridMass(hp, ap, Over15, h, n) + RowMass(hp, ap, Over15, h, a)
        invariant bttsYes == GridMass(hp, ap, BttsYes, h, n) + RowMass(hp, ap, BttsYes, h, a)
      {
        homeWin, draw, awayWin, over25, under25, over15, bttsYes :=
          AddCell(hp, ap, h, a, homeWin, draw, awayWin, over25, under25, over15, bttsYes);
        a := a + 1;
      }
      h := h + 1;
    }
    p := Markets(homeWin, draw, awayWin, over25, under25, over15, 1.0 - over15, bttsYes, 1.0 - bttsYes);
  }

  /** The body of the inner loop of `predict_probabilities`: the cell's joint
      probability is added to every market the scoreline belongs to. */
  method AddCell(hp: seq<real>, ap: seq<real>, h: nat, a: nat,
                 homeWin0: real, draw0: real, awayWin0: real, over250: real, under250: real, over150: real, bttsYes0: real)
    returns (homeWin: real, draw: real, awayWin: real, over25: real, under25: real, over15: real, bttsYes: real)
    requires h < |hp| && a < |ap|
    ensures homeWin == homeWin0 + Cell(hp, ap, HomeWin, h, a)
    ensures draw == draw0 + Cell(hp, ap, Draw, h, a)
    ensures awayWin == awayWin0 + Cell(hp, ap, AwayWin, h, a)
    ensures over25 == over250 + Cell(hp, ap, Over25, h, a)
    ensures under25 == under250 + Cell(hp, ap, Under25, h, a)
    ensures over15 == over150 + Cell(hp, ap, Over15, h, a)
    ensures bttsYes == bttsYes0 + Cell(hp, ap, BttsYes, h, a)
  {
    homeWin, draw, awayWin, over25, under25, over15, bttsYes :=
      homeWin0, draw0, awayWin0, over250, under250, over150, bttsYes0;
    var prob := hp[h] * ap[a];
    if h > a {
      homeWin := homeWin + prob;
    } else if h < a {
      awayWin := awayWin + prob;
    } else {
      draw := draw + prob;
    }
    var totalGoals := h + a;
    if totalGoals as real > 2.5 {
      over25 := over25 + prob;
    } else {
      under25 := under25 + prob;
    }
    if totalGoals as real > 1.5 {
      over15 := over15 + prob;
    }
    if h > 0 && a > 0 {
      bttsYes := bttsYes + prob;
    }
  }

  /** What `predict_probabilities` returns: expected goals and the markets. */
  datatype Probabilities = Probabilities(homeXg: real, awayXg: real, markets: Markets)

  /** The returned dictionary, under its own keys. */
  function ProbabilityTable(p: Probabilities): (t: map<string, real>)
    ensures t.Keys == {"home_xg", "away_xg", "home_win", "draw", "away_win", "over_25", "under_25",
                       "over_15", "under_15", "btts_yes", "btts_no"}
  {
    map["home_xg" := p.homeXg, "away_xg" := p.awayXg,
        "home_win" := p.markets.homeWin, "draw" := p.markets.draw, "away_win" := p.markets.awayWin,
        "over_25" := p.markets.over25, "under_25" := p.markets.under25,
        "over_15" := p.markets.over15, "under_15" := p.markets.under15,
        "btts_yes" := p.markets.bttsYes, "btts_no" := p.markets.bttsNo]
  }

  /** One row of the correct-score table. */
  datatype ScoreLine = ScoreLine(score: string, homeGoals: nat, awayGoals: nat, probability: real, impliedOdds: Odds)

  /** The row for scoreline (h, a) with joint probability `prob`. */
  function MakeScoreLine(h: nat, a: nat, prob: real): (s: ScoreLine)
    ensures s.impliedOdds.Infinity? <==> prob <= 0.0
  {
    ScoreLine(NatToString(h) + "-" + NatToString(a), h, a, prob, FairOdds(prob))
  }

  /** The largest goal count per side of the correct-score grid, plus one. */
  const ScoreGridSize: nat := 7

  /** The first `a` cells of row `h` of the correct-score grid, in scan order. */
  function ScoreRow(hp: seq<real>, ap: seq<real>, h: nat, a: nat): (r: seq<ScoreLine>)
    requires h < |hp| && a <= |ap|
    ensures |r| == a
    ensures forall j :: 0 <= j < a ==> r[j] == MakeScoreLine(h, j, hp[h] * ap[j])
  {
    if a == 0 then [] else ScoreRow(hp, ap, h, a - 1) + [MakeScoreLine(h, a - 1, hp[h] * ap[a - 1])]
  }

  /** The first `h` full rows of the correct-score grid of width `n`, in scan order. */
  function ScoreRows(hp: seq<real>, ap: seq<real>, h: nat, n: nat): (r: seq<ScoreLine>)
    requires h <= |hp| && n <= |ap|
  {
    if h == 0 then [] else ScoreRows(hp, ap, h - 1, n) + ScoreRow(hp, ap, h - 1, n)
  }

  /** `h` rows of `n` cells are `h * n` scorelines. */
  lemma {:induction false} ScoreRowsLength(hp: seq<real>, ap: seq<real>, h: nat, n: nat)
    requires h <= |hp| && n <= |ap|
    ensures |ScoreRows(hp, ap, h, n)| == h * n
  {
    if h > 0 {
      ScoreRowsLength(hp, ap, h - 1, n);
      var front := ScoreRows(hp, ap, h - 1, n);
      var row := ScoreRow(hp, ap, h - 1, n);
      assert ScoreRows(hp, ap, h, n) == front + row;
      LengthStep(|front|, |row|, h, n);
    }
  }

  lemma LengthStep(front: nat, row: nat, h: nat, n: nat)
    requires h > 0 && front == (h - 1) * n && row == n
    ensures front + row == h * n
  {
  }

  /** `s` is the row of a cell of the grid of `hp` by `ap`, with that
      cell's joint probability and the matching implied odds. */
  predicate GridCell(hp: seq<real>, ap: seq<real>, s: ScoreLine)
  {
    && s.homeGoals < |hp| && s.awayGoals < |ap|
    && s.probability == hp[s.homeGoals] * ap[s.awayGoals]
    && (s.impliedOdds.Infinity? <==> s.probability <= 0.0)
  }

  /** Every row of the scan is a grid cell. */
  lemma {:induction false} ScoreRowsCells(hp: seq<real>, ap: seq<real>, rows: nat, n: nat, k: nat)
    requires rows <= |hp| && n <= |ap|
    requires k < |ScoreRows(hp, ap, rows, n)|
    ensures GridCell(hp, ap, ScoreRows(hp, ap, rows, n)[k])
  {
    var front := ScoreRows(hp, ap, rows - 1, n);
    var last := ScoreRow(hp, ap, rows - 1, n);
    var x := ScoreRows(hp, ap, rows, n)[k];
    assert ScoreRows(hp, ap, rows, n) == front + last;
    if k >= |front| {
      assert x == last[k - |front|];
      ScoreRowCell(hp, ap, rows - 1, n, k - |front|);
    } else {
      assert x == front[k];
      ScoreRowsCells(hp, ap, rows - 1, n, k);
    }
    assert GridCell(hp, ap, x);
  }

  lemma ScoreRowCell(hp: seq<real>, ap: seq<real>, h: nat, n: nat, j: nat)
    requires h < |hp| && n <= |ap| && j < n
    ensures GridCell(hp, ap, ScoreRow(hp, ap, h, n)[j])
  {
    assert ScoreRow(hp, ap, h, n)[j] == MakeScoreLine(h, j, hp[h] * ap[j]);
  }

  /** The scan of the whole square grid of `hp` by `ap`. */
  function CorrectScoreGrid(hp: seq<real>, ap: seq<real>): seq<ScoreLine>
    requires |hp| == |ap|
  {
    ScoreRows(hp, ap, |hp|, |ap|)
  }

  /** `predict_correct_score` returns `min(top_n, 49)` rows for a
      non-negative `top_n`, most likely first, each a cell of the 7 x 7 grid
      with its joint probability, and no row less likely than a cell it
      leaves out. */
  lemma CorrectScoreTable(hp: seq<real>, ap: seq<real>, topN: int)
    requires |hp| == ScoreGridSize && |ap| == ScoreGridSize
    ensures var grid := CorrectScoreGrid(hp, ap);
      var r := RankScores(grid, topN);
      && |grid| == 49
      && (topN >= 0 ==> |r| == if topN < 49 then topN else 49)
      && SortedBy(r, ByProbabilityDesc)
      && (forall k :: 0 <= k < |r| ==> GridCell(hp, ap, r[k]))
      && (forall x, y | x in multiset(grid) - multiset(r) && y in r :: y.probability >= x.probability)
  {
    var grid := CorrectScoreGrid(hp, ap);
    var r := RankScores(grid, topN);
    ScoreRowsLength(hp, ap, ScoreGridSize, ScoreGridSize);
    assert |grid| == 49;
    DrawnFromGrid(hp, ap, r);
  }

  /** Rows drawn from the grid are grid cells. */
  lemma DrawnFromGrid(hp: seq<real>, ap: seq<real>, r: seq<ScoreLine>)
    requires |hp| == |ap|
    requires multiset(r) <= multiset(CorrectScoreGrid(hp, ap))
    ensures forall k :: 0 <= k < |r| ==> GridCell(hp, ap, r[k])
  {
    var grid := CorrectScoreGrid(hp, ap);
    forall k | 0 <= k < |r| ensures GridCell(hp, ap, r[k]) {
      assert r[k] in multiset(r);
      assert r[k] in multiset(grid);
      var j :| 0 <= j < |grid| && grid[j] == r[k];
      ScoreRowsCells(hp, ap, |hp|, |ap|, j);
    }
  }

  /** The nested loops of `predict_correct_score`: one row per scoreline,
      home goals outer, away goals inner. */
  method ScanScoreGrid(hp: seq<real>, ap: seq<real>) returns (scores: seq<ScoreLine>)
    requires |hp| == |ap|
    ensures scores == CorrectScoreGrid(hp, ap)
  {
    var n := |hp|;
    scores := [];
    var h := 0;
    while h < n
      invariant 0 <= h <= n
      invariant scores == ScoreRows(hp, ap, h, n)
    {
      var row := ScanScoreRow(hp, ap, h);
      scores := scores + row;
      h := h + 1;
    }
  }

  /** The inner loop of `predict_correct_score`: the scorelines with `h`
      home goals, away goals ascending. */
  method ScanScoreRow(hp: seq<real>, ap: seq<real>, h: nat) returns (row: seq<ScoreLine>)
    requires h < |hp|
    ensures row == ScoreRow(hp, ap, h, |ap|)
  {
    row := [];
    var a := 0;
    while a < |ap|
      invariant 0 <= a <= |ap|
      invariant row == ScoreRow(hp, ap, h, a)
    {
      var prob := hp[h] * ap[a];
      row := row + [MakeScoreLine(h, a, prob)];
      a := a + 1;
    }
  }

  /** Higher probability first. */
  function ByProbabilityDesc(x: ScoreLine, y: ScoreLine): bool
  {
    x.probability >= y.probability
  }

  lemma ByProbabilityDescIsPreorder()
    ensures TotalPreorder(ByProbabilityDesc)
  {
  }

  /** `DataFrame(scores).sort_values('probability', ascending=False).head(top_n)`. */
  function RankScores(scores: seq<ScoreLine>, topN: int): (r: seq<ScoreLine>)
    ensures SortedBy(r, ByProbabilityDesc)
    ensures multiset(r) <= multiset(scores)
    ensures topN >= 0 ==> |r| == if topN < |scores| then topN else |scores|
    ensures forall x, y | x in multiset(scores) - multiset(r) && y in r :: y.probability >= x.probability
  {
    var sorted := SortBy(scores, ByProbabilityDesc);
    ByProbabilityDescIsPreorder();
    SortBySorted(scores, ByProbabilityDesc);
    var r := Prefix(sorted, topN);
    PrefixIsTop(sorted, topN);
    r
  }

  /** A prefix of a ranking is sorted, is drawn from the ranking, and holds
      no row less likely than a row it leaves out. */
  lemma PrefixIsTop(s: seq<ScoreLine>, n: int)
    requires SortedBy(s, ByProbabilityDesc)
    ensures SortedBy(Prefix(s, n), ByProbabilityDesc)
    ensures multiset(Prefix(s, n)) <= multiset(s)
    ensures forall x, y | x in multiset(s) - multiset(Prefix(s, n)) && y in Prefix(s, n) :: y.probability >= x.probability
  {
    var r := Prefix(s, n);
    var rest := s[|r|..];
    assert s == r + rest;
    assert multiset(s) - multiset(r) == multiset(rest);
    PrefixAboveRest(s, |r|);
  }

  lemma PrefixAboveRest(s: seq<ScoreLine>, m: nat)
    requires SortedBy(s, ByProbabilityDesc) && m <= |s|
    ensures forall x, y | x in multiset(s[m..]) && y in s[..m] :: y.probability >= x.probability
  {
    forall x, y | x in multiset(s[m..]) && y in s[..m]
      ensures y.probability >= x.probability
    {
      var j :| 0 <= j < |s[m..]| && s[m..][j] == x;
      var i :| 0 <= i < m && s[..m][i] == y;
      assert s[i] == y && s[m + j] == x;
    }
  }

  lemma RatingsAdd(ms: seq<MatchRecord>, done: set<string>, t: string, avgHome: real, avgAway: real)
    ensures Ratings(ms, done + {t}, avgHome, avgAway) == Ratings(ms, done, avgHome, avgAway)[t := RateTeam(ms, t, avgHome, avgAway)]
  {
  }

  lemma UpdateUnion<K, V>(m: map<K, V>, n: map<K, V>, k: K, v: V)
    ensures (m + n)[k := v] == m + n[k := v]
  {
  }

  /** One step of the loop of `fit`: rating one more team over earlier entries. */
  lemma RatingsStep(before: map<string, TeamRating>, ms: seq<MatchRecord>, done: set<string>, t: string, avgHome: real, avgAway: real)
    ensures (before + Ratings(ms, done, avgHome, avgAway))[t := RateTeam(ms, t, avgHome, avgAway)]
         == before + Ratings(ms, done + {t}, avgHome, avgAway)
  {
    UpdateUnion(before, Ratings(ms, done, avgHome, avgAway), t, RateTeam(ms, t, avgHome, avgAway));
    RatingsAdd(ms, done, t, avgHome, avgAway);
  }

  /** The loop of `fit` over the teams of `ms`: one rating per team written
      over the entries of `stats0`, in any order. */
  method RateTeams(ms: seq<MatchRecord>, stats0: map<string, TeamRating>)
    returns (stats: map<string, TeamRating>)
    ensures stats == stats0 + FittedRatings(ms)
  {
    var avgHome := Average(HomeGoals(ms));
    var avgAway := Average(AwayGoals(ms));
    var teams := Teams(ms);
    stats := stats0;
    var remaining := teams;
    while remaining != {}
      invariant remaining <= teams
      invariant stats == stats0 + Ratings(ms, teams - remaining, avgHome, avgAway)
      decreases remaining
    {
      var team :| team in remaining;
      ghost var done := teams - remaining;
      stats := stats[team := RateTeam(ms, team, avgHome, avgAway)];
      remaining := remaining - {team};
      RatingsStep(stats0, ms, done, team, avgHome, avgAway);
      assert teams - remaining == done + {team};
    }
    assert teams - remaining == teams;
    assert FittedRatings(ms) == Ratings(ms, teams, avgHome, avgAway);
  }

  // ---------------------------------------------------------------------------
  // The model object
  // ---------------------------------------------------------------------------

  /** The five markets `calculate_value` prices, with the odds key of each. */
  const MarketMapping: seq<(string, string)> := [
    ("home_win", "home_odds"), ("draw", "draw_odds"), ("away_win", "away_odds"),
    ("over_25", "over_25_odds"), ("under_25", "under_25_odds")]

  class PoissonModel {
    var homeAdvantage: real
    var teamStats: map<string, TeamRating>
    var leagueAvgHome: Float
    var leagueAvgAway: Float

    constructor (homeAdvantage: real)
      ensures this.homeAdvantage == homeAdvantage
      ensures teamStats == map[]
      ensures leagueAvgHome == Num(0.0) && leagueAvgAway == Num(0.0)
    {
      this.homeAdvantage := homeAdvantage;
      teamStats := map[];
      leagueAvgHome := Num(0.0);
      leagueAvgAway := Num(0.0);
    }

    /** `fit`: sets the league means and writes one rating per team of
        `matches`. Entries of teams from earlier fits that `matches` does
        not mention are kept. */
    method Fit(matches: seq<MatchRecord>)
      modifies this
      ensures homeAdvantage == old(homeAdvantage)
      ensures leagueAvgHome == Mean(HomeGoals(matches))
      ensures leagueAvgAway == Mean(AwayGoals(matches))
      ensures teamStats == old(teamStats) + FittedRatings(matches)
    {
      var meanHome := Mean(HomeGoals(matches));
      var meanAway := Mean(AwayGoals(matches));
      var stats := RateTeams(matches, teamStats);
      teamStats := stats;
      leagueAvgHome := meanHome;
      leagueAvgAway := meanAway;
    }

    /** `predict_xg`, unrounded. */
    function PredictXg(home: string, away: string): (r: Result<(real, real), XgError>)
      reads this
      ensures r == Err(UnknownTeam(teamStats.Keys)) <==> home !in teamStats || away !in teamStats
      ensures r == Err(NotANumber) <==>
        home in teamStats && away in teamStats && (leagueAvgHome.NaN? || leagueAvgAway.NaN?)
      ensures r.Ok? ==> r.value == ExpectedGoals(teamStats[home], teamStats[away],
                                                 leagueAvgHome.value, leagueAvgAway.value, homeAdvantage)
    {
      if home !in teamStats || away !in teamStats then Err(UnknownTeam(teamStats.Keys))
      else if leagueAvgHome.NaN? || leagueAvgAway.NaN? then Err(NotANumber)
      else Ok(ExpectedGoals(teamStats[home], teamStats[away], leagueAvgHome.value, leagueAvgAway.value, homeAdvantage))
    }

    /** `predict_probabilities`, unrounded: the grid is `max_goals + 1` cells a
        side (none for a negative bound, as `range` gives). */
    method PredictProbabilities(home: string, away: string, maxGoals: int, pmf: (nat, real) -> real)
      returns (r: Result<Probabilities, XgError>)
      ensures PredictXg(home, away).Err? ==> r == Err(PredictXg(home, away).error)
      ensures PredictXg(home, away).Ok? ==>
        var (hx, ax) := PredictXg(home, away).value;
        var n := if maxGoals >= 0 then maxGoals + 1 else 0;
        r == Ok(Probabilities(hx, ax, GridMarkets(PmfVector(pmf, hx, n), PmfVector(pmf, ax, n))))
    {
      var xg := PredictXg(home, away);
      if xg.Err? {
        return Err(xg.error);
      }
      var (hx, ax) := xg.value;
      var n := if maxGoals >= 0 then maxGoals + 1 else 0;
      var markets := AggregateGrid(PmfVector(pmf, hx, n), PmfVector(pmf, ax, n));
      r := Ok(Probabilities(hx, ax, markets));
    }

    /** `predict_correct_score`: the fixed 7 x 7 grid,
        ranked by probability, the first `top_n` rows. */
    method PredictCorrectScore(home: string, away: string, topN: int, pmf: (nat, real) -> real)
      returns (r: Result<seq<ScoreLine>, XgError>)
      ensures PredictXg(home, away).Err? ==> r == Err(PredictXg(home, away).error)
      ensures PredictXg(home, away).Ok? ==>
        var (hx, ax) := PredictXg(home, away).value;
        r == Ok(RankScores(CorrectScoreGrid(PmfVector(pmf, hx, ScoreGridSize), PmfVector(pmf, ax, ScoreGridSize)), topN))
    {
      var xg := PredictXg(home, away);
      if xg.Err? {
        return Err(xg.error);
      }
      var (hx, ax) := xg.value;
      var scores := ScanScoreGrid(PmfVector(pmf, hx, ScoreGridSize), PmfVector(pmf, ax, ScoreGridSize));
      r := Ok(RankScores(scores, topN));
    }

    /** `calculate_value`: one entry per mapped market present in both the
        probabilities and the odds, in percent. */
    method CalculateValue(probabilities: map<string, real>, odds: map<string, real>)
      returns (value: map<string, real>)
      ensures forall k :: k in value <==>
        exists i :: 0 <= i < |MarketMapping| && MarketMapping[i].0 == k
                    && k in probabilities && MarketMapping[i].1 in odds
      ensures forall i :: 0 <= i < |MarketMapping| && MarketMapping[i].0 in value ==>
        value[MarketMapping[i].0] == ExpectedValue(probabilities[MarketMapping[i].0], odds[MarketMapping[i].1])
    {
      value := CollectValues(MarketMapping, probabilities, odds);
      MarketMappingKeys();
      forall k | true ensures k in value <==>
        exists i :: 0 <= i < |MarketMapping| && MarketMapping[i].0 == k
                    && k in probabilities && MarketMapping[i].1 in odds
      {
        MappedKeys(MarketMapping, probabilities, odds, k);
      }
      forall i | 0 <= i < |MarketMapping| && MarketMapping[i].0 in value
        ensures value[MarketMapping[i].0] == ExpectedValue(probabilities[MarketMapping[i].0], odds[MarketMapping[i].1])
      {
        MappedKeys(MarketMapping, probabilities, odds, MarketMapping[i].0);
        MappedEntry(MarketMapping, probabilities, odds, i);
      }
    }
  }

  /** The markets are the keys of a dict: no market is listed twice. */
  predicate DistinctMarkets(mapping: seq<(string, string)>)
  {
    forall i, j :: 0 <= i < j < |mapping| ==> mapping[i].0 != mapping[j].0
  }

  lemma MarketMappingKeys()
    ensures DistinctMarkets(MarketMapping)
  {
  }

  /** The values the loop of `calculate_value` writes for `mapping`, one
      market after the other: a market gets its expected value in percent
      when both its probability and its odds are known. */
  function MappedValues(mapping: seq<(string, string)>, probabilities: map<string, real>, odds: map<string, real>)
    : map<string, real>
  {
    if mapping == [] then map[]
    else
      var rest := MappedValues(mapping[..|mapping| - 1], probabilities, odds);
      var (probKey, oddsKey) := mapping[|mapping| - 1];
      if oddsKey in odds && probKey in probabilities
      then rest[probKey := ExpectedValue(probabilities[probKey], odds[oddsKey])]
      else rest
  }

  /** A market has a value exactly when it is mapped and both its probability
      and its odds are present. */
  lemma {:induction false} MappedKeys(mapping: seq<(string, string)>, probabilities: map<string, real>, odds: map<string, real>, k: string)
    ensures k in MappedValues(mapping, probabilities, odds) <==>
      exists i :: 0 <= i < |mapping| && mapping[i].0 == k && k in probabilities && mapping[i].1 in odds
  {
    if mapping != [] {
      var n := |mapping|;
      var init := mapping[..n - 1];
      var rest := MappedValues(init, probabilities, odds);
      MappedKeys(init, probabilities, odds, k);
      if k in MappedValues(mapping, probabilities, odds) {
        if k in rest {
          var i :| 0 <= i < |init| && init[i].0 == k && k in probabilities && init[i].1 in odds;
          assert mapping[i] == init[i];
        } else {
          assert mapping[n - 1].0 == k && k in probabilities && mapping[n - 1].1 in odds;
        }
      }
      if exists i :: 0 <= i < n && mapping[i].0 == k && k in probabilities && mapping[i].1 in odds {
        var i :| 0 <= i < n && mapping[i].0 == k && k in probabilities && mapping[i].1 in odds;
        if i < n - 1 {
          assert init[i] == mapping[i];
          assert k in rest;
        }
      }
    }
  }

  /** With distinct markets, a market whose probability and odds are both
      present has the expected value computed from them. */
  lemma {:induction false} MappedEntry(mapping: seq<(string, string)>, probabilities: map<string, real>, odds: map<string, real>, i: nat)
    requires DistinctMarkets(mapping)
    requires i < |mapping| && mapping[i].0 in probabilities && mapping[i].1 in odds
    ensures mapping[i].0 in MappedValues(mapping, probabilities, odds)
    ensures MappedValues(mapping, probabilities, odds)[mapping[i].0]
         == ExpectedValue(probabilities[mapping[i].0], odds[mapping[i].1])
  {
    var n := |mapping|;
    var init := mapping[..n - 1];
    if i < n - 1 {
      assert init[i] == mapping[i];
      assert DistinctMarkets(init) by {
        forall a, b | 0 <= a < b < |init| ensures init[a].0 != init[b].0 {
          assert init[a] == mapping[a] && init[b] == mapping[b];
        }
      }
      MappedEntry(init, probabilities, odds, i);
      assert mapping[i].0 != mapping[n - 1].0;
    }
  }

  /** The loop of `calculate_value` over the market mapping. */
  method CollectValues(mapping: seq<(string, string)>, probabilities: map<string, real>, odds: map<string, real>)
    returns (value: map<string, real>)
    ensures value == MappedValues(mapping, probabilities, odds)
  {
    value := map[];
    var i := 0;
    while i < |mapping|
      invariant 0 <= i <= |mapping|
      invariant value == MappedValues(mapping[..i], probabilities, odds)
    {
      var (probKey, oddsKey) := mapping[i];
      value := AddMarketValue(value, probKey, oddsKey, probabilities, odds);
      assert mapping[..i + 1][..i] == mapping[..i];
      i := i + 1;
    }
    assert mapping[..i] == mapping;
  }

  /** One step of the loop of `calculate_value`: the market gets its expected
      value in percent when both its probability and its odds are known. */
  method AddMarketValue(value0: map<string, real>, probKey: string, oddsKey: string,
                        probabilities: map<string, real>, odds: map<string, real>)
    returns (value: map<string, real>)
    ensures oddsKey in odds && probKey in probabilities ==>
      value == value0[probKey := ExpectedValue(probabilities[probKey], odds[oddsKey])]
    ensures !(oddsKey in odds && probKey in probabilities) ==> value == value0
  {
    value := value0;
    if oddsKey in odds && probKey in probabilities {
      var prob := probabilities[probKey];
      var decimalOdds := odds[oddsKey];
      var ev := prob * decimalOdds - 1.0;
      assert ev * 100.0 == ExpectedValue(prob, decimalOdds);
      value := value[probKey := ev * 100.0];
    }
  }

  // ---------------------------------------------------------------------------
  // Properties of the fitted ratings
  // ---------------------------------------------------------------------------

  /** After a fit on a fresh model, a rating exists for exactly the teams that
      play in some match, as home or away side. */
  lemma FittedTeamsExactly(ms: seq<MatchRecord>, t: string)
    ensures t in FittedRatings(ms) <==>
      exists i :: 0 <= i < |ms| && (ms[i].homeTeam == t || ms[i].awayTeam == t)
  {
    if exists i :: 0 <= i < |ms| && (ms[i].homeTeam == t || ms[i].awayTeam == t) {
      var i :| 0 <= i < |ms| && (ms[i].homeTeam == t || ms[i].awayTeam == t);
      assert t in Teams(ms);
    }
  }

  /** A team that never played at home gets neutral home ratings: the league
      mean divided by itself, or 1 when that mean is 0. */
  lemma NeutralHomeFallback(ms: seq<MatchRecord>, t: string)
    requires t in Teams(ms)
    requires forall i :: 0 <= i < |ms| ==> ms[i].homeTeam != t
    ensures FittedRatings(ms)[t].homeAttack == 1.0
    ensures FittedRatings(ms)[t].homeDefense == 1.0
    ensures FittedRatings(ms)[t].homeMatches == 0
  {
    FilterNone(ms, (m: MatchRecord) => m.homeTeam == t);
    RatioSelf(Average(HomeGoals(ms)));
    RatioSelf(Average(AwayGoals(ms)));
  }

  /** The same for a team that never played away. */
  lemma NeutralAwayFallback(ms: seq<MatchRecord>, t: string)
    requires t in Teams(ms)
    requires forall i :: 0 <= i < |ms| ==> ms[i].awayTeam != t
    ensures FittedRatings(ms)[t].awayAttack == 1.0
    ensures FittedRatings(ms)[t].awayDefense == 1.0
    ensures FittedRatings(ms)[t].awayMatches == 0
  {
    FilterNone(ms, (m: MatchRecord) => m.awayTeam == t);
    RatioSelf(Average(HomeGoals(ms)));
    RatioSelf(Average(AwayGoals(ms)));
  }

  lemma RatioSelf(x: real)
    ensures Ratio(x, x) == 1.0
  {
  }

  lemma RatioNonNegative(x: real, base: real)
    requires x >= 0.0
    ensures Ratio(x, base) >= 0.0
  {
  }

  lemma {:induction false} SumConstant(xs: seq<nat>, c: nat)
    requires forall i :: 0 <= i < |xs| ==> xs[i] == c
    ensures Sum(xs) == c * |xs|
  {
    if xs != [] {
      SumConstant(xs[..|xs| - 1], c);
    }
  }

  /** The mean of a constant non-empty column is that constant. */
  lemma AverageConstant(xs: seq<nat>, c: nat)
    requires |xs| > 0
    requires forall i :: 0 <= i < |xs| ==> xs[i] == c
    ensures Average(xs) == c as real
  {
    SumConstant(xs, c);
    AverageTimesLength(xs);
  }

  /** A team that always scores `g` and concedes `c` at home has home attack
      `g / avg_home` and home defence `c / avg_away` (for positive league
      means): with means 1.5 and 1.0, a 3-0 home record gives 2.0 and 0.0.
      `FittedRatings` rates every team with the league means of the fit. */
  lemma ConstantHomeRecord(ms: seq<MatchRecord>, t: string, g: nat, c: nat, avgHome: real, avgAway: real)
    requires exists i :: 0 <= i < |ms| && ms[i].homeTeam == t
    requires forall i :: 0 <= i < |ms| && ms[i].homeTeam == t ==> ms[i].homeGoals == g && ms[i].awayGoals == c
    requires avgHome > 0.0 && avgAway > 0.0
    ensures RateTeam(ms, t, avgHome, avgAway).homeAttack == g as real / avgHome
    ensures RateTeam(ms, t, avgHome, avgAway).homeDefense == c as real / avgAway
  {
    var hm := HomeMatches(ms, t);
    HomeRecordOf(ms, t, g, c);
    AverageConstant(HomeGoals(hm), g);
    AverageConstant(AwayGoals(hm), c);
  }

  lemma HomeRecordOf(ms: seq<MatchRecord>, t: string, g: nat, c: nat)
    requires exists i :: 0 <= i < |ms| && ms[i].homeTeam == t
    requires forall i :: 0 <= i < |ms| && ms[i].homeTeam == t ==> ms[i].homeGoals == g && ms[i].awayGoals == c
    ensures t in Teams(ms)
    ensures |HomeMatches(ms, t)| > 0
    ensures forall k :: 0 <= k < |HomeMatches(ms, t)| ==> HomeGoals(HomeMatches(ms, t))[k] == g
    ensures forall k :: 0 <= k < |HomeMatches(ms, t)| ==> AwayGoals(HomeMatches(ms, t))[k] == c
  {
    var hm := HomeMatches(ms, t);
    FilterSubset(ms, (m: MatchRecord) => m.homeTeam == t);
    FilterKeeps(ms, (m: MatchRecord) => m.homeTeam == t);
    var i :| 0 <= i < |ms| && ms[i].homeTeam == t;
    assert ms[i] in hm;
    forall k | 0 <= k < |hm| ensures hm[k].homeGoals == g && hm[k].awayGoals == c {
      assert hm[k] in ms;
      var j :| 0 <= j < |ms| && ms[j] == hm[k];
    }
  }

  /** All four ratings are non-negative. */
  lemma RatingsNonNegative(ms: seq<MatchRecord>, t: string)
    requires t in Teams(ms)
    ensures var r := FittedRatings(ms)[t];
      r.homeAttack >= 0.0 && r.homeDefense >= 0.0 && r.awayAttack >= 0.0 && r.awayDefense >= 0.0
  {
    var avgHome := Average(HomeGoals(ms));
    var avgAway := Average(AwayGoals(ms));
    assert FittedRatings(ms)[t] == RateTeam(ms, t, avgHome, avgAway);
    RateTeamNonNegative(ms, t, avgHome, avgAway);
  }

  lemma RateTeamNonNegative(ms: seq<MatchRecord>, t: string, avgHome: real, avgAway: real)
    requires avgHome >= 0.0 && avgAway >= 0.0
    ensures var r := RateTeam(ms, t, avgHome, avgAway);
      r.homeAttack >= 0.0 && r.homeDefense >= 0.0 && r.awayAttack >= 0.0 && r.awayDefense >= 0.0
  {
    var hm := HomeMatches(ms, t);
    var am := AwayMatches(ms, t);
    var homeScored := if |hm| > 0 then Average(HomeGoals(hm)) else avgHome;
    var homeConceded := if |hm| > 0 then Average(AwayGoals(hm)) else avgAway;
    var awayScored := if |am| > 0 then Average(AwayGoals(am)) else avgAway;
    var awayConceded := if |am| > 0 then Average(HomeGoals(am)) else avgHome;
    RatioNonNegative(homeScored, avgHome);
    RatioNonNegative(homeConceded, avgAway);
    RatioNonNegative(awayScored, avgAway);
    RatioNonNegative(awayConceded, avgHome);
  }

  // ---------------------------------------------------------------------------
  // Properties of expected goals and values
  // ---------------------------------------------------------------------------

  /** Raising the home side's attack raises its expected goals when the
      opponent's away defence and the home mean are positive. */
  lemma HomeXgMonotoneInAttack(home: TeamRating, away: TeamRating, avgHome: real, avgAway: real, adv: real, attack: real)
    requires attack > home.homeAttack
    requires away.awayDefense > 0.0 && avgHome > 0.0
    ensures ExpectedGoals(home.(homeAttack := attack), away, avgHome, avgAway, adv).0
          > ExpectedGoals(home, away, avgHome, avgAway, adv).0
  {
    var raised := home.(homeAttack := attack);
    assert ExpectedGoals(raised, away, avgHome, avgAway, adv).0 == attack * away.awayDefense * avgHome + adv;
    assert ExpectedGoals(home, away, avgHome, avgAway, adv).0 == home.homeAttack * away.awayDefense * avgHome + adv;
    ScaleStrict(attack, home.homeAttack, away.awayDefense);
    ScaleStrict(attack * away.awayDefense, home.homeAttack * away.awayDefense, avgHome);
  }

  lemma PositiveProduct(a: real, b: real)
    requires a > 0.0 && b > 0.0
    ensures a * b > 0.0
  {
  }

  lemma ScaleStrict(x: real, y: real, k: real)
    requires x > y && k > 0.0
    ensures x * k > y * k
  {
    assert x * k - y * k == (x - y) * k;
    PositiveProduct(x - y, k);
  }

  /** Home advantage is a flat addition to the home side only: changing it
      moves home expected goals by exactly the difference and leaves the away
      side alone. */
  lemma HomeAdvantageIsAdditive(home: TeamRating, away: TeamRating, avgHome: real, avgAway: real, adv: real, adv': real)
    ensures ExpectedGoals(home, away, avgHome, avgAway, adv').0 - ExpectedGoals(home, away, avgHome, avgAway, adv).0 == adv' - adv
    ensures ExpectedGoals(home, away, avgHome, avgAway, adv').1 == ExpectedGoals(home, away, avgHome, avgAway, adv).1
  {
  }

  /** With non-negative ratings, means and advantage, expected goals are
      non-negative: valid Poisson rates. */
  lemma ExpectedGoalsNonNegative(home: TeamRating, away: TeamRating, avgHome: real, avgAway: real, adv: real)
    requires home.homeAttack >= 0.0 && home.homeDefense >= 0.0
    requires away.awayAttack >= 0.0 && away.awayDefense >= 0.0
    requires avgHome >= 0.0 && avgAway >= 0.0 && adv >= 0.0
    ensures ExpectedGoals(home, away, avgHome, avgAway, adv).0 >= adv
    ensures ExpectedGoals(home, away, avgHome, avgAway, adv).1 >= 0.0
  {
    assert home.homeAttack * away.awayDefense >= 0.0;
    assert home.homeAttack * away.awayDefense * avgHome >= 0.0;
    assert away.awayAttack * home.homeDefense >= 0.0;
    assert away.awayAttack * home.homeDefense * avgAway >= 0.0;
  }
}
