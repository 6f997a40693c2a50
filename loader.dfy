/**
 * The league-table logic of `CPLDataLoader` (scripts/data_loader.py) over
 * in-memory match files: which season files are loaded, team and
 * head-to-head filters, W/D/L form strings, per-team aggregates and the
 * standings table.
 */
module DataLoader {
  import opened Common
  import opened Sorting

  /** One row of a season's matches table. A goal count is `None` where the
      CSV cell is empty (NaN). Dates are ISO `YYYY-MM-DD` text, whose
      lexicographic order is their chronological order. */
  datatype Fixture = Fixture(date: string, homeTeam: string, awayTeam: string,
                             homeGoals: Option<int>, awayGoals: Option<int>)

  /** A `data/matches/cpl_*.csv` file: its stem (name without `.csv`) and rows. */
  datatype MatchFile = MatchFile(stem: string, rows: seq<Fixture>)

  /** What `load_matches` returns: a frame without columns (`pd.DataFrame()`)
      when no file was read, or the combined rows. */
  datatype Table = NoColumns | Rows(rows: seq<Fixture>)

  function RowsOf(t: Table): seq<Fixture>
  {
    if t.NoColumns? then [] else t.rows
  }

  // ---------------------------------------------------------------------------
  // load_matches: which files are read
  // ---------------------------------------------------------------------------

  /** `int(stem.split('_')[1])`; `None` where that raises `IndexError` or `ValueError`. */
  function FileYear(stem: string): (r: Option<int>)
    ensures r.Some? ==> |Split(stem, '_')| >= 2 && ParseInt(Split(stem, '_')[1]) == r
    ensures r.None? ==> |Split(stem, '_')| < 2 || ParseInt(Split(stem, '_')[1]).None?
  {
    var parts := Split(stem, '_');
    if |parts| < 2 then None else ParseInt(parts[1])
  }

  /** A file is read when its year parses and, if seasons are given, is one of them. */
  predicate Selected(f: MatchFile, seasons: Option<seq<int>>)
  {
    FileYear(f.stem).Some? && (seasons.None? || FileYear(f.stem).value in seasons.value)
  }

  /** The rows of the selected files, in file order. */
  function SelectedRows(files: seq<MatchFile>, seasons: Option<seq<int>>): seq<Fixture>
  {
    if files == [] then []
    else
      var init := SelectedRows(files[..|files| - 1], seasons);
      var f := files[|files| - 1];
      if Selected(f, seasons) then init + f.rows else init
  }

  function AnySelected(files: seq<MatchFile>, seasons: Option<seq<int>>): bool
  {
    exists i :: 0 <= i < |files| && Selected(files[i], seasons)
  }

  predicate DateLe(x: Fixture, y: Fixture)
  {
    StrLe(x.date, y.date)
  }

  lemma DateLeIsPreorder()
    ensures TotalPreorder(DateLe)
  {
    forall x: Fixture, y: Fixture ensures DateLe(x, y) || DateLe(y, x) {
      StrLeTotal(x.date, y.date);
    }
    forall x: Fixture, y: Fixture, z: Fixture | DateLe(x, y) && DateLe(y, z) ensures DateLe(x, z) {
      StrLeTransitive(x.date, y.date, z.date);
    }
  }

  /** `load_matches(seasons)` over the files of the matches directory (in the
      order the directory listing gives them). */
  function LoadMatches(files: seq<MatchFile>, seasons: Option<seq<int>>): (t: Table)
    ensures t.NoColumns? <==> !AnySelected(files, seasons)
    ensures t.Rows? ==> multiset(t.rows) == multiset(SelectedRows(files, seasons))
    ensures t.Rows? ==> SortedBy(t.rows, DateLe)
  {
    if !AnySelected(files, seasons) then NoColumns
    else
      DateLeIsPreorder();
      SortBySorted(SelectedRows(files, seasons), DateLe);
      Rows(SortBy(SelectedRows(files, seasons), DateLe))
  }

  /** Every row of a loaded table comes from a selected file. */
  lemma {:induction false} SelectedRowsFrom(files: seq<MatchFile>, seasons: Option<seq<int>>, x: Fixture)
    requires x in SelectedRows(files, seasons)
    ensures exists i :: 0 <= i < |files| && Selected(files[i], seasons) && x in files[i].rows
  {
    var init := files[..|files| - 1];
    var f := files[|files| - 1];
    if x in SelectedRows(init, seasons) {
      SelectedRowsFrom(init, seasons, x);
      var i :| 0 <= i < |init| && Selected(init[i], seasons) && x in init[i].rows;
      assert files[i] == init[i];
    }
  }

  /** ... and every row of a selected file is in the loaded table. */
  lemma {:induction false} SelectedRowsTo(files: seq<MatchFile>, seasons: Option<seq<int>>, i: nat, x: Fixture)
    requires i < |files| && Selected(files[i], seasons) && x in files[i].rows
    ensures x in SelectedRows(files, seasons)
  {
    var init := files[..|files| - 1];
    if i < |files| - 1 {
      assert init[i] == files[i];
      SelectedRowsTo(init, seasons, i, x);
    }
  }

  /** A file named `cpl_<year>` has that year, and is read exactly for the
      season lists holding it and when no list is given; a stem without a
      second `_` field is never read. */
  lemma SeasonFileSelected(year: nat, rows: seq<Fixture>, seasons: seq<int>)
    ensures FileYear("cpl_" + NatToString(year)) == Some(year)
    ensures Selected(MatchFile("cpl_" + NatToString(year), rows), Some(seasons)) <==> year in seasons
    ensures Selected(MatchFile("cpl_" + NatToString(year), rows), None)
    ensures !Selected(MatchFile("cpl", rows), None)
  {
    var ds := NatToString(year);
    var stem := "cpl_" + ds;
    assert stem[4..] == ds;
    assert '_' !in ds by {
      forall k | 0 <= k < |ds| ensures ds[k] != '_' {
        assert IsDigit(ds[k]);
      }
    }
    SplitAround("cpl", ds, '_');
    SplitNoSep(ds, '_');
    assert "cpl_" + ds == "cpl" + ['_'] + ds;
    ParseIntDigitsOnly(ds);
    SplitNoSep("cpl", '_');
  }

  // ---------------------------------------------------------------------------
  // Team and head-to-head filters
  // ---------------------------------------------------------------------------

  predicate Involves(m: Fixture, team: string)
  {
    m.homeTeam == team || m.awayTeam == team
  }

  /** The row filter `get_team_matches` applies; `home_only` wins over `away_only`. */
  predicate TeamFilter(m: Fixture, team: string, homeOnly: bool, awayOnly: bool)
  {
    if homeOnly then m.homeTeam == team
    else if awayOnly then m.awayTeam == team
    else Involves(m, team)
  }

  /** `get_team_matches(team, home_only, away_only)` over the whole directory. */
  function GetTeamMatches(files: seq<MatchFile>, team: string, homeOnly: bool, awayOnly: bool): (r: seq<Fixture>)
    ensures forall k :: 0 <= k < |r| ==> r[k] in RowsOf(LoadMatches(files, None)) && TeamFilter(r[k], team, homeOnly, awayOnly)
    ensures forall k :: 0 <= k < |RowsOf(LoadMatches(files, None))| && TeamFilter(RowsOf(LoadMatches(files, None))[k], team, homeOnly, awayOnly)
              ==> RowsOf(LoadMatches(files, None))[k] in r
    ensures forall x :: multiset(r)[x] ==
              if TeamFilter(x, team, homeOnly, awayOnly) then multiset(RowsOf(LoadMatches(files, None)))[x] else 0
    ensures SortedBy(r, DateLe)
  {
    var matches := RowsOf(LoadMatches(files, None));
    var p := (m: Fixture) => TeamFilter(m, team, homeOnly, awayOnly);
    FilterSorted(matches, p, DateLe);
    FilterSubset(matches, p);
    FilterKeeps(matches, p);
    FilterCount(matches, p);
    Filter(matches, p)
  }

  /** The filter of `get_head_to_head`: a match between the two teams in
      either orientation. */
  predicate Between(m: Fixture, team1: string, team2: string)
  {
    (m.homeTeam == team1 && m.awayTeam == team2) || (m.homeTeam == team2 && m.awayTeam == team1)
  }

  /** `get_head_to_head(team1, team2)`: the matches between the teams, by date. */
  function GetHeadToHead(files: seq<MatchFile>, team1: string, team2: string): (r: seq<Fixture>)
  {
    var matches := RowsOf(LoadMatches(files, None));
    SortBy(Filter(matches, (m: Fixture) => Between(m, team1, team2)), DateLe)
  }

  /** The head-to-head keeps exactly the matches between the two teams, each
      as often as the table holds it, is in date order, and does not depend on
      the order of the two names. */
  lemma HeadToHeadSpec(files: seq<MatchFile>, team1: string, team2: string)
    ensures SortedBy(GetHeadToHead(files, team1, team2), DateLe)
    ensures var r := GetHeadToHead(files, team1, team2);
      forall k :: 0 <= k < |r| ==> r[k] in RowsOf(LoadMatches(files, None)) && Between(r[k], team1, team2)
    ensures var matches := RowsOf(LoadMatches(files, None));
      forall k :: 0 <= k < |matches| && Between(matches[k], team1, team2) ==> matches[k] in GetHeadToHead(files, team1, team2)
    ensures var matches := RowsOf(LoadMatches(files, None));
      forall x :: multiset(GetHeadToHead(files, team1, team2))[x] == (if Between(x, team1, team2) then multiset(matches)[x] else 0)
    ensures GetHeadToHead(files, team2, team1) == GetHeadToHead(files, team1, team2)
  {
    var matches := RowsOf(LoadMatches(files, None));
    var p := (m: Fixture) => Between(m, team1, team2);
    var q := (m: Fixture) => Between(m, team2, team1);
    HeadToHeadFilter(files, team1, team2);
    HeadToHeadFilter(files, team2, team1);
    FilterSame(matches, p, q);
    FilterSubset(matches, p);
    FilterKeeps(matches, p);
    FilterCount(matches, p);
  }

  /** The loaded rows are in date order, so sorting the selection changes
      nothing. */
  lemma HeadToHeadFilter(files: seq<MatchFile>, team1: string, team2: string)
    ensures GetHeadToHead(files, team1, team2) == Filter(RowsOf(LoadMatches(files, None)), (m: Fixture) => Between(m, team1, team2))
    ensures SortedBy(GetHeadToHead(files, team1, team2), DateLe)
  {
    var matches := RowsOf(LoadMatches(files, None));
    var p := (m: Fixture) => Between(m, team1, team2);
    DateLeIsPreorder();
    FilterSorted(matches, p, DateLe);
    SortByOfSorted(Filter(matches, p), DateLe);
  }

  lemma {:induction false} FilterSame<T>(s: seq<T>, p: T -> bool, q: T -> bool)
    requires forall x :: p(x) == q(x)
    ensures Filter(s, p) == Filter(s, q)
  {
    if s != [] {
      FilterSame(s[1..], p, q);
    }
  }

  // ---------------------------------------------------------------------------
  // Results from one team's point of view
  // ---------------------------------------------------------------------------

  /** `(goals_for, goals_against)` of `team` when both counts are present;
      the team is the home side whenever it is named as home team. */
  function Score(m: Fixture, team: string): Option<(int, int)>
  {
    var isHome := m.homeTeam == team;
    var gf := if isHome then m.homeGoals else m.awayGoals;
    var ga := if isHome then m.awayGoals else m.homeGoals;
    if gf.None? || ga.None? then None else Some((gf.value, ga.value))
  }

  /** The form letter of a scored match. */
  function Letter(gf: int, ga: int): (c: char)
    ensures c == 'W' <==> gf > ga
    ensures c == 'L' <==> gf < ga
    ensures c == 'D' <==> gf == ga
  {
    if gf > ga then 'W' else if gf < ga then 'L' else 'D'
  }

  /** One letter per match with both goal counts, in match order. */
  function Form(ms: seq<Fixture>, team: string): string
  {
    if ms == [] then ""
    else
      var init := Form(ms[..|ms| - 1], team);
      var sc := Score(ms[|ms| - 1], team);
      if sc.None? then init else init + [Letter(sc.value.0, sc.value.1)]
  }

  /** The form string has at most one letter per match, each W, D or L. */
  lemma {:induction false} FormShape(ms: seq<Fixture>, team: string)
    ensures |Form(ms, team)| <= |ms|
    ensures forall k :: 0 <= k < |Form(ms, team)| ==> Form(ms, team)[k] in "WDL"
  {
    if ms != [] {
      FormShape(ms[..|ms| - 1], team);
    }
  }

  function CountScored(ms: seq<Fixture>, team: string): nat
  {
    if ms == [] then 0
    else CountScored(ms[..|ms| - 1], team) + (if Score(ms[|ms| - 1], team).Some? then 1 else 0)
  }

  /** Exactly the matches with both goal counts produce a letter. */
  lemma {:induction false} FormLength(ms: seq<Fixture>, team: string)
    ensures |Form(ms, team)| == CountScored(ms, team)
  {
    if ms != [] {
      FormLength(ms[..|ms| - 1], team);
    }
  }

  /** `get_recent_form(team, n_matches)`: the letters of the last
      `n_matches` team matches (pandas `tail`). */
  method GetRecentForm(files: seq<MatchFile>, team: string, nMatches: int) returns (form: string)
    ensures form == Form(Tail(GetTeamMatches(files, team, false, false), nMatches), team)
    ensures nMatches >= 0 ==> |form| <= nMatches
    ensures forall k :: 0 <= k < |form| ==> form[k] in "WDL"
  {
    var matches := Tail(GetTeamMatches(files, team, false, false), nMatches);
    form := FormLetters(matches, team);
    FormShape(matches, team);
  }

  /** The loop of `get_recent_form` over the selected matches. */
  method FormLetters(matches: seq<Fixture>, team: string) returns (form: string)
    ensures form == Form(matches, team)
  {
    form := "";
    var i := 0;
    while i < |matches|
      invariant 0 <= i <= |matches|
      invariant form == Form(matches[..i], team)
    {
      assert matches[..i + 1][..i] == matches[..i];
      var m := matches[i];
      assert matches[..i + 1][i] == m;
      var isHome := m.homeTeam == team;
      var teamGoals := if isHome then m.homeGoals else m.awayGoals;
      var oppGoals := if isHome then m.awayGoals else m.homeGoals;
      if teamGoals.Some? && oppGoals.Some? {
        if teamGoals.value > oppGoals.value {
          form := form + "W";
        } else if teamGoals.value < oppGoals.value {
          form := form + "L";
        } else {
          form := form + "D";
        }
      }
      i := i + 1;
    }
    assert matches[..|matches|] == matches;
  }

  // ---------------------------------------------------------------------------
  // calculate_team_stats
  // ---------------------------------------------------------------------------

  datatype Tally = Tally(wins: nat, draws: nat, losses: nat, goalsFor: int, goalsAgainst: int)

  function AddResult(t: Tally, gf: int, ga: int): Tally
  {
    Tally(t.wins + (if gf > ga then 1 else 0), t.draws + (if gf == ga then 1 else 0),
          t.losses + (if gf < ga then 1 else 0), t.goalsFor + gf, t.goalsAgainst + ga)
  }

  /** The counters of `calculate_team_stats` after the matches `ms`; a match
      with a missing goal count is skipped. */
  function TallyOf(ms: seq<Fixture>, team: string): Tally
  {
    if ms == [] then Tally(0, 0, 0, 0, 0)
    else
      var init := TallyOf(ms[..|ms| - 1], team);
      var sc := Score(ms[|ms| - 1], team);
      if sc.None? then init else AddResult(init, sc.value.0, sc.value.1)
  }

  /** Every scored match is exactly one of a win, a draw or a loss, so
      `played` counts the matches with both goal counts. */
  lemma {:induction false} PlayedCountsScoredMatches(ms: seq<Fixture>, team: string)
    ensures var t := TallyOf(ms, team); t.wins + t.draws + t.losses == CountScored(ms, team)
  {
    if ms != [] {
      PlayedCountsScoredMatches(ms[..|ms| - 1], team);
    }
  }

  function Plus(a: Tally, b: Tally): Tally
  {
    Tally(a.wins + b.wins, a.draws + b.draws, a.losses + b.losses,
          a.goalsFor + b.goalsFor, a.goalsAgainst + b.goalsAgainst)
  }

  /** The counters are additive: stats over two blocks of matches (two
      seasons, say) add up to the stats over both. */
  lemma {:induction false} TallyConcat(a: seq<Fixture>, b: seq<Fixture>, team: string)
    ensures TallyOf(a + b, team) == Plus(TallyOf(a, team), TallyOf(b, team))
  {
    if b == [] {
      assert a + b == a;
    } else {
      var b' := b[..|b| - 1];
      assert (a + b)[..|a + b| - 1] == a + b';
      TallyConcat(a, b', team);
    }
  }

  /** In a series between two distinct teams, one side's wins are the other's
      losses, the draws agree and the goals mirror each other. */
  lemma {:induction false} HeadToHeadMirror(ms: seq<Fixture>, t1: string, t2: string)
    requires t1 != t2
    requires forall k :: 0 <= k < |ms| ==> Between(ms[k], t1, t2)
    ensures var a := TallyOf(ms, t1); var b := TallyOf(ms, t2);
      a.wins == b.losses && a.losses == b.wins && a.draws == b.draws
      && a.goalsFor == b.goalsAgainst && a.goalsAgainst == b.goalsFor
  {
    if ms != [] {
      HeadToHeadMirror(ms[..|ms| - 1], t1, t2);
    }
  }

  /** The dictionary `calculate_team_stats` returns. */
  datatype TeamStats = TeamStats(
    team: string, season: Option<int>,
    played: nat, wins: nat, draws: nat, losses: nat,
    goalsFor: int, goalsAgainst: int, goalDifference: int, points: nat,
    winRate: real, ppg: real)

  function StatsFromTally(team: string, season: Option<int>, t: Tally): (s: TeamStats)
    ensures s.played == s.wins + s.draws + s.losses
    ensures s.points == 3 * s.wins + s.draws
    ensures s.goalDifference == s.goalsFor - s.goalsAgainst
    ensures s.played == 0 ==> s.winRate == 0.0 && s.ppg == 0.0
    ensures 0.0 <= s.winRate <= 1.0 && 0.0 <= s.ppg <= 3.0
    ensures s.played > 0 ==> s.winRate * s.played as real == s.wins as real
    ensures s.played > 0 ==> s.ppg * s.played as real == s.points as real
  {
    var played := t.wins + t.draws + t.losses;
    var points := t.wins * 3 + t.draws;
    RatioBounds(t.wins, played, 1);
    RatioBounds(points, played, 3);
    TeamStats(team, season, played, t.wins, t.draws, t.losses,
              t.goalsFor, t.goalsAgainst, t.goalsFor - t.goalsAgainst, points,
              if played > 0 then t.wins as real / played as real else 0.0,
              if played > 0 then points as real / played as real else 0.0)
  }

  /** `a / b` lies in `[0, c]` when `a <= c * b`. */
  lemma RatioBounds(a: nat, b: nat, c: nat)
    requires a <= c * b
    ensures b > 0 ==> 0.0 <= a as real / b as real <= c as real
    ensures b > 0 ==> (a as real / b as real) * b as real == a as real
  {
    if b == 0 {
      return;
    }
    var q := a as real / b as real;
    assert q * b as real == a as real;
    assert (c * b) as real == c as real * b as real;
  }

  /** `seasons=[season] if season else None`: season 0 counts as no season. */
  function SeasonFilter(season: Option<int>): Option<seq<int>>
  {
    if season.Some? && season.value != 0 then Some([season.value]) else None
  }

  /** `calculate_team_stats` on the loaded rows: `None` (the empty dict) for
      a team without matches. */
  function TeamStatsOf(matches: seq<Fixture>, team: string, season: Option<int>): Option<TeamStats>
  {
    var teamMatches := Filter(matches, (m: Fixture) => Involves(m, team));
    if teamMatches == [] then None else Some(StatsFromTally(team, season, TallyOf(teamMatches, team)))
  }

  /** The loader's exceptions that the model keeps. */
  datatype LoadError = KeyError(column: string)

  /** `calculate_team_stats` as written: when no file is selected,
      `load_matches` returns a frame without columns and indexing
      `matches['home_team']` raises `KeyError`. */
  function CalculateTeamStatsAsWritten(files: seq<MatchFile>, team: string, season: Option<int>): (r: Result<Option<TeamStats>, LoadError>)
    ensures r.Err? <==> !AnySelected(files, SeasonFilter(season))
  {
    var table := LoadMatches(files, SeasonFilter(season));
    if table.NoColumns? then Err(KeyError("home_team"))
    else Ok(TeamStatsOf(table.rows, team, season))
  }

  /** Asking for a season that has no file raises instead of returning the
      empty result: with only `cpl_2019.csv` present, `calculate_team_stats`
      for 2020 raises `KeyError`. */
  lemma MissingSeasonRaises(year: nat, rows: seq<Fixture>, team: string, season: int)
    requires season != 0 && season != year
    ensures CalculateTeamStatsAsWritten([MatchFile("cpl_" + NatToString(year), rows)], team, Some(season))
         == Err(KeyError("home_team"))
  {
    var f := MatchFile("cpl_" + NatToString(year), rows);
    SeasonFileSelected(year, rows, [season]);
    assert SeasonFilter(Some(season)) == Some([season]);
    assert !Selected(f, Some([season]));
    assert !AnySelected([f], SeasonFilter(Some(season)));
  }

  /** `calculate_team_stats(team, season)`, returning the empty result
      instead of raising when no file is selected. */
  method CalculateTeamStats(files: seq<MatchFile>, team: string, season: Option<int>) returns (stats: Option<TeamStats>)
    ensures stats == TeamStatsOf(RowsOf(LoadMatches(files, SeasonFilter(season))), team, season)
    ensures CalculateTeamStatsAsWritten(files, team, season).Ok? ==>
      CalculateTeamStatsAsWritten(files, team, season) == Ok(stats)
    ensures stats.Some? ==> stats.value.team == team
  {
    var matches := RowsOf(LoadMatches(files, SeasonFilter(season)));
    var teamMatches := Filter(matches, (m: Fixture) => Involves(m, team));
    if teamMatches == [] {
      return None;
    }
    var tally := CountResults(teamMatches, team);
    stats := Some(StatsFromTally(team, season, tally));
  }

  /** The counting loop of `calculate_team_stats`. */
  method CountResults(teamMatches: seq<Fixture>, team: string) returns (tally: Tally)
    ensures tally == TallyOf(teamMatches, team)
  {
    var wins, draws, losses: nat := 0, 0, 0;
    var goalsFor, goalsAgainst := 0, 0;
    var i := 0;
    while i < |teamMatches|
      invariant 0 <= i <= |teamMatches|
      invariant TallyOf(teamMatches[..i], team) == Tally(wins, draws, losses, goalsFor, goalsAgainst)
    {
      assert teamMatches[..i + 1][..i] == teamMatches[..i];
      var m := teamMatches[i];
      assert teamMatches[..i + 1][i] == m;
      var isHome := m.homeTeam == team;
      var gf := if isHome then m.homeGoals else m.awayGoals;
      var ga := if isHome then m.awayGoals else m.homeGoals;
      if gf.Some? && ga.Some? {
        goalsFor := goalsFor + gf.value;
        goalsAgainst := goalsAgainst + ga.value;
        if gf.value > ga.value {
          wins := wins + 1;
        } else if gf.value < ga.value {
          losses := losses + 1;
        } else {
          draws := draws + 1;
        }
      }
      i := i + 1;
    }
    assert teamMatches[..|teamMatches|] == teamMatches;
    tally := Tally(wins, draws, losses, goalsFor, goalsAgainst);
  }

  // ---------------------------------------------------------------------------
  // get_standings
  // ---------------------------------------------------------------------------

  /** One row of the standings table, with the columns it keeps. */
  datatype StandingRow = StandingRow(
    position: nat, team: string, played: nat, wins: nat, draws: nat, losses: nat,
    goalsFor: int, goalsAgainst: int, goalDifference: int, points: nat)

  /** Points, then goal difference, then goals for, each descending. */
  predicate RankLe(x: TeamStats, y: TeamStats)
  {
    x.points > y.points
    || (x.points == y.points && (x.goalDifference > y.goalDifference
        || (x.goalDifference == y.goalDifference && x.goalsFor >= y.goalsFor)))
  }

  lemma RankLeIsPreorder()
    ensures TotalPreorder(RankLe)
  {
  }

  function Teams(ms: seq<Fixture>): set<string>
  {
    (set i | 0 <= i < |ms| :: ms[i].homeTeam) + (set i | 0 <= i < |ms| :: ms[i].awayTeam)
  }

  function ToRow(position: nat, s: TeamStats): StandingRow
  {
    StandingRow(position, s.team, s.played, s.wins, s.draws, s.losses,
                s.goalsFor, s.goalsAgainst, s.goalDifference, s.points)
  }

  /** What `calculate_team_stats(team, season)` gives a team of the season. */
  function SeasonStats(files: seq<MatchFile>, team: string, season: int): (r: Option<TeamStats>)
    ensures r.Some? ==> r.value.team == team && r.value.season == Some(season)
  {
    TeamStatsOf(RowsOf(LoadMatches(files, SeasonFilter(Some(season)))), team, Some(season))
  }

  /** Every team of the season has a match there, so it gets a stats row. */
  lemma TeamOfSeasonHasStats(files: seq<MatchFile>, team: string, season: int)
    requires AnySelected(files, Some([season]))
    requires team in Teams(LoadMatches(files, Some([season])).rows)
    ensures SeasonStats(files, team, season).Some?
  {
    var ms := LoadMatches(files, Some([season])).rows;
    var i :| 0 <= i < |ms| && (ms[i].homeTeam == team || ms[i].awayTeam == team);
    var x := ms[i];
    LoadedRow(files, Some([season]), x);
    var j :| 0 <= j < |files| && Selected(files[j], Some([season])) && x in files[j].rows;
    assert Selected(files[j], SeasonFilter(Some(season)));
    LoadedRow(files, SeasonFilter(Some(season)), x);
    var all := RowsOf(LoadMatches(files, SeasonFilter(Some(season))));
    var k :| 0 <= k < |all| && all[k] == x;
    var involves := (m: Fixture) => Involves(m, team);
    var teamMatches := Filter(all, involves);
    FilterKeeps(all, involves);
    assert Involves(all[k], team);
    assert all[k] in teamMatches;
  }

  /** A row is loaded exactly when some selected file holds it. */
  lemma LoadedRow(files: seq<MatchFile>, seasons: Option<seq<int>>, x: Fixture)
    ensures x in RowsOf(LoadMatches(files, seasons)) <==>
      exists i :: 0 <= i < |files| && Selected(files[i], seasons) && x in files[i].rows
  {
    var t := LoadMatches(files, seasons);
    if t.Rows? {
      assert x in t.rows <==> x in multiset(t.rows);
      assert x in SelectedRows(files, seasons) <==> x in multiset(SelectedRows(files, seasons));
      if x in SelectedRows(files, seasons) {
        SelectedRowsFrom(files, seasons, x);
      }
      if exists i :: 0 <= i < |files| && Selected(files[i], seasons) && x in files[i].rows {
        var i :| 0 <= i < |files| && Selected(files[i], seasons) && x in files[i].rows;
        SelectedRowsTo(files, seasons, i, x);
      }
    }
  }

  /** The rows in `table` are in ranking order. */
  predicate Ranked(table: seq<StandingRow>)
  {
    forall i, j :: 0 <= i < j < |table| ==>
      table[i].points > table[j].points
      || (table[i].points == table[j].points && (table[i].goalDifference > table[j].goalDifference
          || (table[i].goalDifference == table[j].goalDifference && table[i].goalsFor >= table[j].goalsFor)))
  }

  /** `df['position'] = range(1, len(df) + 1)` and the kept columns. */
  function NumberRows(ranked: seq<TeamStats>): (table: seq<StandingRow>)
    ensures |table| == |ranked|
    ensures forall k :: 0 <= k < |ranked| ==> table[k] == ToRow(k + 1, ranked[k])
  {
    seq(|ranked|, k requires 0 <= k < |ranked| => ToRow(k + 1, ranked[k]))
  }

  /** The stats `s` belong to a team of `teams` and are what `statsOf`
      gives that team. */
  predicate StatsRow(statsOf: string -> Option<TeamStats>, teams: set<string>, s: TeamStats)
  {
    s.team in teams && Some(s) == statsOf(s.team)
  }

  /** Positions 1..n over the rows ranked by
      `sort_values(['points', 'goal_difference', 'goals_for'], ascending=False)`. */
  lemma NumberedRanked(ranked: seq<TeamStats>)
    requires SortedBy(ranked, RankLe)
    ensures Ranked(NumberRows(ranked))
  {
    var table := NumberRows(ranked);
    forall i, j | 0 <= i < j < |table| ensures RankLe(ranked[i], ranked[j]) {
    }
  }

  /** Reordering the collected stats keeps every row a stats row and keeps
      every team present. */
  lemma RankedKeepsRows(statsOf: string -> Option<TeamStats>, teams: set<string>,
                        standings: seq<TeamStats>, ranked: seq<TeamStats>)
    requires multiset(ranked) == multiset(standings)
    requires forall k :: 0 <= k < |standings| ==> StatsRow(statsOf, teams, standings[k])
    requires forall t :: t in teams ==> exists k :: 0 <= k < |standings| && standings[k].team == t
    ensures forall k :: 0 <= k < |ranked| ==> StatsRow(statsOf, teams, ranked[k])
    ensures forall t :: t in teams ==> exists k :: 0 <= k < |ranked| && ranked[k].team == t
  {
    forall k | 0 <= k < |ranked| ensures StatsRow(statsOf, teams, ranked[k]) {
      assert ranked[k] in multiset(standings);
      var j :| 0 <= j < |standings| && standings[j] == ranked[k];
    }
    forall t | t in teams ensures exists k :: 0 <= k < |ranked| && ranked[k].team == t {
      var j :| 0 <= j < |standings| && standings[j].team == t;
      assert standings[j] in multiset(ranked);
      var k :| 0 <= k < |ranked| && ranked[k] == standings[j];
    }
  }

  /** The loop of `get_standings` over the season's teams, visited in the
      arbitrary order Python's set iteration gives: each team's stats are
      kept when `calculate_team_stats(team, season)`, here `statsOf(team)`,
      returns any. */
  method CollectStats(statsOf: string -> Option<TeamStats>, teams: set<string>) returns (standings: seq<TeamStats>)
    requires forall t :: t in teams && statsOf(t).Some? ==> statsOf(t).value.team == t
    ensures forall k :: 0 <= k < |standings| ==> StatsRow(statsOf, teams, standings[k])
    ensures forall t :: t in teams && statsOf(t).Some? ==>
      exists k :: 0 <= k < |standings| && standings[k].team == t
    ensures (forall t :: t in teams ==> statsOf(t).Some?) ==> |standings| == |teams|
  {
    var remaining := teams;
    ghost var skipped: set<string> := {};
    standings := [];
    while remaining != {}
      invariant remaining <= teams && skipped <= teams
      invariant remaining !! skipped
      invariant |standings| + |skipped| + |remaining| == |teams|
      invariant forall t :: t in skipped ==> statsOf(t).None?
      invariant forall k :: 0 <= k < |standings| ==> StatsRow(statsOf, teams, standings[k])
      invariant forall t :: t in teams && t !in remaining && statsOf(t).Some? ==>
        exists k :: 0 <= k < |standings| && standings[k].team == t
      decreases remaining
    {
      var team :| team in remaining;
      var stats := statsOf(team);
      if stats.Some? {
        ghost var before := standings;
        standings := standings + [stats.value];
        assert standings[|standings| - 1].team == team;
        forall t | t in teams && t !in remaining && statsOf(t).Some?
          ensures exists k :: 0 <= k < |standings| && standings[k].team == t
        {
          var k :| 0 <= k < |before| && before[k].team == t;
          assert standings[k] == before[k];
        }
      } else {
        skipped := skipped + {team};
      }
      remaining := remaining - {team};
    }
    if forall t :: t in teams ==> statsOf(t).Some? {
      assert skipped == {};
    }
  }

  /** The body of `get_standings` once the season's teams are known and
      each of them has stats: collect, rank by
      `sort_values(['points', 'goal_difference', 'goals_for'], ascending=False)`,
      number 1..n. */
  method RankStandings(statsOf: string -> Option<TeamStats>, teams: set<string>) returns (table: seq<StandingRow>)
    requires forall t :: t in teams ==> statsOf(t).Some? && statsOf(t).value.team == t
    ensures |table| == |teams|
    ensures forall t :: t in teams ==> exists k :: 0 <= k < |table| && table[k].team == t
    ensures forall k :: 0 <= k < |table| ==> table[k].team in teams
    ensures forall k :: 0 <= k < |table| ==>
      statsOf(table[k].team).Some? && table[k] == ToRow(k + 1, statsOf(table[k].team).value)
    ensures Ranked(table)
  {
    var standings := CollectStats(statsOf, teams);
    RankLeIsPreorder();
    var ranked := SortBy(standings, RankLe);
    SortBySorted(standings, RankLe);
    RankedKeepsRows(statsOf, teams, standings, ranked);
    table := NumberRows(ranked);
    NumberedRanked(ranked);
    forall t | t in teams ensures exists k :: 0 <= k < |table| && table[k].team == t {
      var k :| 0 <= k < |ranked| && ranked[k].team == t;
      assert table[k].team == t;
    }
  }

  /** `get_standings(season)`: one row per team of the season, ranked by
      points, goal difference and goals for, positions 1..n. */
  method GetStandings(files: seq<MatchFile>, season: int) returns (table: seq<StandingRow>)
    ensures !AnySelected(files, Some([season])) ==> table == []
    ensures AnySelected(files, Some([season])) ==>
      var teams := Teams(LoadMatches(files, Some([season])).rows);
      && |table| == |teams|
      && (forall t :: t in teams ==> exists k :: 0 <= k < |table| && table[k].team == t)
      && (forall k :: 0 <= k < |table| ==> table[k].team in teams)
      && (forall k :: 0 <= k < |table| ==>
            SeasonStats(files, table[k].team, season).Some? && table[k] == ToRow(k + 1, SeasonStats(files, table[k].team, season).value))
      && Ranked(table)
  {
    var loaded := LoadMatches(files, Some([season]));
    if loaded.NoColumns? {
      return [];
    }
    var teams := Teams(loaded.rows);
    forall t | t in teams ensures SeasonStats(files, t, season).Some? {
      TeamOfSeasonHasStats(files, t, season);
    }
    table := RankStandings(t => SeasonStats(files, t, season), teams);
  }
}
