# CPL analytics core, modelled in Dafny

This project models the computational core of a Canadian Premier League (CPL) analytics toolkit and proves properties of it. Every model is written in Dafny 4.11.

- **Poisson outcome model** (`PoissonModel`):
  - `fit` sets the league mean goals and rates each team's home and away attack and defence.
  - `predict_xg` turns two ratings into expected goals.
  - `predict_probabilities` adds up a bounded scoreline grid into the 1X2, over/under and both-teams-to-score markets.
  - `predict_correct_score` ranks the 7 x 7 grid of scorelines.
  - `calculate_value` gives the expected value of each market with odds.
  - `fair_odds` and `implied_probability` convert between probabilities and decimal odds.
- **League tables** (`CPLDataLoader`):
  - which match files a season selects;
  - team and head-to-head filters;
  - W/D/L form strings;
  - per-team aggregates;
  - the standings ranking.
- **Data-quality validator** (`CPLDataValidator`): the ordered list of check results that `validate_matches` builds, and the verdict of `print_report`.
- **Odds scraper** (`odds_scraper.py`):
  - match ids and team-name cleaning;
  - the team and bookmaker alias tables of both sites;
  - CSV rows of closing odds;
  - the request counter of the anti-scraping handler;
  - results-page URLs;
  - odds-text parsing;
  - source selection.
- **Odds export** (`export_closing_odds.py`):
  - `generate_match_id`;
  - `validate_odds`;
  - the de-duplicate-then-sort merge of new closing odds into the published file.
- **API client** (`canpl_api_client.py`):
  - season ids;
  - the default locale of requests;
  - the standings selection;
  - the match and standings tables built from API payloads, with `safe_int`.
- **Referee extractor** (`extract_referees.py`):
  - the date slice;
  - the search for the main referee;
  - the finished-match filter;
  - the year-range check.
- **Results scraper** (`cpl_results_scraper.py`):
  - canonical team names;
  - reading one match element with its `h-a` score text;
  - the date-format fallback.

Layout, one module per source file plus shared helpers:

| file | module | models |
|---|---|---|
| poisson.dfy | Poisson | examples/poisson_model.py |
| loader.dfy | DataLoader | scripts/data_loader.py |
| validator.dfy | Validator | scripts/data_validator.py |
| odds_scraper.dfy | OddsScraper | scripts/odds_scraper.py |
| export_odds.dfy | ExportOdds | scripts/export_closing_odds.py |
| api_client.dfy | ApiClient | scripts/canpl_api_client.py |
| referees.dfy | Referees | scripts/extract_referees.py |
| results_scraper.dfy | ResultsScraper | scripts/cpl_results_scraper.py |
| club_names.dfy | ClubNames | the lower-case, stripped lookup key shared by the three team tables |
| common.dfy | Common | Python string built-ins on ASCII text: `lower`, `strip`, `replace`, `split`, `int`, `str`, slicing |
| sorting.dfy | Sorting | a stable sort by a total preorder, filtering, and text order |
| json.dfy | PyJson | JSON payload values with Python truthiness, `dict.get` and `or` |
| frames.dfy | Frames | the rows and columns of a pandas frame that the checks read |

Each part of the model takes the form of the code it models:
- `CPLDataValidator` and `PoissonModel` are classes whose methods update their fields.
- The loops of `fit`, `predict_probabilities`, `predict_correct_score`, `calculate_value`, the loader's counters and form string, and the two API conversions are methods with loop invariants. Each is proved equal to a specification function, and the properties are proved about that function.
- The parameter dict that `_request` fills in is a class, so the caller sees its own dict change.

Two behaviours of the code are worth knowing:
- `fit` writes ratings over the existing table (examples/poisson_model.py:74) rather than rebuilding it, so teams of an earlier fit stay rated.
- `calculate_team_stats` raises when no match file is selected (see Findings).

## Model

| member | source | states |
|---|---|---|
| Poisson.Average | examples/poisson_model.py:54-55 | A goal mean is never negative |
| Poisson.AverageTimesLength | examples/poisson_model.py:54-55 | The mean of a non-empty goal column times its length is the column's total |
| Poisson.Mean | examples/poisson_model.py:54-55 | `Series.mean()` is NaN exactly for an empty column |
| Poisson.HomeGoals | examples/poisson_model.py:54 | The `home_goals` column has one entry per match, that match's home goals |
| Poisson.AwayGoals | examples/poisson_model.py:55 | The `away_goals` column has one entry per match, that match's away goals |
| Poisson.Teams | examples/poisson_model.py:58 | Every home and every away team of the matches is in the team set |
| Poisson.Ratings | examples/poisson_model.py:60-81 | The loop over the teams writes an entry for exactly the teams it visits |
| Poisson.FittedRatings | examples/poisson_model.py:58-81 | One `fit` writes a rating for exactly the teams of the matches |
| Poisson.FittedTeamsExactly | examples/poisson_model.py:58-60 | A team gets a rating iff it plays in some match, at home or away |
| Poisson.NeutralHomeFallback | examples/poisson_model.py:63-76 | A team with no home match falls back to the league means: home attack and defence are 1 and its home match count is 0 |
| Poisson.NeutralAwayFallback | examples/poisson_model.py:68-78 | A team with no away match: away attack and defence are 1 and its away match count is 0 |
| Poisson.RatioSelf | examples/poisson_model.py:75-78 | A mean divided by itself is 1, and so is the fallback for a zero mean |
| Poisson.RatioNonNegative | examples/poisson_model.py:75-78 | A strength computed from non-negative goals is non-negative |
| Poisson.SumConstant | examples/poisson_model.py:63 | A column of one repeated value sums to that value times its length |
| Poisson.AverageConstant | examples/poisson_model.py:63 | The mean of a constant non-empty column is that constant |
| Poisson.HomeRecordOf | examples/poisson_model.py:62-64 | The home matches of a team that always scores g and concedes c form a non-empty selection whose goal columns are all g and all c |
| Poisson.ConstantHomeRecord | examples/poisson_model.py:62-76 | Such a team's home attack is g over the home mean and its home defence is c over the away mean |
| Poisson.RatingsNonNegative | examples/poisson_model.py:74-81 | All four strengths of a fitted team are non-negative |
| Poisson.RateTeamNonNegative | examples/poisson_model.py:60-81 | With non-negative league means, a team's four strengths are non-negative |
| Poisson.RatingsAdd | examples/poisson_model.py:74 | Rating one more team adds exactly that team's entry |
| Poisson.UpdateUnion | examples/poisson_model.py:74 | Writing an entry into a merged table equals writing it into the newer part |
| Poisson.RatingsStep | examples/poisson_model.py:59-74 | Writing one more team's rating over the table extends the ratings written so far by that team |
| Poisson.RateTeams | examples/poisson_model.py:59-81 | The loop over the team set, in any order, leaves the old table overwritten by one rating per team of the matches |
| Poisson.PoissonModel.constructor | examples/poisson_model.py:30-40 | A new model keeps its home advantage, has no ratings and zero league means |
| Poisson.PoissonModel.Fit | examples/poisson_model.py:42-83 | The league means become the means of the goal columns; the ratings of this fit are written over the old table, and teams the fit does not mention keep theirs |
| Poisson.PoissonModel.PredictXg | examples/poisson_model.py:85-111 | An unknown home or away team is an error listing the known teams; a NaN league mean is reported as `NotANumber` (see Left out); otherwise the result is the product formula with the home advantage added to the home side |
| Poisson.HomeXgMonotoneInAttack | examples/poisson_model.py:103-106 | Raising the home attack raises the home expected goals when the opponent's away defence and the home mean are positive |
| Poisson.HomeAdvantageIsAdditive | examples/poisson_model.py:103-111 | Changing the home advantage shifts home expected goals by exactly the change and leaves away expected goals alone |
| Poisson.ExpectedGoalsNonNegative | examples/poisson_model.py:103-111 | With non-negative strengths, means and advantage, home expected goals are at least the advantage and away expected goals are non-negative |
| Poisson.PmfVector | examples/poisson_model.py:131-132 | The probability vector has one entry per goal count of the range |
| Poisson.AggregateGrid | examples/poisson_model.py:135-168 | The nested loop accumulates every market as the grid sum of the cells in that market |
| Poisson.AddCell | examples/poisson_model.py:146-168 | One cell adds its joint probability to exactly the markets its scoreline belongs to |
| Poisson.RowResultPartition | examples/poisson_model.py:149-154 | In one row, home win, draw and away win together hold the row's whole mass |
| Poisson.ResultPartition | examples/poisson_model.py:149-154 | Every cell goes to exactly one of home win, draw and away win, so their sum is the grid's mass |
| Poisson.RowGoalsPartition | examples/poisson_model.py:157-161 | In one row, over 2.5 and under 2.5 together hold the row's mass |
| Poisson.GoalsPartition | examples/poisson_model.py:157-161 | Over 2.5 and under 2.5 together hold the grid's mass |
| Poisson.RowMassProduct | examples/poisson_model.py:146 | A row's mass is its home probability times the away marginal |
| Poisson.GridMassProduct | examples/poisson_model.py:144-146 | The grid's mass is the product of the two marginals |
| Poisson.RowMassBounds | examples/poisson_model.py:144-168 | With non-negative probabilities, each market in a row lies between 0 and the row's mass |
| Poisson.GridMassBounds | examples/poisson_model.py:144-168 | With non-negative probabilities, each market lies between 0 and the grid's mass |
| Poisson.SumToNonNegative | examples/poisson_model.py:144-168 | A sum of non-negative probabilities is non-negative |
| Poisson.MarketsBookkeeping | examples/poisson_model.py:170-182 | Result markets and over/under 2.5 each add up to the product of the marginal masses; `under_15` and `btts_no` are one minus their partners |
| Poisson.OutcomesSumToOne | examples/poisson_model.py:149-154 | When both truncated marginals sum to 1, home win, draw and away win sum to 1 |
| Poisson.TruncatedTailCountsAsUnder | examples/poisson_model.py:179-181 | With marginals of mass at most 1, `under_15` and `btts_no` lie in [0, 1]: the mass cut off by the grid counts on their side |
| Poisson.ProbabilityTable | examples/poisson_model.py:170-182 | The returned dictionary has exactly the eleven documented keys |
| Poisson.PoissonModel.PredictProbabilities | examples/poisson_model.py:115-182 | An unknown team or the NaN case of expected goals is passed on (see Left out); otherwise the markets are those of the grid of `max_goals + 1` goal counts a side (none for a negative bound) |
| Poisson.MakeScoreLine | examples/poisson_model.py:203-209 | The implied odds of a scoreline are infinite exactly when its probability is not positive |
| Poisson.ScoreRow | examples/poisson_model.py:201-209 | Row h of the correct-score scan holds one scoreline per away goal count, in order, with joint probability |
| Poisson.ScanScoreRow | examples/poisson_model.py:201-209 | The inner loop builds exactly row h |
| Poisson.ScanScoreGrid | examples/poisson_model.py:199-209 | The nested loops build the rows one after another, home goals outer |
| Poisson.ScoreRowsLength | examples/poisson_model.py:200-201 | h rows of n cells give h times n scorelines |
| Poisson.ScoreRowsCells | examples/poisson_model.py:200-209 | Every scanned scoreline is a cell of the grid with the joint probability |
| Poisson.ScoreRowCell | examples/poisson_model.py:201-209 | Every scoreline of one row is a cell of the grid |
| Poisson.ByProbabilityDescIsPreorder | examples/poisson_model.py:211 | Ordering by probability, highest first, is a total preorder |
| Poisson.RankScores | examples/poisson_model.py:211-212 | The ranking is sorted by probability descending, is drawn from the scores, has `top_n` rows when there are that many, and no row left out is more likely than a row kept |
| Poisson.PrefixIsTop | examples/poisson_model.py:212 | `head` of a ranking is sorted, drawn from the ranking, and no row left out beats a row kept |
| Poisson.PrefixAboveRest | examples/poisson_model.py:211-212 | In a ranking, every row of a prefix is at least as likely as every row after it |
| Poisson.CorrectScoreTable | examples/poisson_model.py:184-212 | On the 7 x 7 grid: 49 scorelines, `top_n` kept, sorted, each a grid cell, none left out more likely than one kept |
| Poisson.PoissonModel.PredictCorrectScore | examples/poisson_model.py:184-212 | An unknown team or the NaN case of expected goals is passed on (see Left out); otherwise the result is the first `top_n` of the 7 x 7 grid ranked by probability, a fixed size that does not depend on any goal bound |
| Poisson.MarketMappingKeys | examples/poisson_model.py:228-234 | The market mapping names each market once |
| Poisson.MappedKeys | examples/poisson_model.py:236-242 | A market gets a value iff it is mapped and both its probability and its odds are present |
| Poisson.MappedEntry | examples/poisson_model.py:236-242 | With distinct markets, each such market's value is its expected value in percent |
| Poisson.CollectValues | examples/poisson_model.py:236-242 | The loop writes, one market after the other, the values `MappedValues` describes |
| Poisson.AddMarketValue | examples/poisson_model.py:237-242 | One step writes the market's expected value when both its probability and odds are known, and otherwise changes nothing |
| Poisson.PoissonModel.CalculateValue | examples/poisson_model.py:214-244 | The value table has a key iff the market is mapped and present in both inputs; its value is (probability times odds minus 1) in percent |
| Poisson.FairOdds | examples/poisson_model.py:252-254 | Fair odds are infinite exactly when the probability is not positive, and otherwise their product with the probability is 1 |
| Poisson.ImpliedProbability | examples/poisson_model.py:247-249 | Zero odds are a division error; otherwise probability times odds is 1 |
| Poisson.FairOddsImpliedRoundTrip | examples/poisson_model.py:247-254 | The two conversions are inverse on positive values |
| Poisson.MulStrictlyMonotone | examples/poisson_model.py:241 | Multiplying by positive odds keeps a strict order |
| Poisson.PositiveValueIffPriceBeatsFairOdds | examples/poisson_model.py:241-254 | A bet has positive expected value exactly when the bookmaker's odds beat the fair odds |
| Poisson.ValueOfEvenChanceAtTwoTen | examples/poisson_model.py:241-242 | Probability 0.5 at odds 2.10 is worth 5 percent |
| DataLoader.FileYear | scripts/data_loader.py:52-55 | The year is the integer parse of the second `_` field of the stem; absent when that field is missing or does not parse |
| DataLoader.SeasonFileSelected | scripts/data_loader.py:50-57 | `cpl_<year>` yields that year and is selected iff the year is requested (always, with no season list); a stem without `_` is skipped |
| DataLoader.DateLeIsPreorder | scripts/data_loader.py:65 | Ordering by date is a total preorder |
| DataLoader.LoadMatches | scripts/data_loader.py:31-67 | No selected file gives the column-less empty frame; otherwise the rows are a permutation of the selected files' rows, sorted by date |
| DataLoader.SelectedRowsFrom | scripts/data_loader.py:57-63 | Every concatenated row comes from a selected file |
| DataLoader.SelectedRowsTo | scripts/data_loader.py:57-63 | Every row of a selected file is concatenated |
| DataLoader.LoadedRow | scripts/data_loader.py:50-65 | A row is loaded iff some selected file holds it |
| DataLoader.GetTeamMatches | scripts/data_loader.py:114-141 | Exactly the loaded rows passing the filter (home team with `home_only`, which wins over `away_only`; away team with `away_only`; either otherwise), each as often as the table holds it, still in date order |
| DataLoader.HeadToHeadSpec | scripts/data_loader.py:143-164 | Exactly the matches between the two teams in either orientation, each as often as the table holds it, in date order, and the same for the two names swapped |
| DataLoader.HeadToHeadFilter | scripts/data_loader.py:158-164 | The table is in date order, so the sorted head-to-head is the selection in table order |
| DataLoader.FilterSame | scripts/data_loader.py:159-162 | Filtering by two predicates that agree everywhere gives the same rows |
| DataLoader.Letter | scripts/data_loader.py:191-196 | W exactly for more goals for, L exactly for fewer, D exactly for equal |
| DataLoader.FormShape | scripts/data_loader.py:182-198 | The form string has at most one letter per match, each W, D or L |
| DataLoader.FormLength | scripts/data_loader.py:188-189 | A letter is written for exactly the matches with both goal counts present |
| DataLoader.FormLetters | scripts/data_loader.py:182-198 | The loop writes the form of the matches in order |
| DataLoader.GetRecentForm | scripts/data_loader.py:166-198 | The form of the last `n_matches` team matches; at most `n_matches` letters, each W, D or L |
| DataLoader.CountResults | scripts/data_loader.py:222-244 | The counting loop computes the tally of the team's matches, skipping those with a missing goal count |
| DataLoader.PlayedCountsScoredMatches | scripts/data_loader.py:233-246 | Wins, draws and losses together count the matches with both goal counts |
| DataLoader.TallyConcat | scripts/data_loader.py:228-244 | The counters are additive over two blocks of matches |
| DataLoader.HeadToHeadMirror | scripts/data_loader.py:228-244 | Between two teams, one side's wins are the other's losses, the draws agree and the goals mirror |
| DataLoader.StatsFromTally | scripts/data_loader.py:246-261 | played = wins + draws + losses, points = 3 wins + draws, goal difference = for minus against; win rate and points per game are 0 without games, else the exact ratios, within [0, 1] and [0, 3] |
| DataLoader.RatioBounds | scripts/data_loader.py:259-260 | A ratio a/b with a at most c times b lies in [0, c] and times b gives back a |
| DataLoader.CalculateTeamStatsAsWritten | scripts/data_loader.py:212-216 | As written: raises `KeyError` exactly when no file is selected |
| DataLoader.MissingSeasonRaises | scripts/data_loader.py:212-216 | A season with no matches file raises `KeyError('home_team')` |
| DataLoader.CalculateTeamStats | scripts/data_loader.py:200-261 | The stats of the team's matches in the season filter (all seasons for a falsy season); agrees with the code wherever it does not raise; the team field is the team asked for |
| DataLoader.SeasonStats | scripts/data_loader.py:282 | Stats of a season carry that team and season |
| DataLoader.TeamOfSeasonHasStats | scripts/data_loader.py:278-284 | Every team of a season's matches gets a stats row |
| DataLoader.RankLeIsPreorder | scripts/data_loader.py:290-293 | Points, then goal difference, then goals for, descending, is a total preorder |
| DataLoader.NumberRows | scripts/data_loader.py:295-298 | Row k gets position k + 1 and the kept columns of the k-th ranked stats |
| DataLoader.NumberedRanked | scripts/data_loader.py:290-295 | Numbering a sorted list gives a table ranked by the three keys with positions 1..n |
| DataLoader.RankedKeepsRows | scripts/data_loader.py:289-293 | Sorting keeps every row a stats row of its team and keeps every team |
| DataLoader.CollectStats | scripts/data_loader.py:280-284 | The loop appends a stats row for each team that has one, and one for every team when all do |
| DataLoader.RankStandings | scripts/data_loader.py:280-298 | One row per team, each the team's stats at its position, ranked |
| DataLoader.GetStandings | scripts/data_loader.py:263-298 | Empty without a matches file for the season; otherwise one row per team of the season, each with its season stats and position, ranked by points, goal difference and goals for |
| Validator.FieldResult | scripts/data_validator.py:95-118 | For one required column: passes iff the column exists with no missing value, and is then INFO; otherwise an ERROR named `required_field_<col>` (missing column) or `null_check_<col>` (missing values) |
| Validator.FieldResults | scripts/data_validator.py:91-118 | Exactly one result per required column, in the order of the list |
| Validator.InvalidTeamsIff | scripts/data_validator.py:125-128 | The set of names outside `VALID_TEAMS` is empty iff every home and away name is valid |
| Validator.TeamNameResults | scripts/data_validator.py:120-142 | Nothing without both team columns; otherwise one `valid_team_names` result that passes iff every home and away name is a valid team |
| Validator.RangeReport | scripts/data_validator.py:150-177 | The low-value error, the high-value warning and the pass make one or two well-formed results |
| Validator.RangeReportOutcome | scripts/data_validator.py:150-177 | The error appears iff the low count is positive, the warning iff the high count is, and a result passes iff both are zero |
| Validator.AttendanceReportOutcome | scripts/data_validator.py:266-289 | With attendance values present, `negative_attendance` is reported iff the negative count is positive, and `high_attendance` iff the high count is |
| Validator.ScoreResults | scripts/data_validator.py:144-177 | Nothing without both goal columns; otherwise one or two results |
| Validator.ScoreCheckOutcome | scripts/data_validator.py:150-177 | A `negative_scores` ERROR iff some goal count is negative; a `high_scores` WARNING iff some goal count exceeds 10; a passing result iff neither |
| Validator.DuplicateCount | scripts/data_validator.py:230-233 | The number of flagged rows is at most the number of rows |
| Validator.DuplicateCountPositive | scripts/data_validator.py:230-233 | The count is positive iff some row is flagged |
| Validator.DuplicatePairCounted | scripts/data_validator.py:230-238 | Both rows of a pair with equal (date, home, away) keys are flagged, so the count is at least 2 and `dup_count // 2` at least 1 |
| Validator.DuplicatesIff | scripts/data_validator.py:225-232 | Some row is flagged iff two rows share a key |
| Validator.DuplicateResults | scripts/data_validator.py:223-247 | Nothing without the three key columns; otherwise one `duplicates` result that passes iff no two rows share a key |
| Validator.Attendance | scripts/data_validator.py:254 | `dropna` keeps no missing cell, and is empty iff every attendance is missing |
| Validator.CountValues | scripts/data_validator.py:266-277 | A count of matching values is positive iff some value matches |
| Validator.MinNum | scripts/data_validator.py:290 | The minimum is absent iff there is no number; otherwise it is a number of the column and no number is smaller |
| Validator.MaxNum | scripts/data_validator.py:290 | The maximum is absent iff there is no number; otherwise it is a number of the column and no number is larger |
| Validator.AttendanceResults | scripts/data_validator.py:249-291 | Nothing without the attendance column; otherwise one or two results |
| Validator.AttendanceNoData | scripts/data_validator.py:256-263 | With every attendance missing, the only result is the passing `attendance_data` one |
| Validator.AttendanceNegative | scripts/data_validator.py:266-273 | A `negative_attendance` ERROR iff some attendance is negative |
| Validator.AttendanceHigh | scripts/data_validator.py:276-283 | A `high_attendance` WARNING iff some attendance exceeds 30000 |
| Validator.AttendanceAny | scripts/data_validator.py:254-277 | A test false on a missing cell holds for some kept value iff it holds for some cell of the column |
| Validator.KeptValueFromRow | scripts/data_validator.py:254 | A kept attendance value with a property comes from a cell of the column with it |
| Validator.RowValueKept | scripts/data_validator.py:254 | A non-missing attendance cell with a property is among the kept values |
| Validator.HomeAwayResults | scripts/data_validator.py:321-340 | Nothing without both team columns; otherwise one result that passes iff no row has the same home and away team, and fails as the ERROR `home_away_same` |
| Validator.ReportOk | scripts/data_validator.py:348-374 | The verdict is true iff no result is a failing ERROR |
| Validator.CountPositiveResults | scripts/data_validator.py:348-374 | The list of failing errors is non-empty iff some result is a failing ERROR |
| Validator.WarningsDoNotFail | scripts/data_validator.py:348-374 | Appending a WARNING or INFO result never changes the verdict |
| Validator.EmptyTableFails | scripts/data_validator.py:70-77 | An empty table yields exactly one result, the failing `data_exists` ERROR, and fails the report |
| Validator.FailureSticks | scripts/data_validator.py:348-374 | A failing ERROR keeps failing the report whatever results are put before or after it |
| Validator.EarlyFailureFails | scripts/data_validator.py:80-87 | A failing ERROR from the field, team or score check fails the whole validation |
| Validator.IncompleteRequiredFieldFails | scripts/data_validator.py:93-111 | A required column that is missing or has a missing value fails the report |
| Validator.NegativeScoreFails | scripts/data_validator.py:150-157 | A negative score fails the report |
| Validator.SameTeamsFail | scripts/data_validator.py:326-333 | A row with the same home and away team fails the report |
| Validator.DataValidator.constructor | scripts/data_validator.py:55-56 | A new validator has no results |
| Validator.DataValidator.ValidateMatches | scripts/data_validator.py:58-89 | Each call starts from an empty list; the result list is the `data_exists` error or the checks in order, and it is returned |
| Validator.DataValidator.CheckRequiredFields | scripts/data_validator.py:91-118 | Appends the field results of the five required columns, in order |
| Validator.DataValidator.CheckTeamNames | scripts/data_validator.py:120-142 | Appends the team-name result |
| Validator.DataValidator.CheckScoreValidity | scripts/data_validator.py:144-177 | Appends the score results |
| Validator.DataValidator.CheckDateValidity | scripts/data_validator.py:179-182 | Skipped without the date column; otherwise appends the given date results |
| Validator.DataValidator.CheckDuplicates | scripts/data_validator.py:223-247 | Appends the duplicate result |
| Validator.DataValidator.CheckAttendance | scripts/data_validator.py:249-291 | Appends the attendance results |
| Validator.DataValidator.CheckSeasonConsistency | scripts/data_validator.py:293-296 | Skipped without the season or the date column; otherwise appends the given season results |
| Validator.DataValidator.CheckHomeAwayDifferent | scripts/data_validator.py:321-340 | Appends the home/away result |
| Validator.DataValidator.PrintReport | scripts/data_validator.py:342-374 | Returns true iff no current result is a failing ERROR; warnings do not matter |
| Validator.DataValidator.ValidateAndReport | scripts/data_validator.py:376-387 | Validates, then returns the report's verdict on the new results |
| Validator.ValidateCplData | scripts/data_validator.py:390-401 | A fresh validator's verdict on the table |
| OddsScraper.RemoveClubWords | scripts/odds_scraper.py:122 | Removing every `fc` or `united` with its surrounding spaces never lengthens the name |
| OddsScraper.MapNonAlnum | scripts/odds_scraper.py:123 | Same length; every character is a lower-case letter, a digit or `_`, and letters and digits are kept in place |
| OddsScraper.CollapseUnderscores | scripts/odds_scraper.py:124 | Empty iff the input is, keeps the first character, adds no character, and leaves no doubled underscore |
| OddsScraper.CleanTeamNameShape | scripts/odds_scraper.py:118-125 | A cleaned name holds only `[a-z0-9_]`, no doubled underscore, and no leading or trailing underscore |
| OddsScraper.CleanFc | scripts/odds_scraper.py:121-125 | A bare `fc` cleans to the empty string |
| OddsScraper.RemoveFfcc | scripts/odds_scraper.py:122 | Removing the `fc` inside `ffcc` leaves `fc` |
| OddsScraper.CleanFfcc | scripts/odds_scraper.py:121-125 | `ffcc` cleans to `fc` |
| OddsScraper.CleanTeamNameNotIdempotent | scripts/odds_scraper.py:121-125 | Cleaning is not idempotent: cleaning `ffcc` twice differs from cleaning it once |
| OddsScraper.MatchId | scripts/odds_scraper.py:110-116 | The id is the cleaned home name, `_vs_`, the cleaned away name, `_` and the date with every `-` removed |
| OddsScraper.CleanNameNoDash | scripts/odds_scraper.py:123 | A cleaned name holds no `-` |
| OddsScraper.MatchIdNoDash | scripts/odds_scraper.py:113-116 | A match id holds no `-` and ends with the dash-free date |
| OddsScraper.NormalizeTeamName | scripts/odds_scraper.py:346-349 | A name whose lower-cased, stripped form is an alias maps to its canonical name; any other name is returned exactly as given, unstripped |
| OddsScraper.NormalizeIdempotent | scripts/odds_scraper.py:346-349 | For a table closed under normalisation, normalising twice equals normalising once |
| OddsScraper.OddsPortalValues | scripts/odds_scraper.py:307-329 | Every Odds Portal canonical name is one of the site's canonical names, and none is `Inter Toronto FC` |
| OddsScraper.BetExplorerValues | scripts/odds_scraper.py:520-542 | Every BetExplorer canonical name is one of the site's canonical names |
| OddsScraper.CanonicalKey | scripts/odds_scraper.py:348 | The lookup key of each canonical name is its lower-cased form |
| OddsScraper.OddsPortalKeys | scripts/odds_scraper.py:307-329 | Under its own key a canonical name is absent from the Odds Portal table or maps to itself |
| OddsScraper.BetExplorerKeys | scripts/odds_scraper.py:520-542 | The same for the BetExplorer table |
| OddsScraper.OddsPortalClosed | scripts/odds_scraper.py:307-349 | Normalising an Odds Portal canonical name changes nothing, so normalisation is idempotent there |
| OddsScraper.BetExplorerClosed | scripts/odds_scraper.py:520-546 | The same for BetExplorer |
| OddsScraper.NormalizeBookmaker | scripts/odds_scraper.py:332-354 | None iff the lower-cased, stripped name is not an alias; otherwise the mapped standard id |
| OddsScraper.PlainKey | scripts/odds_scraper.py:353 | A lower-case alphanumeric name is its own key |
| OddsScraper.WilliamHillNotFixed | scripts/odds_scraper.py:340-354 | `William Hill` gives `williamhill`, which is not itself an alias and normalises to None |
| OddsScraper.SelfAlias | scripts/odds_scraper.py:351-354 | An alphanumeric id that aliases itself normalises to itself |
| OddsScraper.BookmakerIdFixed | scripts/odds_scraper.py:332-354 | Every standard id other than `williamhill` normalises to itself |
| OddsScraper.PostInit | scripts/odds_scraper.py:79-81 | An empty timestamp becomes the current time; a given one is kept, and nothing else changes |
| OddsScraper.ToCsvRow | scripts/odds_scraper.py:83-97 | The row's keys are exactly the exporter's CSV headers |
| OddsScraper.CsvRowTextCells | scripts/odds_scraper.py:86-89 | The id, date and team cells hold the record's text |
| OddsScraper.CsvRowOddsCells | scripts/odds_scraper.py:90-93 | The bookmaker cell and the three closing-odds cells hold the record's values |
| OddsScraper.CsvRowTotalsCells | scripts/odds_scraper.py:94-96 | A missing or zero over/under odd becomes the empty cell; the timestamp is kept |
| OddsScraper.CsvRowRoundTrip | scripts/odds_scraper.py:83-97 | Reading the row back gives the record again, except that a zero over/under odd reads back as missing |
| OddsScraper.ExtendedWaitsCount | scripts/odds_scraper.py:170-172 | Over n requests, exactly n / 10 waits are extended |
| OddsScraper.AntiScrapingHandler.constructor | scripts/odds_scraper.py:144-147 | A new handler keeps the delay bounds and has counted no request |
| OddsScraper.AntiScrapingHandler.Wait | scripts/odds_scraper.py:165-176 | The counter goes up by exactly 1; the delay is the first draw, plus the extra 3-7 second draw exactly when the new count is a multiple of 10 |
| OddsScraper.ResultsUrl | scripts/odds_scraper.py:356-361 | The current season's page has no suffix; any other season appends `-<season>` before `/results/` |
| OddsScraper.ResultsUrlInjective | scripts/odds_scraper.py:356-361 | Different seasons have different results pages |
| OddsScraper.Pow10 | scripts/odds_scraper.py:717 | A power of ten is at least 1 |
| OddsScraper.DecimalValue | scripts/odds_scraper.py:717 | `float` of digits and dots is non-negative, and a text without a digit is not a number |
| OddsScraper.ParseOdds | scripts/odds_scraper.py:713-720 | None when nothing remains after stripping and filtering, and when the text has no digit; a parsed price is never negative |
| OddsScraper.ParseOddsPlain | scripts/odds_scraper.py:715-717 | A text of digits and dots is read as a whole |
| OddsScraper.DecimalOfParts | scripts/odds_scraper.py:717 | Digits, a dot and digits read as whole part plus fraction |
| OddsScraper.DecimalWithDot | scripts/odds_scraper.py:717 | A text with a dot right after its leading digits reads as whole part plus fraction |
| OddsScraper.DotsAndDigits | scripts/odds_scraper.py:715 | Digits followed by digits and dots are all kept by the filter |
| OddsScraper.ParseOddsDecimal | scripts/odds_scraper.py:713-720 | A price written as digits, a dot and digits parses to the value of the whole digits plus that of the fraction digits |
| OddsScraper.ParseOddsTwoDots | scripts/odds_scraper.py:713-720 | A text with two dots is not a number, so the result is None |
| OddsScraper.FilterAll | scripts/odds_scraper.py:715 | A filter that keeps every character changes nothing |
| OddsScraper.DigitRun | scripts/odds_scraper.py:717 | The leading digits of a digit run followed by a non-digit are that run |
| OddsScraper.SelectSite | scripts/odds_scraper.py:872-887 | Only `oddsportal` and `betexplorer` are accepted, each selecting its own site; anything else is the `ValueError` message listing the two |
| ExportOdds.GenerateMatchId | scripts/export_closing_odds.py:133-150 | The id is the home part, `_vs_`, the away part, `_` and the date with every `-` removed |
| ExportOdds.MapCharRemoves | scripts/export_closing_odds.py:146-147 | Replacing spaces by `_` leaves no space |
| ExportOdds.TeamPartShape | scripts/export_closing_odds.py:146-147 | A team part holds no space and no capital letter |
| ExportOdds.ReplaceKeepsLower | scripts/export_closing_odds.py:146-147 | Removing ` fc` from lower-case text keeps it lower-case |
| ExportOdds.GenerateMatchIdShape | scripts/export_closing_odds.py:146-150 | The team parts hold no space, and the id ends in the date free of dashes |
| ExportOdds.MissingColumns | scripts/export_closing_odds.py:164-167 | A column is reported missing iff it is required and absent |
| ExportOdds.AnyBelowOne | scripts/export_closing_odds.py:175 | `(df[col] < 1.0).any()` raises on a text cell; otherwise it holds iff some cell is below 1.0, a missing cell not counting |
| ExportOdds.OddsInRangeSpec | scripts/export_closing_odds.py:173-177 | Without text cells, the range loop passes iff no home, draw or away odd is below 1.0 |
| ExportOdds.ValidateOdds | scripts/export_closing_odds.py:153-185 | False when a required column is missing; otherwise the verdict of the range loop |
| ExportOdds.UnknownBookmakers | scripts/export_closing_odds.py:180-181 | Every bookmaker warned about is outside the known set |
| ExportOdds.ValidOddsPass | scripts/export_closing_odds.py:164-185 | All columns present and every odd at least 1.0 passes, whatever the bookmakers: an unknown one only earns a warning |
| ExportOdds.LowOddFails | scripts/export_closing_odds.py:173-177 | An odd below 1.0 anywhere makes the result false |
| ExportOdds.KeepLast | scripts/export_closing_odds.py:116-119 | `drop_duplicates(keep='last')` keeps only rows of its input |
| ExportOdds.LastWith | scripts/export_closing_odds.py:116-119 | The newest row with a key has that key and is a row of the input |
| ExportOdds.InHasKey | scripts/export_closing_odds.py:117 | A row's key is a key of the rows |
| ExportOdds.TailKeys | scripts/export_closing_odds.py:117 | The keys after the first row are keys of all rows, and the other keys of all rows are keys after the first |
| ExportOdds.KeepLastKeys | scripts/export_closing_odds.py:116-119 | De-duplication keeps every (match_id, bookmaker) key and adds none |
| ExportOdds.KeepLastUnique | scripts/export_closing_odds.py:116-119 | After de-duplication each key occurs once |
| ExportOdds.KeepLastNewest | scripts/export_closing_odds.py:116-119 | Each kept row is the newest row with its key |
| ExportOdds.NewRowsWin | scripts/export_closing_odds.py:116-119 | For a key the new rows hold, the newest row of published plus new rows is the newest new row |
| ExportOdds.LexLeTotal | scripts/export_closing_odds.py:121 | Comparing (date, match_id, bookmaker) is total |
| ExportOdds.LexLeTransitive | scripts/export_closing_odds.py:121 | That comparison is transitive |
| ExportOdds.LexLeAntisymmetric | scripts/export_closing_odds.py:121 | Keys comparing both ways are equal |
| ExportOdds.RecordLeIsPreorder | scripts/export_closing_odds.py:121 | Ordering records by their sort key is a total preorder |
| ExportOdds.Export | scripts/export_closing_odds.py:102-126 | No new rows publishes nothing new; without published rows the new rows go out as queried; otherwise the merge |
| ExportOdds.UniqueOnce | scripts/export_closing_odds.py:116-119 | With unique keys a row occurs at most once |
| ExportOdds.TwoCopies | scripts/export_closing_odds.py:116-119 | A row at two positions occurs at least twice |
| ExportOdds.MergeMembers | scripts/export_closing_odds.py:116-121 | The merge holds exactly the de-duplicated rows, each as often |
| ExportOdds.MergeKeys | scripts/export_closing_odds.py:116-121 | The merge keeps every key of published and new rows, and each kept row is the newest one with its key |
| ExportOdds.MergeOrder | scripts/export_closing_odds.py:116-121 | The merge has one row per key, sorted by (date, match_id, bookmaker), each strictly before the next, so the tie order of the sort does not matter |
| ExportOdds.SameKeySameRow | scripts/export_closing_odds.py:116-119 | Two merged rows with one key are the same row |
| ApiClient.GetSeasonId | scripts/canpl_api_client.py:30-75 | A season id exists exactly for the years 2019 to 2026, and each is a `cpl::Football_Season::` id; None otherwise |
| ApiClient.SeasonIdsDistinct | scripts/canpl_api_client.py:30-39 | No two years share a season id |
| ApiClient.Url | scripts/canpl_api_client.py:27-56 | The address is the base URL, `/`, then the endpoint |
| ApiClient.WithLocale | scripts/canpl_api_client.py:59-62 | The sent parameters are the caller's (or none) plus `locale`; every given entry is kept, and `locale` is `en-US` only when none was given |
| ApiClient.WithLocaleIdempotent | scripts/canpl_api_client.py:59-62 | Filling in the default locale twice equals doing it once |
| ApiClient.Params.constructor | scripts/canpl_api_client.py:59-60 | A parameter dict holds the entries it was made with |
| ApiClient.PrepareRequest | scripts/canpl_api_client.py:54-62 | Builds the URL and fills in the locale in the caller's own dict, which the caller then sees changed; without a dict a new one is made |
| ApiClient.StandingsSelection | scripts/canpl_api_client.py:118-121 | An empty or missing `standings` gives `[]`; otherwise the `teams` of the first group; a non-dict payload or group raises |
| ApiClient.MatchRowFields | scripts/canpl_api_client.py:192-203 | The row's status is the match's; its date is the first 10 characters of `matchDateUtc` (empty, with season 2025, when missing); missing scores default to 0 |
| ApiClient.DefaultYear | scripts/canpl_api_client.py:195 | The fallback date text `2025` reads as season 2025 |
| ApiClient.MatchRowSeason | scripts/canpl_api_client.py:195 | A date starting with four digits gives that year as the season |
| ApiClient.FinishedRowsSpec | scripts/canpl_api_client.py:188-204 | Succeeds iff every match is a dict and every finished one converts; then there is exactly one row per `FINISHED` match, in order |
| ApiClient.FailureStays | scripts/canpl_api_client.py:188-204 | An exception on a prefix of the list is the exception of the whole list |
| ApiClient.DateLeIsPreorder | scripts/canpl_api_client.py:207-208 | Ordering rows by date text is a total preorder |
| ApiClient.MatchesToDataframe | scripts/canpl_api_client.py:185-209 | The error of the conversion, or its rows permuted into date order |
| ApiClient.SafeIntOfText | scripts/canpl_api_client.py:219-225 | The decimal text of an integer gives that integer |
| ApiClient.SafeIntDefault | scripts/canpl_api_client.py:219-225 | None, lists, dicts and text with no digit give the default |
| ApiClient.StatFound | scripts/canpl_api_client.py:215-217 | A stat id is in the lookup dict iff some entry carries it |
| ApiClient.LastStatWins | scripts/canpl_api_client.py:216-217 | A stat's value is that of the last entry with its id |
| ApiClient.StatsDictOk | scripts/canpl_api_client.py:216-217 | The dict is built without error iff every entry is a dict with a hashable id |
| ApiClient.CollectStatValues | scripts/canpl_api_client.py:215-217 | The inner loop builds exactly that dict, or stops at the first failing entry |
| ApiClient.StatsFailureStays | scripts/canpl_api_client.py:216-217 | A failure on a prefix of the stats is the failure of all of them |
| ApiClient.TeamPoints | scripts/canpl_api_client.py:228-237 | Without a `points` stat a team has 0 points; with one, the last entry's value read through `safe_int` |
| ApiClient.StatsDictOfTeam | scripts/canpl_api_client.py:214-238 | A converted team's row is read from its stats dict and its official name |
| ApiClient.StandingsRowsSpec | scripts/canpl_api_client.py:213-241 | Succeeds iff every team converts; then exactly one row per team, in order |
| ApiClient.StandingsToDataframe | scripts/canpl_api_client.py:211-241 | The loop builds exactly the standings rows, or the first team's error |
| ApiClient.RowsFailureStays | scripts/canpl_api_client.py:213-241 | A failure on a prefix of the teams is the failure of all of them |
| Referees.ParseDate | scripts/extract_referees.py:20-23 | Empty exactly for a missing or empty date; otherwise the first 10 characters (all of a shorter date) |
| Referees.RefereeEntries | scripts/extract_referees.py:31-32 | A missing or falsy `referees` value is an empty list; a list is searched as given |
| Referees.NamePart | scripts/extract_referees.py:37-38 | A missing or falsy name part is empty; a present one is stripped |
| Referees.RefereeNameJoin | scripts/extract_referees.py:39 | The name is the non-empty stripped parts joined by exactly one space |
| Referees.RefereeRecord | scripts/extract_referees.py:36-44 | The record exists iff both name parts can be stripped, and its name joins them; a missing or falsy id or short name becomes the empty string, a truthy one is the entry's value |
| Referees.MainRefereeIds | scripts/extract_referees.py:30-44 | The first main referee's id and short name are the entry's when truthy, otherwise the empty string |
| Referees.FirstRefereeNone | scripts/extract_referees.py:32-45 | When no dict entry's role reads `referee`, the search returns the empty record |
| Referees.FirstRefereeFound | scripts/extract_referees.py:32-43 | The search returns the record of the first dict entry whose role reads `referee` |
| Referees.NoMainReferee | scripts/extract_referees.py:45 | Facts without a main referee give all three fields empty |
| Referees.MainRefereeName | scripts/extract_referees.py:32-42 | A main referee with first and last name is reported as the stripped first name, one space, the stripped last name |
| Referees.SelectFinished | scripts/extract_referees.py:60-63 | Only `FINISHED` matches are kept, in order, truncated to `limit` when it is given and non-zero; a non-dict match raises |
| Referees.YearRangeError | scripts/extract_referees.py:122-123 | The run is refused, with its message, exactly when the start year is after the end year |
| ResultsScraper.NormalizeTeamName | scripts/cpl_results_scraper.py:64-67 | A name whose lower-cased, stripped form is in `CPL_TEAMS` maps to its canonical name; any other name comes back stripped |
| ResultsScraper.TableValuesCanonical | scripts/cpl_results_scraper.py:24-47 | Every value of the table is one of the nine canonical names |
| ResultsScraper.CanonicalNameFixed | scripts/cpl_results_scraper.py:24-67 | Every canonical name normalises to itself |
| ResultsScraper.ForgeFixed | scripts/cpl_results_scraper.py:26-67 | `Forge FC` normalises to itself |
| ResultsScraper.CavalryFixed | scripts/cpl_results_scraper.py:28-67 | `Cavalry FC` normalises to itself |
| ResultsScraper.PacificFixed | scripts/cpl_results_scraper.py:30-67 | `Pacific FC` normalises to itself |
| ResultsScraper.YorkFixed | scripts/cpl_results_scraper.py:33-67 | `York United FC` normalises to itself |
| ResultsScraper.ValourFixed | scripts/cpl_results_scraper.py:36-67 | `Valour FC` normalises to itself |
| ResultsScraper.HfxFixed | scripts/cpl_results_scraper.py:39-67 | `HFX Wanderers FC` normalises to itself |
| ResultsScraper.EdmontonFixed | scripts/cpl_results_scraper.py:42-67 | `FC Edmonton` normalises to itself |
| ResultsScraper.VancouverFixed | scripts/cpl_results_scraper.py:44-67 | `Vancouver FC` normalises to itself |
| ResultsScraper.OttawaFixed | scripts/cpl_results_scraper.py:45-67 | `Atletico Ottawa` normalises to itself |
| ResultsScraper.NormalizeIdempotent | scripts/cpl_results_scraper.py:64-67 | Normalising a normalised name changes nothing |
| ResultsScraper.NormalizeEmpty | scripts/cpl_results_scraper.py:64-67 | The empty name is no known spelling and stays empty |
| ResultsScraper.ParseScore | scripts/cpl_results_scraper.py:133-137 | Score text without `-` leaves the goals absent |
| ResultsScraper.ParseScoreRoundTrip | scripts/cpl_results_scraper.py:133-137 | The text `h-a` gives home goals h and away goals a |
| ResultsScraper.ParseScoreIgnoresRest | scripts/cpl_results_scraper.py:133-137 | Any text after a second `-` takes no part in the score |
| ResultsScraper.SplitFirstTwo | scripts/cpl_results_scraper.py:135 | Splitting `h-a-rest` on `-` gives h and a as the first two parts |
| ResultsScraper.NoSpaceAround | scripts/cpl_results_scraper.py:133 | Digits, `-`, digits and text without whitespace are their own strip |
| ResultsScraper.ParseDigitParts | scripts/cpl_results_scraper.py:134-137 | Stripped score text whose first two parts are digit runs gives their values |
| ResultsScraper.NoDash | scripts/cpl_results_scraper.py:134 | A digit run holds no `-` |
| ResultsScraper.DigitsStrip | scripts/cpl_results_scraper.py:136-137 | A digit run is its own strip |
| ResultsScraper.FirstFormat | scripts/cpl_results_scraper.py:155-160 | No result iff no format parses; otherwise the result of the first format that does |
| ResultsScraper.ParseDate | scripts/cpl_results_scraper.py:145-162 | The text comes back unchanged when no format matches; an ISO date is reformatted by the first format |
| ResultsScraper.ParseMatchElement | scripts/cpl_results_scraper.py:110-143 | A match exactly when the date, home and away tags are found and the score does not raise; it has the season, the parsed stripped date, both normalised team names, the stripped venue iff a venue tag is found, and goals iff the stripped score text holds a `-` |
| ResultsScraper.EmptyTagsGiveMatch | scripts/cpl_results_scraper.py:120-128 | Found but empty tags still give a match, with empty date, team and venue texts |
| ResultsScraper.MatchElementGoals | scripts/cpl_results_scraper.py:120-139 | With the three required elements, score text `h-a` gives a match with those goals, and no score element gives a match without goals |
| ClubNames.NameKeyIdempotent | scripts/cpl_results_scraper.py:66 | Lower-casing and stripping a key again changes nothing |
| ClubNames.ForgeKey | scripts/cpl_results_scraper.py:26-66 | The lookup key of `Forge FC` is `forge fc` |
| ClubNames.CavalryKey | scripts/cpl_results_scraper.py:28-66 | The lookup key of `Cavalry FC` is `cavalry fc` |
| ClubNames.PacificKey | scripts/cpl_results_scraper.py:30-66 | The lookup key of `Pacific FC` is `pacific fc` |
| ClubNames.YorkKey | scripts/cpl_results_scraper.py:33-66 | The lookup key of `York United FC` is `york united fc` |
| ClubNames.ValourKey | scripts/cpl_results_scraper.py:36-66 | The lookup key of `Valour FC` is `valour fc` |
| ClubNames.HfxKey | scripts/cpl_results_scraper.py:39-66 | The lookup key of `HFX Wanderers FC` is `hfx wanderers fc` |
| ClubNames.EdmontonKey | scripts/cpl_results_scraper.py:42-66 | The lookup key of `FC Edmonton` is `fc edmonton` |
| ClubNames.VancouverKey | scripts/cpl_results_scraper.py:44-66 | The lookup key of `Vancouver FC` is `vancouver fc` |
| ClubNames.OttawaKey | scripts/cpl_results_scraper.py:45-66 | The lookup key of `Atletico Ottawa` is `atletico ottawa` |
| ClubNames.TorontoKey | scripts/odds_scraper.py:541-545 | The lookup key of `Inter Toronto FC` is `inter toronto fc` |
| Common.LowerChar | scripts/odds_scraper.py:348 | `lower()` on one character: an ASCII capital becomes its small letter, anything else is kept |
| Common.ToLower | scripts/odds_scraper.py:348 | `lower()` keeps the length and lowers each character in place |
| Common.ToLowerIdempotent | scripts/odds_scraper.py:121 | Lower-casing twice equals lower-casing once |
| Common.StripByShape | scripts/cpl_results_scraper.py:66 | A strip is a middle slice of the text, with only dropped characters cut away on both sides; it neither starts nor ends with one, and stripping again changes nothing |
| Common.StripIdempotent | scripts/extract_referees.py:37-39 | `strip()` twice equals `strip()` once |
| Common.StripToLower | scripts/odds_scraper.py:348 | Lower-casing and stripping commute |
| Common.StripChars | scripts/odds_scraper.py:715 | Every character of a stripped text comes from the text |
| Common.RemoveChar | scripts/odds_scraper.py:115 | Removing a character leaves none of it and keeps a text that did not hold it |
| Common.ReplaceCharByNothing | scripts/export_closing_odds.py:148 | `replace('-', '')` removes every `-` |
| Common.Split | scripts/data_loader.py:53 | `split(sep)` has at least one part and no part holds the separator |
| Common.JoinSplit | scripts/cpl_results_scraper.py:135 | Joining the parts of a split with the separator gives the text back |
| Common.SplitHasSep | scripts/cpl_results_scraper.py:134-137 | A text holding the separator has at least two parts, so `parts[1]` exists |
| Common.Prefix | scripts/extract_referees.py:23 | `s[:n]` for any integer n, negative ones counting from the end |
| Common.Tail | scripts/data_loader.py:177 | pandas `tail(n)` is the last n rows, and for negative n all but the first -n |
| Common.NatToString | scripts/canpl_api_client.py:223 | `str(n)` is a run of digits worth n |
| Common.Trunc | scripts/canpl_api_client.py:223 | `int()` of a float rounds toward zero |
| Common.IntToStringRoundTrip | scripts/data_loader.py:53 | `int(str(i)) == i` for every integer |
| Common.ParseIntDigitsOnly | scripts/data_loader.py:53 | `int()` of a run of digits is its value |
| Sorting.SortBy | scripts/data_loader.py:65 | Sorting keeps the length and is a permutation of its input |
| Sorting.SortBySorted | scripts/data_loader.py:65 | For a total preorder, the sort's result is sorted |
| Sorting.SortByOfSorted | scripts/data_loader.py:164 | Sorting rows already in order changes nothing |
| Sorting.FilterSorted | scripts/data_loader.py:133-141 | A boolean-mask selection of a sorted table stays sorted |
| Sorting.Filter | scripts/canpl_api_client.py:189-190 | Every kept element passes, and no more elements are kept than given |
| Sorting.FilterSubset | scripts/canpl_api_client.py:189-190 | Every kept element comes from the input |
| Sorting.FilterKeeps | scripts/canpl_api_client.py:189-190 | Every passing element of the input is kept |
| Sorting.FilterCount | scripts/data_loader.py:133-141 | A boolean mask keeps each passing row as often as the input holds it, and no other row |
| Sorting.StrLeTotal | scripts/export_closing_odds.py:121 | Text comparison is total |
| Sorting.StrLeTransitive | scripts/export_closing_odds.py:121 | Text comparison is transitive |
| Sorting.StrLeAntisymmetric | scripts/export_closing_odds.py:121 | Texts that compare both ways are equal |
| PyJson.GetOr | scripts/canpl_api_client.py:197-198 | `d.get(key, default)` is the stored value of a present key and the default otherwise |
| PyJson.GetNone | scripts/extract_referees.py:31 | `d.get(key)` is None for a missing key |
| PyJson.Or | scripts/extract_referees.py:31-35 | `a or b` is a when a is truthy and b otherwise |
| PyJson.Field | scripts/canpl_api_client.py:196-198 | `v.get(...)` raises on a value that is not a dict |
| PyJson.Elements | scripts/canpl_api_client.py:216 | Iterating a list gives its items |
| Frames.CountRows | scripts/data_validator.py:156 | `mask.sum()` is at most the number of rows |
| Frames.CountPositive | scripts/data_validator.py:151 | `mask.any()` holds iff `mask.sum()` is positive |

## Left out

- The Poisson pmf (`scipy.stats.poisson.pmf`) is a function parameter. The per-goal probabilities are exact reals.
- Python's `round` is not modelled. Poisson.PoissonModel.PredictXg, Poisson.PoissonModel.PredictProbabilities, Poisson.PoissonModel.PredictCorrectScore and Poisson.PoissonModel.CalculateValue state the unrounded values.
- Poisson.PoissonModel.PredictXg: a NaN league mean, left by a fit on an empty frame over an earlier table, gives `Err(NotANumber)`. The code raises nothing there and returns NaN expected goals.
- Poisson.PoissonModel.PredictProbabilities: in the NaN case above it passes on `Err(NotANumber)`, where the code returns a dict whose every value is NaN.
- Poisson.PoissonModel.PredictCorrectScore: in the NaN case above it passes on `Err(NotANumber)`, where the code returns `top_n` scorelines with NaN probabilities and infinite implied odds.
- DataLoader.Fixture: dates are ISO `YYYY-MM-DD` text compared as text. `load_matches` converts them with `pd.to_datetime` (scripts/data_loader.py:64), which for such text gives the same order; other date formats are not modelled.
- Poisson.PoissonModel.Fit: models goals as natural numbers, with no missing goal count. An empty fit gives NaN means, and NaN is a value of its own.
- Floating point throughout: all arithmetic is on exact reals, and infinity appears only where the code writes `float('inf')`.
- OddsScraper.ParseOdds: the value is the exact decimal. Python's rounding to the nearest float is not modelled.
- pandas sorts on one key with an unstable quicksort. DataLoader.LoadMatches, DataLoader.HeadToHeadSpec, Poisson.RankScores and ApiClient.MatchesToDataframe therefore promise only a sorted permutation, not the order of ties. The functions they describe (DataLoader.GetHeadToHead among them) pick one order, a stable insertion sort. After de-duplication the export merge has no ties (ExportOdds.MergeOrder).
- The order of `glob` and of Python set iteration is a parameter: the file list, and the team set of `fit` and `get_standings`.
- File, CSV, SQLite and Postgres I/O are left out:
  - The loader works on an in-memory list of match files, and `load_team_stats` / `load_historical_odds` only read files.
  - `OddsExporter` writing and the SQL query of the export are left out.
- HTTP, Selenium and BeautifulSoup are left out.
- The network call in `_request` is left out. ApiClient.PrepareRequest models what happens before it.
- A match element is given as the texts of the tags found in it. A found tag is true in a boolean test even when it is empty, as BeautifulSoup's tags are.
- `get_match_facts`, the year loop of `extract_referees`, and the scrape loops over pages are network drivers and are left out.
- The clock is a parameter: the current year of `get_results_url`, and the timestamp of `__post_init__`.
- Randomness and sleeping:
  - The two `random.uniform` draws of `wait` are parameters.
  - `time.sleep` and `get_headers` with its random user agent are left out.
- `strptime` and `strftime` are left out. The results scraper's date parser is a parameter, one call per format.
- The validator's date check (`scripts/data_validator.py:179-221`) and season check (`scripts/data_validator.py:293-319`) use `pd.to_datetime` and the clock, so their results are parameters. The model keeps where they go in the list and that they are skipped without their columns.
- Validation results carry the check name, whether it passed, the severity and the message. The `details` text is left out, and so is the printed set of invalid names in the team check's message.
- Validator.ScoreResults: a text cell in a goal column compares as not below and not above. pandas would raise `TypeError` there, which the validator does not catch.
- Validator.AttendanceResults: the same holds for text in the attendance column.
- Text is ASCII: `lower`, `strip`, `\s` and `\d` act on ASCII characters only.
- Referees.RefereeEntries: `str()` of a non-string role never reads `referee`, so such entries are skipped unread.
- ApiClient.StatsDictOk: ids that are not strings are hashed but never looked up, so they are dropped from the dict.
- ApiClient.MatchRowFields: a `matchDateUtc` that is not a string is a `TypeError`.
- Printing, logging and `main` argument parsing are left out; only the year-range check is modelled.
- The weather client, the Postgres loader and the debug and test scripts are not part of this model.

## Findings

| source | as written | input that shows it | evidently intended | confidence | as-written member | corrected member |
|---|---|---|---|---|---|---|
| scripts/data_loader.py:212-216 | When no match file is selected, `load_matches` returns `pd.DataFrame()`, which has no columns, and `matches['home_team']` raises `KeyError` | `calculate_team_stats('Forge FC', season=2020)` with only `cpl_2024.csv` present | return `{}`, as lines 218-219 do for a team without matches | not executed | DataLoader.CalculateTeamStatsAsWritten (shown by DataLoader.MissingSeasonRaises) | DataLoader.CalculateTeamStats |
