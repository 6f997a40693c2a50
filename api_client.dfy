/**
 * The data shaping of the CanPL Sports Data Platform client: the season-id
 * table, the default locale added to every request, the selection of the
 * standings group, and the conversion of match and standings payloads into
 * table rows. The HTTP exchange itself is outside the model; payloads are
 * decoded JSON values.
 */
module ApiClient {
  import opened Common
  import opened Sorting
  import opened PyJson

  const BaseUrl := "https://api-sdp.canpl.ca/v1/cpl/football"

  const SeasonIdPrefix := "cpl::Football_Season::"

  /** The known season ids, by year. */
  const Seasons: map<int, string> := map[
    2019 := SeasonIdPrefix + "c8c9bdc288f34aa89073a8bd89d2da3e",
    2020 := SeasonIdPrefix + "11aa5cc094d0481fa8e73d326763584f",
    2021 := SeasonIdPrefix + "2f07c39671b84933ad7bb1e1958a7427",
    2022 := SeasonIdPrefix + "046f0ab31ba641c7b7bf27eb0dda4b9d",
    2023 := SeasonIdPrefix + "fc0855108c9044218a84fc5d2bee0000",
    2024 := SeasonIdPrefix + "6fb9e6fae4f24ce9bf4fa3172616a762",
    2025 := SeasonIdPrefix + "fd43e1d61dfe4396a7356bc432de0007",
    2026 := SeasonIdPrefix + "c479ab0916a24c3390f1ce2c021ace54"
  ]

  // ---------------------------------------------------------------------------
  // Season ids
  // ---------------------------------------------------------------------------

  /** `get_season_id`: the table entry, or `None` for a year outside it. */
  function GetSeasonId(year: int): (r: Option<string>)
    ensures r.Some? <==> 2019 <= year <= 2026
    ensures r.Some? ==> |r.value| > |SeasonIdPrefix| && r.value[..|SeasonIdPrefix|] == SeasonIdPrefix
  {
    if year in Seasons then Some(Seasons[year]) else None
  }

  /** Different years never share a season id. */
  lemma SeasonIdsDistinct(y1: int, y2: int)
    requires GetSeasonId(y1).Some? && GetSeasonId(y1) == GetSeasonId(y2)
    ensures y1 == y2
  {
    assert 2019 <= y1 <= 2026 && 2019 <= y2 <= 2026;
    assert Seasons[2019][22] != Seasons[2020][22];
  }

  // ---------------------------------------------------------------------------
  // Requests
  // ---------------------------------------------------------------------------

  /** The address of an endpoint. */
  function Url(endpoint: string): (r: string)
    ensures |r| > |BaseUrl| && r[..|BaseUrl| + 1] == BaseUrl + "/" && r[|BaseUrl| + 1..] == endpoint
  {
    BaseUrl + "/" + endpoint
  }

  /** The query parameters `_request` sends: the caller's, or none, with
      `locale=en-US` added only when no locale is given. */
  function WithLocale(params: Option<map<string, Json>>): (r: map<string, Json>)
    ensures var given := if params.Some? then params.value else map[];
      && r.Keys == given.Keys + {"locale"}
      && (forall k :: k in given ==> r[k] == given[k])
      && ("locale" !in given ==> r["locale"] == JStr("en-US"))
  {
    var given := if params.Some? then params.value else map[];
    if "locale" in given then given else given["locale" := JStr("en-US")]
  }

  /** Adding the default locale twice is the same as adding it once. */
  lemma WithLocaleIdempotent(params: Option<map<string, Json>>)
    ensures WithLocale(Some(WithLocale(params))) == WithLocale(params)
  {
  }

  /** A query-parameter dict the caller owns; `_request` adds to it in place. */
  class Params {
    var entries: map<string, Json>

    constructor(entries: map<string, Json>)
      ensures this.entries == entries
    {
      this.entries := entries;
    }
  }

  /** The part of `_request` before the network call: it builds the URL and
      fills in the locale, in the caller's own dict when there is one. */
  method PrepareRequest(endpoint: string, params: Params?) returns (url: string, sent: Params)
    modifies params
    ensures url == Url(endpoint)
    ensures params != null ==> sent == params && sent.entries == WithLocale(Some(old(params.entries)))
    ensures params == null ==> fresh(sent) && sent.entries == WithLocale(None)
  {
    url := BaseUrl + "/" + endpoint;
    if params == null {
      sent := new Params(map[]);
    } else {
      sent := params;
    }
    if "locale" !in sent.entries {
      sent.entries := sent.entries["locale" := JStr("en-US")];
    }
  }

  // ---------------------------------------------------------------------------
  // Standings selection
  // ---------------------------------------------------------------------------

  /** `get_standings` after the request: the `teams` of the first standings
      group, or an empty list when there is no group. */
  function StandingsSelection(data: Json): (r: Result<Json, PyError>)
    ensures !data.JObj? ==> r == Err(AttributeError)
    ensures data.JObj? && !Truthy(GetOr(data.fields, "standings", JArr([]))) ==> r == Ok(JArr([]))
    ensures (data.JObj? && GetOr(data.fields, "standings", JArr([])).JArr?
      && |GetOr(data.fields, "standings", JArr([])).items| > 0) ==>
        var first := GetOr(data.fields, "standings", JArr([])).items[0];
        && (first.JObj? ==> r == Ok(GetOr(first.fields, "teams", JArr([]))))
        && (!first.JObj? ==> r == Err(AttributeError))
  {
    if !data.JObj? then Err(AttributeError)
    else
      var groups := GetOr(data.fields, "standings", JArr([]));
      if !Truthy(groups) then Ok(JArr([]))
      else
        match groups
        case JArr(items) => Field(items[0], "teams", JArr([]))
        // the first character of a string has no `get`
        case JStr(_) => Err(AttributeError)
        // decoded dicts have only string keys, so `[0]` is missing
        case JObj(_) => Err(KeyError)
        case _ => Err(TypeError)
  }

  // ---------------------------------------------------------------------------
  // Matches
  // ---------------------------------------------------------------------------

  /** A row of `matches_to_dataframe`. Fields copied from the payload keep
      their JSON type. */
  datatype ApiMatchRow = ApiMatchRow(
    matchId: Json, date: string, season: int, matchday: Json,
    homeTeam: Json, awayTeam: Json, homeGoals: Json, awayGoals: Json,
    venue: Json, status: Json)

  predicate IsFinished(m: map<string, Json>)
  {
    GetNone(m, "status") == JStr("FINISHED")
  }

  /** A list element the conversion keeps: a match dict with status `FINISHED`. */
  predicate IsFinishedMatch(v: Json)
  {
    v.JObj? && IsFinished(v.fields)
  }

  /** The row built from one finished match, or the exception building it
      raises. The date is sliced from `matchDateUtc` (empty when missing); the
      season is the integer value of its first four characters, or 2025 when
      the key is missing. */
  function MatchRow(m: map<string, Json>): (r: Result<ApiMatchRow, PyError>)
  {
    var dateValue := GetOr(m, "matchDateUtc", JStr(""));
    if !dateValue.JStr? then Err(TypeError)
    else
      var yearText := if "matchDateUtc" in m then dateValue.s else "2025";
      var season := ParseInt(Prefix(yearText, 4));
      if season.None? then Err(ValueError)
      else RowFields(m, Prefix(dateValue.s, 10), season.value)
  }

  /** The row dict of one match once its date and season are known. */
  function RowFields(m: map<string, Json>, date: string, season: int): (r: Result<ApiMatchRow, PyError>)
    ensures r.Ok? ==> r.value.date == date && r.value.season == season && r.value.status == GetNone(m, "status")
    ensures r.Ok? ==> r.value.homeGoals == GetOr(m, "providerHomeScore", JInt(0))
    ensures r.Ok? ==> r.value.awayGoals == GetOr(m, "providerAwayScore", JInt(0))
  {
    var matchday := Field(GetOr(m, "matchSet", JObj(map[])), "name", JStr(""));
    var home := Field(GetOr(m, "home", JObj(map[])), "officialName", JStr(""));
    var away := Field(GetOr(m, "away", JObj(map[])), "officialName", JStr(""));
    if matchday.Err? then Err(matchday.error)
    else if home.Err? then Err(home.error)
    else if away.Err? then Err(away.error)
    else
      Ok(ApiMatchRow(
        GetNone(m, "matchId"), date, season, matchday.value,
        home.value, away.value,
        GetOr(m, "providerHomeScore", JInt(0)), GetOr(m, "providerAwayScore", JInt(0)),
        GetOr(m, "stadiumName", JStr("")), GetNone(m, "status")))
  }

  /** What a built row holds: the first ten characters of the date text, the
      payload's status, zero goals where a score is missing, and the defaulted
      date and season when the date is missing. */
  lemma MatchRowFields(m: map<string, Json>)
    requires MatchRow(m).Ok?
    ensures var row := MatchRow(m).value;
      && row.status == GetNone(m, "status")
      && ("matchDateUtc" in m ==> m["matchDateUtc"].JStr? && row.date == Prefix(m["matchDateUtc"].s, 10))
      && |row.date| <= 10
      && ("matchDateUtc" !in m ==> row.date == "" && row.season == 2025)
      && ("providerHomeScore" !in m ==> row.homeGoals == JInt(0))
      && ("providerAwayScore" !in m ==> row.awayGoals == JInt(0))
  {
    if "matchDateUtc" !in m {
      DefaultYear();
    }
  }

  /** The fallback date text `'2025'` reads as the year 2025. */
  lemma DefaultYear()
    ensures ParseInt(Prefix("2025", 4)) == Some(2025)
  {
    assert Prefix("2025", 4) == "2025";
    YearDigits();
    ParseIntDigitsOnly("2025");
  }

  lemma YearDigits()
    ensures forall i :: 0 <= i < 4 ==> IsDigit("2025"[i])
    ensures DigitsValue("2025") == 2025
  {
    assert "2025"[..3] == "202" && "202"[..2] == "20" && "20"[..1] == "2";
  }

  /** A date whose first four characters are digits gives that year as the
      season. */
  lemma MatchRowSeason(m: map<string, Json>, d: string)
    requires "matchDateUtc" in m && m["matchDateUtc"] == JStr(d)
    requires |d| >= 4 && forall i :: 0 <= i < 4 ==> IsDigit(d[i])
    requires MatchRow(m).Ok?
    ensures MatchRow(m).value.season == DigitsValue(d[..4])
  {
    assert Prefix(d, 4) == d[..4];
    ParseIntDigitsOnly(d[..4]);
  }

  /** The rows `matches_to_dataframe` collects, before sorting: one per
      finished match, in input order; any element that is not a dict raises
      `AttributeError` on its `get`. */
  function FinishedRows(ms: seq<Json>): Result<seq<ApiMatchRow>, PyError>
    decreases |ms|
  {
    if ms == [] then Ok([])
    else
      match FinishedRows(ms[..|ms| - 1])
      case Err(e) => Err(e)
      case Ok(rows) =>
        var m := ms[|ms| - 1];
        if !m.JObj? then Err(AttributeError)
        else if !IsFinished(m.fields) then Ok(rows)
        else
          match MatchRow(m.fields)
          case Err(e) => Err(e)
          case Ok(row) => Ok(rows + [row])
  }

  /** The conversion succeeds exactly when every element is a dict and every
      finished one converts; it then holds one row per finished match, in
      order, and only those. */
  lemma {:induction false} FinishedRowsSpec(ms: seq<Json>)
    ensures FinishedRows(ms).Ok? <==>
      forall k :: 0 <= k < |ms| ==> ms[k].JObj? && (IsFinished(ms[k].fields) ==> MatchRow(ms[k].fields).Ok?)
    ensures FinishedRows(ms).Ok? ==>
      var rows := FinishedRows(ms).value;
      var kept := Filter(ms, IsFinishedMatch);
      && |rows| == |kept|
      && forall k :: 0 <= k < |rows| ==> MatchRow(kept[k].fields) == Ok(rows[k])
  {
    if ms != [] {
      var init := ms[..|ms| - 1];
      var m := ms[|ms| - 1];
      assert ms == init + [m];
      FinishedRowsSpec(init);
      FilterSnoc(init, m, IsFinishedMatch);
      if FinishedRows(ms).Ok? {
        var rows0 := FinishedRows(init).value;
        var rows := FinishedRows(ms).value;
        var kept0 := Filter(init, IsFinishedMatch);
        var kept := Filter(ms, IsFinishedMatch);
        forall k | 0 <= k < |rows| ensures MatchRow(kept[k].fields) == Ok(rows[k]) {
          if k < |rows0| {
            assert kept[k] == kept0[k];
          }
        }
        forall k | 0 <= k < |ms|
          ensures ms[k].JObj? && (IsFinished(ms[k].fields) ==> MatchRow(ms[k].fields).Ok?)
        {
          if k < |init| {
            assert ms[k] == init[k];
          }
        }
      } else if FinishedRows(init).Ok? {
        assert !m.JObj? || (IsFinished(m.fields) && MatchRow(m.fields).Err?);
      } else {
        var k :| 0 <= k < |init| && !(init[k].JObj? && (IsFinished(init[k].fields) ==> MatchRow(init[k].fields).Ok?));
        assert ms[k] == init[k];
      }
    }
  }

  /** `matches_to_dataframe` orders rows by their date text. */
  predicate DateLe(a: ApiMatchRow, b: ApiMatchRow)
  {
    StrLe(a.date, b.date)
  }

  lemma DateLeIsPreorder()
    ensures TotalPreorder(DateLe)
  {
    forall x: ApiMatchRow, y: ApiMatchRow ensures DateLe(x, y) || DateLe(y, x) {
      StrLeTotal(x.date, y.date);
    }
    forall x: ApiMatchRow, y: ApiMatchRow, z: ApiMatchRow | DateLe(x, y) && DateLe(y, z)
      ensures DateLe(x, z)
    {
      StrLeTransitive(x.date, y.date, z.date);
    }
  }

  /** `matches_to_dataframe`: the rows of the finished matches, sorted by date. */
  method MatchesToDataframe(ms: seq<Json>) returns (r: Result<seq<ApiMatchRow>, PyError>)
    ensures r.Ok? <==> FinishedRows(ms).Ok?
    ensures r.Err? ==> r == Err(FinishedRows(ms).error)
    ensures r.Ok? ==> multiset(r.value) == multiset(FinishedRows(ms).value) && SortedBy(r.value, DateLe)
  {
    var rows := CollectFinished(ms);
    if rows.Err? {
      return Err(rows.error);
    }
    DateLeIsPreorder();
    SortBySorted(rows.value, DateLe);
    r := Ok(SortBy(rows.value, DateLe));
  }

  /** The loop of `matches_to_dataframe`: the rows of the finished matches,
      in input order. */
  method CollectFinished(ms: seq<Json>) returns (r: Result<seq<ApiMatchRow>, PyError>)
    ensures r == FinishedRows(ms)
  {
    var rows: seq<ApiMatchRow> := [];
    var i := 0;
    while i < |ms|
      invariant 0 <= i <= |ms|
      invariant FinishedRows(ms[..i]) == Ok(rows)
    {
      assert ms[..i + 1][..i] == ms[..i];
      var m := ms[i];
      if !m.JObj? {
        FailureStays(ms, i + 1);
        return Err(AttributeError);
      }
      if IsFinished(m.fields) {
        var row := MatchRow(m.fields);
        if row.Err? {
          FailureStays(ms, i + 1);
          return Err(row.error);
        }
        rows := rows + [row.value];
      }
      i := i + 1;
    }
    assert ms[..|ms|] == ms;
    r := Ok(rows);
  }

  /** Once a prefix of the list fails, the whole list fails the same way. */
  lemma {:induction false} FailureStays(ms: seq<Json>, n: nat)
    requires n <= |ms| && FinishedRows(ms[..n]).Err?
    ensures FinishedRows(ms) == FinishedRows(ms[..n])
    decreases |ms| - n
  {
    if n < |ms| {
      assert ms[..n + 1][..n] == ms[..n];
      FailureStays(ms, n + 1);
    } else {
      assert ms[..n] == ms;
    }
  }

  // ---------------------------------------------------------------------------
  // Standings
  // ---------------------------------------------------------------------------

  /** `safe_int`: `int(v)`, or the default for `None` and for values `int`
      rejects. A float is truncated toward zero; a string must be an integer
      literal. */
  function SafeInt(v: Json, default: int): int
  {
    match v
    case JNull => default
    case JBool(b) => if b then 1 else 0
    case JInt(i) => i
    case JFloat(x) => Trunc(x)
    case JStr(s) => if ParseInt(s).Some? then ParseInt(s).value else default
    case _ => default
  }

  /** The decimal text of an integer reads back as that integer. */
  lemma SafeIntOfText(i: int, default: int)
    ensures SafeInt(JStr(IntToString(i)), default) == i
  {
    IntToStringRoundTrip(i);
  }

  /** Text with no digit at all gives the default, as do missing values,
      lists and dicts. */
  lemma SafeIntDefault(v: Json, default: int)
    requires v.JNull? || v.JArr? || v.JObj? || (v.JStr? && forall i :: 0 <= i < |v.s| ==> !IsDigit(v.s[i]))
    ensures SafeInt(v, default) == default
  {
    if v.JStr? {
      var s := v.s;
      StripByShape(s, IsSpace);
      var a := LeadCount(s, IsSpace);
      var t := Strip(s);
      assert t == s[a..a + |t|];
      if |t| > 1 {
        assert t[1] == s[a + 1];
        assert !IsDigitGroups(t[1..]) by {
          assert t[1..][0] == t[1];
        }
      }
      if |t| > 0 {
        assert t[0] == s[a];
      }
    }
  }

  /** A row of `standings_to_dataframe`. */
  datatype StandingRow = StandingRow(
    position: int, team: Json, played: int, wins: int, draws: int, losses: int,
    goalsFor: int, goalsAgainst: int, goalDifference: int, points: int)

  /** One entry of a team's `stats` list recorded into the lookup dict:
      the entry's `statsValue` under its `statsId`. An id that is a list or a
      dict cannot be hashed. Ids that are not strings are stored by Python but
      never looked up, so only string ids are kept here. */
  function AddStat(d: map<string, Json>, stat: Json): Result<map<string, Json>, PyError>
  {
    if !stat.JObj? then Err(AttributeError)
    else
      var id := GetNone(stat.fields, "statsId");
      if id.JArr? || id.JObj? then Err(TypeError)
      else if id.JStr? then Ok(d[id.s := GetNone(stat.fields, "statsValue")])
      else Ok(d)
  }

  /** The lookup dict built from a `stats` list, in list order. */
  function StatsDict(items: seq<Json>): Result<map<string, Json>, PyError>
    decreases |items|
  {
    if items == [] then Ok(map[])
    else
      match StatsDict(items[..|items| - 1])
      case Err(e) => Err(e)
      case Ok(d) => AddStat(d, items[|items| - 1])
  }

  /** The entry of `items` at index `j` has string id `key`. */
  predicate HasId(items: seq<Json>, j: int, key: string)
    requires 0 <= j < |items|
  {
    items[j].JObj? && GetNone(items[j].fields, "statsId") == JStr(key)
  }

  /** A stat is found exactly when some entry has its id. */
  lemma {:induction false} StatFound(items: seq<Json>, key: string)
    requires StatsDict(items).Ok?
    ensures key in StatsDict(items).value <==> exists j :: 0 <= j < |items| && HasId(items, j, key)
  {
    if items != [] {
      var init := items[..|items| - 1];
      var last := |items| - 1;
      assert StatsDict(init).Ok?;
      StatFound(init, key);
      forall j | 0 <= j < |init| ensures HasId(init, j, key) == HasId(items, j, key) {
        assert init[j] == items[j];
      }
      var d0 := StatsDict(init).value;
      assert StatsDict(items) == AddStat(d0, items[last]);
      if key in StatsDict(items).value {
        if !HasId(items, last, key) {
          assert key in d0;
          var j :| 0 <= j < |init| && HasId(init, j, key);
          assert HasId(items, j, key);
        }
      }
      if exists j :: 0 <= j < |items| && HasId(items, j, key) {
        var j :| 0 <= j < |items| && HasId(items, j, key);
        if j < last {
          assert HasId(init, j, key);
        }
      }
    }
  }

  /** The value recorded for a stat is that of the LAST entry with its id. */
  lemma {:induction false} LastStatWins(items: seq<Json>, key: string, j: int)
    requires StatsDict(items).Ok?
    requires 0 <= j < |items| && HasId(items, j, key)
    requires forall k :: j < k < |items| ==> !HasId(items, k, key)
    ensures key in StatsDict(items).value
    ensures StatsDict(items).value[key] == GetNone(items[j].fields, "statsValue")
  {
    var init := items[..|items| - 1];
    var last := |items| - 1;
    assert StatsDict(init).Ok?;
    var d0 := StatsDict(init).value;
    assert StatsDict(items) == AddStat(d0, items[last]);
    if j < last {
      assert init[j] == items[j];
      forall k | j < k < |init| ensures !HasId(init, k, key) {
        assert init[k] == items[k];
        assert !HasId(items, k, key);
      }
      LastStatWins(init, key, j);
      assert !HasId(items, last, key);
    }
  }

  /** The lookup dict is built without error exactly when every entry is a
      dict whose id can be hashed. */
  lemma {:induction false} StatsDictOk(items: seq<Json>)
    ensures StatsDict(items).Ok? <==> forall j :: 0 <= j < |items| ==>
      items[j].JObj? && !GetNone(items[j].fields, "statsId").JArr? && !GetNone(items[j].fields, "statsId").JObj?
  {
    if items != [] {
      var init := items[..|items| - 1];
      StatsDictOk(init);
      forall j | 0 <= j < |init| ensures init[j] == items[j] { }
    }
  }

  /** The row of one team: its stats looked up by id and passed through
      `safe_int` with default 0, and its `officialName`. */
  function TeamRow(team: Json): Result<StandingRow, PyError>
  {
    if !team.JObj? then Err(AttributeError)
    else
      match Elements(GetOr(team.fields, "stats", JArr([])))
      case Err(e) => Err(e)
      case Ok(items) =>
        match StatsDict(items)
        case Err(e) => Err(e)
        case Ok(d) => Ok(RowOfStats(d, GetOr(team.fields, "officialName", JStr(""))))
  }

  function RowOfStats(d: map<string, Json>, name: Json): StandingRow
  {
    StandingRow(
      SafeInt(GetNone(d, "rank"), 0), name,
      SafeInt(GetNone(d, "matches-played"), 0), SafeInt(GetNone(d, "win"), 0),
      SafeInt(GetNone(d, "draw"), 0), SafeInt(GetNone(d, "lose"), 0),
      SafeInt(GetNone(d, "goals-for"), 0), SafeInt(GetNone(d, "goals-against"), 0),
      SafeInt(GetNone(d, "goal-difference"), 0), SafeInt(GetNone(d, "points"), 0))
  }

  /** A team without a `points` entry scores 0 points; with one, the last such
      entry's value is read through `safe_int`. */
  lemma TeamPoints(fields: map<string, Json>, items: seq<Json>)
    requires GetOr(fields, "stats", JArr([])) == JArr(items)
    requires TeamRow(JObj(fields)).Ok?
    ensures (forall j :: 0 <= j < |items| ==> !HasId(items, j, "points")) ==> TeamRow(JObj(fields)).value.points == 0
    ensures forall j :: (0 <= j < |items| && HasId(items, j, "points")
      && (forall k :: j < k < |items| ==> !HasId(items, k, "points"))) ==>
        TeamRow(JObj(fields)).value.points == SafeInt(GetNone(items[j].fields, "statsValue"), 0)
  {
    StatsDictOfTeam(fields, items);
    StatFound(items, "points");
    forall j | 0 <= j < |items| && HasId(items, j, "points")
      && (forall k :: j < k < |items| ==> !HasId(items, k, "points"))
      ensures TeamRow(JObj(fields)).value.points == SafeInt(GetNone(items[j].fields, "statsValue"), 0)
    {
      LastStatWins(items, "points", j);
    }
  }

  lemma StatsDictOfTeam(fields: map<string, Json>, items: seq<Json>)
    requires GetOr(fields, "stats", JArr([])) == JArr(items)
    requires TeamRow(JObj(fields)).Ok?
    ensures StatsDict(items).Ok?
    ensures TeamRow(JObj(fields)).value == RowOfStats(StatsDict(items).value, GetOr(fields, "officialName", JStr("")))
  {
  }

  /** The rows of `standings_to_dataframe`, one per team, in order. */
  function StandingsRows(teams: seq<Json>): Result<seq<StandingRow>, PyError>
    decreases |teams|
  {
    if teams == [] then Ok([])
    else
      match StandingsRows(teams[..|teams| - 1])
      case Err(e) => Err(e)
      case Ok(rows) =>
        match TeamRow(teams[|teams| - 1])
        case Err(e) => Err(e)
        case Ok(row) => Ok(rows + [row])
  }

  /** Successful conversion gives exactly one row per team, in order. */
  lemma {:induction false} StandingsRowsSpec(teams: seq<Json>)
    ensures StandingsRows(teams).Ok? <==> forall k :: 0 <= k < |teams| ==> TeamRow(teams[k]).Ok?
    ensures StandingsRows(teams).Ok? ==>
      var rows := StandingsRows(teams).value;
      |rows| == |teams| && forall k :: 0 <= k < |rows| ==> TeamRow(teams[k]) == Ok(rows[k])
  {
    if teams != [] {
      var init := teams[..|teams| - 1];
      StandingsRowsSpec(init);
      forall k | 0 <= k < |init| ensures init[k] == teams[k] { }
    }
  }

  /** The inner loop of `standings_to_dataframe`: fills the lookup dict. */
  method CollectStatValues(items: seq<Json>) returns (r: Result<map<string, Json>, PyError>)
    ensures r == StatsDict(items)
  {
    var d: map<string, Json> := map[];
    var i := 0;
    while i < |items|
      invariant 0 <= i <= |items|
      invariant StatsDict(items[..i]) == Ok(d)
    {
      assert items[..i + 1][..i] == items[..i];
      var stat := items[i];
      if !stat.JObj? {
        StatsFailureStays(items, i + 1);
        return Err(AttributeError);
      }
      var id := GetNone(stat.fields, "statsId");
      if id.JArr? || id.JObj? {
        StatsFailureStays(items, i + 1);
        return Err(TypeError);
      }
      if id.JStr? {
        d := d[id.s := GetNone(stat.fields, "statsValue")];
      }
      i := i + 1;
    }
    assert items[..|items|] == items;
    r := Ok(d);
  }

  lemma {:induction false} StatsFailureStays(items: seq<Json>, n: nat)
    requires n <= |items| && StatsDict(items[..n]).Err?
    ensures StatsDict(items) == StatsDict(items[..n])
    decreases |items| - n
  {
    if n < |items| {
      assert items[..n + 1][..n] == items[..n];
      StatsFailureStays(items, n + 1);
    } else {
      assert items[..n] == items;
    }
  }

  /** `standings_to_dataframe`. */
  method StandingsToDataframe(teams: seq<Json>) returns (r: Result<seq<StandingRow>, PyError>)
    ensures r == StandingsRows(teams)
  {
    var rows: seq<StandingRow> := [];
    var i := 0;
    while i < |teams|
      invariant 0 <= i <= |teams|
      invariant StandingsRows(teams[..i]) == Ok(rows)
    {
      assert teams[..i + 1][..i] == teams[..i];
      var row := ConvertTeam(teams[i]);
      if row.Err? {
        RowsFailureStays(teams, i + 1);
        return Err(row.error);
      }
      rows := rows + [row.value];
      i := i + 1;
    }
    assert teams[..|teams|] == teams;
    r := Ok(rows);
  }

  /** The body of the loop over the teams: the row of one team. */
  method ConvertTeam(team: Json) returns (r: Result<StandingRow, PyError>)
    ensures r == TeamRow(team)
  {
    if !team.JObj? {
      return Err(AttributeError);
    }
    var items := Elements(GetOr(team.fields, "stats", JArr([])));
    if items.Err? {
      return Err(items.error);
    }
    var stats := CollectStatValues(items.value);
    if stats.Err? {
      return Err(stats.error);
    }
    r := Ok(RowOfStats(stats.value, GetOr(team.fields, "officialName", JStr(""))));
  }

  lemma {:induction false} RowsFailureStays(teams: seq<Json>, n: nat)
    requires n <= |teams| && StandingsRows(teams[..n]).Err?
    ensures StandingsRows(teams) == StandingsRows(teams[..n])
    decreases |teams| - n
  {
    if n < |teams| {
      assert teams[..n + 1][..n] == teams[..n];
      RowsFailureStays(teams, n + 1);
    } else {
      assert teams[..n] == teams;
    }
  }
}
