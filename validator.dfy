/**
 * The data-quality validator for match tables (`scripts/data_validator.py`).
 * A `DataValidator` keeps the ordered list of check results; each check
 * appends what it finds, `ValidateMatches` starts the list afresh and runs
 * the checks in their fixed order, and the report's verdict is "no failing
 * error". Every check's outcome is a function of the table, proved to say
 * what the check is for.
 */
module Validator {
  import opened Common
  import opened Sorting
  import opened Frames

  // ---------------------------------------------------------------------------
  // Results
  // ---------------------------------------------------------------------------

  datatype Severity = Error | Warning | Info

  datatype ValidationResult = ValidationResult(checkName: string, passed: bool, severity: Severity, message: string)

  /** Every check reports a pass at INFO level and a failure as ERROR or WARNING. */
  predicate WellFormed(rs: seq<ValidationResult>)
  {
    forall k :: 0 <= k < |rs| ==> (rs[k].passed <==> rs[k].severity == Info)
  }

  // ---------------------------------------------------------------------------
  // Required fields
  // ---------------------------------------------------------------------------

  const Required: seq<string> := ["date", "home_team", "away_team", "home_goals", "away_goals"]

  function NullCount(df: Frame, col: string): nat
  {
    CountRows(df.rows, (r: Row) => Get(r, col) == Null)
  }

  /** The one result `_check_required_fields` appends for column `col`. */
  function FieldResult(df: Frame, col: string): (r: ValidationResult)
    ensures r.passed <==> col in df.columns && forall i :: 0 <= i < |df.rows| ==> Get(df.rows[i], col) != Null
    ensures r.passed <==> r.severity == Info
    ensures !r.passed ==> r.severity == Error
    ensures r.checkName == (if r.passed || col !in df.columns then "required_field_" else "null_check_") + col
  {
    CountPositive(df.rows, (r: Row) => Get(r, col) == Null);
    if col !in df.columns then
      ValidationResult("required_field_" + col, false, Error, "Missing required column: " + col)
    else if NullCount(df, col) > 0 then
      ValidationResult("null_check_" + col, false, Error,
                       "Missing values in " + col + ": " + IntToString(NullCount(df, col)) + " rows")
    else
      ValidationResult("required_field_" + col, true, Info, "Column " + col + " present and complete")
  }

  /** One result per column, in the order of `cols`. */
  function FieldResults(df: Frame, cols: seq<string>): (rs: seq<ValidationResult>)
    ensures |rs| == |cols|
    ensures forall k :: 0 <= k < |cols| ==> rs[k] == FieldResult(df, cols[k])
    ensures WellFormed(rs)
  {
    if cols == [] then [] else [FieldResult(df, cols[0])] + FieldResults(df, cols[1..])
  }

  lemma FieldResultsStep(df: Frame, cols: seq<string>, i: nat)
    requires i < |cols|
    ensures FieldResults(df, cols[..i + 1]) == FieldResults(df, cols[..i]) + [FieldResult(df, cols[i])]
  {
    var l := FieldResults(df, cols[..i + 1]);
    var r := FieldResults(df, cols[..i]) + [FieldResult(df, cols[i])];
    assert |l| == |r|;
    forall k | 0 <= k < |l| ensures l[k] == r[k] {
      assert cols[..i + 1][k] == cols[k];
    }
  }

  // ---------------------------------------------------------------------------
  // Team names
  // ---------------------------------------------------------------------------

  const ValidTeams: seq<string> := [
    "Forge FC", "Cavalry FC", "Pacific FC", "York United FC", "Valour FC",
    "HFX Wanderers FC", "FC Edmonton", "Vancouver FC", "Atletico Ottawa", "York9 FC"]

  predicate ValidTeam(v: Value)
  {
    v.Text? && v.s in ValidTeams
  }

  /** `set(df['home_team'].unique()) | set(df['away_team'].unique())`. */
  function TeamValues(df: Frame): set<Value>
  {
    (set i | 0 <= i < |df.rows| :: Get(df.rows[i], "home_team"))
      + (set i | 0 <= i < |df.rows| :: Get(df.rows[i], "away_team"))
  }

  /** `all_teams - set(VALID_TEAMS)`. */
  function InvalidTeams(df: Frame): set<Value>
  {
    set v | v in TeamValues(df) && !ValidTeam(v)
  }

  predicate HasTeams(df: Frame)
  {
    "home_team" in df.columns && "away_team" in df.columns
  }

  /** The set of invalid names is empty exactly when every home and away name
      is a valid team. */
  lemma InvalidTeamsIff(df: Frame)
    ensures InvalidTeams(df) == {} <==>
      forall i :: 0 <= i < |df.rows| ==> ValidTeam(Get(df.rows[i], "home_team")) && ValidTeam(Get(df.rows[i], "away_team"))
  {
    if InvalidTeams(df) != {} {
      var v :| v in InvalidTeams(df);
      assert v in TeamValues(df) && !ValidTeam(v);
      var i :| 0 <= i < |df.rows| && (v == Get(df.rows[i], "home_team") || v == Get(df.rows[i], "away_team"));
      assert !(ValidTeam(Get(df.rows[i], "home_team")) && ValidTeam(Get(df.rows[i], "away_team")));
    } else {
      forall i | 0 <= i < |df.rows|
        ensures ValidTeam(Get(df.rows[i], "home_team")) && ValidTeam(Get(df.rows[i], "away_team"))
      {
        var h, a := Get(df.rows[i], "home_team"), Get(df.rows[i], "away_team");
        assert h in TeamValues(df) && a in TeamValues(df);
        assert h !in InvalidTeams(df) && a !in InvalidTeams(df);
      }
    }
  }

  /** `_check_team_names`: nothing without both team columns, else one result
      that fails exactly when some home or away name is not a valid team. */
  function TeamNameResults(df: Frame): (rs: seq<ValidationResult>)
    ensures !HasTeams(df) ==> rs == []
    ensures HasTeams(df) ==> |rs| == 1 && rs[0].checkName == "valid_team_names"
    ensures HasTeams(df) ==> (rs[0].passed <==>
      forall i :: 0 <= i < |df.rows| ==> ValidTeam(Get(df.rows[i], "home_team")) && ValidTeam(Get(df.rows[i], "away_team")))
    ensures WellFormed(rs)
  {
    if !HasTeams(df) then []
    else
      var all := TeamValues(df);
      InvalidTeamsIff(df);
      if InvalidTeams(df) != {} then
        [ValidationResult("valid_team_names", false, Error, "Invalid team names found: ")]
      else
        [ValidationResult("valid_team_names", true, Info, "All " + IntToString(|all|) + " team names are valid")]
  }

  // ---------------------------------------------------------------------------
  // Scores
  // ---------------------------------------------------------------------------

  predicate NegativeScore(r: Row)
  {
    Below(Get(r, "home_goals"), 0.0) || Below(Get(r, "away_goals"), 0.0)
  }

  predicate HighScore(r: Row)
  {
    Above(Get(r, "home_goals"), 10.0) || Above(Get(r, "away_goals"), 10.0)
  }

  predicate HasScores(df: Frame)
  {
    "home_goals" in df.columns && "away_goals" in df.columns
  }

  /** A failing result named `name` at `severity` is in `rs`. */
  predicate Flags(rs: seq<ValidationResult>, name: string, severity: Severity)
  {
    exists k :: 0 <= k < |rs| && rs[k].checkName == name && !rs[k].passed && rs[k].severity == severity
  }

  predicate AnyPassed(rs: seq<ValidationResult>)
  {
    exists k :: 0 <= k < |rs| && rs[k].passed
  }

  /** The shape shared by the score and attendance checks: the error when
      some value is too low, the warning when some value is too high, and the
      passing result only when neither was reported. */
  function RangeReport(low: ValidationResult, high: ValidationResult, pass: ValidationResult,
                       lowCount: nat, highCount: nat): (rs: seq<ValidationResult>)
    requires !low.passed && low.severity == Error && !high.passed && high.severity == Warning
    requires pass.passed && pass.severity == Info
    ensures 1 <= |rs| <= 2
    ensures WellFormed(rs)
  {
    (if lowCount > 0 then [low] else [])
    + (if highCount > 0 then [high] else [])
    + (if lowCount == 0 && highCount == 0 then [pass] else [])
  }

  /** The error is reported iff the low count is positive, the warning iff the
      high count is, and something passes iff both are zero. */
  lemma RangeReportOutcome(low: ValidationResult, high: ValidationResult, pass: ValidationResult,
                           lowCount: nat, highCount: nat)
    requires !low.passed && low.severity == Error && !high.passed && high.severity == Warning
    requires pass.passed && pass.severity == Info
    requires low.checkName != high.checkName
    ensures var rs := RangeReport(low, high, pass, lowCount, highCount);
      && (Flags(rs, low.checkName, Error) <==> lowCount > 0)
      && (Flags(rs, high.checkName, Warning) <==> highCount > 0)
      && (AnyPassed(rs) <==> lowCount == 0 && highCount == 0)
  {
    var rs := RangeReport(low, high, pass, lowCount, highCount);
    if lowCount > 0 && highCount > 0 {
      assert rs == [low, high];
      assert rs[0] == low && rs[1] == high;
    } else if lowCount > 0 {
      assert rs == [low];
      assert rs[0] == low;
    } else if highCount > 0 {
      assert rs == [high];
      assert rs[0] == high;
    } else {
      assert rs == [pass];
      assert rs[0].passed;
    }
  }

  /** `_check_score_validity` on the two counts. */
  function ScoreReport(negative: nat, high: nat): seq<ValidationResult>
  {
    RangeReport(
      ValidationResult("negative_scores", false, Error,
                       "Negative scores found in " + IntToString(negative) + " matches"),
      ValidationResult("high_scores", false, Warning,
                       "Suspiciously high scores (>10) in " + IntToString(high) + " matches"),
      ValidationResult("score_validity", true, Info, "All scores are within valid range"),
      negative, high)
  }

  /** `_check_score_validity`: a negative-score error, a high-score warning,
      and the passing result only when neither was reported. */
  function ScoreResults(df: Frame): (rs: seq<ValidationResult>)
    ensures !HasScores(df) ==> rs == []
    ensures HasScores(df) ==> 1 <= |rs| <= 2
    ensures WellFormed(rs)
  {
    if !HasScores(df) then []
    else ScoreReport(CountRows(df.rows, NegativeScore), CountRows(df.rows, HighScore))
  }

  /** What the score check reports, in terms of the rows. */
  lemma ScoreCheckOutcome(df: Frame)
    requires HasScores(df)
    ensures Flags(ScoreResults(df), "negative_scores", Error) <==> exists i :: 0 <= i < |df.rows| && NegativeScore(df.rows[i])
    ensures Flags(ScoreResults(df), "high_scores", Warning) <==> exists i :: 0 <= i < |df.rows| && HighScore(df.rows[i])
    ensures AnyPassed(ScoreResults(df)) <==>
      forall i :: 0 <= i < |df.rows| ==> !NegativeScore(df.rows[i]) && !HighScore(df.rows[i])
  {
    var negative := CountRows(df.rows, NegativeScore);
    var high := CountRows(df.rows, HighScore);
    CountPositive(df.rows, NegativeScore);
    CountPositive(df.rows, HighScore);
    RangeReportOutcome(
      ValidationResult("negative_scores", false, Error,
                       "Negative scores found in " + IntToString(negative) + " matches"),
      ValidationResult("high_scores", false, Warning,
                       "Suspiciously high scores (>10) in " + IntToString(high) + " matches"),
      ValidationResult("score_validity", true, Info, "All scores are within valid range"),
      negative, high);
    assert ScoreResults(df) == ScoreReport(negative, high);
  }

  // ---------------------------------------------------------------------------
  // Duplicates
  // ---------------------------------------------------------------------------

  /** The key `['date', 'home_team', 'away_team']`. */
  function Key(r: Row): (Value, Value, Value)
  {
    (Get(r, "date"), Get(r, "home_team"), Get(r, "away_team"))
  }

  /** `duplicated(subset=key_cols, keep=False)`: another row has the same key. */
  predicate Duplicated(rows: seq<Row>, i: int)
    requires 0 <= i < |rows|
  {
    exists j :: 0 <= j < |rows| && j != i && Key(rows[j]) == Key(rows[i])
  }

  /** `duplicates.sum()` over the first `n` rows. */
  function DuplicateCount(rows: seq<Row>, n: nat): (c: nat)
    requires n <= |rows|
    ensures c <= n
  {
    if n == 0 then 0 else DuplicateCount(rows, n - 1) + (if Duplicated(rows, n - 1) then 1 else 0)
  }

  /** The count is positive exactly when some counted row is flagged. */
  lemma {:induction false} DuplicateCountPositive(rows: seq<Row>, n: nat)
    requires n <= |rows|
    ensures DuplicateCount(rows, n) > 0 <==> exists i :: 0 <= i < n && Duplicated(rows, i)
  {
    if n > 0 {
      DuplicateCountPositive(rows, n - 1);
    }
  }

  /** Both members of a pair of equal keys are flagged, so the count of a
      table with a duplicate is at least 2 and `dup_count // 2` at least 1. */
  lemma {:induction false} DuplicatePairCounted(rows: seq<Row>, n: nat, i: int, j: int)
    requires n <= |rows|
    requires 0 <= i < j < n
    requires Key(rows[i]) == Key(rows[j])
    ensures DuplicateCount(rows, n) >= 2
  {
    assert Duplicated(rows, i) && Duplicated(rows, j);
    if n - 1 == j {
      DuplicateCountPositive(rows, j);
    } else {
      DuplicatePairCounted(rows, n - 1, i, j);
    }
  }

  predicate HasKeys(df: Frame)
  {
    "date" in df.columns && "home_team" in df.columns && "away_team" in df.columns
  }

  /** Some row is flagged exactly when two rows share a key. */
  lemma DuplicatesIff(rows: seq<Row>)
    ensures DuplicateCount(rows, |rows|) > 0 <==>
      exists i, j :: 0 <= i < j < |rows| && Key(rows[i]) == Key(rows[j])
  {
    DuplicateCountPositive(rows, |rows|);
    if DuplicateCount(rows, |rows|) > 0 {
      var i :| 0 <= i < |rows| && Duplicated(rows, i);
      var j :| 0 <= j < |rows| && j != i && Key(rows[j]) == Key(rows[i]);
      if i < j {
        assert Key(rows[i]) == Key(rows[j]);
      } else {
        assert Key(rows[j]) == Key(rows[i]);
      }
    } else {
      forall i, j | 0 <= i < j < |rows| ensures Key(rows[i]) != Key(rows[j]) {
        assert !Duplicated(rows, i);
      }
    }
  }

  /** `_check_duplicates`. */
  function DuplicateResults(df: Frame): (rs: seq<ValidationResult>)
    ensures !HasKeys(df) ==> rs == []
    ensures HasKeys(df) ==> |rs| == 1 && rs[0].checkName == "duplicates"
    ensures HasKeys(df) ==> (rs[0].passed <==>
      forall i, j :: 0 <= i < j < |df.rows| ==> Key(df.rows[i]) != Key(df.rows[j]))
    ensures WellFormed(rs)
  {
    if !HasKeys(df) then []
    else
      var dupCount := DuplicateCount(df.rows, |df.rows|);
      DuplicatesIff(df.rows);
      if dupCount > 0 then
        [ValidationResult("duplicates", false, Warning, "Duplicate matches found: " + IntToString(dupCount / 2) + " sets")]
      else
        [ValidationResult("duplicates", true, Info, "No duplicate matches found")]
  }

  // ---------------------------------------------------------------------------
  // Attendance
  // ---------------------------------------------------------------------------

  /** `df['attendance'].dropna()`: the non-missing cells, in row order. */
  function Attendance(rows: seq<Row>): (vs: seq<Value>)
    ensures forall k :: 0 <= k < |vs| ==> vs[k] != Null
    ensures |vs| == 0 <==> forall i :: 0 <= i < |rows| ==> Get(rows[i], "attendance") == Null
  {
    if rows == [] then []
    else
      var rest := Attendance(rows[1..]);
      assert forall i :: 1 <= i < |rows| ==> rows[1..][i - 1] == rows[i];
      var v := Get(rows[0], "attendance");
      if v == Null then rest else [v] + rest
  }

  function CountValues(vs: seq<Value>, p: Value -> bool): (n: nat)
    ensures n > 0 <==> exists k :: 0 <= k < |vs| && p(vs[k])
  {
    if vs == [] then 0
    else
      var n := CountValues(vs[1..], p);
      assert forall k :: 1 <= k < |vs| ==> vs[1..][k - 1] == vs[k];
      n + (if p(vs[0]) then 1 else 0)
  }

  /** `attendance.min()` over the numbers, if there are any. */
  function MinNum(vs: seq<Value>): (m: Option<real>)
    ensures m.None? <==> forall k :: 0 <= k < |vs| ==> !vs[k].Num?
    ensures m.Some? ==> forall k :: 0 <= k < |vs| && vs[k].Num? ==> m.value <= vs[k].x
    ensures m.Some? ==> exists k :: 0 <= k < |vs| && vs[k] == Num(m.value)
  {
    if vs == [] then None
    else
      var rest := MinNum(vs[1..]);
      assert forall k :: 1 <= k < |vs| ==> vs[1..][k - 1] == vs[k];
      if !vs[0].Num? then rest
      else if rest.None? || vs[0].x <= rest.value then Some(vs[0].x)
      else rest
  }

  /** `attendance.max()` over the numbers, if there are any. */
  function MaxNum(vs: seq<Value>): (m: Option<real>)
    ensures m.None? <==> forall k :: 0 <= k < |vs| ==> !vs[k].Num?
    ensures m.Some? ==> forall k :: 0 <= k < |vs| && vs[k].Num? ==> vs[k].x <= m.value
    ensures m.Some? ==> exists k :: 0 <= k < |vs| && vs[k] == Num(m.value)
  {
    if vs == [] then None
    else
      var rest := MaxNum(vs[1..]);
      assert forall k :: 1 <= k < |vs| ==> vs[1..][k - 1] == vs[k];
      if !vs[0].Num? then rest
      else if rest.None? || vs[0].x >= rest.value then Some(vs[0].x)
      else rest
  }

  /** `int(x)` of an optional number, as text. */
  function ShowInt(m: Option<real>): string
  {
    if m.Some? then IntToString(Trunc(m.value)) else ""
  }

  const AttendanceLimit := 30000.0

  /** `_check_attendance`: skipped without the column, a pass when every value
      is missing, else a negative error, a high warning, and the passing
      range only when neither was reported. */
  function AttendanceResults(df: Frame): (rs: seq<ValidationResult>)
    ensures "attendance" !in df.columns ==> rs == []
    ensures "attendance" in df.columns ==> 1 <= |rs| <= 2
    ensures WellFormed(rs)
  {
    if "attendance" !in df.columns then []
    else
      var vs := Attendance(df.rows);
      if |vs| == 0 then
        [ValidationResult("attendance_data", true, Info, "No attendance data to validate")]
      else
        AttendanceReport(vs, CountValues(vs, IsNegative), CountValues(vs, IsHighAttendance))
  }

  predicate IsNegative(v: Value)
  {
    Below(v, 0.0)
  }

  predicate IsHighAttendance(v: Value)
  {
    Above(v, AttendanceLimit)
  }

  /** `_check_attendance` on the two counts of the values `vs`. */
  function AttendanceReport(vs: seq<Value>, negative: nat, high: nat): seq<ValidationResult>
  {
    RangeReport(
      ValidationResult("negative_attendance", false, Error,
                       "Negative attendance: " + IntToString(negative) + " matches"),
      ValidationResult("high_attendance", false, Warning,
                       "Unusually high attendance (>30k): " + IntToString(high) + " matches"),
      ValidationResult("attendance_validity", true, Info,
                       "Attendance range: " + ShowInt(MinNum(vs)) + "-" + ShowInt(MaxNum(vs))),
      negative, high)
  }

  /** What the attendance check reports once there are values. */
  lemma AttendanceReportOutcome(vs: seq<Value>, negative: nat, high: nat)
    ensures var rs := AttendanceReport(vs, negative, high);
      && (Flags(rs, "negative_attendance", Error) <==> negative > 0)
      && (Flags(rs, "high_attendance", Warning) <==> high > 0)
  {
    RangeReportOutcome(
      ValidationResult("negative_attendance", false, Error,
                       "Negative attendance: " + IntToString(negative) + " matches"),
      ValidationResult("high_attendance", false, Warning,
                       "Unusually high attendance (>30k): " + IntToString(high) + " matches"),
      ValidationResult("attendance_validity", true, Info,
                       "Attendance range: " + ShowInt(MinNum(vs)) + "-" + ShowInt(MaxNum(vs))),
      negative, high);
  }

  /** Without any attendance value the check only says so. */
  lemma AttendanceNoData(df: Frame)
    requires "attendance" in df.columns
    ensures (forall i :: 0 <= i < |df.rows| ==> Get(df.rows[i], "attendance") == Null) ==>
      AttendanceResults(df) == [ValidationResult("attendance_data", true, Info, "No attendance data to validate")]
  {
    var vs := Attendance(df.rows);
    AttendanceAny(df.rows, (v: Value) => v != Null);
    if |vs| > 0 {
      assert vs[0] != Null;
    }
  }

  /** A negative attendance is reported as an error exactly when some row
      has one. */
  lemma AttendanceNegative(df: Frame)
    requires "attendance" in df.columns
    ensures Flags(AttendanceResults(df), "negative_attendance", Error) <==>
      exists i :: 0 <= i < |df.rows| && Below(Get(df.rows[i], "attendance"), 0.0)
  {
    var vs := Attendance(df.rows);
    AttendanceAny(df.rows, IsNegative);
    if |vs| > 0 {
      var negative := CountValues(vs, IsNegative);
      var high := CountValues(vs, IsHighAttendance);
      AttendanceReportOutcome(vs, negative, high);
      assert AttendanceResults(df) == AttendanceReport(vs, negative, high);
    } else {
      assert !Flags(AttendanceResults(df), "negative_attendance", Error);
    }
  }

  /** An attendance above 30000 is reported as a warning exactly when some
      row has one. */
  lemma AttendanceHigh(df: Frame)
    requires "attendance" in df.columns
    ensures Flags(AttendanceResults(df), "high_attendance", Warning) <==>
      exists i :: 0 <= i < |df.rows| && Above(Get(df.rows[i], "attendance"), AttendanceLimit)
  {
    var vs := Attendance(df.rows);
    AttendanceAny(df.rows, IsHighAttendance);
    if |vs| > 0 {
      var negative := CountValues(vs, IsNegative);
      var high := CountValues(vs, IsHighAttendance);
      AttendanceReportOutcome(vs, negative, high);
      assert AttendanceResults(df) == AttendanceReport(vs, negative, high);
    } else {
      assert !Flags(AttendanceResults(df), "high_attendance", Warning);
    }
  }

  /** A test that fails on a missing value holds on some dropped-NaN value
      exactly when it holds on some cell of the column. */
  lemma AttendanceAny(rows: seq<Row>, p: Value -> bool)
    requires !p(Null)
    ensures (exists k :: 0 <= k < |Attendance(rows)| && p(Attendance(rows)[k])) <==>
      (exists i :: 0 <= i < |rows| && p(Get(rows[i], "attendance")))
  {
    if exists k :: 0 <= k < |Attendance(rows)| && p(Attendance(rows)[k]) {
      var k :| 0 <= k < |Attendance(rows)| && p(Attendance(rows)[k]);
      KeptValueFromRow(rows, p, k);
    }
    if exists i :: 0 <= i < |rows| && p(Get(rows[i], "attendance")) {
      var i :| 0 <= i < |rows| && p(Get(rows[i], "attendance"));
      RowValueKept(rows, p, i);
    }
  }

  /** A kept value with the property comes from a cell with it. */
  lemma {:induction false} KeptValueFromRow(rows: seq<Row>, p: Value -> bool, k: nat)
    requires k < |Attendance(rows)| && p(Attendance(rows)[k])
    ensures exists i :: 0 <= i < |rows| && p(Get(rows[i], "attendance"))
  {
    var tail := rows[1..];
    var rest := Attendance(tail);
    var v := Get(rows[0], "attendance");
    assert Attendance(rows) == if v == Null then rest else [v] + rest;
    if v != Null && k == 0 {
      assert p(Get(rows[0], "attendance"));
    } else {
      var k' := if v == Null then k else k - 1;
      assert p(rest[k']);
      KeptValueFromRow(tail, p, k');
      var i :| 0 <= i < |tail| && p(Get(tail[i], "attendance"));
      assert rows[i + 1] == tail[i];
    }
  }

  /** A cell with the property, which a missing cell lacks, is kept. */
  lemma {:induction false} RowValueKept(rows: seq<Row>, p: Value -> bool, i: nat)
    requires !p(Null)
    requires i < |rows| && p(Get(rows[i], "attendance"))
    ensures exists k :: 0 <= k < |Attendance(rows)| && p(Attendance(rows)[k])
  {
    var tail := rows[1..];
    var rest := Attendance(tail);
    var v := Get(rows[0], "attendance");
    var vs := Attendance(rows);
    assert vs == if v == Null then rest else [v] + rest;
    if i == 0 {
      assert vs[0] == v;
    } else {
      assert tail[i - 1] == rows[i];
      RowValueKept(tail, p, i - 1);
      var k :| 0 <= k < |rest| && p(rest[k]);
      var k' := if v == Null then k else k + 1;
      assert vs[k'] == rest[k];
    }
  }

  // ---------------------------------------------------------------------------
  // Home and away teams
  // ---------------------------------------------------------------------------

  /** `df['home_team'] == df['away_team']` on one row: NaN equals nothing. */
  predicate SameTeams(r: Row)
  {
    Get(r, "home_team") != Null && Get(r, "home_team") == Get(r, "away_team")
  }

  /** `_check_home_away_different`. */
  function HomeAwayResults(df: Frame): (rs: seq<ValidationResult>)
    ensures !HasTeams(df) ==> rs == []
    ensures HasTeams(df) ==> |rs| == 1
    ensures HasTeams(df) ==> (rs[0].passed <==> forall i :: 0 <= i < |df.rows| ==> !SameTeams(df.rows[i]))
    ensures HasTeams(df) && !rs[0].passed ==> rs[0].checkName == "home_away_same" && rs[0].severity == Error
    ensures WellFormed(rs)
  {
    if !HasTeams(df) then []
    else
      var same := CountRows(df.rows, SameTeams);
      CountPositive(df.rows, SameTeams);
      if same > 0 then
        [ValidationResult("home_away_same", false, Error, "Home and away team same: " + IntToString(same) + " matches")]
      else
        [ValidationResult("home_away_different", true, Info, "All matches have different home/away teams")]
  }

  // ---------------------------------------------------------------------------
  // The whole validation and its verdict
  // ---------------------------------------------------------------------------

  const EmptyResult := ValidationResult("data_exists", false, Error, "DataFrame is empty")

  /** The results of `validate_matches`, in check order. The date check and
      the season check depend on date parsing and the clock: `dateResults` and
      `seasonResults` are what they append when their columns are present. */
  function MatchResults(df: Frame, dateResults: seq<ValidationResult>, seasonResults: seq<ValidationResult>): seq<ValidationResult>
  {
    if IsEmpty(df) then [EmptyResult]
    else
      FieldResults(df, Required) + TeamNameResults(df) + ScoreResults(df)
      + (if "date" in df.columns then dateResults else [])
      + DuplicateResults(df) + AttendanceResults(df)
      + (if "season" in df.columns && "date" in df.columns then seasonResults else [])
      + HomeAwayResults(df)
  }

  predicate FailedError(r: ValidationResult)
  {
    r.severity == Error && !r.passed
  }

  /** The return value of `print_report`: no result is a failing error. */
  function ReportOk(rs: seq<ValidationResult>): (ok: bool)
    ensures ok <==> forall k :: 0 <= k < |rs| ==> !FailedError(rs[k])
  {
    CountPositiveResults(rs);
    |Filter(rs, FailedError)| == 0
  }

  lemma CountPositiveResults(rs: seq<ValidationResult>)
    ensures |Filter(rs, FailedError)| > 0 <==> exists k :: 0 <= k < |rs| && FailedError(rs[k])
  {
    if |Filter(rs, FailedError)| > 0 {
      FilterMember(rs, FailedError, 0);
    }
  }

  /** Warnings never change the verdict. */
  lemma {:induction false} WarningsDoNotFail(rs: seq<ValidationResult>, w: ValidationResult)
    requires w.severity != Error
    ensures ReportOk(rs + [w]) == ReportOk(rs)
  {
    assert forall k :: 0 <= k < |rs| ==> (rs + [w])[k] == rs[k];
  }

  /** An empty table fails validation with the single `data_exists` error. */
  lemma EmptyTableFails(df: Frame, dateResults: seq<ValidationResult>, seasonResults: seq<ValidationResult>)
    requires IsEmpty(df)
    ensures |MatchResults(df, dateResults, seasonResults)| == 1
    ensures FailedError(MatchResults(df, dateResults, seasonResults)[0])
    ensures !ReportOk(MatchResults(df, dateResults, seasonResults))
  {
    assert MatchResults(df, dateResults, seasonResults)[0] == EmptyResult;
  }

  /** A failing error anywhere in a list keeps failing once more results are
      put before or after it. */
  lemma FailureSticks(x: seq<ValidationResult>, y: seq<ValidationResult>)
    requires !ReportOk(x)
    ensures !ReportOk(x + y) && !ReportOk(y + x)
  {
    var k :| 0 <= k < |x| && FailedError(x[k]);
    assert (x + y)[k] == x[k];
    assert (y + x)[|y| + k] == x[k];
  }

  /** Once the checks before the date check fail, the whole validation fails. */
  lemma {:induction false} EarlyFailureFails(df: Frame, dateResults: seq<ValidationResult>, seasonResults: seq<ValidationResult>)
    requires !IsEmpty(df)
    requires !ReportOk(FieldResults(df, Required) + TeamNameResults(df) + ScoreResults(df))
    ensures !ReportOk(MatchResults(df, dateResults, seasonResults))
  {
    var x0 := FieldResults(df, Required) + TeamNameResults(df) + ScoreResults(df);
    var x1 := x0 + (if "date" in df.columns then dateResults else []);
    FailureSticks(x0, if "date" in df.columns then dateResults else []);
    var x2 := x1 + DuplicateResults(df);
    FailureSticks(x1, DuplicateResults(df));
    var x3 := x2 + AttendanceResults(df);
    FailureSticks(x2, AttendanceResults(df));
    var x4 := x3 + (if "season" in df.columns && "date" in df.columns then seasonResults else []);
    FailureSticks(x3, if "season" in df.columns && "date" in df.columns then seasonResults else []);
    FailureSticks(x4, HomeAwayResults(df));
  }

  /** A required column that is missing or has a missing value fails the report. */
  lemma {:induction false} IncompleteRequiredFieldFails(df: Frame, dateResults: seq<ValidationResult>, seasonResults: seq<ValidationResult>, k: int)
    requires !IsEmpty(df)
    requires 0 <= k < |Required|
    requires Required[k] !in df.columns || exists i :: 0 <= i < |df.rows| && Get(df.rows[i], Required[k]) == Null
    ensures !ReportOk(MatchResults(df, dateResults, seasonResults))
  {
    var fields := FieldResults(df, Required);
    assert FailedError(fields[k]);
    FailureSticks(fields, TeamNameResults(df));
    FailureSticks(fields + TeamNameResults(df), ScoreResults(df));
    EarlyFailureFails(df, dateResults, seasonResults);
  }

  /** A negative score fails the report. */
  lemma {:induction false} NegativeScoreFails(df: Frame, dateResults: seq<ValidationResult>, seasonResults: seq<ValidationResult>, i: int)
    requires !IsEmpty(df) && HasScores(df)
    requires 0 <= i < |df.rows| && NegativeScore(df.rows[i])
    ensures !ReportOk(MatchResults(df, dateResults, seasonResults))
  {
    ScoreCheckOutcome(df);
    var scores := ScoreResults(df);
    var k :| 0 <= k < |scores| && scores[k].checkName == "negative_scores" && !scores[k].passed && scores[k].severity == Error;
    assert FailedError(scores[k]);
    FailureSticks(scores, FieldResults(df, Required) + TeamNameResults(df));
    EarlyFailureFails(df, dateResults, seasonResults);
  }

  /** A row whose home and away team coincide fails the report. */
  lemma {:induction false} SameTeamsFail(df: Frame, dateResults: seq<ValidationResult>, seasonResults: seq<ValidationResult>, i: int)
    requires !IsEmpty(df) && HasTeams(df)
    requires 0 <= i < |df.rows| && SameTeams(df.rows[i])
    ensures !ReportOk(MatchResults(df, dateResults, seasonResults))
  {
    var rs := MatchResults(df, dateResults, seasonResults);
    var last := HomeAwayResults(df);
    assert FailedError(last[0]);
    FailureSticks(last, rs[..|rs| - |last|]);
    assert rs == rs[..|rs| - |last|] + last;
  }

  // ---------------------------------------------------------------------------
  // The validator object
  // ---------------------------------------------------------------------------

  /** `CPLDataValidator`: the results of the latest validation. */
  class DataValidator {
    var results: seq<ValidationResult>

    constructor()
      ensures results == []
    {
      results := [];
    }

    /** `validate_matches(df)`: starts from an empty list, then either the
        single `data_exists` error or every check in order. */
    method ValidateMatches(df: Frame, dateResults: seq<ValidationResult>, seasonResults: seq<ValidationResult>)
      returns (rs: seq<ValidationResult>)
      modifies this
      ensures results == MatchResults(df, dateResults, seasonResults)
      ensures rs == results
    {
      results := [];
      if IsEmpty(df) {
        results := results + [EmptyResult];
        return results;
      }
      CheckRequiredFields(df);
      assert results == FieldResults(df, Required);
      CheckTeamNames(df);
      CheckScoreValidity(df);
      CheckDateValidity(df, dateResults);
      CheckDuplicates(df);
      CheckAttendance(df);
      CheckSeasonConsistency(df, seasonResults);
      CheckHomeAwayDifferent(df);
      rs := results;
    }

    /** `_check_required_fields`: one result per required column, in order. */
    method CheckRequiredFields(df: Frame)
      modifies this
      ensures results == old(results) + FieldResults(df, Required)
    {
      AppendFieldResults(df, Required);
    }

    /** The loop of `_check_required_fields`: one result per column. */
    method AppendFieldResults(df: Frame, cols: seq<string>)
      modifies this
      ensures results == old(results) + FieldResults(df, cols)
    {
      for i := 0 to |cols|
        invariant results == old(results) + FieldResults(df, cols[..i])
      {
        FieldResultsStep(df, cols, i);
        results := results + [FieldResult(df, cols[i])];
      }
      assert cols[..|cols|] == cols;
    }

    method CheckTeamNames(df: Frame)
      modifies this
      ensures results == old(results) + TeamNameResults(df)
    {
      results := results + TeamNameResults(df);
    }

    method CheckScoreValidity(df: Frame)
      modifies this
      ensures results == old(results) + ScoreResults(df)
    {
      results := results + ScoreResults(df);
    }

    /** `_check_date_validity`: skipped without the date column. */
    method CheckDateValidity(df: Frame, dateResults: seq<ValidationResult>)
      modifies this
      ensures results == old(results) + (if "date" in df.columns then dateResults else [])
    {
      if "date" in df.columns {
        results := results + dateResults;
      }
    }

    method CheckDuplicates(df: Frame)
      modifies this
      ensures results == old(results) + DuplicateResults(df)
    {
      results := results + DuplicateResults(df);
    }

    method CheckAttendance(df: Frame)
      modifies this
      ensures results == old(results) + AttendanceResults(df)
    {
      results := results + AttendanceResults(df);
    }

    /** `_check_season_consistency`: skipped without the season or date column. */
    method CheckSeasonConsistency(df: Frame, seasonResults: seq<ValidationResult>)
      modifies this
      ensures results == old(results) + (if "season" in df.columns && "date" in df.columns then seasonResults else [])
    {
      if "season" in df.columns && "date" in df.columns {
        results := results + seasonResults;
      }
    }

    method CheckHomeAwayDifferent(df: Frame)
      modifies this
      ensures results == old(results) + HomeAwayResults(df)
    {
      results := results + HomeAwayResults(df);
    }

    /** `print_report`: the printed text is left out; its value is true
        exactly when no result is a failing error. */
    method PrintReport() returns (ok: bool)
      ensures ok <==> forall k :: 0 <= k < |results| ==> !FailedError(results[k])
    {
      var errors := Filter(results, FailedError);
      CountPositiveResults(results);
      ok := |errors| == 0;
    }

    /** `validate_and_report(df)`. */
    method ValidateAndReport(df: Frame, dateResults: seq<ValidationResult>, seasonResults: seq<ValidationResult>)
      returns (ok: bool)
      modifies this
      ensures results == MatchResults(df, dateResults, seasonResults)
      ensures ok == ReportOk(results)
    {
      var _ := ValidateMatches(df, dateResults, seasonResults);
      ok := PrintReport();
    }
  }

  /** `validate_cpl_data(df)`: a fresh validator's verdict. */
  method ValidateCplData(df: Frame, dateResults: seq<ValidationResult>, seasonResults: seq<ValidationResult>)
    returns (ok: bool)
    ensures ok == ReportOk(MatchResults(df, dateResults, seasonResults))
  {
    var validator := new DataValidator();
    ok := validator.ValidateAndReport(df, dateResults, seasonResults);
  }
}
