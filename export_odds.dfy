/**
 * The record logic of the closing-odds export: the match identifier it
 * builds, the check of an odds table before export, and the merge of new
 * closing odds into the published ones. The database query and the CSV
 * files are outside the model: both tables are given as rows.
 */
module ExportOdds {
  import opened Common
  import opened Sorting
  import opened Frames
  import OddsScraper

  type Record = OddsScraper.ClosingOdds

  // ---------------------------------------------------------------------------
  // The match identifier
  // ---------------------------------------------------------------------------

  /** One team's part of the identifier: lower-cased, every ` fc` removed,
      spaces turned into underscores, then stripped. */
  function TeamPart(team: string): string
  {
    Strip(Replace(Replace(ToLower(team), " fc", ""), " ", "_"))
  }

  /** `generate_match_id`: `home_vs_away_YYYYMMDD`. */
  function GenerateMatchId(homeTeam: string, awayTeam: string, date: string): (r: string)
    ensures r == TeamPart(homeTeam) + "_vs_" + TeamPart(awayTeam) + "_" + RemoveChar(date, '-')
  {
    ReplaceCharByNothing(date, '-');
    TeamPart(homeTeam) + "_vs_" + TeamPart(awayTeam) + "_" + Replace(date, "-", "")
  }

  /** Replacing a character by another leaves none of the first. */
  lemma MapCharRemoves(s: string, c: char, d: char)
    requires c != d
    ensures c !in MapChar(s, c, d)
  {
    var r := MapChar(s, c, d);
    forall i | 0 <= i < |r| ensures r[i] != c {
    }
  }

  /** A team part has no space and no upper-case letter. */
  lemma TeamPartShape(team: string)
    ensures ' ' !in TeamPart(team)
    ensures forall i :: 0 <= i < |TeamPart(team)| ==> !IsUpper(TeamPart(team)[i])
  {
    var removed := Replace(ToLower(team), " fc", "");
    var spaced := Replace(removed, " ", "_");
    ReplaceCharByChar(removed, ' ', '_');
    MapCharRemoves(removed, ' ', '_');
    ReplaceKeepsLower(ToLower(team), " fc", "");
    var r := Strip(spaced);
    StripChars(spaced);
    forall i | 0 <= i < |r| ensures !IsUpper(r[i]) && r[i] != ' ' {
      assert r[i] in spaced;
      var j :| 0 <= j < |spaced| && spaced[j] == r[i];
      assert spaced[j] == (if removed[j] == ' ' then '_' else removed[j]);
    }
  }

  /** Removing a pattern from a text without upper-case letters leaves none. */
  lemma {:induction false} ReplaceKeepsLower(s: string, pat: string, rep: string)
    requires |pat| > 0
    requires forall i :: 0 <= i < |s| ==> !IsUpper(s[i])
    requires forall i :: 0 <= i < |rep| ==> !IsUpper(rep[i])
    ensures forall i :: 0 <= i < |Replace(s, pat, rep)| ==> !IsUpper(Replace(s, pat, rep)[i])
    decreases |s|
  {
    if |s| >= |pat| {
      if s[..|pat|] == pat {
        ReplaceKeepsLower(s[|pat|..], pat, rep);
        var t := Replace(s[|pat|..], pat, rep);
        assert forall i :: 0 <= i < |rep + t| ==> (rep + t)[i] == (if i < |rep| then rep[i] else t[i - |rep|]);
      } else {
        ReplaceKeepsLower(s[1..], pat, rep);
        var t := Replace(s[1..], pat, rep);
        assert forall i :: 0 <= i < |[s[0]] + t| ==> ([s[0]] + t)[i] == (if i == 0 then s[0] else t[i - 1]);
      }
    }
  }

  /** The identifier holds no dash after the teams, and the teams' parts no
      space. */
  lemma GenerateMatchIdShape(homeTeam: string, awayTeam: string, date: string)
    ensures var r := GenerateMatchId(homeTeam, awayTeam, date);
      && ' ' !in TeamPart(homeTeam) && ' ' !in TeamPart(awayTeam)
      && |r| >= |RemoveChar(date, '-')|
      && r[|r| - |RemoveChar(date, '-')|..] == RemoveChar(date, '-')
      && '-' !in r[|r| - |RemoveChar(date, '-')|..]
  {
    TeamPartShape(homeTeam);
    TeamPartShape(awayTeam);
  }

  // ---------------------------------------------------------------------------
  // Validation
  // ---------------------------------------------------------------------------

  const RequiredColumns: seq<string> := [
    "match_id", "date", "home_team", "away_team", "bookmaker",
    "closing_home", "closing_draw", "closing_away"
  ]

  const OddsColumns: seq<string> := ["closing_home", "closing_draw", "closing_away"]

  const KnownBookmakers: set<Value> := {Text("bet365"), Text("sportsinteraction")}

  /** The required columns the frame lacks, in order. */
  function MissingColumns(df: Frame): (r: seq<string>)
    ensures forall c :: c in r <==> c in RequiredColumns && c !in df.columns
  {
    var absent := (c: string) => c !in df.columns;
    FilterSubset(RequiredColumns, absent);
    FilterKeeps(RequiredColumns, absent);
    Filter(RequiredColumns, absent)
  }

  /** `df[col] < 1.0` over a column: comparing text with a number raises
      `TypeError`, and a missing cell is not below. */
  function AnyBelowOne(rows: seq<Row>, col: string): (r: Result<bool, OddsError>)
    ensures r.Ok? <==> forall i :: 0 <= i < |rows| ==> !Get(rows[i], col).Text?
    ensures r.Ok? ==> (r.value <==> exists i :: 0 <= i < |rows| && Below(Get(rows[i], col), 1.0))
  {
    if exists i :: 0 <= i < |rows| && Get(rows[i], col).Text? then Err(CompareError)
    else Ok(exists i :: 0 <= i < |rows| && Below(Get(rows[i], col), 1.0))
  }

  /** The error `validate_odds` can raise on text in an odds column. */
  datatype OddsError = CompareError

  /** The odds-range loop: the columns in order, stopping at the first that
      fails. */
  function OddsInRange(rows: seq<Row>, cols: seq<string>): (r: Result<bool, OddsError>)
  {
    if cols == [] then Ok(true)
    else
      match AnyBelowOne(rows, cols[0])
      case Err(e) => Err(e)
      case Ok(below) => if below then Ok(false) else OddsInRange(rows, cols[1..])
  }

  /** The range loop succeeds exactly when no odds cell is below 1.0, as
      long as no column holds text. */
  lemma {:induction false} OddsInRangeSpec(rows: seq<Row>, cols: seq<string>)
    requires forall c, i :: c in cols && 0 <= i < |rows| ==> !Get(rows[i], c).Text?
    ensures OddsInRange(rows, cols) ==
      Ok(forall c, i :: c in cols && 0 <= i < |rows| ==> !Below(Get(rows[i], c), 1.0))
  {
    if cols != [] {
      assert forall c :: c in cols <==> c == cols[0] || c in cols[1..];
      OddsInRangeSpec(rows, cols[1..]);
      assert cols[0] in cols;
      assert forall i :: 0 <= i < |rows| ==> !Get(rows[i], cols[0]).Text?;
      var below := AnyBelowOne(rows, cols[0]);
      if below.value {
        var i :| 0 <= i < |rows| && Below(Get(rows[i], cols[0]), 1.0);
        assert !(forall c, i :: c in cols && 0 <= i < |rows| ==> !Below(Get(rows[i], c), 1.0));
      }
    }
  }

  /** `validate_odds`: false on a missing column or an odd below 1.0. */
  function ValidateOdds(df: Frame): (r: Result<bool, OddsError>)
    ensures MissingColumns(df) != [] ==> r == Ok(false)
    ensures MissingColumns(df) == [] ==> r == OddsInRange(df.rows, OddsColumns)
  {
    if MissingColumns(df) != [] then Ok(false)
    else OddsInRange(df.rows, OddsColumns)
  }

  /** The bookmakers the check warns about. */
  function UnknownBookmakers(df: Frame): (r: set<Value>)
    ensures forall v :: v in r ==> v !in KnownBookmakers
  {
    (set i | 0 <= i < |df.rows| :: Get(df.rows[i], "bookmaker")) - KnownBookmakers
  }

  /** A frame with every column and every odd at least 1.0 passes, whatever
      its bookmakers: an unknown one only earns a warning. */
  lemma ValidOddsPass(df: Frame)
    requires forall c :: c in RequiredColumns ==> c in df.columns
    requires forall c, i :: c in OddsColumns && 0 <= i < |df.rows| ==> Get(df.rows[i], c).Num? && Get(df.rows[i], c).x >= 1.0
    ensures ValidateOdds(df) == Ok(true)
  {
    FilterNone(RequiredColumns, c => c !in df.columns);
    OddsInRangeSpec(df.rows, OddsColumns);
  }

  /** An odd below 1.0 anywhere fails the check. */
  lemma LowOddFails(df: Frame, c: string, i: nat)
    requires c in OddsColumns && i < |df.rows| && Below(Get(df.rows[i], c), 1.0)
    requires forall c, i :: c in OddsColumns && 0 <= i < |df.rows| ==> !Get(df.rows[i], c).Text?
    ensures ValidateOdds(df) == Ok(false)
  {
    OddsInRangeSpec(df.rows, OddsColumns);
  }

  // ---------------------------------------------------------------------------
  // Merging with the published odds
  // ---------------------------------------------------------------------------

  /** The rows `drop_duplicates` compares. */
  function Key(r: Record): (string, string)
  {
    (r.matchId, r.bookmaker)
  }

  predicate HasKey(rows: seq<Record>, k: (string, string))
  {
    exists j :: 0 <= j < |rows| && Key(rows[j]) == k
  }

  predicate UniqueKeys(rows: seq<Record>)
  {
    forall i, j :: 0 <= i < j < |rows| ==> Key(rows[i]) != Key(rows[j])
  }

  /** `drop_duplicates(subset=['match_id', 'bookmaker'], keep='last')`: a row
      stays when no later row has its key; the order is kept. */
  function KeepLast(rows: seq<Record>): (r: seq<Record>)
    ensures forall i :: 0 <= i < |r| ==> r[i] in rows
  {
    if rows == [] then []
    else
      var t := KeepLast(rows[1..]);
      if HasKey(rows[1..], Key(rows[0])) then t else [rows[0]] + t
  }

  /** The last row with a key: an independent statement of "the newest". */
  function LastWith(rows: seq<Record>, k: (string, string)): (r: Record)
    requires HasKey(rows, k)
    ensures Key(r) == k && r in rows
  {
    if HasKey(rows[1..], k) then
      var r := LastWith(rows[1..], k);
      r
    else
      assert forall j :: 0 < j < |rows| ==> rows[j] == rows[1..][j - 1];
      rows[0]
  }

  lemma InHasKey(rows: seq<Record>, x: Record)
    requires x in rows
    ensures HasKey(rows, Key(x))
  {
    var j :| 0 <= j < |rows| && rows[j] == x;
  }

  /** A key of the rows after the first is a key of all of them, and a key
      of all of them other than the first row's is one of the rest. */
  lemma TailKeys(rows: seq<Record>)
    requires rows != []
    ensures forall k :: HasKey(rows[1..], k) ==> HasKey(rows, k)
    ensures forall k :: HasKey(rows, k) && k != Key(rows[0]) ==> HasKey(rows[1..], k)
  {
    var tail := rows[1..];
    forall k | HasKey(tail, k) ensures HasKey(rows, k) {
      var j :| 0 <= j < |tail| && Key(tail[j]) == k;
      assert Key(rows[j + 1]) == k;
    }
    forall k | HasKey(rows, k) && k != Key(rows[0]) ensures HasKey(tail, k) {
      var j :| 0 <= j < |rows| && Key(rows[j]) == k;
      assert Key(tail[j - 1]) == k;
    }
  }

  /** The de-duplicated rows keep every key. */
  lemma {:induction false} KeepLastKeys(rows: seq<Record>)
    ensures forall k :: HasKey(KeepLast(rows), k) <==> HasKey(rows, k)
  {
    if rows != [] {
      var t := KeepLast(rows[1..]);
      KeepLastKeys(rows[1..]);
      TailKeys(rows);
      if !HasKey(rows[1..], Key(rows[0])) {
        var r := [rows[0]] + t;
        forall k | HasKey(r, k) ensures HasKey(t, k) || k == Key(rows[0]) {
          var j :| 0 <= j < |r| && Key(r[j]) == k;
          if j > 0 {
            assert Key(t[j - 1]) == k;
          }
        }
        forall k | HasKey(t, k) ensures HasKey(r, k) {
          var j :| 0 <= j < |t| && Key(t[j]) == k;
          assert Key(r[j + 1]) == k;
        }
        assert Key(r[0]) == Key(rows[0]);
      }
    }
  }

  /** The de-duplicated rows hold each key once. */
  lemma {:induction false} KeepLastUnique(rows: seq<Record>)
    ensures UniqueKeys(KeepLast(rows))
  {
    if rows != [] {
      var t := KeepLast(rows[1..]);
      KeepLastUnique(rows[1..]);
      if !HasKey(rows[1..], Key(rows[0])) {
        KeepLastKeys(rows[1..]);
        var r := [rows[0]] + t;
        forall i, j | 0 <= i < j < |r| ensures Key(r[i]) != Key(r[j]) {
          assert r[j] == t[j - 1];
          if i == 0 {
            assert HasKey(t, Key(t[j - 1]));
          } else {
            assert r[i] == t[i - 1];
          }
        }
      }
    }
  }

  /** Each de-duplicated row is the newest row with its key. */
  lemma {:induction false} KeepLastNewest(rows: seq<Record>)
    ensures forall i :: 0 <= i < |KeepLast(rows)| ==>
      HasKey(rows, Key(KeepLast(rows)[i])) && KeepLast(rows)[i] == LastWith(rows, Key(KeepLast(rows)[i]))
  {
    if rows != [] {
      var t := KeepLast(rows[1..]);
      KeepLastNewest(rows[1..]);
      TailKeys(rows);
      var r := KeepLast(rows);
      forall i | 0 <= i < |r| ensures HasKey(rows, Key(r[i])) && r[i] == LastWith(rows, Key(r[i])) {
        if HasKey(rows[1..], Key(rows[0])) {
          assert r[i] == t[i];
        } else if i > 0 {
          assert r[i] == t[i - 1];
        } else {
          assert Key(rows[0]) == Key(r[0]);
        }
      }
    }
  }

  /** A key the new rows hold is taken from the new rows. */
  lemma {:induction false} NewRowsWin(existing: seq<Record>, incoming: seq<Record>, k: (string, string))
    requires HasKey(incoming, k)
    ensures HasKey(existing + incoming, k)
    ensures LastWith(existing + incoming, k) == LastWith(incoming, k)
    decreases |existing|
  {
    var all := existing + incoming;
    var j :| 0 <= j < |incoming| && Key(incoming[j]) == k;
    assert Key(all[|existing| + j]) == k;
    if existing != [] {
      assert all[1..] == existing[1..] + incoming;
      NewRowsWin(existing[1..], incoming, k);
      assert HasKey(all[1..], k);
      assert LastWith(all, k) == LastWith(all[1..], k);
    } else {
      assert all == incoming;
    }
  }

  /** Python's ordering of the sort columns `(date, match_id, bookmaker)`. */
  function SortKey(r: Record): seq<string>
  {
    [r.date, r.matchId, r.bookmaker]
  }

  /** Lexicographic order on lists of strings of the same length. */
  predicate LexLe(xs: seq<string>, ys: seq<string>)
    requires |xs| == |ys|
  {
    if xs == [] then true
    else if xs[0] != ys[0] then StrLe(xs[0], ys[0])
    else LexLe(xs[1..], ys[1..])
  }

  predicate RecordLe(a: Record, b: Record)
  {
    LexLe(SortKey(a), SortKey(b))
  }

  lemma {:induction false} LexLeTotal(xs: seq<string>, ys: seq<string>)
    requires |xs| == |ys|
    ensures LexLe(xs, ys) || LexLe(ys, xs)
  {
    if xs != [] {
      if xs[0] != ys[0] {
        StrLeTotal(xs[0], ys[0]);
      } else {
        LexLeTotal(xs[1..], ys[1..]);
      }
    }
  }

  lemma {:induction false} LexLeTransitive(xs: seq<string>, ys: seq<string>, zs: seq<string>)
    requires |xs| == |ys| == |zs|
    requires LexLe(xs, ys) && LexLe(ys, zs)
    ensures LexLe(xs, zs)
  {
    if xs != [] {
      if xs[0] == ys[0] && ys[0] == zs[0] {
        LexLeTransitive(xs[1..], ys[1..], zs[1..]);
      } else if xs[0] != ys[0] && ys[0] != zs[0] {
        StrLeTransitive(xs[0], ys[0], zs[0]);
        if xs[0] == zs[0] {
          StrLeAntisymmetric(xs[0], ys[0]);
        }
      }
    }
  }

  lemma {:induction false} LexLeAntisymmetric(xs: seq<string>, ys: seq<string>)
    requires |xs| == |ys|
    requires LexLe(xs, ys) && LexLe(ys, xs)
    ensures xs == ys
  {
    if xs != [] {
      if xs[0] != ys[0] {
        StrLeAntisymmetric(xs[0], ys[0]);
      } else {
        LexLeAntisymmetric(xs[1..], ys[1..]);
        assert xs == [xs[0]] + xs[1..] && ys == [ys[0]] + ys[1..];
      }
    }
  }

  lemma RecordLeIsPreorder()
    ensures TotalPreorder(RecordLe)
  {
    forall a: Record, b: Record ensures RecordLe(a, b) || RecordLe(b, a) {
      LexLeTotal(SortKey(a), SortKey(b));
    }
    forall a: Record, b: Record, c: Record | RecordLe(a, b) && RecordLe(b, c)
      ensures RecordLe(a, c)
    {
      LexLeTransitive(SortKey(a), SortKey(b), SortKey(c));
    }
  }

  /** The concat, de-duplication and sort of new rows onto the published ones. */
  function Merge(existing: seq<Record>, incoming: seq<Record>): seq<Record>
  {
    SortBy(KeepLast(existing + incoming), RecordLe)
  }

  /** What `export_closing_odds_to_public` publishes: nothing new leaves the
      file alone; without published rows the new rows go out as queried. */
  function Export(existing: Option<seq<Record>>, incoming: seq<Record>): (r: seq<Record>)
    ensures incoming == [] ==> r == []
    ensures incoming != [] && (existing.None? || existing.value == []) ==> r == incoming
    ensures incoming != [] && existing.Some? && existing.value != [] ==> r == Merge(existing.value, incoming)
  {
    if incoming == [] then incoming
    else if existing.Some? && existing.value != [] then Merge(existing.value, incoming)
    else incoming
  }

  /** With unique keys a row occurs at most once. */
  lemma {:induction false} UniqueOnce(s: seq<Record>, x: Record)
    requires UniqueKeys(s)
    ensures multiset(s)[x] <= 1
  {
    if s != [] {
      assert s == [s[0]] + s[1..];
      UniqueOnce(s[1..], x);
      if x == s[0] {
        assert x !in s[1..] by {
          forall j | 0 <= j < |s[1..]| ensures s[1..][j] != x {
            assert Key(s[j + 1]) != Key(s[0]);
          }
        }
      }
    }
  }

  lemma TwoCopies(s: seq<Record>, i: nat, j: nat)
    requires i < j < |s| && s[i] == s[j]
    ensures multiset(s)[s[i]] >= 2
  {
    assert s == s[..j] + s[j..];
    assert s[i] in s[..j];
    assert s[j] == s[j..][0];
  }

  /** The merge holds exactly the de-duplicated rows. */
  lemma MergeMembers(existing: seq<Record>, incoming: seq<Record>)
    ensures forall x :: x in Merge(existing, incoming) <==> x in KeepLast(existing + incoming)
    ensures multiset(Merge(existing, incoming)) == multiset(KeepLast(existing + incoming))
  {
    var kept := KeepLast(existing + incoming);
    var r := Merge(existing, incoming);
    assert multiset(r) == multiset(kept);
    forall x | x in r ensures x in kept {
      assert x in multiset(r);
    }
    forall x | x in kept ensures x in r {
      assert x in multiset(kept);
    }
  }

  /** The merge keeps every key of the published and the new rows, and
      each row it keeps is the newest with its key. */
  lemma MergeKeys(existing: seq<Record>, incoming: seq<Record>)
    ensures var all := existing + incoming; var r := Merge(existing, incoming);
      && (forall k :: HasKey(r, k) <==> HasKey(all, k))
      && (forall i :: 0 <= i < |r| ==> HasKey(all, Key(r[i])) && r[i] == LastWith(all, Key(r[i])))
  {
    var all := existing + incoming;
    var kept := KeepLast(all);
    var r := Merge(existing, incoming);
    KeepLastKeys(all);
    KeepLastNewest(all);
    MergeMembers(existing, incoming);
    forall k | HasKey(r, k) ensures HasKey(all, k) {
      var j :| 0 <= j < |r| && Key(r[j]) == k;
      assert r[j] in kept;
      InHasKey(kept, r[j]);
    }
    forall k | HasKey(all, k) ensures HasKey(r, k) {
      var j :| 0 <= j < |kept| && Key(kept[j]) == k;
      assert kept[j] in r;
      InHasKey(r, kept[j]);
    }
    forall i | 0 <= i < |r| ensures HasKey(all, Key(r[i])) && r[i] == LastWith(all, Key(r[i])) {
      assert r[i] in kept;
      var j :| 0 <= j < |kept| && kept[j] == r[i];
    }
  }

  /** The merge leaves one row per (match, bookmaker), in strictly
      increasing (date, match, bookmaker) order, so an unstable sort cannot
      change the result. */
  lemma MergeOrder(existing: seq<Record>, incoming: seq<Record>)
    ensures var r := Merge(existing, incoming);
      && UniqueKeys(r)
      && SortedBy(r, RecordLe)
      && (forall i, j :: 0 <= i < j < |r| ==> !RecordLe(r[j], r[i]))
  {
    var kept := KeepLast(existing + incoming);
    var r := Merge(existing, incoming);
    KeepLastUnique(existing + incoming);
    MergeMembers(existing, incoming);
    RecordLeIsPreorder();
    SortBySorted(kept, RecordLe);
    forall i, j | 0 <= i < j < |r| ensures Key(r[i]) != Key(r[j]) {
      if Key(r[i]) == Key(r[j]) {
        SameKeySameRow(existing, incoming, i, j);
        TwoCopies(r, i, j);
        UniqueOnce(kept, r[i]);
      }
    }
    forall i, j | 0 <= i < j < |r| ensures !RecordLe(r[j], r[i]) {
      if RecordLe(r[j], r[i]) {
        LexLeAntisymmetric(SortKey(r[i]), SortKey(r[j]));
      }
    }
  }

  /** Two merged rows with one key are the same row. */
  lemma SameKeySameRow(existing: seq<Record>, incoming: seq<Record>, i: nat, j: nat)
    requires i < |Merge(existing, incoming)| && j < |Merge(existing, incoming)|
    requires Key(Merge(existing, incoming)[i]) == Key(Merge(existing, incoming)[j])
    ensures Merge(existing, incoming)[i] == Merge(existing, incoming)[j]
  {
    MergeKeys(existing, incoming);
  }
}
