/**
 * The record logic of the referee extractor: the date slice, the search for
 * the main referee in a match's facts, the selection of finished matches per
 * season, and the check on the requested year range. Fetching the payloads is
 * outside the model.
 */
module Referees {
  import opened Common
  import opened Sorting
  import opened PyJson
  import ApiClient

  // ---------------------------------------------------------------------------
  // Dates
  // ---------------------------------------------------------------------------

  /** `_parse_date`: nothing for a missing or empty date, otherwise its first
      ten characters. */
  function ParseDate(d: Option<string>): (r: string)
    ensures r == "" <==> d.None? || d.value == ""
    ensures d.Some? ==> |r| == (if |d.value| < 10 then |d.value| else 10) && r == d.value[..|r|]
  {
    if d.None? || d.value == "" then "" else Prefix(d.value, 10)
  }

  // ---------------------------------------------------------------------------
  // The main referee
  // ---------------------------------------------------------------------------

  /** The three fields `_extract_main_referee` returns. */
  datatype RefereeInfo = RefereeInfo(refereeId: Json, refereeName: string, refereeShortName: Json)

  const NoReferee := RefereeInfo(JStr(""), "", JStr(""))

  /** The `referees` list of the facts; a missing or falsy value counts as
      empty. A non-empty string or dict iterates over strings, which the search
      skips, so it contributes no entry; a non-zero number is not iterable. */
  function RefereeEntries(facts: map<string, Json>): (r: Result<seq<Json>, PyError>)
    ensures !Truthy(GetNone(facts, "referees")) ==> r == Ok([])
    ensures GetNone(facts, "referees").JArr? ==> r == Ok(GetNone(facts, "referees").items)
  {
    match Or(GetNone(facts, "referees"), JArr([]))
    case JArr(items) => Ok(items)
    case JStr(_) => Ok([])
    case JObj(_) => Ok([])
    case _ => Err(TypeError)
  }

  /** The role of an entry: `roleLabel`, else `role`, else empty. */
  function RoleLabel(entry: map<string, Json>): Json
  {
    Or(Or(GetNone(entry, "roleLabel"), GetNone(entry, "role")), JStr(""))
  }

  /** An entry whose role, stripped and lower-cased, is `referee`. The text
      of a non-string role never reads `referee`. */
  predicate IsMainReferee(v: Json)
  {
    v.JObj? && RoleLabel(v.fields).JStr? && ToLower(Strip(RoleLabel(v.fields).s)) == "referee"
  }

  /** `(entry.get(key) or "").strip()`; a truthy non-string has no `strip`. */
  function NamePart(entry: map<string, Json>, key: string): (r: Result<string, PyError>)
    ensures !Truthy(GetNone(entry, key)) ==> r == Ok("")
    ensures r.Ok? ==> Strip(r.value) == r.value
  {
    var v := Or(GetNone(entry, key), JStr(""));
    StripIdempotent(if v.JStr? then v.s else "");
    if v.JStr? then Ok(Strip(v.s)) else Err(AttributeError)
  }

  predicate NonEmpty(s: string)
  {
    s != ""
  }

  /** `" ".join(p for p in [first, last] if p).strip()`. */
  function RefereeName(first: string, last: string): string
  {
    Strip(Join(Filter([first, last], NonEmpty), ' '))
  }

  /** For stripped name parts the final strip changes nothing: the name is
      the non-empty parts separated by exactly one space. */
  lemma RefereeNameJoin(first: string, last: string)
    requires Strip(first) == first && Strip(last) == last
    ensures RefereeName(first, last) ==
      if first == "" then last
      else if last == "" then first
      else first + " " + last
  {
    StripByShape(first, IsSpace);
    StripByShape(last, IsSpace);
    assert [first, last][1..] == [last];
    var joined := Join(Filter([first, last], NonEmpty), ' ');
    if first == "" && last == "" {
      assert Filter([last], NonEmpty) == [];
      assert joined == "";
    } else if first == "" {
      assert Filter([last], NonEmpty) == [last];
      assert joined == last;
    } else if last == "" {
      assert Filter([last], NonEmpty) == [];
      assert joined == first;
    } else {
      assert Filter([last], NonEmpty) == [last];
      assert Filter([first, last], NonEmpty) == [first, last];
      assert [first, last][1..] == [last];
      assert Join([first, last], ' ') == first + [' '] + Join([last], ' ');
      assert joined == first + " " + last;
      assert joined[0] == first[0];
      assert joined[|joined| - 1] == last[|last| - 1];
      StripByNoop(joined, IsSpace);
    }
  }

  /** The record built for the entry that was found. A missing or falsy id
      or short name becomes the empty string; a truthy one is kept as given. */
  function RefereeRecord(entry: map<string, Json>): (r: Result<RefereeInfo, PyError>)
    ensures r.Ok? <==> NamePart(entry, "mediaFirstName").Ok? && NamePart(entry, "mediaLastName").Ok?
    ensures r.Ok? ==>
      r.value.refereeName == RefereeName(NamePart(entry, "mediaFirstName").value, NamePart(entry, "mediaLastName").value)
    ensures r.Ok? && ("refereeId" !in entry || !Truthy(entry["refereeId"])) ==> r.value.refereeId == JStr("")
    ensures r.Ok? && "refereeId" in entry && Truthy(entry["refereeId"]) ==> r.value.refereeId == entry["refereeId"]
    ensures r.Ok? && ("shortName" !in entry || !Truthy(entry["shortName"])) ==> r.value.refereeShortName == JStr("")
    ensures r.Ok? && "shortName" in entry && Truthy(entry["shortName"]) ==> r.value.refereeShortName == entry["shortName"]
  {
    var first := NamePart(entry, "mediaFirstName");
    var last := NamePart(entry, "mediaLastName");
    if first.Err? then Err(first.error)
    else if last.Err? then Err(last.error)
    else
      Ok(RefereeInfo(
        Or(GetOr(entry, "refereeId", JStr("")), JStr("")),
        RefereeName(first.value, last.value),
        Or(GetOr(entry, "shortName", JStr("")), JStr(""))))
  }

  /** The search loop of `_extract_main_referee`: the first dict entry whose
      role is `referee`, skipping everything else. */
  function FirstReferee(entries: seq<Json>): Result<RefereeInfo, PyError>
  {
    if entries == [] then Ok(NoReferee)
    else if IsMainReferee(entries[0]) then RefereeRecord(entries[0].fields)
    else FirstReferee(entries[1..])
  }

  /** Without a main referee the search returns the empty record. */
  lemma {:induction false} FirstRefereeNone(entries: seq<Json>)
    requires forall k :: 0 <= k < |entries| ==> !IsMainReferee(entries[k])
    ensures FirstReferee(entries) == Ok(NoReferee)
  {
    if entries != [] {
      assert !IsMainReferee(entries[0]);
      forall k | 0 <= k < |entries| - 1 ensures !IsMainReferee(entries[1..][k]) {
        assert entries[1..][k] == entries[k + 1];
      }
      FirstRefereeNone(entries[1..]);
    }
  }

  /** The search returns the record of the first main referee. */
  lemma {:induction false} FirstRefereeFound(entries: seq<Json>, j: nat)
    requires j < |entries| && IsMainReferee(entries[j])
    requires forall k :: 0 <= k < j ==> !IsMainReferee(entries[k])
    ensures FirstReferee(entries) == RefereeRecord(entries[j].fields)
  {
    if j > 0 {
      assert !IsMainReferee(entries[0]);
      assert entries[1..][j - 1] == entries[j];
      forall k | 0 <= k < j - 1 ensures !IsMainReferee(entries[1..][k]) {
        assert entries[1..][k] == entries[k + 1];
      }
      FirstRefereeFound(entries[1..], j - 1);
    }
  }

  /** `_extract_main_referee`. */
  function ExtractMainReferee(facts: map<string, Json>): Result<RefereeInfo, PyError>
  {
    match RefereeEntries(facts)
    case Err(e) => Err(e)
    case Ok(entries) => FirstReferee(entries)
  }

  /** Facts with no referees, or referees of other roles only, give the three
      empty fields. */
  lemma NoMainReferee(facts: map<string, Json>)
    requires RefereeEntries(facts).Ok?
    requires forall k :: 0 <= k < |RefereeEntries(facts).value| ==> !IsMainReferee(RefereeEntries(facts).value[k])
    ensures ExtractMainReferee(facts) == Ok(NoReferee)
  {
    FirstRefereeNone(RefereeEntries(facts).value);
  }

  /** A main referee with a first and a last name is reported under both,
      separated by one space. */
  lemma MainRefereeName(facts: map<string, Json>, j: nat, first: string, last: string)
    requires GetNone(facts, "referees").JArr?
    requires var entries := GetNone(facts, "referees").items;
      && j < |entries| && IsMainReferee(entries[j])
      && (forall k :: 0 <= k < j ==> !IsMainReferee(entries[k]))
      && GetNone(entries[j].fields, "mediaFirstName") == JStr(first)
      && GetNone(entries[j].fields, "mediaLastName") == JStr(last)
    requires Strip(first) != "" && Strip(last) != ""
    ensures ExtractMainReferee(facts).Ok?
    ensures ExtractMainReferee(facts).value.refereeName == Strip(first) + " " + Strip(last)
  {
    var entries := GetNone(facts, "referees").items;
    FirstRefereeFound(entries, j);
    assert ExtractMainReferee(facts) == RefereeRecord(entries[j].fields);
    RecordName(entries[j].fields, first, last);
  }

  /** The main referee's id and short name are reported as the entry gives
      them, or as the empty string when missing or falsy. */
  lemma MainRefereeIds(facts: map<string, Json>, j: nat)
    requires GetNone(facts, "referees").JArr?
    requires var entries := GetNone(facts, "referees").items;
      && j < |entries| && IsMainReferee(entries[j])
      && (forall k :: 0 <= k < j ==> !IsMainReferee(entries[k]))
      && NamePart(entries[j].fields, "mediaFirstName").Ok?
      && NamePart(entries[j].fields, "mediaLastName").Ok?
    ensures var entry := GetNone(facts, "referees").items[j].fields;
      && ExtractMainReferee(facts).Ok?
      && ExtractMainReferee(facts).value.refereeId ==
           (if "refereeId" in entry && Truthy(entry["refereeId"]) then entry["refereeId"] else JStr(""))
      && ExtractMainReferee(facts).value.refereeShortName ==
           (if "shortName" in entry && Truthy(entry["shortName"]) then entry["shortName"] else JStr(""))
  {
    FirstRefereeFound(GetNone(facts, "referees").items, j);
  }

  lemma RecordName(entry: map<string, Json>, first: string, last: string)
    requires GetNone(entry, "mediaFirstName") == JStr(first)
    requires GetNone(entry, "mediaLastName") == JStr(last)
    requires Strip(first) != "" && Strip(last) != ""
    ensures RefereeRecord(entry).Ok?
    ensures RefereeRecord(entry).value.refereeName == Strip(first) + " " + Strip(last)
  {
    NamePartOf(entry, "mediaFirstName", first);
    NamePartOf(entry, "mediaLastName", last);
    StripIdempotent(first);
    StripIdempotent(last);
    RefereeNameJoin(Strip(first), Strip(last));
  }

  lemma NamePartOf(entry: map<string, Json>, key: string, s: string)
    requires GetNone(entry, key) == JStr(s)
    ensures NamePart(entry, key) == Ok(Strip(s))
  {
    if s == "" {
      assert Strip(s) == "" by { StripByShape(s, IsSpace); }
    }
  }

  // ---------------------------------------------------------------------------
  // Finished matches and the year range
  // ---------------------------------------------------------------------------

  /** The finished matches of one season, truncated to `limit` when it is
      given and non-zero (a negative limit drops that many from the end, as a
      Python slice does). Every element must be a dict. */
  function SelectFinished(matches: seq<Json>, limit: Option<int>): (r: Result<seq<Json>, PyError>)
    ensures r.Ok? <==> forall k :: 0 <= k < |matches| ==> matches[k].JObj?
    ensures r.Ok? ==> forall k :: 0 <= k < |r.value| ==> ApiClient.IsFinishedMatch(r.value[k]) && r.value[k] in matches
    ensures r.Ok? ==> (|r.value| <= |Filter(matches, ApiClient.IsFinishedMatch)|
      && r.value == Filter(matches, ApiClient.IsFinishedMatch)[..|r.value|])
    ensures r.Ok? && (limit.None? || limit.value == 0) ==> r.value == Filter(matches, ApiClient.IsFinishedMatch)
    ensures r.Ok? && limit.Some? && limit.value > 0 ==>
      |r.value| == (if limit.value < |Filter(matches, ApiClient.IsFinishedMatch)| then limit.value
                    else |Filter(matches, ApiClient.IsFinishedMatch)|)
  {
    if !(forall k :: 0 <= k < |matches| ==> matches[k].JObj?) then Err(AttributeError)
    else
      var finished := Filter(matches, ApiClient.IsFinishedMatch);
      FilterSubset(matches, ApiClient.IsFinishedMatch);
      if limit.Some? && limit.value != 0 then Ok(Prefix(finished, limit.value)) else Ok(finished)
  }

  /** The check `main` makes before extracting: the message it exits with. */
  function YearRangeError(startYear: int, endYear: int): (r: Option<string>)
    ensures r.Some? <==> startYear > endYear
    ensures r.Some? ==> r.value == "start-year must be <= end-year"
  {
    if startYear > endYear then Some("start-year must be <= end-year") else None
  }
}
