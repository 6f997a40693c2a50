/**
 * The record logic of the match-results scraper: canonical team names, the
 * reading of one match element (its date, teams, venue and `h-a` score text),
 * and the date-format fallback. Fetching and searching the HTML is outside the
 * model: a match element is given as the texts of the tags found in it.
 */
module ResultsScraper {
  import opened Common
  import opened ClubNames

  /** Lower-case spellings of the clubs, and the canonical name of each. */
  const CplTeams: map<string, string> := map[
    "forge" := "Forge FC",
    "forge fc" := "Forge FC",
    "cavalry" := "Cavalry FC",
    "cavalry fc" := "Cavalry FC",
    "pacific" := "Pacific FC",
    "pacific fc" := "Pacific FC",
    "york" := "York United FC",
    "york united" := "York United FC",
    "york united fc" := "York United FC",
    "york9" := "York United FC",
    "valour" := "Valour FC",
    "valour fc" := "Valour FC",
    "hfx" := "HFX Wanderers FC",
    "hfx wanderers" := "HFX Wanderers FC",
    "hfx wanderers fc" := "HFX Wanderers FC",
    "halifax" := "HFX Wanderers FC",
    "edmonton" := "FC Edmonton",
    "fc edmonton" := "FC Edmonton",
    "vancouver" := "Vancouver FC",
    "vancouver fc" := "Vancouver FC",
    "atletico ottawa" := "Atletico Ottawa",
    "ottawa" := "Atletico Ottawa"
  ]

  // ---------------------------------------------------------------------------
  // Team names
  // ---------------------------------------------------------------------------

  /** `normalize_team_name`: the canonical name of a known spelling (compared
      lower-cased and stripped), otherwise the name stripped. */
  function NormalizeTeamName(team: string): (r: string)
    ensures NameKey(team) in CplTeams ==> r == CplTeams[NameKey(team)]
    ensures NameKey(team) !in CplTeams ==> r == Strip(team)
  {
    var key := NameKey(team);
    if key in CplTeams then CplTeams[key] else Strip(team)
  }

  /** The canonical club names. */
  predicate IsCanonicalName(name: string)
  {
    || name == "Forge FC"
    || name == "Cavalry FC"
    || name == "Pacific FC"
    || name == "York United FC"
    || name == "Valour FC"
    || name == "HFX Wanderers FC"
    || name == "FC Edmonton"
    || name == "Vancouver FC"
    || name == "Atletico Ottawa"
  }

  /** Every value of the table is one of the canonical names. */
  lemma TableValuesCanonical(name: string)
    requires name in CplTeams.Values
    ensures IsCanonicalName(name)
  {
    var k :| k in CplTeams && CplTeams[k] == name;
  }

  /** A canonical name is looked up under its own key, so it normalises to
      itself. */
  lemma CanonicalNameFixed(name: string)
    requires name in CplTeams.Values
    ensures NormalizeTeamName(name) == name
  {
    TableValuesCanonical(name);
    if name == "Forge FC" {
      ForgeFixed();
    } else if name == "Cavalry FC" {
      CavalryFixed();
    } else if name == "Pacific FC" {
      PacificFixed();
    } else if name == "York United FC" {
      YorkFixed();
    } else if name == "Valour FC" {
      ValourFixed();
    } else if name == "HFX Wanderers FC" {
      HfxFixed();
    } else if name == "FC Edmonton" {
      EdmontonFixed();
    } else if name == "Vancouver FC" {
      VancouverFixed();
    } else {
      OttawaFixed();
    }
  }

  // One lemma per club keeps each map lookup in a proof of its own.

  lemma ForgeFixed()
    ensures NormalizeTeamName("Forge FC") == "Forge FC"
  {
    ForgeKey();
  }

  lemma CavalryFixed()
    ensures NormalizeTeamName("Cavalry FC") == "Cavalry FC"
  {
    CavalryKey();
  }

  lemma PacificFixed()
    ensures NormalizeTeamName("Pacific FC") == "Pacific FC"
  {
    PacificKey();
  }

  lemma YorkFixed()
    ensures NormalizeTeamName("York United FC") == "York United FC"
  {
    YorkKey();
  }

  lemma ValourFixed()
    ensures NormalizeTeamName("Valour FC") == "Valour FC"
  {
    ValourKey();
  }

  lemma HfxFixed()
    ensures NormalizeTeamName("HFX Wanderers FC") == "HFX Wanderers FC"
  {
    HfxKey();
  }

  lemma EdmontonFixed()
    ensures NormalizeTeamName("FC Edmonton") == "FC Edmonton"
  {
    EdmontonKey();
  }

  lemma VancouverFixed()
    ensures NormalizeTeamName("Vancouver FC") == "Vancouver FC"
  {
    VancouverKey();
  }

  lemma OttawaFixed()
    ensures NormalizeTeamName("Atletico Ottawa") == "Atletico Ottawa"
  {
    OttawaKey();
  }

  /** Normalising a normalised name changes nothing. */
  lemma NormalizeIdempotent(team: string)
    ensures NormalizeTeamName(NormalizeTeamName(team)) == NormalizeTeamName(team)
  {
    var key := NameKey(team);
    if key in CplTeams {
      CanonicalNameFixed(CplTeams[key]);
    } else {
      StripToLower(team);
      StripToLower(Strip(team));
      StripIdempotent(team);
    }
  }

  // ---------------------------------------------------------------------------
  // Score text
  // ---------------------------------------------------------------------------

  /** What the score text of an element gives: no goals when it has no `-`,
      the goals of both sides, or a `ValueError` from `int`. */
  datatype ScoreText = NoScore | Goals(home: int, away: int) | BadScore

  /** The score parsing of `_parse_match_element`: split the stripped text on
      `-` and read the first two parts as integers; further parts are
      ignored. */
  function ParseScore(text: string): (r: ScoreText)
    ensures '-' !in Strip(text) ==> r == NoScore
  {
    var t := Strip(text);
    if '-' !in t then NoScore
    else
      var parts := Split(t, '-');
      SplitHasSep(t, '-');
      var h := ParseInt(Strip(parts[0]));
      var a := ParseInt(Strip(parts[1]));
      if h.Some? && a.Some? then Goals(h.value, a.value) else BadScore
  }

  /** Digits of the goals of each side, joined by `-`, read back as those goals. */
  lemma ParseScoreRoundTrip(h: nat, a: nat)
    ensures ParseScore(NatToString(h) + "-" + NatToString(a)) == Goals(h, a)
  {
    var hs := NatToString(h);
    var ds := NatToString(a);
    var text := hs + "-" + ds;
    NoSpaceAround(hs, ds, "");
    assert text == hs + "-" + ds + "";
    NoDash(hs);
    NoDash(ds);
    SplitAround(hs, ds, '-');
    SplitNoSep(ds, '-');
    ParseDigitParts(text, hs, ds);
  }

  /** Text after a second `-` takes no part in the score. */
  lemma ParseScoreIgnoresRest(h: nat, a: nat, rest: string)
    ensures ParseScore(NatToString(h) + "-" + NatToString(a) + "-" + rest) == Goals(h, a)
  {
    var hs := NatToString(h);
    var ds := NatToString(a);
    var text := hs + "-" + ds + "-" + rest;
    var m := |hs| + 1 + |ds|;
    assert text[0] == hs[0] && IsDigit(hs[0]);
    assert text[m] == '-';
    StripFromStart(text, m);
    var t := Strip(text);
    var kept := rest[..|t| - m - 1];
    assert t == hs + "-" + ds + "-" + kept;
    SplitFirstTwo(hs, ds, kept);
    ParseDigitParts(t, hs, ds);
  }

  /** A text that starts with a non-space keeps its start when stripped, up
      to and beyond any later non-space at `m`. */
  lemma StripFromStart(text: string, m: nat)
    requires m < |text| && !IsSpace(text[0]) && !IsSpace(text[m])
    ensures |Strip(text)| > m && Strip(text) == text[..|Strip(text)|]
    ensures Strip(Strip(text)) == Strip(text)
  {
    LeadCountZero(text, IsSpace);
    StripByShape(text, IsSpace);
  }

  /** Splitting `h-a-rest` on `-` gives `h` and `a` first. */
  lemma SplitFirstTwo(hs: string, ds: string, rest: string)
    requires forall i :: 0 <= i < |hs| ==> IsDigit(hs[i])
    requires forall i :: 0 <= i < |ds| ==> IsDigit(ds[i])
    ensures var text := hs + "-" + ds + "-" + rest;
      '-' in text && |Split(text, '-')| >= 2 && Split(text, '-')[0] == hs && Split(text, '-')[1] == ds
  {
    var tail := ds + ['-'] + rest;
    var text := hs + ['-'] + tail;
    assert text == hs + "-" + ds + "-" + rest;
    NoDash(hs);
    NoDash(ds);
    SplitAround(hs, tail, '-');
    SplitAround(ds, rest, '-');
    assert text[|hs|] == '-';
  }

  /** Two digit runs around a `-`, then text without whitespace, are their
      own strip. */
  lemma NoSpaceAround(hs: string, ds: string, rest: string)
    requires |hs| > 0 && forall i :: 0 <= i < |hs| ==> IsDigit(hs[i])
    requires forall i :: 0 <= i < |ds| ==> IsDigit(ds[i])
    requires forall i :: 0 <= i < |rest| ==> IsSpace(rest[i]) ==> false
    ensures Strip(hs + "-" + ds + rest) == hs + "-" + ds + rest
  {
    var text := hs + "-" + ds + rest;
    forall i | 0 <= i < |text| ensures !IsSpace(text[i]) {
      if i < |hs| {
        assert text[i] == hs[i];
      } else if |hs| < i < |hs| + 1 + |ds| {
        assert text[i] == ds[i - |hs| - 1];
      } else if i >= |hs| + 1 + |ds| {
        assert text[i] == rest[i - |hs| - |ds| - 1];
      }
    }
    StripNoSpace(text);
  }

  /** Score text whose first two `-`-separated parts are digit runs gives
      their values. */
  lemma ParseDigitParts(text: string, hs: string, ds: string)
    requires Strip(text) == text && '-' in text
    requires |Split(text, '-')| >= 2 && Split(text, '-')[0] == hs && Split(text, '-')[1] == ds
    requires |hs| > 0 && forall i :: 0 <= i < |hs| ==> IsDigit(hs[i])
    requires |ds| > 0 && forall i :: 0 <= i < |ds| ==> IsDigit(ds[i])
    ensures ParseScore(text) == Goals(DigitsValue(hs), DigitsValue(ds))
  {
    DigitsStrip(hs);
    DigitsStrip(ds);
    ParseIntDigitsOnly(hs);
    ParseIntDigitsOnly(ds);
  }

  lemma NoDash(ds: string)
    requires forall i :: 0 <= i < |ds| ==> IsDigit(ds[i])
    ensures '-' !in ds
  {
    forall k | 0 <= k < |ds| ensures ds[k] != '-' {
      assert IsDigit(ds[k]);
    }
  }

  lemma DigitsStrip(ds: string)
    requires forall i :: 0 <= i < |ds| ==> IsDigit(ds[i])
    ensures Strip(ds) == ds
  {
    forall k | 0 <= k < |ds| ensures !IsSpace(ds[k]) {
      assert IsDigit(ds[k]);
    }
    StripNoSpace(ds);
  }

  // ---------------------------------------------------------------------------
  // Dates
  // ---------------------------------------------------------------------------

  /** The formats `_parse_date` tries, in order. */
  const DateFormats: seq<string> := ["%Y-%m-%d", "%B %d, %Y", "%b %d, %Y", "%d/%m/%Y", "%m/%d/%Y"]

  /** The first format that parses the text, rewritten as `YYYY-MM-DD`;
      `strptime` and `strftime` are given as `reformat`, which answers `None`
      where `strptime` raises `ValueError`. */
  function FirstFormat(s: string, formats: seq<string>, reformat: (string, string) -> Option<string>): (r: Option<string>)
    ensures r.None? <==> forall k :: 0 <= k < |formats| ==> reformat(s, formats[k]).None?
    ensures r.Some? ==> exists k :: (0 <= k < |formats| && reformat(s, formats[k]) == r
      && forall j :: 0 <= j < k ==> reformat(s, formats[j]).None?)
  {
    if formats == [] then None
    else if reformat(s, formats[0]).Some? then
      reformat(s, formats[0])
    else
      var r := FirstFormat(s, formats[1..], reformat);
      assert forall k :: 0 <= k < |formats| - 1 ==> formats[1..][k] == formats[k + 1];
      if r.Some? then
        var k :| 0 <= k < |formats[1..]| && reformat(s, formats[1..][k]) == r
          && forall j :: 0 <= j < k ==> reformat(s, formats[1..][j]).None?;
        assert reformat(s, formats[k + 1]) == r;
        assert forall j :: 0 <= j < k + 1 ==> reformat(s, formats[j]).None? by {
          forall j | 0 <= j < k + 1 ensures reformat(s, formats[j]).None? {
            if j > 0 {
              assert formats[j] == formats[1..][j - 1];
            }
          }
        }
        r
      else r
  }

  /** `_parse_date`: the reformatted date, or the text itself when no
      format matches. */
  function ParseDate(s: string, reformat: (string, string) -> Option<string>): (r: string)
    ensures (forall k :: 0 <= k < |DateFormats| ==> reformat(s, DateFormats[k]).None?) ==> r == s
    ensures reformat(s, DateFormats[0]).Some? ==> r == reformat(s, DateFormats[0]).value
  {
    var f := FirstFormat(s, DateFormats, reformat);
    if f.Some? then f.value else s
  }

  // ---------------------------------------------------------------------------
  // One match element
  // ---------------------------------------------------------------------------

  /** A tag found in a match element, by its text. A found tag is true in a
      boolean test even when it is empty. */
  datatype Tag = Tag(text: string)

  predicate Present(t: Option<Tag>)
  {
    t.Some?
  }

  /** The tags `_parse_match_element` looks for; `None` where none is found. */
  datatype MatchElement = MatchElement(
    date: Option<Tag>, home: Option<Tag>, away: Option<Tag>,
    score: Option<Tag>, venue: Option<Tag>)

  /** The record of one match; the goals are absent unless the score text
      held a `-`. */
  datatype ScrapedMatch = ScrapedMatch(
    season: int, date: string, homeTeam: string, awayTeam: string,
    venue: Option<string>, goals: Option<(int, int)>)

  /** The score an element gives: none without a score tag, otherwise what
      its text gives. */
  function ElementScore(e: MatchElement): ScoreText
  {
    if Present(e.score) then ParseScore(e.score.value.text) else NoScore
  }

  /** `_parse_match_element`: `None` when the date, home or away tag is
      missing or when the score does not parse. */
  function ParseMatchElement(e: MatchElement, year: int, reformat: (string, string) -> Option<string>): (r: Option<ScrapedMatch>)
    ensures r.Some? <==> Present(e.date) && Present(e.home) && Present(e.away) && !ElementScore(e).BadScore?
    ensures r.Some? ==> (r.value.season == year
      && r.value.date == ParseDate(Strip(e.date.value.text), reformat)
      && r.value.homeTeam == NormalizeTeamName(e.home.value.text)
      && r.value.awayTeam == NormalizeTeamName(e.away.value.text)
      && (r.value.venue.Some? <==> Present(e.venue))
      && (r.value.venue.Some? ==> r.value.venue.value == Strip(e.venue.value.text)))
    ensures r.Some? ==> (r.value.goals.None? <==> !Present(e.score) || '-' !in Strip(e.score.value.text))
    ensures r.Some? && ElementScore(e).Goals? ==> r.value.goals == Some((ElementScore(e).home, ElementScore(e).away))
  {
    if !(Present(e.date) && Present(e.home) && Present(e.away)) then None
    else
      var score := ElementScore(e);
      if score.BadScore? then None
      else
        Some(ScrapedMatch(
          year,
          ParseDate(Strip(e.date.value.text), reformat),
          NormalizeTeamName(e.home.value.text),
          NormalizeTeamName(e.away.value.text),
          if Present(e.venue) then Some(Strip(e.venue.value.text)) else None,
          if score.Goals? then Some((score.home, score.away)) else None))
  }

  /** An element with its three required tags and score text `h-a` gives a
      match with those goals; without a score tag it gives one without goals. */
  lemma MatchElementGoals(e: MatchElement, year: int, reformat: (string, string) -> Option<string>, h: nat, a: nat)
    requires Present(e.date) && Present(e.home) && Present(e.away)
    ensures Present(e.score) && e.score.value.text == NatToString(h) + "-" + NatToString(a) ==>
      ParseMatchElement(e, year, reformat).Some? && ParseMatchElement(e, year, reformat).value.goals == Some((h, a))
    ensures !Present(e.score) ==>
      ParseMatchElement(e, year, reformat).Some? && ParseMatchElement(e, year, reformat).value.goals.None?
  {
    ParseScoreRoundTrip(h, a);
  }

  /** Empty tags still count as found: an element whose date, home and away
      tags are empty gives a match with empty team names and the text of an
      empty date. */
  lemma EmptyTagsGiveMatch(year: int, reformat: (string, string) -> Option<string>)
    requires forall k :: 0 <= k < |DateFormats| ==> reformat("", DateFormats[k]).None?
    ensures var e := MatchElement(Some(Tag("")), Some(Tag("")), Some(Tag("")), None, Some(Tag("")));
      var r := ParseMatchElement(e, year, reformat);
      r.Some? && r.value.date == "" && r.value.homeTeam == "" && r.value.awayTeam == "" && r.value.venue == Some("")
  {
    StripEmpty();
    NormalizeEmpty();
  }

  lemma StripEmpty()
    ensures Strip("") == ""
  {
    StripByShape("", IsSpace);
  }

  /** The empty name is no known spelling, so it stays empty. */
  lemma NormalizeEmpty()
    ensures NormalizeTeamName("") == ""
  {
    StripEmpty();
    assert NameKey("") == "";
    assert "" !in CplTeams;
  }
}
