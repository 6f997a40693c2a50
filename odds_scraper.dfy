/**
 * The record logic of the closing-odds scraper: the match identifier built
 * from cleaned team names, the alias tables of the two sites, the CSV row of
 * one closing-odds record, the request counter that spaces requests out, the
 * results-page address of a season, the reading of an odds cell, and the
 * choice of site. Fetching and parsing pages is outside the model.
 */
module OddsScraper {
  import opened Common
  import opened Sorting
  import opened ClubNames

  // ---------------------------------------------------------------------------
  // Cleaned team names and the match identifier
  // ---------------------------------------------------------------------------

  /** `re.sub(r'\s*(fc|united)\s*', '', s)`: at each position, optional
      whitespace, then `fc` or `united`, then optional whitespace is dropped;
      where no match starts, one character is kept and the scan moves on. */
  function RemoveClubWords(s: string): (r: string)
    ensures |r| <= |s|
    decreases |s|
  {
    if s == [] then []
    else
      var rest := LStripBy(s, IsSpace);
      if |rest| >= 2 && rest[..2] == "fc" then
        RemoveClubWords(LStripBy(rest[2..], IsSpace))
      else if |rest| >= 6 && rest[..6] == "united" then
        RemoveClubWords(LStripBy(rest[6..], IsSpace))
      else
        [s[0]] + RemoveClubWords(s[1..])
  }

  /** `re.sub(r'[^a-z0-9]', '_', s)`. */
  function MapNonAlnum(s: string): (r: string)
    ensures |r| == |s|
    ensures forall i :: 0 <= i < |r| ==> IsLowerAlnum(r[i]) || r[i] == '_'
    ensures forall i :: 0 <= i < |r| ==> IsLowerAlnum(s[i]) ==> r[i] == s[i]
  {
    seq(|s|, i requires 0 <= i < |s| => if IsLowerAlnum(s[i]) then s[i] else '_')
  }

  /** No two consecutive underscores. */
  predicate NoDoubleUnderscore(s: string)
  {
    forall i :: 0 <= i < |s| - 1 ==> !(s[i] == '_' && s[i + 1] == '_')
  }

  /** `re.sub(r'_+', '_', s)`: every run of underscores becomes one. */
  function CollapseUnderscores(s: string): (r: string)
    ensures |s| > 0 <==> |r| > 0
    ensures |s| > 0 ==> r[0] == s[0]
    ensures forall i :: 0 <= i < |r| ==> r[i] in s
    ensures NoDoubleUnderscore(r)
  {
    if |s| < 2 then s
    else if s[0] == '_' && s[1] == '_' then CollapseUnderscores(s[1..])
    else
      var tail := CollapseUnderscores(s[1..]);
      assert forall i :: 0 <= i < |tail| ==> tail[i] in s by {
        forall i | 0 <= i < |tail| ensures tail[i] in s {
          var j :| 0 <= j < |s[1..]| && s[1..][j] == tail[i];
          assert s[j + 1] == tail[i];
        }
      }
      [s[0]] + tail
  }

  /** `Match._clean_team_name`. */
  function CleanTeamName(name: string): string
  {
    StripChar(CollapseUnderscores(MapNonAlnum(RemoveClubWords(ToLower(name)))), '_')
  }

  /** A cleaned name is made of lower-case letters, digits and single
      underscores, and neither starts nor ends with an underscore. */
  lemma CleanTeamNameShape(name: string)
    ensures var r := CleanTeamName(name);
      && (forall i :: 0 <= i < |r| ==> IsLowerAlnum(r[i]) || r[i] == '_')
      && NoDoubleUnderscore(r)
      && (r == [] || (r[0] != '_' && r[|r| - 1] != '_'))
  {
    var mapped := MapNonAlnum(RemoveClubWords(ToLower(name)));
    var collapsed := CollapseUnderscores(mapped);
    assert CleanChars(mapped);
    CollapseKeepsClean(mapped);
    StripUnderscoresShape(collapsed);
    assert CleanTeamName(name) == StripChar(collapsed, '_');
  }

  /** Lower-case letters, digits and underscores only. */
  predicate CleanChars(s: string)
  {
    forall i :: 0 <= i < |s| ==> IsLowerAlnum(s[i]) || s[i] == '_'
  }

  lemma CollapseKeepsClean(s: string)
    requires CleanChars(s)
    ensures CleanChars(CollapseUnderscores(s))
  {
    var r := CollapseUnderscores(s);
    forall i | 0 <= i < |r| ensures IsLowerAlnum(r[i]) || r[i] == '_' {
      assert r[i] in s;
      var j :| 0 <= j < |s| && s[j] == r[i];
    }
  }

  /** `strip('_')` of clean text without double underscores leaves clean text
      that neither starts nor ends with an underscore. */
  lemma StripUnderscoresShape(s: string)
    requires CleanChars(s) && NoDoubleUnderscore(s)
    ensures var r := StripChar(s, '_');
      && CleanChars(r) && NoDoubleUnderscore(r)
      && (r == [] || (r[0] != '_' && r[|r| - 1] != '_'))
  {
    var r := StripChar(s, '_');
    StripByShape(s, x => x == '_');
    var a := LeadCount(s, x => x == '_');
    assert r == s[a..a + |r|];
    forall i | 0 <= i < |r| ensures IsLowerAlnum(r[i]) || r[i] == '_' {
      assert r[i] == s[a + i];
    }
    forall i | 0 <= i < |r| - 1 ensures !(r[i] == '_' && r[i + 1] == '_') {
      assert r[i] == s[a + i] && r[i + 1] == s[a + i + 1];
    }
  }

  /** A bare `fc` cleans away completely. */
  lemma CleanFc()
    ensures CleanTeamName("fc") == ""
  {
    assert ToLower("fc") == "fc";
    assert LStripBy("fc", IsSpace) == "fc";
    assert RemoveClubWords("fc") == "";
  }

  /** Removing the `fc` of `ffcc` leaves `fc`. */
  lemma RemoveFfcc()
    ensures RemoveClubWords("ffcc") == "fc"
  {
    LeadCountZero("ffcc", IsSpace);
    assert "ffcc"[..2] != "fc" by { assert "ffcc"[1] == 'f'; }
    assert "ffcc"[1..] == "fcc";
    RemoveFcc();
  }

  lemma RemoveFcc()
    ensures RemoveClubWords("fcc") == "c"
  {
    LeadCountZero("fcc", IsSpace);
    assert "fcc"[..2] == "fc";
    assert "fcc"[2..] == "c";
    LeadCountZero("c", IsSpace);
    assert "c"[1..] == [];
  }

  /** `ffcc` cleans to `fc`. */
  lemma CleanFfcc()
    ensures CleanTeamName("ffcc") == "fc"
  {
    LowerFfcc();
    RemoveFfcc();
    TidyFc();
  }

  lemma LowerFfcc()
    ensures ToLower("ffcc") == "ffcc"
  {
    ToLowerNoUpper("ffcc");
  }

  /** The steps after the word removal keep `fc` as it is. */
  lemma TidyFc()
    ensures StripChar(CollapseUnderscores(MapNonAlnum("fc")), '_') == "fc"
  {
    assert MapNonAlnum("fc") == "fc";
    assert CollapseUnderscores("fc") == "fc";
    StripByNoop("fc", x => x == '_');
  }

  /** The cleaning is not idempotent: removing `fc` can bring a new `fc`
      together. */
  lemma CleanTeamNameNotIdempotent()
    ensures CleanTeamName(CleanTeamName("ffcc")) != CleanTeamName("ffcc")
  {
    CleanFfcc();
    CleanFc();
  }

  /** A scraped match; the goals and the page address may be missing. */
  datatype Match = Match(
    date: string, homeTeam: string, awayTeam: string,
    homeGoals: Option<int>, awayGoals: Option<int>, matchUrl: Option<string>)

  /** `Match.match_id`: both cleaned names around `_vs_`, then the date with
      its dashes removed. */
  function MatchId(m: Match): (r: string)
    ensures r == CleanTeamName(m.homeTeam) + "_vs_" + CleanTeamName(m.awayTeam) + "_" + RemoveChar(m.date, '-')
  {
    ReplaceCharByNothing(m.date, '-');
    CleanTeamName(m.homeTeam) + "_vs_" + CleanTeamName(m.awayTeam) + "_" + Replace(m.date, "-", "")
  }

  /** A cleaned name holds no dash. */
  lemma CleanNameNoDash(name: string)
    ensures '-' !in CleanTeamName(name)
  {
    var r := CleanTeamName(name);
    CleanTeamNameShape(name);
    forall i | 0 <= i < |r| ensures r[i] != '-' {
      assert IsLowerAlnum(r[i]) || r[i] == '_';
    }
  }

  /** An identifier never holds a dash, and it ends in the date's digits. */
  lemma MatchIdNoDash(m: Match)
    ensures '-' !in MatchId(m)
    ensures var d := RemoveChar(m.date, '-'); |d| <= |MatchId(m)| && MatchId(m)[|MatchId(m)| - |d|..] == d
  {
    CleanNameNoDash(m.homeTeam);
    CleanNameNoDash(m.awayTeam);
    var prefix := CleanTeamName(m.homeTeam) + "_vs_" + CleanTeamName(m.awayTeam) + "_";
    assert '-' !in "_vs_" && '-' !in "_";
    assert '-' !in prefix;
    assert MatchId(m) == prefix + RemoveChar(m.date, '-');
  }

  // ---------------------------------------------------------------------------
  // Alias tables
  // ---------------------------------------------------------------------------

  /** The team aliases of Odds Portal. */
  const OddsPortalTeams: map<string, string> := map[
    "forge" := "Forge FC",
    "forge fc" := "Forge FC",
    "cavalry" := "Cavalry FC",
    "cavalry fc" := "Cavalry FC",
    "pacific" := "Pacific FC",
    "pacific fc" := "Pacific FC",
    "valour" := "Valour FC",
    "valour fc" := "Valour FC",
    "york united" := "York United FC",
    "york utd" := "York United FC",
    "york" := "York United FC",
    "hfx wanderers" := "HFX Wanderers FC",
    "halifax" := "HFX Wanderers FC",
    "hfx" := "HFX Wanderers FC",
    "atletico ottawa" := "Atletico Ottawa",
    "ottawa" := "Atletico Ottawa",
    "atl. ottawa" := "Atletico Ottawa",
    "fc edmonton" := "FC Edmonton",
    "edmonton" := "FC Edmonton",
    "vancouver" := "Vancouver FC",
    "vancouver fc" := "Vancouver FC"
  ]

  /** The team aliases of BetExplorer: no `halifax`, and one more club. */
  const BetExplorerTeams: map<string, string> := map[
    "forge" := "Forge FC",
    "forge fc" := "Forge FC",
    "cavalry" := "Cavalry FC",
    "cavalry fc" := "Cavalry FC",
    "pacific" := "Pacific FC",
    "pacific fc" := "Pacific FC",
    "valour" := "Valour FC",
    "valour fc" := "Valour FC",
    "york united" := "York United FC",
    "york utd" := "York United FC",
    "york" := "York United FC",
    "hfx wanderers" := "HFX Wanderers FC",
    "hfx" := "HFX Wanderers FC",
    "atl. ottawa" := "Atletico Ottawa",
    "atletico ottawa" := "Atletico Ottawa",
    "ottawa" := "Atletico Ottawa",
    "fc edmonton" := "FC Edmonton",
    "edmonton" := "FC Edmonton",
    "vancouver" := "Vancouver FC",
    "vancouver fc" := "Vancouver FC",
    "inter toronto" := "Inter Toronto FC"
  ]

  /** `normalize_team_name` of either site: the canonical name of a known
      alias, otherwise the name exactly as given, padding included. */
  function NormalizeTeamName(teams: map<string, string>, name: string): (r: string)
    ensures NameKey(name) in teams ==> r == teams[NameKey(name)]
    ensures NameKey(name) !in teams ==> r == name
  {
    var key := NameKey(name);
    if key in teams then teams[key] else name
  }

  /** Every canonical name either is not an alias or is an alias of itself. */
  predicate ClosedUnderNormalize(teams: map<string, string>)
  {
    forall v :: v in teams.Values ==> NormalizeTeamName(teams, v) == v
  }

  /** A table closed under normalisation makes normalising idempotent. */
  lemma NormalizeIdempotent(teams: map<string, string>, name: string)
    requires ClosedUnderNormalize(teams)
    ensures NormalizeTeamName(teams, NormalizeTeamName(teams, name)) == NormalizeTeamName(teams, name)
  {
    if NameKey(name) in teams {
      assert teams[NameKey(name)] in teams.Values;
    }
  }

  /** The canonical names of the two tables. */
  predicate IsSiteCanonical(name: string)
  {
    || name == "Forge FC"
    || name == "Cavalry FC"
    || name == "Pacific FC"
    || name == "York United FC"
    || name == "Valour FC"
    || name == "HFX Wanderers FC"
    || name == "FC Edmonton"
    || name == "Vancouver FC"
    || name == "Atletico Ottawa"
    || name == "Inter Toronto FC"
  }

  lemma OddsPortalValues(v: string)
    requires v in OddsPortalTeams.Values
    ensures IsSiteCanonical(v) && v != "Inter Toronto FC"
  {
    var k :| k in OddsPortalTeams && OddsPortalTeams[k] == v;
  }

  lemma BetExplorerValues(v: string)
    requires v in BetExplorerTeams.Values
    ensures IsSiteCanonical(v)
  {
    var k :| k in BetExplorerTeams && BetExplorerTeams[k] == v;
  }

  /** Normalising a name the Odds Portal table produces changes nothing. */
  lemma OddsPortalClosed()
    ensures ClosedUnderNormalize(OddsPortalTeams)
  {
    forall v | v in OddsPortalTeams.Values ensures NormalizeTeamName(OddsPortalTeams, v) == v {
      OddsPortalValues(v);
      CanonicalKey(v);
      OddsPortalKeys(v);
    }
  }

  /** Normalising a name the BetExplorer table produces changes nothing. */
  lemma BetExplorerClosed()
    ensures ClosedUnderNormalize(BetExplorerTeams)
  {
    forall v | v in BetExplorerTeams.Values ensures NormalizeTeamName(BetExplorerTeams, v) == v {
      BetExplorerValues(v);
      CanonicalKey(v);
      BetExplorerKeys(v);
    }
  }

  /** The key of a canonical name. */
  function CanonicalKeyOf(v: string): string
  {
    if v == "Forge FC" then "forge fc"
    else if v == "Cavalry FC" then "cavalry fc"
    else if v == "Pacific FC" then "pacific fc"
    else if v == "York United FC" then "york united fc"
    else if v == "Valour FC" then "valour fc"
    else if v == "HFX Wanderers FC" then "hfx wanderers fc"
    else if v == "FC Edmonton" then "fc edmonton"
    else if v == "Vancouver FC" then "vancouver fc"
    else if v == "Atletico Ottawa" then "atletico ottawa"
    else "inter toronto fc"
  }

  lemma CanonicalKey(v: string)
    requires IsSiteCanonical(v)
    ensures NameKey(v) == CanonicalKeyOf(v)
  {
    if v == "Forge FC" {
      ForgeKey();
    } else if v == "Cavalry FC" {
      CavalryKey();
    } else if v == "Pacific FC" {
      PacificKey();
    } else if v == "York United FC" {
      YorkKey();
    } else if v == "Valour FC" {
      ValourKey();
    } else if v == "HFX Wanderers FC" {
      HfxKey();
    } else if v == "FC Edmonton" {
      EdmontonKey();
    } else if v == "Vancouver FC" {
      VancouverKey();
    } else if v == "Atletico Ottawa" {
      OttawaKey();
    } else {
      TorontoKey();
    }
  }

  /** Under its key each canonical name is either absent or itself. */
  lemma OddsPortalKeys(v: string)
    requires IsSiteCanonical(v)
    ensures CanonicalKeyOf(v) !in OddsPortalTeams || OddsPortalTeams[CanonicalKeyOf(v)] == v
  {
  }

  lemma BetExplorerKeys(v: string)
    requires IsSiteCanonical(v)
    ensures CanonicalKeyOf(v) !in BetExplorerTeams || BetExplorerTeams[CanonicalKeyOf(v)] == v
  {
  }

  /** The bookmaker aliases of Odds Portal. */
  const Bookmakers: map<string, string> := map[
    "bet365" := "bet365",
    "365" := "bet365",
    "sports interaction" := "sportsinteraction",
    "sportsinteraction" := "sportsinteraction",
    "pinnacle" := "pinnacle",
    "betway" := "betway",
    "unibet" := "unibet",
    "william hill" := "williamhill",
    "bwin" := "bwin",
    "1xbet" := "1xbet",
    "betfair" := "betfair"
  ]

  /** `normalize_bookmaker`: the standard id of a known bookmaker, `None`
      for any other. */
  function NormalizeBookmaker(name: string): (r: Option<string>)
    ensures r.None? <==> NameKey(name) !in Bookmakers
    ensures r.Some? ==> r.value == Bookmakers[NameKey(name)] && r.value in Bookmakers.Values
  {
    var key := NameKey(name);
    if key in Bookmakers then Some(Bookmakers[key]) else None
  }

  /** A key made of lower-case letters and digits is its own key. */
  lemma PlainKey(s: string)
    requires forall i :: 0 <= i < |s| ==> IsLowerAlnum(s[i])
    ensures NameKey(s) == s
  {
    forall i | 0 <= i < |s| ensures !IsUpper(s[i]) && !IsSpace(s[i]) {
      assert IsLowerAlnum(s[i]);
    }
    ToLowerNoUpper(s);
    StripNoSpace(s);
  }

  /** William Hill's standard id is not itself an alias, so normalising it a
      second time loses it. */
  lemma WilliamHillNotFixed()
    ensures NormalizeBookmaker("William Hill") == Some("williamhill")
    ensures NormalizeBookmaker("williamhill") == None
  {
    WilliamHillKey();
    PlainKey("williamhill");
  }

  lemma WilliamHillKey()
    ensures NameKey("William Hill") == "william hill"
  {
    assert ToLower("William Hill") == "william hill";
    StripByNoop("william hill", IsSpace);
  }

  /** An id that is an alias of itself normalises to itself. */
  lemma SelfAlias(v: string)
    requires v in Bookmakers && Bookmakers[v] == v
    requires forall i :: 0 <= i < |v| ==> IsLowerAlnum(v[i])
    ensures NormalizeBookmaker(v) == Some(v)
  {
    PlainKey(v);
  }

  // Each self-aliasing id, one lemma per id so that each string computation
  // is a proof of its own.

  lemma Bet365Fixed()
    ensures NormalizeBookmaker("bet365") == Some("bet365")
  {
    SelfAlias("bet365");
  }

  lemma SportsInteractionFixed()
    ensures NormalizeBookmaker("sportsinteraction") == Some("sportsinteraction")
  {
    SelfAlias("sportsinteraction");
  }

  lemma PinnacleFixed()
    ensures NormalizeBookmaker("pinnacle") == Some("pinnacle")
  {
    SelfAlias("pinnacle");
  }

  lemma BetwayFixed()
    ensures NormalizeBookmaker("betway") == Some("betway")
  {
    SelfAlias("betway");
  }

  lemma UnibetFixed()
    ensures NormalizeBookmaker("unibet") == Some("unibet")
  {
    SelfAlias("unibet");
  }

  lemma BwinFixed()
    ensures NormalizeBookmaker("bwin") == Some("bwin")
  {
    SelfAlias("bwin");
  }

  lemma OneXBetFixed()
    ensures NormalizeBookmaker("1xbet") == Some("1xbet")
  {
    SelfAlias("1xbet");
  }

  lemma BetfairFixed()
    ensures NormalizeBookmaker("betfair") == Some("betfair")
  {
    SelfAlias("betfair");
  }

  /** Every other standard id normalises to itself. */
  lemma BookmakerIdFixed(v: string)
    requires v in Bookmakers.Values && v != "williamhill"
    ensures NormalizeBookmaker(v) == Some(v)
  {
    BookmakerValues(v);
    var i :| 0 <= i < |SelfAliasedIds| && SelfAliasedIds[i] == v;
    SelfAliasedIdsFixed(i);
  }

  /** The standard ids that are aliases of themselves. */
  const SelfAliasedIds: seq<string> :=
    ["bet365", "sportsinteraction", "pinnacle", "betway", "unibet", "bwin", "1xbet", "betfair"]

  lemma SelfAliasedIdsFixed(i: nat)
    requires i < |SelfAliasedIds|
    ensures NormalizeBookmaker(SelfAliasedIds[i]) == Some(SelfAliasedIds[i])
  {
    if i == 0 { Bet365Fixed(); }
    else if i == 1 { SportsInteractionFixed(); }
    else if i == 2 { PinnacleFixed(); }
    else if i == 3 { BetwayFixed(); }
    else if i == 4 { UnibetFixed(); }
    else if i == 5 { BwinFixed(); }
    else if i == 6 { OneXBetFixed(); }
    else { BetfairFixed(); }
  }

  /** Every standard id is `williamhill` or aliases itself. */
  lemma BookmakerValues(v: string)
    requires v in Bookmakers.Values
    ensures v == "williamhill" || v in SelfAliasedIds
  {
    var k :| k in Bookmakers && Bookmakers[k] == v;
    if k == "william hill" {
    } else if k == "bet365" || k == "365" {
      assert v == SelfAliasedIds[0];
    } else if k == "sports interaction" || k == "sportsinteraction" {
      assert v == SelfAliasedIds[1];
    } else if k == "pinnacle" {
      assert v == SelfAliasedIds[2];
    } else if k == "betway" {
      assert v == SelfAliasedIds[3];
    } else if k == "unibet" {
      assert v == SelfAliasedIds[4];
    } else if k == "bwin" {
      assert v == SelfAliasedIds[5];
    } else if k == "1xbet" {
      assert v == SelfAliasedIds[6];
    } else {
      assert v == SelfAliasedIds[7];
    }
  }

  // ---------------------------------------------------------------------------
  // Closing odds and their CSV row
  // ---------------------------------------------------------------------------

  /** One bookmaker's closing odds for one match. */
  datatype ClosingOdds = ClosingOdds(
    matchId: string, date: string, homeTeam: string, awayTeam: string, bookmaker: string,
    closingHome: real, closingDraw: real, closingAway: real,
    closingOver: Option<real>, closingUnder: Option<real>, scrapedAt: string)

  /** `__post_init__`: an empty timestamp becomes the current time, which is
      given as `now`. */
  function PostInit(o: ClosingOdds, now: string): (r: ClosingOdds)
    ensures r.scrapedAt == (if o.scrapedAt == "" then now else o.scrapedAt)
    ensures r.(scrapedAt := o.scrapedAt) == o
  {
    if o.scrapedAt == "" then o.(scrapedAt := now) else o
  }

  /** A CSV cell: text or a number. */
  datatype CsvCell = CsvText(text: string) | CsvNumber(x: real)

  /** `OddsExporter.CSV_HEADERS`. */
  const CsvHeaders: seq<string> := [
    "match_id", "date", "home_team", "away_team", "bookmaker",
    "closing_home", "closing_draw", "closing_away",
    "closing_over_2.5", "closing_under_2.5", "scraped_at"
  ]

  /** `x or ''` for an optional odd: missing or zero gives the empty text. */
  function OptionalCell(x: Option<real>): CsvCell
  {
    if x.None? || x.value == 0.0 then CsvText("") else CsvNumber(x.value)
  }

  /** `ClosingOdds.to_csv_row`. */
  function ToCsvRow(o: ClosingOdds): (r: map<string, CsvCell>)
    ensures forall h :: h in r <==> h in CsvHeaders
  {
    map[
      "match_id" := CsvText(o.matchId),
      "date" := CsvText(o.date),
      "home_team" := CsvText(o.homeTeam),
      "away_team" := CsvText(o.awayTeam),
      "bookmaker" := CsvText(o.bookmaker),
      "closing_home" := CsvNumber(o.closingHome),
      "closing_draw" := CsvNumber(o.closingDraw),
      "closing_away" := CsvNumber(o.closingAway),
      "closing_over_2.5" := OptionalCell(o.closingOver),
      "closing_under_2.5" := OptionalCell(o.closingUnder),
      "scraped_at" := CsvText(o.scrapedAt)
    ]
  }

  function CellText(c: CsvCell): string
  {
    if c.CsvText? then c.text else ""
  }

  function CellNumber(c: CsvCell): real
  {
    if c.CsvNumber? then c.x else 0.0
  }

  function CellOptional(c: CsvCell): Option<real>
  {
    if c.CsvNumber? then Some(c.x) else None
  }

  /** Reading a row back: the text columns as text, the numbers as numbers,
      an empty over/under as missing. */
  function FromCsvRow(row: map<string, CsvCell>): Option<ClosingOdds>
  {
    if && "match_id" in row && "date" in row && "home_team" in row && "away_team" in row
       && "bookmaker" in row && "closing_home" in row && "closing_draw" in row
       && "closing_away" in row && "closing_over_2.5" in row && "closing_under_2.5" in row
       && "scraped_at" in row
    then
      Some(ClosingOdds(
        CellText(row["match_id"]), CellText(row["date"]), CellText(row["home_team"]),
        CellText(row["away_team"]), CellText(row["bookmaker"]),
        CellNumber(row["closing_home"]), CellNumber(row["closing_draw"]), CellNumber(row["closing_away"]),
        CellOptional(row["closing_over_2.5"]), CellOptional(row["closing_under_2.5"]),
        CellText(row["scraped_at"])))
    else None
  }

  /** The cells of the row, column by column. */
  lemma CsvRowTextCells(o: ClosingOdds)
    ensures var r := ToCsvRow(o);
      && r["match_id"] == CsvText(o.matchId) && r["date"] == CsvText(o.date)
      && r["home_team"] == CsvText(o.homeTeam) && r["away_team"] == CsvText(o.awayTeam)
  {
    CsvRowIdCells(o);
    CsvRowTeamCells(o);
  }

  lemma CsvRowIdCells(o: ClosingOdds)
    ensures ToCsvRow(o)["match_id"] == CsvText(o.matchId) && ToCsvRow(o)["date"] == CsvText(o.date)
  {
  }

  lemma CsvRowTeamCells(o: ClosingOdds)
    ensures ToCsvRow(o)["home_team"] == CsvText(o.homeTeam) && ToCsvRow(o)["away_team"] == CsvText(o.awayTeam)
  {
  }

  lemma CsvRowOddsCells(o: ClosingOdds)
    ensures var r := ToCsvRow(o);
      && r["bookmaker"] == CsvText(o.bookmaker) && r["closing_home"] == CsvNumber(o.closingHome)
      && r["closing_draw"] == CsvNumber(o.closingDraw) && r["closing_away"] == CsvNumber(o.closingAway)
  {
  }

  /** A missing or zero over/under odd is written as an empty cell. */
  lemma CsvRowTotalsCells(o: ClosingOdds)
    ensures var r := ToCsvRow(o);
      && r["closing_over_2.5"] == OptionalCell(o.closingOver)
      && r["closing_under_2.5"] == OptionalCell(o.closingUnder)
      && r["scraped_at"] == CsvText(o.scrapedAt)
  {
  }

  /** The row keeps the whole record, except that a zero over/under odd is
      written as empty and so reads back as missing. */
  lemma CsvRowRoundTrip(o: ClosingOdds)
    ensures FromCsvRow(ToCsvRow(o)).Some?
    ensures var back := FromCsvRow(ToCsvRow(o)).value;
      && back.closingOver == (if o.closingOver == Some(0.0) then None else o.closingOver)
      && back.closingUnder == (if o.closingUnder == Some(0.0) then None else o.closingUnder)
      && back.(closingOver := o.closingOver, closingUnder := o.closingUnder) == o
  {
    CsvRowTextCells(o);
    CsvRowOddsCells(o);
    CsvRowTotalsCells(o);
  }

  // ---------------------------------------------------------------------------
  // Spacing out requests
  // ---------------------------------------------------------------------------

  /** A value `random.uniform(a, b)` can return. */
  predicate Between(x: real, a: real, b: real)
  {
    (a <= x <= b) || (b <= x <= a)
  }

  /** Every tenth request waits longer. */
  predicate IsExtended(count: int)
  {
    count % 10 == 0
  }

  /** The number of extended waits among the first `n` requests. */
  function ExtendedWaits(n: nat): nat
  {
    if n == 0 then 0 else ExtendedWaits(n - 1) + (if IsExtended(n) then 1 else 0)
  }

  /** One request in ten waits longer. */
  lemma {:induction false} ExtendedWaitsCount(n: nat)
    ensures ExtendedWaits(n) == n / 10
  {
    if n > 0 {
      ExtendedWaitsCount(n - 1);
    }
  }

  /** `AntiScrapingHandler`: the delay bounds and the number of requests so
      far. The random draws are given to `Wait`, and the sleep is left out. */
  class AntiScrapingHandler {
    var minDelay: real
    var maxDelay: real
    var requestCount: nat

    constructor (minDelay: real, maxDelay: real)
      ensures this.minDelay == minDelay && this.maxDelay == maxDelay
      ensures requestCount == 0
    {
      this.minDelay := minDelay;
      this.maxDelay := maxDelay;
      requestCount := 0;
    }

    /** `wait`: counts the request and returns the delay, a draw between the
        bounds plus, on every tenth request, a draw between 3 and 7 seconds. */
    method Wait(draw: real, extraDraw: real) returns (delay: real)
      requires Between(draw, minDelay, maxDelay) && Between(extraDraw, 3.0, 7.0)
      modifies this
      ensures requestCount == old(requestCount) + 1
      ensures minDelay == old(minDelay) && maxDelay == old(maxDelay)
      ensures delay == draw + (if IsExtended(requestCount) then extraDraw else 0.0)
      ensures IsExtended(requestCount) ==> delay >= draw + 3.0
      ensures !IsExtended(requestCount) ==> Between(delay, minDelay, maxDelay)
    {
      delay := draw;
      requestCount := requestCount + 1;
      if requestCount % 10 == 0 {
        delay := delay + extraDraw;
      }
    }
  }

  // ---------------------------------------------------------------------------
  // Results pages
  // ---------------------------------------------------------------------------

  const OddsPortalBase := "https://www.oddsportal.com"
  const BetExplorerBase := "https://www.betexplorer.com"
  const CplPath := "/football/canada/canadian-premier-league"

  /** `get_results_url` of either site; the current year is a parameter. */
  function ResultsUrl(base: string, season: int, currentYear: int): (r: string)
    ensures season == currentYear ==> r == base + CplPath + "/results/"
    ensures season != currentYear ==> r == base + CplPath + "-" + IntToString(season) + "/results/"
  {
    if season == currentYear then base + CplPath + "/results/"
    else base + CplPath + "-" + IntToString(season) + "/results/"
  }

  /** Different seasons have different pages. */
  lemma ResultsUrlInjective(base: string, s1: int, s2: int, currentYear: int)
    requires s1 != s2
    ensures ResultsUrl(base, s1, currentYear) != ResultsUrl(base, s2, currentYear)
  {
    var stem := base + CplPath;
    var u1 := ResultsUrl(base, s1, currentYear);
    var u2 := ResultsUrl(base, s2, currentYear);
    if s1 != currentYear && s2 != currentYear {
      var t1 := IntToString(s1);
      var t2 := IntToString(s2);
      IntToStringRoundTrip(s1);
      IntToStringRoundTrip(s2);
      assert t1 != t2;
      assert u1[|stem| + 1..|u1| - 9] == t1;
      assert u2[|stem| + 1..|u2| - 9] == t2;
    } else {
      assert |u1| != |u2|;
    }
  }

  // ---------------------------------------------------------------------------
  // Odds cells
  // ---------------------------------------------------------------------------

  predicate IsOddsChar(c: char)
  {
    IsDigit(c) || c == '.'
  }

  function Pow10(n: nat): (r: real)
    ensures r >= 1.0
  {
    if n == 0 then 1.0 else 10.0 * Pow10(n - 1)
  }

  /** The value of the digits after the decimal point. */
  function FractionValue(frac: string): (r: real)
    requires forall i :: 0 <= i < |frac| ==> IsDigit(frac[i])
    ensures 0.0 <= r
  {
    DigitsValue(frac) as real / Pow10(|frac|)
  }

  /** Python's `float` on a text of digits and dots: digits with at most one
      dot and at least one digit; anything else raises `ValueError`. */
  function DecimalValue(t: string): (r: Option<real>)
    requires forall i :: 0 <= i < |t| ==> IsOddsChar(t[i])
    ensures r.Some? ==> r.value >= 0.0
    ensures (forall i :: 0 <= i < |t| ==> !IsDigit(t[i])) ==> r.None?
  {
    var n := LeadCount(t, IsDigit);
    var whole := t[..n];
    if n == |t| then
      if n == 0 then None else Some(DigitsValue(whole) as real)
    else
      var frac := t[n + 1..];
      if !(forall i :: 0 <= i < |frac| ==> IsDigit(frac[i])) then None
      else if n == 0 && frac == "" then None
      else
        assert n > 0 ==> IsDigit(t[0]);
        assert frac != "" ==> IsDigit(t[n + 1]);
        Some(DigitsValue(whole) as real + FractionValue(frac))
  }

  /** `BetExplorerScraper._parse_odds`: keep the digits and dots of the
      stripped text and read them as a number; `None` when nothing is left or
      the rest is not a number. */
  function ParseOdds(s: string): (r: Option<real>)
    ensures Filter(Strip(s), IsOddsChar) == [] ==> r.None?
    ensures (forall i :: 0 <= i < |s| ==> !IsDigit(s[i])) ==> r.None?
    ensures r.Some? ==> r.value >= 0.0
  {
    var kept := Filter(Strip(s), IsOddsChar);
    StripChars(s);
    FilterSubset(Strip(s), IsOddsChar);
    if kept == [] then None else DecimalValue(kept)
  }

  /** A text of digits and dots alone is read as a whole. */
  lemma ParseOddsPlain(t: string)
    requires t != [] && forall i :: 0 <= i < |t| ==> IsOddsChar(t[i])
    ensures ParseOdds(t) == DecimalValue(t)
  {
    forall i | 0 <= i < |t| ensures !IsSpace(t[i]) {
      assert IsOddsChar(t[i]);
    }
    StripNoSpace(t);
    FilterAll(t, IsOddsChar);
  }

  /** Digits, a dot and digits are read as a decimal number. */
  lemma DecimalOfParts(w: string, frac: string)
    requires |w| > 0 && forall i :: 0 <= i < |w| ==> IsDigit(w[i])
    requires |frac| > 0 && forall i :: 0 <= i < |frac| ==> IsDigit(frac[i])
    ensures var t := w + "." + frac;
      && (forall i :: 0 <= i < |t| ==> IsOddsChar(t[i]))
      && DecimalValue(t) == Some(DigitsValue(w) as real + FractionValue(frac))
  {
    var dotted := "." + frac;
    var t := w + dotted;
    assert w + "." + frac == t;
    assert forall i :: 0 <= i < |dotted| ==> IsDigit(dotted[i]) || dotted[i] == '.' by {
      forall i | 0 <= i < |dotted| ensures IsDigit(dotted[i]) || dotted[i] == '.' {
        if i > 0 {
          assert dotted[i] == frac[i - 1];
        }
      }
    }
    DotsAndDigits(w, dotted);
    DigitRun(w, dotted);
    assert t[..|w|] == w;
    assert t[|w| + 1..] == frac;
    DecimalWithDot(t, |w|, w, frac);
  }

  /** The value of a text with a dot after its leading digits. */
  lemma DecimalWithDot(t: string, n: nat, w: string, frac: string)
    requires forall i :: 0 <= i < |t| ==> IsOddsChar(t[i])
    requires n == LeadCount(t, IsDigit) && n < |t|
    requires w == t[..n] && frac == t[n + 1..]
    requires |w| > 0 && |frac| > 0 && forall i :: 0 <= i < |frac| ==> IsDigit(frac[i])
    requires forall i :: 0 <= i < |w| ==> IsDigit(w[i])
    ensures DecimalValue(t) == Some(DigitsValue(w) as real + FractionValue(frac))
  {
  }

  /** Digits before a text of digits and dots. */
  lemma DotsAndDigits(w: string, rest: string)
    requires forall i :: 0 <= i < |w| ==> IsDigit(w[i])
    requires forall i :: 0 <= i < |rest| ==> IsDigit(rest[i]) || rest[i] == '.'
    ensures forall i :: 0 <= i < |w + rest| ==> IsOddsChar((w + rest)[i])
  {
    forall i | 0 <= i < |w + rest| ensures IsOddsChar((w + rest)[i]) {
      if i >= |w| {
        assert (w + rest)[i] == rest[i - |w|];
      }
    }
  }

  /** Digits, a dot and digits are read as the decimal they spell. */
  lemma ParseOddsDecimal(w: string, frac: string)
    requires |w| > 0 && forall i :: 0 <= i < |w| ==> IsDigit(w[i])
    requires |frac| > 0 && forall i :: 0 <= i < |frac| ==> IsDigit(frac[i])
    ensures ParseOdds(w + "." + frac) == Some(DigitsValue(w) as real + FractionValue(frac))
  {
    DecimalOfParts(w, frac);
    ParseOddsPlain(w + "." + frac);
  }

  /** Two dots make the text no number. */
  lemma ParseOddsTwoDots(a: string, b: string, c: string)
    requires forall i :: 0 <= i < |a| ==> IsDigit(a[i])
    requires forall i :: 0 <= i < |b| ==> IsDigit(b[i])
    requires forall i :: 0 <= i < |c| ==> IsDigit(c[i])
    ensures ParseOdds(a + "." + b + "." + c) == None
  {
    var rest := "." + b + "." + c;
    var t := a + rest;
    assert a + "." + b + "." + c == t;
    DotsAndDigits(b, "." + c);
    assert rest == "." + (b + "." + c);
    DotsAndDigits(a, rest);
    DigitRun(a, rest);
    ParseOddsPlain(t);
    assert t[|a| + 1 + |b|] == '.';
    SecondDot(t, |a|, |a| + 1 + |b|);
  }

  /** A dot after the first one makes the fraction no run of digits. */
  lemma SecondDot(t: string, n: nat, m: nat)
    requires forall i :: 0 <= i < |t| ==> IsOddsChar(t[i])
    requires n == LeadCount(t, IsDigit) && n < m < |t| && t[m] == '.'
    ensures DecimalValue(t) == None
  {
    var frac := t[n + 1..];
    assert frac[m - n - 1] == '.';
  }

  /** A filter that keeps everything changes nothing. */
  lemma {:induction false} FilterAll<T>(s: seq<T>, p: T -> bool)
    requires forall i :: 0 <= i < |s| ==> p(s[i])
    ensures Filter(s, p) == s
  {
    if s != [] {
      FilterAll(s[1..], p);
    }
  }

  /** The leading digits of a digit run followed by a non-digit. */
  lemma DigitRun(ds: string, rest: string)
    requires forall i :: 0 <= i < |ds| ==> IsDigit(ds[i])
    requires rest == [] || !IsDigit(rest[0])
    ensures LeadCount(ds + rest, IsDigit) == |ds|
  {
    var t := ds + rest;
    assert forall i :: 0 <= i < |ds| ==> t[i] == ds[i];
    if |ds| < |t| {
      assert t[|ds|] == rest[0];
    }
  }

  // ---------------------------------------------------------------------------
  // The site
  // ---------------------------------------------------------------------------

  /** The scrapers `CPLOddsScraper` chooses from. */
  datatype Site = OddsPortal | BetExplorer

  /** The choice made in `CPLOddsScraper.__init__`: an unknown source is a
      `ValueError` with this message. */
  function SelectSite(source: string): (r: Result<Site, string>)
    ensures r.Ok? <==> source == "oddsportal" || source == "betexplorer"
    ensures r.Ok? ==> (r.value == OddsPortal <==> source == "oddsportal")
    ensures r.Err? ==> r.error == "Unknown source: " + source + ". Available: ['oddsportal', 'betexplorer']"
  {
    if source == "oddsportal" then Ok(OddsPortal)
    else if source == "betexplorer" then Ok(BetExplorer)
    else Err("Unknown source: " + source + ". Available: ['oddsportal', 'betexplorer']")
  }
}
