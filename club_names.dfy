/**
 * The canonical club names the scrapers map their spellings to, and the
 * lookup key every alias table is searched with: the name lower-cased and
 * stripped of surrounding whitespace.
 */
module ClubNames {
  import opened Common

  /** `name.lower().strip()`. */
  function NameKey(name: string): string
  {
    Strip(ToLower(name))
  }

  /** A key is its own key: the lookup normalises case and padding once. */
  lemma NameKeyIdempotent(name: string)
    ensures NameKey(NameKey(name)) == NameKey(name)
  {
    StripToLower(Strip(ToLower(name)));
    ToLowerIdempotent(Strip(ToLower(name)));
    StripToLower(name);
    StripIdempotent(name);
    ToLowerIdempotent(Strip(name));
  }

  // The key of each canonical name, one lemma per name so that each string
  // computation is a proof of its own.

  lemma ForgeKey()
    ensures NameKey("Forge FC") == "forge fc"
  {
    assert ToLower("Forge FC") == "forge fc";
    StripByNoop("forge fc", IsSpace);
  }

  lemma CavalryKey()
    ensures NameKey("Cavalry FC") == "cavalry fc"
  {
    assert ToLower("Cavalry FC") == "cavalry fc";
    StripByNoop("cavalry fc", IsSpace);
  }

  lemma PacificKey()
    ensures NameKey("Pacific FC") == "pacific fc"
  {
    assert ToLower("Pacific FC") == "pacific fc";
    StripByNoop("pacific fc", IsSpace);
  }

  lemma YorkKey()
    ensures NameKey("York United FC") == "york united fc"
  {
    assert ToLower("York United FC") == "york united fc";
    StripByNoop("york united fc", IsSpace);
  }

  lemma ValourKey()
    ensures NameKey("Valour FC") == "valour fc"
  {
    assert ToLower("Valour FC") == "valour fc";
    StripByNoop("valour fc", IsSpace);
  }

  lemma HfxKey()
    ensures NameKey("HFX Wanderers FC") == "hfx wanderers fc"
  {
    assert ToLower("HFX Wanderers FC") == "hfx wanderers fc";
    StripByNoop("hfx wanderers fc", IsSpace);
  }

  lemma EdmontonKey()
    ensures NameKey("FC Edmonton") == "fc edmonton"
  {
    assert ToLower("FC Edmonton") == "fc edmonton";
    StripByNoop("fc edmonton", IsSpace);
  }

  lemma VancouverKey()
    ensures NameKey("Vancouver FC") == "vancouver fc"
  {
    assert ToLower("Vancouver FC") == "vancouver fc";
    StripByNoop("vancouver fc", IsSpace);
  }

  lemma OttawaKey()
    ensures NameKey("Atletico Ottawa") == "atletico ottawa"
  {
    assert ToLower("Atletico Ottawa") == "atletico ottawa";
    StripByNoop("atletico ottawa", IsSpace);
  }

  lemma TorontoKey()
    ensures NameKey("Inter Toronto FC") == "inter toronto fc"
  {
    assert ToLower("Inter Toronto FC") == "inter toronto fc";
    StripByNoop("inter toronto fc", IsSpace);
  }
}
