/**
 * Fields that only some crews produce (utils/result_parser.py:592-657):
 * fact-check results, research insights and translations.
 */
module ParserExtras {
  import opened Wrappers
  import opened PyStrings
  import opened ParserPatterns

  datatype Claim = Claim(claim: string, status: string)

  /** Structured claims when the section lists "claim: ... status: ...", else its text. */
  datatype FactCheck = FactResults(results: seq<Claim>) | FactText(text: string)

  /** The additional fields; `None` is a key the dictionary does not have. */
  datatype Extras = Extras(factCheck: Option<FactCheck>, research: Option<string>, translations: Option<map<string, string>>)

  function ClaimOf(m: Match): Claim { Claim(Strip(Group(m, 0)), Strip(Group(m, 1))) }

  function ClaimsOf(ms: seq<Match>): (r: seq<Claim>)
    ensures |r| == |ms|
    ensures forall k :: 0 <= k < |ms| ==> r[k] == ClaimOf(ms[k])
  {
    if ms == [] then [] else ClaimsOf(ms[..|ms| - 1]) + [ClaimOf(ms[|ms| - 1])]
  }

  /** The fact-check value of a section body: its claims, or the stripped body when it has none. */
  function FactCheckOf(body: string): (r: FactCheck)
    ensures r.FactResults? ==> r.results != []
    ensures r.FactText? <==> FindAll(ClaimStatus, Strip(body)) == []
  {
    var factCheckText := Strip(body);
    var results := ClaimsOf(FindAll(ClaimStatus, factCheckText));
    if results != [] then FactResults(results) else FactText(factCheckText)
  }

  /** `language translation: content` blocks as a dictionary; a later block for a language replaces an earlier one. */
  function TranslationMap(ms: seq<Match>): (r: map<string, string>)
    ensures forall lang :: lang in r <==> exists k :: 0 <= k < |ms| && Lower(Group(ms[k], 0)) == lang
  {
    if ms == [] then map[]
    else
      var before := TranslationMap(ms[..|ms| - 1]);
      var m := ms[|ms| - 1];
      assert forall k :: 0 <= k < |ms| - 1 ==> ms[..|ms| - 1][k] == ms[k];
      before[Lower(Group(m, 0)) := Strip(Group(m, 1))]
  }

  function ExtraFields(text: string): Extras {
    var lower := Lower(text);
    var fact := if Contains(lower, "fact check") then SearchLabelledSection(text, "fact check result") else None;
    var research := if Contains(lower, "research") then SearchLabelledSection(text, "research insight") else None;
    Extras(
      if fact.Some? then Some(FactCheckOf(fact.value)) else None,
      if research.Some? then Some(Strip(research.value)) else None,
      if Contains(lower, "translation") then Some(TranslationMap(FindAll(Translation, text))) else None)
  }

  method ExtractAdditionalFields(text: string) returns (additionalFields: Extras)
    ensures additionalFields == ExtraFields(text)
  {
    additionalFields := Extras(None, None, None);
    var lower := Lower(text);
    if Contains(lower, "fact check") {
      var found := SearchLabelledSection(text, "fact check result");
      if found.Some? {
        var factCheckText := Strip(found.value);
        var results := CollectClaims(FindAll(ClaimStatus, factCheckText));
        if results != [] {
          additionalFields := additionalFields.(factCheck := Some(FactResults(results)));
        } else {
          additionalFields := additionalFields.(factCheck := Some(FactText(factCheckText)));
        }
      }
    }
    if Contains(lower, "research") {
      var found := SearchLabelledSection(text, "research insight");
      if found.Some? {
        additionalFields := additionalFields.(research := Some(Strip(found.value)));
      }
    }
    if Contains(lower, "translation") {
      var translations := CollectTranslations(FindAll(Translation, text));
      additionalFields := additionalFields.(translations := Some(translations));
    }
  }

  /** The loop that appends one claim per verification match. */
  method CollectClaims(verifications: seq<Match>) returns (results: seq<Claim>)
    ensures results == ClaimsOf(verifications)
  {
    results := [];
    for k := 0 to |verifications|
      invariant results == ClaimsOf(verifications[..k])
    {
      assert verifications[..k + 1][..k] == verifications[..k];
      var claim := Strip(Group(verifications[k], 0));
      var status := Strip(Group(verifications[k], 1));
      results := results + [Claim(claim, status)];
    }
    assert verifications[..|verifications|] == verifications;
  }

  /** The loop that files each translation under its lower-cased language. */
  method CollectTranslations(translations: seq<Match>) returns (byLanguage: map<string, string>)
    ensures byLanguage == TranslationMap(translations)
  {
    byLanguage := map[];
    for k := 0 to |translations|
      invariant byLanguage == TranslationMap(translations[..k])
    {
      assert translations[..k + 1][..k] == translations[..k];
      var language := Lower(Group(translations[k], 0));
      var content := Strip(Group(translations[k], 1));
      byLanguage := byLanguage[language := content];
    }
    assert translations[..|translations|] == translations;
  }

  lemma LowerIdempotent(s: string)
    ensures Lower(Lower(s)) == Lower(s)
  {
  }

  /** Every translation is filed under a lower-case language name. */
  lemma TranslationKeysLowerCase(text: string)
    requires ExtraFields(text).translations.Some?
    ensures forall lang :: lang in ExtraFields(text).translations.value ==> Lower(lang) == lang
  {
    var ms := FindAll(Translation, text);
    forall lang | lang in ExtraFields(text).translations.value
      ensures Lower(lang) == lang
    {
      var k :| 0 <= k < |ms| && Lower(Group(ms[k], 0)) == lang;
      LowerIdempotent(Group(ms[k], 0));
    }
  }

  /** A language's translation is the content of its last block. */
  lemma {:induction false} LastTranslationWins(ms: seq<Match>, k: nat)
    requires k < |ms|
    requires forall j :: k < j < |ms| ==> Lower(Group(ms[j], 0)) != Lower(Group(ms[k], 0))
    ensures TranslationMap(ms)[Lower(Group(ms[k], 0))] == Strip(Group(ms[k], 1))
    decreases |ms|
  {
    if k < |ms| - 1 {
      var init := ms[..|ms| - 1];
      assert init[k] == ms[k];
      assert forall j :: k < j < |init| ==> init[j] == ms[j];
      LastTranslationWins(init, k);
    }
  }

  /** Each claim and its status come back stripped, in the order they appear. */
  lemma FactResultsStripped(body: string)
    requires FactCheckOf(body).FactResults?
    ensures forall c :: c in FactCheckOf(body).results ==> Strip(c.claim) == c.claim && Strip(c.status) == c.status
  {
    var ms := FindAll(ClaimStatus, Strip(body));
    forall c | c in FactCheckOf(body).results
      ensures Strip(c.claim) == c.claim && Strip(c.status) == c.status
    {
      var k :| 0 <= k < |ms| && c == ClaimOf(ms[k]);
      StripIdempotent(Group(ms[k], 0));
      StripIdempotent(Group(ms[k], 1));
    }
  }
}
