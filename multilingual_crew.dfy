/**
 * The multilingual crews (crews/multilingual_crew.py): how the source and
 * target languages are set up, the culture-to-language table of the
 * localization crew, and the restructuring of the crew's JSON result into a
 * `translations` object. Running the crew itself is outside the model: its
 * parsed result is a parameter.
 */
module MultilingualCrew {
  import opened Wrappers
  import opened PyStrings
  import opened LineParsing

  // ---------------------------------------------------------------------
  // Python lists of strings, which the crews share and change in place

  /** `s.remove(x)`: `s` without the first occurrence of `x`. */
  function RemoveFirst(s: seq<string>, x: string): seq<string> {
    if s == [] then []
    else if s[0] == x then s[1..]
    else [s[0]] + RemoveFirst(s[1..], x)
  }

  /** Removing the first occurrence at `i` is cutting `s[i]` out. */
  lemma {:induction false} RemoveFirstAt(s: seq<string>, x: string, i: nat)
    requires i < |s| && s[i] == x && x !in s[..i]
    ensures RemoveFirst(s, x) == s[..i] + s[i + 1..]
    decreases i
  {
    if i > 0 {
      assert s[0] in s[..i];
      assert s[1..][..i - 1] == s[1..i];
      RemoveFirstAt(s[1..], x, i - 1);
      assert [s[0]] + s[1..][..i - 1] == s[..i];
    }
  }

  /** Exactly one copy of `x` goes, and every other element stays in its order. */
  lemma RemoveFirstOneCopy(s: seq<string>, x: string)
    requires x in s
    ensures multiset(RemoveFirst(s, x)) == multiset(s) - multiset{x}
    ensures |RemoveFirst(s, x)| == |s| - 1
    ensures exists i :: 0 <= i < |s| && s[i] == x && RemoveFirst(s, x) == s[..i] + s[i + 1..]
  {
    var i := FirstIndex(s, x);
    RemoveFirstAt(s, x, i);
    assert s == s[..i] + [s[i]] + s[i + 1..];
  }

  /** The position of the first `x` in `s`. */
  function FirstIndex(s: seq<string>, x: string): (i: nat)
    requires x in s
    ensures i < |s| && s[i] == x && x !in s[..i]
  {
    if s[0] == x then 0 else 1 + FirstIndex(s[1..], x)
  }

  /** A Python list of strings, an object that several owners may share. */
  class StringList {
    var items: seq<string>

    constructor(items: seq<string>)
      ensures this.items == items
    {
      this.items := items;
    }

    /** `list.remove(x)`, which the source calls only after checking `x in list`. */
    method Remove(x: string)
      requires x in items
      modifies this
      ensures items == RemoveFirst(old(items), x)
    {
      var i := 0;
      while items[i] != x
        invariant 0 <= i < |items| && x in items[i..] && x !in items[..i]
        decreases |items| - i
      {
        assert items[i..] == [items[i]] + items[i + 1..];
        assert items[..i + 1] == items[..i] + [items[i]];
        i := i + 1;
      }
      RemoveFirstAt(items, x, i);
      items := items[..i] + items[i + 1..];
    }
  }

  /** `given or default`: a missing or empty list is replaced by a new list of the defaults. */
  method ListOr(given: StringList?, default: seq<string>) returns (l: StringList)
    ensures given != null && given.items != [] ==> l == given
    ensures given == null || given.items == [] ==> fresh(l) && l.items == default
  {
    if given != null && given.items != [] {
      l := given;
    } else {
      l := new StringList(default);
    }
  }

  // ---------------------------------------------------------------------
  // AdvancedMultilingualCrew.__init__

  const DefaultTargets: seq<string> := ["english", "spanish", "french", "german"]

  /**
   * The target languages after construction, from the lowercased source and the
   * given targets (empty when none are given): an empty list is replaced by the
   * defaults, and only the first copy of the source is dropped. The targets are
   * compared as given, not lowercased.
   */
  function InitialTargets(source: string, given: seq<string>): seq<string> {
    var base := if given == [] then DefaultTargets else given;
    if source in base then RemoveFirst(base, source) else base
  }

  /** Only one copy of the source language leaves the targets; the rest keep their order. */
  lemma InitialTargetsDropOneCopy(source: string, given: seq<string>)
    ensures var base := if given == [] then DefaultTargets else given;
            var r := InitialTargets(source, given);
            multiset(r) == multiset(base) - multiset{source} &&
            |r| == |base| - (if source in base then 1 else 0) &&
            (source in base ==> exists i :: 0 <= i < |base| && base[i] == source && r == base[..i] + base[i + 1..])
  {
    var base := if given == [] then DefaultTargets else given;
    if source in base {
      RemoveFirstOneCopy(base, source);
    } else {
      assert multiset(base)[source] == 0;
      assert multiset(base) - multiset{source} == multiset(base);
    }
  }

  /** The source language is no longer a target when it was listed at most once. */
  lemma SourceNotTarget(source: string, given: seq<string>)
    requires multiset(if given == [] then DefaultTargets else given)[source] <= 1
    ensures source !in InitialTargets(source, given)
  {
    InitialTargetsDropOneCopy(source, given);
    var r := InitialTargets(source, given);
    assert multiset(r)[source] == 0;
  }

  /** Targets are not lowercased: "English" stays when the source is "english". */
  lemma TargetsCaseSensitive()
    ensures InitialTargets("english", ["English", "french"]) == ["English", "french"]
  {
    assert "english" != "English" by {
      assert "english"[0] != "English"[0];
    }
  }

  /** With no targets given, the defaults lose the source. */
  lemma DefaultTargetsWithoutEnglish()
    ensures InitialTargets("english", []) == ["spanish", "french", "german"]
  {
    assert DefaultTargets[0] == "english";
  }

  /**
   * The crew's language settings. `targetLanguages` is the caller's own list
   * when a non-empty one was given, so removing the source changes it for the
   * caller too.
   */
  class AdvancedMultilingualCrew {
    var sourceLanguage: string
    var targetLanguages: StringList

    constructor(sourceLanguage: string, targetLanguages: StringList?)
      modifies targetLanguages
      ensures this.sourceLanguage == Lower(sourceLanguage)
      ensures this.targetLanguages.items ==
              InitialTargets(Lower(sourceLanguage), if targetLanguages == null then [] else old(targetLanguages.items))
      ensures targetLanguages != null && old(targetLanguages.items) != [] ==> this.targetLanguages == targetLanguages
      ensures targetLanguages == null || old(targetLanguages.items) == [] ==> fresh(this.targetLanguages)
      ensures targetLanguages != null && old(targetLanguages.items) == [] ==> unchanged(targetLanguages)
    {
      var targets := ListOr(targetLanguages, DefaultTargets);
      this.sourceLanguage := Lower(sourceLanguage);
      this.targetLanguages := targets;
      new;
      if this.sourceLanguage in targets.items {
        targets.Remove(this.sourceLanguage);
      }
    }

    /**
     * The restructuring in `run_analysis` after the crew has run: `None` when
     * the result could not be restructured, in which case the raw JSON text is
     * returned unchanged.
     */
    method RestructureResults(parsed: Option<Json>) returns (r: Option<map<string, Json>>)
      ensures r == Restructure(parsed, sourceLanguage, targetLanguages.items)
    {
      if parsed.None? || !parsed.value.JObject? {
        return None;
      }
      var targets := targetLanguages.items;
      var init := InitTranslations(parsed.value.fields, sourceLanguage, targets);
      if init.None? {
        return None;
      }
      var result := init.value;
      for k := 0 to |targets|
        invariant RekeyAll(result, targets[k..]) == RekeyAll(init.value, targets)
      {
        assert targets[k..] == [targets[k]] + targets[k + 1..];
        var langKey := Lower(targets[k]);
        var summaryKey := langKey + "_summary";
        if summaryKey in result {
          var put := PutTranslation(result, langKey, "summary", result[summaryKey]);
          if put.None? {
            return None;
          }
          result := put.value - {summaryKey};
        }
        var itemsKey := langKey + "_action_items";
        if itemsKey in result {
          var actionItems := result[itemsKey];
          var stored := actionItems;
          if actionItems.JString? {
            var items := SplitActionItemLines(actionItems.s);
            stored := if items != [] then JArray(MapLines(AsJson, items)) else JArray([actionItems]);
          }
          var put := PutTranslation(result, langKey, "action_items", stored);
          if put.None? {
            return None;
          }
          result := put.value - {itemsKey};
        }
      }
      assert targets[|targets|..] == [];
      return Some(result);
    }
  }

  // ---------------------------------------------------------------------
  // The JSON result of the crew and its restructuring

  /** A JSON value; numbers, booleans and null are not told apart. */
  datatype Json = JString(s: string) | JArray(items: seq<Json>) | JObject(fields: map<string, Json>) | JOther

  function AsJson(s: string): Json {
    JString(s)
  }

  /** `d.get(key, default)` */
  function Get(m: map<string, Json>, key: string, default: Json): Json {
    if key in m then m[key] else default
  }

  const NoSummary := "Summary not available"

  /** The entry for the source language, from the top-level fields or their defaults. */
  function SourceEntry(result: map<string, Json>): Json {
    JObject(map["summary" := Get(result, "summary", JString(NoSummary)),
                "key_topics" := Get(result, "key_topics", JArray([])),
                "action_items" := Get(result, "action_items", JArray([]))])
  }

  /**
   * The languages are recorded, `translations` is created when absent, and the
   * source language's entry is written over. `None` is the `TypeError` of a
   * `translations` value that is not an object.
   */
  function InitTranslations(result: map<string, Json>, source: string, targets: seq<string>): Option<map<string, Json>> {
    var r1 := result["source_language" := JString(source)]["target_languages" := JArray(MapLines(AsJson, targets))];
    var r2 := if "translations" in r1 then r1 else r1["translations" := JObject(map[])];
    match r2["translations"]
    case JObject(tr) => Some(r2["translations" := JObject(tr[source := SourceEntry(r2)])])
    case _ => None
  }

  /**
   * `result["translations"][lang][field] = value`, creating the language's
   * entry when it is missing; `None` when `translations` or the entry is not
   * an object.
   */
  function PutTranslation(result: map<string, Json>, lang: string, field: string, value: Json): Option<map<string, Json>> {
    if "translations" !in result then None
    else
      match result["translations"]
      case JObject(tr) =>
        (match (if lang in tr then tr[lang] else JObject(map[]))
         case JObject(entry) => Some(result["translations" := JObject(tr[lang := JObject(entry[field := value])])])
         case _ => None)
      case _ => None
  }

  /** What one line of a text of action items contributes. */
  function ActionItemOf(line: string): Option<string> {
    var t := Strip(line);
    if t != [] && (t[0] == '-' || t[0] == '*') then Some(Strip(t[1..]))
    else if t != [] then Some(t)
    else None
  }

  function SplitActionItems(text: string): seq<string> {
    CollectLines(ActionItemOf, Split(text, "\n"))
  }

  /** The loop that splits a text of action items into one item per non-blank line. */
  method SplitActionItemLines(text: string) returns (items: seq<string>)
    ensures items == SplitActionItems(text)
  {
    var lines := Split(text, "\n");
    items := [];
    for k := 0 to |lines|
      invariant items == CollectLines(ActionItemOf, lines[..k])
    {
      CollectLinesStep(ActionItemOf, lines, k);
      var line := Strip(lines[k]);
      if line != [] && (line[0] == '-' || line[0] == '*') {
        items := items + [Strip(line[1..])];
      } else if line != [] {
        items := items + [line];
      }
    }
    assert lines[..|lines|] == lines;
  }

  /** Action items as stored: a text split into lines (the whole text when no line is left), anything else as it is. */
  function ActionItemsValue(v: Json): Json {
    match v
    case JString(s) =>
      var items := SplitActionItems(s);
      if items != [] then JArray(MapLines(AsJson, items)) else JArray([v])
    case _ => v
  }

  /** Moves `<lang>_summary`, when present, to the language's translation entry. */
  function MoveSummary(result: map<string, Json>, lang: string): Option<map<string, Json>> {
    var key := lang + "_summary";
    if key !in result then Some(result)
    else
      match PutTranslation(result, lang, "summary", result[key])
      case Some(r) => Some(r - {key})
      case None => None
  }

  /** Moves `<lang>_action_items`, when present, to the language's translation entry. */
  function MoveActionItems(result: map<string, Json>, lang: string): Option<map<string, Json>> {
    var key := lang + "_action_items";
    if key !in result then Some(result)
    else
      match PutTranslation(result, lang, "action_items", ActionItemsValue(result[key]))
      case Some(r) => Some(r - {key})
      case None => None
  }

  /** The body of the per-language loop, on the lowercased language. */
  function RekeyLanguage(result: map<string, Json>, language: string): Option<map<string, Json>> {
    match MoveSummary(result, Lower(language))
    case Some(r) => MoveActionItems(r, Lower(language))
    case None => None
  }

  /** The per-language loop, stopping at the first failure. */
  function RekeyAll(result: map<string, Json>, languages: seq<string>): Option<map<string, Json>> {
    if languages == [] then Some(result)
    else
      match RekeyLanguage(result, languages[0])
      case Some(r) => RekeyAll(r, languages[1..])
      case None => None
  }

  /** The whole restructuring; `parsed` is `None` when the text is not JSON. */
  function Restructure(parsed: Option<Json>, source: string, targets: seq<string>): Option<map<string, Json>> {
    if parsed.None? || !parsed.value.JObject? then None
    else
      match InitTranslations(parsed.value.fields, source, targets)
      case Some(r) => RekeyAll(r, targets)
      case None => None
  }

  // ---------------------------------------------------------------------
  // Properties of the restructuring

  /** Two texts whose last characters differ are different. */
  lemma LastCharDiffers(a: string, b: string)
    requires a != [] && b != [] && a[|a| - 1] != b[|b| - 1]
    ensures a != b
  {
  }

  /** A moved key is never one of the keys the restructuring sets. */
  lemma MovedKeysDistinct(lang: string)
    ensures lang + "_summary" !in {"translations", "source_language", "target_languages"}
    ensures lang + "_action_items" !in {"translations", "source_language", "target_languages"}
  {
    var s := lang + "_summary";
    var a := lang + "_action_items";
    assert s[|s| - 1] == 'y' && a[|a| - 1] == 's';
    LastCharDiffers(s, "translations");
    LastCharDiffers(s, "source_language");
    LastCharDiffers(s, "target_languages");
    LastCharDiffers(a, "source_language");
    assert "translations"[11] == 's' && "target_languages"[15] == 's';
    if |lang| == 3 {
      assert a[3] == '_' && "target_languages"[3] == 'g';
    }
  }

  /**
   * Initialisation fails exactly on a `translations` value that is not an
   * object; otherwise it records both languages, overwrites the source entry
   * with the top-level summary, topics and action items (or their defaults),
   * and leaves every other key and every other translation as it was.
   */
  lemma InitTranslationsOutcome(result: map<string, Json>, source: string, targets: seq<string>)
    ensures InitTranslations(result, source, targets).None? <==>
            "translations" in result && !result["translations"].JObject?
    ensures InitTranslations(result, source, targets).Some? ==>
              var r := InitTranslations(result, source, targets).value;
              r.Keys == result.Keys + {"source_language", "target_languages", "translations"} &&
              r["source_language"] == JString(source) &&
              r["target_languages"] == JArray(MapLines(AsJson, targets)) &&
              r["translations"].JObject? && source in r["translations"].fields &&
              r["translations"].fields[source] == SourceEntry(result) &&
              (forall key :: key in result && key !in {"source_language", "target_languages", "translations"} ==>
                 r[key] == result[key]) &&
              (forall lang :: lang != source && "translations" in result && lang in result["translations"].fields ==>
                 lang in r["translations"].fields && r["translations"].fields[lang] == result["translations"].fields[lang])
  {
    var r1 := result["source_language" := JString(source)]["target_languages" := JArray(MapLines(AsJson, targets))];
    var r2 := if "translations" in r1 then r1 else r1["translations" := JObject(map[])];
    assert Get(r2, "summary", JString(NoSummary)) == Get(result, "summary", JString(NoSummary));
    assert Get(r2, "key_topics", JArray([])) == Get(result, "key_topics", JArray([]));
    assert Get(r2, "action_items", JArray([])) == Get(result, "action_items", JArray([]));
  }

  /**
   * A present `<lang>_summary` is moved: it leaves the top level and becomes
   * the language's translated summary; no other top-level key changes.
   */
  lemma MoveSummaryMoves(result: map<string, Json>, lang: string)
    requires lang + "_summary" in result && MoveSummary(result, lang).Some?
    ensures var key := lang + "_summary";
            var r := MoveSummary(result, lang).value;
            key !in r && r.Keys == result.Keys - {key} && "translations" in r &&
            r["translations"].JObject? && lang in r["translations"].fields &&
            r["translations"].fields[lang].JObject? &&
            r["translations"].fields[lang].fields["summary"] == result[key] &&
            forall k :: k in result && k != key && k != "translations" ==> r[k] == result[k]
  {
    MovedKeysDistinct(lang);
  }

  /**
   * A present `<lang>_action_items` is moved: it leaves the top level and its
   * value, split when it is a text, becomes the language's action items.
   */
  lemma MoveActionItemsMoves(result: map<string, Json>, lang: string)
    requires lang + "_action_items" in result && MoveActionItems(result, lang).Some?
    ensures var key := lang + "_action_items";
            var r := MoveActionItems(result, lang).value;
            key !in r && r.Keys == result.Keys - {key} && "translations" in r &&
            r["translations"].JObject? && lang in r["translations"].fields &&
            r["translations"].fields[lang].JObject? &&
            r["translations"].fields[lang].fields["action_items"] == ActionItemsValue(result[key]) &&
            forall k :: k in result && k != key && k != "translations" ==> r[k] == result[k]
  {
    MovedKeysDistinct(lang);
  }

  /** One of the keys the loop moves for these languages. */
  predicate IsMovedKey(key: string, languages: seq<string>) {
    exists l :: l in languages && (key == Lower(l) + "_summary" || key == Lower(l) + "_action_items")
  }

  lemma IsMovedKeyFirst(key: string, languages: seq<string>)
    requires languages != []
    ensures IsMovedKey(key, languages) <==>
            key == Lower(languages[0]) + "_summary" || key == Lower(languages[0]) + "_action_items" ||
            IsMovedKey(key, languages[1..])
  {
    assert languages == [languages[0]] + languages[1..];
    if IsMovedKey(key, languages) {
      var l :| l in languages && (key == Lower(l) + "_summary" || key == Lower(l) + "_action_items");
      if l != languages[0] {
        assert l in languages[1..];
      }
    }
    if IsMovedKey(key, languages[1..]) {
      var l :| l in languages[1..] && (key == Lower(l) + "_summary" || key == Lower(l) + "_action_items");
      assert l in languages;
    }
  }

  /** One language's step only removes its two keys and rewrites `translations`. */
  lemma RekeyLanguageKeys(result: map<string, Json>, language: string)
    requires "translations" in result && RekeyLanguage(result, language).Some?
    ensures var lang := Lower(language);
            var r := RekeyLanguage(result, language).value;
            r.Keys == result.Keys - {lang + "_summary", lang + "_action_items"} &&
            forall k :: k in result && k != lang + "_summary" && k != lang + "_action_items" && k != "translations" ==>
              r[k] == result[k]
  {
    var lang := Lower(language);
    MovedKeysDistinct(lang);
    var mid := MoveSummary(result, lang);
    if lang + "_summary" in result {
      MoveSummaryMoves(result, lang);
    }
    if lang + "_action_items" in mid.value {
      MoveActionItemsMoves(mid.value, lang);
    }
  }

  /**
   * After the loop no `<lang>_summary` or `<lang>_action_items` key of a target
   * language is left at the top level, and every other key keeps its value.
   */
  lemma {:induction false} RekeyAllKeys(result: map<string, Json>, languages: seq<string>)
    requires "translations" in result && RekeyAll(result, languages).Some?
    ensures var r := RekeyAll(result, languages).value;
            "translations" in r &&
            (forall key :: key in r <==> key in result && !IsMovedKey(key, languages)) &&
            (forall key :: key in r && key != "translations" ==> r[key] == result[key])
    decreases |languages|
  {
    if languages != [] {
      var lang := Lower(languages[0]);
      var next := RekeyLanguage(result, languages[0]).value;
      RekeyLanguageKeys(result, languages[0]);
      MovedKeysDistinct(lang);
      RekeyAllKeys(next, languages[1..]);
      forall key
        ensures IsMovedKey(key, languages) <==>
                key == lang + "_summary" || key == lang + "_action_items" || IsMovedKey(key, languages[1..])
      {
        IsMovedKeyFirst(key, languages);
      }
    }
  }

  /**
   * A restructured result names both languages and holds a `translations`
   * object with the source entry's fields; no moved key of a target language
   * is left, and every other key of the crew's result keeps its value.
   */
  lemma RestructureOutcome(fields: map<string, Json>, source: string, targets: seq<string>)
    requires Restructure(Some(JObject(fields)), source, targets).Some?
    ensures var r := Restructure(Some(JObject(fields)), source, targets).value;
            "translations" in r && "source_language" in r && "target_languages" in r &&
            r["source_language"] == JString(source) &&
            r["target_languages"] == JArray(MapLines(AsJson, targets)) &&
            (forall l :: l in targets ==> Lower(l) + "_summary" !in r && Lower(l) + "_action_items" !in r) &&
            (forall key :: key in fields && !IsMovedKey(key, targets) ==> key in r) &&
            (forall key ::
               key in fields && !IsMovedKey(key, targets) && key !in {"source_language", "target_languages", "translations"}
               ==> r[key] == fields[key])
  {
    var init := InitTranslations(fields, source, targets).value;
    InitTranslationsOutcome(fields, source, targets);
    RekeyAllKeys(init, targets);
    var r := Restructure(Some(JObject(fields)), source, targets).value;
    forall l | l in targets
      ensures Lower(l) + "_summary" !in r && Lower(l) + "_action_items" !in r
    {
      assert IsMovedKey(Lower(l) + "_summary", targets);
      assert IsMovedKey(Lower(l) + "_action_items", targets);
    }
    forall l | l in targets
      ensures Lower(l) + "_summary" != "source_language" && Lower(l) + "_summary" != "target_languages"
      ensures Lower(l) + "_action_items" != "source_language" && Lower(l) + "_action_items" != "target_languages"
    {
      MovedKeysDistinct(Lower(l));
    }
    assert !IsMovedKey("source_language", targets) && !IsMovedKey("target_languages", targets);
  }

  /** No item is left exactly when every line of the text is blank. */
  lemma SplitActionItemsBlank(text: string)
    ensures SplitActionItems(text) == [] <==>
            forall k :: 0 <= k < |Split(text, "\n")| ==> Strip(Split(text, "\n")[k]) == []
  {
    var lines := Split(text, "\n");
    CollectLinesNone(ActionItemOf, lines);
    forall k | 0 <= k < |lines|
      ensures ActionItemOf(lines[k]).None? <==> Strip(lines[k]) == []
    {
    }
  }

  /** Every item is stripped. */
  lemma SplitActionItemsStripped(text: string)
    ensures forall x :: x in SplitActionItems(text) ==> Strip(x) == x
  {
    var lines := Split(text, "\n");
    forall x | x in SplitActionItems(text)
      ensures Strip(x) == x
    {
      CollectLinesExact(ActionItemOf, lines, x);
      var k :| 0 <= k < |lines| && ActionItemOf(lines[k]) == Some(x);
      ActionItemStripped(lines[k]);
    }
  }

  lemma ActionItemStripped(line: string)
    requires ActionItemOf(line).Some?
    ensures Strip(ActionItemOf(line).value) == ActionItemOf(line).value
  {
    var t := Strip(line);
    StripIdempotent(line);
    if t[0] == '-' || t[0] == '*' {
      StripIdempotent(t[1..]);
    }
  }

  /** A marked line gives its text after the marker, stripped; a bare "-" gives an empty item. */
  lemma MarkedActionItem(line: string)
    requires Strip(line) != [] && (Strip(line)[0] == '-' || Strip(line)[0] == '*')
    ensures ActionItemOf(line) == Some(Strip(Strip(line)[1..]))
  {
  }

  /**
   * Text action items become a non-empty list of texts (the whole text when no
   * line is left); action items of any other kind are stored as they are.
   */
  lemma ActionItemsValueShape(v: Json)
    ensures v.JString? ==> ActionItemsValue(v).JArray? && ActionItemsValue(v).items != [] &&
                           forall k :: 0 <= k < |ActionItemsValue(v).items| ==> ActionItemsValue(v).items[k].JString?
    ensures v.JString? && SplitActionItems(v.s) == [] ==> ActionItemsValue(v) == JArray([v])
    ensures !v.JString? ==> ActionItemsValue(v) == v
  {
    if v.JString? && SplitActionItems(v.s) != [] {
      MapLinesAt(AsJson, SplitActionItems(v.s));
    }
  }

  // ---------------------------------------------------------------------
  // LocalizationCrew.__init__

  const DefaultCultures: seq<string> := ["UK", "CA", "MX", "FR"]

  /** The culture-to-language table, as (culture, language) pairs with distinct cultures. */
  const CultureTable: seq<(string, string)> :=
    [("US", "english"), ("UK", "english"), ("CA", "english"), ("AU", "english"),
     ("MX", "spanish"), ("ES", "spanish"), ("FR", "french"), ("DE", "german"),
     ("JP", "japanese"), ("CN", "chinese"), ("BR", "portuguese"), ("IN", "english")]

  /** `table.get(culture, "english")` */
  function Lookup(table: seq<(string, string)>, culture: string): string {
    if table == [] then "english"
    else if table[0].0 == culture then table[0].1
    else Lookup(table[1..], culture)
  }

  function LanguageOf(culture: string): string {
    Lookup(CultureTable, culture)
  }

  /** A culture missing from the table maps to "english". */
  lemma {:induction false} UnknownCultureIsEnglish(table: seq<(string, string)>, culture: string)
    requires forall k :: 0 <= k < |table| ==> table[k].0 != culture
    ensures Lookup(table, culture) == "english"
    decreases |table|
  {
    if table != [] {
      assert table[0].0 != culture;
      forall k | 0 <= k < |table[1..]|
        ensures table[1..][k].0 != culture
      {
        assert table[1..][k] == table[k + 1];
      }
      UnknownCultureIsEnglish(table[1..], culture);
    }
  }

  /** In a table of distinct cultures, each culture maps to the language paired with it. */
  lemma {:induction false} KnownCulture(table: seq<(string, string)>, i: nat)
    requires i < |table|
    requires forall j, k :: 0 <= j < k < |table| ==> table[j].0 != table[k].0
    ensures Lookup(table, table[i].0) == table[i].1
    decreases i
  {
    if i > 0 {
      assert table[0].0 != table[i].0;
      assert table[1..][i - 1] == table[i];
      KnownCulture(table[1..], i - 1);
    }
  }

  /**
   * The default localization from "US": the cultures give "english" twice and
   * only one copy goes, so the source language stays a target.
   */
  lemma DefaultLocalizationKeepsEnglish()
    ensures InitialTargets(LanguageOf("US"), MapLines(LanguageOf, DefaultCultures)) == ["english", "spanish", "french"]
  {
    assert LanguageOf("US") == "english";
    var langs := MapLines(LanguageOf, DefaultCultures);
    MapLinesAt(LanguageOf, DefaultCultures);
    assert langs == ["english", "english", "spanish", "french"];
  }

  /** The culture-to-language entries for the target cultures. */
  function CultureMap(cultures: seq<string>): map<string, string> {
    map c | c in cultures :: LanguageOf(c)
  }

  /** The loop that fills `culture_language_map`: one entry per target culture, with its language. */
  method BuildCultureMap(cultures: seq<string>) returns (m: map<string, string>)
    ensures m.Keys == set c | c in cultures
    ensures forall c :: c in m ==> m[c] == LanguageOf(c)
    ensures m == CultureMap(cultures)
  {
    m := map[];
    for k := 0 to |cultures|
      invariant m.Keys == set c | c in cultures[..k]
      invariant forall c :: c in m ==> m[c] == LanguageOf(c)
    {
      assert cultures[..k + 1] == cultures[..k] + [cultures[k]];
      m := m[cultures[k] := LanguageOf(cultures[k])];
    }
    assert cultures[..|cultures|] == cultures;
  }

  /** The target languages handed to the multilingual crew, one per culture in order. */
  lemma CultureLanguagesInOrder(cultures: seq<string>)
    ensures |MapLines(LanguageOf, cultures)| == |cultures|
    ensures forall k :: 0 <= k < |cultures| ==> MapLines(LanguageOf, cultures)[k] == LanguageOf(cultures[k])
  {
    MapLinesAt(LanguageOf, cultures);
  }

  /**
   * The crew of a localization: the multilingual crew set up with the
   * cultures' languages, and the cultures themselves. The subclass of the
   * source is a field holding the multilingual crew.
   */
  class LocalizationCrew {
    var crew: AdvancedMultilingualCrew
    var sourceCulture: string
    var targetCultures: StringList
    var cultureLanguageMap: map<string, string>

    constructor(sourceCulture: string, targetCultures: StringList?)
      ensures this.sourceCulture == sourceCulture
      ensures targetCultures != null && targetCultures.items != [] ==> this.targetCultures == targetCultures
      ensures targetCultures == null || targetCultures.items == [] ==>
                fresh(this.targetCultures) && this.targetCultures.items == DefaultCultures
      ensures this.targetCultures.items != [] && fresh(crew) && fresh(crew.targetLanguages)
      ensures crew.sourceLanguage == Lower(LanguageOf(sourceCulture))
      ensures crew.targetLanguages.items ==
              InitialTargets(Lower(LanguageOf(sourceCulture)), MapLines(LanguageOf, this.targetCultures.items))
      ensures cultureLanguageMap == CultureMap(this.targetCultures.items)
    {
      var cultures := ListOr(targetCultures, DefaultCultures);
      var names := cultures.items;
      var languages := new StringList(MapLines(LanguageOf, names));
      assert languages.items != [];
      var multilingual := new AdvancedMultilingualCrew(LanguageOf(sourceCulture), languages);
      assert cultures.items == names;
      var cultureMap := BuildCultureMap(cultures.items);
      this.crew := multilingual;
      this.sourceCulture := sourceCulture;
      this.targetCultures := cultures;
      this.cultureLanguageMap := cultureMap;
    }
  }
}
