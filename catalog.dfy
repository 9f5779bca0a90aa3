/**
 * The translator's language catalog (the `languages` attribute of a
 * `ContextAwareTranslator`), the rule that decides which target languages
 * are accepted, and the option lists the web page builds from the catalog.
 * The operations are stated for any catalog; `NewCatalog` is the one the
 * translator's constructor installs.
 */
module LanguageCatalog {

  /** The name that is always accepted although it is not in the catalog. */
  const English: string := "English"

  datatype Catalog = Catalog(languages: seq<string>)

  /** The catalog set up by the constructor: 15 curated languages in display order, without "English". */
  function NewCatalog(): (c: Catalog)
    ensures |c.languages| == 15
    ensures c.languages[0] == "Spanish" && c.languages[14] == "Turkish"
    ensures English !in c.languages
  {
    Catalog([
      "Spanish", "French", "Italian", "German", "Portuguese",
      "Chinese", "Japanese", "Korean", "Russian", "Arabic",
      "Dutch", "Swedish", "Greek", "Hindi", "Turkish"
    ])
  }

  /**
   * `get_available_languages`: the catalog's entries, as they are stored. Each
   * of them passes the target check, and with "English" after them they are
   * the supported list.
   */
  function AvailableLanguages(c: Catalog): (r: seq<string>)
    ensures forall i :: 0 <= i < |r| ==> IsSupported(c, r[i])
    ensures r + [English] == SupportedNames(c)
  {
    c.languages
  }

  /**
   * The list a freshly constructed translator reports: always the same 15
   * names in the same order, none of them "English".
   */
  lemma AvailableLanguagesFixed()
    ensures AvailableLanguages(NewCatalog()) == [
      "Spanish", "French", "Italian", "German", "Portuguese",
      "Chinese", "Japanese", "Korean", "Russian", "Arabic",
      "Dutch", "Swedish", "Greek", "Hindi", "Turkish"
    ]
    ensures |AvailableLanguages(NewCatalog())| == 15
    ensures English !in AvailableLanguages(NewCatalog())
  {
  }

  /**
   * The target-language check of `translate`: a catalog entry, or "English".
   * It accepts exactly the names of the supported list.
   */
  predicate IsSupported(c: Catalog, target: string)
    ensures IsSupported(c, target) <==> target in SupportedNames(c)
  {
    target in c.languages || target == English
  }

  /** The supported set as `translate` lists it when rejecting a target: the catalog, then "English". */
  function SupportedNames(c: Catalog): (r: seq<string>)
    ensures |r| == |c.languages| + 1 && r[..|c.languages|] == c.languages && r[|c.languages|] == English
    ensures forall name :: name in r <==> name in c.languages || name == English
  {
    c.languages + [English]
  }

  /** Every catalog entry and "English" are accepted; a name outside them such as "Klingon" is not. */
  lemma AcceptedTargets()
    ensures forall i :: 0 <= i < 15 ==> IsSupported(NewCatalog(), AvailableLanguages(NewCatalog())[i])
    ensures IsSupported(NewCatalog(), English)
    ensures !IsSupported(NewCatalog(), "Klingon")
  {
  }

  /** The target select box offers the catalog followed by "English". */
  function TargetOptions(c: Catalog): (r: seq<string>)
    ensures |r| == |c.languages| + 1 && r[|c.languages|] == English
    ensures forall i :: 0 <= i < |c.languages| ==> r[i] == AvailableLanguages(c)[i]
  {
    AvailableLanguages(c) + [English]
  }

  /** The source select box offers "English" first (its default choice) and then the catalog. */
  function SourceOptions(c: Catalog): (r: seq<string>)
    ensures |r| == |c.languages| + 1 && r[0] == English
    ensures forall i :: 0 <= i < |c.languages| ==> r[i + 1] == AvailableLanguages(c)[i]
  {
    [English] + AvailableLanguages(c)
  }

  /**
   * Every target the page offers passes the check, and the page offers
   * exactly the names the rejection message lists.
   */
  lemma TargetOptionsCoverage(c: Catalog)
    ensures TargetOptions(c) == SupportedNames(c)
    ensures forall o :: o in TargetOptions(c) <==> IsSupported(c, o)
  {
  }

  /** The source options are the target options in another order: the same names, each as often. */
  lemma SourceOptionsPermuteTargets(c: Catalog)
    ensures multiset(SourceOptions(c)) == multiset(TargetOptions(c))
  {
    assert multiset(SourceOptions(c)) == multiset([English]) + multiset(c.languages);
    assert multiset(TargetOptions(c)) == multiset(c.languages) + multiset([English]);
  }

  /** For the constructor's catalog the two option lists differ: "English" leads the one and ends the other. */
  lemma OptionOrdersDiffer()
    ensures SourceOptions(NewCatalog())[0] == English
    ensures TargetOptions(NewCatalog())[0] == "Spanish"
  {
  }
}
