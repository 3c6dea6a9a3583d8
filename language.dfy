/**
 * `LangHandler` lookups over the preloaded language tables: a language code
 * (upper-cased, falling back to "EN") selects a table, and each key yields its
 * string or "Not found!".  Loading the tables from files is outside the model:
 * the loaded tables are a parameter.
 */
module Language {
  import opened Wrappers
  import opened PyText
  import opened Documents

  /** `_langs`: language code to its key/string table. */
  type Tables = map<string, map<string, string>>

  const NotFound: string := "Not found!"
  const DefaultLang: string := "EN"

  /** A single key gives a string, any other number of keys a list. */
  datatype Strings = One(s: string) | Many(items: seq<string>)

  /** The table a code selects: its own after upper-casing, else "EN"'s, else an empty one. */
  function SelectTable(langs: Tables, lang: string): (r: map<string, string>)
    ensures Upper(lang) in langs ==> r == langs[Upper(lang)]
    ensures Upper(lang) !in langs && DefaultLang in langs ==> r == langs[DefaultLang]
    ensures Upper(lang) !in langs && DefaultLang !in langs ==> r == map[]
  {
    var code := if Upper(lang) in langs then Upper(lang) else DefaultLang;
    if code in langs then langs[code] else map[]
  }

  /** `_get_lang(lang, *keys)`. */
  function GetLangStrings(langs: Tables, lang: string, keys: seq<string>): (r: Strings)
    ensures |keys| == 1 <==> r.One?
    ensures r.Many? ==> |r.items| == |keys|
  {
    var table := SelectTable(langs, lang);
    if |keys| == 1 then One(Entry(table, keys[0]))
    else Many(seq(|keys|, i requires 0 <= i < |keys| => Entry(table, keys[i])))
  }

  /** The string one key gives in a table: its entry, else "Not found!". */
  function Entry(table: map<string, string>, key: string): string
  {
    if key in table then table[key] else NotFound
  }

  /** A key the selected table holds gives that table's string for it. */
  lemma FoundKeyGivesEntry(langs: Tables, lang: string, key: string)
    requires key in SelectTable(langs, lang)
    ensures GetLangStrings(langs, lang, [key]) == One(SelectTable(langs, lang)[key])
  {
  }

  /** Several keys give, in order, what each key gives on its own. */
  lemma ManyIsPointwise(langs: Tables, lang: string, keys: seq<string>)
    requires |keys| != 1
    ensures forall i :: 0 <= i < |keys| ==>
      GetLangStrings(langs, lang, keys).items[i] == GetLangStrings(langs, lang, [keys[i]]).s
  {
  }

  /** A key the selected table lacks gives "Not found!". */
  lemma MissingKeyNotFound(langs: Tables, lang: string, key: string)
    requires key !in SelectTable(langs, lang)
    ensures GetLangStrings(langs, lang, [key]) == One(NotFound)
  {
  }

  /** The code is case-insensitive: any spelling selects the upper-case table. */
  lemma LangCaseInsensitive(langs: Tables, lang: string, keys: seq<string>)
    ensures GetLangStrings(langs, lang, keys) == GetLangStrings(langs, Upper(lang), keys)
  {
    UpperIdempotent(lang);
  }

  /** An unknown code reads exactly like "EN". */
  lemma UnknownLangIsEnglish(langs: Tables, lang: string, keys: seq<string>)
    requires Upper(lang) !in langs
    ensures GetLangStrings(langs, lang, keys) == GetLangStrings(langs, DefaultLang, keys)
  {
    assert Upper(DefaultLang) == DefaultLang;
  }

  /** With neither the code nor "EN" loaded, every key gives "Not found!". */
  lemma NothingLoadedNotFound(langs: Tables, lang: string, keys: seq<string>)
    requires Upper(lang) !in langs && DefaultLang !in langs
    ensures var r := GetLangStrings(langs, lang, keys);
      && (r.One? ==> r.s == NotFound)
      && (r.Many? ==> forall i :: 0 <= i < |r.items| ==> r.items[i] == NotFound)
  {
  }

  /**
   * `get_lang` over the guild's settings: the "lang" setting (default "EN")
   * selects the table; a setting that is not a string has no `.upper()` and
   * raises, giving None here.
   */
  function GetLang(langs: Tables, settings: Doc, keys: seq<string>): (r: Option<Strings>)
    ensures "lang" !in settings ==> r == Some(GetLangStrings(langs, DefaultLang, keys))
    ensures "lang" in settings && settings["lang"].VStr? ==> r == Some(GetLangStrings(langs, settings["lang"].s, keys))
    ensures r.None? <==> "lang" in settings && !settings["lang"].VStr?
  {
    match Get(settings, "lang", VStr(DefaultLang))
    case VStr(lang) => Some(GetLangStrings(langs, lang, keys))
    case _ => None
  }

  /**
   * `get_all_languages`: the codes of the main tables only.  A listed code
   * selects its own table, and a code whose upper-cased form is not listed
   * answers as English.
   */
  function AllLanguages(langs: Tables): (r: set<string>)
    ensures forall code :: code in r <==> code in langs
    ensures forall code :: code in r && Upper(code) == code ==> code in langs && SelectTable(langs, code) == langs[code]
    ensures forall code :: Upper(code) !in r && DefaultLang in langs ==> SelectTable(langs, code) == langs[DefaultLang]
  {
    langs.Keys
  }
}
