/**
 * `TranslationManager` (translation_manager.py): the current language, the
 * loaded translation table and the sorted list of languages found in the
 * translations directory. The directory is given as a value: its listing and
 * the parsed contents of the files that could be read.
 */
module Translations {
  import opened Text

  const DefaultLanguage := "Italian"
  const ConfigFile := "config.json"
  const LanguageKey := "current_language"

  /** The translations directory at the moment it is read. */
  datatype Directory = Directory(names: seq<string>, files: map<string, map<string, string>>)

  // ---------------------------------------------------------------------------
  // Python's ordering of str values, and sorting

  /** `a <= b` for Python strings: lexicographic by code point. */
  predicate Below(a: string, b: string)
    decreases |a|
  {
    a == [] || (b != [] && (a[0] < b[0] || (a[0] == b[0] && Below(a[1..], b[1..]))))
  }

  lemma {:induction false} BelowTotal(a: string, b: string)
    ensures Below(a, b) || Below(b, a)
    decreases |a|
  {
    if a != [] && b != [] && a[0] == b[0] {
      BelowTotal(a[1..], b[1..]);
    }
  }

  lemma {:induction false} BelowTrans(a: string, b: string, c: string)
    requires Below(a, b) && Below(b, c)
    ensures Below(a, c)
    decreases |a|
  {
    if a != [] && a[0] == b[0] && b[0] == c[0] {
      BelowTrans(a[1..], b[1..], c[1..]);
    }
  }

  lemma {:induction false} BelowAntisymmetric(a: string, b: string)
    requires Below(a, b) && Below(b, a)
    ensures a == b
    decreases |a|
  {
    if a != [] {
      BelowAntisymmetric(a[1..], b[1..]);
      assert a == [a[0]] + a[1..] && b == [b[0]] + b[1..];
    }
  }

  lemma {:induction false} BelowReflexive(a: string)
    ensures Below(a, a)
    decreases |a|
  {
    if a != [] {
      BelowReflexive(a[1..]);
    }
  }

  /** Each element is at most the next one. */
  predicate Sorted(s: seq<string>) {
    forall i :: 0 < i < |s| ==> Below(s[i - 1], s[i])
  }

  /** A sorted list is ordered between any two of its positions. */
  lemma {:induction false} SortedPairwise(s: seq<string>)
    requires Sorted(s)
    ensures forall i, j :: 0 <= i < j < |s| ==> Below(s[i], s[j])
    decreases |s|
  {
    if |s| > 1 {
      var init := s[..|s| - 1];
      assert Sorted(init) by {
        forall i | 0 < i < |init| ensures Below(init[i - 1], init[i]) {
          assert init[i - 1] == s[i - 1] && init[i] == s[i];
        }
      }
      SortedPairwise(init);
      forall i, j | 0 <= i < j < |s| ensures Below(s[i], s[j]) {
        if j < |s| - 1 {
          assert s[i] == init[i] && s[j] == init[j];
        } else if i < j - 1 {
          assert s[i] == init[i] && s[j - 1] == init[j - 1];
          BelowTrans(s[i], s[j - 1], s[j]);
        }
      }
    }
  }

  /** `x` placed in a sorted list before the first element it is below. */
  function Insert(s: seq<string>, x: string): (r: seq<string>)
    requires Sorted(s)
    ensures Sorted(r)
    ensures multiset(r) == multiset(s) + multiset{x}
    ensures |r| == |s| + 1 && (r[0] == x || (s != [] && r[0] == s[0]))
    decreases |s|
  {
    if s == [] then [x]
    else if Below(x, s[0]) then [x] + s
    else
      BelowTotal(x, s[0]);
      var rest := Insert(s[1..], x);
      assert s == [s[0]] + s[1..];
      [s[0]] + rest
  }

  /** `list.sort()` on strings: insertion of each element in turn. */
  function SortStrings(s: seq<string>): (r: seq<string>)
    ensures Sorted(r)
    ensures multiset(r) == multiset(s)
    decreases |s|
  {
    if s == [] then []
    else
      assert s == s[..|s| - 1] + [s[|s| - 1]];
      Insert(SortStrings(s[..|s| - 1]), s[|s| - 1])
  }

  lemma SortedTail(s: seq<string>)
    requires Sorted(s) && s != []
    ensures Sorted(s[1..])
  {
    forall k | 0 < k < |s[1..]| ensures Below(s[1..][k - 1], s[1..][k]) {
      assert s[1..][k - 1] == s[k] && s[1..][k] == s[k + 1];
    }
  }

  lemma TailMultiset(s: seq<string>)
    requires s != []
    ensures multiset(s[1..]) == multiset(s) - multiset{s[0]}
    ensures s == [s[0]] + s[1..]
  {
    assert s == [s[0]] + s[1..];
  }

  /** The first element of a sorted list is below every element. */
  lemma SortedHeadBelow(s: seq<string>, x: string)
    requires Sorted(s) && x in multiset(s)
    ensures Below(s[0], x)
  {
    SortedPairwise(s);
    var i :| 0 <= i < |s| && s[i] == x;
    if i == 0 {
      BelowReflexive(x);
    }
  }

  /** Two sorted lists with the same elements are the same list: sorting has one answer. */
  lemma {:induction false} SortedUnique(a: seq<string>, b: seq<string>)
    requires Sorted(a) && Sorted(b) && multiset(a) == multiset(b)
    ensures a == b
    decreases |a|
  {
    assert |a| == |multiset(a)| == |multiset(b)| == |b|;
    if a != [] {
      SortedHeadBelow(a, b[0]);
      SortedHeadBelow(b, a[0]);
      BelowAntisymmetric(a[0], b[0]);
      TailMultiset(a);
      TailMultiset(b);
      SortedTail(a);
      SortedTail(b);
      SortedUnique(a[1..], b[1..]);
    }
  }

  /** Any sorted arrangement of a list's elements is the one `SortStrings` gives. */
  lemma SortAgrees(s: seq<string>, sorted: seq<string>)
    requires Sorted(sorted) && multiset(sorted) == multiset(s)
    ensures SortStrings(s) == sorted
  {
    SortedUnique(SortStrings(s), sorted);
  }

  // ---------------------------------------------------------------------------
  // The language list

  predicate EndsWith(s: string, suffix: string) {
    |suffix| <= |s| && s[|s| - |suffix|..] == suffix
  }

  /** A file of the directory that names a language. */
  predicate IsLanguageFile(name: string) {
    EndsWith(name, ".json") && name != ConfigFile
  }

  /** `filename[:-5]`: the name without its ".json". */
  function LanguageName(name: string): (r: string)
    requires IsLanguageFile(name)
    ensures r + ".json" == name
  {
    name[..|name| - 5]
  }

  /** The language names of a listing, in listing order. */
  function LanguageFiles(names: seq<string>): (r: seq<string>)
    ensures |r| <= |names|
    decreases |names|
  {
    if names == [] then []
    else
      var last := names[|names| - 1];
      LanguageFiles(names[..|names| - 1]) + (if IsLanguageFile(last) then [LanguageName(last)] else [])
  }

  /** A language is listed exactly when its ".json" file is in the directory and it is not the config file. */
  lemma {:induction false} LanguageFilesMembers(names: seq<string>, language: string)
    ensures language in LanguageFiles(names) <==> language + ".json" in names && language + ".json" != ConfigFile
    decreases |names|
  {
    if names != [] {
      var init, last := names[..|names| - 1], names[|names| - 1];
      LanguageFilesMembers(init, language);
      assert names == init + [last];
      var file := language + ".json";
      assert EndsWith(file, ".json") by { assert file[|file| - 5..] == ".json"; }
      if IsLanguageFile(last) && LanguageName(last) == language {
        assert last == file;
      }
      if last == file && file != ConfigFile {
        assert IsLanguageFile(last);
        assert LanguageName(last) + ".json" == language + ".json";
        assert LanguageName(last) == (language + ".json")[..|language|];
      }
    }
  }

  /** The parsed file of a language, or an empty table when there is none. */
  function TranslationsFor(dir: Directory, language: string): map<string, string> {
    if language + ".json" in dir.files then dir.files[language + ".json"] else map[]
  }

  /** The language in the saved configuration, or the default when it is missing. */
  function ConfiguredLanguage(config: Option<map<string, string>>): string {
    if config.Some? && LanguageKey in config.value then config.value[LanguageKey] else DefaultLanguage
  }

  // ---------------------------------------------------------------------------
  // Formatting with keyword arguments

  /** A replacement field this model formats: a keyword name, without conversion, spec, attribute or index. */
  predicate PlainField(name: string) {
    name != "" && !IsDigits(name) && forall k :: 0 <= k < |name| ==> name[k] !in ":!.[{}"
  }

  /**
   * `str.format(**kwargs)`: `{{` and `}}` stand for braces, `{name}` for the
   * argument `name`; a lone brace, a missing argument or a positional field raises.
   */
  function Format(t: string, kwargs: map<string, string>): (r: Option<string>)
    decreases |t|
  {
    if t == [] then Some([])
    else if t[0] == '{' then
      if |t| >= 2 && t[1] == '{' then Prefix("{", Format(t[2..], kwargs))
      else match Find(t[1..], "}")
        case None => None
        case Some(k) =>
          var name := t[1..1 + k];
          if !PlainField(name) || name !in kwargs then None
          else Prefix(kwargs[name], Format(t[k + 2..], kwargs))
    else if t[0] == '}' then
      if |t| >= 2 && t[1] == '}' then Prefix("}", Format(t[2..], kwargs)) else None
    else Prefix([t[0]], Format(t[1..], kwargs))
  }

  function Prefix(p: string, r: Option<string>): Option<string> {
    if r.None? then None else Some(p + r.value)
  }

  /** A text without braces formats to itself. */
  lemma {:induction false} FormatPlain(t: string, kwargs: map<string, string>)
    requires forall k :: 0 <= k < |t| ==> t[k] != '{' && t[k] != '}'
    ensures Format(t, kwargs) == Some(t)
    decreases |t|
  {
    if t != [] {
      FormatPlain(t[1..], kwargs);
      assert t == [t[0]] + t[1..];
    }
  }

  /** A field is replaced by its argument's value; the text after it is formatted on. */
  lemma FormatField(name: string, rest: string, kwargs: map<string, string>)
    requires PlainField(name) && name in kwargs
    ensures Format("{" + name + "}" + rest, kwargs) == Prefix(kwargs[name], Format(rest, kwargs))
  {
    var t := "{" + name + "}" + rest;
    assert t[1..] == name + "}" + rest;
    FindFirstBrace(name, rest);
    assert t[1..1 + |name|] == name;
    assert t[|name| + 2..] == rest;
  }

  /** The first closing brace after a name without braces is the one that ends it. */
  lemma FindFirstBrace(name: string, rest: string)
    requires forall k :: 0 <= k < |name| ==> name[k] != '}'
    ensures Find(name + "}" + rest, "}") == Some(|name|)
  {
    var s := name + "}" + rest;
    assert OccursAt(s, "}", |name|);
    forall i | 0 <= i < |name| ensures !OccursAt(s, "}", i) {
      assert s[i] == name[i];
    }
  }

  /** A field whose argument is missing makes formatting raise. */
  lemma FormatMissingArgument(name: string, rest: string, kwargs: map<string, string>)
    requires forall k :: 0 <= k < |name| ==> name[k] != '{' && name[k] != '}'
    requires name !in kwargs
    ensures Format("{" + name + "}" + rest, kwargs) == None
  {
    var t := "{" + name + "}" + rest;
    assert t[1..] == name + "}" + rest;
    FindFirstBrace(name, rest);
    assert t[1..1 + |name|] == name;
  }

  // ---------------------------------------------------------------------------
  // The manager

  /** The label of the ten languages with a flag. */
  const DisplayNames: map<string, string> := map[
    "Italian" := "🇮🇹 Italiano",
    "English" := "🇺🇸 English",
    "Spanish" := "🇪🇸 Español",
    "French" := "🇫🇷 Français",
    "German" := "🇩🇪 Deutsch",
    "Portuguese" := "🇵🇹 Português",
    "Russian" := "🇷🇺 Русский",
    "Chinese" := "🇨🇳 中文",
    "Japanese" := "🇯🇵 日本語",
    "Korean" := "🇰🇷 한국어"]

  const Globe := "🌐 "

  /** `get_language_display_name`. */
  function DisplayName(language: string): (r: string)
    ensures language in DisplayNames ==> r == DisplayNames[language]
    ensures language !in DisplayNames ==> r == Globe + language
  {
    if language in DisplayNames then DisplayNames[language] else Globe + language
  }

  /** Languages without a flag keep their own name in the label, so two of them never share one. */
  lemma DisplayNameDistinct(a: string, b: string)
    requires a !in DisplayNames && b !in DisplayNames && DisplayName(a) == DisplayName(b)
    ensures a == b
  {
    assert a == DisplayName(a)[|Globe|..];
  }

  class TranslationManager {
    var currentLanguage: string
    var translations: map<string, string>
    var availableLanguages: seq<string>

    /** The language list is kept sorted. */
    predicate Valid()
      reads this
    {
      Sorted(availableLanguages)
    }

    /** `__init__`: the configured language, the directory's languages, and that language's table. */
    constructor(config: Option<map<string, string>>, dir: Directory)
      ensures Valid()
      ensures currentLanguage == ConfiguredLanguage(config)
      ensures availableLanguages == SortStrings(LanguageFiles(dir.names))
      ensures translations == TranslationsFor(dir, ConfiguredLanguage(config))
    {
      currentLanguage := ConfiguredLanguage(config);
      translations := map[];
      availableLanguages := [];
      new;
      LoadAvailableLanguages(dir);
      LoadCurrentTranslations(dir);
    }

    /** `_load_available_languages`: the language files of the listing, sorted. */
    method LoadAvailableLanguages(dir: Directory)
      modifies this
      ensures Valid()
      ensures availableLanguages == SortStrings(LanguageFiles(dir.names))
      ensures currentLanguage == old(currentLanguage) && translations == old(translations)
    {
      availableLanguages := [];
      var i := 0;
      while i < |dir.names|
        invariant i <= |dir.names|
        invariant availableLanguages == LanguageFiles(dir.names[..i])
        invariant currentLanguage == old(currentLanguage) && translations == old(translations)
      {
        var filename := dir.names[i];
        assert dir.names[..i + 1] == dir.names[..i] + [filename];
        if IsLanguageFile(filename) {
          availableLanguages := availableLanguages + [LanguageName(filename)];
        }
        i := i + 1;
      }
      assert dir.names[..i] == dir.names;
      availableLanguages := SortStrings(availableLanguages);
    }

    /** `_load_current_translations`. */
    method LoadCurrentTranslations(dir: Directory)
      modifies this
      ensures translations == TranslationsFor(dir, currentLanguage)
      ensures currentLanguage == old(currentLanguage) && availableLanguages == old(availableLanguages)
    {
      var file := currentLanguage + ".json";
      if file in dir.files {
        translations := dir.files[file];
      } else {
        translations := map[];
      }
    }

    /** `set_language`: only a listed language is accepted; its table is then loaded. */
    method SetLanguage(language: string, dir: Directory) returns (ok: bool)
      modifies this
      ensures ok <==> language in old(availableLanguages)
      ensures !ok ==> currentLanguage == old(currentLanguage) && translations == old(translations)
      ensures ok ==> currentLanguage == language && translations == TranslationsFor(dir, language)
      ensures availableLanguages == old(availableLanguages)
    {
      if language !in availableLanguages {
        return false;
      }
      currentLanguage := language;
      LoadCurrentTranslations(dir);
      ok := true;
    }

    /** `get_text` without arguments: the translation, or the key itself. */
    function GetText(key: string): (r: string)
      reads this
      ensures key in translations ==> r == translations[key]
      ensures key !in translations ==> r == key
    {
      if key in translations then translations[key] else key
    }

    /** `get_text` with keyword arguments: the formatted text, or the key when formatting raises. */
    function GetTextWith(key: string, kwargs: map<string, string>): (r: string)
      reads this
      ensures kwargs == map[] ==> r == GetText(key)
      ensures kwargs != map[] && Format(GetText(key), kwargs).Some? ==> r == Format(GetText(key), kwargs).value
      ensures kwargs != map[] && Format(GetText(key), kwargs).None? ==> r == key
    {
      var text := GetText(key);
      if kwargs == map[] then text
      else match Format(text, kwargs)
        case None => key
        case Some(formatted) => formatted
    }

    /** `has_translation`. */
    function HasTranslation(key: string): (r: bool)
      reads this
      ensures r <==> key in translations
    {
      key in translations
    }

    /** `get_available_languages`: a copy of the sorted list. */
    method GetAvailableLanguages() returns (r: seq<string>)
      requires Valid()
      ensures r == availableLanguages
      ensures forall i, j :: 0 <= i < j < |r| ==> Below(r[i], r[j])
    {
      r := availableLanguages;
      SortedPairwise(r);
    }
  }

  /**
   * The language list is the directory's language files, each once per file,
   * without their suffix and without the config file, in sorted order.
   */
  lemma AvailableLanguages(names: seq<string>, language: string)
    ensures var r := SortStrings(LanguageFiles(names));
      (language in r <==> language + ".json" in names && language + ".json" != ConfigFile)
      && (forall i, j :: 0 <= i < j < |r| ==> Below(r[i], r[j]))
      && multiset(r) == multiset(LanguageFiles(names))
  {
    var r := SortStrings(LanguageFiles(names));
    LanguageFilesMembers(names, language);
    assert language in r <==> language in multiset(r);
    SortedPairwise(r);
  }
}
