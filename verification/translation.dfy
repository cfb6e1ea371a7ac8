/**
 * The language provider: the initial language taken from the `app-language`
 * cookie, `setLanguage` (state, cookie, which locale file to load), and the
 * translation function `t`, which walks the dotted key through the loaded
 * table and fills `{n}` placeholders from its extra arguments in one
 * left-to-right pass.
 */
module Translation {
  import opened Wrappers
  import opened Strings
  import Cookies

  // ----- the translation table -----

  /**
   * A value of a parsed locale file: a string, an object, or anything else
   * (number, boolean, null). Arrays are not modelled.
   */
  datatype Json = JString(s: string) | JObject(fields: map<string, Json>) | JOther

  /**
   * Follows `keys` from `node`; each step needs an object that owns the key.
   * The empty path is the node itself.
   */
  function Resolve(node: Json, keys: seq<string>): (r: Option<Json>)
    ensures |keys| == 0 ==> r == Some(node)
    ensures |keys| > 0 && r.Some? ==> node.JObject? && keys[0] in node.fields
    decreases |keys|
  {
    if |keys| == 0 then Some(node)
    else
      match node
      case JObject(f) => if keys[0] in f then Resolve(f[keys[0]], keys[1..]) else None
      case _ => None
  }

  /**
   * A walk stops for good at the first segment its node cannot follow: a
   * node that is not an object, or an object without that key.
   */
  lemma {:induction false} ResolveMissing(node: Json, keys: seq<string>, i: nat)
    requires i < |keys| && Resolve(node, keys[..i]).Some?
    requires var v := Resolve(node, keys[..i]).value; !v.JObject? || keys[i] !in v.fields
    ensures Resolve(node, keys).None?
    decreases i
  {
    if i > 0 {
      assert keys[..i][0] == keys[0] && keys[..i][1..] == keys[1..][..i - 1];
      ResolveMissing(node.fields[keys[0]], keys[1..], i - 1);
    }
  }

  /** Walking a path in two parts: the second part continues from where the first ended. */
  lemma {:induction false} ResolveAppend(node: Json, a: seq<string>, b: seq<string>)
    ensures Resolve(node, a + b) == match Resolve(node, a) case None => None case Some(v) => Resolve(v, b)
    decreases |a|
  {
    if |a| == 0 {
      assert a + b == b;
    } else {
      assert (a + b)[0] == a[0] && (a + b)[1..] == a[1..] + b;
      if node.JObject? && a[0] in node.fields {
        ResolveAppend(node.fields[a[0]], a[1..], b);
      }
    }
  }

  // ----- `{n}` interpolation -----

  /** Number of leading decimal digits of `s`. */
  function DigitRun(s: string): (n: nat)
    ensures n <= |s| && AllDigits(s[..n])
    ensures n < |s| ==> !IsDigit(s[n])
    decreases |s|
  {
    if |s| > 0 && IsDigit(s[0]) then
      var n := 1 + DigitRun(s[1..]);
      assert s[..n] == [s[0]] + s[1..][..n - 1];
      n
    else 0
  }

  /** When `s` starts with a match of `/{(\d+)}/`, the number of digits it captures. */
  function PlaceholderDigits(s: string): (d: Option<nat>)
    ensures d.Some? ==> 1 <= d.value && d.value + 2 <= |s| && AllDigits(s[1..d.value + 1])
  {
    if |s| > 0 && s[0] == '{' then
      var d := DigitRun(s[1..]);
      if d > 0 && d + 1 < |s| && s[d + 1] == '}' then
        assert s[1..d + 1] == s[1..][..d];
        Some(d)
      else None
    else None
  }

  /**
   * `args[number]` for the captured digit string: an array has an element
   * only at a canonical index below its length (`args["01"]` is undefined).
   */
  function ArgFor(digits: string, args: seq<string>): Option<string>
    requires AllDigits(digits)
  {
    if IsCanonical(digits) && DigitsValue(digits) < |args| then Some(args[DigitsValue(digits)]) else None
  }

  /**
   * `s.replace(/{(\d+)}/g, …)`: each placeholder becomes its argument when
   * that is defined and stays as written otherwise; scanning resumes after
   * the placeholder, so inserted text is never scanned again. With no
   * arguments every placeholder stays verbatim and the text is unchanged.
   */
  function Interpolate(s: string, args: seq<string>): (r: string)
    ensures |args| == 0 ==> r == s
    decreases |s|
  {
    if |s| == 0 then ""
    else
      match PlaceholderDigits(s)
      case Some(d) =>
        assert s == s[..d + 2] + s[d + 2..];
        ArgFor(s[1..d + 1], args).GetOr(s[..d + 2]) + Interpolate(s[d + 2..], args)
      case None =>
        assert s == [s[0]] + s[1..];
        [s[0]] + Interpolate(s[1..], args)
  }

  /** A message template: literal text (without `{`) and numbered slots. */
  datatype Piece = Text(text: string) | Slot(index: nat)

  predicate PlainTemplate(tpl: seq<Piece>) {
    forall i :: 0 <= i < |tpl| && tpl[i].Text? ==> '{' !in tpl[i].text
  }

  /** The placeholder text `{n}` for slot `n`. */
  function SlotText(n: nat): string {
    "{" + NatToString(n) + "}"
  }

  /** The template as it is written in a locale file. */
  function Render(tpl: seq<Piece>): string
    decreases |tpl|
  {
    if |tpl| == 0 then ""
    else (match tpl[0] case Text(t) => t case Slot(n) => SlotText(n)) + Render(tpl[1..])
  }

  /** The intended message: slot `n` shows argument `n` if there is one, else `{n}` itself. */
  function Fill(tpl: seq<Piece>, args: seq<string>): string
    decreases |tpl|
  {
    if |tpl| == 0 then ""
    else
      (match tpl[0]
       case Text(t) => t
       case Slot(n) => if n < |args| then args[n] else SlotText(n))
      + Fill(tpl[1..], args)
  }

  /** Literal text without `{` passes through unchanged. */
  lemma {:induction false} InterpolatePlain(t: string, rest: string, args: seq<string>)
    requires '{' !in t
    ensures Interpolate(t + rest, args) == t + Interpolate(rest, args)
    decreases |t|
  {
    if |t| > 0 {
      var s := t + rest;
      assert s[0] == t[0] != '{';
      assert s[1..] == t[1..] + rest;
      InterpolatePlain(t[1..], rest, args);
    } else {
      assert t + rest == rest;
    }
  }

  lemma DigitRunStops(ds: string, rest: string)
    requires AllDigits(ds) && |rest| > 0 && !IsDigit(rest[0])
    ensures DigitRun(ds + rest) == |ds|
    decreases |ds|
  {
    if |ds| > 0 {
      assert (ds + rest)[1..] == ds[1..] + rest;
      DigitRunStops(ds[1..], rest);
    } else {
      assert ds + rest == rest;
    }
  }

  /** A placeholder `{n}` becomes argument `n` (or stays), and scanning resumes after it. */
  lemma InterpolateSlot(n: nat, rest: string, args: seq<string>)
    ensures Interpolate(SlotText(n) + rest, args)
            == (if n < |args| then args[n] else SlotText(n)) + Interpolate(rest, args)
  {
    var ds := NatToString(n);
    assert SlotText(n) == "{" + ds + "}";
    InterpolateDigits(ds, rest, args);
  }

  /** The same for a placeholder written with any canonical digit string. */
  lemma InterpolateDigits(ds: string, rest: string, args: seq<string>)
    requires IsCanonical(ds)
    ensures var v := DigitsValue(ds);
            Interpolate("{" + ds + "}" + rest, args)
            == (if v < |args| then args[v] else "{" + ds + "}") + Interpolate(rest, args)
  {
    var s := "{" + ds + "}" + rest;
    DigitsPlaceholder(ds, rest);
    InterpolateAt(s, |ds|, args);
  }

  /** `{ds}` at the front of a text is recognised as a placeholder capturing `ds`. */
  lemma DigitsPlaceholder(ds: string, rest: string)
    requires AllDigits(ds) && |ds| > 0
    ensures var s := "{" + ds + "}" + rest;
            && PlaceholderDigits(s) == Some(|ds|)
            && s[1..|ds| + 1] == ds && s[..|ds| + 2] == "{" + ds + "}" && s[|ds| + 2..] == rest
  {
    var s := "{" + ds + "}" + rest;
    assert s == "{" + (ds + ("}" + rest));
    assert s[1..] == ds + ("}" + rest);
    DigitRunStops(ds, "}" + rest);
    assert s[|ds| + 1] == '}';
  }

  /** One step of the scan at a recognised placeholder. */
  lemma InterpolateAt(s: string, d: nat, args: seq<string>)
    requires PlaceholderDigits(s) == Some(d)
    ensures Interpolate(s, args) == ArgFor(s[1..d + 1], args).GetOr(s[..d + 2]) + Interpolate(s[d + 2..], args)
  {
  }

  /**
   * Interpolating a rendered template gives the intended message: every
   * slot is replaced by its argument verbatim (even when the argument itself
   * looks like `{k}`), and slots without an argument stay as written.
   */
  lemma {:induction false} InterpolateRender(tpl: seq<Piece>, args: seq<string>)
    requires PlainTemplate(tpl)
    ensures Interpolate(Render(tpl), args) == Fill(tpl, args)
    decreases |tpl|
  {
    if |tpl| > 0 {
      assert PlainTemplate(tpl[1..]) by {
        forall i | 0 <= i < |tpl[1..]| && tpl[1..][i].Text?
          ensures '{' !in tpl[1..][i].text
        {
          assert tpl[1..][i] == tpl[i + 1];
        }
      }
      InterpolateRender(tpl[1..], args);
      match tpl[0]
      case Text(t) =>
        InterpolatePlain(t, Render(tpl[1..]), args);
      case Slot(n) =>
        InterpolateSlot(n, Render(tpl[1..]), args);
    }
  }

  /** Text inserted for a placeholder is not expanded again: `{0}` with `args[0] == "{1}"` gives `{1}`. */
  lemma NoReexpansion()
    ensures Interpolate("{0}", ["{1}", "x"]) == "{1}"
  {
    assert SlotText(0) + "" == "{0}";
    InterpolateSlot(0, "", ["{1}", "x"]);
  }

  /** `args["01"]` is undefined: a placeholder with a leading zero stays verbatim. */
  lemma LeadingZeroVerbatim(args: seq<string>)
    ensures Interpolate("{01}", args) == "{01}"
  {
    assert PlaceholderDigits("{01}") == Some(2) by {
      assert DigitRun("01}") == 2 by {
        assert DigitRun("}") == 0;
        assert "01}"[1..] == "1}" && "1}"[1..] == "}";
      }
    }
    assert !IsCanonical("01");
    assert "{01}"[4..] == "";
  }

  // ----- t(key, ...args) -----

  /**
   * `t(key, ...args)`: the key's dotted segments are looked up level by
   * level; a missing segment or a non-string result gives the key itself.
   */
  function T(translations: map<string, Json>, key: string, args: seq<string>): (r: string)
    ensures Resolve(JObject(translations), Split(key, '.')).None? ==> r == key
  {
    match Resolve(JObject(translations), Split(key, '.'))
    case Some(JString(s)) => Interpolate(s, args)
    case _ => key
  }

  /**
   * A key whose `i`-th dotted segment is missing at its level (or whose
   * walk meets a non-object there) translates to itself.
   */
  lemma TMissingSegment(translations: map<string, Json>, key: string, args: seq<string>, i: nat)
    requires var keys := Split(key, '.');
             && i < |keys| && Resolve(JObject(translations), keys[..i]).Some?
             && var v := Resolve(JObject(translations), keys[..i]).value;
                !v.JObject? || keys[i] !in v.fields
    ensures T(translations, key, args) == key
  {
    ResolveMissing(JObject(translations), Split(key, '.'), i);
  }

  /** While the table is still empty (nothing loaded yet), every key translates to itself. */
  lemma TEmptyTable(key: string, args: seq<string>)
    ensures T(map[], key, args) == key
  {
  }

  /** A key resolving to an object or another non-string value translates to itself. */
  lemma TNonStringIsKey(translations: map<string, Json>, key: string, args: seq<string>)
    requires Resolve(JObject(translations), Split(key, '.')).Some?
    requires !Resolve(JObject(translations), Split(key, '.')).value.JString?
    ensures T(translations, key, args) == key
  {
  }

  /** Without extra arguments a key resolving to a string translates to exactly that string. */
  lemma TNoArgs(translations: map<string, Json>, key: string, s: string)
    requires Resolve(JObject(translations), Split(key, '.')) == Some(JString(s))
    ensures T(translations, key, []) == s
  {
  }

  /**
   * A dotted key written from path segments (none containing `.`) looks up
   * exactly that path, then fills the template found there.
   */
  lemma TPath(translations: map<string, Json>, path: seq<string>, tpl: seq<Piece>, args: seq<string>)
    requires |path| >= 1 && forall i :: 0 <= i < |path| ==> '.' !in path[i]
    requires PlainTemplate(tpl)
    requires Resolve(JObject(translations), path) == Some(JString(Render(tpl)))
    ensures T(translations, Join(path, '.'), args) == Fill(tpl, args)
  {
    SplitJoin(path, '.');
    InterpolateRender(tpl, args);
  }

  // ----- the provider's language state -----

  /** The cookie the chosen language is kept in, and its lifetime in days. */
  const LanguageCookie: string := "app-language"
  const LanguageCookieDays: int := 365

  /** The two locale files. */
  datatype LocaleFile = IndonesianFile | EnglishFile

  /** The initial language: the saved cookie, or `"id"` when it is missing or empty; it is not checked. */
  function InitialLanguage(saved: Option<string>): (lang: string)
    ensures saved.Some? && saved.value != "" ==> lang == saved.value
    ensures saved.None? || saved.value == "" ==> lang == "id"
  {
    if saved.Some? && saved.value != "" then saved.value else "id"
  }

  /** The locale file `setLanguage` imports: Indonesian only for `"id"`, English for anything else. */
  function LocaleFor(lang: string): (f: LocaleFile)
    ensures f == IndonesianFile <==> lang == "id"
  {
    if lang == "id" then IndonesianFile else EnglishFile
  }

  /** The provider's state: its language, the loaded table, and the document's `lang` attribute. */
  datatype Provider = Provider(language: string, translations: map<string, Json>, htmlLang: string)

  /** What `setLanguage` asks of the outside world: a cookie assignment and a locale file to load. */
  datatype LanguageEffects = LanguageEffects(cookie: string, load: LocaleFile)

  /**
   * `setLanguage(lang)`: records the language, persists it for a year, sets
   * the document language, and starts loading the matching locale file; the
   * current table stays until that load completes. `expiry` is the cookie's
   * UTC expiry text.
   */
  function SetLanguage(p: Provider, lang: string, expiry: string): (r: (Provider, LanguageEffects))
    ensures r.0.language == lang && r.0.htmlLang == lang
    ensures r.0.translations == p.translations
    ensures r.1.load == LocaleFor(lang)
    ensures IsPrefix(LanguageCookie + "=" + lang + "; expires=", r.1.cookie)
  {
    (Provider(lang, p.translations, lang),
     LanguageEffects(Cookies.CookieAssignment(LanguageCookie, lang, LanguageCookieDays, expiry), LocaleFor(lang)))
  }

  /** The locale module resolved: its contents become the table. */
  function TranslationsLoaded(p: Provider, table: map<string, Json>): (r: Provider)
    ensures r.translations == table && r.language == p.language && r.htmlLang == p.htmlLang
  {
    p.(translations := table)
  }

  /** The provider on its first render: Indonesian, no table yet, and the page served with `lang="id"`. */
  const FirstRender: Provider := Provider("id", map[], "id")

  /** The second effect's guard: an empty table means no locale file has arrived yet. */
  predicate NeedsLoad(p: Provider) {
    |p.translations| == 0
  }

  /**
   * The second effect, run with the values of the render that scheduled it
   * (`rendered`) on top of the state so far (`current`): while that render's
   * table is empty it calls `setLanguage` with that render's language;
   * otherwise it does nothing.
   */
  function LoadIfEmpty(rendered: Provider, current: Provider, expiry: string): (r: (Provider, seq<LanguageEffects>))
    ensures NeedsLoad(rendered) ==> && r.0.language == rendered.language
                                    && r.0.translations == current.translations
                                    && |r.1| == 1 && r.1[0].load == LocaleFor(rendered.language)
    ensures !NeedsLoad(rendered) ==> r.0 == current && r.1 == []
  {
    if NeedsLoad(rendered) then
      var (p, e) := SetLanguage(current, rendered.language, expiry);
      (p, [e])
    else (current, [])
  }

  /**
   * The provider's mount as written. The first effect calls `setLanguage`
   * with the saved language; the second, holding the first render's values
   * (language `"id"`, empty table), calls `setLanguage("id")`. Both state
   * updates land in one batch, so the second wins; both cookie writes and
   * both file loads happen, in this order.
   */
  function Mount(saved: Option<string>, expiry: string): (r: (Provider, seq<LanguageEffects>))
    ensures r.0.language == "id" && r.0.htmlLang == "id" && NeedsLoad(r.0)
    ensures |r.1| == 2 && r.1[0].load == LocaleFor(InitialLanguage(saved)) && r.1[1].load == IndonesianFile
  {
    var (p1, e1) := SetLanguage(FirstRender, InitialLanguage(saved), expiry);
    var (p2, e2) := LoadIfEmpty(FirstRender, p1, expiry);
    (p2, [e1] + e2)
  }

  /**
   * The mount as evidently intended: the second effect sees the language
   * the first one chose (not the stale first-render value), so it only
   * repeats that choice and the saved language stays.
   */
  function MountIntended(saved: Option<string>, expiry: string): (r: (Provider, seq<LanguageEffects>))
    ensures r.0.language == InitialLanguage(saved) && r.0.htmlLang == InitialLanguage(saved)
    ensures |r.1| == 2 && forall i :: 0 <= i < |r.1| ==> r.1[i].load == LocaleFor(InitialLanguage(saved))
  {
    var (p1, e1) := SetLanguage(FirstRender, InitialLanguage(saved), expiry);
    var (p2, e2) := LoadIfEmpty(p1, p1, expiry);
    (p2, [e1] + e2)
  }

  /** The jar after the effects' cookie assignments, in order. */
  function ApplyCookies(jar: seq<Cookies.Pair>, effects: seq<LanguageEffects>): seq<Cookies.Pair>
    decreases |effects|
  {
    if |effects| == 0 then jar else ApplyCookies(Cookies.Assign(jar, effects[0].cookie), effects[1..])
  }

  /** Two cookie writes in a row. */
  lemma ApplyTwo(jar: seq<Cookies.Pair>, a: LanguageEffects, b: LanguageEffects)
    ensures ApplyCookies(jar, [a, b]) == Cookies.Assign(Cookies.Assign(jar, a.cookie), b.cookie)
  {
    var jar1 := Cookies.Assign(jar, a.cookie);
    assert [a, b][1..] == [b];
    assert ApplyCookies(jar, [a, b]) == ApplyCookies(jar1, [b]);
    assert [b][1..] == [];
    assert ApplyCookies(jar1, [b]) == ApplyCookies(Cookies.Assign(jar1, b.cookie), []);
  }

  /** Every pair of the jar is one a browser stores. */
  predicate WellFormedJar(jar: seq<Cookies.Pair>) {
    forall i :: 0 <= i < |jar| ==> Cookies.WellFormedPair(jar[i])
  }

  /** `setLanguage(lang)`'s cookie, written to the jar, reads back as `lang`; other cookies are untouched. */
  lemma SetLanguageCookie(jar: seq<Cookies.Pair>, p: Provider, lang: string, expiry: string)
    requires WellFormedJar(jar)
    requires ';' !in lang
    ensures WellFormedJar(Cookies.Assign(jar, SetLanguage(p, lang, expiry).1.cookie))
    ensures Cookies.GetCookie(Some(Cookies.JarText(Cookies.Assign(jar, SetLanguage(p, lang, expiry).1.cookie))), LanguageCookie)
            == Some(lang)
  {
    Cookies.SetCookieThenGetCookie(jar, LanguageCookie, lang, LanguageCookieDays, expiry);
  }

  /** What the first effect's `getCookie("app-language")` reads from the jar. */
  function SavedIn(jar: seq<Cookies.Pair>): Option<string> {
    Cookies.GetCookie(Some(Cookies.JarText(jar)), LanguageCookie)
  }

  /** Two `setLanguage` calls in a row: the cookie left behind holds the second language. */
  lemma TwoLanguageWrites(jar: seq<Cookies.Pair>, p: Provider, a: string, b: string, expiry: string)
    requires WellFormedJar(jar)
    requires ';' !in a && ';' !in b
    ensures SavedIn(ApplyCookies(jar, [SetLanguage(p, a, expiry).1, SetLanguage(SetLanguage(p, a, expiry).0, b, expiry).1]))
            == Some(b)
  {
    var (p1, e1) := SetLanguage(p, a, expiry);
    var e2 := SetLanguage(p1, b, expiry).1;
    SetLanguageCookie(jar, p, a, expiry);
    SetLanguageCookie(Cookies.Assign(jar, e1.cookie), p1, b, expiry);
    ApplyTwo(jar, e1, e2);
  }

  /** The mount's two cookie writes, whatever the first one holds, leave `id` behind. */
  lemma MountWritesIndonesian(jar: seq<Cookies.Pair>, saved: Option<string>, expiry: string)
    requires WellFormedJar(jar)
    requires saved.Some? ==> ';' !in saved.value
    ensures SavedIn(ApplyCookies(jar, Mount(saved, expiry).1)) == Some("id")
  {
    var lang := InitialLanguage(saved);
    var p1 := SetLanguage(FirstRender, lang, expiry).0;
    assert Mount(saved, expiry).1 == [SetLanguage(FirstRender, lang, expiry).1, SetLanguage(p1, "id", expiry).1];
    TwoLanguageWrites(jar, FirstRender, lang, "id", expiry);
  }

  /**
   * As written, the mount ends in Indonesian whatever was saved, and the
   * cookie it leaves says `id`: the next visit starts in Indonesian too.
   */
  lemma MountDiscardsSavedLanguage(jar: seq<Cookies.Pair>, expiry: string)
    requires WellFormedJar(jar)
    ensures Mount(SavedIn(jar), expiry).0.language == "id"
    ensures SavedIn(ApplyCookies(jar, Mount(SavedIn(jar), expiry).1)) == Some("id")
  {
    MountWritesIndonesian(jar, SavedIn(jar), expiry);
  }

  /**
   * The switcher's choice of English is lost: its cookie reads back as
   * `en`, yet the next mount ends in Indonesian.
   */
  lemma ChosenEnglishIsLost(jar: seq<Cookies.Pair>, p: Provider, expiry: string)
    requires WellFormedJar(jar)
    ensures InitialLanguage(SavedIn(Cookies.Assign(jar, SetLanguage(p, "en", expiry).1.cookie))) == "en"
    ensures Mount(SavedIn(Cookies.Assign(jar, SetLanguage(p, "en", expiry).1.cookie)), expiry).0.language == "id"
  {
    SetLanguageCookie(jar, p, "en", expiry);
  }

  /**
   * After choosing a language other than `id`, the next mount starts the
   * English load and then the Indonesian one; which table ends up shown
   * depends on which finishes last.
   */
  lemma MountRacesLoads(jar: seq<Cookies.Pair>, p: Provider, lang: string, expiry: string)
    requires WellFormedJar(jar)
    requires lang != "" && lang != "id" && ';' !in lang
    ensures Mount(SavedIn(Cookies.Assign(jar, SetLanguage(p, lang, expiry).1.cookie)), expiry).1[0].load == EnglishFile
    ensures Mount(SavedIn(Cookies.Assign(jar, SetLanguage(p, lang, expiry).1.cookie)), expiry).1[1].load == IndonesianFile
  {
    SetLanguageCookie(jar, p, lang, expiry);
  }

  /**
   * With the intended mount, a saved language is the one the provider ends
   * with, and the cookie the mount leaves still holds it.
   */
  lemma IntendedMountKeepsSaved(jar: seq<Cookies.Pair>, lang: string, expiry: string)
    requires WellFormedJar(jar)
    requires ';' !in lang && lang != ""
    requires SavedIn(jar) == Some(lang)
    ensures MountIntended(SavedIn(jar), expiry).0.language == lang
    ensures SavedIn(ApplyCookies(jar, MountIntended(SavedIn(jar), expiry).1)) == Some(lang)
  {
    var p1 := SetLanguage(FirstRender, lang, expiry).0;
    assert MountIntended(Some(lang), expiry).1 == [SetLanguage(FirstRender, lang, expiry).1, SetLanguage(p1, lang, expiry).1];
    TwoLanguageWrites(jar, FirstRender, lang, lang, expiry);
  }

  /**
   * With the intended mount, a language chosen with `setLanguage` is the
   * one the next visit starts with, and the cookie that mount leaves still
   * holds it.
   */
  lemma LanguagePersists(jar: seq<Cookies.Pair>, p: Provider, lang: string, expiry: string)
    requires WellFormedJar(jar)
    requires ';' !in lang && lang != ""
    ensures var jar1 := Cookies.Assign(jar, SetLanguage(p, lang, expiry).1.cookie);
            && MountIntended(SavedIn(jar1), expiry).0.language == lang
            && SavedIn(ApplyCookies(jar1, MountIntended(SavedIn(jar1), expiry).1)) == Some(lang)
  {
    SetLanguageCookie(jar, p, lang, expiry);
    IntendedMountKeepsSaved(Cookies.Assign(jar, SetLanguage(p, lang, expiry).1.cookie), lang, expiry);
  }

  /** With the intended mount, a saved language other than `id` (even an unsupported one) only loads English. */
  lemma UnsupportedSavedLanguageLoadsEnglish(saved: string, expiry: string)
    requires saved != "" && saved != "id"
    ensures forall i :: 0 <= i < |MountIntended(Some(saved), expiry).1| ==> MountIntended(Some(saved), expiry).1[i].load == EnglishFile
  {
  }
}
