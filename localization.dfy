/**
 * Translation lookups of main.py: the per-locale name maps attached to every
 * command (`get_localized_name`, main.py:73-83) and the choice of the message
 * table a handler answers from (main.py:124-125, repeated in every cog).
 */
module Localization {
  import opened Wrappers
  import opened Text

  /** One locale's message file: message key to format string. */
  type Messages = map<string, string>

  /** Every loaded locale directory name to its messages. */
  type Translations = map<string, Messages>

  const DefaultLocale := "en-US"

  /** `lang_code.replace('-', '_').lower()` (main.py:78). */
  function PlatformCode(langCode: string): (r: string)
    ensures |r| == |langCode| && '-' !in r
  {
    Lower(ReplaceChar(langCode, '-', '_'))
  }

  /**
   * The map `get_localized_name(key)` returns after visiting the codes of
   * `order` in turn: `accepted` holds the codes the platform's Locale accepts,
   * and every other code is skipped.
   */
  function LocalizedNames(t: Translations, order: seq<string>, key: string, accepted: set<string>): (r: map<string, string>)
    requires forall i :: 0 <= i < |order| ==> order[i] in t
    ensures r.Keys <= accepted
  {
    if order == [] then map[]
    else
      var names := LocalizedNames(t, order[..|order| - 1], key, accepted);
      var code := order[|order| - 1];
      var locale := PlatformCode(code);
      if key in t[code] && locale in accepted then names[locale := t[code][key]] else names
  }

  /** The entry at index `i` of the visiting order contributes `locale`. */
  ghost predicate Contributes(t: Translations, order: seq<string>, key: string, accepted: set<string>, i: int, locale: string)
    requires forall j :: 0 <= j < |order| ==> order[j] in t
  {
    0 <= i < |order| && key in t[order[i]] && PlatformCode(order[i]) == locale && locale in accepted
  }

  /**
   * `get_localized_name(key)` for the translation table `t` whose codes are
   * visited in the order `order` (the order `TRANSLATIONS.items()` yields them).
   */
  method GetLocalizedName(t: Translations, order: seq<string>, key: string, accepted: set<string>)
    returns (localizations: map<string, string>)
    requires forall i :: 0 <= i < |order| ==> order[i] in t
    ensures localizations == LocalizedNames(t, order, key, accepted)
  {
    localizations := map[];
    var n := 0;
    while n < |order|
      invariant 0 <= n <= |order|
      invariant localizations == LocalizedNames(t, order[..n], key, accepted)
    {
      var langCode := order[n];
      var messages := t[langCode];
      if key in messages {
        var locale := PlatformCode(langCode);
        if locale in accepted {
          localizations := localizations[locale := messages[key]];
        }
      }
      assert order[..n + 1][..n] == order[..n];
      n := n + 1;
    }
    assert order[..n] == order;
  }

  /**
   * A platform locale is in the map exactly when some language table that
   * contains `key` normalises to it and the platform accepts it; its value is
   * that of the last such table visited.
   */
  lemma {:induction false} LocalizedNamesExactly(t: Translations, order: seq<string>, key: string, accepted: set<string>, locale: string)
    requires forall i :: 0 <= i < |order| ==> order[i] in t
    ensures locale in LocalizedNames(t, order, key, accepted)
      <==> exists i :: Contributes(t, order, key, accepted, i, locale)
    ensures forall i ::
      (Contributes(t, order, key, accepted, i, locale)
        && forall j :: i < j < |order| ==> !Contributes(t, order, key, accepted, j, locale))
      ==> LocalizedNames(t, order, key, accepted)[locale] == t[order[i]][key]
    decreases |order|
  {
    if order != [] {
      var init := order[..|order| - 1];
      var last := |order| - 1;
      LocalizedNamesExactly(t, init, key, accepted, locale);
      forall i | 0 <= i < last
        ensures Contributes(t, init, key, accepted, i, locale) == Contributes(t, order, key, accepted, i, locale)
      {
        assert init[i] == order[i];
      }
      if Contributes(t, order, key, accepted, last, locale) {
        assert locale in LocalizedNames(t, order, key, accepted);
      } else {
        if exists i :: Contributes(t, order, key, accepted, i, locale) {
          var i :| Contributes(t, order, key, accepted, i, locale);
          assert Contributes(t, init, key, accepted, i, locale);
        }
      }
    }
  }

  /**
   * When the visiting order covers every loaded code, as `TRANSLATIONS.items()`
   * does, a platform locale is in the map exactly when some loaded table that
   * contains `key` normalises to it and the platform accepts it.
   */
  lemma LocalizedNamesOfTable(t: Translations, order: seq<string>, key: string, accepted: set<string>, locale: string)
    requires forall i :: 0 <= i < |order| ==> order[i] in t
    requires forall code :: code in t ==> code in order
    ensures locale in LocalizedNames(t, order, key, accepted)
      <==> exists code :: code in t && key in t[code] && PlatformCode(code) == locale && locale in accepted
  {
    LocalizedNamesExactly(t, order, key, accepted, locale);
    if exists code :: code in t && key in t[code] && PlatformCode(code) == locale && locale in accepted {
      var code :| code in t && key in t[code] && PlatformCode(code) == locale && locale in accepted;
      var i :| 0 <= i < |order| && order[i] == code;
      assert Contributes(t, order, key, accepted, i, locale);
    }
    if exists i :: Contributes(t, order, key, accepted, i, locale) {
      var i :| Contributes(t, order, key, accepted, i, locale);
      assert order[i] in t && key in t[order[i]] && PlatformCode(order[i]) == locale;
    }
  }

  /** A message table that may be missing: `TRANSLATIONS['en-US']` raises KeyError when there is none. */
  datatype LookupError = MissingDefaultTable

  /**
   * The table a handler answers from. `localeFound` is the value of
   * `interaction.locale in TRANSLATIONS` and `locale` the text of
   * `str(interaction.locale)`. The fallback `discord.Locale.english_us` is taken
   * to have the text "en-US"; that is the platform library's value, not shown here.
   */
  function ResolveMessages(t: Translations, locale: string, localeFound: bool): (r: Result<Messages, LookupError>)
    ensures r.Failure? <==> DefaultLocale !in t
    ensures r.Success? ==>
      var code := ReplaceChar(if localeFound then locale else DefaultLocale, '_', '-');
      (code in t && r.value == t[code]) || (code !in t && r.value == t[DefaultLocale])
    ensures r.Success? && !localeFound ==> r.value == t[DefaultLocale]
  {
    var chosen := if localeFound then locale else DefaultLocale;
    // The default argument of `get` is evaluated first, so a missing en-US table fails every lookup.
    if DefaultLocale !in t then Failure(MissingDefaultTable)
    else
      var code := ReplaceChar(chosen, '_', '-');
      assert ReplaceChar(DefaultLocale, '_', '-') == DefaultLocale;
      Success(if code in t then t[code] else t[DefaultLocale])
  }

  /** The fallback is to the whole en-US table, never key by key. */
  lemma NoPerKeyFallback(t: Translations, locale: string, key: string)
    requires DefaultLocale in t && key in t[DefaultLocale]
    requires ReplaceChar(locale, '_', '-') in t && key !in t[ReplaceChar(locale, '_', '-')]
    ensures ResolveMessages(t, locale, true).Success?
    ensures key !in ResolveMessages(t, locale, true).value
  {
  }
}
