/**
 * The localization manager (edmunds/localization/localizationmanager.py):
 * locale strings are normalised ("en-us" becomes "en_US"), gathered from the
 * browser's Accept-Language values, the user agent and the configured and
 * ultimate ("en_US") fallbacks, each followed by its bare language as a
 * backup, and the first preferred one is chosen.
 *
 * The language backup is written as a single-target unpack of the split
 * locale, which raises ValueError for every locale that contains '_'. The
 * functions named ...AsWritten model that; the rest of the model uses the
 * evidently intended first part of the split.
 */
module LocalizationManager {
  import opened Wrappers
  import opened Text

  datatype LocaleError =
    /** The single-target unpack of a split with more than one part. */
    | ValueError
    | NoPreferredLocales
    | NoSupportedLocales
    | NoSupportedMatch

  /** The parts before the first empty one. */
  function TakeUntilEmpty(parts: seq<string>): (kept: seq<string>)
    ensures |kept| <= |parts| && kept == parts[..|kept|]
    ensures forall i :: 0 <= i < |kept| ==> kept[i] != ""
    ensures |kept| < |parts| ==> parts[|kept|] == ""
    decreases |parts|
  {
    if parts == [] || parts[0] == "" then [] else [parts[0]] + TakeUntilEmpty(parts[1..])
  }

  /** The prefix TakeUntilEmpty keeps is the one that ends at the first empty part. */
  lemma TakeUntilEmptyAt(parts: seq<string>, n: nat)
    requires n <= |parts|
    requires forall i :: 0 <= i < n ==> parts[i] != ""
    requires n < |parts| ==> parts[n] == ""
    ensures TakeUntilEmpty(parts) == parts[..n]
  {
    var kept := TakeUntilEmpty(parts);
  }

  function UpperAll(parts: seq<string>): (upper: seq<string>)
    ensures |upper| == |parts|
  {
    seq(|parts|, i requires 0 <= i < |parts| => Upper(parts[i]))
  }

  /**
   * _normalize_locale: None for an empty or missing string or an empty first
   * part; otherwise '-' becomes '_', the first part is lower-cased, the
   * following parts up to the first empty one are upper-cased, and the parts
   * are joined with '_'.
   */
  function Normalize(locale: Option<string>): (r: Option<string>)
  {
    if locale.None? || locale.value == "" then None
    else
      var parts := Split(ReplaceChar(locale.value, '-', '_'), '_');
      if parts[0] == "" then None
      else Some(Join([Lower(parts[0])] + UpperAll(TakeUntilEmpty(parts[1..])), "_"))
  }

  /** _normalize_locale, with its loop that stops at the first empty part. */
  method NormalizeLocale(locale: Option<string>) returns (r: Option<string>)
    ensures r == Normalize(locale)
  {
    if locale.None? || locale.value == "" {
      return None;
    }
    var parts := Split(ReplaceChar(locale.value, '-', '_'), '_');
    if parts[0] == "" {
      return None;
    }
    var processed := [Lower(parts[0])];
    var i := 1;
    while i < |parts|
      invariant 1 <= i <= |parts|
      invariant forall k :: 1 <= k < i ==> parts[k] != ""
      invariant processed == [Lower(parts[0])] + UpperAll(parts[1..i])
    {
      if parts[i] == "" {
        break;
      }
      assert UpperAll(parts[1..i + 1]) == UpperAll(parts[1..i]) + [Upper(parts[i])];
      processed := processed + [Upper(parts[i])];
      i := i + 1;
    }
    TakeUntilEmptyAt(parts[1..], i - 1);
    assert parts[1..][..i - 1] == parts[1..i];
    r := Some(Join(processed, "_"));
  }

  /** The normalised parts: none is empty, none holds '_' or '-'. */
  predicate CleanParts(parts: seq<string>)
  {
    forall i :: 0 <= i < |parts| ==> parts[i] != "" && '_' !in parts[i] && '-' !in parts[i]
  }

  /** The parts a normalised locale is joined from. */
  lemma {:induction false} NormalizedParts(locale: string)
    requires Normalize(Some(locale)).Some?
    ensures var parts := Split(ReplaceChar(locale, '-', '_'), '_');
            var out := [Lower(parts[0])] + UpperAll(TakeUntilEmpty(parts[1..]));
            CleanParts(out) && |out| >= 1 && Normalize(Some(locale)) == Some(Join(out, "_"))
  {
    var replaced := ReplaceChar(locale, '-', '_');
    var parts := Split(replaced, '_');
    var kept := TakeUntilEmpty(parts[1..]);
    var out := [Lower(parts[0])] + UpperAll(kept);
    ReplaceRemovesChar(locale, '-', '_');
    SplitPartsHaveNoSeparator(replaced, '_');
    forall i | 0 <= i < |out|
      ensures out[i] != "" && '_' !in out[i] && '-' !in out[i]
    {
      var idx := if i == 0 then 0 else i;
      if i > 0 {
        assert kept[i - 1] == parts[1..][i - 1] == parts[i];
      }
      var source := parts[idx];
      assert out[i] == (if i == 0 then Lower(source) else Upper(source));
      PartIsInSplitSource(replaced, '_', idx);
      assert '-' !in source;
      assert '_' !in source;
      CaseKeepsNonLetter(source, '_');
      CaseKeepsNonLetter(source, '-');
    }
  }

  /** Every character of a split part occurs in the split string. */
  lemma {:induction false} PartIsInSplitSource(s: string, sep: char, k: nat)
    requires k < |Split(s, sep)|
    ensures forall c :: c in Split(s, sep)[k] ==> c in s
    decreases |s|
  {
    if s != [] {
      var rest := Split(s[1..], sep);
      if s[0] == sep {
        if k > 0 {
          PartIsInSplitSource(s[1..], sep, k - 1);
        }
      } else if k == 0 {
        PartIsInSplitSource(s[1..], sep, 0);
      } else {
        PartIsInSplitSource(s[1..], sep, k);
      }
    }
  }

  /** Joining clean parts and normalising gives the same string back: normalisation is idempotent. */
  lemma {:induction false} NormalizeClean(parts: seq<string>)
    requires |parts| >= 1 && CleanParts(parts)
    requires Lower(parts[0]) == parts[0]
    requires forall i :: 1 <= i < |parts| ==> Upper(parts[i]) == parts[i]
    ensures Normalize(Some(Join(parts, "_"))) == Some(Join(parts, "_"))
  {
    var s := Join(parts, "_");
    assert NoPartContains(parts, '-');
    assert NoPartContains(parts, '_');
    JoinAvoids(parts, "_", '-');
    ReplaceAbsentChar(s, '-', '_');
    SplitJoin(parts, '_');
    assert s != "" by {
      if |parts| > 1 {
        assert |s| >= |parts[0]|;
      }
    }
    TakeUntilEmptyAt(parts[1..], |parts| - 1);
    assert parts[1..][..|parts| - 1] == parts[1..];
    assert UpperAll(parts[1..]) == parts[1..];
    assert [Lower(parts[0])] + UpperAll(parts[1..]) == parts;
  }

  lemma NormalizeIdempotent(locale: Option<string>)
    ensures Normalize(locale).Some? ==> Normalize(Normalize(locale)) == Normalize(locale)
  {
    if Normalize(locale).Some? {
      var parts := Split(ReplaceChar(locale.value, '-', '_'), '_');
      var out := [Lower(parts[0])] + UpperAll(TakeUntilEmpty(parts[1..]));
      NormalizedParts(locale.value);
      LowerIdempotent(parts[0]);
      forall i | 1 <= i < |out|
        ensures Upper(out[i]) == out[i]
      {
        UpperIdempotent(TakeUntilEmpty(parts[1..])[i - 1]);
      }
      NormalizeClean(out);
    }
  }

  /** A normalised locale is never empty and holds no '-'. */
  lemma NormalizedShape(locale: Option<string>)
    ensures Normalize(locale).Some? ==> Normalize(locale).value != "" && '-' !in Normalize(locale).value
    ensures locale.None? || locale == Some("") ==> Normalize(locale).None?
  {
    if Normalize(locale).Some? {
      var parts := Split(ReplaceChar(locale.value, '-', '_'), '_');
      var out := [Lower(parts[0])] + UpperAll(TakeUntilEmpty(parts[1..]));
      NormalizedParts(locale.value);
      assert NoPartContains(out, '-');
      JoinAvoids(out, "_", '-');
      if |out| > 1 {
        assert Join(out, "_") == out[0] + "_" + Join(out[1..], "_");
      }
    }
  }

  /** "en-us" becomes "en_US". */
  lemma NormalizeDashed()
    ensures Normalize(Some("en-us")) == Some("en_US")
  {
    assert ReplaceChar("en-us", '-', '_') == "en_us";
    assert Join(["en", "us"], "_") == "en_us";
    SplitJoin(["en", "us"], '_');
    assert Lower("en") == "en";
    TakeUntilEmptyAt(["us"], 1);
    assert Upper("us") == "US" by {
      assert Upper("us")[0] == 'U' && Upper("us")[1] == 'S';
    }
    assert UpperAll(["us"]) == ["US"];
    assert Join(["en", "US"], "_") == "en_US";
  }

  /** "en__US" becomes "en": the parts after the first empty one are dropped. */
  lemma NormalizeDropsAfterEmptyPart()
    ensures Normalize(Some("en__US")) == Some("en")
  {
    ReplaceAbsentChar("en__US", '-', '_');
    assert Join(["en", "", "US"], "_") == "en__US";
    SplitJoin(["en", "", "US"], '_');
    assert Lower("en") == "en";
  }

  /** The ultimate fallback is already normal. */
  lemma NormalizeUltimateFallback()
    ensures Normalize(Some("en_US")) == Some("en_US")
  {
    ReplaceAbsentChar("en_US", '-', '_');
    assert Join(["en", "US"], "_") == "en_US";
    SplitJoin(["en", "US"], '_');
    assert Lower("en") == "en";
    TakeUntilEmptyAt(["US"], 1);
    assert Upper("US") == "US" by {
      assert Upper("US")[0] == 'U' && Upper("US")[1] == 'S';
    }
    assert UpperAll(["US"]) == ["US"];
  }

  /** The bare language of a locale: the part before the first '_'. */
  function Language(locale: string): string
  {
    Split(locale, '_')[0]
  }

  /** A locale followed by its bare language when it has a territory. */
  function WithLanguage(locale: string): (strings: seq<string>)
    ensures |strings| == (if '_' in locale then 2 else 1)
    ensures strings[0] == locale
  {
    [locale] + (if '_' in locale then [Language(locale)] else [])
  }

  /** The Accept-Language values, normalised, with the ones that normalise to nothing dropped. */
  function NormalizedAll(values: seq<string>): (locales: seq<string>)
    ensures |locales| <= |values|
    decreases |values|
  {
    if values == [] then []
    else
      var n := Normalize(Some(values[|values| - 1]));
      NormalizedAll(values[..|values| - 1]) + (if n.Some? then [n.value] else [])
  }

  /** The language backups of a list of locales: for each one with a territory, its non-empty language. */
  function Backups(locales: seq<string>): seq<string>
    decreases |locales|
  {
    if locales == [] then []
    else
      var l := locales[|locales| - 1];
      Backups(locales[..|locales| - 1]) + (if '_' in l && Language(l) != "" then [Language(l)] else [])
  }

  /** _get_browser_accept_locale_strings, as evidently intended. */
  function BrowserStrings(values: seq<string>): seq<string>
  {
    NormalizedAll(values) + Backups(NormalizedAll(values))
  }

  /** The backup loop of _get_browser_accept_locale_strings, appending to a copy of the locales. */
  method GetBrowserAcceptLocaleStrings(values: seq<string>) returns (preferred: seq<string>)
    ensures preferred == BrowserStrings(values)
  {
    var browserLocales := NormalizedAll(values);
    preferred := browserLocales;
    var i := 0;
    while i < |browserLocales|
      invariant 0 <= i <= |browserLocales|
      invariant preferred == browserLocales + Backups(browserLocales[..i])
    {
      var l := browserLocales[i];
      assert browserLocales[..i + 1][..i] == browserLocales[..i];
      if '_' in l {
        var language := Language(l);
        if language != "" {
          preferred := preferred + [language];
        }
      }
      i := i + 1;
    }
    assert browserLocales[..i] == browserLocales;
  }

  /** _get_user_agent_locale_strings and each half of _get_fallback_locale_strings: the normalised locale and its language. */
  function LocaleStrings(locale: Option<string>): (strings: seq<string>)
    ensures Normalize(locale).None? ==> strings == []
    ensures Normalize(locale).Some? ==> |strings| >= 1 && strings[0] == Normalize(locale).value
  {
    match Normalize(locale)
    case None => []
    case Some(l) => WithLanguage(l)
  }

  const UltimateFallback: string := "en_US"

  /** The ultimate fallback contributes "en_US" and its language "en". */
  lemma UltimateFallbackStrings()
    ensures LocaleStrings(Some(UltimateFallback)) == ["en_US", "en"]
  {
    NormalizeUltimateFallback();
    assert '_' in UltimateFallback by {
      assert UltimateFallback[2] == '_';
    }
    assert Language(UltimateFallback) == "en" by {
      assert Join(["en", "US"], "_") == UltimateFallback;
      SplitJoin(["en", "US"], '_');
    }
  }

  /** _get_fallback_locale_strings: the configured fallback's strings, then the ultimate fallback's. */
  function FallbackStrings(configFallback: Option<string>): (strings: seq<string>)
    ensures |strings| >= 2 && strings[|strings| - 2..] == ["en_US", "en"]
  {
    UltimateFallbackStrings();
    LocaleStrings(configFallback) + LocaleStrings(Some(UltimateFallback))
  }

  /** All preferred locale strings, in order: browser, user agent, fallbacks. */
  function Preferred(values: seq<string>, userAgent: Option<string>, configFallback: Option<string>): seq<string>
  {
    BrowserStrings(values) + LocaleStrings(userAgent) + FallbackStrings(configFallback)
  }

  /** The preferred list is never empty, and it starts with the browser's first locale when there is one. */
  lemma PreferredStartsWithBrowser(values: seq<string>, userAgent: Option<string>, configFallback: Option<string>)
    ensures |Preferred(values, userAgent, configFallback)| >= 2
    ensures NormalizedAll(values) != [] ==> Preferred(values, userAgent, configFallback)[0] == NormalizedAll(values)[0]
  {
    var browser := BrowserStrings(values);
    var fallback := FallbackStrings(configFallback);
    assert Preferred(values, userAgent, configFallback) == browser + LocaleStrings(userAgent) + fallback;
    assert |fallback| >= 2;
    if NormalizedAll(values) != [] {
      assert browser[0] == NormalizedAll(values)[0];
    }
  }

  /**
   * _locale, as evidently intended, up to Locale.parse (which is not part of
   * this model): negotiate stands for Locale.negotiate.
   */
  function ChooseLocale(fromSupportedLocales: bool, values: seq<string>, userAgent: Option<string>,
                        configFallback: Option<string>, supported: seq<string>,
                        negotiate: (seq<string>, seq<string>) -> Option<string>): (r: Result<string, LocaleError>)
    ensures r != Err(ValueError)
  {
    var preferred := Preferred(values, userAgent, configFallback);
    if preferred == [] then Err(NoPreferredLocales)
    else if fromSupportedLocales then
      if supported == [] then Err(NoSupportedLocales)
      else
        match negotiate(preferred, supported)
        case None => Err(NoSupportedMatch)
        case Some(wanted) => Ok(wanted)
    else Ok(preferred[0])
  }

  /**
   * With the intended backups there is always a preferred locale, and without
   * the supported filter the first one is chosen: the first normalised
   * Accept-Language value when there is one, "en_US" at worst.
   */
  lemma ChooseLocaleWithoutSupported(values: seq<string>, userAgent: Option<string>, configFallback: Option<string>,
                                     supported: seq<string>, negotiate: (seq<string>, seq<string>) -> Option<string>)
    ensures ChooseLocale(false, values, userAgent, configFallback, supported, negotiate)
         == Ok(Preferred(values, userAgent, configFallback)[0])
    ensures NormalizedAll(values) != []
            ==> ChooseLocale(false, values, userAgent, configFallback, supported, negotiate) == Ok(NormalizedAll(values)[0])
    ensures ChooseLocale(true, values, userAgent, configFallback, supported, negotiate) != Err(NoPreferredLocales)
  {
    PreferredStartsWithBrowser(values, userAgent, configFallback);
  }

  /** Python's single-target unpack "x, = parts": a ValueError unless there is exactly one part. */
  function UnpackSingle(parts: seq<string>): (r: Result<string, LocaleError>)
    ensures r.Ok? <==> |parts| == 1
  {
    if |parts| == 1 then Ok(parts[0]) else Err(ValueError)
  }

  /** The language backup as written: it unpacks the split of a locale that contains '_'. */
  function BackupAsWritten(locale: string): Result<seq<string>, LocaleError>
  {
    if '_' in locale then
      match UnpackSingle(Split(locale, '_'))
      case Err(e) => Err(e)
      case Ok(language) => Ok(if language != "" then [language] else [])
    else Ok([])
  }

  /** The backup as written fails exactly for the locales that have a territory. */
  lemma BackupAsWrittenFails(locale: string)
    ensures BackupAsWritten(locale).Err? <==> '_' in locale
  {
    SplitCountsSeparator(locale, '_');
  }

  function LocaleStringsAsWritten(locale: Option<string>): Result<seq<string>, LocaleError>
  {
    match Normalize(locale)
    case None => Ok([])
    case Some(l) =>
      match BackupAsWritten(l)
      case Err(e) => Err(e)
      case Ok(backup) => Ok([l] + backup)
  }

  function BrowserStringsAsWritten(values: seq<string>): Result<seq<string>, LocaleError>
  {
    var locales := NormalizedAll(values);
    if exists i :: 0 <= i < |locales| && '_' in locales[i] then Err(ValueError) else Ok(locales)
  }

  function FallbackStringsAsWritten(configFallback: Option<string>): Result<seq<string>, LocaleError>
  {
    match LocaleStringsAsWritten(configFallback)
    case Err(e) => Err(e)
    case Ok(strings) =>
      match LocaleStringsAsWritten(Some(UltimateFallback))
      case Err(e) => Err(e)
      case Ok(ultimate) => Ok(strings + ultimate)
  }

  /** _locale as written: each list is computed in turn, the first exception ends it. */
  function ChooseLocaleAsWritten(fromSupportedLocales: bool, values: seq<string>, userAgent: Option<string>,
                                 configFallback: Option<string>, supported: seq<string>,
                                 negotiate: (seq<string>, seq<string>) -> Option<string>): Result<string, LocaleError>
  {
    match BrowserStringsAsWritten(values)
    case Err(e) => Err(e)
    case Ok(browser) =>
      match LocaleStringsAsWritten(userAgent)
      case Err(e) => Err(e)
      case Ok(agent) =>
        match FallbackStringsAsWritten(configFallback)
        case Err(e) => Err(e)
        case Ok(fallback) =>
          var preferred := browser + agent + fallback;
          if preferred == [] then Err(NoPreferredLocales)
          else if fromSupportedLocales then
            if supported == [] then Err(NoSupportedLocales)
            else
              match negotiate(preferred, supported)
              case None => Err(NoSupportedMatch)
              case Some(wanted) => Ok(wanted)
          else Ok(preferred[0])
  }

  /** As written, the ultimate fallback "en_US" always reaches the unpack, so choosing a locale always raises ValueError. */
  lemma ChooseLocaleAsWrittenAlwaysFails(fromSupportedLocales: bool, values: seq<string>, userAgent: Option<string>,
                                         configFallback: Option<string>, supported: seq<string>,
                                         negotiate: (seq<string>, seq<string>) -> Option<string>)
    ensures FallbackStringsAsWritten(configFallback) == Err(ValueError)
    ensures ChooseLocaleAsWritten(fromSupportedLocales, values, userAgent, configFallback, supported, negotiate) == Err(ValueError)
  {
    NormalizeUltimateFallback();
    BackupAsWrittenFails(UltimateFallback);
    assert '_' in UltimateFallback by {
      assert UltimateFallback[2] == '_';
    }
    assert BackupAsWritten(UltimateFallback) == Err(ValueError);
    assert LocaleStringsAsWritten(Some(UltimateFallback)) == Err(ValueError);
    match LocaleStringsAsWritten(userAgent)
    case Err(e) =>
      assert e == ValueError by {
        var l := Normalize(userAgent).value;
        assert BackupAsWritten(l) == Err(e);
      }
    case Ok(_) =>
  }

  /**
   * location: None when app.localization.location.enabled is falsy, otherwise
   * the location manager's driver, asked for by name and with the
   * no_instance_error flag passed through.
   */
  function Location<D>(enabled: bool, getDriver: (Option<string>, bool) -> D,
                       name: Option<string> := None, noInstanceError: bool := false): (r: Option<D>)
    ensures r.Some? <==> enabled
    ensures r.Some? ==> r.value == getDriver(name, noInstanceError)
  {
    if !enabled then None else Some(getDriver(name, noInstanceError))
  }
}
