/**
 * The client's localization (src/Core/Structures/Client/Localization.php):
 * the constructor picks the locale from the user, then the browser, then the
 * application settings, and picks a fallback that differs from the locale
 * where it can.
 */
module ClientLocalization {
  import opened Wrappers
  import opened Php

  /** The application-level fallback: app.locale when it differs from the locale, app.fallback_locale otherwise. */
  function AppFallbackFor(locale: Value, appLocale: Value, appFallback: Value): Value
  {
    if appLocale != locale then appLocale else appFallback
  }

  /**
   * The selection as a decision table. userLocale is the user's locale when
   * there is a user, browserLocale the browser's when there is a browser.
   */
  function Choice(userLocale: Option<Value>, browserLocale: Option<Value>, appLocale: Value, appFallback: Value): (Value, Value)
  {
    if userLocale.Some? && Truthy(userLocale.value) then
      var locale := userLocale.value;
      if browserLocale.Some? && Truthy(browserLocale.value) && browserLocale.value != locale then (locale, browserLocale.value)
      else (locale, AppFallbackFor(locale, appLocale, appFallback))
    else if browserLocale.Some? && Truthy(browserLocale.value) then
      (browserLocale.value, AppFallbackFor(browserLocale.value, appLocale, appFallback))
    else (appLocale, appFallback)
  }

  /**
   * The constructor's steps: user, location (which does nothing), browser,
   * then the application settings.
   */
  method SelectLocales(userLocale: Option<Value>, location: Value, browserLocale: Option<Value>,
                       appLocale: Value, appFallback: Value)
    returns (locale: Value, fallback: Value)
    ensures (locale, fallback) == Choice(userLocale, browserLocale, appLocale, appFallback)
  {
    locale := Null;
    fallback := Null;
    if userLocale.Some? {
      locale := userLocale.value;
    }
    if Truthy(location) {
    }
    if browserLocale.Some? {
      if !Truthy(locale) {
        locale := browserLocale.value;
      } else if !Truthy(fallback) {
        if browserLocale.value != locale {
          fallback := browserLocale.value;
        }
      }
    }
    if !Truthy(locale) {
      locale := appLocale;
      fallback := appFallback;
    } else if !Truthy(fallback) {
      if appLocale != locale {
        fallback := appLocale;
      } else {
        fallback := appFallback;
      }
    }
  }

  /** A user's (truthy) locale always wins; otherwise a browser's does; otherwise app.locale. */
  lemma LocalePriority(userLocale: Option<Value>, browserLocale: Option<Value>, appLocale: Value, appFallback: Value)
    ensures userLocale.Some? && Truthy(userLocale.value)
            ==> Choice(userLocale, browserLocale, appLocale, appFallback).0 == userLocale.value
    ensures !(userLocale.Some? && Truthy(userLocale.value)) && browserLocale.Some? && Truthy(browserLocale.value)
            ==> Choice(userLocale, browserLocale, appLocale, appFallback).0 == browserLocale.value
    ensures !(userLocale.Some? && Truthy(userLocale.value)) && !(browserLocale.Some? && Truthy(browserLocale.value))
            ==> Choice(userLocale, browserLocale, appLocale, appFallback) == (appLocale, appFallback)
  {
  }

  /** The fallback equals the locale only when it is app.fallback_locale. */
  lemma FallbackDiffersFromLocale(userLocale: Option<Value>, browserLocale: Option<Value>, appLocale: Value, appFallback: Value)
    ensures var (locale, fallback) := Choice(userLocale, browserLocale, appLocale, appFallback);
            fallback == locale ==> fallback == appFallback
  {
  }

  class Localization {
    var locale: Value
    var fallback: Value

    constructor (browserLocale: Option<Value>, location: Value, userLocale: Option<Value>, appLocale: Value, appFallback: Value)
      ensures (locale, fallback) == Choice(userLocale, browserLocale, appLocale, appFallback)
    {
      var l, f := SelectLocales(userLocale, location, browserLocale, appLocale, appFallback);
      locale := l;
      fallback := f;
    }
  }
}
