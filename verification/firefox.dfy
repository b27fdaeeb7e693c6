/**
 * `BrowserFactory::Firefox`: the configuration keys the Firefox factory
 * recognises (its default bindings) and how `browser_options` turns them
 * into Firefox profile preferences. The profile is the map of preferences
 * written to it.
 */
module Firefox {
  import opened Config
  import opened Decimal

  const TimeoutKey := "browser_timeout"
  const LanguageKey := "browser_language"
  const UserAgentKey := "browser_user_agent"

  const ScriptRunTime := "dom.max_script_run_time"
  const ChromeScriptRunTime := "dom.max_chrome_script_run_time"
  const AcceptLanguages := "intl.accept_languages"
  const UserAgentOverride := "general.useragent.override"

  /** A profile preference value: Firefox distinguishes integer and string preferences. */
  datatype Preference = IntPref(number: int) | StrPref(text: string)

  type Profile = map<string, Preference>

  /** `Firefox.default_bindings`: the configuration keys the factory binds. */
  function DefaultBindings(): (keys: set<Key>)
    ensures forall k :: k in keys ==> |PreferenceNames(k)| > 0
  {
    {TimeoutKey, LanguageKey, UserAgentKey}
  }

  /** The preferences the binding for `key` writes; none for a key that is not bound. */
  function PreferenceNames(key: Key): set<string> {
    if key == TimeoutKey then {ScriptRunTime, ChromeScriptRunTime}
    else if key == LanguageKey then {AcceptLanguages}
    else if key == UserAgentKey then {UserAgentOverride}
    else {}
  }

  /** A binding applies when its key holds a value. */
  predicate Configured(c: Configuration, key: Key) {
    Get(c, key).Str?
  }

  /** The preferences one binding writes: for `key`'s value, when it holds one, each name gets `pref` of that value. */
  function Bind(c: Configuration, key: Key, names: set<string>, pref: string -> Preference): (p: Profile)
    ensures Configured(c, key) ==> p.Keys == names
    ensures !Configured(c, key) ==> p == map[]
    ensures forall n :: n in p ==> p[n] == pref(Get(c, key).text)
  {
    match Get(c, key)
    case Str(v) => map n | n in names :: pref(v)
    case Nil => map[]
  }

  function TimeoutPref(t: string): Preference {
    IntPref(ToI(t))
  }

  function TextPref(t: string): Preference {
    StrPref(t)
  }

  /**
   * `Firefox#browser_options(config)`, as the preferences it writes to the
   * profile: the timeout, read with `String#to_i`, as both script run-time
   * limits; the language and the user agent verbatim. Only configured keys
   * write anything.
   */
  function BrowserOptions(c: Configuration): (p: Profile)
    ensures p.Keys <= {ScriptRunTime, ChromeScriptRunTime, AcceptLanguages, UserAgentOverride}
    ensures ScriptRunTime in p <==> Configured(c, TimeoutKey)
    ensures ChromeScriptRunTime in p <==> Configured(c, TimeoutKey)
    ensures AcceptLanguages in p <==> Configured(c, LanguageKey)
    ensures UserAgentOverride in p <==> Configured(c, UserAgentKey)
    ensures Configured(c, TimeoutKey) ==>
      && p[ScriptRunTime] == IntPref(ToI(Get(c, TimeoutKey).text))
      && p[ChromeScriptRunTime] == IntPref(ToI(Get(c, TimeoutKey).text))
    ensures Configured(c, LanguageKey) ==> p[AcceptLanguages] == StrPref(Get(c, LanguageKey).text)
    ensures Configured(c, UserAgentKey) ==> p[UserAgentOverride] == StrPref(Get(c, UserAgentKey).text)
  {
    var timeout := Bind(c, TimeoutKey, {ScriptRunTime, ChromeScriptRunTime}, TimeoutPref);
    var language := Bind(c, LanguageKey, {AcceptLanguages}, TextPref);
    var agent := Bind(c, UserAgentKey, {UserAgentOverride}, TextPref);
    assert AcceptLanguages !in timeout && UserAgentOverride !in timeout && UserAgentOverride !in language;
    assert ScriptRunTime !in language && ChromeScriptRunTime !in language;
    assert ScriptRunTime !in agent && ChromeScriptRunTime !in agent && AcceptLanguages !in agent;
    timeout + language + agent
  }

  /**
   * The preferences written are exactly those of the bindings whose keys
   * are configured: no other preference is touched.
   */
  lemma WritesExactlyConfiguredBindings(c: Configuration)
    ensures forall name :: name in BrowserOptions(c) <==>
      exists k :: k in DefaultBindings() && Configured(c, k) && name in PreferenceNames(k)
  {
    var p := BrowserOptions(c);
    forall name, k | k in DefaultBindings() && Configured(c, k) && name in PreferenceNames(k)
      ensures name in p
    {
    }
    forall name | name in p
      ensures exists k :: k in DefaultBindings() && Configured(c, k) && name in PreferenceNames(k)
    {
      if name == ScriptRunTime || name == ChromeScriptRunTime {
        assert name in PreferenceNames(TimeoutKey);
      } else if name == AcceptLanguages {
        assert name in PreferenceNames(LanguageKey);
      } else {
        assert name in PreferenceNames(UserAgentKey);
      }
    }
  }

  /** A timeout written as a decimal number sets both limits to exactly that number. */
  lemma TimeoutRoundTrip(c: Configuration, seconds: int)
    requires Get(c, TimeoutKey) == Str(ShowInt(seconds))
    ensures BrowserOptions(c)[ScriptRunTime] == IntPref(seconds)
    ensures BrowserOptions(c)[ChromeScriptRunTime] == IntPref(seconds)
  {
    ToIOfShowInt(seconds);
  }

  /** `default_bindings` includes the language, the timeout and the user agent. */
  lemma DefaultBindingsExample()
    ensures LanguageKey in DefaultBindings() && TimeoutKey in DefaultBindings() && UserAgentKey in DefaultBindings()
  {
  }

  /** `browser_timeout: '30'` writes the integer 30 to both script run-time limits, and nothing else. */
  lemma TimeoutExample()
    ensures BrowserOptions(map[TimeoutKey := Str("30")]) == map[ScriptRunTime := IntPref(30), ChromeScriptRunTime := IntPref(30)]
  {
    assert Show(30) == "30";
    TimeoutRoundTrip(map[TimeoutKey := Str("30")], 30);
  }

  /** `browser_language: 'eo'` writes exactly `intl.accept_languages = 'eo'`. */
  lemma LanguageExample()
    ensures BrowserOptions(map[LanguageKey := Str("eo")]) == map[AcceptLanguages := StrPref("eo")]
  {
  }

  /** `browser_user_agent: 'FooBot'` writes exactly `general.useragent.override = 'FooBot'`. */
  lemma UserAgentExample()
    ensures BrowserOptions(map[UserAgentKey := Str("FooBot")]) == map[UserAgentOverride := StrPref("FooBot")]
  {
  }
}
