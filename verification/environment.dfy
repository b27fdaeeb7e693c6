/**
 * `MediawikiSelenium::Environment`: a configuration store plus a cache of
 * browser factories. Environments are values here; what the Ruby objects
 * share by reference (the factory cache, which `clone` does not copy) is kept
 * in a `World` and named by a `CacheRef`.
 */
module Environments {
  import opened Wrappers
  import opened Config
  import opened Errors

  /** Names one factory cache object in the world. */
  type CacheRef = nat

  datatype Environment = Environment(config: Configuration, cache: CacheRef)

  /** Which variant of a browser factory: remote or local, and the browser type. */
  datatype CacheKey = CacheKey(remote: bool, browser: string)

  /** A browser factory instance; `id` is its object identity (Ruby's `equal?`). */
  datatype Factory = Factory(id: nat, browser: string, remote: bool)

  /** One entry of one factory cache: the cache it belongs to and its key there. */
  datatype Slot = Slot(cache: CacheRef, key: CacheKey)

  /**
   * Every factory cache in existence (`caches`, the caches issued so far, and
   * `entries`, what they hold), and the counters that issue fresh caches and
   * factories.
   */
  datatype World = World(caches: set<CacheRef>, entries: map<Slot, Factory>, nextRef: CacheRef, nextId: nat)

  /** The configuration keys the environment reads itself. */
  const BrowserKey := "browser"
  const UserKey := "mediawiki_user"
  const PasswordKey := "mediawiki_password"
  const UrlKey := "mediawiki_url"
  const ApiUrlKey := "mediawiki_api_url"

  /**
   * The world is well formed: every cache and factory was issued by the
   * counters, every cached factory matches its key, and no factory object is
   * cached in two places.
   */
  predicate Valid(w: World) {
    && (forall r :: r in w.caches ==> r < w.nextRef)
    && (forall s :: s in w.entries ==>
          && s.cache in w.caches
          && w.entries[s].id < w.nextId
          && w.entries[s].browser == s.key.browser
          && w.entries[s].remote == s.key.remote)
    && (forall s1, s2 :: s1 in w.entries && s2 in w.entries && w.entries[s1].id == w.entries[s2].id ==> s1 == s2)
  }

  /** The world before any environment exists. */
  function EmptyWorld(): (w: World)
    ensures Valid(w) && w.caches == {} && w.entries == map[]
  {
    World({}, map[], 0, 0)
  }

  /** `Environment.new(config)`: a new environment with a cache of its own, initially empty. */
  function NewEnvironment(w: World, config: Configuration): (r: (Environment, World))
    requires Valid(w)
    ensures var (e, w') := r;
      && Valid(w')
      && e.config == config
      && e.cache !in w.caches && w'.caches == w.caches + {e.cache}
      && w'.entries == w.entries
  {
    var e := Environment(config, w.nextRef);
    (e, w.(caches := w.caches + {w.nextRef}, nextRef := w.nextRef + 1))
  }

  /**
   * `Environment#==`: two environments are equal when their configurations
   * are, that is when they hold the same keys with the same values; the
   * factory caches play no part.
   */
  function Equals(a: Environment, b: Environment): (r: bool)
    ensures r <==> a.config.Keys == b.config.Keys && forall k :: k in a.config ==> a.config[k] == b.config[k]
  {
    a.config == b.config
  }

  /**
   * `Environment#clone`: a copy of the configuration, and the SAME factory
   * cache, since a shallow copy of the Ruby object shares the cache hash.
   */
  function Clone(e: Environment): (c: Environment)
    ensures Equals(c, e) && c.cache == e.cache
  {
    Environment(e.config, e.cache)
  }

  /** Environments built from one configuration are equal, whatever their caches. */
  lemma EqualitySameConfiguration(w: World, config: Configuration)
    requires Valid(w)
    ensures var (a, w1) := NewEnvironment(w, config);
      var (b, w2) := NewEnvironment(w1, config);
      Equals(a, b) && a.cache != b.cache
  {
  }

  /** Merging any key the configuration lacks makes the environments unequal. */
  lemma EqualityExtraKey(a: Environment, b: Environment, key: Key, v: Value)
    requires key !in a.config
    requires b.config == Merge(a.config, map[key := v])
    ensures !Equals(a, b)
  {
    assert key in b.config;
  }

  // ---------------------------------------------------------------- browser name

  function Lower(c: char): (d: char)
    ensures !('A' <= d <= 'Z')
  {
    if 'A' <= c <= 'Z' then (c as int - 'A' as int + 'a' as int) as char else c
  }

  /** `String#downcase`, on ASCII letters. */
  function Downcase(s: string): (r: string)
    ensures |r| == |s|
    ensures forall i :: 0 <= i < |s| ==> r[i] == Lower(s[i])
  {
    seq(|s|, i requires 0 <= i < |s| => Lower(s[i]))
  }

  predicate IsLowercase(s: string) {
    forall i :: 0 <= i < |s| ==> !('A' <= s[i] <= 'Z')
  }

  /** Two names that are the same letters, ignoring ASCII case. */
  predicate SameIgnoringCase(a: string, b: string) {
    |a| == |b| && forall i :: 0 <= i < |a| ==> Lower(a[i]) == Lower(b[i])
  }

  /**
   * `Environment#browser_name`: the configured browser, lowercased. A missing
   * (or empty) `browser` raises a ConfigurationError naming `browser`.
   */
  function BrowserName(e: Environment): (r: Result<string, ConfigurationError>)
    ensures r.Failure? <==> Get(e.config, BrowserKey) == Nil || Get(e.config, BrowserKey) == Str("")
    ensures r.Failure? ==> r.error == ConfigurationError(BrowserKey)
    ensures r.Success? ==> IsLowercase(r.value) && |r.value| > 0
    ensures r.Success? ==> SameIgnoringCase(r.value, Get(e.config, BrowserKey).text)
  {
    match Get(e.config, BrowserKey)
    case Nil => Failure(ConfigurationError(BrowserKey))
    case Str(name) => if name == "" then Failure(ConfigurationError(BrowserKey)) else Success(Downcase(name))
  }

  /** Configuring the name `browser_name` produced gives the same name back. */
  lemma BrowserNameIdempotent(e: Environment)
    requires BrowserName(e).Success?
    ensures var e' := e.(config := Merge(e.config, map[BrowserKey := Str(BrowserName(e).value)]));
      BrowserName(e') == BrowserName(e)
  {
    var n := BrowserName(e).value;
    var e' := e.(config := Merge(e.config, map[BrowserKey := Str(n)]));
    assert Get(e'.config, BrowserKey) == Str(n);
    assert Downcase(n) == n;
  }

  /** Browsers configured with the same letters in different case get the same name. */
  lemma BrowserNameIgnoresCase(a: Environment, b: Environment)
    requires Get(a.config, BrowserKey).Str? && Get(b.config, BrowserKey).Str?
    requires SameIgnoringCase(Get(a.config, BrowserKey).text, Get(b.config, BrowserKey).text)
    ensures BrowserName(a) == BrowserName(b)
  {
    var x := Get(a.config, BrowserKey).text;
    var y := Get(b.config, BrowserKey).text;
    if x != "" {
      assert Downcase(x) == Downcase(y);
    }
  }

  /** `browser: "Firefox"` is named `firefox`; no `browser` is a ConfigurationError for `browser`. */
  lemma BrowserNameExamples(cache: CacheRef)
    ensures BrowserName(Environment(map[BrowserKey := Str("Firefox")], cache)) == Success("firefox")
    ensures BrowserName(Environment(map[BrowserKey := Nil], cache)) == Failure(ConfigurationError("browser"))
  {
    assert Downcase("Firefox") == "firefox";
  }

  // ---------------------------------------------------------------- browser factories

  /** The browser type a factory request is for: the explicit one, else `browser_name`. */
  function FactoryType(e: Environment, explicit: Option<string>): (r: Result<string, ConfigurationError>)
    ensures explicit.Some? ==> r == Success(explicit.value)
    ensures explicit.None? ==> r == BrowserName(e)
  {
    match explicit
    case Some(t) => Success(t)
    case None => BrowserName(e)
  }

  /**
   * `Environment#browser_factory(type = browser_name)`, with `remote?` given
   * as `remote`. The factory cached under `(remote, type)` in the
   * environment's cache is returned unchanged; otherwise a fresh factory is
   * created, cached and returned. Nothing is ever evicted.
   */
  function BrowserFactory(w: World, e: Environment, explicit: Option<string>, remote: bool)
    : (r: Result<(Factory, World), ConfigurationError>)
    requires Valid(w) && e.cache in w.caches
    ensures r.Failure? <==> FactoryType(e, explicit).Failure?
    ensures r.Failure? ==> r.error == FactoryType(e, explicit).error
    ensures r.Success? ==> var (f, w') := r.value;
      && Valid(w') && w'.caches == w.caches
      && f.browser == FactoryType(e, explicit).value && f.remote == remote
      && Slot(e.cache, CacheKey(remote, f.browser)) in w'.entries
      && w'.entries[Slot(e.cache, CacheKey(remote, f.browser))] == f
      && (forall s :: s in w.entries ==> s in w'.entries && w'.entries[s] == w.entries[s])
      && w'.entries.Keys == w.entries.Keys + {Slot(e.cache, CacheKey(remote, f.browser))}
    ensures r.Success? ==> var (f, w') := r.value;
      && (Slot(e.cache, CacheKey(remote, f.browser)) in w.entries ==> w' == w)
      && (Slot(e.cache, CacheKey(remote, f.browser)) !in w.entries ==>
            forall s :: s in w.entries ==> w.entries[s].id != f.id)
  {
    match FactoryType(e, explicit)
    case Failure(err) => Failure(err)
    case Success(t) =>
      var slot := Slot(e.cache, CacheKey(remote, t));
      if slot in w.entries then Success((w.entries[slot], w))
      else
        var f := Factory(w.nextId, t, remote);
        var w' := w.(entries := w.entries[slot := f], nextId := w.nextId + 1);
        assert Valid(w') by { InsertFreshKeepsValid(w, slot, f); }
        Success((f, w'))
  }

  lemma InsertFreshKeepsValid(w: World, slot: Slot, f: Factory)
    requires Valid(w) && slot.cache in w.caches && slot !in w.entries
    requires f == Factory(w.nextId, slot.key.browser, slot.key.remote)
    ensures Valid(w.(entries := w.entries[slot := f], nextId := w.nextId + 1))
  {
    var w' := w.(entries := w.entries[slot := f], nextId := w.nextId + 1);
    forall s1, s2 | s1 in w'.entries && s2 in w'.entries && w'.entries[s1].id == w'.entries[s2].id
      ensures s1 == s2
    {
      if s1 != slot && s2 != slot {
        assert w.entries[s1].id == w.entries[s2].id;
      }
    }
  }

  /**
   * Caching across a clone: a request on an environment, then a request on
   * any environment sharing its cache (a clone, whatever was merged into the
   * clone's configuration), return the identical factory exactly when both
   * asked for the same browser type with the same `remote?`.
   */
  lemma FactoryCachedAcrossClone(w: World, e1: Environment, e2: Environment,
                                                    t1: string, t2: string, remote1: bool, remote2: bool)
    requires Valid(w) && e1.cache in w.caches && e2.cache == e1.cache
    ensures var (f1, w1) := BrowserFactory(w, e1, Some(t1), remote1).value;
      var (f2, w2) := BrowserFactory(w1, e2, Some(t2), remote2).value;
      f1.id == f2.id <==> t1 == t2 && remote1 == remote2
  {
    var (f1, w1) := BrowserFactory(w, e1, Some(t1), remote1).value;
    var (f2, w2) := BrowserFactory(w1, e2, Some(t2), remote2).value;
    if f1.id == f2.id {
      assert w2.entries[Slot(e1.cache, CacheKey(remote1, t1))] == f1;
      assert w2.entries[Slot(e1.cache, CacheKey(remote2, t2))] == f2;
    }
  }

  /** Environments that do not share a cache never hand out the same factory. */
  lemma FactoryNotSharedBetweenCaches(w: World, e1: Environment, e2: Environment,
                                                         t1: string, t2: string, remote1: bool, remote2: bool)
    requires Valid(w) && e1.cache in w.caches && e2.cache in w.caches && e1.cache != e2.cache
    ensures var (f1, w1) := BrowserFactory(w, e1, Some(t1), remote1).value;
      var (f2, w2) := BrowserFactory(w1, e2, Some(t2), remote2).value;
      f1.id != f2.id
  {
    var (f1, w1) := BrowserFactory(w, e1, Some(t1), remote1).value;
    var (f2, w2) := BrowserFactory(w1, e2, Some(t2), remote2).value;
    assert w2.entries[Slot(e1.cache, CacheKey(remote1, t1))] == f1;
    assert w2.entries[Slot(e2.cache, CacheKey(remote2, t2))] == f2;
  }

  /**
   * The caching examples from a fresh start: an environment asks locally for
   * firefox, then its clone asks for `t2` with `remote2`; the clone gets the
   * identical factory exactly when it also asks locally for firefox.
   */
  lemma CloneCachingExample(config: Configuration, t2: string, remote2: bool)
    ensures var (e1, w) := NewEnvironment(EmptyWorld(), config);
      var (f1, w1) := BrowserFactory(w, e1, Some("firefox"), false).value;
      var (f2, w2) := BrowserFactory(w1, Clone(e1), Some(t2), remote2).value;
      f1.id == f2.id <==> t2 == "firefox" && !remote2
  {
    var (e1, w) := NewEnvironment(EmptyWorld(), config);
    FactoryCachedAcrossClone(w, e1, Clone(e1), "firefox", t2, false, remote2);
  }

  /**
   * The factory with no explicit type is for the configured browser; an
   * explicit type is used as given.
   */
  lemma FactoryTypeExamples(w: World, e: Environment, remote: bool)
    requires Valid(w) && e.cache in w.caches
    requires Get(e.config, BrowserKey) == Str("firefox")
    ensures BrowserFactory(w, e, None, remote).Success?
    ensures BrowserFactory(w, e, None, remote).value.0.browser == "firefox"
    ensures BrowserFactory(w, e, Some("chrome"), remote).value.0.browser == "chrome"
  {
    assert Downcase("firefox") == "firefox";
  }
}
