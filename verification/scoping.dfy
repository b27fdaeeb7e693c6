/**
 * The scoped-substitution family of `Environment`: `with_alternative`,
 * `as_user`, `on_wiki` and `in_browser`. Each clones the environment, merges
 * a computed map of overrides into the clone's configuration, and runs the
 * caller's block against the clone with the substituted values as
 * arguments. The block is a function of the clone and the arguments; its
 * result is returned together with the clone and the merged map, so that
 * contracts can speak of both.
 */
module Scoping {
  import opened Wrappers
  import opened Config
  import opened Environments

  /** What a scoped call did: the clone it ran in, the map merged into it, the block's arguments and result. */
  datatype Scoped<R> = Scoped(clone: Environment, overrides: Configuration, args: seq<Value>, result: R)

  /** A block: called with the clone as its context and the substituted values as arguments. */
  type Work<R> = (Environment, seq<Value>) -> R

  /** The shared shape: clone, merge the overrides into the clone, run the block there. */
  function RunScoped<R>(e: Environment, overrides: Configuration, args: seq<Value>, work: Work<R>): (r: Scoped<R>)
    ensures r.clone.cache == e.cache
    ensures r.clone.config == Merge(e.config, overrides)
    ensures r.overrides == overrides && r.args == args
    ensures r.result == work(r.clone, args)
  {
    var clone := Clone(e);
    var merged := clone.(config := Merge(clone.config, overrides));
    Scoped(merged, overrides, args, work(merged, args))
  }

  /** `with_alternative` takes one option name or a list of them. */
  datatype Names = One(name: Key) | Many(names: seq<Key>)

  /** A single name behaves as the one-element list. */
  function NameList(n: Names): (ks: seq<Key>)
    ensures n.One? ==> ks == [n.name]
    ensures n.Many? ==> ks == n.names
  {
    match n
    case One(k) => [k]
    case Many(ks) => ks
  }

  /** Each of `names` mapped to its value under the alternative `id`. */
  function AlternativeOverrides(c: Configuration, names: seq<Key>, id: Option<string>): (m: Configuration)
    ensures m.Keys == set k | k in names
    ensures forall k :: k in m ==> m[k] == Lookup(c, k, id)
  {
    map k | k in names :: Lookup(c, k, id)
  }

  /** The alternative value of each name, in the order the names are listed. */
  function AlternativeArgs(c: Configuration, names: seq<Key>, id: Option<string>): (vs: seq<Value>)
    ensures |vs| == |names|
    ensures forall i :: 0 <= i < |names| ==> vs[i] == Lookup(c, names[i], id)
  {
    seq(|names|, i requires 0 <= i < |names| => Lookup(c, names[i], id))
  }

  /**
   * `Environment#with_alternative(names, id)`: inside the block every named
   * option holds its alternative value (or the plain value it falls back
   * to), every other option is as before, and the block receives those
   * values in the order of `names`.
   */
  function WithAlternative<R>(e: Environment, names: Names, id: Option<string>, work: Work<R>): (r: Scoped<R>)
    ensures r.clone.cache == e.cache
    ensures r.clone.config == Merge(e.config, r.overrides)
    ensures r.overrides.Keys == set k | k in NameList(names)
    ensures forall k :: k in r.overrides ==> r.overrides[k] == Lookup(e.config, k, id)
    ensures forall k :: k in NameList(names) ==> Lookup(r.clone.config, k, None) == Lookup(e.config, k, id)
    ensures forall k :: k !in NameList(names) ==> Get(r.clone.config, k) == Get(e.config, k)
    ensures |r.args| == |NameList(names)|
    ensures forall i :: 0 <= i < |r.args| ==> r.args[i] == Lookup(e.config, NameList(names)[i], id)
    ensures r.result == work(r.clone, r.args)
  {
    var ks := NameList(names);
    RunScoped(e, AlternativeOverrides(e.config, ks, id), AlternativeArgs(e.config, ks, id), work)
  }

  /**
   * `Environment#as_user(id)`: the alternative user and password, merged into
   * the clone and passed to the block as `(user, password)`.
   */
  function AsUser<R>(e: Environment, id: Option<string>, work: Work<R>): (r: Scoped<R>)
    ensures r.clone.cache == e.cache
    ensures r.overrides == map[UserKey := Lookup(e.config, UserKey, id), PasswordKey := Lookup(e.config, PasswordKey, id)]
    ensures r.clone.config == Merge(e.config, r.overrides)
    ensures r.args == [Lookup(e.config, UserKey, id), Lookup(e.config, PasswordKey, id)]
    ensures r.result == work(r.clone, r.args)
  {
    TwoNames(e, UserKey, PasswordKey, id, work);
    WithAlternative(e, Many([UserKey, PasswordKey]), id, work)
  }

  /**
   * `Environment#on_wiki(id)`: the alternative wiki URL and API URL, merged
   * into the clone and passed to the block as `(url, api_url)`.
   */
  function OnWiki<R>(e: Environment, id: Option<string>, work: Work<R>): (r: Scoped<R>)
    ensures r.clone.cache == e.cache
    ensures r.overrides == map[UrlKey := Lookup(e.config, UrlKey, id), ApiUrlKey := Lookup(e.config, ApiUrlKey, id)]
    ensures r.clone.config == Merge(e.config, r.overrides)
    ensures r.args == [Lookup(e.config, UrlKey, id), Lookup(e.config, ApiUrlKey, id)]
    ensures r.result == work(r.clone, r.args)
  {
    TwoNames(e, UrlKey, ApiUrlKey, id, work);
    WithAlternative(e, Many([UrlKey, ApiUrlKey]), id, work)
  }

  /** Substituting one name merges and passes exactly its alternative value. */
  lemma OneName<R>(e: Environment, n: Key, id: Option<string>, work: Work<R>)
    ensures var r := WithAlternative(e, One(n), id, work);
      r.overrides == map[n := Lookup(e.config, n, id)] && r.args == [Lookup(e.config, n, id)]
  {
    var r := WithAlternative(e, One(n), id, work);
    assert r.overrides.Keys == {n};
  }

  /** Substituting two different names merges both alternative values and passes them in order. */
  lemma TwoNames<R>(e: Environment, a: Key, b: Key, id: Option<string>, work: Work<R>)
    requires a != b
    ensures var r := WithAlternative(e, Many([a, b]), id, work);
      && r.overrides == map[a := Lookup(e.config, a, id), b := Lookup(e.config, b, id)]
      && r.args == [Lookup(e.config, a, id), Lookup(e.config, b, id)]
  {
    var ks := [a, b];
    var m := AlternativeOverrides(e.config, ks, id);
    var vs := AlternativeArgs(e.config, ks, id);
    assert m.Keys == {a, b};
    assert m == map[a := Lookup(e.config, a, id), b := Lookup(e.config, b, id)];
    assert vs == [Lookup(e.config, a, id), Lookup(e.config, b, id)];
  }

  /** The one name `n` and the list `[n]` substitute the same thing. */
  lemma SingleNameIsList<R>(e: Environment, n: Key, id: Option<string>, work: Work<R>)
    ensures WithAlternative(e, One(n), id, work) == WithAlternative(e, Many([n]), id, work)
  {
  }

  // ---------------------------------------------------------------- in_browser

  const SessionKey := "_browser_session"

  /** The configuration key a browser override `name` is merged under. */
  function BrowserOption(name: string): (k: Key)
    ensures |k| == 8 + |name| && k[..8] == "browser_" && k[8..] == name
    ensures k != SessionKey
  {
    var k := "browser_" + name;
    assert k[0] != SessionKey[0];
    k
  }

  predicate DistinctNames(overrides: seq<(string, Value)>) {
    forall i, j :: 0 <= i < j < |overrides| ==> overrides[i].0 != overrides[j].0
  }

  lemma BrowserOptionInjective(a: string, b: string)
    ensures BrowserOption(a) == BrowserOption(b) ==> a == b
  {
    if BrowserOption(a) == BrowserOption(b) {
      assert a == BrowserOption(a)[8..];
    }
  }

  /** The overrides of `in_browser`, each under its `browser_` key. */
  function PrefixedOverrides(overrides: seq<(string, Value)>): (m: Configuration)
    requires DistinctNames(overrides)
    ensures forall i :: 0 <= i < |overrides| ==>
      BrowserOption(overrides[i].0) in m && m[BrowserOption(overrides[i].0)] == overrides[i].1
    ensures forall k :: k in m ==> exists i :: 0 <= i < |overrides| && k == BrowserOption(overrides[i].0)
    decreases |overrides|
  {
    if |overrides| == 0 then map[]
    else
      var m := PrefixedOverrides(overrides[1..]);
      PrefixedStep(overrides, m);
      m[BrowserOption(overrides[0].0) := overrides[0].1]
  }

  /** Adding the first override under its key to the map of the others gives the map of them all. */
  lemma PrefixedStep(overrides: seq<(string, Value)>, m: Configuration)
    requires |overrides| > 0 && DistinctNames(overrides)
    requires forall i :: 0 <= i < |overrides[1..]| ==>
      BrowserOption(overrides[1..][i].0) in m && m[BrowserOption(overrides[1..][i].0)] == overrides[1..][i].1
    requires forall k :: k in m ==> exists i :: 0 <= i < |overrides[1..]| && k == BrowserOption(overrides[1..][i].0)
    ensures var m' := m[BrowserOption(overrides[0].0) := overrides[0].1];
      && (forall i :: 0 <= i < |overrides| ==>
            BrowserOption(overrides[i].0) in m' && m'[BrowserOption(overrides[i].0)] == overrides[i].1)
      && (forall k :: k in m' ==> exists i :: 0 <= i < |overrides| && k == BrowserOption(overrides[i].0))
  {
    var rest := overrides[1..];
    var key := BrowserOption(overrides[0].0);
    forall i | 0 < i < |overrides| ensures BrowserOption(overrides[i].0) != key {
      BrowserOptionInjective(overrides[i].0, overrides[0].0);
    }
    forall k | k in m ensures exists i :: 0 <= i < |overrides| && k == BrowserOption(overrides[i].0) {
      var j :| 0 <= j < |rest| && k == BrowserOption(rest[j].0);
      assert overrides[j + 1] == rest[j];
    }
    assert forall i :: 0 < i < |overrides| ==> overrides[i] == rest[i - 1];
  }

  /**
   * `Environment#in_browser(id, overrides)`: the clone gets the browser
   * session `id` and every override under its `browser_`-prefixed key; the
   * block receives the override values in order, then `id`.
   */
  function InBrowser<R>(e: Environment, id: string, overrides: seq<(string, Value)>, work: Work<R>): (r: Scoped<R>)
    requires DistinctNames(overrides)
    ensures r.clone.cache == e.cache
    ensures r.clone.config == Merge(e.config, r.overrides)
    ensures SessionKey in r.overrides && r.overrides[SessionKey] == Str(id)
    ensures forall i :: 0 <= i < |overrides| ==>
      BrowserOption(overrides[i].0) in r.overrides && r.overrides[BrowserOption(overrides[i].0)] == overrides[i].1
    ensures forall k :: k in r.overrides && k != SessionKey ==>
      exists i :: 0 <= i < |overrides| && k == BrowserOption(overrides[i].0)
    ensures |r.args| == |overrides| + 1 && r.args[|overrides|] == Str(id)
    ensures forall i :: 0 <= i < |overrides| ==> r.args[i] == overrides[i].1
    ensures r.result == work(r.clone, r.args)
  {
    var values := seq(|overrides|, i requires 0 <= i < |overrides| => overrides[i].1);
    RunScoped(e, PrefixedOverrides(overrides)[SessionKey := Str(id)], values + [Str(id)], work)
  }

  // ---------------------------------------------------------------- the examples

  /** The configuration of the `as_user` example. */
  function AltUserConfig(): Configuration {
    map[UserKey := Str("user"), PasswordKey := Str("pass"),
        "mediawiki_user_b" := Str("user b"), "mediawiki_password_b" := Str("pass b")]
  }

  lemma AltUserLookups()
    ensures Lookup(AltUserConfig(), UserKey, Some("b")) == Str("user b")
    ensures Lookup(AltUserConfig(), PasswordKey, Some("b")) == Str("pass b")
  {
    assert AltKey(UserKey, "b") == "mediawiki_user_b";
    assert AltKey(PasswordKey, "b") == "mediawiki_password_b";
  }

  /** `as_user(:b)` with `mediawiki_user_b`/`mediawiki_password_b` configured. */
  lemma AsUserExample<R>(cache: CacheRef, work: Work<R>)
    ensures var r := AsUser(Environment(AltUserConfig(), cache), Some("b"), work);
      && r.overrides == map[UserKey := Str("user b"), PasswordKey := Str("pass b")]
      && r.args == [Str("user b"), Str("pass b")]
  {
    AltUserLookups();
  }

  /** The wiki configuration of the `on_wiki` and `with_alternative` examples. */
  function AltWikiConfig(): Configuration {
    map[UrlKey := Str("http://an.example/wiki"), "mediawiki_url_b" := Str("http://alt.example/wiki"),
        ApiUrlKey := Str("http://an.example/api"), "mediawiki_api_url_b" := Str("http://alt.example/api")]
  }

  lemma AltWikiLookups()
    ensures Lookup(AltWikiConfig(), UrlKey, Some("b")) == Str("http://alt.example/wiki")
    ensures Lookup(AltWikiConfig(), ApiUrlKey, Some("b")) == Str("http://alt.example/api")
  {
    assert AltKey(UrlKey, "b") == "mediawiki_url_b";
    assert AltKey(ApiUrlKey, "b") == "mediawiki_api_url_b";
  }

  /** `on_wiki(:b)` substitutes and passes the alternative wiki and API URLs. */
  lemma OnWikiExample<R>(cache: CacheRef, work: Work<R>)
    ensures var r := OnWiki(Environment(AltWikiConfig(), cache), Some("b"), work);
      && r.overrides == map[UrlKey := Str("http://alt.example/wiki"), ApiUrlKey := Str("http://alt.example/api")]
      && r.args == [Str("http://alt.example/wiki"), Str("http://alt.example/api")]
  {
    AltWikiLookups();
  }

  /** `with_alternative(:mediawiki_url, :b)` substitutes and passes the one alternative URL. */
  lemma WithAlternativeOneExample<R>(cache: CacheRef, work: Work<R>)
    ensures var r := WithAlternative(Environment(AltWikiConfig(), cache), One(UrlKey), Some("b"), work);
      && r.overrides == map[UrlKey := Str("http://alt.example/wiki")]
      && r.args == [Str("http://alt.example/wiki")]
  {
    AltWikiLookups();
    OneName(Environment(AltWikiConfig(), cache), UrlKey, Some("b"), work);
  }

  /** `with_alternative([:mediawiki_url, :mediawiki_api_url], :b)` substitutes and passes both, in order. */
  lemma WithAlternativeManyExample<R>(cache: CacheRef, work: Work<R>)
    ensures var r := WithAlternative(Environment(AltWikiConfig(), cache), Many([UrlKey, ApiUrlKey]), Some("b"), work);
      && r.overrides == map[UrlKey := Str("http://alt.example/wiki"), ApiUrlKey := Str("http://alt.example/api")]
      && r.args == [Str("http://alt.example/wiki"), Str("http://alt.example/api")]
  {
    OnWikiExample(cache, work);
  }

  /** `in_browser(:a)` with no overrides: only the session is merged, and the block gets the id. */
  lemma InBrowserExample<R>(e: Environment, work: Work<R>)
    ensures var r := InBrowser(e, "a", [], work);
      r.overrides == map[SessionKey := Str("a")] && r.args == [Str("a")]
  {
    var r := InBrowser(e, "a", [], work);
    assert r.overrides.Keys == {SessionKey};
  }

  /** `in_browser(:a, language: "eo")`: the language is merged under `browser_language` and passed first. */
  lemma InBrowserOverrideExample<R>(e: Environment, work: Work<R>)
    ensures var r := InBrowser(e, "a", [("language", Str("eo"))], work);
      && r.overrides == map[SessionKey := Str("a"), "browser_language" := Str("eo")]
      && r.args == [Str("eo"), Str("a")]
  {
    var r := InBrowser(e, "a", [("language", Str("eo"))], work);
    assert BrowserOption("language") == "browser_language";
    assert r.overrides.Keys == {SessionKey, "browser_language"};
  }
}
