/**
 * The configuration store of an `Environment`: a mapping from key names to
 * values, in which an "alternative" value for key `k` is the ordinary entry
 * `k_<id>` of the same mapping.
 */
module Config {
  import opened Wrappers

  type Key = string

  /** A configured value; `Nil` is Ruby's `nil`, which a merge may store under a key. */
  datatype Value = Nil | Str(text: string)

  type Configuration = map<Key, Value>

  /** `config[key]`: the stored value, or nil when the key is absent. */
  function Get(c: Configuration, key: Key): (v: Value)
    ensures key !in c ==> v == Nil
    ensures key in c ==> v == c[key]
  {
    if key in c then c[key] else Nil
  }

  /** The derived key holding the alternative `id` of `key`: `key` suffixed with `_<id>`. */
  function AltKey(key: Key, id: string): (k: Key)
    ensures |k| == |key| + 1 + |id|
    ensures k[..|key|] == key && k[|key|] == '_' && k[|key| + 1..] == id
  {
    key + "_" + id
  }

  /**
   * `Environment#lookup(key, id)`. Without an id, the plain key. With one,
   * the alternative `key_<id>` when it holds a value, and otherwise a silent
   * fall back to the plain key; nil when neither holds a value.
   */
  function Lookup(c: Configuration, key: Key, id: Option<string>): (v: Value)
    ensures id.None? ==> v == Get(c, key)
    ensures id.Some? && Get(c, AltKey(key, id.value)) != Nil ==> v == Get(c, AltKey(key, id.value))
    ensures id.Some? && Get(c, AltKey(key, id.value)) == Nil ==> v == Get(c, key)
  {
    match id
    case None => Get(c, key)
    case Some(alt) =>
      var altValue := Get(c, AltKey(key, alt));
      if altValue != Nil then altValue else Get(c, key)
  }

  /** `Hash#merge`: keys of `overrides` replace or extend those of `c`. */
  function Merge(c: Configuration, overrides: Configuration): (r: Configuration)
    ensures r.Keys == c.Keys + overrides.Keys
    ensures forall k :: k in overrides ==> Get(r, k) == overrides[k]
    ensures forall k :: k !in overrides ==> Get(r, k) == Get(c, k)
  {
    c + overrides
  }

  /** The result is nil exactly when neither the alternative nor the plain key holds a value. */
  lemma LookupNilIff(c: Configuration, key: Key, id: Option<string>)
    ensures Lookup(c, key, id) == Nil <==>
      Get(c, key) == Nil && (id.None? || Get(c, AltKey(key, id.value)) == Nil)
  {
  }

  /** Whatever `lookup` returns is stored under the plain key or under its alternative. */
  lemma LookupSource(c: Configuration, key: Key, id: Option<string>)
    ensures Lookup(c, key, id) == Get(c, key)
      || (id.Some? && Lookup(c, key, id) == Get(c, AltKey(key, id.value)))
  {
  }

  /** Distinct alternative ids of one key name distinct entries. */
  lemma AltKeyInjective(key: Key, a: string, b: string)
    ensures AltKey(key, a) == AltKey(key, b) <==> a == b
  {
    if AltKey(key, a) == AltKey(key, b) {
      assert a == AltKey(key, a)[|key| + 1..];
    }
  }

  /** The examples of `#lookup`: `{foo, foo_b, bar}` looked up without and with the id `b`. */
  lemma LookupExamples()
    ensures var c := map["foo" := Str("foo_value"), "foo_b" := Str("foo_b_value"), "bar" := Str("bar_value")];
      && Lookup(c, "foo", None) == Str("foo_value")
      && Lookup(c, "baz", None) == Nil
      && Lookup(c, "foo", Some("b")) == Str("foo_b_value")
      && Lookup(c, "bar", Some("b")) == Str("bar_value")
      && Lookup(c, "baz", Some("b")) == Nil
  {
    var c := map["foo" := Str("foo_value"), "foo_b" := Str("foo_b_value"), "bar" := Str("bar_value")];
    assert AltKey("bar", "b") == "bar_b";
    assert AltKey("baz", "b") == "baz_b";
    assert AltKey("foo", "b") == "foo_b";
  }
}
