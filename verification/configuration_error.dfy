/**
 * `MediawikiSelenium::ConfigurationError`: the one error kind of the core,
 * raised when a required configuration value is missing. It carries the name
 * of the missing key and renders as "missing configuration for <name>".
 */
module Errors {
  import opened Wrappers

  /** The error keeps exactly the name it was constructed with (`attr_reader :name`). */
  datatype ConfigurationError = ConfigurationError(name: string)

  const MessagePrefix := "missing configuration for "

  /** `ConfigurationError#to_s`: the fixed prefix followed by the name. */
  function Message(e: ConfigurationError): (s: string)
    ensures |s| == |MessagePrefix| + |e.name|
    ensures s[..|MessagePrefix|] == MessagePrefix
    ensures s[|MessagePrefix|..] == e.name
  {
    MessagePrefix + e.name
  }

  /** Recovers the key name from a rendered message; None for any other text. */
  function NameOf(s: string): (r: Option<string>)
    ensures r.Some? <==> |s| >= |MessagePrefix| && s[..|MessagePrefix|] == MessagePrefix
  {
    if |s| >= |MessagePrefix| && s[..|MessagePrefix|] == MessagePrefix
    then Some(s[|MessagePrefix|..])
    else None
  }

  /** Reading the name back out of a message gives the constructor's argument. */
  lemma NameOfMessage(name: string)
    ensures NameOf(Message(ConfigurationError(name))) == Some(name)
  {
  }

  /** Every text `NameOf` accepts is the message of the error it names. */
  lemma MessageOfNameOf(s: string)
    requires NameOf(s).Some?
    ensures Message(ConfigurationError(NameOf(s).value)) == s
  {
    assert s == s[..|MessagePrefix|] + s[|MessagePrefix|..];
  }

  /** Two errors render identically exactly when they carry the same name. */
  lemma MessageInjective(a: ConfigurationError, b: ConfigurationError)
    ensures Message(a) == Message(b) <==> a.name == b.name
  {
    if Message(a) == Message(b) {
      NameOfMessage(a.name);
      NameOfMessage(b.name);
    }
  }
}
