# mediawiki-selenium environment configuration, modelled in Dafny

This project models the configuration core of the mediawiki-selenium Ruby
gem, which runs browser acceptance tests against MediaWiki wikis:

- the `Environment` configuration store, with lookup of alternative values
  (`key_<id>`), equality, the browser name, and the cache of browser
  factories;
- the scoped substitutions `with_alternative`, `as_user`, `on_wiki` and
  `in_browser`, which run a block in a clone of the environment with some
  configuration values replaced;
- `wiki_url`, which resolves a page reference against the configured wiki URL;
- the Firefox factory's translation of `browser_*` settings into profile
  preferences;
- the Cucumber `WarningsFormatter`, which collects per-feature warnings,
  counts them per type and prints a summary;
- `ConfigurationError` and its message.

`Environment` and the Firefox factory are modelled from the examples in
their specs, `spec/environment_spec.rb` and
`spec/browser_factory/firefox_spec.rb`. Each example is proved as a lemma
next to the general contract it instantiates.

Modules, one per file:

| file | module | models |
|---|---|---|
| `wrappers.dfy` | `Wrappers` | `Option`, `Result` |
| `decimal.dfy` | `Decimal` | Ruby `Integer#to_s`, `String#to_i` |
| `configuration_error.dfy` | `Errors` | `ConfigurationError` |
| `config.dfy` | `Config` | configuration values, `lookup`, `merge` |
| `environment.dfy` | `Environments` | environments, equality, `browser_name`, `browser_factory` and its cache |
| `scoping.dfy` | `Scoping` | `with_alternative`, `as_user`, `on_wiki`, `in_browser` |
| `wiki_url.dfy` | `WikiUrls` | `wiki_url` |
| `firefox.dfy` | `Firefox` | `Firefox.default_bindings`, `Firefox#browser_options` |
| `warnings.dfy` | `Warnings` | `FeatureWarnings`, `WarningsFormatter` |

Modelling choices:

- Configuration values are `Nil | Str(text)`. A merge can store Ruby's
  `nil` under a key, and `==` on environments tells such a key apart from an
  absent one.
- Objects shared by reference are explicit. Environments are values.
  Factory caches live in a `World` and an environment names its cache with a
  `CacheRef`. `Environment.new` issues a fresh cache, and `clone` keeps the
  same one. Factory identity (`be`) is the factory's `id`.
- A block is a function of the clone and of the substituted values.
  Ruby's `instance_exec` receiver is passed explicitly. Each scoped
  operation returns `Scoped(clone, overrides, args, result)`. These are the
  clone the block ran in, the map merged into it, the block's arguments and
  the block's result. The caller's environment is an immutable value, so
  nothing a block does can change it.
- `remote?` is an input boolean of `BrowserFactory`.
- Ruby hashes keep insertion order. The warnings hashes are therefore
  sequences of pairs with distinct keys. Written output is a sequence of
  lines, and `format_string` leaves text unchanged.

Two points about factory caching:

- The factory cache is shared between an environment and its clones
  (`spec/environment_spec.rb:91-111`). A factory fetched through a clone is
  the identical object fetched through the original.
- The example at `spec/environment_spec.rb:133` is labelled "returns a cached
  factory" but asserts `not_to be`. The model follows the assertion: a
  different `remote?` gives a different factory.

## Model

| member | source | states |
|---|---|---|
| Config.Lookup | spec/environment_spec.rb:205-249 | without an id, the plain key; with an id, `key_<id>` when it holds a value, else the plain key |
| Config.LookupNilIff | spec/environment_spec.rb:218-248 | the lookup is nil exactly when neither the alternative nor the plain key holds a value |
| Config.LookupSource | spec/environment_spec.rb:225-242 | a looked-up value always comes from the plain key or from its alternative |
| Config.AltKeyInjective | spec/environment_spec.rb:225-234 | different ids give different alternative keys for one name |
| Config.LookupExamples | spec/environment_spec.rb:205-249 | the five lookups of the example configuration `{foo, foo_b, bar}` |
| Config.Merge | spec/environment_spec.rb:67-70 | `merge!`: override keys take the given values, every other key keeps its value |
| Environments.NewEnvironment | spec/environment_spec.rb:7 | a new environment holds the given configuration and a fresh, empty cache |
| Environments.Equals | spec/environment_spec.rb:26-44 | two environments are equal exactly when their configurations hold the same keys with the same values |
| Environments.Clone | spec/environment_spec.rb:93 | a clone is equal to its original and shares its factory cache |
| Environments.EqualitySameConfiguration | spec/environment_spec.rb:29-35 | two environments built from one configuration are equal, though their caches differ |
| Environments.EqualityExtraKey | spec/environment_spec.rb:37-43 | merging a key the configuration lacks makes the environments unequal |
| Environments.BrowserName | spec/environment_spec.rb:150-166 | the configured browser in lower case; ConfigurationError for `browser` when it is missing |
| Environments.BrowserNameIdempotent | spec/environment_spec.rb:153-157 | configuring the name it returned gives the same name back |
| Environments.BrowserNameIgnoresCase | spec/environment_spec.rb:153-157 | browsers configured with the same letters in any case get one name |
| Environments.BrowserNameExamples | spec/environment_spec.rb:150-166 | `Firefox` is named `firefox`; no browser raises ConfigurationError naming `browser` |
| Environments.FactoryType | spec/environment_spec.rb:76-89 | a factory is for the explicit type when given, else for `browser_name` |
| Environments.BrowserFactory | spec/environment_spec.rb:76-147 | returns the factory cached under `(remote?, type)` unchanged, else creates, caches and returns a fresh one; the requested entry is the only one added, and nothing is evicted |
| Environments.FactoryCachedAcrossClone | spec/environment_spec.rb:91-147 | through an environment and then its clone, the factories are identical exactly when type and `remote?` both agree |
| Environments.FactoryNotSharedBetweenCaches | spec/environment_spec.rb:7 | environments with different caches, such as two built by `Environment.new`, never return the same factory; no example states this, it follows from each new environment getting a cache of its own |
| Environments.CloneCachingExample | spec/environment_spec.rb:91-147 | from a fresh start, an environment asks locally for firefox and then its clone asks; the clone gets the identical factory exactly when it also asks locally for firefox |
| Environments.FactoryTypeExamples | spec/environment_spec.rb:76-89 | with browser `firefox` the default factory is for firefox; asked for `chrome` it is for chrome |
| Scoping.RunScoped | spec/environment_spec.rb:61-71 | the block runs in a clone that shares the cache and has the overrides merged; its result is returned |
| Scoping.NameList | spec/environment_spec.rb:352-361 | one option name is handled as a one-element list |
| Scoping.WithAlternative | spec/environment_spec.rb:332-379 | in the clone, each name's plain lookup is the original's lookup under the id, other keys are unchanged, and the block gets those values in name order |
| Scoping.AsUser | spec/environment_spec.rb:46-74 | merges and passes the alternative `mediawiki_user` and `mediawiki_password`, in that order |
| Scoping.OnWiki | spec/environment_spec.rb:252-283 | merges and passes the alternative `mediawiki_url` and `mediawiki_api_url`, in that order |
| Scoping.OneName | spec/environment_spec.rb:352-361 | one name: exactly that name's alternative is merged and passed |
| Scoping.TwoNames | spec/environment_spec.rb:363-378 | two different names: both alternatives are merged and passed, in the order given |
| Scoping.SingleNameIsList | spec/environment_spec.rb:352-378 | `with_alternative` on one name equals `with_alternative` on the list of that name |
| Scoping.BrowserOption | spec/environment_spec.rb:194-199 | an override name is merged under `browser_<name>`, which never collides with the session key |
| Scoping.PrefixedOverrides | spec/environment_spec.rb:194-199 | every override's value is stored under its prefixed key, and only those keys |
| Scoping.InBrowser | spec/environment_spec.rb:174-203 | merges `_browser_session` and the prefixed overrides; the block gets the override values in order, then the id |
| Scoping.AsUserExample | spec/environment_spec.rb:46-74 | `as_user(:b)` merges and passes `user b`, `pass b` |
| Scoping.OnWikiExample | spec/environment_spec.rb:252-283 | `on_wiki(:b)` merges and passes the alternative wiki and API URLs |
| Scoping.WithAlternativeOneExample | spec/environment_spec.rb:352-361 | one name: merges and passes the alternative URL |
| Scoping.WithAlternativeManyExample | spec/environment_spec.rb:363-378 | two names: merges both alternatives and passes them in order |
| Scoping.InBrowserExample | spec/environment_spec.rb:188-192 | `in_browser(:a)` merges only `_browser_session: :a` and passes the id |
| Scoping.InBrowserOverrideExample | spec/environment_spec.rb:194-202 | with `language: "eo"` it also merges `browser_language` and passes `"eo"` before the id |
| WikiUrls.Resolve | spec/environment_spec.rb:285-329 | an absolute URL is returned as given; a relative reference resolves only against an absolute base |
| WikiUrls.WikiUrl | spec/environment_spec.rb:285-329 | no URL gives the configured `mediawiki_url`; an absolute URL is returned as given; other references resolve against the configured URL |
| WikiUrls.ResolveFollowsRfc | spec/environment_spec.rb:298-312 | the result keeps the base's scheme and authority; its path is the reference (absolute path) or the merged path of section 5.2.3 of RFC 3986 |
| WikiUrls.ResolveAbsolutePath | spec/environment_spec.rb:306-312 | an absolute path is the base's origin followed by the path, and its path is exactly the reference |
| WikiUrls.ResolveRelativePath | spec/environment_spec.rb:298-304 | a relative path keeps the base's origin and gets the base path merged with the reference |
| WikiUrls.AbsolutePathIgnoresBasePath | spec/environment_spec.rb:306-312 | an absolute path gives the same URL for every base with the same scheme and authority |
| WikiUrls.WikiUrlOfRelative | spec/environment_spec.rb:298-328 | a relative path is appended to the base's directory; an absolute path follows the base's origin |
| WikiUrls.WikiUrlNilExample | spec/environment_spec.rb:290-296 | no URL: `http://an.example/wiki/` |
| WikiUrls.WikiUrlRelativeExample | spec/environment_spec.rb:298-304 | `some/path`: `http://an.example/wiki/some/path` |
| WikiUrls.WikiUrlAbsolutePathExample | spec/environment_spec.rb:306-312 | `/some/path`: `http://an.example/some/path` |
| WikiUrls.WikiUrlAbsoluteExample | spec/environment_spec.rb:314-320 | `http://another.example` is returned as given |
| WikiUrls.WikiUrlNamespaceExample | spec/environment_spec.rb:322-328 | `some:path` is a relative path: `http://an.example/wiki/some:path` |
| Firefox.DefaultBindings | spec/browser_factory/firefox_spec.rb:9-15 | every default binding writes at least one preference |
| Firefox.DefaultBindingsExample | spec/browser_factory/firefox_spec.rb:9-15 | the bindings include `browser_language`, `browser_timeout` and `browser_user_agent` |
| Firefox.BrowserOptions | spec/browser_factory/firefox_spec.rb:17-58 | the timeout, read as an integer, sets both script run-time limits; language and user agent are set verbatim; each preference is present exactly when its key is configured |
| Firefox.WritesExactlyConfiguredBindings | spec/browser_factory/firefox_spec.rb:42-57 | the preferences written are exactly those of the configured bindings |
| Firefox.TimeoutRoundTrip | spec/browser_factory/firefox_spec.rb:26-39 | a timeout written in decimal sets both limits to exactly that integer |
| Firefox.TimeoutExample | spec/browser_factory/firefox_spec.rb:26-39 | `browser_timeout: '30'` sets both limits to the integer 30 |
| Firefox.LanguageExample | spec/browser_factory/firefox_spec.rb:42-49 | `browser_language: 'eo'` writes only `intl.accept_languages = 'eo'` |
| Firefox.UserAgentExample | spec/browser_factory/firefox_spec.rb:51-57 | `browser_user_agent: 'FooBot'` writes only `general.useragent.override = 'FooBot'` |
| Decimal.ToI | spec/browser_factory/firefox_spec.rb:26-39 | a string of digits, such as `'30'`, reads as its number; a string with no sign or digit after the leading space reads as 0; a negative result comes only from a leading `-` |
| Decimal.ToIOfShowInt | spec/browser_factory/firefox_spec.rb:27-30 | `String#to_i` reads back every integer `Integer#to_s` writes |
| Decimal.Show | lib/mediawiki_selenium/warnings_formatter.rb:25 | a count is rendered as nonempty decimal digits without a leading zero |
| Warnings.NoWarnings | lib/mediawiki_selenium/warnings_formatter.rb:42-44 | a feature's warnings start as the empty hash, with no messages for any type |
| Warnings.EmptyIffNoMessages | lib/mediawiki_selenium/warnings_formatter.rb:14 | when every list is nonempty, as `mw_warn` keeps them, the hash is empty exactly when no type has a message |
| Warnings.MwWarn | lib/mediawiki_selenium/warnings_formatter.rb:37-40 | appends the message to its type's list; the keys stay in order, a new type is added last and an existing one adds no entry; other types' lists are unchanged and every list stays nonempty |
| Warnings.MwWarnDefault | lib/mediawiki_selenium/warnings_formatter.rb:37-40 | without a type, the message goes under `:default`, with the same key order and nonempty lists as `MwWarn` |
| Warnings.AllMessagesLayout | lib/mediawiki_selenium/warnings_formatter.rb:15-16 | the written messages are each type's list in order, type after type |
| Warnings.NewFormatter | lib/mediawiki_selenium/warnings_formatter.rb:8-11 | the counts start as the empty hash, so every type reads 0 |
| Warnings.AddCount | lib/mediawiki_selenium/warnings_formatter.rb:17 | adds to one type's count, leaving the others unchanged; the type is added last when it is new, and no other key appears |
| Warnings.AddCounts | lib/mediawiki_selenium/warnings_formatter.rb:15-18 | every type's count grows by that type's number of messages; the keys are the old ones followed by the feature's new types, in the feature's order |
| Warnings.AppendedKeys | lib/mediawiki_selenium/warnings_formatter.rb:17 | assigning keys keeps the old keys in front, and the keys afterwards are exactly the old ones and the assigned ones |
| Warnings.AfterFeature | lib/mediawiki_selenium/warnings_formatter.rb:13-20 | nothing for a feature without warnings; otherwise all messages then one blank line. The counts grow per type, and the keys are the old ones followed by the feature's new types, in order |
| Warnings.CountsAccumulate | lib/mediawiki_selenium/warnings_formatter.rb:10-17 | after two features a type's count is the sum of its messages in both |
| Warnings.AfterFeatures | lib/mediawiki_selenium/warnings_formatter.rb:22-29 | nothing when no counts exist; else one summary line per counted type, in order, each reading back as exactly its count and type (`SummaryParseIff` makes that reading exact) |
| Warnings.Summary | lib/mediawiki_selenium/warnings_formatter.rb:25-26 | a summary line reads back as its count, a plural ending exactly when the count exceeds 1, and its type |
| Warnings.SummaryOfParse | lib/mediawiki_selenium/warnings_formatter.rb:25-26 | every line that reads back as parts is exactly the summary line of those parts, with the plural ending exactly when the count exceeds 1 |
| Warnings.SummaryParseIff | lib/mediawiki_selenium/warnings_formatter.rb:25-26 | a line reads back as given parts exactly when it is the summary line of those parts |
| Warnings.DefaultNeverNamed | lib/mediawiki_selenium/warnings_formatter.rb:26 | no line naming the default type after " due to " is ever a summary line |
| Warnings.ParseRefusesExamples | lib/mediawiki_selenium/warnings_formatter.rb:25 | `01 warning` and `1 warnings` are not summary lines |
| Decimal.ShowOfValue | lib/mediawiki_selenium/warnings_formatter.rb:25 | a digit string without a leading zero is exactly how its number is written |
| Warnings.SummaryInjective | lib/mediawiki_selenium/warnings_formatter.rb:25-26 | different counts or types never render the same line |
| Warnings.SummaryExamples | lib/mediawiki_selenium/warnings_formatter.rb:25-26 | `1 warning`, `2 warnings`, `3 warnings due to flaky` |
| Errors.Message | lib/mediawiki_selenium/configuration_error.rb:10-12 | the message is the fixed prefix followed by the name |
| Errors.NameOfMessage | lib/mediawiki_selenium/configuration_error.rb:4-12 | the name read back from the message is the constructor's argument |
| Errors.MessageOfNameOf | lib/mediawiki_selenium/configuration_error.rb:10-12 | every text that reads back as a name is that name's message |
| Errors.MessageInjective | lib/mediawiki_selenium/configuration_error.rb:10-12 | two errors render the same message exactly when their names are equal |

## Left out

- `Environment` behaviour that no example shows is not modelled. This covers rejecting unsupported browser types, how `remote?` is decided, and URL edge cases.
- Environments.BrowserName: lowercases ASCII letters only. Ruby's `downcase` also folds non-ASCII letters, which browser names do not contain. An empty `browser` string is treated like a missing one.
- Config.Lookup: an alternative key that holds `nil` falls back to the plain key, as Ruby's `||` would. The examples only show absent keys.
- WikiUrls.Resolve: queries, fragments, dot segments (section 5.2.4 of RFC 3986) and network-path references (`//host`) are not modelled. A reference counts as absolute only when its scheme is followed by `//`.
- Decimal.ToI: Ruby's `String#to_i` also accepts `_` between digits and skips a `0d`/`0D` prefix after the sign. This model stops at the first non-digit, so it reads `"0d30"` as 0.
- `Environment#env` (`spec/environment_spec.rb:168-172`) returns the receiver; a value model has nothing to state about it.
- Selenium objects are not modelled: the Firefox profile, driver creation and the remote factory. The profile is the map of preferences written to it.
- `format_string` colouring and the `@io` stream: output is the sequence of lines written, uncoloured.
- `FeatureWarnings#mw_warning_messages` (`lib/mediawiki_selenium/warnings_formatter.rb:46-48`) calls `values` on `[type, messages]` pairs. Arrays have no such method, so it raises whenever a feature has a warning.
- `WarningsFormatter#before_feature` only mixes the warnings methods into a feature. Here every feature has them.
- `lib/mediawiki_selenium.rb` only sets up autoloading.
- `SauceHelper` reads a live WebDriver session and swallows its errors.
- `ResetPreferencesPage` is a page-object declaration with no logic.
