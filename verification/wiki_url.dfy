/**
 * `Environment#wiki_url`: a page reference resolved against the configured
 * `mediawiki_url`, as in reference resolution (section 5.2 of RFC 3986),
 * except that a reference counts as absolute only when its scheme is
 * followed by "//": `some:path` is a relative path (a wiki page in a
 * namespace), where section 4.2 of RFC 3986 would read `some` as a scheme.
 * Queries, fragments and dot segments are not modelled.
 */
module WikiUrls {
  import opened Wrappers
  import opened Config
  import opened Environments

  predicate IsAlpha(c: char) {
    'a' <= c <= 'z' || 'A' <= c <= 'Z'
  }

  /** The characters of a scheme after its first letter (section 3.1 of RFC 3986). */
  predicate IsSchemeChar(c: char) {
    IsAlpha(c) || '0' <= c <= '9' || c == '+' || c == '-' || c == '.'
  }

  /** The end of the run of scheme characters that starts at `i`. */
  function RunFrom(s: string, i: nat): (r: nat)
    requires i <= |s|
    ensures i <= r <= |s|
    ensures forall j :: i <= j < r ==> IsSchemeChar(s[j])
    ensures r < |s| ==> !IsSchemeChar(s[r])
    decreases |s| - i
  {
    if i < |s| && IsSchemeChar(s[i]) then RunFrom(s, i + 1) else i
  }

  /** The index of the first "/" at or after `i`, or `|s|` when there is none. */
  function SlashFrom(s: string, i: nat): (r: nat)
    requires i <= |s|
    ensures i <= r <= |s|
    ensures forall j :: i <= j < r ==> s[j] != '/'
    ensures r < |s| ==> s[r] == '/'
    decreases |s| - i
  {
    if i < |s| && s[i] != '/' then SlashFrom(s, i + 1) else i
  }

  /** The run of scheme characters from `i` ends at the first character that is not one. */
  lemma RunFromIs(s: string, i: nat, j: nat)
    requires i <= j <= |s|
    requires forall k :: i <= k < j ==> IsSchemeChar(s[k])
    requires j < |s| ==> !IsSchemeChar(s[j])
    ensures RunFrom(s, i) == j
  {
  }

  /** The length of the scheme `s` starts with; 0 when it starts with none. */
  function SchemeLength(s: string): (n: nat)
    ensures n <= |s|
    ensures n > 0 ==> IsAlpha(s[0]) && forall j :: 0 <= j < n ==> IsSchemeChar(s[j])
    ensures n < |s| ==> !IsSchemeChar(s[n]) || n == 0
  {
    if |s| > 0 && IsAlpha(s[0]) then RunFrom(s, 1) else 0
  }

  /** A URL with a scheme and an authority: `scheme://authority...`. */
  predicate IsAbsoluteUrl(s: string) {
    var n := SchemeLength(s);
    n > 0 && n + 3 <= |s| && s[n..n + 3] == "://"
  }

  /** Where the authority of an absolute URL ends and its path begins. */
  function AuthorityEnd(s: string): (r: nat)
    requires IsAbsoluteUrl(s)
    ensures SchemeLength(s) + 3 <= r <= |s|
    ensures r < |s| ==> s[r] == '/'
  {
    SlashFrom(s, SchemeLength(s) + 3)
  }

  /** Scheme and authority of an absolute URL. */
  function Origin(s: string): string
    requires IsAbsoluteUrl(s)
  {
    s[..AuthorityEnd(s)]
  }

  /** The path of an absolute URL: empty, or starting with "/". */
  function Path(s: string): (p: string)
    requires IsAbsoluteUrl(s)
    ensures |p| > 0 ==> p[0] == '/'
    ensures Origin(s) + p == s
  {
    s[AuthorityEnd(s)..]
  }

  /** The index of the last "/" in `s`, if any. */
  function LastSlash(s: string): (r: Option<nat>)
    ensures r.Some? ==> r.value < |s| && s[r.value] == '/' && forall j :: r.value < j < |s| ==> s[j] != '/'
    ensures r.None? ==> forall j :: 0 <= j < |s| ==> s[j] != '/'
    decreases |s|
  {
    if |s| == 0 then None
    else if s[|s| - 1] == '/' then Some(|s| - 1)
    else LastSlash(s[..|s| - 1])
  }

  /**
   * Merging a relative path with the path of a base that has an authority
   * (section 5.2.3 of RFC 3986): "/" and the reference when the base path
   * is empty, else the base path up to and including its last "/", then the
   * reference.
   */
  function MergePaths(basePath: string, ref: string): string {
    match LastSlash(basePath)
    case None => "/" + ref
    case Some(i) => basePath[..i + 1] + ref
  }

  /** The base URL with everything after the last "/" of its path dropped. */
  function Directory(base: string): (d: string)
    requires IsAbsoluteUrl(base)
  {
    var i := LastSlash(base);
    if i.Some? && i.value >= AuthorityEnd(base) then base[..i.value + 1] else base + "/"
  }

  /**
   * Resolves `ref` against `base`: an absolute reference as it is; the
   * empty reference as the base; an absolute path replacing the base's path;
   * any other reference appended to the base's directory. None when a
   * relative reference meets a base that is not an absolute URL.
   */
  function Resolve(base: string, ref: string): (r: Option<string>)
    ensures IsAbsoluteUrl(ref) ==> r == Some(ref)
    ensures !IsAbsoluteUrl(ref) ==> (r.Some? <==> IsAbsoluteUrl(base))
  {
    if IsAbsoluteUrl(ref) then Some(ref)
    else if !IsAbsoluteUrl(base) then None
    else if ref == "" then Some(base)
    else if ref[0] == '/' then Some(Origin(base) + ref)
    else Some(Directory(base) + ref)
  }

  /** `wiki_url(url = nil)`: the configured `mediawiki_url` itself, or `url` resolved against it. */
  function WikiUrl(e: Environment, given: Option<string>): (r: Option<string>)
    ensures given.None? && Get(e.config, UrlKey).Str? ==> r == Some(Get(e.config, UrlKey).text)
    ensures given.None? && Get(e.config, UrlKey) == Nil ==> r == None
    ensures given.Some? && IsAbsoluteUrl(given.value) ==> r == given
    ensures given.Some? && !IsAbsoluteUrl(given.value) ==>
      (r.Some? <==> Get(e.config, UrlKey).Str? && IsAbsoluteUrl(Get(e.config, UrlKey).text))
  {
    match given
    case None =>
      (match Get(e.config, UrlKey)
       case Nil => None
       case Str(base) => Some(base))
    case Some(ref) =>
      if IsAbsoluteUrl(ref) then Some(ref)
      else match Get(e.config, UrlKey)
        case Nil => None
        case Str(base) => Resolve(base, ref)
  }

  // ---------------------------------------------------------------- properties

  /** The scheme and authority of `x` are decided before the first "/" after "://", so text after it cannot change them. */
  lemma OriginStable(x: string, tail: string)
    requires IsAbsoluteUrl(x)
    requires |tail| > 0 ==> tail[0] == '/'
    ensures IsAbsoluteUrl(Origin(x) + tail)
    ensures AuthorityEnd(Origin(x) + tail) == AuthorityEnd(x)
    ensures Origin(Origin(x) + tail) == Origin(x)
  {
    var o := Origin(x);
    var y := o + tail;
    var n := SchemeLength(x);
    assert forall j :: 0 <= j < |o| ==> y[j] == x[j];
    RunStable(x, y, 1, n);
    assert SchemeLength(y) == n;
    assert y[n..n + 3] == x[n..n + 3];
    SlashStable(x, y, n + 3, AuthorityEnd(x));
  }

  lemma RunStable(x: string, y: string, i: nat, r: nat)
    requires 1 <= i <= |x| && |x| > 0 && IsAlpha(x[0])
    requires r == RunFrom(x, i) && r < |x|
    requires r < |y| && forall j :: 0 <= j <= r ==> y[j] == x[j]
    ensures RunFrom(y, i) == r
  {
  }

  lemma SlashStable(x: string, y: string, i: nat, r: nat)
    requires i <= |x| && i <= |y| && r == SlashFrom(x, i) && r <= |y|
    requires forall j :: 0 <= j < r ==> y[j] == x[j]
    requires r < |y| ==> y[r] == '/'
    ensures SlashFrom(y, i) == r
  {
  }

  /** Where the last "/" of `o + p` is, given where the last "/" of `p` is. */
  lemma LastSlashOfConcat(o: string, p: string)
    ensures LastSlash(p).Some? ==> LastSlash(o + p) == Some(|o| + LastSlash(p).value)
    ensures LastSlash(p).None? ==> LastSlash(o + p).None? || LastSlash(o + p).value < |o|
  {
    var s := o + p;
    var ls := LastSlash(s);
    match LastSlash(p)
    case Some(k) =>
      assert s[|o| + k] == '/';
    case None =>
  }

  /** The directory of an absolute URL is its origin followed by its path merged with the empty reference. */
  lemma DirectoryIsMerge(base: string)
    requires IsAbsoluteUrl(base)
    ensures Directory(base) == Origin(base) + MergePaths(Path(base), "")
  {
    var a := AuthorityEnd(base);
    LastSlashOfConcat(Origin(base), Path(base));
    assert Origin(base) + Path(base) == base;
    match LastSlash(Path(base))
    case Some(k) =>
      assert base[..a + k + 1] == Origin(base) + Path(base)[..k + 1];
    case None =>
  }

  /**
   * `Resolve` is reference resolution as section 5.2.2 of RFC 3986 states it
   * for a reference without scheme or authority: the base's scheme and
   * authority are kept, and the path is the base path (empty reference),
   * the reference (absolute path), or the two merged (section 5.2.3).
   */
  lemma ResolveFollowsRfc(base: string, ref: string)
    requires IsAbsoluteUrl(base) && !IsAbsoluteUrl(ref)
    ensures var r := Resolve(base, ref).value;
      && IsAbsoluteUrl(r)
      && Origin(r) == Origin(base)
      && (ref == "" ==> Path(r) == Path(base))
      && (|ref| > 0 && ref[0] == '/' ==> Path(r) == ref)
      && (|ref| > 0 && ref[0] != '/' ==> Path(r) == MergePaths(Path(base), ref))
  {
    if ref == "" {
    } else if ref[0] == '/' {
      ResolveAbsolutePath(base, ref);
    } else {
      ResolveRelativePath(base, ref);
    }
  }

  lemma ResolveAbsolutePath(base: string, ref: string)
    requires IsAbsoluteUrl(base) && !IsAbsoluteUrl(ref)
    requires |ref| > 0 && ref[0] == '/'
    ensures var r := Origin(base) + ref;
      Resolve(base, ref) == Some(r) && IsAbsoluteUrl(r) && Origin(r) == Origin(base) && Path(r) == ref
  {
    OriginStable(base, ref);
  }

  lemma ResolveRelativePath(base: string, ref: string)
    requires IsAbsoluteUrl(base) && !IsAbsoluteUrl(ref)
    requires |ref| > 0 && ref[0] != '/'
    ensures var r := Origin(base) + MergePaths(Path(base), ref);
      Resolve(base, ref) == Some(r) && IsAbsoluteUrl(r) && Origin(r) == Origin(base)
      && Path(r) == MergePaths(Path(base), ref)
  {
    var o, dir := Origin(base), MergePaths(Path(base), "");
    DirectoryIsMerge(base);
    MergeAppends(Path(base), ref);
    assert Directory(base) + ref == o + (dir + ref);
    OriginStable(base, dir + ref);
  }

  /** Merging a reference appends it to the merge with the empty reference. */
  lemma MergeAppends(basePath: string, ref: string)
    ensures MergePaths(basePath, ref) == MergePaths(basePath, "") + ref
  {
    match LastSlash(basePath)
    case None =>
      assert "/" + ref == ("/" + "") + ref;
    case Some(i) =>
      assert basePath[..i + 1] + ref == (basePath[..i + 1] + "") + ref;
  }

  /** An absolute path depends on the base only through its scheme and authority. */
  lemma AbsolutePathIgnoresBasePath(base1: string, base2: string, ref: string)
    requires IsAbsoluteUrl(base1) && IsAbsoluteUrl(base2) && Origin(base1) == Origin(base2)
    requires |ref| > 0 && ref[0] == '/'
    ensures Resolve(base1, ref) == Resolve(base2, ref)
  {
    assert !IsAbsoluteUrl(ref) by {
      assert !IsAlpha(ref[0]);
    }
  }

  const ExampleBase := "http://an.example/wiki/"

  function ExampleEnvironment(cache: CacheRef): Environment {
    Environment(map[UrlKey := Str(ExampleBase)], cache)
  }

  lemma ExampleBaseRun()
    ensures RunFrom(ExampleBase, 1) == 4
  {
    assert !IsSchemeChar(ExampleBase[4]);
    assert RunFrom(ExampleBase, 4) == 4;
    assert RunFrom(ExampleBase, 3) == 4;
    assert RunFrom(ExampleBase, 2) == 4;
  }

  lemma ExampleBaseScheme()
    ensures SchemeLength(ExampleBase) == 4 && IsAbsoluteUrl(ExampleBase)
  {
    ExampleBaseRun();
    assert IsAlpha(ExampleBase[0]);
    assert ExampleBase[4..7] == "://";
  }

  lemma ExampleBaseAuthority()
    requires IsAbsoluteUrl(ExampleBase) && SchemeLength(ExampleBase) == 4
    ensures AuthorityEnd(ExampleBase) == 17
  {
    assert ExampleBase[17] == '/';
    assert SlashFrom(ExampleBase, 17) == 17;
    assert SlashFrom(ExampleBase, 12) == 17;
    assert SlashFrom(ExampleBase, 7) == 17;
  }

  lemma ExampleBaseLastSlash()
    ensures LastSlash(ExampleBase) == Some(22)
  {
  }

  lemma ExampleBaseParts()
    ensures IsAbsoluteUrl(ExampleBase)
    ensures Origin(ExampleBase) == "http://an.example"
    ensures Directory(ExampleBase) == ExampleBase
  {
    ExampleBaseScheme();
    ExampleBaseAuthority();
    ExampleBaseLastSlash();
  }

  /** With no given URL, the configured `mediawiki_url` verbatim. */
  lemma WikiUrlNilExample(cache: CacheRef)
    ensures WikiUrl(ExampleEnvironment(cache), None) == Some("http://an.example/wiki/")
  {
  }

  /** How `wiki_url` treats a nonempty relative reference, for any configured absolute URL. */
  lemma WikiUrlOfRelative(e: Environment, base: string, ref: string)
    requires Get(e.config, UrlKey) == Str(base) && IsAbsoluteUrl(base)
    requires !IsAbsoluteUrl(ref) && ref != ""
    ensures ref[0] == '/' ==> WikiUrl(e, Some(ref)) == Some(Origin(base) + ref)
    ensures ref[0] != '/' ==> WikiUrl(e, Some(ref)) == Some(Directory(base) + ref)
  {
  }

  /** A reference whose scheme characters are not followed by ":" has no scheme. */
  lemma NotAbsoluteWithoutColon(ref: string, n: nat)
    requires SchemeLength(ref) == n && n < |ref| && ref[n] != ':'
    ensures !IsAbsoluteUrl(ref)
  {
    if n > 0 && n + 3 <= |ref| {
      assert ref[n..n + 3][0] == ref[n];
    }
  }

  /** A namespace colon not followed by "//" does not make a scheme. */
  lemma NotAbsoluteWithoutSlashes(ref: string, n: nat)
    requires SchemeLength(ref) == n && n + 1 < |ref| && ref[n + 1] != '/'
    ensures !IsAbsoluteUrl(ref)
  {
    if n > 0 && n + 3 <= |ref| {
      assert ref[n..n + 3][1] == ref[n + 1];
    }
  }

  /** Any nonempty relative reference against the example base. */
  lemma ExampleRelative(cache: CacheRef, ref: string)
    requires !IsAbsoluteUrl(ref) && ref != ""
    ensures ref[0] == '/' ==> WikiUrl(ExampleEnvironment(cache), Some(ref)) == Some("http://an.example" + ref)
    ensures ref[0] != '/' ==> WikiUrl(ExampleEnvironment(cache), Some(ref)) == Some(ExampleBase + ref)
  {
    ExampleBaseParts();
    WikiUrlOfRelative(ExampleEnvironment(cache), ExampleBase, ref);
  }

  /** The references of the examples that are relative paths. */
  lemma ExampleRelativePaths(ref: string)
    requires ref == "some/path" || ref == "some:path"
    ensures !IsAbsoluteUrl(ref) && ref != "" && ref[0] != '/'
  {
    RunFromIs(ref, 1, 4);
    if ref == "some/path" {
      NotAbsoluteWithoutColon(ref, 4);
    } else {
      NotAbsoluteWithoutSlashes(ref, 4);
    }
  }

  lemma ExampleAbsolutePath(ref: string)
    requires ref == "/some/path"
    ensures !IsAbsoluteUrl(ref) && ref != "" && ref[0] == '/'
  {
    NotAbsoluteWithoutColon(ref, 0);
  }

  lemma ExampleTexts()
    ensures ExampleBase + "some/path" == "http://an.example/wiki/some/path"
    ensures ExampleBase + "some:path" == "http://an.example/wiki/some:path"
    ensures "http://an.example" + "/some/path" == "http://an.example/some/path"
  {
  }

  /** A relative path is appended to the configured URL's path. */
  lemma WikiUrlRelativeExample(cache: CacheRef)
    ensures WikiUrl(ExampleEnvironment(cache), Some("some/path")) == Some("http://an.example/wiki/some/path")
  {
    ExampleRelativePaths("some/path");
    ExampleRelative(cache, "some/path");
    ExampleTexts();
  }

  /** An absolute path replaces the configured URL's path. */
  lemma WikiUrlAbsolutePathExample(cache: CacheRef)
    ensures WikiUrl(ExampleEnvironment(cache), Some("/some/path")) == Some("http://an.example/some/path")
  {
    ExampleAbsolutePath("/some/path");
    ExampleRelative(cache, "/some/path");
    ExampleTexts();
  }

  /** An absolute URL is returned as given. */
  lemma WikiUrlAbsoluteExample(cache: CacheRef)
    ensures WikiUrl(ExampleEnvironment(cache), Some("http://another.example")) == Some("http://another.example")
  {
    var ref := "http://another.example";
    RunFromIs(ref, 1, 4);
    assert ref[4..7] == "://";
  }

  /** A page in a namespace is a relative path, not a URL with the scheme `some`. */
  lemma WikiUrlNamespaceExample(cache: CacheRef)
    ensures WikiUrl(ExampleEnvironment(cache), Some("some:path")) == Some("http://an.example/wiki/some:path")
  {
    ExampleRelativePaths("some:path");
    ExampleRelative(cache, "some:path");
    ExampleTexts();
  }
}
