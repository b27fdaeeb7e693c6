/**
 * `WarningsFormatter` and its `FeatureWarnings` mix-in: each feature keeps
 * its warning messages per warning type; after a feature the formatter
 * writes that feature's messages and adds them to running per-type counts;
 * after all features it writes one summary line per type.
 *
 * Ruby hashes keep insertion order, so both hashes are modelled as
 * sequences of pairs with distinct keys. Output is the sequence of lines
 * written; `format_string` (terminal colouring) leaves the text as it is.
 */
module Warnings {
  import opened Wrappers
  import opened Decimal

  /** A warning type (a Ruby symbol, by its name). */
  type WarningType = string

  /** The type `mw_warn` uses when none is given. */
  const DefaultType := "default"

  /** An insertion-ordered hash keyed by warning type has each key once. */
  predicate DistinctTypes<V>(t: seq<(WarningType, V)>) {
    forall i, j :: 0 <= i < j < |t| ==> t[i].0 != t[j].0
  }

  /** The position of `ty` among the keys, if present. */
  function IndexOf<V>(t: seq<(WarningType, V)>, ty: WarningType): (r: Option<nat>)
    ensures r.Some? ==> r.value < |t| && t[r.value].0 == ty
    ensures r.None? ==> forall i :: 0 <= i < |t| ==> t[i].0 != ty
    decreases |t|
  {
    if |t| == 0 then None
    else if t[0].0 == ty then Some(0)
    else match IndexOf(t[1..], ty)
      case None => None
      case Some(i) => Some(i + 1)
  }

  /** In a hash with distinct keys, the position of a key is the one place it occurs. */
  lemma IndexOfDistinct<V>(t: seq<(WarningType, V)>, i: nat)
    requires DistinctTypes(t) && i < |t|
    ensures IndexOf(t, t[i].0) == Some(i)
  {
  }

  /** The value under `ty`, if present. */
  function Find<V>(t: seq<(WarningType, V)>, ty: WarningType): (r: Option<V>)
    ensures r.Some? <==> IndexOf(t, ty).Some?
    ensures r.Some? ==> r.value == t[IndexOf(t, ty).value].1
  {
    match IndexOf(t, ty)
    case Some(i) => Some(t[i].1)
    case None => None
  }

  /** The keys of an insertion-ordered hash, in order. */
  function Types<V>(t: seq<(WarningType, V)>): (ks: seq<WarningType>)
    ensures |ks| == |t| && forall i :: 0 <= i < |t| ==> ks[i] == t[i].0
  {
    seq(|t|, i requires 0 <= i < |t| => t[i].0)
  }

  /** A key is among the keys exactly when it has a position. */
  lemma TypesIn<V>(t: seq<(WarningType, V)>, ty: WarningType)
    ensures ty in Types(t) <==> IndexOf(t, ty).Some?
  {
    if ty in Types(t) {
      var i :| 0 <= i < |t| && Types(t)[i] == ty;
      assert t[i].0 == ty;
    }
  }

  /**
   * The keys of a hash after assigning `more`'s keys in turn: `keys`, then
   * each key of `more` that is not yet present, in `more`'s order.
   */
  function Appended(keys: seq<WarningType>, more: seq<WarningType>): seq<WarningType>
    decreases |more|
  {
    if |more| == 0 then keys
    else Appended(if more[0] in keys then keys else keys + [more[0]], more[1..])
  }

  /** Assigning keys keeps the old keys in front and adds exactly the keys assigned. */
  lemma {:induction false} AppendedKeys(keys: seq<WarningType>, more: seq<WarningType>)
    ensures |Appended(keys, more)| >= |keys| && Appended(keys, more)[..|keys|] == keys
    ensures forall t :: t in Appended(keys, more) <==> t in keys || t in more
    decreases |more|
  {
    if |more| > 0 {
      var next := if more[0] in keys then keys else keys + [more[0]];
      AppendedKeys(next, more[1..]);
      assert Appended(next, more[1..])[..|next|][..|keys|] == keys;
      assert forall t :: t in more <==> t == more[0] || t in more[1..];
    }
  }

  /** Positions that keep their key keep their index. */
  lemma FindOthers<V>(t: seq<(WarningType, V)>, r: seq<(WarningType, V)>, ty: WarningType)
    requires DistinctTypes(t) && DistinctTypes(r)
    requires |t| <= |r| && forall i :: 0 <= i < |t| ==> r[i].0 == t[i].0
    requires forall i :: 0 <= i < |t| && t[i].0 != ty ==> r[i].1 == t[i].1
    requires forall i :: |t| <= i < |r| ==> r[i].0 == ty
    ensures forall x :: x != ty ==> Find(r, x) == Find(t, x)
  {
    forall x | x != ty ensures Find(r, x) == Find(t, x) {
      if IndexOf(t, x).Some? {
        IndexOfDistinct(r, IndexOf(t, x).value);
      }
    }
  }

  /**
   * `hash[ty] = v` on an insertion-ordered hash: replaces the value in place
   * when `ty` is present, else appends `ty` as the last key.
   */
  function Put<V>(t: seq<(WarningType, V)>, ty: WarningType, v: V): (r: seq<(WarningType, V)>)
    requires DistinctTypes(t)
    ensures DistinctTypes(r)
    ensures Find(r, ty) == Some(v)
    ensures forall x :: x != ty ==> Find(r, x) == Find(t, x)
    ensures |r| >= |t| && forall i :: 0 <= i < |t| ==> r[i].0 == t[i].0
    ensures |r| == |t| + 1 <==> IndexOf(t, ty).None?
    ensures Types(r) == Types(t) + (if IndexOf(t, ty).None? then [ty] else [])
    ensures forall i :: 0 <= i < |t| && t[i].0 != ty ==> r[i] == t[i]
    ensures forall i :: 0 <= i < |r| && r[i].0 == ty ==> r[i].1 == v
  {
    if IndexOf(t, ty).Some? then
      var i := IndexOf(t, ty).value;
      var r := t[i := (ty, v)];
      FindOthers(t, r, ty);
      IndexOfDistinct(r, i);
      assert Types(r) == Types(t);
      r
    else
      var r := t + [(ty, v)];
      FindOthers(t, r, ty);
      IndexOfDistinct(r, |t|);
      assert Types(r) == Types(t) + [ty];
      r
  }

  // ---------------------------------------------------------------- FeatureWarnings

  /** `mw_warnings`: the messages of one feature, per type. */
  type FeatureWarnings = seq<(WarningType, seq<string>)>

  /** Every type a feature's warnings hold has at least one message: `mw_warn` creates a list only to append to it. */
  predicate NonemptyLists(fw: FeatureWarnings) {
    forall i :: 0 <= i < |fw| ==> |fw[i].1| > 0
  }

  /** A feature's warnings before any `mw_warn`: `@__mediawiki_warnings ||= {}`, the empty hash. */
  function NoWarnings(): (fw: FeatureWarnings)
    ensures |fw| == 0
    ensures DistinctTypes(fw) && NonemptyLists(fw)
    ensures forall ty :: Messages(fw, ty) == []
  {
    []
  }

  /** Warnings whose lists are all nonempty hold some type exactly when some type has a message. */
  lemma EmptyIffNoMessages(fw: FeatureWarnings)
    requires DistinctTypes(fw) && NonemptyLists(fw)
    ensures |fw| == 0 <==> forall ty :: Messages(fw, ty) == []
  {
    if |fw| > 0 {
      IndexOfDistinct(fw, 0);
      assert Messages(fw, fw[0].0) == fw[0].1;
    }
  }

  /** `mw_warnings[type]`, an absent type having no messages. */
  function Messages(fw: FeatureWarnings, ty: WarningType): seq<string> {
    match Find(fw, ty)
    case Some(ms) => ms
    case None => []
  }

  /**
   * `mw_warn(message, type)`: appends the message to the type's list,
   * creating the list (as the last type) when the type is new. The lists of
   * other types and the order of existing types are unchanged.
   */
  function MwWarn(fw: FeatureWarnings, msg: string, ty: WarningType): (r: FeatureWarnings)
    requires DistinctTypes(fw)
    ensures DistinctTypes(r)
    ensures Messages(r, ty) == Messages(fw, ty) + [msg]
    ensures forall t :: t != ty ==> Messages(r, t) == Messages(fw, t)
    ensures |r| >= |fw| && forall i :: 0 <= i < |fw| ==> r[i].0 == fw[i].0
    ensures |r| == |fw| + 1 <==> IndexOf(fw, ty).None?
    ensures IndexOf(fw, ty).Some? ==> |r| == |fw|
    ensures Types(r) == Types(fw) + (if IndexOf(fw, ty).None? then [ty] else [])
    ensures NonemptyLists(fw) ==> NonemptyLists(r)
  {
    Put(fw, ty, Messages(fw, ty) + [msg])
  }

  /** `mw_warn(message)` with the type left out warns under `:default`. */
  function MwWarnDefault(fw: FeatureWarnings, msg: string): (r: FeatureWarnings)
    requires DistinctTypes(fw)
    ensures DistinctTypes(r)
    ensures Messages(r, DefaultType) == Messages(fw, DefaultType) + [msg]
    ensures forall t :: t != DefaultType ==> Messages(r, t) == Messages(fw, t)
    ensures Types(r) == Types(fw) + (if IndexOf(fw, DefaultType).None? then [DefaultType] else [])
    ensures NonemptyLists(fw) ==> NonemptyLists(r)
  {
    MwWarn(fw, msg, DefaultType)
  }

  /** The number of messages of all types. */
  function TotalMessages(fw: FeatureWarnings): nat
    decreases |fw|
  {
    if |fw| == 0 then 0 else |fw[0].1| + TotalMessages(fw[1..])
  }

  /** Every message, type by type in insertion order, each type's messages in order. */
  function AllMessages(fw: FeatureWarnings): (ms: seq<string>)
    ensures |ms| == TotalMessages(fw)
    decreases |fw|
  {
    if |fw| == 0 then [] else fw[0].1 + AllMessages(fw[1..])
  }

  /** The messages of the `i`-th type sit, in order, after those of the types before it. */
  lemma {:induction false} AllMessagesLayout(fw: FeatureWarnings, i: nat)
    requires i < |fw|
    ensures var start := TotalMessages(fw[..i]);
      start + |fw[i].1| <= |AllMessages(fw)|
      && AllMessages(fw)[start..start + |fw[i].1|] == fw[i].1
    decreases i
  {
    if i > 0 {
      var head, rest := fw[0].1, AllMessages(fw[1..]);
      var start := TotalMessages(fw[1..][..i - 1]);
      AllMessagesLayout(fw[1..], i - 1);
      assert fw[1..][..i - 1] == fw[..i][1..];
      assert TotalMessages(fw[..i]) == |head| + start;
      assert fw[1..][i - 1] == fw[i];
      assert AllMessages(fw) == head + rest;
      SliceOfAppend(head, rest, start, start + |fw[i].1|);
    }
  }

  lemma SliceOfAppend<T>(a: seq<T>, b: seq<T>, lo: nat, hi: nat)
    requires lo <= hi <= |b|
    ensures (a + b)[|a| + lo..|a| + hi] == b[lo..hi]
  {
    assert forall k :: 0 <= k < hi - lo ==> (a + b)[|a| + lo..|a| + hi][k] == b[lo..hi][k];
  }

  // ---------------------------------------------------------------- WarningsFormatter

  /** `@warning_counts`, a `Hash.new(0)` of counts per type. */
  type Counts = seq<(WarningType, nat)>

  datatype Formatter = Formatter(counts: Counts)

  /** `WarningsFormatter.new`: no counts yet, the empty hash. */
  function NewFormatter(): (f: Formatter)
    ensures |f.counts| == 0
    ensures DistinctTypes(f.counts)
    ensures forall ty :: Count(f.counts, ty) == 0
  {
    Formatter([])
  }

  /** `@warning_counts[type]`: 0 for a type never counted. */
  function Count(counts: Counts, ty: WarningType): nat {
    match Find(counts, ty)
    case Some(n) => n
    case None => 0
  }

  /** `@warning_counts[type] += n`: the type is added, last, when new (even for n = 0). */
  function AddCount(counts: Counts, ty: WarningType, n: nat): (r: Counts)
    requires DistinctTypes(counts)
    ensures DistinctTypes(r)
    ensures Count(r, ty) == Count(counts, ty) + n
    ensures forall t :: t != ty ==> Count(r, t) == Count(counts, t)
    ensures Find(r, ty).Some?
    ensures forall t :: Find(counts, t).Some? ==> Find(r, t).Some?
    ensures Types(r) == Types(counts) + (if IndexOf(counts, ty).None? then [ty] else [])
  {
    Put(counts, ty, Count(counts, ty) + n)
  }

  /** The messages of the types after the first. */
  lemma MessagesOfTail(fw: FeatureWarnings, ty: WarningType)
    requires DistinctTypes(fw) && |fw| > 0
    ensures ty == fw[0].0 ==> Messages(fw, ty) == fw[0].1 && Messages(fw[1..], ty) == []
    ensures ty != fw[0].0 ==> Messages(fw, ty) == Messages(fw[1..], ty)
  {
    if ty == fw[0].0 {
      IndexOfDistinct(fw, 0);
    } else if IndexOf(fw[1..], ty).Some? {
      IndexOfDistinct(fw, IndexOf(fw[1..], ty).value + 1);
    }
  }

  /** Assigning `fw`'s first key and then the rest appends the same keys as assigning them all. */
  lemma AppendedStep<V>(counts: Counts, fw: seq<(WarningType, V)>, next: Counts)
    requires |fw| > 0
    requires Types(next) == Types(counts) + (if IndexOf(counts, fw[0].0).None? then [fw[0].0] else [])
    ensures Appended(Types(counts), Types(fw)) == Appended(Types(next), Types(fw[1..]))
  {
    var ks, more := Types(counts), Types(fw);
    TypesIn(counts, fw[0].0);
    assert more[0] == fw[0].0 && more[1..] == Types(fw[1..]);
    if more[0] in ks {
      assert Types(next) == ks;
      assert Appended(ks, more) == Appended(ks, more[1..]);
    } else {
      assert Types(next) == ks + [more[0]];
      assert Appended(ks, more) == Appended(ks + [more[0]], more[1..]);
    }
  }

  /** Each type's message count added to its running count, type by type. */
  function AddCounts(counts: Counts, fw: FeatureWarnings): (r: Counts)
    requires DistinctTypes(counts) && DistinctTypes(fw)
    ensures DistinctTypes(r)
    ensures forall ty :: Count(r, ty) == Count(counts, ty) + |Messages(fw, ty)|
    ensures forall i :: 0 <= i < |fw| ==> Find(r, fw[i].0).Some?
    ensures forall t :: Find(counts, t).Some? ==> Find(r, t).Some?
    ensures Types(r) == Appended(Types(counts), Types(fw))
    decreases |fw|
  {
    if |fw| == 0 then counts
    else
      var r := AddCounts(AddCount(counts, fw[0].0, |fw[0].1|), fw[1..]);
      AppendedStep(counts, fw, AddCount(counts, fw[0].0, |fw[0].1|));
      assert forall ty :: Count(r, ty) == Count(counts, ty) + |Messages(fw, ty)| by {
        forall ty ensures Count(r, ty) == Count(counts, ty) + |Messages(fw, ty)| {
          MessagesOfTail(fw, ty);
        }
      }
      assert forall i :: 0 <= i < |fw| ==> Find(r, fw[i].0).Some? by {
        forall i | 0 < i < |fw| ensures Find(r, fw[i].0).Some? {
          assert fw[i] == fw[1..][i - 1];
        }
      }
      r
  }

  /**
   * `after_feature(feature)`: nothing for a feature without warnings.
   * Otherwise every message, type by type, then one blank line; each type's
   * running count grows by its number of messages.
   */
  function AfterFeature(f: Formatter, fw: FeatureWarnings): (out: (seq<string>, Formatter))
    requires DistinctTypes(f.counts) && DistinctTypes(fw)
    ensures var (lines, f') := out;
      && DistinctTypes(f'.counts)
      && (forall ty :: Count(f'.counts, ty) == Count(f.counts, ty) + |Messages(fw, ty)|)
      && Types(f'.counts) == Appended(Types(f.counts), Types(fw))
      && (|fw| == 0 ==> lines == [] && f' == f)
      && (|fw| > 0 ==> |lines| == TotalMessages(fw) + 1
                       && lines[..|lines| - 1] == AllMessages(fw)
                       && lines[|lines| - 1] == "")
  {
    if |fw| == 0 then ([], f)
    else (AllMessages(fw) + [""], Formatter(AddCounts(f.counts, fw)))
  }

  /** The parts of a summary line. */
  datatype SummaryParts = SummaryParts(count: nat, plural: bool, wtype: WarningType)

  /** One line of `after_features`: "<n> warning", "s" when n > 1, " due to <type>" unless the type is `:default`. */
  function Summary(n: nat, ty: WarningType): (line: string)
    ensures ParseSummary(line) == Some(SummaryParts(n, n > 1, ty))
  {
    LineRoundTrip(n, ty);
    Show(n) + Tail(n, ty)
  }

  const WarningWord := " warning"
  const DueTo := " due to "

  /**
   * Reads a summary line back into its count, plural ending and type. Only
   * what `Summary` writes is accepted: a count without leading zeros, the
   * plural ending exactly when the count exceeds one, and no " due to"
   * naming the default type.
   */
  function ParseSummary(line: string): Option<SummaryParts> {
    var digits := DigitPrefix(line);
    if |digits| == 0 || (digits[0] == '0' && |digits| > 1) then None
    else
      var tail := ParseTail(line[|digits|..]);
      if tail.None? || tail.value.0 != (Value(digits) > 1) then None
      else Some(SummaryParts(Value(digits), tail.value.0, tail.value.1))
  }

  /** Reads what follows the count: the plural ending and the type. */
  function ParseTail(rest: string): Option<(bool, WarningType)> {
    if |rest| < |WarningWord| || rest[..|WarningWord|] != WarningWord then None
    else
      var afterWord := rest[|WarningWord|..];
      var plural := |afterWord| > 0 && afterWord[0] == 's';
      var suffix := if plural then afterWord[1..] else afterWord;
      if suffix == "" then Some((plural, DefaultType))
      else if |suffix| >= |DueTo| && suffix[..|DueTo|] == DueTo && suffix[|DueTo|..] != DefaultType
      then Some((plural, suffix[|DueTo|..]))
      else None
  }

  /**
   * The count followed by its tail says the count, ends in "warnings" exactly
   * when the count exceeds one, and names its type (the default type by
   * naming none).
   */
  lemma LineRoundTrip(n: nat, ty: WarningType)
    ensures ParseSummary(Show(n) + Tail(n, ty)) == Some(SummaryParts(n, n > 1, ty))
  {
    var digits := Show(n);
    var tail := Tail(n, ty);
    assert tail[0] == ' ';
    DigitPrefixPrefix(digits, tail);
    ValueOfShow(n);
    assert (digits + tail)[|digits|..] == tail;
    TailRoundTrip(n, ty);
  }

  /** What follows the count in a summary line. */
  function Tail(n: nat, ty: WarningType): string {
    WarningWord + (if n > 1 then "s" else "") + (if ty == DefaultType then "" else DueTo + ty)
  }

  lemma TailRoundTrip(n: nat, ty: WarningType)
    ensures ParseTail(Tail(n, ty)) == Some((n > 1, ty))
  {
    var tail := Tail(n, ty);
    var suffix := if ty == DefaultType then "" else DueTo + ty;
    assert tail[..|WarningWord|] == WarningWord;
    var afterWord := tail[|WarningWord|..];
    if n > 1 {
      assert afterWord == "s" + suffix;
      assert afterWord[1..] == suffix;
    } else {
      assert afterWord == suffix;
    }
    if ty != DefaultType {
      assert suffix[..|DueTo|] == DueTo;
      assert suffix[|DueTo|..] == ty;
    }
  }

  /** Different counts or types never render the same summary line. */
  lemma SummaryInjective(n1: nat, ty1: WarningType, n2: nat, ty2: WarningType)
    ensures Summary(n1, ty1) == Summary(n2, ty2) ==> n1 == n2 && ty1 == ty2
  {
    assert ParseSummary(Summary(n1, ty1)) == Some(SummaryParts(n1, n1 > 1, ty1));
    assert ParseSummary(Summary(n2, ty2)) == Some(SummaryParts(n2, n2 > 1, ty2));
  }

  /** Every line `ParseSummary` accepts is the summary line of what it reads. */
  lemma SummaryOfParse(line: string)
    requires ParseSummary(line).Some?
    ensures var p := ParseSummary(line).value;
      line == Summary(p.count, p.wtype) && p.plural == (p.count > 1)
  {
    var p := ParseSummary(line).value;
    var digits := DigitPrefix(line);
    var rest := line[|digits|..];
    assert line == digits + rest;
    ShowOfValue(digits);
    TailOfParse(rest);
  }

  /** What `ParseTail` accepts is the tail it reads. */
  lemma TailOfParse(rest: string)
    requires ParseTail(rest).Some?
    ensures var (plural, ty) := ParseTail(rest).value;
      rest == WarningWord + (if plural then "s" else "") + (if ty == DefaultType then "" else DueTo + ty)
  {
    var (plural, ty) := ParseTail(rest).value;
    var afterWord := rest[|WarningWord|..];
    assert rest == WarningWord + afterWord;
    var suffix := if plural then afterWord[1..] else afterWord;
    if plural {
      assert afterWord == "s" + suffix;
    }
    if suffix != "" {
      assert suffix == DueTo + ty;
    }
  }

  /** A summary line is exactly the line that reads back as its own parts. */
  lemma SummaryParseIff(line: string, p: SummaryParts)
    ensures ParseSummary(line) == Some(p) <==> line == Summary(p.count, p.wtype) && p.plural == (p.count > 1)
  {
    if ParseSummary(line) == Some(p) {
      SummaryOfParse(line);
    }
    if line == Summary(p.count, p.wtype) && p.plural == (p.count > 1) {
      assert ParseSummary(Summary(p.count, p.wtype)) == Some(p);
    }
  }

  /** Lines `Summary` never writes are refused: a count with a leading zero, or a wrong plural ending. */
  lemma ParseRefusesExamples()
    ensures ParseSummary("01 warning") == None
    ensures ParseSummary("1 warnings") == None
  {
    RefusesLeadingZero();
    RefusesWrongPlural();
  }

  /** No count is ever read with the default type named after " due to ". */
  lemma DefaultNeverNamed(n: nat)
    ensures ParseSummary(Show(n) + (WarningWord + (if n > 1 then "s" else "") + DueTo + DefaultType)) == None
  {
    TailNeverNamesDefault(n > 1);
    ParseAfterCount(n, WarningWord + (if n > 1 then "s" else "") + DueTo + DefaultType);
  }

  /** A line whose text after the count does not parse is refused. */
  lemma ParseAfterCount(n: nat, tail: string)
    requires |tail| > 0 && tail[0] == ' '
    ensures ParseTail(tail).None? ==> ParseSummary(Show(n) + tail).None?
  {
    DigitPrefixPrefix(Show(n), tail);
    assert (Show(n) + tail)[|Show(n)|..] == tail;
  }

  lemma TailNeverNamesDefault(plural: bool)
    ensures ParseTail(WarningWord + (if plural then "s" else "") + DueTo + DefaultType).None?
  {
    var pl := if plural then "s" else "";
    var suffix := DueTo + DefaultType;
    var tail := WarningWord + pl + DueTo + DefaultType;
    assert tail == WarningWord + (pl + suffix);
    assert tail[..|WarningWord|] == WarningWord;
    var afterWord := tail[|WarningWord|..];
    assert afterWord == pl + suffix;
    if plural {
      assert afterWord[1..] == suffix;
    }
    assert suffix[..|DueTo|] == DueTo && suffix[|DueTo|..] == DefaultType;
  }

  lemma RefusesLeadingZero()
    ensures ParseSummary("01 warning") == None
  {
    DigitPrefixPrefix("01", " warning");
    assert "01 warning" == "01" + " warning";
  }

  lemma RefusesWrongPlural()
    ensures ParseSummary("1 warnings") == None
  {
    DigitPrefixPrefix("1", " warnings");
    assert "1 warnings" == "1" + " warnings";
    assert "1 warnings"[1..] == " warnings";
    assert Value("1") == 1;
  }

  /** `after_features`: nothing when no type was counted, else one summary line per counted type, in order. */
  function AfterFeatures(f: Formatter): (lines: seq<string>)
    ensures |lines| == |f.counts|
    ensures forall i :: 0 <= i < |lines| ==>
      ParseSummary(lines[i]) == Some(SummaryParts(f.counts[i].1, f.counts[i].1 > 1, f.counts[i].0))
  {
    var lines := seq(|f.counts|, i requires 0 <= i < |f.counts| => Summary(f.counts[i].1, f.counts[i].0));
    assert forall i :: 0 <= i < |lines| ==>
      ParseSummary(lines[i]) == Some(SummaryParts(f.counts[i].1, f.counts[i].1 > 1, f.counts[i].0)) by {
      forall i | 0 <= i < |lines|
        ensures ParseSummary(lines[i]) == Some(SummaryParts(f.counts[i].1, f.counts[i].1 > 1, f.counts[i].0))
      {
        assert lines[i] == Summary(f.counts[i].1, f.counts[i].0);
      }
    }
    lines
  }

  /** Counts start at zero and add up over the features a run reports. */
  lemma CountsAccumulate(fw1: FeatureWarnings, fw2: FeatureWarnings, ty: WarningType)
    requires DistinctTypes(fw1) && DistinctTypes(fw2)
    ensures var (_, f1) := AfterFeature(NewFormatter(), fw1);
      var (_, f2) := AfterFeature(f1, fw2);
      Count(f2.counts, ty) == |Messages(fw1, ty)| + |Messages(fw2, ty)|
  {
  }

  /** `1 warning`, `2 warnings`, and `3 warnings due to flaky` for a named type. */
  lemma SummaryExamples()
    ensures Summary(1, DefaultType) == "1 warning"
    ensures Summary(2, DefaultType) == "2 warnings"
    ensures Summary(3, "flaky") == "3 warnings due to flaky"
  {
    SummaryOne();
    SummaryTwo();
    SummaryThreeFlaky();
  }

  lemma SummaryOne()
    ensures Summary(1, DefaultType) == "1 warning"
  {
    assert Show(1) == "1";
  }

  lemma SummaryTwo()
    ensures Summary(2, DefaultType) == "2 warnings"
  {
    assert Show(2) == "2";
  }

  lemma SummaryThreeFlaky()
    ensures Summary(3, "flaky") == "3 warnings due to flaky"
  {
    assert Show(3) == "3";
    TailFlaky();
    assert "3" + " warnings due to flaky" == "3 warnings due to flaky";
  }

  lemma TailFlaky()
    ensures Tail(3, "flaky") == " warnings due to flaky"
  {
    assert WarningWord + "s" == " warnings";
    assert " warnings" + DueTo == " warnings due to ";
    assert " warnings due to " + "flaky" == " warnings due to flaky";
  }
}
