/** Which versions a vulnerability rule affects. */
module VersionMatch {

  import opened Common

  datatype Version = Version(major: nat, minor: nat, patch: nat)

  const MAX_PART := 1_000_000

  predicate Supported(v: Version) {
    v.major <= MAX_PART && v.minor <= MAX_PART && v.patch <= MAX_PART
  }

  // ----- Text -----

  /** The characters that trimming removes: white space and line terminators of ECMAScript. */
  predicate IsSpace(c: char) {
    || ('\U{0009}' <= c <= '\U{000D}') || c == ' ' || c == '\U{00A0}' || c == '\U{1680}' || ('\U{2000}' <= c <= '\U{200A}')
    || c == '\U{2028}' || c == '\U{2029}' || c == '\U{202F}' || c == '\U{205F}' || c == '\U{3000}' || c == '\U{FEFF}'
  }

  function Trim(s: string): string {
    if s != [] && IsSpace(s[0]) then Trim(s[1..])
    else if s != [] && IsSpace(s[|s| - 1]) then Trim(s[..|s| - 1])
    else s
  }

  predicate IsDigit(c: char) {
    '0' <= c <= '9'
  }

  function DigitValue(c: char): nat
    requires IsDigit(c)
  {
    c as int - '0' as int
  }

  predicate AllDigits(s: string) {
    forall i :: 0 <= i < |s| ==> IsDigit(s[i])
  }

  /** A decimal numeral without leading zeros. */
  predicate IsNumeral(s: string) {
    s != [] && AllDigits(s) && (s[0] == '0' ==> |s| == 1)
  }

  function Value(s: string): nat
    requires AllDigits(s)
  {
    if s == [] then 0 else 10 * Value(s[..|s| - 1]) + DigitValue(s[|s| - 1])
  }

  function Split(s: string): (parts: seq<string>)
    ensures parts != []
  {
    if s == [] then [[]]
    else
      var rest := Split(s[1..]);
      if s[0] == '.' then [[]] + rest else [[s[0]] + rest[0]] + rest[1..]
  }

  /** Three numerals separated by dots, around which white space does not matter. */
  function Parse(s: string): Option<Version> {
    var parts := Split(Trim(s));
    if |parts| == 3 && IsNumeral(parts[0]) && IsNumeral(parts[1]) && IsNumeral(parts[2]) then
      var v := Version(Value(parts[0]), Value(parts[1]), Value(parts[2]));
      if Supported(v) then Some(v) else None
    else None
  }

  // ----- The printer -----

  function Digit(d: nat): char
    requires d < 10
  {
    ('0' as int + d) as char
  }

  function Decimal(n: nat): string {
    if n < 10 then [Digit(n)] else Decimal(n / 10) + [Digit(n % 10)]
  }

  function Print(v: Version): string {
    Decimal(v.major) + "." + Decimal(v.minor) + "." + Decimal(v.patch)
  }

  lemma {:induction false} DecimalIsNumeral(n: nat)
    ensures IsNumeral(Decimal(n)) && Value(Decimal(n)) == n
    ensures n > 0 ==> Decimal(n)[0] != '0'
  {
    if n < 10 {
      assert Decimal(n)[..0] == [];
    } else {
      DecimalIsNumeral(n / 10);
      assert Decimal(n)[..|Decimal(n)| - 1] == Decimal(n / 10);
    }
  }

  lemma {:induction false} NumeralIsDecimal(s: string)
    requires IsNumeral(s)
    ensures Decimal(Value(s)) == s && (|s| > 1 ==> Value(s) >= 10)
    decreases |s|
  {
    var front, last := s[..|s| - 1], s[|s| - 1];
    assert s == front + [last];
    if front == [] {
      assert Value(s) == DigitValue(last);
    } else {
      assert IsNumeral(front) by {
        assert front[0] == s[0];
      }
      NumeralIsDecimal(front);
      assert Value(front) >= 1 by {
        if |front| == 1 {
          assert front[..0] == [] && Value(front) == DigitValue(front[0]);
        }
      }
      assert Value(s) == 10 * Value(front) + DigitValue(last);
      assert Value(s) / 10 == Value(front) && Value(s) % 10 == DigitValue(last);
    }
  }

  predicate NoDot(s: string) {
    '.' !in s
  }

  lemma {:induction false} SplitOne(s: string)
    requires NoDot(s)
    ensures Split(s) == [s]
  {
    if s != [] {
      SplitOne(s[1..]);
      assert [s[0]] + s[1..] == s;
    }
  }

  lemma {:induction false} SplitFirst(a: string, rest: string)
    requires NoDot(a)
    ensures Split(a + "." + rest) == [a] + Split(rest)
  {
    var s := a + "." + rest;
    if a == [] {
      assert s[1..] == rest;
    } else {
      assert s[1..] == a[1..] + "." + rest && s[0] == a[0] != '.';
      SplitFirst(a[1..], rest);
      assert [a[0]] + a[1..] == a;
    }
  }

  function Join(parts: seq<string>): string
    requires parts != []
  {
    if |parts| == 1 then parts[0] else parts[0] + "." + Join(parts[1..])
  }

  lemma {:induction false} JoinSplit(s: string)
    ensures Join(Split(s)) == s
  {
    if s != [] {
      JoinSplit(s[1..]);
      var rest := Split(s[1..]);
      if s[0] == '.' {
        assert ([[]] + rest)[1..] == rest;
        assert [] + "." + Join(rest) == s;
      } else {
        var parts := [[s[0]] + rest[0]] + rest[1..];
        assert parts[1..] == rest[1..];
        if |rest| > 1 {
          assert ([s[0]] + rest[0]) + "." + Join(rest[1..]) == [s[0]] + (rest[0] + "." + Join(rest[1..]));
        }
        assert [s[0]] + s[1..] == s;
      }
    }
  }

  lemma NumeralHasNoDot(s: string)
    requires IsNumeral(s)
    ensures NoDot(s) && !IsSpace(s[0]) && !IsSpace(s[|s| - 1])
  {
  }

  /** The text of a version parses to that version. */
  lemma PrintedParses(v: Version, s: string)
    requires Supported(v) && Trim(s) == Print(v)
    ensures Parse(s) == Some(v)
  {
    DecimalIsNumeral(v.major);
    DecimalIsNumeral(v.minor);
    DecimalIsNumeral(v.patch);
    SplitThree(Decimal(v.major), Decimal(v.minor), Decimal(v.patch));
  }

  lemma SplitThree(a: string, b: string, c: string)
    requires NoDot(a) && NoDot(b) && NoDot(c)
    ensures Split(a + "." + b + "." + c) == [a, b, c]
  {
    assert a + "." + b + "." + c == a + "." + (b + "." + c);
    SplitFirst(a, b + "." + c);
    SplitFirst(b, c);
    SplitOne(c);
  }

  /** Texts that parse are exactly the versions' own texts with white space around them. */
  lemma ParsesIffPrinted(s: string, v: Version)
    ensures Parse(s) == Some(v) <==> Supported(v) && Trim(s) == Print(v)
  {
    if Supported(v) && Trim(s) == Print(v) {
      PrintedParses(v, s);
    }
    if Parse(s) == Some(v) {
      var t := Trim(s);
      var parts := Split(t);
      JoinSplit(t);
      NumeralIsDecimal(parts[0]);
      NumeralIsDecimal(parts[1]);
      NumeralIsDecimal(parts[2]);
      assert Join(parts[1..][1..]) == parts[2] && Join(parts[1..]) == parts[1] + "." + parts[2];
      assert parts[0] + "." + (parts[1] + "." + parts[2]) == Print(v);
    }
  }

  /** Printing needs no trimming, so it round-trips. */
  lemma RoundTrip(v: Version)
    requires Supported(v)
    ensures Parse(Print(v)) == Some(v)
  {
    DecimalIsNumeral(v.major);
    DecimalIsNumeral(v.patch);
    NumeralHasNoDot(Decimal(v.major));
    NumeralHasNoDot(Decimal(v.patch));
    assert Print(v)[0] == Decimal(v.major)[0];
    assert Print(v)[|Print(v)| - 1] == Decimal(v.patch)[|Decimal(v.patch)| - 1];
    PrintedParses(v, Print(v));
  }

  // ----- The order -----

  function Sign(x: int): int {
    if x < 0 then -1 else if x > 0 then 1 else 0
  }

  function Order(a: Version, b: Version): int {
    if a.major != b.major then Sign(a.major - b.major)
    else if a.minor != b.minor then Sign(a.minor - b.minor)
    else Sign(a.patch - b.patch)
  }

  /** The order is total: a comparison of two versions is -1, 0 or 1, reversed when they swap, 0
      only for equal versions, and transitive. */
  lemma OrderIsTotal(a: Version, b: Version, c: Version)
    ensures -1 <= Order(a, b) <= 1 && Order(b, a) == -Order(a, b) && (Order(a, b) == 0 <==> a == b)
    ensures Order(a, b) <= 0 && Order(b, c) <= 0 ==> Order(a, c) <= 0
  {
  }

  function Parts(v: Version): seq<int> {
    [v.major, v.minor, v.patch]
  }

  /** The loop over the parts; None if one of the texts is not a version. */
  method CompareVersions(left: string, right: string) returns (r: Option<int>)
    ensures r == if Parse(left).Some? && Parse(right).Some? then Some(Order(Parse(left).value, Parse(right).value)) else None
  {
    var a, b := Parse(left), Parse(right);
    if a.None? || b.None? {
      return None;
    }
    var x, y := Parts(a.value), Parts(b.value);
    for i := 0 to 3
      invariant forall j :: 0 <= j < i ==> x[j] == y[j]
    {
      var delta := x[i] - y[i];
      if delta != 0 {
        assert (i > 0 ==> x[0] == y[0]) && (i > 1 ==> x[1] == y[1]);
        return Some(if delta < 0 then -1 else 1);
      }
    }
    assert x[0] == y[0] && x[1] == y[1] && x[2] == y[2];
    return Some(0);
  }

  // ----- Rules -----

  type Bound = Option<string>

  datatype Rule = Rule(
    exact: Bound, startIncluding: Bound, startExcluding: Bound, endIncluding: Bound, endExcluding: Bound, contextRequired: bool)

  /** `version` may be missing; `sure` means exact and of high confidence. */
  datatype Evidence = Evidence(version: Option<string>, sure: bool)

  datatype Status = Confirmed | Potential | NotApplicable

  /** Present and not empty. */
  predicate Given(b: Bound) {
    b.Some? && b.value != ""
  }

  predicate GivenExact(rule: Rule) {
    Given(rule.exact) && rule.exact.value != "*" && rule.exact.value != "-"
  }

  predicate AnyBound(rule: Rule) {
    Given(rule.startIncluding) || Given(rule.startExcluding) || Given(rule.endIncluding) || Given(rule.endExcluding)
  }

  /** No constraint at all, or constraints that do not go together. */
  predicate Unclear(rule: Rule) {
    || !(GivenExact(rule) || AnyBound(rule))
    || (Given(rule.startIncluding) && Given(rule.startExcluding))
    || (Given(rule.endIncluding) && Given(rule.endExcluding))
    || (GivenExact(rule) && AnyBound(rule))
  }

  /** The first that is present, even if it is empty. */
  function Either(a: Bound, b: Bound): Bound {
    if a.Some? then a else b
  }

  function Compare(left: string, right: string): Option<int> {
    var a, b := Parse(left), Parse(right);
    if a.Some? && b.Some? then Some(Order(a.value, b.value)) else None
  }

  /** The interval is seen to be unusable before any bound is compared with the version. */
  predicate SeenEmpty(rule: Rule) {
    var lower, upper := Either(rule.startIncluding, rule.startExcluding), Either(rule.endIncluding, rule.endExcluding);
    Given(lower) && Given(upper) &&
      match Compare(lower.value, upper.value)
      case None => true
      case Some(order) => order > 0 || (order == 0 && (Given(rule.startExcluding) || Given(rule.endExcluding)))
  }

  /** None if the bound is not a version, otherwise whether `current` passes it. */
  function Passes(current: string, bound: Bound, ok: int -> bool): Option<bool> {
    if !Given(bound) then Some(true)
    else match Compare(current, bound.value)
      case None => None
      case Some(c) => Some(ok(c))
  }

  function MatchRange(current: string, rule: Rule): Status {
    if SeenEmpty(rule) then Potential
    else
      var a := Passes(current, rule.startIncluding, c => c >= 0);
      var b := Passes(current, rule.startExcluding, c => c > 0);
      var c := Passes(current, rule.endIncluding, c => c <= 0);
      var d := Passes(current, rule.endExcluding, c => c < 0);
      if a.None? || b.None? || c.None? || d.None? then Potential
      else if a.value && b.value && c.value && d.value then Confirmed
      else NotApplicable
  }

  function MatchRule(e: Evidence, product: bool, rule: Rule): Status {
    if !product then NotApplicable
    else if !e.sure || e.version.None? || Parse(e.version.value).None? then Potential
    else if rule.contextRequired || Unclear(rule) then Potential
    else if GivenExact(rule) then
      match Compare(e.version.value, rule.exact.value)
      case None => Potential
      case Some(c) => if c == 0 then Confirmed else NotApplicable
    else MatchRange(e.version.value, rule)
  }

  // ----- What a rule means -----

  predicate Below(b: Bound, v: Version, strictly: bool) {
    Given(b) ==> Parse(b.value).Some? && (Order(Parse(b.value).value, v) < 0 || (!strictly && Parse(b.value).value == v))
  }

  predicate Above(b: Bound, v: Version, strictly: bool) {
    Given(b) ==> Parse(b.value).Some? && (Order(v, Parse(b.value).value) < 0 || (!strictly && Parse(b.value).value == v))
  }

  /** The versions a rule denotes. */
  predicate Denotes(rule: Rule, v: Version) {
    if GivenExact(rule) then Parse(rule.exact.value) == Some(v)
    else
      && Below(rule.startIncluding, v, false) && Below(rule.startExcluding, v, true)
      && Above(rule.endIncluding, v, false) && Above(rule.endExcluding, v, true)
  }

  predicate Readable(b: Bound) {
    Given(b) ==> Parse(b.value).Some?
  }

  /** The one of two bounds that is present and not empty, if there is one. */
  function TheGiven(a: Bound, b: Bound): Bound {
    if Given(a) then a else if Given(b) then b else None
  }

  function Lower(rule: Rule): Bound {
    TheGiven(rule.startIncluding, rule.startExcluding)
  }

  function Upper(rule: Rule): Bound {
    TheGiven(rule.endIncluding, rule.endExcluding)
  }

  /** The rule has two bounds, both versions. */
  predicate TwoSided(rule: Rule) {
    Lower(rule).Some? && Upper(rule).Some? && Parse(Lower(rule).value).Some? && Parse(Upper(rule).value).Some?
  }

  /** The two bounds are the wrong way round, or equal with one of them excluded. */
  predicate Disordered(rule: Rule) {
    TwoSided(rule) &&
      var lower, upper := Parse(Lower(rule).value).value, Parse(Upper(rule).value).value;
      Order(lower, upper) > 0 || (lower == upper && (Given(rule.startExcluding) || Given(rule.endExcluding)))
  }

  /** An empty text stands where an including bound would. */
  predicate EmptyInFront(rule: Rule) {
    rule.startIncluding == Some("") || rule.endIncluding == Some("")
  }

  /** The rule is clear, needs no context, and its bounds are versions, not visibly the wrong way round. */
  predicate WellFormed(rule: Rule) {
    && !rule.contextRequired && !Unclear(rule)
    && (GivenExact(rule) ==> Readable(rule.exact))
    && (!GivenExact(rule) ==>
         && Readable(rule.startIncluding) && Readable(rule.startExcluding)
         && Readable(rule.endIncluding) && Readable(rule.endExcluding)
         && (Disordered(rule) ==> EmptyInFront(rule)))
  }

  /** With exact, highly confident evidence of version v and a matching product: the verdict is certain
      exactly for well-formed rules, and then it says whether the rule denotes v. */
  lemma MatchIsMembership(e: Evidence, rule: Rule, v: Version)
    requires e.sure && e.version.Some? && Parse(e.version.value) == Some(v)
    ensures MatchRule(e, true, rule) == Potential <==> !WellFormed(rule)
    ensures MatchRule(e, true, rule) == Confirmed <==> WellFormed(rule) && Denotes(rule, v)
    ensures MatchRule(e, true, rule) == NotApplicable <==> WellFormed(rule) && !Denotes(rule, v)
  {
    if !GivenExact(rule) {
      RangeIsMembership(e.version.value, rule, v);
      if !Unclear(rule) && Readable(rule.startIncluding) && Readable(rule.startExcluding)
        && Readable(rule.endIncluding) && Readable(rule.endExcluding)
      {
        SeenIffInFront(rule);
      }
    }
  }

  /** The check for empty intervals finds exactly the disorder that no empty text hides. */
  lemma SeenIffInFront(rule: Rule)
    requires !Unclear(rule)
    requires Readable(rule.startIncluding) && Readable(rule.startExcluding) && Readable(rule.endIncluding) && Readable(rule.endExcluding)
    ensures SeenEmpty(rule) <==> Disordered(rule) && !EmptyInFront(rule)
  {
    if TwoSided(rule) {
      var lower, upper := Parse(Lower(rule).value).value, Parse(Upper(rule).value).value;
      OrderIsTotal(lower, upper, lower);
    }
  }

  lemma RangeIsMembership(current: string, rule: Rule, v: Version)
    requires Parse(current) == Some(v) && !GivenExact(rule)
    ensures MatchRange(current, rule) ==
      if SeenEmpty(rule) || !(Readable(rule.startIncluding) && Readable(rule.startExcluding)
          && Readable(rule.endIncluding) && Readable(rule.endExcluding)) then Potential
      else if Denotes(rule, v) then Confirmed else NotApplicable
  {
  }

  /** Without such evidence a matching product is never confirmed nor excluded. */
  lemma UnsureIsPotential(e: Evidence, rule: Rule)
    requires !e.sure || e.version.None? || Parse(e.version.value).None?
    ensures MatchRule(e, true, rule) == Potential
  {
  }

  /** No version lies in a disordered interval. */
  lemma DisorderedDenotesNothing(rule: Rule, v: Version)
    requires Disordered(rule) && !Unclear(rule)
    ensures !Denotes(rule, v)
  {
    var lower, upper := Parse(Lower(rule).value).value, Parse(Upper(rule).value).value;
    OrderIsTotal(lower, v, upper);
    OrderIsTotal(upper, v, lower);
  }

  /** A disordered rule should leave the verdict open, and does so exactly if no empty text stands in front
      of one of its bounds; behind an empty text the disorder goes unnoticed and excludes every version. */
  lemma DisorderVerdict(e: Evidence, rule: Rule, v: Version)
    requires e.sure && e.version.Some? && Parse(e.version.value) == Some(v)
    requires !rule.contextRequired && !Unclear(rule) && !GivenExact(rule) && Disordered(rule)
    ensures MatchRule(e, true, rule) == Potential <==> !EmptyInFront(rule)
    ensures MatchRule(e, true, rule) == NotApplicable <==> EmptyInFront(rule)
  {
    MatchIsMembership(e, rule, v);
    DisorderedDenotesNothing(rule, v);
  }

  /** A two-sided rule that is not disordered gets a certain verdict, empty texts or not. */
  lemma OrderedVerdict(e: Evidence, rule: Rule, v: Version)
    requires e.sure && e.version.Some? && Parse(e.version.value) == Some(v)
    requires !rule.contextRequired && !Unclear(rule) && !GivenExact(rule) && TwoSided(rule) && !Disordered(rule)
    ensures MatchRule(e, true, rule) == if Denotes(rule, v) then Confirmed else NotApplicable
  {
    MatchIsMembership(e, rule, v);
  }

  /** For instance: bounds the wrong way round, behind an empty text and without it. */
  lemma EmptyBoundHidesDisorder(lower: Version, upper: Version, e: Evidence, v: Version)
    requires Supported(lower) && Supported(upper) && Order(lower, upper) > 0
    requires e.sure && e.version.Some? && Parse(e.version.value) == Some(v)
    ensures MatchRule(e, true, Rule(None, Some(""), Some(Print(lower)), Some(Print(upper)), None, false)) == NotApplicable
    ensures MatchRule(e, true, Rule(None, Some(Print(lower)), None, Some(""), Some(Print(upper)), false)) == NotApplicable
    ensures MatchRule(e, true, Rule(None, None, Some(Print(lower)), Some(Print(upper)), None, false)) == Potential
  {
    RoundTrip(lower);
    RoundTrip(upper);
    DisorderVerdict(e, Rule(None, Some(""), Some(Print(lower)), Some(Print(upper)), None, false), v);
    DisorderVerdict(e, Rule(None, Some(Print(lower)), None, Some(""), Some(Print(upper)), false), v);
    DisorderVerdict(e, Rule(None, None, Some(Print(lower)), Some(Print(upper)), None, false), v);
  }

  // ----- Several rules -----

  function FirstWith(results: seq<Status>, s: Status): Option<Status> {
    if results == [] then None else if results[0] == s then Some(s) else FirstWith(results[1..], s)
  }

  function Results(e: Evidence, rules: seq<(bool, Rule)>): seq<Status> {
    seq(|rules|, i requires 0 <= i < |rules| => MatchRule(e, rules[i].0, rules[i].1))
  }

  function MatchRules(e: Evidence, rules: seq<(bool, Rule)>): Status {
    var results := Results(e, rules);
    if FirstWith(results, Confirmed).Some? then Confirmed
    else if FirstWith(results, Potential).Some? then Potential
    else if results != [] then results[0]
    else Potential
  }

  lemma {:induction false} FirstWithIff(results: seq<Status>, s: Status)
    ensures FirstWith(results, s).Some? <==> s in results
  {
    if results != [] {
      FirstWithIff(results[1..], s);
      assert s in results <==> s == results[0] || s in results[1..];
    }
  }

  /** Confirmed as soon as one rule confirms, not applicable exactly if there are rules and all of them say so. */
  lemma MatchRulesMeans(e: Evidence, rules: seq<(bool, Rule)>)
    ensures MatchRules(e, rules) == Confirmed <==> exists r :: r in rules && MatchRule(e, r.0, r.1) == Confirmed
    ensures MatchRules(e, rules) == NotApplicable <==>
      rules != [] && forall r :: r in rules ==> MatchRule(e, r.0, r.1) == NotApplicable
  {
    var results := Results(e, rules);
    FirstWithIff(results, Confirmed);
    FirstWithIff(results, Potential);
    forall r | r in rules
      ensures MatchRule(e, r.0, r.1) in results
    {
      var i :| 0 <= i < |rules| && rules[i] == r;
      assert results[i] == MatchRule(e, r.0, r.1);
    }
    forall s | s in results
      ensures exists r :: r in rules && MatchRule(e, r.0, r.1) == s
    {
      var i :| 0 <= i < |results| && results[i] == s;
      assert rules[i] in rules;
    }
    if results != [] && Confirmed !in results && Potential !in results {
      assert results[0] in results;
    }
  }

  /** The status does not depend on the order of the rules or on repeated ones. */
  lemma OrderDoesNotMatter(e: Evidence, a: seq<(bool, Rule)>, b: seq<(bool, Rule)>)
    requires forall r :: r in a <==> r in b
    ensures MatchRules(e, a) == MatchRules(e, b)
  {
    MatchRulesMeans(e, a);
    MatchRulesMeans(e, b);
    assert a == [] <==> b == [] by {
      if a != [] {
        assert a[0] in b;
      }
      if b != [] {
        assert b[0] in a;
      }
    }
  }
}
