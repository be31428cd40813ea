/** Comparing the findings of two scans: once for the report, once for the alert mails. */
module Comparison {

  import opened Common

  type Severity = s: nat | s <= 4

  const MEDIUM: Severity := 2

  datatype Finding = Finding(fingerprint: nat, severity: Severity, code: string)

  // ----- What a scan was able to see -----

  datatype Analyzer = Crawler | Network | Performance | Seo

  datatype AnalyzerStatus = Complete | Partial | Unavailable

  /** The parts of a stored summary that matter here; an analyzer without a usable status is absent. */
  datatype Summary = Summary(status: map<Analyzer, AnalyzerStatus>, metricVersion: string)

  /** Codes are namespaced by a prefix. */
  predicate StartsWith(code: string, prefix: string) {
    prefix <= code
  }

  function AnalyzerFor(code: string): Option<Analyzer> {
    if StartsWith(code, "network.") then Some(Network)
    else if StartsWith(code, "performance.") then Some(Performance)
    else if StartsWith(code, "seo.") then Some(Seo)
    else if StartsWith(code, "broken-link.") || StartsWith(code, "javascript.") || StartsWith(code, "accessibility.") then Some(Crawler)
    else None
  }

  predicate IsComplete(s: Summary, a: Analyzer) {
    a in s.status && s.status[a] == Complete
  }

  predicate Comparable(current: Summary, previous: Summary) {
    current.metricVersion == previous.metricVersion
  }

  predicate CanCompareNew(previous: Summary, code: string) {
    AnalyzerFor(code).None? || IsComplete(previous, AnalyzerFor(code).value)
  }

  predicate CanCompareMissing(code: string, current: Summary, previous: Summary) {
    match AnalyzerFor(code)
    case None => true
    case Some(a) => (a == Performance ==> Comparable(current, previous)) && IsComplete(current, a) && IsComplete(previous, a)
  }

  // ----- The report -----

  datatype Change = New | Worsened(was: Severity) | Improved(was: Severity) | Unchanged(was: Severity)

  datatype Kind = NewKind | WorsenedKind | ImprovedKind | UnchangedKind

  function KindOf(c: Change): Kind {
    match c
    case New => NewKind
    case Worsened(_) => WorsenedKind
    case Improved(_) => ImprovedKind
    case Unchanged(_) => UnchangedKind
  }

  datatype Comparison = Comparison(
    changes: map<nat, Change>, resolved: seq<Finding>,
    added: nat, worsened: nat, improved: nat, same: nat)

  /** The finding a map built from `findings` holds for a fingerprint: the last one. */
  function Find(findings: seq<Finding>, fingerprint: nat): Option<Finding> {
    if findings == [] then None
    else if findings[|findings| - 1].fingerprint == fingerprint then Some(findings[|findings| - 1])
    else Find(findings[..|findings| - 1], fingerprint)
  }

  /** How the report classifies a present finding; None leaves it out. */
  function ChangeOf(f: Finding, previous: seq<Finding>, cs: Summary, ps: Summary): Option<Change> {
    if StartsWith(f.code, "performance.") && !Comparable(cs, ps) then None
    else match Find(previous, f.fingerprint)
      case None => if CanCompareMissing(f.code, cs, ps) then Some(New) else None
      case Some(p) =>
        if f.severity > p.severity then Some(Worsened(p.severity))
        else if f.severity < p.severity then Some(Improved(p.severity))
        else Some(Unchanged(p.severity))
  }

  predicate IsKind(f: Finding, previous: seq<Finding>, cs: Summary, ps: Summary, kind: Kind) {
    var c := ChangeOf(f, previous, cs, ps);
    c.Some? && KindOf(c.value) == kind
  }

  function Count(current: seq<Finding>, previous: seq<Finding>, cs: Summary, ps: Summary, kind: Kind, n: nat): nat
    requires n <= |current|
  {
    if n == 0 then 0
    else Count(current, previous, cs, ps, kind, n - 1) + if IsKind(current[n - 1], previous, cs, ps, kind) then 1 else 0
  }

  /** The changes recorded for the first n findings; if a fingerprint repeats, the last one counts. */
  function ChangesOf(current: seq<Finding>, previous: seq<Finding>, cs: Summary, ps: Summary, n: nat): map<nat, Change>
    requires n <= |current|
  {
    if n == 0 then map[]
    else
      var front, c := ChangesOf(current, previous, cs, ps, n - 1), ChangeOf(current[n - 1], previous, cs, ps);
      if c.Some? then front[current[n - 1].fingerprint := c.value] else front
  }

  /** With unique fingerprints, a change is recorded for exactly the classified findings. */
  lemma {:induction false} ChangesAt(current: seq<Finding>, previous: seq<Finding>, cs: Summary, ps: Summary, n: nat)
    requires n <= |current| && Unique(current)
    ensures var changes := ChangesOf(current, previous, cs, ps, n);
      && (forall fp :: fp in changes ==> exists i :: 0 <= i < n && current[i].fingerprint == fp)
      && forall i :: 0 <= i < n ==>
           var c := ChangeOf(current[i], previous, cs, ps);
           (current[i].fingerprint in changes <==> c.Some?) && (c.Some? ==> changes[current[i].fingerprint] == c.value)
  {
    if n != 0 {
      ChangesAt(current, previous, cs, ps, n - 1);
    }
  }

  ghost predicate Unique(findings: seq<Finding>) {
    forall i, j :: 0 <= i < j < |findings| ==> findings[i].fingerprint != findings[j].fingerprint
  }

  predicate Resolves(f: Finding, current: seq<Finding>, cs: Summary, ps: Summary) {
    Find(current, f.fingerprint).None? && CanCompareMissing(f.code, cs, ps)
  }

  function Resolved(current: seq<Finding>, previous: seq<Finding>, cs: Summary, ps: Summary): seq<Finding> {
    if previous == [] then []
    else
      var front, last := Resolved(current, previous[..|previous| - 1], cs, ps), previous[|previous| - 1];
      if Resolves(last, current, cs, ps) then front + [last] else front
  }

  lemma {:induction false} FindIs(findings: seq<Finding>, fingerprint: nat)
    ensures Find(findings, fingerprint).Some? <==> exists i :: 0 <= i < |findings| && findings[i].fingerprint == fingerprint
    ensures Find(findings, fingerprint).Some? ==>
      Find(findings, fingerprint).value in findings && Find(findings, fingerprint).value.fingerprint == fingerprint
  {
    if findings != [] {
      var n := |findings| - 1;
      FindIs(findings[..n], fingerprint);
      if findings[n].fingerprint != fingerprint {
        forall i | 0 <= i < |findings| && findings[i].fingerprint == fingerprint
          ensures Find(findings[..n], fingerprint).Some?
        {
          assert findings[..n][i] == findings[i];
        }
      }
    }
  }

  lemma {:induction false} FindUnique(findings: seq<Finding>, i: nat)
    requires Unique(findings) && i < |findings|
    ensures Find(findings, findings[i].fingerprint) == Some(findings[i])
    decreases |findings|
  {
    var n := |findings| - 1;
    if i < n {
      assert findings[..n][i] == findings[i];
      FindUnique(findings[..n], i);
    }
  }

  method CompareScanFindings(current: seq<Finding>, previous: seq<Finding>, cs: Summary, ps: Summary)
    returns (r: Comparison)
    ensures r.changes == ChangesOf(current, previous, cs, ps, |current|)
    ensures r.resolved == Resolved(current, previous, cs, ps)
    ensures r.added == Count(current, previous, cs, ps, NewKind, |current|)
    ensures r.worsened == Count(current, previous, cs, ps, WorsenedKind, |current|)
    ensures r.improved == Count(current, previous, cs, ps, ImprovedKind, |current|)
    ensures r.same == Count(current, previous, cs, ps, UnchangedKind, |current|)
  {
    var changes: map<nat, Change> := map[];
    var added, worsened, improved, same := 0, 0, 0, 0;
    for i := 0 to |current|
      invariant changes == ChangesOf(current, previous, cs, ps, i)
      invariant added == Count(current, previous, cs, ps, NewKind, i)
      invariant worsened == Count(current, previous, cs, ps, WorsenedKind, i)
      invariant improved == Count(current, previous, cs, ps, ImprovedKind, i)
      invariant same == Count(current, previous, cs, ps, UnchangedKind, i)
    {
      var f := current[i];
      if StartsWith(f.code, "performance.") && !Comparable(cs, ps) {
        continue;
      }
      var prior := Find(previous, f.fingerprint);
      if prior.None? {
        if CanCompareMissing(f.code, cs, ps) {
          changes, added := changes[f.fingerprint := New], added + 1;
        }
        continue;
      }
      var was := prior.value.severity;
      if f.severity > was {
        changes, worsened := changes[f.fingerprint := Worsened(was)], worsened + 1;
      } else if f.severity < was {
        changes, improved := changes[f.fingerprint := Improved(was)], improved + 1;
      } else {
        changes, same := changes[f.fingerprint := Unchanged(was)], same + 1;
      }
    }
    var resolved := FilterResolved(current, previous, cs, ps);
    r := Comparison(changes, resolved, added, worsened, improved, same);
  }

  method FilterResolved(current: seq<Finding>, previous: seq<Finding>, cs: Summary, ps: Summary) returns (r: seq<Finding>)
    ensures r == Resolved(current, previous, cs, ps)
  {
    r := [];
    for i := 0 to |previous|
      invariant r == Resolved(current, previous[..i], cs, ps)
    {
      assert previous[..i + 1][..i] == previous[..i];
      if Resolves(previous[i], current, cs, ps) {
        r := r + [previous[i]];
      }
    }
    assert previous[..|previous|] == previous;
  }

  // ----- Alerts -----

  datatype Degradation = Degradation(fingerprint: nat, severity: Severity, change: Change)

  /** The degradation that a present finding amounts to; the previous summary may be missing. */
  function DegradationOf(f: Finding, previous: seq<Finding>, ps: Option<Summary>): Option<Degradation> {
    if f.severity < MEDIUM then None
    else match Find(previous, f.fingerprint)
      case None =>
        if ps.Some? && !CanCompareNew(ps.value, f.code) then None else Some(Degradation(f.fingerprint, f.severity, New))
      case Some(p) =>
        if f.severity <= p.severity then None else Some(Degradation(f.fingerprint, f.severity, Worsened(p.severity)))
  }

  function Detected(current: seq<Finding>, n: nat, previous: seq<Finding>, ps: Option<Summary>): seq<(Degradation, string)>
    requires n <= |current|
  {
    if n == 0 then []
    else
      var front, d := Detected(current, n - 1, previous, ps), DegradationOf(current[n - 1], previous, ps);
      if d.Some? then front + [(d.value, current[n - 1].code)] else front
  }

  method DetectScanDegradations(current: seq<Finding>, previous: seq<Finding>, ps: Option<Summary>)
    returns (r: seq<(Degradation, string)>)
    ensures r == Detected(current, |current|, previous, ps)
  {
    r := [];
    for i := 0 to |current|
      invariant r == Detected(current, i, previous, ps)
    {
      var f := current[i];
      if f.severity < MEDIUM {
        continue;
      }
      var prior := Find(previous, f.fingerprint);
      if prior.None? {
        if ps.Some? && !CanCompareNew(ps.value, f.code) {
          continue;
        }
        r := r + [(Degradation(f.fingerprint, f.severity, New), f.code)];
        continue;
      }
      if f.severity > prior.value.severity {
        r := r + [(Degradation(f.fingerprint, f.severity, Worsened(prior.value.severity)), f.code)];
      }
    }
  }

  /** What the completion keeps of a detected degradation. */
  predicate Kept(d: Degradation, code: string, cs: Summary, ps: Summary) {
    && (!StartsWith(code, "performance.") || Comparable(cs, ps))
    && (d.change.Worsened? || CanCompareMissing(code, cs, ps))
  }

  function Alerts(detected: seq<(Degradation, string)>, cs: Summary, ps: Summary): seq<Degradation> {
    if detected == [] then []
    else
      var front, last := Alerts(detected[..|detected| - 1], cs, ps), detected[|detected| - 1];
      if Kept(last.0, last.1, cs, ps) then front + [last.0] else front
  }

  /** The new and worsened findings that a report shows, in order, from a severity upwards. */
  function Shown(current: seq<Finding>, n: nat, changes: map<nat, Change>, minimum: Severity): seq<Degradation>
    requires n <= |current|
  {
    if n == 0 then []
    else
      var front, f := Shown(current, n - 1, changes, minimum), current[n - 1];
      if f.severity >= minimum && f.fingerprint in changes && (changes[f.fingerprint].New? || changes[f.fingerprint].Worsened?)
      then front + [Degradation(f.fingerprint, f.severity, changes[f.fingerprint])]
      else front
  }

  function AtLeast(alerts: seq<Degradation>, minimum: Severity): seq<Degradation> {
    if alerts == [] then []
    else
      var front, last := AtLeast(alerts[..|alerts| - 1], minimum), alerts[|alerts| - 1];
      if last.severity >= minimum then front + [last] else front
  }

  /** The two implementations agree on each finding. */
  lemma SameVerdict(f: Finding, previous: seq<Finding>, cs: Summary, ps: Summary)
    ensures var d, c := DegradationOf(f, previous, Some(ps)), ChangeOf(f, previous, cs, ps);
      (d.Some? && Kept(d.value, f.code, cs, ps)) <==>
        (f.severity >= MEDIUM && c.Some? && (c.value.New? || c.value.Worsened?))
    ensures var d, c := DegradationOf(f, previous, Some(ps)), ChangeOf(f, previous, cs, ps);
      d.Some? && Kept(d.value, f.code, cs, ps) ==> d.value == Degradation(f.fingerprint, f.severity, c.value)
  {
  }

  /** The alerts of a completed scan are exactly the new and worsened findings that its report shows
      against the same previous scan, from medium upwards and in the same order. */
  lemma {:induction false} AlertsMatchReport(current: seq<Finding>, n: nat, previous: seq<Finding>, cs: Summary, ps: Summary)
    requires n <= |current| && Unique(current)
    ensures Alerts(Detected(current, n, previous, Some(ps)), cs, ps) ==
      Shown(current, n, ChangesOf(current, previous, cs, ps, |current|), MEDIUM)
  {
    if n != 0 {
      AlertsMatchReport(current, n - 1, previous, cs, ps);
      var f := current[n - 1];
      SameVerdict(f, previous, cs, ps);
      ChangesAt(current, previous, cs, ps, |current|);
      var front, d := Detected(current, n - 1, previous, Some(ps)), DegradationOf(f, previous, Some(ps));
      if d.Some? {
        assert (front + [(d.value, f.code)])[..|front|] == front;
      }
    }
  }

  /** A recipient's threshold keeps exactly the shown findings from that severity upwards. */
  lemma {:induction false} ThresholdMatchesReport(current: seq<Finding>, n: nat, changes: map<nat, Change>, minimum: Severity)
    requires n <= |current| && minimum >= MEDIUM
    ensures AtLeast(Shown(current, n, changes, MEDIUM), minimum) == Shown(current, n, changes, minimum)
  {
    if n != 0 {
      ThresholdMatchesReport(current, n - 1, changes, minimum);
      var front := Shown(current, n - 1, changes, MEDIUM);
      var all := Shown(current, n, changes, MEDIUM);
      if all != front {
        assert all[..|front|] == front;
      }
    }
  }

  // ----- Looking at the two scans the other way round -----

  /** The fingerprints of one kind of change among the first n findings. */
  ghost function Fps(current: seq<Finding>, previous: seq<Finding>, cs: Summary, ps: Summary, kind: Kind, n: nat): set<nat>
    requires n <= |current|
  {
    if n == 0 then {}
    else
      var front := Fps(current, previous, cs, ps, kind, n - 1);
      if IsKind(current[n - 1], previous, cs, ps, kind) then front + {current[n - 1].fingerprint} else front
  }

  ghost function ResolvedFps(current: seq<Finding>, previous: seq<Finding>, cs: Summary, ps: Summary, n: nat): set<nat>
    requires n <= |previous|
  {
    if n == 0 then {}
    else
      var front := ResolvedFps(current, previous, cs, ps, n - 1);
      if Resolves(previous[n - 1], current, cs, ps) then front + {previous[n - 1].fingerprint} else front
  }

  lemma {:induction false} InFps(current: seq<Finding>, previous: seq<Finding>, cs: Summary, ps: Summary, kind: Kind, n: nat, fp: nat)
    requires n <= |current|
    ensures fp in Fps(current, previous, cs, ps, kind, n) <==>
      exists i :: 0 <= i < n && current[i].fingerprint == fp && IsKind(current[i], previous, cs, ps, kind)
  {
    if n != 0 {
      InFps(current, previous, cs, ps, kind, n - 1, fp);
    }
  }

  lemma {:induction false} InResolvedFps(current: seq<Finding>, previous: seq<Finding>, cs: Summary, ps: Summary, n: nat, fp: nat)
    requires n <= |previous|
    ensures fp in ResolvedFps(current, previous, cs, ps, n) <==>
      exists i :: 0 <= i < n && previous[i].fingerprint == fp && Resolves(previous[i], current, cs, ps)
  {
    if n != 0 {
      InResolvedFps(current, previous, cs, ps, n - 1, fp);
    }
  }

  lemma {:induction false} CountIsSize(current: seq<Finding>, previous: seq<Finding>, cs: Summary, ps: Summary, kind: Kind, n: nat)
    requires n <= |current| && Unique(current)
    ensures Count(current, previous, cs, ps, kind, n) == |Fps(current, previous, cs, ps, kind, n)|
  {
    if n != 0 {
      CountIsSize(current, previous, cs, ps, kind, n - 1);
      InFps(current, previous, cs, ps, kind, n - 1, current[n - 1].fingerprint);
    }
  }

  lemma {:induction false} ResolvedIsSize(current: seq<Finding>, previous: seq<Finding>, cs: Summary, ps: Summary, n: nat)
    requires n <= |previous| && Unique(previous)
    ensures |Resolved(current, previous[..n], cs, ps)| == |ResolvedFps(current, previous, cs, ps, n)|
  {
    if n != 0 {
      ResolvedIsSize(current, previous, cs, ps, n - 1);
      assert previous[..n][..n - 1] == previous[..n - 1];
      InResolvedFps(current, previous, cs, ps, n - 1, previous[n - 1].fingerprint);
    }
  }

  /** Both lists give a fingerprint the same code. */
  ghost predicate CodesAgree(a: seq<Finding>, b: seq<Finding>) {
    forall f, g :: f in a && g in b && f.fingerprint == g.fingerprint ==> f.code == g.code
  }

  lemma CompareMissingSymmetric(code: string, a: Summary, b: Summary)
    ensures CanCompareMissing(code, a, b) <==> CanCompareMissing(code, b, a)
    ensures StartsWith(code, "performance.") && CanCompareMissing(code, a, b) ==> Comparable(a, b)
  {
    if StartsWith(code, "performance.") {
      assert code[0] == 'p';
    }
  }

  /** Seen from one side a finding is new exactly if from the other side it is resolved. */
  lemma NewIsResolved(f: Finding, other: seq<Finding>, a: Summary, b: Summary)
    ensures IsKind(f, other, a, b, NewKind) <==> Resolves(f, other, b, a)
  {
    CompareMissingSymmetric(f.code, a, b);
  }

  /** A finding present in both scans is worsened, improved or the same from one side exactly if it
      is improved, worsened or the same from the other. */
  lemma SharedIsMirrored(f: Finding, g: Finding, x: seq<Finding>, y: seq<Finding>, a: Summary, b: Summary)
    requires Unique(x) && Unique(y) && f in x && g in y && f.fingerprint == g.fingerprint && f.code == g.code
    ensures IsKind(f, y, a, b, WorsenedKind) <==> IsKind(g, x, b, a, ImprovedKind)
    ensures IsKind(f, y, a, b, ImprovedKind) <==> IsKind(g, x, b, a, WorsenedKind)
    ensures IsKind(f, y, a, b, UnchangedKind) <==> IsKind(g, x, b, a, UnchangedKind)
  {
    var i :| 0 <= i < |x| && x[i] == f;
    var j :| 0 <= j < |y| && y[j] == g;
    FindUnique(x, i);
    FindUnique(y, j);
  }

  /** The kind a change has when the two scans swap their roles. */
  function Mirror(kind: Kind): Kind {
    match kind
    case WorsenedKind => ImprovedKind
    case ImprovedKind => WorsenedKind
    case _ => kind
  }

  lemma MirroredSubset(x: seq<Finding>, y: seq<Finding>, a: Summary, b: Summary, kind: Kind)
    requires Unique(x) && Unique(y) && CodesAgree(x, y) && kind != NewKind
    ensures Fps(x, y, a, b, kind, |x|) <= Fps(y, x, b, a, Mirror(kind), |y|)
  {
    forall fp | fp in Fps(x, y, a, b, kind, |x|)
      ensures fp in Fps(y, x, b, a, Mirror(kind), |y|)
    {
      InFps(x, y, a, b, kind, |x|, fp);
      InFps(y, x, b, a, Mirror(kind), |y|, fp);
      var i :| 0 <= i < |x| && x[i].fingerprint == fp && IsKind(x[i], y, a, b, kind);
      FindIs(y, fp);
      var g := Find(y, fp).value;
      assert x[i] in x && g in y;
      SharedIsMirrored(x[i], g, x, y, a, b);
    }
  }

  lemma {:induction false} NewAreResolved(x: seq<Finding>, y: seq<Finding>, a: Summary, b: Summary, n: nat)
    requires n <= |x|
    ensures Fps(x, y, a, b, NewKind, n) == ResolvedFps(y, x, b, a, n)
  {
    if n != 0 {
      NewAreResolved(x, y, a, b, n - 1);
      NewIsResolved(x[n - 1], y, a, b);
    }
  }

  /** The comparison is its own mirror image, fingerprint by fingerprint and count by count. */
  lemma SelfDual(x: seq<Finding>, y: seq<Finding>, a: Summary, b: Summary)
    requires Unique(x) && Unique(y) && CodesAgree(x, y)
    ensures Fps(x, y, a, b, NewKind, |x|) == ResolvedFps(y, x, b, a, |x|)
    ensures Fps(x, y, a, b, WorsenedKind, |x|) == Fps(y, x, b, a, ImprovedKind, |y|)
    ensures Fps(x, y, a, b, UnchangedKind, |x|) == Fps(y, x, b, a, UnchangedKind, |y|)
    ensures Count(x, y, a, b, NewKind, |x|) == |Resolved(y, x, b, a)|
    ensures Count(x, y, a, b, WorsenedKind, |x|) == Count(y, x, b, a, ImprovedKind, |y|)
    ensures Count(x, y, a, b, UnchangedKind, |x|) == Count(y, x, b, a, UnchangedKind, |y|)
  {
    NewAreResolved(x, y, a, b, |x|);
    MirroredSubset(x, y, a, b, WorsenedKind);
    MirroredSubset(y, x, b, a, ImprovedKind);
    MirroredSubset(x, y, a, b, UnchangedKind);
    MirroredSubset(y, x, b, a, UnchangedKind);
    CountIsSize(x, y, a, b, NewKind, |x|);
    ResolvedIsSize(y, x, b, a, |x|);
    assert x[..|x|] == x;
    CountIsSize(x, y, a, b, WorsenedKind, |x|);
    CountIsSize(y, x, b, a, ImprovedKind, |y|);
    CountIsSize(x, y, a, b, UnchangedKind, |x|);
    CountIsSize(y, x, b, a, UnchangedKind, |y|);
  }

  /** The counts partition the reported changes: every fingerprint with a change is counted once. */
  lemma {:induction false} CountsPartition(current: seq<Finding>, previous: seq<Finding>, cs: Summary, ps: Summary, n: nat)
    requires n <= |current| && Unique(current)
    ensures |ChangesOf(current, previous, cs, ps, n)| ==
      Count(current, previous, cs, ps, NewKind, n) + Count(current, previous, cs, ps, WorsenedKind, n)
      + Count(current, previous, cs, ps, ImprovedKind, n) + Count(current, previous, cs, ps, UnchangedKind, n)
  {
    if n != 0 {
      CountsPartition(current, previous, cs, ps, n - 1);
      ChangesAt(current, previous, cs, ps, n - 1);
      assert current[n - 1].fingerprint !in ChangesOf(current, previous, cs, ps, n - 1);
    }
  }

  // ----- Why fingerprints are unique -----

  /** Keeps one finding for each fingerprint, in the place of the first and with the value of the last. */
  method Deduplicate(findings: seq<Finding>) returns (r: seq<Finding>)
    ensures Unique(r)
    ensures forall fp :: Find(r, fp) == Find(findings, fp)
  {
    r := [];
    for i := 0 to |findings|
      invariant Unique(r)
      invariant forall fp :: Find(r, fp) == Find(findings[..i], fp)
    {
      var f := findings[i];
      FindSnoc(findings[..i], f);
      assert findings[..i + 1] == findings[..i] + [f];
      var k := IndexOf(r, f.fingerprint);
      if k < |r| {
        ghost var before := r;
        r := r[k := f];
        forall fp
          ensures Find(r, fp) == Find(findings[..i + 1], fp)
        {
          FindAfterUpdate(before, k, f, fp);
          assert Find(before, fp) == Find(findings[..i], fp);
        }
      } else {
        FindSnoc(r, f);
        r := r + [f];
      }
    }
    assert findings[..|findings|] == findings;
  }

  method IndexOf(findings: seq<Finding>, fingerprint: nat) returns (k: nat)
    ensures k <= |findings| && (k < |findings| ==> findings[k].fingerprint == fingerprint)
    ensures forall i :: 0 <= i < k ==> findings[i].fingerprint != fingerprint
  {
    k := 0;
    while k < |findings| && findings[k].fingerprint != fingerprint
      invariant k <= |findings| && forall i :: 0 <= i < k ==> findings[i].fingerprint != fingerprint
    {
      k := k + 1;
    }
  }

  lemma FindSnoc(findings: seq<Finding>, f: Finding)
    ensures forall fp :: Find(findings + [f], fp) == if fp == f.fingerprint then Some(f) else Find(findings, fp)
  {
    assert (findings + [f])[..|findings|] == findings;
  }

  lemma {:induction false} FindAfterUpdate(r: seq<Finding>, k: nat, f: Finding, fp: nat)
    requires Unique(r) && k < |r| && r[k].fingerprint == f.fingerprint
    ensures Find(r[k := f], fp) == if fp == f.fingerprint then Some(f) else Find(r, fp)
    decreases |r|
  {
    var n := |r| - 1;
    if k == n {
      assert r[k := f][..n] == r[..n];
    } else {
      assert r[k := f][..n] == r[..n][k := f] && r[k := f][n] == r[n];
      FindAfterUpdate(r[..n], k, f, fp);
    }
  }
}
