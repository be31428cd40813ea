/** Sliding-window quotas on starting scans. Each check counts and inserts in one transaction under
    advisory locks, so it is one step; timestamps are the callers' and come in any order. */
module Quotas {

  import opened Common

  /** `host` is the host name in the stored address of the site; a scan is active until it has ended. */
  datatype Row = Row(
    id: nat, org: nat, site: nat, host: string, user: Option<nat>, manual: bool, publicAudit: bool, queuedAt: int,
    ended: Option<int>)

  /** The limits of public audits come from the configuration. */
  datatype Limits = Limits(userHourly: nat, userConcurrent: nat, cooldown: int)

  const HOUR := 60 * 60_000
  const DAY := 24 * HOUR

  datatype Quota = SiteHourly | OrgDaily | UserHourly(perHour: nat)

  function Window(q: Quota): int {
    if q.OrgDaily? then DAY else HOUR
  }

  function Limit(q: Quota): nat {
    match q
    case SiteHourly => 3
    case OrgDaily => 30
    case UserHourly(perHour) => perHour
  }

  /** The quota is checked when r is inserted. */
  predicate Governs(q: Quota, r: Row) {
    if q.UserHourly? then r.publicAudit else r.manual && !r.publicAudit
  }

  predicate SameScope(q: Quota, a: Row, b: Row) {
    match q
    case SiteHourly => a.org == b.org && a.site == b.site
    case OrgDaily => a.org == b.org
    case UserHourly(_) => a.user == b.user
  }

  /** Row a counts when r is to be inserted: anything started by hand, for the first two quotas. */
  predicate Counts(q: Quota, a: Row, r: Row) {
    && (if q.UserHourly? then a.publicAudit else a.manual) && SameScope(q, a, r)
    && a.queuedAt >= r.queuedAt - Window(q)
  }

  function Count(rows: seq<Row>, p: Row -> bool): nat {
    if rows == [] then 0 else Count(rows[..|rows| - 1], p) + if p(rows[|rows| - 1]) then 1 else 0
  }

  function Counter(q: Quota, r: Row): Row -> bool {
    (a: Row) => Counts(q, a, r)
  }

  function Usage(rows: seq<Row>, q: Quota, r: Row): nat {
    Count(rows, Counter(q, r))
  }

  predicate ActiveSite(rows: seq<Row>, site: nat) {
    exists i :: 0 <= i < |rows| && rows[i].site == site && rows[i].ended.None?
  }

  predicate UsedId(rows: seq<Row>, id: nat) {
    exists i :: 0 <= i < |rows| && rows[i].id == id
  }

  function Ongoing(user: Option<nat>): Row -> bool {
    (a: Row) => a.publicAudit && a.user == user && a.ended.None?
  }

  function Concurrent(rows: seq<Row>, user: Option<nat>): nat {
    Count(rows, Ongoing(user))
  }

  // ----- Host names -----

  predicate EndsWithDot(host: string) {
    host != "" && host[|host| - 1] == '.'
  }

  function StripDot(host: string): string {
    if EndsWithDot(host) then host[..|host| - 1] else host
  }

  /** The host name in the stored address of a site that was entered with this one. */
  function Stored(entered: string): string {
    StripDot(entered)
  }

  /** The host name a public audit asks for, while the query compares it with the stored ones. */
  function Asked(host: string): string {
    StripDot(host)
  }

  /** A public audit asks for the stored host name of its own site exactly if that has no final dot,
      that is, if the entered one did not end with two. */
  lemma AsksForOwnHost(entered: string)
    ensures Asked(Stored(entered)) == Stored(entered) <==> !EndsWithDot(Stored(entered))
    ensures EndsWithDot(Stored(entered)) <==> |entered| >= 2 && entered[|entered| - 2..] == ".."
  {
    if |entered| >= 2 {
      var tail := entered[|entered| - 2..];
      assert tail[0] == entered[|entered| - 2] && tail[1] == entered[|entered| - 1];
      assert tail == ".." <==> tail[0] == '.' && tail[1] == '.';
    }
  }

  /** Scans of the host name that were queued at `since` or later. */
  function Recent(host: string, since: int): Row -> bool {
    (a: Row) => a.host == host && a.queuedAt >= since
  }

  /** The host is idle and was scanned last more than the cooldown ago. */
  predicate Cool(rows: seq<Row>, host: string, now: int, cooldown: int) {
    forall i :: 0 <= i < |rows| && rows[i].host == host ==> rows[i].ended.Some? && rows[i].queuedAt < now - cooldown
  }

  // ----- The machine -----

  datatype Removal = SiteDeleted(site: nat) | ScanRetained(id: nat, cutoff: int)

  predicate Removes(removal: Removal, r: Row) {
    match removal
    case SiteDeleted(site) => r.site == site
    case ScanRetained(id, cutoff) => r.id == id && r.publicAudit && r.ended.Some? && r.ended.value < cutoff
  }

  function Without(rows: seq<Row>, removal: Removal): seq<Row> {
    if rows == [] then []
    else
      var front, last := Without(rows[..|rows| - 1], removal), rows[|rows| - 1];
      if Removes(removal, last) then front else front + [last]
  }

  function Dropped(rows: seq<Row>, removal: Removal): seq<Row> {
    if rows == [] then []
    else
      var front, last := Dropped(rows[..|rows| - 1], removal), rows[|rows| - 1];
      if Removes(removal, last) then front + [last] else front
  }

  function SetEnded(rows: seq<Row>, id: nat, ended: Option<int>): seq<Row> {
    seq(|rows|, i requires 0 <= i < |rows| => if rows[i].id == id then rows[i].(ended := ended) else rows[i])
  }

  /** The rows of the table in the order of their commits; every row ever inserted, every row ever
      removed, and the sites ever deleted. */
  datatype State = State(rows: seq<Row>, accepted: seq<Row>, removed: seq<Row>, gone: set<nat>)

  const INIT := State([], [], [], {})

  datatype Step =
    | StartManual(id: nat, org: nat, site: nat, host: string, now: int)
    | StartPublic(id: nat, org: nat, site: nat, host: string, user: nat, now: int)
    | StartScheduled(id: nat, org: nat, site: nat, host: string, now: int)
    | Change(id: nat, ended: Option<int>)   // a scan ends, or a failed one runs again
    | Remove(removal: Removal)

  predicate IsStart(step: Step) {
    step.StartManual? || step.StartPublic? || step.StartScheduled?
  }

  /** The row that a start wants to insert. */
  function RowOf(step: Step): Row
    requires IsStart(step)
  {
    match step
    case StartManual(id, org, site, host, now) => Row(id, org, site, host, None, true, false, now, None)
    case StartPublic(id, org, site, host, user, now) => Row(id, org, site, host, Some(user), true, true, now, None)
    case StartScheduled(id, org, site, host, now) => Row(id, org, site, host, None, false, false, now, None)
  }

  /** The site exists and the unique index on active scans allows another row. */
  predicate Insertable(s: State, id: nat, site: nat) {
    site !in s.gone && !UsedId(s.rows, id) && !ActiveSite(s.rows, site)
  }

  predicate Admits(s: State, step: Step, limits: Limits)
    requires IsStart(step)
  {
    var r := RowOf(step);
    && Insertable(s, r.id, r.site)
    && (step.StartManual? ==> Usage(s.rows, SiteHourly, r) < Limit(SiteHourly) && Usage(s.rows, OrgDaily, r) < Limit(OrgDaily))
    && (step.StartPublic? ==>
         && Usage(s.rows, UserHourly(limits.userHourly), r) < limits.userHourly
         && Concurrent(s.rows, r.user) < limits.userConcurrent
         && Cool(s.rows, Asked(r.host), r.queuedAt, limits.cooldown))
  }

  function Apply(s: State, step: Step, limits: Limits): State {
    match step
    case Change(id, ended) => s.(rows := SetEnded(s.rows, id, ended))
    case Remove(removal) =>
      if removal.SiteDeleted? && ActiveSite(s.rows, removal.site) then s
      else State(
        Without(s.rows, removal), s.accepted, s.removed + Dropped(s.rows, removal),
        if removal.SiteDeleted? then s.gone + {removal.site} else s.gone)
    case _ =>
      if Admits(s, step, limits) then s.(rows := s.rows + [RowOf(step)], accepted := s.accepted + [RowOf(step)]) else s
  }

  function Run(steps: seq<Step>, limits: Limits): State
    decreases |steps|
  {
    if steps == [] then INIT else Apply(Run(steps[..|steps| - 1], limits), steps[|steps| - 1], limits)
  }

  lemma RunSnoc(steps: seq<Step>, step: Step, limits: Limits)
    ensures Run(steps + [step], limits) == Apply(Run(steps, limits), step, limits)
  {
    assert (steps + [step])[..|steps|] == steps;
  }

  // ----- Counting -----

  lemma CountSnoc(rows: seq<Row>, r: Row, p: Row -> bool)
    ensures Count(rows + [r], p) == Count(rows, p) + if p(r) then 1 else 0
  {
    assert (rows + [r])[..|rows|] == rows;
  }

  lemma {:induction false} CountConcat(a: seq<Row>, b: seq<Row>, p: Row -> bool)
    ensures Count(a + b, p) == Count(a, p) + Count(b, p)
    decreases |b|
  {
    if b == [] {
      assert a + b == a;
    } else {
      assert (a + b)[..|a + b| - 1] == a + b[..|b| - 1];
      CountConcat(a, b[..|b| - 1], p);
    }
  }

  lemma {:induction false} CountZero(rows: seq<Row>, p: Row -> bool)
    ensures Count(rows, p) == 0 <==> forall x :: x in rows ==> !p(x)
    decreases |rows|
  {
    if rows != [] {
      CountZero(rows[..|rows| - 1], p);
      assert rows == rows[..|rows| - 1] + [rows[|rows| - 1]];
    }
  }

  lemma {:induction false} CountAll(rows: seq<Row>, p: Row -> bool)
    requires forall x :: x in rows ==> p(x)
    ensures Count(rows, p) == |rows|
    decreases |rows|
  {
    if rows != [] {
      CountAll(rows[..|rows| - 1], p);
    }
  }

  lemma {:induction false} CountWeaker(rows: seq<Row>, p: Row -> bool, q: Row -> bool)
    requires forall x :: p(x) ==> q(x)
    ensures Count(rows, p) <= Count(rows, q)
    decreases |rows|
  {
    if rows != [] {
      CountWeaker(rows[..|rows| - 1], p, q);
    }
  }

  /** Removing rows moves them out of the count, one for one. */
  lemma {:induction false} CountSplit(rows: seq<Row>, removal: Removal, p: Row -> bool)
    ensures Count(rows, p) == Count(Without(rows, removal), p) + Count(Dropped(rows, removal), p)
    decreases |rows|
  {
    if rows != [] {
      var front, last := rows[..|rows| - 1], rows[|rows| - 1];
      CountSplit(front, removal, p);
      CountSnoc(Without(front, removal), last, p);
      CountSnoc(Dropped(front, removal), last, p);
    }
  }

  /** The same row, ended or not. */
  predicate SameScan(a: Row, b: Row) {
    b == a.(ended := b.ended)
  }

  ghost predicate Timeless(p: Row -> bool) {
    forall a, b :: SameScan(a, b) ==> p(a) == p(b)
  }

  lemma {:induction false} CountSetEnded(rows: seq<Row>, id: nat, ended: Option<int>, p: Row -> bool)
    requires Timeless(p)
    ensures Count(SetEnded(rows, id, ended), p) == Count(rows, p)
    decreases |rows|
  {
    if rows != [] {
      var n := |rows| - 1;
      CountSetEnded(rows[..n], id, ended, p);
      assert SetEnded(rows, id, ended)[..n] == SetEnded(rows[..n], id, ended);
      assert SameScan(rows[n], SetEnded(rows, id, ended)[n]);
    }
  }

  lemma UsageSame(rows: seq<Row>, q: Quota, a: Row, b: Row)
    requires SameScan(a, b)
    ensures Usage(rows, q, a) == Usage(rows, q, b)
  {
    CountWeaker(rows, Counter(q, a), Counter(q, b));
    CountWeaker(rows, Counter(q, b), Counter(q, a));
  }

  // ----- What the checks leave true of the table -----

  /** Each row was within its quota, counted against the rows before it. */
  predicate Admitted(rows: seq<Row>, q: Quota) {
    rows == [] ||
      var front, last := rows[..|rows| - 1], rows[|rows| - 1];
      Admitted(front, q) && (Governs(q, last) ==> Usage(front, q, last) < Limit(q))
  }

  lemma SnocAdmitted(rows: seq<Row>, r: Row, q: Quota)
    ensures Admitted(rows + [r], q) <==> Admitted(rows, q) && (Governs(q, r) ==> Usage(rows, q, r) < Limit(q))
  {
    assert (rows + [r])[..|rows|] == rows;
  }

  lemma {:induction false} WithoutAdmitted(rows: seq<Row>, removal: Removal, q: Quota)
    requires Admitted(rows, q)
    ensures Admitted(Without(rows, removal), q)
    decreases |rows|
  {
    if rows != [] {
      var front, last := rows[..|rows| - 1], rows[|rows| - 1];
      WithoutAdmitted(front, removal, q);
      CountSplit(front, removal, Counter(q, last));
      SnocAdmitted(Without(front, removal), last, q);
    }
  }

  lemma {:induction false} SetEndedAdmitted(rows: seq<Row>, id: nat, ended: Option<int>, q: Quota)
    requires Admitted(rows, q)
    ensures Admitted(SetEnded(rows, id, ended), q)
    decreases |rows|
  {
    if rows != [] {
      var front, last, last' := rows[..|rows| - 1], rows[|rows| - 1], SetEnded(rows, id, ended)[|rows| - 1];
      SetEndedAdmitted(front, id, ended, q);
      assert SetEnded(rows, id, ended)[..|rows| - 1] == SetEnded(front, id, ended);
      CountSetEnded(front, id, ended, Counter(q, last));
      UsageSame(SetEnded(front, id, ended), q, last, last');
    }
  }

  /** The quota is one of those in force. */
  predicate InForce(q: Quota, limits: Limits) {
    q.UserHourly? ==> q.perHour == limits.userHourly
  }

  lemma StepKeepsAdmitted(s: State, step: Step, limits: Limits, q: Quota)
    requires Admitted(s.rows, q) && InForce(q, limits)
    ensures Admitted(Apply(s, step, limits).rows, q)
  {
    match step
    case Change(id, ended) => SetEndedAdmitted(s.rows, id, ended, q);
    case Remove(removal) => WithoutAdmitted(s.rows, removal, q);
    case _ => SnocAdmitted(s.rows, RowOf(step), q);
  }

  lemma {:induction false} AlwaysAdmitted(steps: seq<Step>, limits: Limits, q: Quota)
    requires InForce(q, limits)
    ensures Admitted(Run(steps, limits).rows, q)
    decreases |steps|
  {
    if steps != [] {
      AlwaysAdmitted(steps[..|steps| - 1], limits, q);
      StepKeepsAdmitted(Run(steps[..|steps| - 1], limits), steps[|steps| - 1], limits, q);
    }
  }

  /** Governed rows of the scope of `like` in the closed window that starts at `from`. */
  function Inside(q: Quota, like: Row, from: int): Row -> bool {
    (a: Row) => Governs(q, a) && SameScope(q, a, like) && from <= a.queuedAt <= from + Window(q)
  }

  function InWindow(rows: seq<Row>, q: Quota, like: Row, from: int): nat {
    Count(rows, Inside(q, like, from))
  }

  lemma {:induction false} WindowBounded(rows: seq<Row>, q: Quota, like: Row, from: int)
    requires Admitted(rows, q)
    ensures InWindow(rows, q, like, from) <= Limit(q)
    decreases |rows|
  {
    if rows != [] {
      var front, last := rows[..|rows| - 1], rows[|rows| - 1];
      WindowBounded(front, q, like, from);
      if Inside(q, like, from)(last) {
        CountWeaker(front, Inside(q, like, from), Counter(q, last));
      }
    }
  }

  /** Whatever the order of commits and the timestamps: no one-hour window of the table holds more than
      three manual scans of a site, no one-day window more than thirty of an organization, and no
      one-hour window more public audits of a user than configured. */
  lemma WindowsHold(steps: seq<Step>, limits: Limits, like: Row, from: int)
    ensures InWindow(Run(steps, limits).rows, SiteHourly, like, from) <= 3
    ensures InWindow(Run(steps, limits).rows, OrgDaily, like, from) <= 30
    ensures InWindow(Run(steps, limits).rows, UserHourly(limits.userHourly), like, from) <= limits.userHourly
  {
    AlwaysAdmitted(steps, limits, SiteHourly);
    AlwaysAdmitted(steps, limits, OrgDaily);
    AlwaysAdmitted(steps, limits, UserHourly(limits.userHourly));
    WindowBounded(Run(steps, limits).rows, SiteHourly, like, from);
    WindowBounded(Run(steps, limits).rows, OrgDaily, like, from);
    WindowBounded(Run(steps, limits).rows, UserHourly(limits.userHourly), like, from);
  }

  /** Each public audit came more than the cooldown after every earlier row of the host it asked for. */
  ghost predicate AskedApart(rows: seq<Row>, cooldown: int) {
    forall i, j :: 0 <= i < j < |rows| && rows[j].publicAudit && rows[i].host == Asked(rows[j].host) ==>
      rows[i].queuedAt + cooldown < rows[j].queuedAt
  }

  lemma {:induction false} WithoutApart(rows: seq<Row>, removal: Removal, cooldown: int)
    requires AskedApart(rows, cooldown)
    ensures AskedApart(Without(rows, removal), cooldown)
    ensures forall x :: x in Without(rows, removal) ==> x in rows
    decreases |rows|
  {
    if rows != [] {
      var front, last := rows[..|rows| - 1], rows[|rows| - 1];
      WithoutApart(front, removal, cooldown);
      var kept := Without(front, removal);
      forall i | 0 <= i < |kept| && last.publicAudit && kept[i].host == Asked(last.host)
        ensures kept[i].queuedAt + cooldown < last.queuedAt
      {
        assert kept[i] in front;
      }
    }
  }

  /** Of the rows in the table, a public audit is always more than the cooldown after every earlier scan
      of the host name it asked for. */
  lemma {:induction false} CooldownHolds(steps: seq<Step>, limits: Limits)
    ensures AskedApart(Run(steps, limits).rows, limits.cooldown)
    decreases |steps|
  {
    if steps != [] {
      CooldownHolds(steps[..|steps| - 1], limits);
      if steps[|steps| - 1].Remove? {
        WithoutApart(Run(steps[..|steps| - 1], limits).rows, steps[|steps| - 1].removal, limits.cooldown);
      }
    }
  }

  // ----- What was ever accepted -----

  /** What does not depend on whether scans have ended is counted as often among all accepted rows as among
      those in the table and those removed from it together. */
  predicate Balanced(s: State, p: Row -> bool) {
    Count(s.accepted, p) == Count(s.rows, p) + Count(s.removed, p)
  }

  lemma StepBalances(s: State, step: Step, limits: Limits, p: Row -> bool)
    requires Timeless(p) && Balanced(s, p)
    ensures Balanced(Apply(s, step, limits), p)
  {
    match step
    case Change(id, ended) => CountSetEnded(s.rows, id, ended, p);
    case Remove(removal) =>
      CountSplit(s.rows, removal, p);
      CountConcat(s.removed, Dropped(s.rows, removal), p);
    case _ =>
      CountSnoc(s.rows, RowOf(step), p);
      CountSnoc(s.accepted, RowOf(step), p);
  }

  /** In every run no row is lost from the books. */
  lemma {:induction false} Conserved(steps: seq<Step>, limits: Limits, p: Row -> bool)
    requires Timeless(p)
    ensures Balanced(Run(steps, limits), p)
    decreases |steps|
  {
    if steps != [] {
      Conserved(steps[..|steps| - 1], limits, p);
      StepBalances(Run(steps[..|steps| - 1], limits), steps[|steps| - 1], limits, p);
    }
  }

  /** The count over the table is the count over everything accepted if and only if no scan that would
      count for r has been removed. */
  lemma UsageIsCompleteIff(steps: seq<Step>, limits: Limits, q: Quota, r: Row)
    ensures var s := Run(steps, limits);
      Usage(s.rows, q, r) == Usage(s.accepted, q, r) <==> forall x :: x in s.removed ==> !Counts(q, x, r)
  {
    var s := Run(steps, limits);
    Conserved(steps, limits, Counter(q, r));
    CountZero(s.removed, Counter(q, r));
    assert forall x :: Counter(q, r)(x) == Counts(q, x, r);
  }

  /** What the step accepts was within the quota, counted against everything accepted before. */
  predicate Honest(s: State, step: Step, limits: Limits, q: Quota) {
    IsStart(step) && Governs(q, RowOf(step)) && Admits(s, step, limits) ==>
      Usage(s.rows, q, RowOf(step)) + Usage(s.removed, q, RowOf(step)) < Limit(q)
  }

  /** Every step of the run is honest. */
  predicate AllHonest(steps: seq<Step>, limits: Limits, q: Quota)
    decreases |steps|
  {
    steps == [] ||
      var before := steps[..|steps| - 1];
      AllHonest(before, limits, q) && Honest(Run(before, limits), steps[|steps| - 1], limits, q)
  }

  /** Every scan ever accepted was within the quota, counted against all accepted before it, if and only if
      at each acceptance the removed scans that would have counted still left room for it. */
  lemma {:induction false} HistoryWithinQuotaIff(steps: seq<Step>, limits: Limits, q: Quota)
    requires InForce(q, limits)
    ensures Admitted(Run(steps, limits).accepted, q) <==> AllHonest(steps, limits, q)
    decreases |steps|
  {
    if steps != [] {
      var n := |steps| - 1;
      HistoryWithinQuotaIff(steps[..n], limits, q);
      if IsStart(steps[n]) {
        SnocAdmitted(Run(steps[..n], limits).accepted, RowOf(steps[n]), q);
        Conserved(steps[..n], limits, Counter(q, RowOf(steps[n])));
      }
    }
  }

  /** Of all scans ever accepted, a window holds no more than the quota and the scans of its scope and
      time that were removed; so the quota bounds the history of every scope that lost no such scan. */
  lemma AcceptedWithinQuota(steps: seq<Step>, limits: Limits, q: Quota, like: Row, from: int)
    requires InForce(q, limits)
    ensures var s := Run(steps, limits);
      && InWindow(s.accepted, q, like, from) <= Limit(q) + InWindow(s.removed, q, like, from)
      && ((forall x :: x in s.removed ==> !Inside(q, like, from)(x)) ==> InWindow(s.accepted, q, like, from) <= Limit(q))
  {
    Conserved(steps, limits, Inside(q, like, from));
    AlwaysAdmitted(steps, limits, q);
    WindowBounded(Run(steps, limits).rows, q, like, from);
    CountZero(Run(steps, limits).removed, Inside(q, like, from));
  }

  /** A public audit that ended no earlier than it was queued, and that retention, keeping audits for `keep`,
      may remove up to the time `now`. */
  predicate Retained(x: Row, cutoff: int, now: int, keep: int) {
    Removes(ScanRetained(x.id, cutoff), x) && x.queuedAt <= x.ended.value && cutoff <= now - keep
  }

  /** As long as timestamps do not go back, retention removes no scan that a quota would count if and only
      if it keeps audits for at least the window of the quota; it always keeps them for a day. */
  lemma RetentionSparesQuotaIff(q: Quota, r: Row, keep: int)
    requires r.user.Some?
    ensures (forall x, cutoff :: Retained(x, cutoff, r.queuedAt, keep) ==> !Counts(q, x, r)) <==> Window(q) <= keep
    ensures Window(q) <= DAY
  {
    if Window(q) > keep {
      var queuedAt := r.queuedAt - Window(q);
      var x := r.(manual := true, publicAudit := true, queuedAt := queuedAt, ended := Some(queuedAt));
      assert Retained(x, r.queuedAt - keep, r.queuedAt, keep) && Counts(q, x, r);
    }
  }

  /** In the same way it removes no scan that the cooldown looks at if and only if it keeps audits for at
      least the cooldown, of which nothing makes sure. */
  lemma RetentionSparesCooldownIff(r: Row, keep: int, cooldown: int)
    ensures (forall x, cutoff :: Retained(x, cutoff, r.queuedAt, keep) ==> !Recent(r.host, r.queuedAt - cooldown)(x))
      <==> cooldown <= keep
  {
    if cooldown > keep {
      var queuedAt := r.queuedAt - cooldown;
      var x := r.(publicAudit := true, queuedAt := queuedAt, ended := Some(queuedAt));
      assert Retained(x, r.queuedAt - keep, r.queuedAt, keep) && Recent(r.host, r.queuedAt - cooldown)(x);
    }
  }

  // ----- The cooldown over everything accepted -----

  /** Each public audit came more than the cooldown after every earlier row of its own host. */
  ghost predicate Apart(rows: seq<Row>, cooldown: int) {
    forall i, j :: 0 <= i < j < |rows| && rows[j].publicAudit && rows[i].host == rows[j].host ==>
      rows[i].queuedAt + cooldown < rows[j].queuedAt
  }

  lemma SnocApart(rows: seq<Row>, r: Row, cooldown: int)
    ensures Apart(rows + [r], cooldown) <==>
      Apart(rows, cooldown) && (r.publicAudit ==> Count(rows, Recent(r.host, r.queuedAt - cooldown)) == 0)
  {
    CountZero(rows, Recent(r.host, r.queuedAt - cooldown));
    if Apart(rows + [r], cooldown) {
      ApartFront(rows, r, cooldown);
      if r.publicAudit {
        ApartLast(rows, r, cooldown);
      }
    } else {
      var more := rows + [r];
      var i, j :| 0 <= i < j < |more| && more[j].publicAudit && more[i].host == more[j].host
        && more[i].queuedAt + cooldown >= more[j].queuedAt;
      assert more[i] == rows[i] && rows[i] in rows;
      assert j == |rows| ==> Recent(r.host, r.queuedAt - cooldown)(rows[i]);
    }
  }

  lemma ApartFront(rows: seq<Row>, r: Row, cooldown: int)
    requires Apart(rows + [r], cooldown)
    ensures Apart(rows, cooldown)
  {
    assert forall i :: 0 <= i < |rows| ==> (rows + [r])[i] == rows[i];
  }

  lemma ApartLast(rows: seq<Row>, r: Row, cooldown: int)
    requires Apart(rows + [r], cooldown) && r.publicAudit
    ensures forall x :: x in rows ==> !Recent(r.host, r.queuedAt - cooldown)(x)
  {
    forall x | x in rows
      ensures !Recent(r.host, r.queuedAt - cooldown)(x)
    {
      var i :| 0 <= i < |rows| && rows[i] == x;
      assert (rows + [r])[i] == x && (rows + [r])[|rows|] == r;
    }
  }

  /** How many recent scans of its own host the check of r does not see: those that were removed, and all
      others too if it asks for another host name. */
  function Overlooked(s: State, r: Row, cooldown: int): nat {
    var recent := Recent(r.host, r.queuedAt - cooldown);
    Count(s.removed, recent) + if EndsWithDot(r.host) then Count(s.rows, recent) else 0
  }

  predicate Seeing(s: State, step: Step, limits: Limits) {
    step.StartPublic? && Admits(s, step, limits) ==> Overlooked(s, RowOf(step), limits.cooldown) == 0
  }

  /** No step of the run overlooks anything. */
  predicate AllSeeing(steps: seq<Step>, limits: Limits)
    decreases |steps|
  {
    steps == [] ||
      var before := steps[..|steps| - 1];
      AllSeeing(before, limits) && Seeing(Run(before, limits), steps[|steps| - 1], limits)
  }

  /** What the check sees is not recent. */
  lemma AdmittedIsCool(s: State, step: Step, limits: Limits)
    requires step.StartPublic? && Admits(s, step, limits) && !EndsWithDot(step.host)
    ensures Count(s.rows, Recent(step.host, step.now - limits.cooldown)) == 0
  {
    CountZero(s.rows, Recent(step.host, step.now - limits.cooldown));
    forall x | x in s.rows
      ensures !Recent(step.host, step.now - limits.cooldown)(x)
    {
      var i :| 0 <= i < |s.rows| && s.rows[i] == x;
    }
  }

  lemma StepApartIff(s: State, step: Step, limits: Limits)
    requires IsStart(step) && Balanced(s, Recent(step.host, step.now - limits.cooldown))
    ensures Apart(Apply(s, step, limits).accepted, limits.cooldown) <==>
      Apart(s.accepted, limits.cooldown) && Seeing(s, step, limits)
  {
    if Admits(s, step, limits) {
      SnocApart(s.accepted, RowOf(step), limits.cooldown);
      if step.StartPublic? && !EndsWithDot(step.host) {
        AdmittedIsCool(s, step, limits);
      }
    }
  }

  /** Of all public audits ever accepted, each came more than the cooldown after every earlier scan of its
      host, if and only if no acceptance overlooked a recent scan of its host. */
  lemma {:induction false} CooldownIff(steps: seq<Step>, limits: Limits)
    ensures Apart(Run(steps, limits).accepted, limits.cooldown) <==> AllSeeing(steps, limits)
    decreases |steps|
  {
    if steps != [] {
      var n := |steps| - 1;
      CooldownIff(steps[..n], limits);
      if IsStart(steps[n]) {
        Conserved(steps[..n], limits, Recent(steps[n].host, steps[n].now - limits.cooldown));
        StepApartIff(Run(steps[..n], limits), steps[n], limits);
      }
    }
  }

  // ----- Where the bounds fail -----

  /** The n-th start of a series at one instant, each for a site of its own. */
  function Nth(audits: bool, n: nat): Step {
    if audits then StartPublic(n, 0, n, "host", 0, 0) else StartManual(n, 0, n, "host", 0)
  }

  function Series(audits: bool, from: nat, k: nat): seq<Row> {
    seq(k, i requires 0 <= i => RowOf(Nth(audits, from + i)))
  }

  lemma SeriesAt(audits: bool, from: nat, k: nat)
    ensures |Series(audits, from, k)| == k
    ensures forall i :: 0 <= i < k ==> Series(audits, from, k)[i] == RowOf(Nth(audits, from + i))
  {
  }

  lemma CountOne(r: Row, p: Row -> bool)
    ensures Count([r], p) == if p(r) then 1 else 0
  {
    assert [r][..0] == [];
  }

  /** With an empty table a start is accepted. */
  lemma FirstAccepted(s: State, start: Step, limits: Limits)
    requires IsStart(start) && s.rows == [] && RowOf(start).site !in s.gone
    requires start.StartPublic? ==> limits.userHourly > 0 && limits.userConcurrent > 0
    ensures Apply(s, start, limits) == s.(rows := [RowOf(start)], accepted := s.accepted + [RowOf(start)])
  {
    assert Admits(s, start, limits);
  }

  lemma OnlyRowRemoved(r: Row, removal: Removal)
    requires Removes(removal, r)
    ensures Without([r], removal) == [] && Dropped([r], removal) == [r]
  {
    assert [r][..0] == [];
  }

  lemma OnlyRowEnds(s: State, r: Row, limits: Limits)
    requires s.rows == [r]
    ensures Apply(s, Change(r.id, Some(0)), limits) == s.(rows := [r.(ended := Some(0))])
  {
    assert SetEnded(s.rows, r.id, Some(0)) == [r.(ended := Some(0))];
  }

  /** The only scan of the table ends, and is removed. */
  lemma LastRemoved(s: State, r: Row, removal: Removal, limits: Limits)
    requires s.rows == [r] && Removes(removal, r.(ended := Some(0)))
    ensures Apply(Apply(s, Change(r.id, Some(0)), limits), Remove(removal), limits)
      == State([], s.accepted, s.removed + [r.(ended := Some(0))], if removal.SiteDeleted? then s.gone + {removal.site} else s.gone)
  {
    OnlyRowEnds(s, r, limits);
    OnlyRowGoes(s.(rows := [r.(ended := Some(0))]), r.(ended := Some(0)), removal, limits);
  }

  lemma OnlyRowGoes(s: State, r: Row, removal: Removal, limits: Limits)
    requires s.rows == [r] && r.ended.Some? && Removes(removal, r)
    ensures Apply(s, Remove(removal), limits)
      == State([], s.accepted, s.removed + [r], if removal.SiteDeleted? then s.gone + {removal.site} else s.gone)
  {
    OnlyRowRemoved(r, removal);
  }

  /** One scan is accepted with an empty table, ends, and is removed. */
  lemma OneRound(before: seq<Step>, start: Step, removal: Removal, limits: Limits)
    requires IsStart(start) && Run(before, limits).rows == [] && RowOf(start).site !in Run(before, limits).gone
    requires start.StartPublic? ==> limits.userHourly > 0 && limits.userConcurrent > 0
    requires Removes(removal, RowOf(start).(ended := Some(0)))
    ensures
      var s, r := Run(before, limits), RowOf(start);
      Run(before + [start] + [Change(r.id, Some(0))] + [Remove(removal)], limits)
        == State([], s.accepted + [r], s.removed + [r.(ended := Some(0))],
                 if removal.SiteDeleted? then s.gone + {removal.site} else s.gone)
  {
    var s, end := Run(before, limits), Change(RowOf(start).id, Some(0));
    FirstAccepted(s, start, limits);
    LastRemoved(Apply(s, start, limits), RowOf(start), removal, limits);
    RunSnoc(before, start, limits);
    RunSnoc(before + [start], end, limits);
    RunSnoc(before + [start] + [end], Remove(removal), limits);
  }

  /** Any number of scans can be accepted at one instant, each for a new site that is deleted afterwards. */
  lemma {:induction false} ManyRounds(audits: bool, k: nat, limits: Limits) returns (steps: seq<Step>)
    requires audits ==> limits.userHourly > 0 && limits.userConcurrent > 0
    ensures var s := Run(steps, limits);
      && s.rows == [] && s.accepted == Series(audits, 0, k) && |s.removed| == k
      && (forall i :: 0 <= i < k ==> s.removed[i] == s.accepted[i].(ended := Some(0)))
      && forall site :: site in s.gone ==> site < k
  {
    if k == 0 {
      return [];
    }
    var before := ManyRounds(audits, k - 1, limits);
    var start := Nth(audits, k - 1);
    OneRound(before, start, SiteDeleted(k - 1), limits);
    steps := before + [start] + [Change(k - 1, Some(0))] + [Remove(SiteDeleted(k - 1))];
    assert Series(audits, 0, k) == Series(audits, 0, k - 1) + [RowOf(start)];
  }

  /** The bound of AcceptedWithinQuota is reached: with any number of deletions an organization gets as many
      scans on top of its daily quota at one instant, without having to wait. */
  lemma DeletionDefeatsDailyQuota(k: nat, limits: Limits, like: Row) returns (steps: seq<Step>)
    requires like.org == 0
    ensures var s := Run(steps, limits);
      && InWindow(s.removed, OrgDaily, like, 0) == k
      && InWindow(s.accepted, OrgDaily, like, 0) == k + Limit(OrgDaily)
  {
    steps := ThenFill(k, Limit(OrgDaily), limits);
    var s := Run(steps, limits);
    SeriesAt(false, 0, k + Limit(OrgDaily));
    CountAll(s.removed, Inside(OrgDaily, like, 0));
    CountAll(s.accepted, Inside(OrgDaily, like, 0));
  }

  lemma FillAdmits(s: State, k: nat, n: nat, limits: Limits)
    requires s.rows == Series(false, k, n) && n < Limit(OrgDaily) && forall site :: site in s.gone ==> site < k
    ensures Admits(s, Nth(false, k + n), limits)
  {
    var start := Nth(false, k + n);
    SeriesAt(false, k, n);
    CountZero(s.rows, Counter(SiteHourly, RowOf(start)));
    CountAll(s.rows, Counter(OrgDaily, RowOf(start)));
  }

  lemma {:induction false} ThenFill(k: nat, n: nat, limits: Limits) returns (steps: seq<Step>)
    requires n <= Limit(OrgDaily)
    ensures var s := Run(steps, limits);
      && s.rows == Series(false, k, n) && s.accepted == Series(false, 0, k + n) && |s.removed| == k
      && (forall i :: 0 <= i < k ==> s.removed[i] == s.accepted[i].(ended := Some(0)))
      && forall site :: site in s.gone ==> site < k
    decreases n
  {
    if n == 0 {
      steps := ManyRounds(false, k, limits);
    } else {
      var before := ThenFill(k, n - 1, limits);
      var s, start := Run(before, limits), Nth(false, k + n - 1);
      FillAdmits(s, k, n - 1, limits);
      RunSnoc(before, start, limits);
      steps := before + [start];
      assert Series(false, k, n) == Series(false, k, n - 1) + [RowOf(start)];
      assert Series(false, 0, k + n) == Series(false, 0, k + n - 1) + [RowOf(start)];
    }
  }

  /** Deleting sites also lets a user start any number of public audits of one host at one instant. */
  lemma DeletionDefeatsAuditLimits(k: nat, limits: Limits, like: Row) returns (steps: seq<Step>)
    requires limits.userHourly > 0 && limits.userConcurrent > 0 && limits.cooldown >= 0 && like.user == Some(0)
    ensures var s := Run(steps, limits);
      && InWindow(s.accepted, UserHourly(limits.userHourly), like, 0) == k
      && (k >= 2 ==> !Apart(s.accepted, limits.cooldown))
  {
    steps := ManyRounds(true, k, limits);
    var s := Run(steps, limits);
    SeriesAt(true, 0, k);
    CountAll(s.accepted, Inside(UserHourly(limits.userHourly), like, 0));
    if k >= 2 {
      assert s.accepted[0].host == s.accepted[1].host && s.accepted[1].publicAudit;
    }
  }

  /** A cooldown longer than audits are kept is cut short by retention: the audit of time 0 is removed at
      `keep + 1`, and another one of its host is accepted at that instant. */
  lemma RetentionDefeatsCooldown(limits: Limits, keep: nat) returns (steps: seq<Step>)
    requires limits.userHourly > 0 && limits.userConcurrent > 0 && limits.cooldown > keep
    ensures !Apart(Run(steps, limits).accepted, limits.cooldown)
    ensures |steps| == 4 && steps[2] == Remove(ScanRetained(0, keep + 1 - keep)) && steps[3] == AuditAt(1, keep + 1)
  {
    OneRound([], AuditAt(0, 0), ScanRetained(0, 1), limits);
    var before := [] + [AuditAt(0, 0)] + [Change(0, Some(0))] + [Remove(ScanRetained(0, 1))];
    FirstAccepted(Run(before, limits), AuditAt(1, keep + 1), limits);
    RunSnoc(before, AuditAt(1, keep + 1), limits);
    steps := before + [AuditAt(1, keep + 1)];
    var accepted := Run(steps, limits).accepted;
    assert accepted == [RowOf(AuditAt(0, 0)), RowOf(AuditAt(1, keep + 1))];
    assert accepted[0].host == accepted[1].host && accepted[1].publicAudit;
  }

  function AuditAt(id: nat, now: int): Step {
    StartPublic(id, 0, 0, "host", 0, now)
  }

  /** And behind a final dot in the stored host name the cooldown is not enforced at all: two audits of one
      site, both in the table, at one instant. */
  lemma DotDefeatsCooldown(limits: Limits) returns (steps: seq<Step>)
    requires limits.userHourly > 1 && limits.userConcurrent > 0 && limits.cooldown >= 0
    ensures !Apart(Run(steps, limits).rows, limits.cooldown) && Run(steps, limits).removed == []
    ensures forall x :: x in Run(steps, limits).rows ==> x.site == 0 && x.host == Stored("host..")
  {
    var first, end, second := StartPublic(0, 0, 0, "host.", 0, 0), Change(0, Some(0)), StartPublic(1, 0, 0, "host.", 0, 0);
    var a := RowOf(first).(ended := Some(0));
    RunSnoc([], first, limits);
    assert Run([] + [first], limits).rows == [RowOf(first)];
    RunSnoc([] + [first], end, limits);
    var s := Run([] + [first] + [end], limits);
    assert s.rows == [a] && s.removed == [];
    CountOne(a, Counter(UserHourly(limits.userHourly), RowOf(second)));
    CountOne(a, Ongoing(Some(0)));
    assert Asked("host.") == "host";
    assert Admits(s, second, limits);
    RunSnoc([] + [first] + [end], second, limits);
    steps := [] + [first] + [end] + [second];
    var rows := Run(steps, limits).rows;
    assert rows == [a, RowOf(second)] && rows[0].host == rows[1].host && rows[1].publicAudit;
  }

  // ----- The code -----

  datatype Outcome =
    | Created | ScanRateLimited | UserHourlyLimit | UserConcurrencyLimit | DomainBusy | DomainCooldown | AlreadyRunning

  /** Which check rejects a public audit, in the order of the checks. */
  function PublicOutcome(s: State, r: Row, limits: Limits): Outcome {
    var asked := Asked(r.host);
    if Usage(s.rows, UserHourly(limits.userHourly), r) >= limits.userHourly then UserHourlyLimit
    else if Concurrent(s.rows, r.user) >= limits.userConcurrent then UserConcurrencyLimit
    else if exists i :: 0 <= i < |s.rows| && s.rows[i].host == asked && s.rows[i].ended.None? then DomainBusy
    else if !Cool(s.rows, asked, r.queuedAt, limits.cooldown) then DomainCooldown
    else if !Insertable(s, r.id, r.site) then AlreadyRunning
    else Created
  }

  class Table {
    const limits: Limits
    var rows: seq<Row>
    var gone: set<nat>
    ghost var accepted: seq<Row>
    ghost var removed: seq<Row>
    ghost var log: seq<Step>

    ghost function View(): State
      reads this
    {
      State(rows, accepted, removed, gone)
    }

    ghost predicate Valid()
      reads this
    {
      View() == Run(log, limits)
    }

    constructor (limits: Limits)
      ensures Valid() && log == []
    {
      this.limits, rows, gone, accepted, removed, log := limits, [], {}, [], [], [];
    }

    ghost method Took(step: Step)
      requires View() == Apply(Run(log, limits), step, limits)
      modifies this`log
      ensures Valid() && log == old(log) + [step]
    {
      RunSnoc(log, step, limits);
      log := log + [step];
    }

    method CountRows(p: Row -> bool) returns (n: nat)
      ensures n == Count(rows, p)
    {
      n := 0;
      for i := 0 to |rows|
        invariant n == Count(rows[..i], p)
      {
        assert rows[..i + 1][..i] == rows[..i];
        if p(rows[i]) {
          n := n + 1;
        }
      }
      assert rows[..|rows|] == rows;
    }

    /** The latest scan of a host and how many of its scans are active. */
    method HostUsage(host: string) returns (active: nat, latest: Option<int>)
      ensures active > 0 <==> exists i :: 0 <= i < |rows| && rows[i].host == host && rows[i].ended.None?
      ensures latest.None? <==> forall i :: 0 <= i < |rows| ==> rows[i].host != host
      ensures latest.Some? ==> forall i :: 0 <= i < |rows| && rows[i].host == host ==> rows[i].queuedAt <= latest.value
      ensures latest.Some? ==> exists i :: 0 <= i < |rows| && rows[i].host == host && rows[i].queuedAt == latest.value
    {
      active, latest := 0, None;
      for i := 0 to |rows|
        invariant active > 0 <==> exists j :: 0 <= j < i && rows[j].host == host && rows[j].ended.None?
        invariant latest.None? <==> forall j :: 0 <= j < i ==> rows[j].host != host
        invariant latest.Some? ==> forall j :: 0 <= j < i && rows[j].host == host ==> rows[j].queuedAt <= latest.value
        invariant latest.Some? ==> exists j :: 0 <= j < i && rows[j].host == host && rows[j].queuedAt == latest.value
      {
        if rows[i].host == host {
          if rows[i].ended.None? {
            active := active + 1;
          }
          if latest.None? || rows[i].queuedAt > latest.value {
            latest := Some(rows[i].queuedAt);
          }
        }
      }
    }

    /** Whether a scan of the host is active, and whether the latest one is too recent. */
    method HostState(host: string, now: int) returns (busy: bool, cooling: bool)
      ensures busy <==> exists i :: 0 <= i < |rows| && rows[i].host == host && rows[i].ended.None?
      ensures busy || cooling <==> !Cool(rows, host, now, limits.cooldown)
    {
      var active, latest := HostUsage(host);
      busy, cooling := active > 0, latest.Some? && latest.value >= now - limits.cooldown;
    }

    method CreateManualScan(id: nat, org: nat, site: nat, host: string, now: int) returns (r: Outcome)
      requires Valid() && site !in gone && !UsedId(rows, id)
      modifies this
      ensures Valid() && View() == Apply(old(View()), StartManual(id, org, site, host, now), limits)
      ensures r == Created <==> Admits(old(View()), StartManual(id, org, site, host, now), limits)
      ensures r == AlreadyRunning ==> ActiveSite(old(rows), site)
    {
      var start := StartManual(id, org, site, host, now);
      var row := RowOf(start);
      var siteUsage := CountRows(Counter(SiteHourly, row));
      var orgUsage := CountRows(Counter(OrgDaily, row));
      if siteUsage >= 3 || orgUsage >= 30 {
        r := ScanRateLimited;
      } else if ActiveSite(rows, site) {
        r := AlreadyRunning;
      } else {
        rows, accepted := rows + [row], accepted + [row];
        r := Created;
      }
      Took(start);
    }

    method CreatePublicAudit(id: nat, org: nat, site: nat, host: string, user: nat, now: int) returns (r: Outcome)
      requires Valid() && site !in gone && !UsedId(rows, id)
      modifies this
      ensures Valid() && View() == Apply(old(View()), StartPublic(id, org, site, host, user, now), limits)
      ensures r == PublicOutcome(old(View()), RowOf(StartPublic(id, org, site, host, user, now)), limits)
      ensures r == Created <==> Admits(old(View()), StartPublic(id, org, site, host, user, now), limits)
    {
      var start := StartPublic(id, org, site, host, user, now);
      var row := RowOf(start);
      var hourly := CountRows(Counter(UserHourly(limits.userHourly), row));
      var busy, cooling := HostState(Asked(host), now);
      if hourly >= limits.userHourly {
        r := UserHourlyLimit;
      } else if Concurrent(rows, row.user) >= limits.userConcurrent {
        r := UserConcurrencyLimit;
      } else if busy {
        r := DomainBusy;
      } else if cooling {
        r := DomainCooldown;
      } else if ActiveSite(rows, site) {
        r := AlreadyRunning;
      } else {
        rows, accepted := rows + [row], accepted + [row];
        r := Created;
      }
      Took(start);
    }
  }
}
