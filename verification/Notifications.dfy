/** Alert mails: a completed scan queues degradation and recovery mails, and sending them opens
    and closes incidents, which decide what later scans may report as recovered. */
module Notifications {
  import opened Common
  import Q = LeaseQueue

  datatype Kind = Degradation | Recovery

  type Fingerprint = nat

  /** One mail per scan, recipient and kind, by a unique index. */
  datatype Id = Id(scan: nat, recipient: nat, kind: Kind)

  datatype Delivery = Delivery(site: nat, items: set<Fingerprint>, row: Q.Row)

  /** The incident row of a recipient, a site and a fingerprint. */
  datatype Incident = Incident(recipient: nat, site: nat, fingerprint: Fingerprint)

  /** A mail recorded as sent. */
  datatype Mail = Mail(id: Id, site: nat, items: set<Fingerprint>)

  /** What an open completion transaction has read: the active incidents of its recipients. */
  datatype Snapshot = Snapshot(site: nat, recipients: set<nat>, incidents: set<Incident>)

  datatype State = State(
    deliveries: map<Id, Delivery>,
    active: set<Incident>,
    snapshots: map<nat, Snapshot>,
    completed: set<nat>,
    gone: set<nat>,
    mails: seq<Mail>
  )

  const INIT := State(map[], {}, map[], {}, {}, [])

  /** What the completed scan found: for each recipient the degradations above their threshold,
      the present fingerprints, and the incidents whose code the scan is able to clear. */
  datatype Report = Report(
    degraded: map<nat, set<Fingerprint>>, current: set<Fingerprint>, resolvable: set<Incident>)

  datatype Step =
    | ReadIncidents(tx: nat, site: nat, recipients: set<nat>)
    | Complete(tx: nat, scan: nat, now: int, report: Report)
    | Rollback(tx: nat)                // the completion fails
    | Queue(id: Id, op: Q.Op)          // claims and retries
    | MarkSent(id: Id, attempt: nat)
    | Forget(site: nat)                // the site is deleted, and with it all its rows

  function KeyOf(id: Id, d: Delivery, f: Fingerprint): Incident {
    Incident(id.recipient, d.site, f)
  }

  function Keys(id: Id, d: Delivery): set<Incident> {
    set f | f in d.items :: KeyOf(id, d, f)
  }

  /** The delivery is an outstanding recovery that lists f. */
  predicate Telling(s: State, id: Id, f: Fingerprint) {
    id in s.deliveries && id.kind == Recovery && Q.Unsettled(s.deliveries[id].row) && f in s.deliveries[id].items
  }

  predicate Outstanding(s: State, k: Incident) {
    exists id :: id in s.deliveries && Telling(s, id, k.fingerprint)
      && id.recipient == k.recipient && s.deliveries[id].site == k.site
  }

  /** The completion takes the incident to have recovered and tells its recipient. */
  predicate Reports(s: State, snap: Snapshot, report: Report, k: Incident) {
    && k in snap.incidents && k.site == snap.site
    && k.fingerprint !in report.current && k in report.resolvable && !Outstanding(s, k)
  }

  /** What the completion tells one recipient as recovered. */
  function Resolved(s: State, snap: Snapshot, report: Report, recipient: nat): set<Fingerprint> {
    set k | k in snap.incidents && k.recipient == recipient && Reports(s, snap, report, k) :: k.fingerprint
  }

  function NewDelivery(snap: Snapshot, items: set<Fingerprint>, now: int): Delivery {
    Delivery(snap.site, items, Q.Fresh(now))
  }

  function Candidates(snap: Snapshot, scan: nat): set<Id> {
    (set r | r in snap.recipients :: Id(scan, r, Degradation)) + (set r | r in snap.recipients :: Id(scan, r, Recovery))
  }

  /** What the mail tells its recipient. */
  function ItemsFor(s: State, snap: Snapshot, report: Report, id: Id): set<Fingerprint> {
    if id.kind == Recovery then Resolved(s, snap, report, id.recipient)
    else if id.recipient in report.degraded then report.degraded[id.recipient] else {}
  }

  /** The deliveries the completion wants to add: none without items. */
  function Wanted(s: State, snap: Snapshot, scan: nat, now: int, report: Report): map<Id, Delivery> {
    map id | id in Candidates(snap, scan) && ItemsFor(s, snap, report, id) != {} ::
      NewDelivery(snap, ItemsFor(s, snap, report, id), now)
  }

  function ApplyRead(s: State, tx: nat, site: nat, recipients: set<nat>): State {
    var incidents := set k | k in s.active && k.site == site && k.recipient in recipients;
    if site in s.gone then s else s.(snapshots := s.snapshots[tx := Snapshot(site, recipients, incidents)])
  }

  /** A scan completes only once; a delivery that exists already is left as it is. */
  function ApplyComplete(s: State, tx: nat, scan: nat, now: int, report: Report): State {
    if tx !in s.snapshots || scan in s.completed then s
    else s.(
      deliveries := Wanted(s, s.snapshots[tx], scan, now, report) + s.deliveries,
      snapshots := s.snapshots - {tx},
      completed := s.completed + {scan})
  }

  predicate Settles(op: Q.Op) {
    !op.Claim? && !op.Retry?
  }

  function ApplyQueue(s: State, id: Id, op: Q.Op): State {
    if id in s.deliveries && !Settles(op) then
      s.(deliveries := s.deliveries[id := s.deliveries[id].(row := Q.Do(s.deliveries[id].row, op))])
    else s
  }

  predicate Sends(s: State, id: Id, attempt: nat) {
    id in s.deliveries && Q.HeldBy(s.deliveries[id].row, attempt)
  }

  function ApplyMarkSent(s: State, id: Id, attempt: nat): State {
    if !Sends(s, id, attempt) then s
    else
      var d := s.deliveries[id];
      State(
        s.deliveries[id := d.(row := Q.Do(d.row, Q.Succeed(attempt)))],
        if id.kind == Degradation then s.active + Keys(id, d) else s.active - Keys(id, d),
        s.snapshots,
        s.completed,
        s.gone,
        s.mails + [Mail(id, d.site, d.items)])
  }

  predicate Completing(s: State, site: nat) {
    exists tx :: tx in s.snapshots && s.snapshots[tx].site == site
  }

  /** A site is not deleted while one of its scans is being completed. */
  function ApplyForget(s: State, site: nat): State {
    if Completing(s, site) then s
    else State(
      map id | id in s.deliveries && s.deliveries[id].site != site :: s.deliveries[id],
      (set k | k in s.active && k.site != site),
      s.snapshots,
      s.completed,
      s.gone + {site},
      s.mails)
  }

  function Apply(s: State, step: Step): State {
    match step
    case ReadIncidents(tx, site, recipients) => ApplyRead(s, tx, site, recipients)
    case Complete(tx, scan, now, report) => ApplyComplete(s, tx, scan, now, report)
    case Rollback(tx) => s.(snapshots := s.snapshots - {tx})
    case Queue(id, op) => ApplyQueue(s, id, op)
    case MarkSent(id, attempt) => ApplyMarkSent(s, id, attempt)
    case Forget(site) => ApplyForget(s, site)
  }

  function Run(s: State, steps: seq<Step>): State
    decreases |steps|
  {
    if steps == [] then s else Apply(Run(s, steps[..|steps| - 1]), steps[|steps| - 1])
  }

  lemma {:induction false} RunConcat(s: State, a: seq<Step>, b: seq<Step>)
    ensures Run(s, a + b) == Run(Run(s, a), b)
    decreases |b|
  {
    if b == [] {
      assert a + b == a;
    } else {
      var n := |b| - 1;
      assert (a + b)[..|a| + n] == a + b[..n];
      RunConcat(s, a, b[..n]);
    }
  }

  // ----- What holds in every run -----

  predicate Mentions(m: Mail, k: Incident) {
    m.id.recipient == k.recipient && m.site == k.site && k.fingerprint in m.items
  }

  /** The last mail about k is a degradation. */
  predicate Open(mails: seq<Mail>, k: Incident) {
    mails != [] &&
      if Mentions(mails[|mails| - 1], k) then mails[|mails| - 1].id.kind == Degradation
      else Open(mails[..|mails| - 1], k)
  }

  /** No fingerprint is in two outstanding recoveries of one recipient and site. */
  ghost predicate RecoveriesApart(s: State) {
    forall a, b, f ::
      Telling(s, a, f) && Telling(s, b, f) && a.recipient == b.recipient && s.deliveries[a].site == s.deliveries[b].site ==>
        a == b
  }

  /** Each delivery is recorded as sent at most once. */
  ghost predicate MailedOnce(s: State) {
    && (forall id :: id in s.deliveries ==> id.scan in s.completed)
    && (forall i :: 0 <= i < |s.mails| ==> s.mails[i].id.scan in s.completed)
    && (forall i :: 0 <= i < |s.mails| && s.mails[i].id in s.deliveries ==> s.deliveries[s.mails[i].id].row.status == Q.Done)
    && forall i, j :: 0 <= i < j < |s.mails| ==> s.mails[i].id != s.mails[j].id
  }

  /** An incident of an existing site is active exactly if the last mail about it is a degradation. */
  ghost predicate ActiveIsOpen(s: State) {
    forall k: Incident :: k in s.active <==> k.site !in s.gone && Open(s.mails, k)
  }

  ghost predicate SitesExist(s: State) {
    && (forall id :: id in s.deliveries ==> s.deliveries[id].site !in s.gone)
    && forall tx :: tx in s.snapshots ==> SnapshotOk(s, s.snapshots[tx])
  }

  ghost predicate SnapshotOk(s: State, snap: Snapshot) {
    snap.site !in s.gone && forall k :: k in snap.incidents ==> k.site == snap.site && k.recipient in snap.recipients
  }

  ghost predicate Inv(s: State) {
    RecoveriesApart(s) && MailedOnce(s) && ActiveIsOpen(s) && SitesExist(s)
  }

  lemma WantedRecovery(s: State, snap: Snapshot, scan: nat, now: int, report: Report, id: Id)
    requires id in Wanted(s, snap, scan, now, report) && id.kind == Recovery
    ensures id == Id(scan, id.recipient, Recovery) && id.recipient in snap.recipients
    ensures var d := Wanted(s, snap, scan, now, report)[id];
      d == NewDelivery(snap, Resolved(s, snap, report, id.recipient), now)
      && forall f :: f in d.items ==> Reports(s, snap, report, KeyOf(id, d, f))
  {
  }

  lemma TwoTellings(s: State, snap: Snapshot, scan: nat, now: int, report: Report, a: Id, b: Id, f: Fingerprint)
    requires RecoveriesApart(s)
    requires var s' := s.(deliveries := Wanted(s, snap, scan, now, report) + s.deliveries);
      Telling(s', a, f) && Telling(s', b, f) && a.recipient == b.recipient && s'.deliveries[a].site == s'.deliveries[b].site
    ensures a == b
  {
    if a in s.deliveries {
      assert Telling(s, a, f);
    } else {
      WantedRecovery(s, snap, scan, now, report, a);
    }
    if b in s.deliveries {
      assert Telling(s, b, f);
    } else {
      WantedRecovery(s, snap, scan, now, report, b);
    }
  }

  lemma CompleteKeepsInv(s: State, tx: nat, scan: nat, now: int, report: Report)
    requires Inv(s)
    ensures Inv(ApplyComplete(s, tx, scan, now, report))
  {
    if tx in s.snapshots && scan !in s.completed {
      var s' := ApplyComplete(s, tx, scan, now, report);
      forall a, b, f | Telling(s', a, f) && Telling(s', b, f) && a.recipient == b.recipient
        && s'.deliveries[a].site == s'.deliveries[b].site
        ensures a == b
      {
        TwoTellings(s, s.snapshots[tx], scan, now, report, a, b, f);
      }
    }
  }

  lemma KeysMentioned(id: Id, d: Delivery, k: Incident)
    ensures k in Keys(id, d) <==> Mentions(Mail(id, d.site, d.items), k)
  {
    if Mentions(Mail(id, d.site, d.items), k) {
      assert k == KeyOf(id, d, k.fingerprint);
    }
  }

  lemma MarkSentKeepsInv(s: State, id: Id, attempt: nat)
    requires Inv(s)
    ensures Inv(ApplyMarkSent(s, id, attempt))
  {
    if Sends(s, id, attempt) {
      var s', d := ApplyMarkSent(s, id, attempt), s.deliveries[id];
      assert s'.mails[..|s.mails|] == s.mails;
      forall k: Incident
        ensures k in s'.active <==> k.site !in s'.gone && Open(s'.mails, k)
      {
        KeysMentioned(id, d, k);
      }
      assert forall a, f :: Telling(s', a, f) ==> Telling(s, a, f) && s'.deliveries[a] == s.deliveries[a];
    }
  }

  lemma ForgetKeepsInv(s: State, site: nat)
    requires Inv(s)
    ensures Inv(ApplyForget(s, site))
  {
    var s' := ApplyForget(s, site);
    assert forall a, f :: Telling(s', a, f) ==> Telling(s, a, f) && s'.deliveries[a] == s.deliveries[a];
  }

  lemma StepKeepsInv(s: State, step: Step)
    requires Inv(s)
    ensures Inv(Apply(s, step))
  {
    var s' := Apply(s, step);
    match step
    case Complete(tx, scan, now, report) => CompleteKeepsInv(s, tx, scan, now, report);
    case MarkSent(id, attempt) => MarkSentKeepsInv(s, id, attempt);
    case Forget(site) => ForgetKeepsInv(s, site);
    case _ => assert forall a, f :: Telling(s', a, f) ==> Telling(s, a, f) && s'.deliveries[a].site == s.deliveries[a].site;
  }

  lemma {:induction false} RunKeepsInv(s: State, steps: seq<Step>)
    requires Inv(s)
    ensures Inv(Run(s, steps))
    decreases |steps|
  {
    if steps != [] {
      RunKeepsInv(s, steps[..|steps| - 1]);
      StepKeepsInv(Run(s, steps[..|steps| - 1]), steps[|steps| - 1]);
    }
  }

  /** In every run each delivery is recorded as sent at most once, and no fingerprint is in two
      outstanding recoveries of one recipient and site. */
  lemma SentOnceAndApart(steps: seq<Step>)
    ensures var s := Run(INIT, steps);
      && RecoveriesApart(s)
      && forall i, j :: 0 <= i < j < |s.mails| ==> s.mails[i].id != s.mails[j].id
  {
    RunKeepsInv(INIT, steps);
  }

  /** In every run the incident table mirrors the mails: an incident of an existing site is active
      exactly if the last mail about it, of those recorded as sent, is a degradation. */
  lemma IncidentsMirrorMails(steps: seq<Step>, k: Incident)
    ensures var s := Run(INIT, steps); k in s.active <==> k.site !in s.gone && Open(s.mails, k)
  {
    RunKeepsInv(INIT, steps);
  }

  // ----- What recipients are told -----

  /** Every recovery was sent while the last mail about each of its fingerprints was a degradation. */
  ghost predicate RecoveriesOpen(mails: seq<Mail>) {
    forall j, k :: 0 <= j < |mails| && mails[j].id.kind == Recovery && Mentions(mails[j], k) ==> Open(mails[..j], k)
  }

  /** A recovery that is recorded as sent closes only incidents that are active. */
  predicate Justified(s: State, step: Step) {
    step.MarkSent? && Sends(s, step.id, step.attempt) && step.id.kind == Recovery ==>
      Keys(step.id, s.deliveries[step.id]) <= s.active
  }

  lemma AddMail(mails: seq<Mail>, m: Mail)
    ensures RecoveriesOpen(mails + [m]) <==>
      RecoveriesOpen(mails) && (m.id.kind == Recovery ==> forall k :: Mentions(m, k) ==> Open(mails, k))
  {
    var more := mails + [m];
    assert forall j :: 0 <= j < |mails| ==> more[j] == mails[j] && more[..j] == mails[..j];
    assert more[..|mails|] == mails && more[|mails|] == m;
    if RecoveriesOpen(more) {
      forall j, k | 0 <= j < |mails| && mails[j].id.kind == Recovery && Mentions(mails[j], k)
        ensures Open(mails[..j], k)
      {
        assert Mentions(more[j], k);
      }
      forall k | m.id.kind == Recovery && Mentions(m, k)
        ensures Open(mails, k)
      {
        assert Mentions(more[|mails|], k);
      }
    }
  }

  lemma StepOpenIff(s: State, step: Step)
    requires Inv(s)
    ensures RecoveriesOpen(Apply(s, step).mails) <==> RecoveriesOpen(s.mails) && Justified(s, step)
  {
    if step.MarkSent? && Sends(s, step.id, step.attempt) {
      var d := s.deliveries[step.id];
      AddMail(s.mails, Mail(step.id, d.site, d.items));
      forall k
        ensures k in Keys(step.id, d) <==> Mentions(Mail(step.id, d.site, d.items), k)
      {
        KeysMentioned(step.id, d, k);
      }
    }
  }

  ghost predicate AllJustified(steps: seq<Step>) {
    forall i :: 0 <= i < |steps| ==> Justified(Run(INIT, steps[..i]), steps[i])
  }

  lemma AllJustifiedSnoc(steps: seq<Step>)
    requires steps != []
    ensures var n := |steps| - 1;
      AllJustified(steps) <==> AllJustified(steps[..n]) && Justified(Run(INIT, steps[..n]), steps[n])
  {
    var n := |steps| - 1;
    assert forall i :: 0 <= i < n ==> steps[..n][..i] == steps[..i] && steps[..n][i] == steps[i];
  }

  /** In any run, every recovery mail follows a degradation mail about each of its fingerprints, with no
      other mail about it in between, if and only if every recovery was justified when it was sent. */
  lemma {:induction false} OpenIffJustified(steps: seq<Step>)
    ensures RecoveriesOpen(Run(INIT, steps).mails) <==> AllJustified(steps)
    decreases |steps|
  {
    if steps != [] {
      var n := |steps| - 1;
      AllJustifiedSnoc(steps);
      OpenIffJustified(steps[..n]);
      RunKeepsInv(INIT, steps[..n]);
      StepOpenIff(Run(INIT, steps[..n]), steps[n]);
    }
  }

  lemma {:induction false} OpenedBy(mails: seq<Mail>, k: Incident) returns (i: nat)
    requires Open(mails, k)
    ensures i < |mails| && mails[i].id.kind == Degradation && Mentions(mails[i], k)
    ensures forall m :: i < m < |mails| ==> !Mentions(mails[m], k)
    decreases |mails|
  {
    i := |mails| - 1;
    if !Mentions(mails[i], k) {
      i := OpenedBy(mails[..i], k);
    }
  }

  /** The promise itself: between two recovery mails about an incident there is a degradation mail about it. */
  ghost predicate Alternating(mails: seq<Mail>) {
    forall a, b, k ::
      0 <= a < b < |mails| && mails[a].id.kind == Recovery && mails[b].id.kind == Recovery
      && Mentions(mails[a], k) && Mentions(mails[b], k) ==>
        exists i :: a < i < b && mails[i].id.kind == Degradation && Mentions(mails[i], k)
  }

  /** Some degradation mail about k has been sent. */
  ghost predicate Alerted(mails: seq<Mail>, k: Incident) {
    exists i :: 0 <= i < |mails| && mails[i].id.kind == Degradation && Mentions(mails[i], k)
  }

  /** Nothing is read as active, and no recovery is queued or sent, about an incident without one. */
  ghost predicate AllAlerted(s: State) {
    && (forall tx, k :: tx in s.snapshots && k in s.snapshots[tx].incidents ==> Alerted(s.mails, k))
    && (forall id, f :: id in s.deliveries && id.kind == Recovery && f in s.deliveries[id].items ==>
         Alerted(s.mails, KeyOf(id, s.deliveries[id], f)))
    && forall j, k :: 0 <= j < |s.mails| && s.mails[j].id.kind == Recovery && Mentions(s.mails[j], k) ==> Alerted(s.mails[..j], k)
  }

  lemma ReadKeepsAlerted(s: State, tx: nat, site: nat, recipients: set<nat>)
    requires Inv(s) && AllAlerted(s)
    ensures AllAlerted(ApplyRead(s, tx, site, recipients))
  {
    forall k | k in s.active
      ensures Alerted(s.mails, k)
    {
      var i := OpenedBy(s.mails, k);
    }
  }

  lemma CompleteKeepsAlerted(s: State, tx: nat, scan: nat, now: int, report: Report)
    requires AllAlerted(s)
    ensures AllAlerted(ApplyComplete(s, tx, scan, now, report))
  {
    var s' := ApplyComplete(s, tx, scan, now, report);
    forall id, f | id in s'.deliveries && id.kind == Recovery && f in s'.deliveries[id].items
      ensures Alerted(s'.mails, KeyOf(id, s'.deliveries[id], f))
    {
      if id !in s.deliveries {
        WantedRecovery(s, s.snapshots[tx], scan, now, report, id);
      }
    }
  }

  lemma AlertedStays(mails: seq<Mail>, m: Mail, k: Incident)
    requires Alerted(mails, k)
    ensures Alerted(mails + [m], k)
  {
    var i :| 0 <= i < |mails| && mails[i].id.kind == Degradation && Mentions(mails[i], k);
    assert (mails + [m])[i] == mails[i];
  }

  lemma MarkSentKeepsAlerted(s: State, id: Id, attempt: nat)
    requires AllAlerted(s)
    ensures AllAlerted(ApplyMarkSent(s, id, attempt))
  {
    if Sends(s, id, attempt) {
      var s', d := ApplyMarkSent(s, id, attempt), s.deliveries[id];
      var m, n := Mail(id, d.site, d.items), |s.mails|;
      forall k | Alerted(s.mails, k)
        ensures Alerted(s'.mails, k)
      {
        AlertedStays(s.mails, m, k);
      }
      forall j, k | 0 <= j < |s'.mails| && s'.mails[j].id.kind == Recovery && Mentions(s'.mails[j], k)
        ensures Alerted(s'.mails[..j], k)
      {
        assert s'.mails[..j] == s.mails[..j];
        if j == n {
          assert k == KeyOf(id, d, k.fingerprint) && s.mails[..n] == s.mails;
        }
      }
    }
  }

  lemma {:induction false} RunKeepsAlerted(steps: seq<Step>)
    ensures Inv(Run(INIT, steps)) && AllAlerted(Run(INIT, steps))
    decreases |steps|
  {
    if steps != [] {
      var s, step := Run(INIT, steps[..|steps| - 1]), steps[|steps| - 1];
      RunKeepsAlerted(steps[..|steps| - 1]);
      StepKeepsInv(s, step);
      match step
      case ReadIncidents(tx, site, recipients) => ReadKeepsAlerted(s, tx, site, recipients);
      case Complete(tx, scan, now, report) => CompleteKeepsAlerted(s, tx, scan, now, report);
      case MarkSent(id, attempt) => MarkSentKeepsAlerted(s, id, attempt);
      case _ =>
    }
  }

  /** If there was a degradation mail about k but k is not open, then the last mail about it is a recovery. */
  lemma {:induction false} ClosedBy(mails: seq<Mail>, k: Incident) returns (i: nat)
    requires Alerted(mails, k) && !Open(mails, k)
    ensures i < |mails| && mails[i].id.kind == Recovery && Mentions(mails[i], k)
    ensures forall m :: i < m < |mails| ==> !Mentions(mails[m], k)
    decreases |mails|
  {
    i := |mails| - 1;
    if !Mentions(mails[i], k) {
      var j :| 0 <= j < |mails| && mails[j].id.kind == Degradation && Mentions(mails[j], k);
      assert mails[..i][j] == mails[j];
      i := ClosedBy(mails[..i], k);
    }
  }

  lemma NotOpenNotAlternating(mails: seq<Mail>, j: nat, k: Incident)
    requires j < |mails| && mails[j].id.kind == Recovery && Mentions(mails[j], k)
    requires Alerted(mails[..j], k) && !Open(mails[..j], k)
    ensures !Alternating(mails)
  {
    var a := ClosedBy(mails[..j], k);
    assert mails[a] == mails[..j][a];
    assert forall i :: a < i < j ==> mails[..j][i] == mails[i];
  }

  lemma AlternatingIsOpen(mails: seq<Mail>)
    requires forall j, k :: 0 <= j < |mails| && mails[j].id.kind == Recovery && Mentions(mails[j], k) ==> Alerted(mails[..j], k)
    ensures Alternating(mails) <==> RecoveriesOpen(mails)
  {
    forall j, k | 0 <= j < |mails| && mails[j].id.kind == Recovery && Mentions(mails[j], k) && !Open(mails[..j], k)
      ensures !Alternating(mails)
    {
      NotOpenNotAlternating(mails, j, k);
    }
    if RecoveriesOpen(mails) {
      forall a, b, k | 0 <= a < b < |mails| && mails[a].id.kind == Recovery && mails[b].id.kind == Recovery
        && Mentions(mails[a], k) && Mentions(mails[b], k)
        ensures exists i :: a < i < b && mails[i].id.kind == Degradation && Mentions(mails[i], k)
      {
        var i := OpenedBy(mails[..b], k);
        assert mails[..b][a] == mails[a] && mails[..b][i] == mails[i];
      }
    }
  }

  /** In any run, there is a degradation mail between any two recovery mails about an incident if and only
      if every recovery was justified when it was sent. */
  lemma AlternatingIffJustified(steps: seq<Step>)
    ensures Alternating(Run(INIT, steps).mails) <==> AllJustified(steps)
  {
    RunKeepsAlerted(steps);
    AlternatingIsOpen(Run(INIT, steps).mails);
    OpenIffJustified(steps);
  }

  /** Every outstanding recovery is about active incidents. */
  ghost predicate RecoveriesActive(s: State) {
    forall id, f :: Telling(s, id, f) ==> KeyOf(id, s.deliveries[id], f) in s.active
  }

  /** No incident that the completion reports as recovered was closed since the completion read it. */
  predicate Timely(s: State, step: Step) {
    step.Complete? && step.tx in s.snapshots && step.scan !in s.completed ==>
      forall k :: k in s.snapshots[step.tx].incidents && Reports(s, s.snapshots[step.tx], step.report, k) ==> k in s.active
  }

  /** What the completion queues when it reports k. */
  lemma RecoveryQueued(s: State, tx: nat, scan: nat, now: int, report: Report, k: Incident)
    requires Inv(s) && tx in s.snapshots && scan !in s.completed && Reports(s, s.snapshots[tx], report, k)
    ensures
      var second := Id(scan, k.recipient, Recovery);
      var s' := ApplyComplete(s, tx, scan, now, report);
      && second in s'.deliveries && Telling(s', second, k.fingerprint) && KeyOf(second, s'.deliveries[second], k.fingerprint) == k
      && s'.deliveries[second].row == Q.Fresh(now)
  {
    var second := Id(scan, k.recipient, Recovery);
    assert k.fingerprint in Resolved(s, s.snapshots[tx], report, k.recipient);
    assert second in Candidates(s.snapshots[tx], scan) && second !in s.deliveries;
    WantedRecovery(s, s.snapshots[tx], scan, now, report, second);
  }

  /** A completion leaves every outstanding recovery about active incidents exactly if it is timely. */
  lemma CompleteActiveIff(s: State, tx: nat, scan: nat, now: int, report: Report)
    requires Inv(s) && RecoveriesActive(s)
    ensures RecoveriesActive(ApplyComplete(s, tx, scan, now, report)) <==> Timely(s, Complete(tx, scan, now, report))
  {
    if tx in s.snapshots && scan !in s.completed {
      var s', snap := ApplyComplete(s, tx, scan, now, report), s.snapshots[tx];
      if Timely(s, Complete(tx, scan, now, report)) {
        forall id, f | Telling(s', id, f)
          ensures KeyOf(id, s'.deliveries[id], f) in s'.active
        {
          if id in s.deliveries {
            assert Telling(s, id, f);
          } else {
            WantedRecovery(s, snap, scan, now, report, id);
          }
        }
      } else {
        var k :| k in snap.incidents && Reports(s, snap, report, k) && k !in s.active;
        RecoveryQueued(s, tx, scan, now, report, k);
      }
    }
  }

  lemma MarkSentKeepsActive(s: State, id: Id, attempt: nat)
    requires Inv(s) && RecoveriesActive(s)
    ensures RecoveriesActive(ApplyMarkSent(s, id, attempt))
  {
    if Sends(s, id, attempt) {
      var s' := ApplyMarkSent(s, id, attempt);
      forall a, f | Telling(s', a, f)
        ensures KeyOf(a, s'.deliveries[a], f) in s'.active
      {
        assert a != id && Telling(s, a, f);
        KeysMentioned(id, s.deliveries[id], KeyOf(a, s.deliveries[a], f));
        assert id.kind == Recovery && KeyOf(a, s.deliveries[a], f) in Keys(id, s.deliveries[id]) ==> Telling(s, id, f);
      }
    }
  }

  /** Of all steps, only a completion that is not timely leaves an outstanding recovery about a closed incident. */
  lemma StepActiveIff(s: State, step: Step)
    requires Inv(s) && RecoveriesActive(s)
    ensures RecoveriesActive(Apply(s, step)) <==> Timely(s, step)
  {
    var s' := Apply(s, step);
    match step
    case Complete(tx, scan, now, report) => CompleteActiveIff(s, tx, scan, now, report);
    case MarkSent(id, attempt) => MarkSentKeepsActive(s, id, attempt);
    case _ => assert forall a, f :: Telling(s', a, f) ==> Telling(s, a, f) && s'.deliveries[a].site == s.deliveries[a].site;
  }

  /** A run all of whose completions are timely. */
  ghost predicate Calm(steps: seq<Step>) {
    forall i :: 0 <= i < |steps| ==> Timely(Run(INIT, steps[..i]), steps[i])
  }

  lemma {:induction false} CalmKeepsActive(steps: seq<Step>)
    requires Calm(steps)
    ensures Inv(Run(INIT, steps)) && RecoveriesActive(Run(INIT, steps)) && RecoveriesOpen(Run(INIT, steps).mails)
    decreases |steps|
  {
    if steps != [] {
      var n := |steps| - 1;
      assert forall i :: 0 <= i < n ==> steps[..n][..i] == steps[..i];
      CalmKeepsActive(steps[..n]);
      var s := Run(INIT, steps[..n]);
      StepKeepsInv(s, steps[n]);
      StepActiveIff(s, steps[n]);
      StepOpenIff(s, steps[n]);
      ActiveJustifies(s, steps[n]);
    }
  }

  lemma ActiveJustifies(s: State, step: Step)
    requires RecoveriesActive(s)
    ensures Justified(s, step)
  {
    if step.MarkSent? && Sends(s, step.id, step.attempt) && step.id.kind == Recovery {
      forall f | f in s.deliveries[step.id].items
        ensures KeyOf(step.id, s.deliveries[step.id], f) in s.active
      {
        assert Telling(s, step.id, f);
      }
    }
  }

  /** Every recovery mail follows a degradation mail about each fingerprint it lists, with no
      other mail about it in between. */
  lemma RecoveryFollowsDegradation(steps: seq<Step>, j: nat, k: Incident) returns (i: nat)
    requires Calm(steps)
    requires var mails := Run(INIT, steps).mails; j < |mails| && mails[j].id.kind == Recovery && Mentions(mails[j], k)
    ensures var mails := Run(INIT, steps).mails;
      && i < j && mails[i].id.kind == Degradation && Mentions(mails[i], k)
      && forall m :: i < m < j ==> !Mentions(mails[m], k)
  {
    CalmKeepsActive(steps);
    i := OpenedBy(Run(INIT, steps).mails[..j], k);
  }

  /** So between two recovery mails about a fingerprint there is a degradation mail about it. */
  lemma DegradationBetweenRecoveries(steps: seq<Step>, a: nat, b: nat, k: Incident) returns (i: nat)
    requires Calm(steps)
    requires var mails := Run(INIT, steps).mails;
      && a < b < |mails| && mails[a].id.kind == Recovery && mails[b].id.kind == Recovery
      && Mentions(mails[a], k) && Mentions(mails[b], k)
    ensures a < i < b && Run(INIT, steps).mails[i].id.kind == Degradation && Mentions(Run(INIT, steps).mails[i], k)
  {
    i := RecoveryFollowsDegradation(steps, b, k);
  }

  // ----- The race that the two reads leave open -----

  /** The recovery of a recipient is claimed and recorded as sent right after the completion that queued it. */
  function SentNext(s: State, tx: nat, scan: nat, now: int, report: Report, recipient: nat): State {
    var id := Id(scan, recipient, Recovery);
    ApplyMarkSent(ApplyQueue(ApplyComplete(s, tx, scan, now, report), id, Q.Claim(now, 0)), id, 1)
  }

  lemma SentNextMail(s: State, tx: nat, scan: nat, now: int, report: Report, r: nat)
    requires Inv(s) && tx in s.snapshots && scan !in s.completed
    ensures var items := Resolved(s, s.snapshots[tx], report, r);
      SentNext(s, tx, scan, now, report, r).mails ==
        if r in s.snapshots[tx].recipients && items != {}
        then s.mails + [Mail(Id(scan, r, Recovery), s.snapshots[tx].site, items)] else s.mails
  {
    var id, snap := Id(scan, r, Recovery), s.snapshots[tx];
    assert id !in s.deliveries;
    if r in snap.recipients && Resolved(s, snap, report, r) != {} {
      assert id in Candidates(snap, scan);
      WantedRecovery(s, snap, scan, now, report, id);
    }
  }

  /** If the mails were right so far, then a completion is timely exactly if none of the recoveries it
      queues would repeat a recovery when sent next. */
  lemma TimelyIffNoRepeat(s: State, tx: nat, scan: nat, now: int, report: Report)
    requires Inv(s) && RecoveriesOpen(s.mails) && tx in s.snapshots && scan !in s.completed
    ensures Timely(s, Complete(tx, scan, now, report)) <==>
      forall r :: RecoveriesOpen(SentNext(s, tx, scan, now, report, r).mails)
  {
    var snap := s.snapshots[tx];
    if Timely(s, Complete(tx, scan, now, report)) {
      forall r
        ensures RecoveriesOpen(SentNext(s, tx, scan, now, report, r).mails)
      {
        SentNextMail(s, tx, scan, now, report, r);
        AddMail(s.mails, Mail(Id(scan, r, Recovery), snap.site, Resolved(s, snap, report, r)));
      }
    } else {
      var k :| k in snap.incidents && Reports(s, snap, report, k) && k !in s.active;
      var items := Resolved(s, snap, report, k.recipient);
      assert k.fingerprint in items;
      SentNextMail(s, tx, scan, now, report, k.recipient);
      AddMail(s.mails, Mail(Id(scan, k.recipient, Recovery), snap.site, items));
      assert Mentions(Mail(Id(scan, k.recipient, Recovery), snap.site, items), k);
    }
  }

  /** None of the steps belongs to the completion transaction `tx`. */
  ghost predicate Foreign(steps: seq<Step>, tx: nat) {
    forall i :: 0 <= i < |steps| ==>
      !((steps[i].ReadIncidents? || steps[i].Complete? || steps[i].Rollback?) && steps[i].tx == tx)
  }

  lemma {:induction false} SnapshotStays(s: State, steps: seq<Step>, tx: nat)
    requires tx in s.snapshots && Foreign(steps, tx)
    ensures tx in Run(s, steps).snapshots && Run(s, steps).snapshots[tx] == s.snapshots[tx]
    decreases |steps|
  {
    if steps != [] {
      SnapshotStays(s, steps[..|steps| - 1], tx);
    }
  }

  /** The step records a recovery about k as sent. */
  predicate Closes(s: State, steps: seq<Step>, i: nat, k: Incident)
    requires i < |steps|
  {
    var before, step := Run(s, steps[..i]), steps[i];
    step.MarkSent? && step.id.kind == Recovery && Sends(before, step.id, step.attempt)
      && k in Keys(step.id, before.deliveries[step.id])
  }

  /** While a completion is open, an incident of its site is closed only by sending a recovery about it. */
  lemma {:induction false} ClosedBySending(s: State, steps: seq<Step>, tx: nat, k: Incident) returns (i: nat)
    requires tx in s.snapshots && s.snapshots[tx].site == k.site && Foreign(steps, tx)
    requires k in s.active && k !in Run(s, steps).active
    ensures i < |steps| && Closes(s, steps, i, k)
    decreases |steps|
  {
    i := |steps| - 1;
    SnapshotStays(s, steps[..i], tx);
    if k !in Run(s, steps[..i]).active {
      var n := i;
      i := ClosedBySending(s, steps[..n], tx, k);
      assert steps[..n][..i] == steps[..i];
    }
  }

  /** If a recovery about k is recorded as sent after a completion has read k as active and before it
      looks for outstanding recoveries, then the recipient is told twice in a row that k has recovered. */
  lemma RaceRepeatsRecovery(
    s: State, first: Id, attempt: nat, tx: nat, scan: nat, now: int, report: Report, k: Incident)
    requires Inv(s) && Sends(s, first, attempt) && Telling(s, first, k.fingerprint)
    requires KeyOf(first, s.deliveries[first], k.fingerprint) == k
    requires tx in s.snapshots && scan !in s.completed && k in s.snapshots[tx].incidents
    requires k.fingerprint !in report.current && k in report.resolvable
    ensures var s1 := ApplyMarkSent(s, first, attempt);
      && !Timely(s1, Complete(tx, scan, now, report))
      && exists one, two ::
        && SentNext(s1, tx, scan, now, report, k.recipient).mails == s.mails + [one] + [two]
        && one.id.kind == Recovery && two.id.kind == Recovery && Mentions(one, k) && Mentions(two, k)
  {
    var s1, snap := ApplyMarkSent(s, first, attempt), s.snapshots[tx];
    MarkSentKeepsInv(s, first, attempt);
    assert forall id :: Telling(s1, id, k.fingerprint) ==> Telling(s, id, k.fingerprint) && id != first;
    assert k in Keys(first, s.deliveries[first]) && Reports(s1, snap, report, k);
    var items := Resolved(s1, snap, report, k.recipient);
    assert k.fingerprint in items;
    SentNextMail(s1, tx, scan, now, report, k.recipient);
    var one := Mail(first, s.deliveries[first].site, s.deliveries[first].items);
    var two := Mail(Id(scan, k.recipient, Recovery), snap.site, items);
    assert Mentions(one, k) && Mentions(two, k);
  }

  // ----- The lease protocol -----

  /** A delivery vanishes only with its site, and does not come back. */
  lemma StepKeepsDelivery(s: State, step: Step, id: Id)
    requires id.scan in s.completed
    ensures id.scan in Apply(s, step).completed && s.gone <= Apply(s, step).gone
    ensures id in Apply(s, step).deliveries ==> id in s.deliveries && Apply(s, step).deliveries[id].site == s.deliveries[id].site
    ensures id in s.deliveries ==> id in Apply(s, step).deliveries || s.deliveries[id].site in Apply(s, step).gone
  {
  }

  /** Whatever others do, races and deletions included, a delivery that is recorded as sent stays as it
      is for as long as its site exists. */
  lemma {:induction false} SentStays(s: State, steps: seq<Step>, id: Id)
    requires id.scan in s.completed && id in s.deliveries && s.deliveries[id].row.status == Q.Done
    ensures id.scan in Run(s, steps).completed
    ensures id in Run(s, steps).deliveries ==> Run(s, steps).deliveries[id] == s.deliveries[id]
    ensures id in Run(s, steps).deliveries || s.deliveries[id].site in Run(s, steps).gone
    decreases |steps|
  {
    if steps != [] {
      SentStays(s, steps[..|steps| - 1], id);
      StepKeepsDelivery(Run(s, steps[..|steps| - 1]), steps[|steps| - 1], id);
    }
  }

  /** What a step does to the delivery, in terms of the lease protocol. */
  function OpsOf(step: Step, id: Id): seq<Q.Op> {
    match step
    case Queue(i, op) => if i == id && !Settles(op) then [op] else []
    case MarkSent(i, attempt) => if i == id then [Q.Succeed(attempt)] else []
    case _ => []
  }

  /** What the steps of a run do to it, one after the other. */
  function RunOps(steps: seq<Step>, id: Id): (ops: seq<Q.Op>)
    ensures forall i :: 0 <= i < |ops| ==> ops[i].Claim? || ops[i].Retry? || ops[i].Succeed?
    decreases |steps|
  {
    if steps == [] then [] else RunOps(steps[..|steps| - 1], id) + OpsOf(steps[|steps| - 1], id)
  }

  lemma StepRefines(s: State, step: Step, id: Id)
    requires id in s.deliveries && id in Apply(s, step).deliveries
    ensures Apply(s, step).deliveries[id] == s.deliveries[id].(row := Q.DoAll(s.deliveries[id].row, OpsOf(step, id)))
  {
    if OpsOf(step, id) != [] {
      Q.DoOne(s.deliveries[id].row, OpsOf(step, id)[0]);
    }
  }

  /** Over any run a delivery goes through exactly the claims, retries and successes of its steps, for as
      long as its site exists. */
  lemma {:induction false} DeliveryRefines(s: State, steps: seq<Step>, id: Id)
    requires id.scan in s.completed && id in s.deliveries
    ensures id.scan in Run(s, steps).completed
    ensures id in Run(s, steps).deliveries ==>
      Run(s, steps).deliveries[id] == s.deliveries[id].(row := Q.DoAll(s.deliveries[id].row, RunOps(steps, id)))
    ensures id in Run(s, steps).deliveries || s.deliveries[id].site in Run(s, steps).gone
    decreases |steps|
  {
    if steps != [] {
      var init, step := steps[..|steps| - 1], steps[|steps| - 1];
      DeliveryRefines(s, init, id);
      StepKeepsDelivery(Run(s, init), step, id);
      if id in Run(s, steps).deliveries {
        StepRefines(Run(s, init), step, id);
        Q.DoAllConcat(s.deliveries[id].row, RunOps(init, id), OpsOf(step, id));
      }
    }
  }

  /** Once somebody else has claimed a delivery, the earlier claimant's success or retry changes nothing. */
  lemma OldClaimIsPowerless(s: State, steps: seq<Step>, id: Id, attempt: nat, again: int)
    requires id.scan in s.completed && id in s.deliveries && attempt < s.deliveries[id].row.attempts
    ensures var s' := Run(s, steps);
      Apply(s', MarkSent(id, attempt)) == s' && Apply(s', Queue(id, Q.Retry(attempt, again))) == s'
  {
    DeliveryRefines(s, steps, id);
    Q.CountOnlyGrows(s.deliveries[id].row, RunOps(steps, id));
    var s' := Run(s, steps);
    assert id in s'.deliveries ==> s'.deliveries[id := s'.deliveries[id]] == s'.deliveries;
  }

  /** The row of the delivery, if there is one. */
  function RowOf(s: State, id: Id): Option<Q.Row> {
    if id in s.deliveries then Some(s.deliveries[id].row) else None
  }

  /** Only a claim makes a delivery held. */
  lemma HeldByClaim(s: State, step: Step, id: Id)
    requires RowOf(s, id) != RowOf(Apply(s, step), id)
    requires RowOf(Apply(s, step), id).Some? && RowOf(Apply(s, step), id).value.status == Q.Held
    ensures step.Queue? && step.id == id && step.op.Claim?
    ensures RowOf(s, id).Some? && RowOf(Apply(s, step), id).value.attempts == RowOf(s, id).value.attempts + 1
  {
  }

  /** A delivery that is being sent is in the hands of whoever claimed it last: step i claimed it with the
      count it has, and nothing has happened to it since. */
  lemma HolderClaimedLast(s: State, steps: seq<Step>, id: Id) returns (i: nat)
    requires RowOf(s, id).Some? ==> RowOf(s, id).value.status != Q.Held
    requires RowOf(Run(s, steps), id).Some? && RowOf(Run(s, steps), id).value.status == Q.Held
    ensures i < |steps| && steps[i].Queue? && steps[i].id == id && steps[i].op.Claim?
    ensures RowOf(Run(s, steps[..i]), id).Some?
    ensures RowOf(Run(s, steps), id).value.attempts == RowOf(Run(s, steps[..i]), id).value.attempts + 1
    ensures forall j :: i < j <= |steps| ==> RowOf(Run(s, steps[..j]), id) == RowOf(Run(s, steps), id)
  {
    var trace := seq(|steps| + 1, j requires 0 <= j <= |steps| => RowOf(Run(s, steps[..j]), id));
    assert steps[..|steps|] == steps;
    i := LastChange(trace);
    assert steps[..i + 1][..i] == steps[..i];
    assert forall j :: i < j <= |steps| ==> trace[j] == RowOf(Run(s, steps[..j]), id);
    HeldByClaim(Run(s, steps[..i]), steps[i], id);
  }
}
