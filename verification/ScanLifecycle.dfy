/** The life of a scan: its row, its row in the dispatch outbox and its attempts, and every
    writer of the three tables. Each database transaction is one step, so a crash falls
    between two steps; a step whose guard fails changes nothing. */
module ScanLifecycle {

  import opened Common

  datatype Status = Queued | Running | Completed | Failed | Cancelled

  datatype Mode = Monitoring | PublicAudit | Deep

  datatype Trigger = Manual | Scheduled

  datatype DispatchStatus = Pending | Dispatching | Dispatched | DispatchCancelled | DispatchFailed

  datatype Dispatch = Dispatch(status: DispatchStatus, attempts: nat, due: int, lease: Option<int>)

  datatype AttemptStatus = AttemptRunning | AttemptCompleted | AttemptFailed | AttemptRetrying

  /** `started` records that the attempt has made its one call that sets the scan running. */
  datatype Attempt = Attempt(status: AttemptStatus, lease: Option<int>, started: bool)

  type Finding = nat

  /** A scan with the rows that reference it; attempt number k is `attempts[k - 1]`. */
  datatype Scan = Scan(
    site: nat,
    mode: Mode,
    trigger: Trigger,
    status: Status,
    startedAt: Option<int>,
    findings: seq<Finding>,
    checked: bool,
    dispatch: Option<Dispatch>,
    attempts: seq<Attempt>
  )

  /** `used` holds every identifier ever given to a scan: identifiers are never reused. */
  datatype State = State(scans: map<nat, Scan>, used: set<nat>)

  const INIT := State(map[], {})

  const PROOF_RETRY := 60_000
  const DEEP_LEASE := 30_000
  const MAX_STALE_RECOVERY := 5
  const MAX_DEEP_ATTEMPTS := 5

  predicate Active(scan: Scan) {
    scan.status == Queued || scan.status == Running
  }

  /** Another active scan of the same site, which the unique index does not allow. */
  predicate Rivalled(s: State, id: nat, site: nat) {
    exists other :: other in s.scans && other != id && s.scans[other].site == site && Active(s.scans[other])
  }

  // ----- Writers -----

  /** What the claim finds about site, schedule and ownership proof. */
  datatype Context = ProofStale | Invalid | Fit

  datatype JobState = Missing | Unknown | Waiting | ActiveJob | FailedJob | CompletedJob

  datatype Inspection = Throws | Seen(state: JobState)

  datatype Writer =
    // The dispatch coordinator.
    | Claim(now: int, leaseMs: nat, context: Context)
    | MarkDispatched(claim: nat)
    | MarkRetry(claim: nat, now: int)
    | Restore(now: int)
    // The worker, non-Deep scans.
    | BeginAttempt
    | MarkRunning(attempt: nat, startedAt: int, eligible: bool)
    | Complete(findings: seq<Finding>)
    | FailForJob
    | CompleteAttempt(attempt: nat)
    | FailAttempt(attempt: nat, terminal: bool)
    // The scheduler.
    | CancelInvalid
    | Sweep(inspection: Inspection, now: int, clock: int)
    // The worker, Deep scans.
    | PrepareDeep(clock: int, runnable: bool)
    | ClaimLease(clock: int)
    | RenewLease(attempt: nat, clock: int)
    | ReleaseLease(attempt: nat)
    | DeepFailure(attempt: nat, terminal: bool)
    | PersistChecks(attempt: nat, clock: int, denied: bool)

  function RetryDelay(claims: nat): int {
    Min(5 * 60_000, 2_000 * Pow2(Min(claims - 1, 8)))
  }

  predicate Due(d: Dispatch, now: int) {
    || (d.status == Pending && d.due <= now)
    || (d.status == Dispatching && d.lease.Some? && d.lease.value <= now)
  }

  function SetDispatch(scan: Scan, d: Dispatch): Scan {
    scan.(dispatch := Some(d))
  }

  function ActClaim(scan: Scan, now: int, leaseMs: nat, context: Context): Scan {
    if scan.dispatch.None? || !Due(scan.dispatch.value, now) then scan
    else
      var d := scan.dispatch.value;
      if scan.status == Cancelled then SetDispatch(scan, d.(status := DispatchCancelled, lease := None))
      else if scan.status != Queued then SetDispatch(scan, d.(status := Dispatched, lease := None))
      else match context
        case ProofStale => SetDispatch(scan, d.(status := Pending, due := now + PROOF_RETRY, lease := None))
        case Invalid => SetDispatch(scan, d.(status := DispatchCancelled, lease := None)).(status := Cancelled)
        case Fit => SetDispatch(scan, d.(status := Dispatching, attempts := d.attempts + 1, lease := Some(now + leaseMs)))
  }

  /** The dispatch is still in the hands of the claim with this count. */
  predicate HeldBy(scan: Scan, claim: nat) {
    scan.dispatch.Some? && scan.dispatch.value.status == Dispatching && scan.dispatch.value.attempts == claim
  }

  function ActMarkDispatched(scan: Scan, claim: nat): Scan {
    if HeldBy(scan, claim) then SetDispatch(scan, scan.dispatch.value.(status := Dispatched, lease := None)) else scan
  }

  function ActMarkRetry(scan: Scan, claim: nat, now: int): Scan {
    if HeldBy(scan, claim) then
      SetDispatch(scan, scan.dispatch.value.(status := Pending, due := now + RetryDelay(claim), lease := None))
    else scan
  }

  /** The reconciler lists queued scans whose job is gone, but its update only looks at the dispatch. */
  function ActRestore(scan: Scan, now: int): Scan {
    if scan.dispatch.Some? && scan.dispatch.value.status == Dispatched then
      SetDispatch(scan, scan.dispatch.value.(status := Pending, due := now, lease := None))
    else scan
  }

  predicate HasAttempt(scan: Scan, n: nat) {
    1 <= n <= |scan.attempts|
  }

  predicate AttemptIs(scan: Scan, n: nat, status: AttemptStatus) {
    HasAttempt(scan, n) && scan.attempts[n - 1].status == status
  }

  function SetAttempt(scan: Scan, n: nat, a: Attempt): Scan
    requires HasAttempt(scan, n)
  {
    scan.(attempts := scan.attempts[n - 1 := a])
  }

  /** Ends attempt n if it is still running. */
  function EndAttempt(scan: Scan, n: nat, status: AttemptStatus): Scan {
    if AttemptIs(scan, n, AttemptRunning) then SetAttempt(scan, n, scan.attempts[n - 1].(status := status)) else scan
  }

  /** As EndAttempt, and the lease goes too. */
  function EndLease(scan: Scan, n: nat, status: AttemptStatus): Scan {
    if AttemptIs(scan, n, AttemptRunning) then SetAttempt(scan, n, scan.attempts[n - 1].(status := status, lease := None))
    else scan
  }

  function ActBeginAttempt(scan: Scan): Scan {
    if scan.mode == Deep then scan
    else
      var closed := EndAttempt(scan, |scan.attempts|, AttemptRetrying);
      closed.(attempts := closed.attempts + [Attempt(AttemptRunning, None, false)])
  }

  /** The worker ends an attempt it began; it begins none for a Deep scan. */
  function ActEndAttempt(scan: Scan, n: nat, status: AttemptStatus): Scan {
    if scan.mode == Deep then scan else EndAttempt(scan, n, status)
  }

  function ActMarkRunning(scan: Scan, n: nat, startedAt: int, eligible: bool, rivalled: bool): Scan {
    if && scan.mode != Deep && eligible
       && HasAttempt(scan, n) && !scan.attempts[n - 1].started
       && (scan.status == Queued || scan.status == Running || (scan.status == Failed && !rivalled))
    then SetAttempt(scan, n, scan.attempts[n - 1].(started := true)).(status := Running, startedAt := Some(startedAt))
    else scan
  }

  function ActComplete(scan: Scan, findings: seq<Finding>): Scan {
    if scan.mode != Deep && scan.status == Running then scan.(status := Completed, findings := findings) else scan
  }

  function ActFailForJob(scan: Scan): Scan {
    if scan.mode != Deep && (Active(scan) || scan.status == Failed) then scan.(status := Failed) else scan
  }

  function ActCancelInvalid(scan: Scan): Scan {
    if scan.trigger == Scheduled && scan.mode == Monitoring && scan.status == Queued then scan.(status := Cancelled)
    else scan
  }

  /** The last attempt failed for good, whether it was running or waiting for a retry. */
  function FailLatest(scan: Scan): Scan {
    var n := |scan.attempts|;
    if AttemptIs(scan, n, AttemptRunning) || AttemptIs(scan, n, AttemptRetrying) then
      SetAttempt(scan, n, scan.attempts[n - 1].(status := AttemptFailed, lease := None))
    else scan
  }

  predicate LeaseLive(scan: Scan, n: nat, clock: int) {
    && AttemptIs(scan, n, AttemptRunning)
    && scan.attempts[n - 1].lease.Some? && scan.attempts[n - 1].lease.value > clock
  }

  function ActSweepDeep(scan: Scan, state: JobState, clock: int): Scan {
    if LeaseLive(scan, |scan.attempts|, clock) || state == Unknown || state == Waiting then scan
    else FailLatest(scan).(status := Failed)
  }

  function FailDispatch(scan: Scan): Scan {
    if scan.dispatch.None? then scan
    else SetDispatch(scan, scan.dispatch.value.(status := DispatchFailed, lease := None))
  }

  /** Back to the queue with a pending dispatch, which is inserted if there is none. */
  function Requeue(scan: Scan, now: int): Scan {
    var claims := if scan.dispatch.Some? then scan.dispatch.value.attempts else 0;
    SetDispatch(scan, Dispatch(Pending, claims, now, None)).(status := Queued, startedAt := None)
  }

  /** The sweep counts the attempts and then resets the row; the two are one step here. */
  function ActSweepMissing(scan: Scan, now: int): Scan {
    if |scan.attempts| >= MAX_STALE_RECOVERY then FailDispatch(scan.(status := Failed)) else Requeue(scan, now)
  }

  /** What the stale sweep does with one running scan, after it asked the queue for its job. */
  function ActSweep(scan: Scan, inspection: Inspection, now: int, clock: int): Scan {
    if inspection == Throws || scan.status != Running then scan
    else if scan.mode == Deep then ActSweepDeep(scan, inspection.state, clock)
    else match inspection.state
      case FailedJob => FailDispatch(FailLatest(scan).(status := Failed))
      case CompletedJob => FailDispatch(FailLatest(scan).(status := Failed))
      case Missing => ActSweepMissing(scan, now)
      case _ => scan
  }

  function ActPrepareDeep(scan: Scan, clock: int, runnable: bool): Scan {
    if scan.mode == Deep && runnable && scan.trigger == Manual && scan.status == Queued then
      scan.(status := Running, startedAt := Some(clock))
    else scan
  }

  /** A running attempt is only superseded once its lease has run out; one without a lease never is. */
  function ActClaimLease(scan: Scan, clock: int): Scan {
    var n := |scan.attempts|;
    if || scan.mode != Deep || scan.status != Running || scan.checked || n >= MAX_DEEP_ATTEMPTS
       || (AttemptIs(scan, n, AttemptRunning) && (scan.attempts[n - 1].lease.None? || LeaseLive(scan, n, clock)))
       || AttemptIs(scan, n, AttemptCompleted)
    then scan
    else
      var closed := EndLease(scan, n, AttemptRetrying);
      closed.(attempts := closed.attempts + [Attempt(AttemptRunning, Some(clock + DEEP_LEASE), false)])
  }

  /** Renewal, release, failure and persistence of a Deep attempt name it by its secret token,
      which only its holder has; non-Deep attempts have no token. */
  function ActRenewLease(scan: Scan, n: nat, clock: int): Scan {
    if scan.mode == Deep && LeaseLive(scan, n, clock) then
      SetAttempt(scan, n, scan.attempts[n - 1].(lease := Some(clock + DEEP_LEASE)))
    else scan
  }

  function ActReleaseLease(scan: Scan, n: nat): Scan {
    if scan.mode == Deep then EndLease(scan, n, AttemptRetrying) else scan
  }

  function ActDeepFailure(scan: Scan, n: nat, terminal: bool): Scan {
    if scan.mode == Deep && scan.status == Running && n == |scan.attempts| && AttemptIs(scan, n, AttemptRetrying) && terminal
    then SetAttempt(scan, n, scan.attempts[n - 1].(status := AttemptFailed)).(status := Failed)
    else scan
  }

  function ActPersistChecks(scan: Scan, n: nat, clock: int, denied: bool): Scan {
    if scan.mode == Deep && scan.status == Running && LeaseLive(scan, n, clock) && !scan.checked then
      EndLease(scan, n, if denied then AttemptFailed else AttemptCompleted)
        .(status := if denied then Failed else Completed, checked := true)
    else scan
  }

  function ActDispatch(scan: Scan, w: Writer): Scan
    requires w.Claim? || w.MarkDispatched? || w.MarkRetry? || w.Restore?
  {
    match w
    case Claim(now, leaseMs, context) => ActClaim(scan, now, leaseMs, context)
    case MarkDispatched(claim) => ActMarkDispatched(scan, claim)
    case MarkRetry(claim, now) => ActMarkRetry(scan, claim, now)
    case Restore(now) => ActRestore(scan, now)
  }

  predicate IsDispatch(w: Writer) {
    w.Claim? || w.MarkDispatched? || w.MarkRetry? || w.Restore?
  }

  predicate IsDeep(w: Writer) {
    w.PrepareDeep? || w.ClaimLease? || w.RenewLease? || w.ReleaseLease? || w.DeepFailure? || w.PersistChecks?
  }

  function ActDeep(scan: Scan, w: Writer): Scan
    requires IsDeep(w)
  {
    match w
    case PrepareDeep(clock, runnable) => ActPrepareDeep(scan, clock, runnable)
    case ClaimLease(clock) => ActClaimLease(scan, clock)
    case RenewLease(n, clock) => ActRenewLease(scan, n, clock)
    case ReleaseLease(n) => ActReleaseLease(scan, n)
    case DeepFailure(n, terminal) => ActDeepFailure(scan, n, terminal)
    case PersistChecks(n, clock, denied) => ActPersistChecks(scan, n, clock, denied)
  }

  function Act(scan: Scan, w: Writer, rivalled: bool): Scan {
    if IsDispatch(w) then ActDispatch(scan, w)
    else if IsDeep(w) then ActDeep(scan, w)
    else match w
      case BeginAttempt => ActBeginAttempt(scan)
      case MarkRunning(n, startedAt, eligible) => ActMarkRunning(scan, n, startedAt, eligible, rivalled)
      case Complete(findings) => ActComplete(scan, findings)
      case FailForJob => ActFailForJob(scan)
      case CompleteAttempt(n) => ActEndAttempt(scan, n, AttemptCompleted)
      case FailAttempt(n, terminal) => ActEndAttempt(scan, n, if terminal then AttemptFailed else AttemptRetrying)
      case CancelInvalid => ActCancelInvalid(scan)
      case Sweep(inspection, now, clock) => ActSweep(scan, inspection, now, clock)
      case _ => scan
  }

  // ----- Steps -----

  datatype Step =
    | Create(id: nat, site: nat, mode: Mode, trigger: Trigger, now: int)
    | Write(id: nat, writer: Writer)
    | Fence(site: nat, clock: int)     // a Deep grant of the site was issued or revoked
    | Delete(id: nat)                  // retention or site deletion

  /** Every creator inserts the dispatch row in the transaction that inserts the scan. */
  function NewScan(site: nat, mode: Mode, trigger: Trigger, now: int): Scan {
    Scan(site, mode, trigger, Queued, None, [], false, Some(Dispatch(Pending, 0, now, None)), [])
  }

  function FenceScan(scan: Scan, site: nat, clock: int): Scan {
    if scan.site == site && scan.mode == Deep then
      scan.(attempts := seq(|scan.attempts|, i requires 0 <= i < |scan.attempts| =>
        if scan.attempts[i].status == AttemptRunning then scan.attempts[i].(lease := Some(clock)) else scan.attempts[i]))
    else scan
  }

  function Apply(s: State, step: Step): State {
    match step
    case Create(id, site, mode, trigger, now) =>
      if id in s.used || Rivalled(s, id, site) || (mode != Monitoring && trigger != Manual) then s
      else s.(scans := s.scans[id := NewScan(site, mode, trigger, now)], used := s.used + {id})
    case Write(id, w) =>
      if id in s.scans then s.(scans := s.scans[id := Act(s.scans[id], w, Rivalled(s, id, s.scans[id].site))]) else s
    case Fence(site, clock) =>
      s.(scans := map id | id in s.scans :: FenceScan(s.scans[id], site, clock))
    case Delete(id) =>
      if id in s.scans && !Active(s.scans[id]) then s.(scans := s.scans - {id}) else s
  }

  function Run(s: State, steps: seq<Step>): State
    decreases |steps|
  {
    if steps == [] then s else Apply(Run(s, steps[..|steps| - 1]), steps[|steps| - 1])
  }

  lemma {:induction false} RunConcat(s: State, a: seq<Step>, b: seq<Step>)
    ensures Run(s, a + b) == Run(Run(s, a), b)
    decreases |b|
  {
    if b == [] {
      assert a + b == a;
    } else {
      var c := b[..|b| - 1];
      assert (a + b)[..|a + b| - 1] == a + c;
      RunConcat(s, a, c);
    }
  }

  lemma RunSplit(s: State, steps: seq<Step>, k: nat)
    requires k <= |steps|
    ensures Run(s, steps) == Run(Run(s, steps[..k]), steps[k..])
  {
    assert steps == steps[..k] + steps[k..];
    RunConcat(s, steps[..k], steps[k..]);
  }

  lemma RunStep(s: State, steps: seq<Step>, step: Step)
    ensures Run(s, steps + [step]) == Apply(Run(s, steps), step)
  {
    assert (steps + [step])[..|steps|] == steps;
  }

  // ----- The invariant -----

  /** A queued scan is in the outbox. */
  ghost predicate Outboxed(scan: Scan) {
    scan.status == Queued ==>
      scan.dispatch.Some? && scan.dispatch.value.status in {Pending, Dispatching, Dispatched}
  }

  /** A dispatch is leased exactly while it is being dispatched. */
  ghost predicate LeasedIffDispatching(scan: Scan) {
    scan.dispatch.Some? ==> (scan.dispatch.value.lease.Some? <==> scan.dispatch.value.status == Dispatching)
  }

  /** Only the newest attempt can be running; only attempts of Deep scans are leased. */
  ghost predicate AttemptsOk(scan: Scan) {
    && (forall i :: 0 <= i < |scan.attempts| - 1 ==> scan.attempts[i].status != AttemptRunning)
    && (scan.mode != Deep ==> forall i :: 0 <= i < |scan.attempts| ==> scan.attempts[i].lease.None?)
    && (scan.mode == Deep ==> |scan.attempts| <= MAX_DEEP_ATTEMPTS)
  }

  ghost predicate ScanOk(scan: Scan) {
    && Outboxed(scan) && LeasedIffDispatching(scan) && AttemptsOk(scan)
    && (scan.mode != Monitoring ==> scan.trigger == Manual)
    && (scan.status == Running ==> scan.startedAt.Some?)
    && (scan.findings != [] ==> scan.status == Completed && scan.mode != Deep)
    && (scan.checked ==> !Active(scan) && scan.mode == Deep)
  }

  /** The unique index: one active scan per site. */
  ghost predicate OneActive(s: State) {
    forall a, b :: a in s.scans && b in s.scans && a != b && Active(s.scans[a]) && Active(s.scans[b]) ==>
      s.scans[a].site != s.scans[b].site
  }

  ghost predicate Inv(s: State) {
    && (forall id :: id in s.scans ==> id in s.used && ScanOk(s.scans[id]))
    && OneActive(s)
  }

  lemma DispatchKeepsOk(scan: Scan, w: Writer)
    requires ScanOk(scan) && IsDispatch(w)
    ensures ScanOk(ActDispatch(scan, w))
  {
  }

  lemma DeepKeepsOk(scan: Scan, w: Writer)
    requires ScanOk(scan) && IsDeep(w)
    ensures ScanOk(ActDeep(scan, w))
  {
  }

  lemma SweepKeepsOk(scan: Scan, inspection: Inspection, now: int, clock: int)
    requires ScanOk(scan)
    ensures ScanOk(ActSweep(scan, inspection, now, clock))
  {
  }

  ghost predicate SameIdentity(a: Scan, b: Scan) {
    b.site == a.site && b.mode == a.mode && b.trigger == a.trigger
  }

  lemma WorkerKeepsOk(scan: Scan, w: Writer, rivalled: bool)
    requires ScanOk(scan) && !IsDispatch(w) && !IsDeep(w) && !w.Sweep?
    ensures ScanOk(Act(scan, w, rivalled))
  {
    match w
    case BeginAttempt => BeginKeepsOk(scan);
    case MarkRunning(n, startedAt, eligible) => MarkRunningKeepsOk(scan, n, startedAt, eligible, rivalled);
    case _ =>
  }

  lemma BeginKeepsOk(scan: Scan)
    requires ScanOk(scan)
    ensures ScanOk(ActBeginAttempt(scan))
  {
  }

  lemma MarkRunningKeepsOk(scan: Scan, n: nat, startedAt: int, eligible: bool, rivalled: bool)
    requires ScanOk(scan)
    ensures ScanOk(ActMarkRunning(scan, n, startedAt, eligible, rivalled))
  {
  }

  lemma ActKeepsOk(scan: Scan, w: Writer, rivalled: bool)
    requires ScanOk(scan)
    ensures ScanOk(Act(scan, w, rivalled))
  {
    if IsDispatch(w) {
      DispatchKeepsOk(scan, w);
    } else if IsDeep(w) {
      DeepKeepsOk(scan, w);
    } else if w.Sweep? {
      SweepKeepsOk(scan, w.inspection, w.now, w.clock);
    } else {
      WorkerKeepsOk(scan, w, rivalled);
    }
  }

  lemma ActKeepsIdentity(scan: Scan, w: Writer, rivalled: bool)
    ensures var scan' := Act(scan, w, rivalled);
      SameIdentity(scan, scan') && (Active(scan') ==> Active(scan) || !rivalled)
  {
  }

  lemma WriteKeepsInv(s: State, id: nat, w: Writer)
    requires Inv(s) && id in s.scans
    ensures Inv(Apply(s, Write(id, w)))
  {
    var rivalled := Rivalled(s, id, s.scans[id].site);
    ActKeepsOk(s.scans[id], w, rivalled);
    ActKeepsIdentity(s.scans[id], w, rivalled);
    var scan := Act(s.scans[id], w, rivalled);
    ReplaceKeepsInv(s, id, scan);
    assert Apply(s, Write(id, w)) == s.(scans := s.scans[id := scan]);
  }

  lemma ReplaceKeepsInv(s: State, id: nat, scan: Scan)
    requires Inv(s) && id in s.scans && ScanOk(scan) && scan.site == s.scans[id].site
    requires Active(scan) ==> Active(s.scans[id]) || !Rivalled(s, id, scan.site)
    ensures Inv(s.(scans := s.scans[id := scan]))
  {
  }

  lemma CreateKeepsInv(s: State, id: nat, site: nat, mode: Mode, trigger: Trigger, now: int)
    requires Inv(s)
    ensures Inv(Apply(s, Create(id, site, mode, trigger, now)))
  {
  }

  lemma FenceKeepsInv(s: State, site: nat, clock: int)
    requires Inv(s)
    ensures Inv(Apply(s, Fence(site, clock)))
  {
    forall id | id in s.scans
      ensures ScanOk(FenceScan(s.scans[id], site, clock))
    {
      FenceKeepsOk(s.scans[id], site, clock);
    }
  }

  lemma FenceKeepsOk(scan: Scan, site: nat, clock: int)
    requires ScanOk(scan)
    ensures ScanOk(FenceScan(scan, site, clock))
  {
  }

  lemma StepKeepsInv(s: State, step: Step)
    requires Inv(s)
    ensures Inv(Apply(s, step))
  {
    match step
    case Create(id, site, mode, trigger, now) => CreateKeepsInv(s, id, site, mode, trigger, now);
    case Fence(site, clock) => FenceKeepsInv(s, site, clock);
    case Write(id, w) =>
      if id in s.scans {
        WriteKeepsInv(s, id, w);
      }
    case Delete(_) =>
  }

  lemma {:induction false} RunKeepsInv(s: State, steps: seq<Step>)
    requires Inv(s)
    ensures Inv(Run(s, steps))
    decreases |steps|
  {
    if steps != [] {
      RunKeepsInv(s, steps[..|steps| - 1]);
      StepKeepsInv(Run(s, steps[..|steps| - 1]), steps[|steps| - 1]);
    }
  }

  // ----- The outbox loses nothing -----

  /** In every reachable state: each queued scan has a live dispatch, a dispatch is leased exactly
      while it is being dispatched, and a site has at most one active scan. */
  lemma OutboxSafety(steps: seq<Step>)
    ensures var s := Run(INIT, steps);
      && OneActive(s)
      && forall id :: id in s.scans ==> Outboxed(s.scans[id]) && LeasedIffDispatching(s.scans[id])
  {
    RunKeepsInv(INIT, steps);
  }

  /** Its retry time has come, or the lease of whoever claimed it has run out. */
  predicate Ripe(d: Dispatch, now: int) {
    (d.status == Pending ==> d.due <= now) && (d.lease.Some? ==> d.lease.value <= now)
  }

  /** No queued scan is lost: from every reachable state the coordinator alone can hand it to the
      queue again, as soon as its dispatch is ripe. */
  lemma NeverLost(steps: seq<Step>, id: nat, now: int, leaseMs: nat)
    requires id in Run(INIT, steps).scans
    requires var scan := Run(INIT, steps).scans[id]; scan.status == Queued && (scan.dispatch.Some? ==> Ripe(scan.dispatch.value, now))
    ensures var s := Run(INIT, steps);
      var s' := Run(s, [Write(id, Restore(now)), Write(id, Claim(now, leaseMs, Fit))]);
      && id in s'.scans && s'.scans[id].status == Queued && s.scans[id].dispatch.Some? && s'.scans[id].dispatch.Some?
      && var d := s'.scans[id].dispatch.value;
         && d.status == Dispatching && d.lease == Some(now + leaseMs)
         && d.attempts == s.scans[id].dispatch.value.attempts + 1
  {
    RunKeepsInv(INIT, steps);
    var s := Run(INIT, steps);
    var restore, claim := Write(id, Restore(now)), Write(id, Claim(now, leaseMs, Fit));
    assert [restore, claim][..1] == [restore] && [restore][..0] == [];
    assert Run(s, [restore]) == Apply(s, restore);
    assert Run(s, [restore, claim]) == Apply(Apply(s, restore), claim);
    RestoreAndClaim(s.scans[id], now, leaseMs);
  }

  lemma RestoreAndClaim(scan: Scan, now: int, leaseMs: nat)
    requires ScanOk(scan) && scan.status == Queued && scan.dispatch.Some? && Ripe(scan.dispatch.value, now)
    ensures var scan' := ActClaim(ActRestore(scan, now), now, leaseMs, Fit);
      && scan'.status == Queued && scan'.dispatch.Some? && scan'.dispatch.value.status == Dispatching
      && scan'.dispatch.value.lease == Some(now + leaseMs) && scan'.dispatch.value.attempts == scan.dispatch.value.attempts + 1
  {
  }

  // ----- Counters only grow -----

  lemma {:induction false} UsedGrows(s: State, steps: seq<Step>)
    requires Inv(s)
    ensures s.used <= Run(s, steps).used
    decreases |steps|
  {
    if steps != [] {
      UsedGrows(s, steps[..|steps| - 1]);
    }
  }

  /** A scan seen at both ends of a run was there all the time, since no identifier is reused. */
  lemma PresentThroughout(s: State, steps: seq<Step>, id: nat)
    requires Inv(s) && id in s.scans && steps != [] && id in Run(s, steps).scans
    ensures id in Run(s, steps[..|steps| - 1]).scans
    ensures Inv(Run(s, steps[..|steps| - 1]))
  {
    UsedGrows(s, steps[..|steps| - 1]);
    RunKeepsInv(s, steps[..|steps| - 1]);
  }

  ghost predicate CountersGrown(a: Scan, b: Scan) {
    && |a.attempts| <= |b.attempts|
    && (a.dispatch.Some? ==> b.dispatch.Some? && a.dispatch.value.attempts <= b.dispatch.value.attempts)
  }

  lemma DispatchGrows(scan: Scan, w: Writer)
    requires IsDispatch(w)
    ensures CountersGrown(scan, ActDispatch(scan, w))
  {
  }

  lemma DeepGrows(scan: Scan, w: Writer)
    requires IsDeep(w)
    ensures CountersGrown(scan, ActDeep(scan, w))
  {
  }

  lemma ActGrows(scan: Scan, w: Writer, rivalled: bool)
    ensures CountersGrown(scan, Act(scan, w, rivalled))
  {
    if IsDispatch(w) {
      DispatchGrows(scan, w);
    } else if IsDeep(w) {
      DeepGrows(scan, w);
    }
  }

  lemma StepGrows(s: State, step: Step, id: nat)
    requires Inv(s) && id in s.scans && id in Apply(s, step).scans
    ensures CountersGrown(s.scans[id], Apply(s, step).scans[id])
  {
    if step.Write? && step.id == id {
      ActGrows(s.scans[id], step.writer, Rivalled(s, id, s.scans[id].site));
    }
  }

  lemma {:induction false} CountersOnlyGrow(s: State, steps: seq<Step>, id: nat)
    requires Inv(s) && id in s.scans && id in Run(s, steps).scans
    ensures CountersGrown(s.scans[id], Run(s, steps).scans[id])
    decreases |steps|
  {
    if steps != [] {
      PresentThroughout(s, steps, id);
      CountersOnlyGrow(s, steps[..|steps| - 1], id);
      StepGrows(Run(s, steps[..|steps| - 1]), steps[|steps| - 1], id);
    }
  }

  /** Once somebody else has claimed a dispatch, the earlier claimant can never settle it again. */
  lemma OldClaimIsPowerless(s: State, steps: seq<Step>, id: nat, claim: nat, now: int)
    requires Inv(s) && id in s.scans && s.scans[id].dispatch.Some? && claim < s.scans[id].dispatch.value.attempts
    ensures var s' := Run(s, steps);
      Apply(s', Write(id, MarkDispatched(claim))) == s' && Apply(s', Write(id, MarkRetry(claim, now))) == s'
  {
    var s' := Run(s, steps);
    if id in s'.scans {
      CountersOnlyGrow(s, steps, id);
      assert s'.scans[id := s'.scans[id]] == s'.scans;
    }
  }

  /** Once a later Deep attempt exists, the earlier one can neither renew, release or fail its
      lease nor store results, whatever happens in between. */
  lemma OldAttemptIsPowerless(s: State, steps: seq<Step>, id: nat, n: nat, w: Writer)
    requires Inv(s) && id in s.scans && s.scans[id].mode == Deep && n < |s.scans[id].attempts|
    requires
      || (w.RenewLease? && w.attempt == n) || (w.ReleaseLease? && w.attempt == n)
      || (w.DeepFailure? && w.attempt == n) || (w.PersistChecks? && w.attempt == n)
    ensures var s' := Run(s, steps); Apply(s', Write(id, w)) == s'
  {
    var s' := Run(s, steps);
    if id in s'.scans {
      CountersOnlyGrow(s, steps, id);
      RunKeepsInv(s, steps);
      assert s'.scans[id := s'.scans[id]] == s'.scans;
    }
  }

  /** Site, mode and trigger of a scan never change. */
  lemma {:induction false} IdentityKept(s: State, steps: seq<Step>, id: nat)
    requires Inv(s) && id in s.scans && id in Run(s, steps).scans
    ensures SameIdentity(s.scans[id], Run(s, steps).scans[id])
    decreases |steps|
  {
    if steps != [] {
      PresentThroughout(s, steps, id);
      IdentityKept(s, steps[..|steps| - 1], id);
      var s1, step := Run(s, steps[..|steps| - 1]), steps[|steps| - 1];
      if step.Write? && step.id == id {
        ActKeepsIdentity(s1.scans[id], step.writer, Rivalled(s1, id, s1.scans[id].site));
      }
    }
  }

  // ----- What is final -----

  predicate Final(scan: Scan) {
    scan.status == Completed || scan.status == Cancelled || (scan.status == Failed && scan.mode == Deep)
  }

  ghost predicate SameOutcome(a: Scan, b: Scan) {
    && b.status == a.status && b.mode == a.mode && b.site == a.site
    && b.findings == a.findings && b.checked == a.checked && b.startedAt == a.startedAt
  }

  lemma ActKeepsFinal(scan: Scan, w: Writer, rivalled: bool)
    requires Final(scan)
    ensures SameOutcome(scan, Act(scan, w, rivalled))
  {
  }

  lemma StepKeepsFinal(s: State, step: Step, id: nat)
    requires Inv(s) && id in s.scans && Final(s.scans[id]) && id in Apply(s, step).scans
    ensures SameOutcome(s.scans[id], Apply(s, step).scans[id])
  {
    if step.Write? && step.id == id {
      ActKeepsFinal(s.scans[id], step.writer, Rivalled(s, id, s.scans[id].site));
    }
  }

  /** Completed and cancelled scans never change status or results again, nor do failed Deep scans. */
  lemma {:induction false} FinalForever(s: State, steps: seq<Step>, id: nat)
    requires Inv(s) && id in s.scans && Final(s.scans[id]) && id in Run(s, steps).scans
    ensures SameOutcome(s.scans[id], Run(s, steps).scans[id])
    decreases |steps|
  {
    if steps != [] {
      PresentThroughout(s, steps, id);
      FinalForever(s, steps[..|steps| - 1], id);
      StepKeepsFinal(Run(s, steps[..|steps| - 1]), steps[|steps| - 1], id);
    }
  }

  /** A failed scan leaves that status exactly when a fresh attempt of a scan that is not Deep
      starts it, while no other scan of the site is active. */
  lemma FailedRunsAgainIff(s: State, step: Step, id: nat)
    requires Inv(s) && id in s.scans && s.scans[id].status == Failed && id in Apply(s, step).scans
    ensures Apply(s, step).scans[id].status != Failed <==>
      && step.Write? && step.id == id && step.writer.MarkRunning? && step.writer.eligible
      && s.scans[id].mode != Deep && !Rivalled(s, id, s.scans[id].site)
      && HasAttempt(s.scans[id], step.writer.attempt) && !s.scans[id].attempts[step.writer.attempt - 1].started
    ensures Apply(s, step).scans[id].status in {Failed, Running}
  {
  }

  /** Step i of the run turns the scan from running to completed. */
  ghost predicate CompletesAt(steps: seq<Step>, i: nat, id: nat) {
    && i < |steps|
    && id in Run(INIT, steps[..i]).scans && Run(INIT, steps[..i]).scans[id].status == Running
    && id in Run(INIT, steps[..i + 1]).scans && Run(INIT, steps[..i + 1]).scans[id].status == Completed
  }

  lemma CompletionIsForever(steps: seq<Step>, i: nat, id: nat)
    requires CompletesAt(steps, i, id) && id in Run(INIT, steps).scans
    ensures SameOutcome(Run(INIT, steps[..i + 1]).scans[id], Run(INIT, steps).scans[id])
  {
    RunKeepsInv(INIT, steps[..i + 1]);
    RunSplit(INIT, steps, i + 1);
    FinalForever(Run(INIT, steps[..i + 1]), steps[i + 1..], id);
  }

  lemma CompletesOnce(steps: seq<Step>, i: nat, j: nat, id: nat)
    requires CompletesAt(steps, i, id) && CompletesAt(steps, j, id)
    ensures i == j
  {
    if i < j {
      assert steps[..j][..i] == steps[..i] && steps[..j][..i + 1] == steps[..i + 1];
      CompletionIsForever(steps[..j], i, id);
    } else if j < i {
      assert steps[..i][..j] == steps[..j] && steps[..i][..j + 1] == steps[..j + 1];
      CompletionIsForever(steps[..i], j, id);
    }
  }

  /** The findings of a completed scan that is not Deep are those of one call, the only one in
      the whole run that completed it. */
  lemma {:induction false} FindingsOfTheOneCompletion(steps: seq<Step>, id: nat) returns (i: nat)
    requires id in Run(INIT, steps).scans
    requires Run(INIT, steps).scans[id].status == Completed && Run(INIT, steps).scans[id].mode != Deep
    ensures CompletesAt(steps, i, id) && forall j: nat :: CompletesAt(steps, j, id) ==> j == i
    ensures steps[i] == Write(id, Complete(Run(INIT, steps).scans[id].findings))
  {
    i := FindCompletion(steps, id);
    forall j: nat | CompletesAt(steps, j, id)
      ensures j == i
    {
      CompletesOnce(steps, i, j, id);
    }
  }

  lemma OnlyCompleteActs(scan: Scan, w: Writer, rivalled: bool)
    requires scan.mode != Deep && scan.status != Completed && Act(scan, w, rivalled).status == Completed
    ensures scan.status == Running && w.Complete? && Act(scan, w, rivalled).findings == w.findings
  {
  }

  lemma OnlyCompleteCompletes(s: State, step: Step, id: nat)
    requires Inv(s) && id in Apply(s, step).scans
    requires Apply(s, step).scans[id].status == Completed && Apply(s, step).scans[id].mode != Deep
    requires id in s.scans ==> s.scans[id].status != Completed
    ensures id in s.scans && s.scans[id].status == Running
    ensures step == Write(id, Complete(Apply(s, step).scans[id].findings))
  {
    if step.Write? && step.id == id && id in s.scans {
      var rivalled := Rivalled(s, id, s.scans[id].site);
      ActKeepsIdentity(s.scans[id], step.writer, rivalled);
      OnlyCompleteActs(s.scans[id], step.writer, rivalled);
    }
  }

  lemma {:induction false} FindCompletion(steps: seq<Step>, id: nat) returns (i: nat)
    requires id in Run(INIT, steps).scans
    requires Run(INIT, steps).scans[id].status == Completed && Run(INIT, steps).scans[id].mode != Deep
    ensures CompletesAt(steps, i, id)
    ensures steps[i] == Write(id, Complete(Run(INIT, steps).scans[id].findings))
    decreases |steps|
  {
    var n := |steps| - 1;
    var before := steps[..n];
    RunKeepsInv(INIT, before);
    var s := Run(INIT, before);
    assert steps[..n + 1] == steps;
    if id in s.scans && s.scans[id].status == Completed {
      StepKeepsFinal(s, steps[n], id);
      i := FindCompletion(before, id);
      assert before[..i] == steps[..i] && before[..i + 1] == steps[..i + 1];
    } else {
      OnlyCompleteCompletes(s, steps[n], id);
      i := n;
    }
  }

  // ----- How often a scan is requeued -----

  function Started(attempts: seq<Attempt>): nat {
    if attempts == [] then 0
    else Started(attempts[..|attempts| - 1]) + if attempts[|attempts| - 1].started then 1 else 0
  }

  lemma {:induction false} StartedSet(attempts: seq<Attempt>, i: nat, a: Attempt)
    requires i < |attempts|
    ensures Started(attempts[i := a]) ==
      Started(attempts) - (if attempts[i].started then 1 else 0) + (if a.started then 1 else 0)
    decreases |attempts|
  {
    var n := |attempts| - 1;
    if i == n {
      assert attempts[i := a][..n] == attempts[..n];
    } else {
      assert attempts[i := a][..n] == attempts[..n][i := a];
      StartedSet(attempts[..n], i, a);
    }
  }

  lemma {:induction false} StartedSame(a: seq<Attempt>, b: seq<Attempt>)
    requires |a| == |b| && forall i :: 0 <= i < |a| ==> a[i].started == b[i].started
    ensures Started(a) == Started(b) <= |a|
    decreases |a|
  {
    if a != [] {
      StartedSame(a[..|a| - 1], b[..|b| - 1]);
    }
  }

  predicate RequeuedBy(s: State, step: Step, id: nat) {
    && id in s.scans && s.scans[id].status == Running
    && id in Apply(s, step).scans && Apply(s, step).scans[id].status == Queued
  }

  function Requeues(steps: seq<Step>, id: nat): nat {
    if steps == [] then 0
    else
      var before := steps[..|steps| - 1];
      Requeues(before, id) + if RequeuedBy(Run(INIT, before), steps[|steps| - 1], id) then 1 else 0
  }

  /** Each requeue, and the present run, was started by a different attempt. */
  ghost predicate Consumed(scan: Scan, requeues: nat) {
    && (scan.mode == Deep ==> requeues == 0)
    && (scan.mode != Deep ==> requeues + (if scan.status == Running then 1 else 0) <= Started(scan.attempts))
  }

  ghost predicate StartsKept(a: Scan, b: Scan) {
    && |a.attempts| <= |b.attempts|
    && (forall i :: 0 <= i < |a.attempts| ==> b.attempts[i].started == a.attempts[i].started)
  }

  lemma StartedGrows(a: Scan, b: Scan)
    requires StartsKept(a, b)
    ensures Started(a.attempts) <= Started(b.attempts) <= |b.attempts|
    decreases |b.attempts|
  {
    var n := |b.attempts|;
    if n == |a.attempts| {
      StartedSame(a.attempts, b.attempts);
    } else {
      StartedGrows(a, b.(attempts := b.attempts[..n - 1]));
    }
  }

  /** Only MarkRunning starts an attempt or, outside Deep scans, sets a scan running. */
  lemma OnlyMarkRunningStarts(scan: Scan, w: Writer, rivalled: bool)
    requires scan.mode != Deep && !w.MarkRunning?
    ensures var scan' := Act(scan, w, rivalled);
      StartsKept(scan, scan') && (scan'.status == Running ==> scan.status == Running)
  {
  }

  lemma ActConsumes(scan: Scan, w: Writer, rivalled: bool, requeues: nat)
    requires ScanOk(scan) && scan.mode != Deep && Consumed(scan, requeues)
    ensures var scan' := Act(scan, w, rivalled);
      Consumed(scan', requeues + if scan.status == Running && scan'.status == Queued then 1 else 0)
  {
    if w.MarkRunning? {
      MarkRunningConsumes(scan, w, rivalled, requeues);
    } else {
      var scan' := Act(scan, w, rivalled);
      ActKeepsIdentity(scan, w, rivalled);
      OnlyMarkRunningStarts(scan, w, rivalled);
      StartedGrows(scan, scan');
    }
  }

  lemma MarkRunningConsumes(scan: Scan, w: Writer, rivalled: bool, requeues: nat)
    requires w.MarkRunning? && scan.mode != Deep && Consumed(scan, requeues)
    ensures var scan' := ActMarkRunning(scan, w.attempt, w.startedAt, w.eligible, rivalled);
      Consumed(scan', requeues) && (scan'.status == Queued ==> scan.status == Queued)
  {
    var scan' := ActMarkRunning(scan, w.attempt, w.startedAt, w.eligible, rivalled);
    if scan' != scan {
      StartedSet(scan.attempts, w.attempt - 1, scan'.attempts[w.attempt - 1]);
    }
  }

  /** Requeueing needs a running scan with fewer than five attempts. */
  lemma RequeueNeedsRoom(s: State, step: Step, id: nat)
    requires Inv(s) && RequeuedBy(s, step, id)
    ensures s.scans[id].mode != Deep && |s.scans[id].attempts| < MAX_STALE_RECOVERY
  {
  }

  lemma StepConsumes(s: State, step: Step, id: nat, requeues: nat)
    requires Inv(s) && id in s.scans && id in Apply(s, step).scans && Consumed(s.scans[id], requeues)
    ensures Consumed(Apply(s, step).scans[id], requeues + if RequeuedBy(s, step, id) then 1 else 0)
  {
    if RequeuedBy(s, step, id) {
      RequeueNeedsRoom(s, step, id);
    }
    if step.Write? && step.id == id {
      WriteConsumes(s, id, step.writer, requeues);
    } else {
      UnwrittenScan(s, step, id);
    }
  }

  lemma WriteConsumes(s: State, id: nat, w: Writer, requeues: nat)
    requires Inv(s) && id in s.scans && Consumed(s.scans[id], requeues)
    requires RequeuedBy(s, Write(id, w), id) ==> s.scans[id].mode != Deep
    ensures Consumed(
      Apply(s, Write(id, w)).scans[id], requeues + if RequeuedBy(s, Write(id, w), id) then 1 else 0)
  {
    var rivalled := Rivalled(s, id, s.scans[id].site);
    ActKeepsIdentity(s.scans[id], w, rivalled);
    if s.scans[id].mode != Deep {
      ActConsumes(s.scans[id], w, rivalled, requeues);
    }
  }

  /** A step that does not write the scan leaves it alone, but for the leases of a Deep one. */
  lemma UnwrittenScan(s: State, step: Step, id: nat)
    requires Inv(s) && id in s.scans && id in Apply(s, step).scans && !(step.Write? && step.id == id)
    ensures Apply(s, step).scans[id].mode == s.scans[id].mode && Apply(s, step).scans[id].status == s.scans[id].status
    ensures s.scans[id].mode != Deep ==> Apply(s, step).scans[id] == s.scans[id]
  {
  }

  lemma {:induction false} RequeuesConsumeAttempts(steps: seq<Step>, id: nat)
    ensures Requeues(steps, id) <= MAX_STALE_RECOVERY - 1
    ensures id !in Run(INIT, steps).used ==> Requeues(steps, id) == 0
    ensures id in Run(INIT, steps).scans ==> Consumed(Run(INIT, steps).scans[id], Requeues(steps, id))
    decreases |steps|
  {
    if steps != [] {
      var before, step := steps[..|steps| - 1], steps[|steps| - 1];
      RequeuesConsumeAttempts(before, id);
      RunKeepsInv(INIT, before);
      var s := Run(INIT, before);
      if id in s.scans && id in Apply(s, step).scans {
        StepConsumes(s, step, id, Requeues(before, id));
        StartedGrows(s.scans[id], s.scans[id]);
        if RequeuedBy(s, step, id) {
          RequeueNeedsRoom(s, step, id);
        }
      }
    }
  }

  /** In any run the sweep requeues a scan at most four times, and a Deep scan never. */
  lemma RequeuedAtMostFourTimes(steps: seq<Step>, id: nat)
    ensures Requeues(steps, id) <= 4
    ensures id in Run(INIT, steps).scans && Run(INIT, steps).scans[id].mode == Deep ==> Requeues(steps, id) == 0
  {
    RequeuesConsumeAttempts(steps, id);
  }
}
