/** The dispatch outbox follows the lease protocol. */
module DispatchQueue {
  import opened Common
  import opened ScanLifecycle
  import LeaseQueue

  function RowOf(d: Dispatch): LeaseQueue.Row {
    var status := match d.status
      case Pending => LeaseQueue.Pending
      case Dispatching => LeaseQueue.Held
      case Dispatched => LeaseQueue.Done
      case _ => LeaseQueue.Dropped;
    LeaseQueue.Row(status, d.attempts, d.due, d.lease)
  }

  function ClaimOp(scan: Scan, now: int, leaseMs: nat, context: Context): LeaseQueue.Op {
    if scan.status == Cancelled then LeaseQueue.Cancel(now)
    else if scan.status != Queued then LeaseQueue.Skip(now)
    else match context
      case ProofStale => LeaseQueue.PutOff(now, now + PROOF_RETRY)
      case Invalid => LeaseQueue.Cancel(now)
      case Fit => LeaseQueue.Claim(now, leaseMs)
  }

  /** What the sweep means for the dispatch of the scan. */
  function SweepOps(scan: Scan, inspection: Inspection, now: int): seq<LeaseQueue.Op> {
    if inspection == Throws || scan.status != Running || scan.mode == Deep then []
    else match inspection.state
      case FailedJob => [LeaseQueue.Abandon]
      case CompletedJob => [LeaseQueue.Abandon]
      case Missing => if |scan.attempts| >= MAX_STALE_RECOVERY then [LeaseQueue.Abandon] else [LeaseQueue.Reopen(now)]
      case _ => []
  }

  function OpsOf(scan: Scan, w: Writer): seq<LeaseQueue.Op> {
    match w
    case Claim(now, leaseMs, context) => [ClaimOp(scan, now, leaseMs, context)]
    case MarkDispatched(claim) => [LeaseQueue.Succeed(claim)]
    case MarkRetry(claim, now) => [LeaseQueue.Retry(claim, now + RetryDelay(claim))]
    case Restore(now) =>
      if scan.dispatch.Some? && scan.dispatch.value.status == Dispatched then [LeaseQueue.Reopen(now)] else []
    case Sweep(inspection, now, _) => SweepOps(scan, inspection, now)
    case _ => []
  }

  lemma DispatchWriterRefines(scan: Scan, w: Writer)
    requires scan.dispatch.Some? && IsDispatch(w)
    ensures ActDispatch(scan, w).dispatch.Some?
    ensures RowOf(ActDispatch(scan, w).dispatch.value) == LeaseQueue.DoAll(RowOf(scan.dispatch.value), OpsOf(scan, w))
  {
    if OpsOf(scan, w) != [] {
      LeaseQueue.DoOne(RowOf(scan.dispatch.value), OpsOf(scan, w)[0]);
    }
  }

  lemma SweepRefines(scan: Scan, inspection: Inspection, now: int, clock: int)
    requires scan.dispatch.Some?
    ensures var scan' := ActSweep(scan, inspection, now, clock);
      && scan'.dispatch.Some?
      && RowOf(scan'.dispatch.value) == LeaseQueue.DoAll(RowOf(scan.dispatch.value), SweepOps(scan, inspection, now))
  {
    if SweepOps(scan, inspection, now) != [] {
      LeaseQueue.DoOne(RowOf(scan.dispatch.value), SweepOps(scan, inspection, now)[0]);
    }
  }

  lemma WriterRefines(scan: Scan, w: Writer, rivalled: bool)
    requires scan.dispatch.Some?
    ensures var scan' := Act(scan, w, rivalled);
      && scan'.dispatch.Some?
      && RowOf(scan'.dispatch.value) == LeaseQueue.DoAll(RowOf(scan.dispatch.value), OpsOf(scan, w))
  {
    if IsDispatch(w) {
      DispatchWriterRefines(scan, w);
    } else if w.Sweep? {
      SweepRefines(scan, w.inspection, w.now, w.clock);
    } else {
      NoDispatchWrite(scan, w, rivalled);
    }
  }

  lemma NoDispatchWrite(scan: Scan, w: Writer, rivalled: bool)
    requires !IsDispatch(w) && !w.Sweep?
    ensures Act(scan, w, rivalled).dispatch == scan.dispatch
  {
  }

  /** What a step does to the dispatch of the scan. */
  function StepOps(s: State, step: Step, id: nat): seq<LeaseQueue.Op> {
    if step.Write? && step.id == id && id in s.scans then OpsOf(s.scans[id], step.writer) else []
  }

  /** What the steps of a run do to it, one after the other. */
  function RunOps(s: State, steps: seq<Step>, id: nat): seq<LeaseQueue.Op>
    decreases |steps|
  {
    if steps == [] then []
    else
      var init := steps[..|steps| - 1];
      RunOps(s, init, id) + StepOps(Run(s, init), steps[|steps| - 1], id)
  }

  lemma StepRefines(s: State, step: Step, id: nat)
    requires id in s.used && id in s.scans && s.scans[id].dispatch.Some? && id in Apply(s, step).scans
    ensures Apply(s, step).scans[id].dispatch.Some?
    ensures RowOf(Apply(s, step).scans[id].dispatch.value)
      == LeaseQueue.DoAll(RowOf(s.scans[id].dispatch.value), StepOps(s, step, id))
  {
    if step.Write? && step.id == id {
      WriterRefines(s.scans[id], step.writer, Rivalled(s, id, s.scans[id].site));
    }
  }

  /** Over any run a dispatch row goes through exactly the operations of the lease protocol that its
      steps stand for. */
  lemma {:induction false} RunRefines(s: State, steps: seq<Step>, id: nat)
    requires Inv(s) && id in s.scans && s.scans[id].dispatch.Some? && id in Run(s, steps).scans
    ensures Run(s, steps).scans[id].dispatch.Some?
    ensures RowOf(Run(s, steps).scans[id].dispatch.value)
      == LeaseQueue.DoAll(RowOf(s.scans[id].dispatch.value), RunOps(s, steps, id))
    decreases |steps|
  {
    if steps != [] {
      var init, step := steps[..|steps| - 1], steps[|steps| - 1];
      PresentThroughout(s, steps, id);
      RunRefines(s, init, id);
      RunKeepsInv(s, init);
      StepRefines(Run(s, init), step, id);
      LeaseQueue.DoAllConcat(RowOf(s.scans[id].dispatch.value), RunOps(s, init, id), StepOps(Run(s, init), step, id));
    }
  }

  /** The dispatch of the scan, if there is one. */
  function DispatchOf(s: State, id: nat): Option<Dispatch> {
    if id in s.scans then s.scans[id].dispatch else None
  }

  /** Only a claim makes a dispatch held. */
  lemma DispatchedByClaim(s: State, step: Step, id: nat)
    requires DispatchOf(s, id) != DispatchOf(Apply(s, step), id)
    requires DispatchOf(Apply(s, step), id).Some? && DispatchOf(Apply(s, step), id).value.status == Dispatching
    ensures step.Write? && step.id == id && step.writer.Claim?
    ensures DispatchOf(s, id).Some? && DispatchOf(Apply(s, step), id).value.attempts == DispatchOf(s, id).value.attempts + 1
  {
    if step.Write? && step.id == id && id in s.scans {
      ActByClaim(s.scans[id], step.writer, Rivalled(s, id, s.scans[id].site));
    }
  }

  lemma ActByClaim(scan: Scan, w: Writer, rivalled: bool)
    requires var d := Act(scan, w, rivalled).dispatch; d != scan.dispatch && d.Some? && d.value.status == Dispatching
    ensures w.Claim? && scan.dispatch.Some? && Act(scan, w, rivalled).dispatch.value.attempts == scan.dispatch.value.attempts + 1
  {
    if !IsDispatch(w) && !w.Sweep? {
      NoDispatchWrite(scan, w, rivalled);
    }
  }

  /** A dispatch that is being dispatched is in the hands of whoever claimed it last: step i claimed it
      with the count it has, and nothing has happened to it since. */
  lemma HolderClaimedLast(s: State, steps: seq<Step>, id: nat) returns (i: nat)
    requires DispatchOf(s, id).Some? ==> DispatchOf(s, id).value.status != Dispatching
    requires DispatchOf(Run(s, steps), id).Some? && DispatchOf(Run(s, steps), id).value.status == Dispatching
    ensures i < |steps| && steps[i].Write? && steps[i].id == id && steps[i].writer.Claim?
    ensures DispatchOf(Run(s, steps[..i]), id).Some?
    ensures DispatchOf(Run(s, steps), id).value.attempts == DispatchOf(Run(s, steps[..i]), id).value.attempts + 1
    ensures forall j :: i < j <= |steps| ==> DispatchOf(Run(s, steps[..j]), id) == DispatchOf(Run(s, steps), id)
  {
    var trace := seq(|steps| + 1, j requires 0 <= j <= |steps| => DispatchOf(Run(s, steps[..j]), id));
    assert steps[..|steps|] == steps;
    i := LastChange(trace);
    assert steps[..i + 1][..i] == steps[..i];
    assert forall j :: i < j <= |steps| ==> trace[j] == DispatchOf(Run(s, steps[..j]), id);
    DispatchedByClaim(Run(s, steps[..i]), steps[i], id);
  }
}
