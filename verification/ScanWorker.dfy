/** The worker's side of a scan that is not Deep: one attempt of its job, from the first row it
    writes to the last, while other processes take any steps in between. */
module ScanWorker {
  import opened Common
  import opened ScanLifecycle
  import opened ScanStore

  /** How the work between starting and storing ends. */
  datatype WorkResult = Found(findings: seq<Finding>) | Breaks(retryable: bool)

  datatype JobResult = Finished | WillRetry | GaveUp

  /** The attempt exists and has not started the scan yet. */
  ghost predicate Begun(s: State, id: nat, attempt: nat) {
    id in s.scans && s.scans[id].mode != Deep && HasAttempt(s.scans[id], attempt) && !s.scans[id].attempts[attempt - 1].started
  }

  predicate Startable(s: State, id: nat, eligible: bool) {
    && id in s.scans && s.scans[id].mode != Deep && eligible
    && (Active(s.scans[id]) || (s.scans[id].status == Failed && !Rivalled(s, id, s.scans[id].site)))
  }

  /** Begins the next attempt; an attempt still running is taken for interrupted. None if the scan
      is missing or Deep. */
  method BeginScanAttempt(store: Store, id: nat) returns (attempt: Option<nat>)
    requires store.Valid()
    modifies store`scans, store`log
    ensures store.Valid() && old(store.log) <= store.log
    ensures store.View() == Apply(old(store.View()), Write(id, BeginAttempt))
    ensures attempt.Some? <==> id in old(store.scans) && old(store.scans)[id].mode != Deep
    ensures attempt.Some? ==> attempt.value == |old(store.scans)[id].attempts| + 1 && Begun(store.View(), id, attempt.value)
  {
    attempt := None;
    if id in store.scans && store.scans[id].mode != Deep {
      var scan := store.scans[id];
      var attempts := scan.attempts;
      var n := |attempts|;
      if n > 0 && attempts[n - 1].status == AttemptRunning {
        attempts := attempts[n - 1 := attempts[n - 1].(status := AttemptRetrying)];
      }
      assert scan.(attempts := attempts + [Attempt(AttemptRunning, None, false)]) == ActBeginAttempt(scan);
      store.scans := store.scans[id := scan.(attempts := attempts + [Attempt(AttemptRunning, None, false)])];
      attempt := Some(n + 1);
    } else {
      assert id in store.scans ==> store.scans[id := store.scans[id]] == store.scans;
    }
    store.Took(Write(id, BeginAttempt));
  }

  /** Sets the scan running for an attempt. It fails if the scan may not run, or if another scan of
      the site is active, which the unique index forbids. */
  method MarkScanRunning(store: Store, id: nat, attempt: nat, eligible: bool, now: int) returns (ok: bool)
    requires store.Valid()
    requires id in store.scans ==> Begun(store.View(), id, attempt)
    modifies store`scans, store`log
    ensures store.Valid() && old(store.log) <= store.log
    ensures ok == Startable(old(store.View()), id, eligible)
    ensures ok ==> id in store.scans && store.scans[id].mode != Deep && store.scans[id].status == Running
    ensures ok ==> store.scans[id].startedAt.Some?
    ensures ok ==> store.View() == Apply(old(store.View()), Write(id, MarkRunning(attempt, store.scans[id].startedAt.value, eligible)))
    ensures !ok ==> store.View() == old(store.View())
  {
    ok := id in store.scans && store.scans[id].mode != Deep && eligible
      && (Active(store.scans[id]) || (store.scans[id].status == Failed && !Rivalled(store.View(), id, store.scans[id].site)));
    if ok {
      var scan := store.scans[id];
      var startedAt := if scan.startedAt.Some? then scan.startedAt.value else now;
      var attempts := scan.attempts[attempt - 1 := scan.attempts[attempt - 1].(started := true)];
      store.scans := store.scans[id := scan.(status := Running, startedAt := Some(startedAt), attempts := attempts)];
      store.Took(Write(id, MarkRunning(attempt, startedAt, eligible)));
    }
  }

  method PersistScanCompletion(store: Store, id: nat, findings: seq<Finding>) returns (ok: bool)
    requires store.Valid() && (id in store.scans ==> store.scans[id].mode != Deep)
    modifies store`scans, store`log
    ensures store.Valid() && old(store.log) <= store.log
    ensures ok == (id in old(store.scans) && old(store.scans)[id].status == Running)
    ensures ok ==> id in store.scans && store.scans[id].status == Completed && store.scans[id].findings == findings
    ensures store.View() == Apply(old(store.View()), Write(id, Complete(findings)))
  {
    ok := id in store.scans && store.scans[id].status == Running;
    if ok {
      store.scans := store.scans[id := store.scans[id].(status := Completed, findings := findings)];
    } else {
      assert id in store.scans ==> store.scans[id := store.scans[id]] == store.scans;
    }
    store.Took(Write(id, Complete(findings)));
  }

  method PersistScanFailureForJob(store: Store, id: nat)
    requires store.Valid()
    modifies store`scans, store`log
    ensures store.Valid() && old(store.log) <= store.log
    ensures store.View() == Apply(old(store.View()), Write(id, FailForJob))
    ensures id in store.scans && store.scans[id].mode != Deep ==> !Active(store.scans[id])
  {
    if id in store.scans && store.scans[id].mode != Deep && (Active(store.scans[id]) || store.scans[id].status == Failed) {
      store.scans := store.scans[id := store.scans[id].(status := Failed)];
    } else {
      assert id in store.scans ==> store.scans[id := store.scans[id]] == store.scans;
    }
    store.Took(Write(id, FailForJob));
  }

  /** Ends an attempt if it is still running. */
  method EndScanAttempt(store: Store, id: nat, attempt: nat, w: Writer)
    requires store.Valid() && (w == CompleteAttempt(attempt) || w == FailAttempt(attempt, true) || w == FailAttempt(attempt, false))
    modifies store`scans, store`log
    ensures store.Valid() && old(store.log) <= store.log
    ensures store.View() == Apply(old(store.View()), Write(id, w))
  {
    if id in store.scans && store.scans[id].mode != Deep && AttemptIs(store.scans[id], attempt, AttemptRunning) {
      var status := match w
        case CompleteAttempt(_) => AttemptCompleted
        case FailAttempt(_, terminal) => if terminal then AttemptFailed else AttemptRetrying
        case _ => AttemptRetrying;
      var scan := store.scans[id];
      store.scans := store.scans[id := scan.(attempts := scan.attempts[attempt - 1 := scan.attempts[attempt - 1].(status := status)])];
    } else {
      assert id in store.scans ==> store.scans[id := store.scans[id]] == store.scans;
    }
    store.Took(Write(id, w));
  }

  /** Nobody else makes the call that belongs to this attempt. */
  ghost predicate LeavesAttempt(steps: seq<Step>, id: nat, attempt: nat) {
    forall i :: 0 <= i < |steps| && steps[i].Write? && steps[i].id == id && steps[i].writer.MarkRunning? ==>
      steps[i].writer.attempt != attempt
  }

  lemma ActKeepsBegun(scan: Scan, w: Writer, rivalled: bool, attempt: nat)
    requires scan.mode != Deep && HasAttempt(scan, attempt) && !scan.attempts[attempt - 1].started
    requires w.MarkRunning? ==> w.attempt != attempt
    ensures var scan' := Act(scan, w, rivalled); HasAttempt(scan', attempt) && !scan'.attempts[attempt - 1].started
  {
    if !w.MarkRunning? {
      OnlyMarkRunningStarts(scan, w, rivalled);
    }
  }

  lemma {:induction false} StaysBegun(s: State, steps: seq<Step>, id: nat, attempt: nat)
    requires Inv(s) && Begun(s, id, attempt) && LeavesAttempt(steps, id, attempt)
    ensures id in Run(s, steps).scans ==> Begun(Run(s, steps), id, attempt)
    decreases |steps|
  {
    if steps != [] && id in Run(s, steps).scans {
      PresentThroughout(s, steps, id);
      StaysBegun(s, steps[..|steps| - 1], id, attempt);
      var s1, step := Run(s, steps[..|steps| - 1]), steps[|steps| - 1];
      if step.Write? && step.id == id {
        ActKeepsBegun(s1.scans[id], step.writer, Rivalled(s1, id, s1.scans[id].site), attempt);
        ActKeepsIdentity(s1.scans[id], step.writer, Rivalled(s1, id, s1.scans[id].site));
      }
    }
  }

  /** The attempt and, unless the job is to be retried, the scan have failed. */
  method FailJob(store: Store, id: nat, attempt: nat, willRetry: bool) returns (r: JobResult)
    requires store.Valid()
    modifies store`scans, store`log
    ensures store.Valid() && r == if willRetry then WillRetry else GaveUp
    ensures !willRetry && id in store.scans && store.scans[id].mode != Deep ==> !Active(store.scans[id])
  {
    EndScanAttempt(store, id, attempt, FailAttempt(attempt, !willRetry));
    if willRetry {
      return WillRetry;
    }
    PersistScanFailureForJob(store, id);
    r := GaveUp;
  }

  /** One attempt of a job. Whatever others do in between: if it finishes, the scan has its findings
      and keeps them; if it gives up, the scan is no longer active; and it is retried only after a
      passing error with retries left. */
  method ProcessScanJob(
    store: Store, id: nat, eligible: bool, work: WorkResult, retriesLeft: bool, now: int, env: seq<seq<Step>>)
    returns (r: JobResult)
    requires store.Valid() && |env| == 3
    requires id in store.scans ==> LeavesAttempt(env[0], id, |store.scans[id].attempts| + 1)
    modifies store
    ensures store.Valid()
    ensures r == Finished ==> work.Found? && Keeps(store.View(), id, work.findings)
    ensures r == WillRetry ==> work.Breaks? && work.retryable && retriesLeft
    ensures r == GaveUp && id in store.scans && store.scans[id].mode != Deep ==> !Active(store.scans[id])
  {
    var attempt, ok := StartJob(store, id, eligible, now, env[0]);
    if attempt.None? {
      PersistScanFailureForJob(store, id);
      r := GaveUp;
    } else if !ok {
      r := FailJob(store, id, attempt.value, false);
    } else {
      r := DoWork(store, id, attempt.value, work, retriesLeft, env[1], env[2]);
    }
  }

  /** Begins an attempt and, after others took their turn, sets the scan running for it. */
  method StartJob(store: Store, id: nat, eligible: bool, now: int, env: seq<Step>)
    returns (attempt: Option<nat>, ok: bool)
    requires store.Valid()
    requires id in store.scans ==> LeavesAttempt(env, id, |store.scans[id].attempts| + 1)
    modifies store
    ensures store.Valid() && (ok ==> attempt.Some?)
    ensures ok ==> id in store.scans && store.scans[id].mode != Deep && store.scans[id].status == Running
  {
    ok := false;
    attempt := BeginScanAttempt(store, id);
    if attempt.Some? {
      RunKeepsInv(INIT, store.log);
      StaysBegun(store.View(), env, id, attempt.value);
      store.Others(env);
      ok := MarkScanRunning(store, id, attempt.value, eligible, now);
    }
  }

  /** If the scan is still there, it is completed with these findings. */
  ghost predicate Keeps(s: State, id: nat, findings: seq<Finding>) {
    id in s.scans ==> s.scans[id].status == Completed && s.scans[id].findings == findings
  }

  /** The part of a job after its scan was set running. */
  method DoWork(store: Store, id: nat, attempt: nat, work: WorkResult, retriesLeft: bool, during: seq<Step>, after: seq<Step>)
    returns (r: JobResult)
    requires store.Valid() && id in store.scans && store.scans[id].mode != Deep
    modifies store
    ensures store.Valid()
    ensures r == Finished ==> work.Found? && Keeps(store.View(), id, work.findings)
    ensures r == WillRetry ==> work.Breaks? && work.retryable && retriesLeft
    ensures r == GaveUp && id in store.scans && store.scans[id].mode != Deep ==> !Active(store.scans[id])
  {
    RunKeepsInv(INIT, store.log);
    StaysShallow(store.View(), during, id);
    store.Others(during);
    if work.Breaks? {
      r := FailJob(store, id, attempt, work.retryable && retriesLeft);
      return;
    }
    var ok := PersistScanCompletion(store, id, work.findings);
    if !ok {
      r := FailJob(store, id, attempt, false);
      return;
    }
    Conclude(store, id, attempt, work.findings, after);
    r := Finished;
  }

  method Conclude(store: Store, id: nat, attempt: nat, ghost findings: seq<Finding>, after: seq<Step>)
    requires store.Valid() && id in store.scans && store.scans[id].status == Completed && store.scans[id].findings == findings
    modifies store
    ensures store.Valid() && Keeps(store.View(), id, findings)
  {
    RunKeepsInv(INIT, store.log);
    StaysCompleted(store.View(), after + [Write(id, CompleteAttempt(attempt))], id);
    RunStep(store.View(), after, Write(id, CompleteAttempt(attempt)));
    store.Others(after);
    EndScanAttempt(store, id, attempt, CompleteAttempt(attempt));
  }

  lemma StaysShallow(s: State, steps: seq<Step>, id: nat)
    requires Inv(s) && id in s.scans && s.scans[id].mode != Deep
    ensures id in Run(s, steps).scans ==> Run(s, steps).scans[id].mode != Deep
  {
    if id in Run(s, steps).scans {
      IdentityKept(s, steps, id);
    }
  }

  lemma StaysCompleted(s: State, steps: seq<Step>, id: nat)
    requires Inv(s) && id in s.scans && s.scans[id].status == Completed
    ensures id in Run(s, steps).scans ==>
      Run(s, steps).scans[id].status == Completed && Run(s, steps).scans[id].findings == s.scans[id].findings
  {
    if id in Run(s, steps).scans {
      FinalForever(s, steps, id);
    }
  }
}
