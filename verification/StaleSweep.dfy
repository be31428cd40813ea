/** The stale sweep: it pages through the scans that have been running for too long, asks the
    queue for each job and repairs the scan, while other processes take any steps in between. */
module StaleSweep {
  import opened Common
  import opened ScanLifecycle
  import opened ScanStore

  datatype Outcome = Recovered | CountedFailed | CountedUninspected | Untouched

  datatype Recovery = Recovery(checked: nat, recovered: nat, failed: nat, inspectionFailed: nat)

  function Tally(outcomes: seq<Outcome>): Recovery {
    Recovery(|outcomes|, Times(outcomes, Recovered), Times(outcomes, CountedFailed), Times(outcomes, CountedUninspected))
  }

  /** One more scan inspected. */
  function Counted(r: Recovery, outcome: Outcome): Recovery {
    var next := r.(checked := r.checked + 1);
    match outcome
    case Recovered => next.(recovered := r.recovered + 1)
    case CountedFailed => next.(failed := r.failed + 1)
    case CountedUninspected => next.(inspectionFailed := r.inspectionFailed + 1)
    case Untouched => next
  }

  predicate StaleRunning(s: State, id: nat, staleBefore: int) {
    && id in s.scans && s.scans[id].status == Running
    && s.scans[id].startedAt.Some? && s.scans[id].startedAt.value <= staleBefore
  }

  /** Every scan that could be stale has one fixed start time. */
  ghost predicate StartsKnown(s: State, staleBefore: int, starts: map<nat, int>) {
    forall id :: id in s.scans && s.scans[id].startedAt.Some? && s.scans[id].startedAt.value <= staleBefore ==>
      id in starts && starts[id] == s.scans[id].startedAt.value
  }

  /** A scan that starts during the sweep gets a start time that is not stale, or the one it had. */
  ghost predicate StartsTimely(steps: seq<Step>, staleBefore: int, starts: map<nat, int>) {
    forall i :: 0 <= i < |steps| && steps[i].Write? ==>
      && (steps[i].writer.PrepareDeep? ==> steps[i].writer.clock > staleBefore)
      && (steps[i].writer.MarkRunning? && steps[i].writer.startedAt <= staleBefore ==>
           steps[i].id in starts && starts[steps[i].id] == steps[i].writer.startedAt)
  }

  lemma {:induction false} StartsStayKnown(s: State, steps: seq<Step>, staleBefore: int, starts: map<nat, int>)
    requires StartsKnown(s, staleBefore, starts) && StartsTimely(steps, staleBefore, starts)
    ensures StartsKnown(Run(s, steps), staleBefore, starts)
    decreases |steps|
  {
    if steps != [] {
      var n := |steps| - 1;
      StartsStayKnown(s, steps[..n], staleBefore, starts);
      if steps[n].Write? {
        WriteKeepsStarts(Run(s, steps[..n]), steps[n].id, steps[n].writer, staleBefore, starts);
      }
    }
  }

  lemma ActStart(scan: Scan, w: Writer, rivalled: bool)
    ensures var scan' := Act(scan, w, rivalled);
      || scan'.startedAt == scan.startedAt || scan'.startedAt == None
      || (w.MarkRunning? && scan'.startedAt == Some(w.startedAt))
      || (w.PrepareDeep? && scan'.startedAt == Some(w.clock))
  {
  }

  lemma WriteKeepsStarts(s: State, id: nat, w: Writer, staleBefore: int, starts: map<nat, int>)
    requires StartsKnown(s, staleBefore, starts) && StartsTimely([Write(id, w)], staleBefore, starts)
    ensures StartsKnown(Apply(s, Write(id, w)), staleBefore, starts)
  {
    assert [Write(id, w)][0] == Write(id, w);
    if id in s.scans {
      ActStart(s.scans[id], w, Rivalled(s, id, s.scans[id].site));
    }
  }

  /** At some moment of the log since `from`, the scan was not a stale running one. */
  ghost predicate Escaped(log: seq<Step>, from: nat, id: nat, staleBefore: int) {
    exists i :: from <= i <= |log| && !StaleRunning(Run(INIT, log[..i]), id, staleBefore)
  }

  lemma EscapedStays(log: seq<Step>, log': seq<Step>, from: nat, id: nat, staleBefore: int)
    requires Escaped(log, from, id, staleBefore) && log <= log'
    ensures Escaped(log', from, id, staleBefore)
  {
    var i :| from <= i <= |log| && !StaleRunning(Run(INIT, log[..i]), id, staleBefore);
    assert log'[..i] == log[..i];
  }

  /** What the queue says about a job, and the database clock when the scan is looked at. */
  datatype Answer = Answer(inspection: Inspection, clock: int)

  function AnswerOf(jobs: map<nat, Answer>, id: nat): Answer {
    if id in jobs then jobs[id] else Answer(Seen(Missing), 0)
  }

  /** What the sweep counts for one listed scan. */
  function OutcomeOf(s: State, id: nat, inspection: Inspection, clock: int): Outcome {
    if inspection == Throws then CountedUninspected
    else if id !in s.scans then Untouched
    else
      var scan := s.scans[id];
      if scan.mode == Deep then
        if scan.status != Running || LeaseLive(scan, |scan.attempts|, clock) || inspection.state == Waiting then Untouched
        else if inspection.state == Unknown then CountedUninspected
        else CountedFailed
      else match inspection.state
        case FailedJob => if scan.status == Running then CountedFailed else Untouched
        case CompletedJob => if scan.status == Running then CountedFailed else Untouched
        case Missing =>
          if |scan.attempts| >= MAX_STALE_RECOVERY then CountedFailed
          else if scan.status == Running then Recovered else Untouched
        case _ => Untouched
  }

  /** The scan went from running to `status`. */
  predicate Turned(s: State, s': State, id: nat, status: Status) {
    id in s.scans && s.scans[id].status == Running && id in s'.scans && s'.scans[id].status == status
  }

  /** The job is missing and the attempts are used up, but the scan has meanwhile stopped running. */
  predicate Miscounted(s: State, id: nat, inspection: Inspection) {
    && id in s.scans && s.scans[id].mode != Deep && inspection == Seen(Missing)
    && |s.scans[id].attempts| >= MAX_STALE_RECOVERY && s.scans[id].status != Running
  }

  /** A scan is counted as recovered exactly if it went back to the queue, and as failed exactly if it
      became failed or is miscounted; in every other case, and when miscounted, nothing changes. */
  predicate CountFits(s: State, s': State, id: nat, inspection: Inspection, outcome: Outcome) {
    && (outcome == Recovered <==> Turned(s, s', id, Queued))
    && (Turned(s, s', id, Failed) ==> outcome == CountedFailed)
    && (outcome == CountedFailed && !Turned(s, s', id, Failed) <==> Miscounted(s, id, inspection))
    && (outcome == CountedUninspected || outcome == Untouched || Miscounted(s, id, inspection) ==> s' == s)
  }

  lemma CountsWhatHappens(s: State, id: nat, inspection: Inspection, now: int, clock: int)
    ensures CountFits(s, Apply(s, Write(id, Sweep(inspection, now, clock))), id, inspection, OutcomeOf(s, id, inspection, clock))
  {
    assert id in s.scans ==> s.scans[id := s.scans[id]] == s.scans;
  }

  /** Scan 0 has been given n attempts and nothing else. */
  ghost predicate Tried(s: State, n: nat) {
    0 in s.scans && s.scans[0] == NewScan(0, Monitoring, Manual, 0).(attempts := s.scans[0].attempts)
      && |s.scans[0].attempts| == n && forall i :: 0 <= i < n ==> !s.scans[0].attempts[i].started
  }

  lemma {:induction false} TriedOften(n: nat) returns (steps: seq<Step>)
    ensures Tried(Run(INIT, steps), n)
  {
    if n == 0 {
      steps := [Create(0, 0, Monitoring, Manual, 0)];
      assert steps[..0] == [];
    } else {
      var before := TriedOften(n - 1);
      RunStep(INIT, before, Write(0, BeginAttempt));
      steps := before + [Write(0, BeginAttempt)];
    }
  }

  lemma StartAndComplete(s: State, n: nat)
    requires Tried(s, n) && n > 0
    ensures StaleRunning(Apply(s, Write(0, MarkRunning(n, 0, true))), 0, 0)
    ensures var s' := Apply(Apply(s, Write(0, MarkRunning(n, 0, true))), Write(0, Complete([])));
      0 in s'.scans && s'.scans[0].status == Completed && s'.scans[0].mode == Monitoring && |s'.scans[0].attempts| == n
  {
  }

  /** A scan that was stale and running when it was listed, and is miscounted when its turn comes. */
  lemma MiscountHappens() returns (steps: seq<Step>, listed: nat)
    ensures listed <= |steps| && StaleRunning(Run(INIT, steps[..listed]), 0, 0)
    ensures var s := Run(INIT, steps);
      && Miscounted(s, 0, Seen(Missing)) && s.scans[0].status == Completed
      && OutcomeOf(s, 0, Seen(Missing), 0) == CountedFailed
  {
    var before := TriedOften(MAX_STALE_RECOVERY);
    StartAndComplete(Run(INIT, before), MAX_STALE_RECOVERY);
    var running := before + [Write(0, MarkRunning(MAX_STALE_RECOVERY, 0, true))];
    RunStep(INIT, before, Write(0, MarkRunning(MAX_STALE_RECOVERY, 0, true)));
    RunStep(INIT, running, Write(0, Complete([])));
    steps, listed := running + [Write(0, Complete([]))], |running|;
    assert steps[..listed] == running;
  }

  /** Fails a Deep scan whose lease has run out, unless its job is waiting or unknown. */
  method ReconcileStaleDeepScan(store: Store, id: nat, state: JobState, clock: int) returns (outcome: Outcome)
    requires id in store.scans && store.scans[id].mode == Deep
    modifies store`scans
    ensures store.scans == old(store.scans)[id := ActSweep(old(store.scans)[id], Seen(state), 0, clock)]
    ensures outcome == OutcomeOf(State(old(store.scans), {}), id, Seen(state), clock)
  {
    outcome := Untouched;
    var scan := store.scans[id];
    if scan.status == Running && !LeaseLive(scan, |scan.attempts|, clock) {
      if state == Unknown {
        outcome := CountedUninspected;
      } else if state != Waiting {
        store.scans := store.scans[id := FailLatest(scan).(status := Failed)];
        outcome := CountedFailed;
      }
    }
  }

  /** Fails a running scan whose job has ended. */
  method ReconcileStaleTerminalScan(store: Store, id: nat) returns (outcome: Outcome)
    requires id in store.scans
    modifies store`scans
    ensures store.scans == old(store.scans)[id :=
      if old(store.scans)[id].status == Running then FailDispatch(FailLatest(old(store.scans)[id]).(status := Failed))
      else old(store.scans)[id]]
    ensures outcome == if old(store.scans)[id].status == Running then CountedFailed else Untouched
  {
    outcome := Untouched;
    if store.scans[id].status == Running {
      store.scans := store.scans[id := FailDispatch(FailLatest(store.scans[id]).(status := Failed))];
      outcome := CountedFailed;
    }
  }

  /** Puts a running scan without a job back into the queue, or fails it once its attempts are used up. */
  method RecoverMissing(store: Store, id: nat, now: int) returns (outcome: Outcome)
    requires id in store.scans && store.scans[id].mode != Deep
    modifies store`scans
    ensures store.scans == old(store.scans)[id := ActSweep(old(store.scans)[id], Seen(Missing), now, 0)]
    ensures outcome == OutcomeOf(State(old(store.scans), {}), id, Seen(Missing), 0)
  {
    outcome := Untouched;
    var scan := store.scans[id];
    if |scan.attempts| >= MAX_STALE_RECOVERY {
      if scan.status == Running {
        store.scans := store.scans[id := FailDispatch(scan.(status := Failed))];
      }
      outcome := CountedFailed;
    } else if scan.status == Running {
      store.scans := store.scans[id := Requeue(scan, now)];
      outcome := Recovered;
    }
  }

  /** Repairs one listed scan. */
  method SweepOne(store: Store, id: nat, mode: Mode, inspection: Inspection, now: int, clock: int) returns (outcome: Outcome)
    requires store.Valid() && (id in store.scans ==> store.scans[id].mode == mode)
    modifies store`scans, store`log
    ensures store.Valid() && store.log == old(store.log) + [Write(id, Sweep(inspection, now, clock))]
    ensures store.View() == Apply(old(store.View()), Write(id, Sweep(inspection, now, clock)))
    ensures outcome == OutcomeOf(old(store.View()), id, inspection, clock)
    ensures CountFits(old(store.View()), store.View(), id, inspection, outcome)
  {
    outcome := Repair(store, id, mode, inspection, now, clock);
    CountsWhatHappens(old(store.View()), id, inspection, now, clock);
    store.Took(Write(id, Sweep(inspection, now, clock)));
  }

  method Repair(store: Store, id: nat, mode: Mode, inspection: Inspection, now: int, clock: int) returns (outcome: Outcome)
    requires id in store.scans ==> store.scans[id].mode == mode
    modifies store`scans
    ensures store.View() == Apply(old(store.View()), Write(id, Sweep(inspection, now, clock)))
    ensures outcome == OutcomeOf(old(store.View()), id, inspection, clock)
  {
    outcome := Untouched;
    if inspection == Throws {
      outcome := CountedUninspected;
    } else if id in store.scans {
      if mode == Deep {
        outcome := ReconcileStaleDeepScan(store, id, inspection.state, clock);
      } else if inspection.state == FailedJob || inspection.state == CompletedJob {
        outcome := ReconcileStaleTerminalScan(store, id);
      } else if inspection.state == Missing {
        outcome := RecoverMissing(store, id, now);
      }
    }
    assert id in old(store.scans) ==> old(store.scans)[id := old(store.scans)[id]] == old(store.scans);
  }

  function SweepStep(jobs: map<nat, Answer>, id: nat, now: int): Step {
    Write(id, Sweep(AnswerOf(jobs, id).inspection, now, AnswerOf(jobs, id).clock))
  }

  /** At step `turn` of the log the scan was swept, and counted as what it was just then. */
  ghost predicate Accounted(log: seq<Step>, jobs: map<nat, Answer>, now: int, id: nat, fate: Outcome, turn: nat) {
    && turn < |log| && log[turn] == SweepStep(jobs, id, now)
    && fate == OutcomeOf(Run(INIT, log[..turn]), id, AnswerOf(jobs, id).inspection, AnswerOf(jobs, id).clock)
  }

  /** The scans a sweep has inspected, what they were counted as, and in which steps. */
  datatype Report = Report(ids: seq<nat>, fates: seq<Outcome>, turns: seq<nat>)

  /** Each scan was inspected in a step of its own since `from`, in this order, and counted as what it was just then. */
  ghost predicate AllAccounted(log: seq<Step>, from: nat, jobs: map<nat, Answer>, now: int, report: Report) {
    && |report.fates| == |report.ids| && |report.turns| == |report.ids|
    && (forall i :: 0 <= i < |report.ids| ==>
         from <= report.turns[i] && Accounted(log, jobs, now, report.ids[i], report.fates[i], report.turns[i]))
    && forall i, j :: 0 <= i < j < |report.ids| ==> report.turns[i] < report.turns[j]
  }

  lemma AccountedStays(log: seq<Step>, log': seq<Step>, from: nat, jobs: map<nat, Answer>, now: int, report: Report)
    requires AllAccounted(log, from, jobs, now, report) && log <= log'
    ensures AllAccounted(log', from, jobs, now, report)
  {
    forall i | 0 <= i < |report.ids|
      ensures Accounted(log', jobs, now, report.ids[i], report.fates[i], report.turns[i])
    {
      assert log'[..report.turns[i]] == log[..report.turns[i]];
    }
  }

  lemma AccountedSnoc(
    before: seq<Step>, log: seq<Step>, from: nat, jobs: map<nat, Answer>, now: int, report: Report, id: nat, fate: Outcome)
    returns (report': Report)
    requires AllAccounted(before, from, jobs, now, report) && before <= log && from <= |before| < |log|
    requires Accounted(log, jobs, now, id, fate, |log| - 1)
    ensures AllAccounted(log, from, jobs, now, report')
    ensures report'.ids == report.ids + [id] && report'.fates == report.fates + [fate]
  {
    AccountedStays(before, log, from, jobs, now, report);
    report' := Report(report.ids + [id], report.fates + [fate], report.turns + [|log| - 1]);
  }

  lemma TallySnoc(outcomes: seq<Outcome>, outcome: Outcome)
    ensures Tally(outcomes + [outcome]) == Counted(Tally(outcomes), outcome)
  {
    TimesSnoc(outcomes, outcome);
  }

  /** What the counter of an inspected scan says about the step of its turn. */
  lemma AccountedMeans(log: seq<Step>, jobs: map<nat, Answer>, now: int, id: nat, fate: Outcome, turn: nat)
    requires Accounted(log, jobs, now, id, fate, turn)
    ensures CountFits(Run(INIT, log[..turn]), Run(INIT, log[..turn + 1]), id, AnswerOf(jobs, id).inspection, fate)
  {
    assert log[..turn + 1][..turn] == log[..turn];
    CountsWhatHappens(Run(INIT, log[..turn]), id, AnswerOf(jobs, id).inspection, now, AnswerOf(jobs, id).clock);
  }

  /** The scans a cursor has not passed yet. */
  function Ahead(starts: map<nat, int>, cursor: Option<(int, nat)>): set<nat> {
    set id | id in starts && (cursor.None? || Earlier(cursor.value, (starts[id], id)))
  }

  function StaleIds(scans: map<nat, Scan>, staleBefore: int, cursor: Option<(int, nat)>): set<nat> {
    set id | id in scans && scans[id].status == Running && scans[id].startedAt.Some?
      && scans[id].startedAt.value <= staleBefore
      && (cursor.None? || Earlier(cursor.value, (scans[id].startedAt.value, id)))
  }

  function StartTimes(scans: map<nat, Scan>): map<nat, int> {
    map id | id in scans && scans[id].startedAt.Some? :: scans[id].startedAt.value
  }

  ghost predicate AllTimely(env: seq<seq<Step>>, staleBefore: int, starts: map<nat, int>) {
    forall k: nat :: StartsTimely(Turn(env, k), staleBefore, starts)
  }

  /** The listed rows with the modes they were listed with. */
  ghost predicate ModesHold(s: State, rows: seq<nat>, modes: seq<Mode>) {
    && |modes| == |rows|
    && forall i :: 0 <= i < |rows| ==> rows[i] in s.used && (rows[i] in s.scans ==> s.scans[rows[i]].mode == modes[i])
  }

  lemma {:induction false} ModesKept(s: State, steps: seq<Step>, rows: seq<nat>, modes: seq<Mode>)
    requires Inv(s) && ModesHold(s, rows, modes)
    ensures ModesHold(Run(s, steps), rows, modes)
  {
    UsedGrows(s, steps);
    forall i | 0 <= i < |rows| && rows[i] in Run(s, steps).scans
      ensures Run(s, steps).scans[rows[i]].mode == modes[i]
    {
      OnceUsedStays(s, steps, rows[i]);
      IdentityKept(s, steps, rows[i]);
    }
  }

  lemma {:induction false} OnceUsedStays(s: State, steps: seq<Step>, id: nat)
    requires Inv(s) && id in s.used && id in Run(s, steps).scans
    ensures id in s.scans
    decreases |steps|
  {
    if steps != [] {
      UsedGrows(s, steps[..|steps| - 1]);
      OnceUsedStays(s, steps[..|steps| - 1], id);
    }
  }

  /** Inspects and repairs the rows of one page, while others take their turns. */
  method SweepPage(
    store: Store, rows: seq<nat>, modes: seq<Mode>, jobs: map<nat, Answer>, now: int, env: seq<seq<Step>>, turn: nat,
    tally: Recovery, ghost from: nat, ghost report: Report, ghost staleBefore: int, ghost starts: map<nat, int>)
    returns (tally': Recovery, ghost report': Report)
    requires store.Valid() && StartsKnown(store.View(), staleBefore, starts) && AllTimely(env, staleBefore, starts)
    requires ModesHold(store.View(), rows, modes) && tally == Tally(report.fates) && from <= |store.log|
    requires AllAccounted(store.log, from, jobs, now, report)
    modifies store
    ensures store.Valid() && old(store.log) <= store.log && StartsKnown(store.View(), staleBefore, starts)
    ensures tally' == Tally(report'.fates) && AllAccounted(store.log, from, jobs, now, report')
    ensures report'.ids == report.ids + rows
  {
    tally', report' := tally, report;
    assert report.ids + rows[..0] == report.ids && rows[..|rows|] == rows;
    for i := 0 to |rows|
      invariant store.Valid() && old(store.log) <= store.log && StartsKnown(store.View(), staleBefore, starts)
      invariant ModesHold(store.View(), rows, modes)
      invariant tally' == Tally(report'.fates) && AllAccounted(store.log, from, jobs, now, report')
      invariant report'.ids == report.ids + rows[..i]
    {
      NextPrefix(report.ids, rows, i);
      tally', report' := SweepTurn(
        store, rows, modes, i, jobs, now, Turn(env, turn + i), tally', from, report', staleBefore, starts);
    }
  }

  method SweepTurn(
    store: Store, rows: seq<nat>, modes: seq<Mode>, i: nat, jobs: map<nat, Answer>, now: int, env: seq<Step>,
    tally: Recovery, ghost from: nat, ghost report: Report, ghost staleBefore: int, ghost starts: map<nat, int>)
    returns (tally': Recovery, ghost report': Report)
    requires store.Valid() && StartsKnown(store.View(), staleBefore, starts) && StartsTimely(env, staleBefore, starts)
    requires ModesHold(store.View(), rows, modes) && i < |rows| && tally == Tally(report.fates) && from <= |store.log|
    requires AllAccounted(store.log, from, jobs, now, report)
    modifies store
    ensures store.Valid() && old(store.log) <= store.log && StartsKnown(store.View(), staleBefore, starts)
    ensures ModesHold(store.View(), rows, modes)
    ensures tally' == Tally(report'.fates) && AllAccounted(store.log, from, jobs, now, report')
    ensures report'.ids == report.ids + [rows[i]]
  {
    var outcome := Inspect(store, rows, modes, i, jobs, now, env, staleBefore, starts);
    report' := AccountedSnoc(old(store.log), store.log, from, jobs, now, report, rows[i], outcome);
    TallySnoc(report.fates, outcome);
    tally' := Counted(tally, outcome);
  }

  method Inspect(
    store: Store, rows: seq<nat>, modes: seq<Mode>, i: nat, jobs: map<nat, Answer>, now: int, env: seq<Step>,
    ghost staleBefore: int, ghost starts: map<nat, int>)
    returns (outcome: Outcome)
    requires store.Valid() && StartsKnown(store.View(), staleBefore, starts) && StartsTimely(env, staleBefore, starts)
    requires ModesHold(store.View(), rows, modes) && i < |rows|
    modifies store
    ensures store.Valid() && old(store.log) <= store.log && StartsKnown(store.View(), staleBefore, starts)
    ensures ModesHold(store.View(), rows, modes) && |store.log| > |old(store.log)|
    ensures Accounted(store.log, jobs, now, rows[i], outcome, |store.log| - 1)
  {
    RunKeepsInv(INIT, store.log);
    ModesKept(store.View(), env, rows, modes);
    StartsStayKnown(store.View(), env, staleBefore, starts);
    RunKeepsInv(store.View(), env);
    store.Others(env);
    var answer := AnswerOf(jobs, rows[i]);
    var step := SweepStep(jobs, rows[i], now);
    assert [step][..0] == [] && Run(store.View(), [step]) == Apply(store.View(), step);
    ModesKept(store.View(), [step], rows, modes);
    WriteKeepsStarts(store.View(), rows[i], step.writer, staleBefore, starts);
    ghost var before := store.log;
    outcome := SweepOne(store, rows[i], modes[i], answer.inspection, now, answer.clock);
    assert store.log[..|store.log| - 1] == before;
  }

  /** In the order of start times, each once, all behind the cursor. */
  ghost predicate Ordered(starts: map<nat, int>, ids: seq<nat>) {
    && (forall i :: 0 <= i < |ids| ==> ids[i] in starts)
    && forall i, j :: 0 <= i < j < |ids| ==> Earlier((starts[ids[i]], ids[i]), (starts[ids[j]], ids[j]))
  }

  ghost predicate Behind(starts: map<nat, int>, ids: seq<nat>, cursor: Option<(int, nat)>) {
    forall i :: 0 <= i < |ids| ==> ids[i] !in Ahead(starts, cursor)
  }

  /** Every scan that was stale and running at the start has been inspected, is still ahead of the
      cursor, or has stopped being stale and running in between. */
  ghost predicate Covered(
    s0: State, log: seq<Step>, from: nat, staleBefore: int, starts: map<nat, int>, ids: seq<nat>, ahead: set<nat>)
  {
    forall id :: StaleRunning(s0, id, staleBefore) ==> id in ids || id in ahead || Escaped(log, from, id, staleBefore)
  }

  lemma CoveredStays(
    s0: State, log: seq<Step>, log': seq<Step>, from: nat, staleBefore: int, starts: map<nat, int>, ids: seq<nat>, ahead: set<nat>)
    requires Covered(s0, log, from, staleBefore, starts, ids, ahead) && log <= log'
    ensures Covered(s0, log', from, staleBefore, starts, ids, ahead)
  {
    forall id | StaleRunning(s0, id, staleBefore) && id !in ids && id !in ahead
      ensures Escaped(log', from, id, staleBefore)
    {
      EscapedStays(log, log', from, id, staleBefore);
    }
  }

  /** `rows` is the page after `cursor`, and `cursor'` its last row. */
  ghost predicate PageOf(
    s: State, staleBefore: int, starts: map<nat, int>, cursor: Option<(int, nat)>, limit: nat, rows: seq<nat>,
    cursor': Option<(int, nat)>)
  {
    && StartsKnown(s, staleBefore, starts)
    && StaleIds(s.scans, staleBefore, cursor) <= StartTimes(s.scans).Keys
    && FirstOf(StaleIds(s.scans, staleBefore, cursor), StartTimes(s.scans), limit, rows)
    && (if rows == [] then cursor' == cursor
        else
          var last := rows[|rows| - 1];
          last in starts && cursor' == Some((starts[last], last)))
  }

  lemma PageRows(
    s: State, staleBefore: int, starts: map<nat, int>, cursor: Option<(int, nat)>, limit: nat, rows: seq<nat>,
    cursor': Option<(int, nat)>, i: nat)
    requires PageOf(s, staleBefore, starts, cursor, limit, rows, cursor') && i < |rows|
    ensures rows[i] in Ahead(starts, cursor) && rows[i] in s.scans && s.scans[rows[i]].startedAt == Some(starts[rows[i]])
  {
    assert rows[i] in rows;
  }

  /** A page is in order, comes after what was inspected before, and moves the cursor forward. */
  lemma PageInOrder(
    s: State, staleBefore: int, starts: map<nat, int>, ids: seq<nat>, cursor: Option<(int, nat)>, limit: nat, rows: seq<nat>,
    cursor': Option<(int, nat)>)
    requires PageOf(s, staleBefore, starts, cursor, limit, rows, cursor')
    requires Ordered(starts, ids) && Behind(starts, ids, cursor)
    ensures Ordered(starts, ids + rows) && Behind(starts, ids + rows, cursor')
    ensures rows != [] ==> Ahead(starts, cursor') < Ahead(starts, cursor)
  {
    forall i | 0 <= i < |rows|
      ensures rows[i] in Ahead(starts, cursor) && rows[i] in s.scans && s.scans[rows[i]].startedAt == Some(starts[rows[i]])
    {
      PageRows(s, staleBefore, starts, cursor, limit, rows, cursor', i);
    }
    if rows != [] {
      assert rows[|rows| - 1] in Ahead(starts, cursor) - Ahead(starts, cursor');
    }
  }

  /** The rows of a page are inspected next, and only a full page leaves rows ahead. */
  lemma PageCovers(
    s0: State, log: seq<Step>, from: nat, staleBefore: int, starts: map<nat, int>, ids: seq<nat>,
    cursor: Option<(int, nat)>, limit: nat, rows: seq<nat>, cursor': Option<(int, nat)>)
    requires limit > 0 && from <= |log| && PageOf(Run(INIT, log), staleBefore, starts, cursor, limit, rows, cursor')
    requires Covered(s0, log, from, staleBefore, starts, ids, Ahead(starts, cursor))
    ensures Covered(s0, log, from, staleBefore, starts, ids + rows, if |rows| < limit then {} else Ahead(starts, cursor'))
  {
    var s := Run(INIT, log);
    assert log[..|log|] == log;
    forall id | StaleRunning(s0, id, staleBefore) && id !in ids + rows && !(|rows| == limit && id in Ahead(starts, cursor'))
      ensures Escaped(log, from, id, staleBefore)
    {
      if id in Ahead(starts, cursor) {
        NotListed(s, staleBefore, starts, cursor, limit, rows, cursor', id);
      }
    }
  }

  /** A scan ahead of the cursor that a page neither lists nor leaves ahead is not a stale running one. */
  lemma NotListed(
    s: State, staleBefore: int, starts: map<nat, int>, cursor: Option<(int, nat)>, limit: nat, rows: seq<nat>,
    cursor': Option<(int, nat)>, id: nat)
    requires limit > 0 && PageOf(s, staleBefore, starts, cursor, limit, rows, cursor')
    requires id in Ahead(starts, cursor) && id !in rows && !(|rows| == limit && id in Ahead(starts, cursor'))
    ensures !StaleRunning(s, id, staleBefore)
  {
    if |rows| == limit {
      PageRows(s, staleBefore, starts, cursor, limit, rows, cursor', |rows| - 1);
      assert rows[|rows| - 1] in rows;
    }
  }

  method ListPage(store: Store, staleBefore: int, cursor: Option<(int, nat)>, batchSize: nat, ghost starts: map<nat, int>)
    returns (rows: seq<nat>, modes: seq<Mode>, cursor': Option<(int, nat)>)
    requires store.Valid() && StartsKnown(store.View(), staleBefore, starts)
    ensures PageOf(store.View(), staleBefore, starts, cursor, batchSize, rows, cursor') && |rows| <= batchSize
    ensures ModesHold(store.View(), rows, modes)
  {
    var s := store.View();
    RunKeepsInv(INIT, store.log);
    rows := First(StaleIds(s.scans, staleBefore, cursor), StartTimes(s.scans), batchSize);
    cursor' := cursor;
    if rows != [] {
      var last := rows[|rows| - 1];
      assert last in rows;
      cursor' := Some((s.scans[last].startedAt.value, last));
    }
    assert forall i :: 0 <= i < |rows| ==> rows[i] in rows;
    modes := seq(|rows|, i requires 0 <= i < |rows| => s.scans[rows[i]].mode);
  }

  /** Lists the next page, after others took their turn, and repairs its rows. */
  method NextPage(
    store: Store, now: int, staleBefore: int, cursor: Option<(int, nat)>, batchSize: nat, jobs: map<nat, Answer>,
    env: seq<seq<Step>>, turn: nat, ghost s0: State, ghost from: nat, ghost starts: map<nat, int>,
    tally: Recovery, ghost report: Report)
    returns (rows: seq<nat>, cursor': Option<(int, nat)>, tally': Recovery, ghost report': Report)
    requires store.Valid() && from <= |store.log| && batchSize > 0
    requires StartsKnown(store.View(), staleBefore, starts) && AllTimely(env, staleBefore, starts)
    requires Covered(s0, store.log, from, staleBefore, starts, report.ids, Ahead(starts, cursor))
    requires Ordered(starts, report.ids) && Behind(starts, report.ids, cursor)
    requires tally == Tally(report.fates) && AllAccounted(store.log, from, jobs, now, report)
    modifies store
    ensures store.Valid() && old(store.log) <= store.log && StartsKnown(store.View(), staleBefore, starts)
    ensures |rows| <= batchSize && (rows != [] ==> Ahead(starts, cursor') < Ahead(starts, cursor))
    ensures report'.ids == report.ids + rows
    ensures Covered(s0, store.log, from, staleBefore, starts, report'.ids, if |rows| < batchSize then {} else Ahead(starts, cursor'))
    ensures Ordered(starts, report'.ids) && Behind(starts, report'.ids, cursor')
    ensures tally' == Tally(report'.fates) && AllAccounted(store.log, from, jobs, now, report')
  {
    StartsStayKnown(store.View(), Turn(env, turn), staleBefore, starts);
    store.Others(Turn(env, turn));
    CoveredStays(s0, old(store.log), store.log, from, staleBefore, starts, report.ids, Ahead(starts, cursor));
    AccountedStays(old(store.log), store.log, from, jobs, now, report);
    var modes;
    rows, modes, cursor' := ListPage(store, staleBefore, cursor, batchSize, starts);
    PageInOrder(store.View(), staleBefore, starts, report.ids, cursor, batchSize, rows, cursor');
    PageCovers(s0, store.log, from, staleBefore, starts, report.ids, cursor, batchSize, rows, cursor');
    ghost var before := store.log;
    tally', report' := SweepPage(
      store, rows, modes, jobs, now, env, turn + 1, tally, from, report, staleBefore, starts);
    CoveredStays(s0, before, store.log, from, staleBefore, starts, report.ids + rows,
      if |rows| < batchSize then {} else Ahead(starts, cursor'));
  }

  /** The sweep terminates, inspects no scan twice, and inspects every scan that was stale and
      running when it began, unless at some moment before its turn it no longer was. The counters tally
      what each inspected scan was counted as in the step of its turn. */
  method RecoverOrphanedRunningScans(
    store: Store, now: int, staleAfterMs: int, batchSize: int, jobs: map<nat, Answer>, env: seq<seq<Step>>,
    ghost starts: map<nat, int>)
    returns (r: Option<Recovery>, ghost report: Report)
    requires store.Valid() && StartsKnown(store.View(), now - staleAfterMs, starts)
    requires AllTimely(env, now - staleAfterMs, starts)
    modifies store
    ensures store.Valid() && old(store.log) <= store.log
    ensures r.None? <==> batchSize < 1
    ensures r.None? ==> store.log == old(store.log)
    ensures r.Some? ==> r.value == Tally(report.fates)
    ensures AllAccounted(store.log, |old(store.log)|, jobs, now, report)
    ensures forall i, j :: 0 <= i < j < |report.ids| ==> report.ids[i] != report.ids[j]
    ensures r.Some? ==> forall id :: StaleRunning(old(store.View()), id, now - staleAfterMs) ==>
      id in report.ids || Escaped(store.log, |old(store.log)|, id, now - staleAfterMs)
  {
    report := Report([], [], []);
    if batchSize < 1 {
      return None, report;
    }
    var staleBefore := now - staleAfterMs;
    ghost var s0, from := store.View(), |store.log|;
    var tally, cursor, done := Tally([]), None, false;
    var turn: nat := 0;
    while !done
      invariant store.Valid() && old(store.log) <= store.log && StartsKnown(store.View(), staleBefore, starts)
      invariant Ordered(starts, report.ids) && Behind(starts, report.ids, cursor)
      invariant Covered(s0, store.log, from, staleBefore, starts, report.ids, if done then {} else Ahead(starts, cursor))
      invariant tally == Tally(report.fates) && AllAccounted(store.log, from, jobs, now, report)
      decreases if done then {} else Ahead(starts, cursor), !done
    {
      var rows, cursor';
      rows, cursor', tally, report := NextPage(
        store, now, staleBefore, cursor, batchSize, jobs, env, turn, s0, from, starts, tally, report);
      turn := turn + |rows| + 1;
      cursor := cursor';
      done := |rows| < batchSize;
    }
    r := Some(tally);
  }
}
