/** The code that drives the journal: the capture writer and the cleaner, each running its
    transactions while other processes take any steps in between. */
module ArtifactStore {
  import opened ArtifactJournal
  import opened Common

  datatype Reserved = Yes | No | Waiting

  /** Where a write attempt is hit by an error. */
  datatype WriteFault = NoFault | WriteFails(unlinked: bool) | FailsAfterRename

  datatype Persisted =
    | Stored
    | NotStored            // refused: nothing to write, or the scan, site or intent is gone
    | Blocked              // still waiting for another transaction's row lock
    | FailedWithIntent     // an error after the reservation; the intent stays

  datatype RemoveFault = NoRemoveFault | FinalFails | TempFails(name: nat)

  datatype CleanupResult = CleanupResult(checked: nat, removed: nat, released: nat, deferred: nat, retried: nat)

  const MAX_SCREENSHOT_BYTES := 2 * 1024 * 1024

  /** What became of one task of a cleanup batch. */
  datatype Fate = Removed | Released | Deferred | Retrying

  /** What the transaction does to the task (None deletes it). */
  function FateEdit(fate: Fate, task: Task, now: int): Option<Task> {
    match fate
    case Removed => None
    case Released => None
    case Deferred => Some(task.(nextAttemptAt := now + WRITE_GRACE))
    case Retrying => Some(Retried(task, now))
  }

  /** Which fates a task can meet, given whether a row refers to its file. */
  predicate Fitting(fate: Fate, referenced: bool, action: Action, fault: RemoveFault) {
    if referenced then fate == (if action == WriteIntent then Released else Retrying)
    else
      && fate != Released
      && (fate == Deferred ==> action == WriteIntent)
      && (fate == Retrying ==> fault != NoRemoveFault)
  }

  function Tally(fates: seq<Fate>): CleanupResult {
    CleanupResult(|fates|, Times(fates, Removed), Times(fates, Released), Times(fates, Deferred), Times(fates, Retrying))
  }

  /** One more task checked. */
  function Counted(tally: CleanupResult, fate: Fate): CleanupResult {
    var next := tally.(checked := tally.checked + 1);
    match fate
    case Removed => next.(removed := tally.removed + 1)
    case Released => next.(released := tally.released + 1)
    case Deferred => next.(deferred := tally.deferred + 1)
    case Retrying => next.(retried := tally.retried + 1)
  }

  lemma TallySnoc(fates: seq<Fate>, fate: Fate)
    ensures Tally(fates + [fate]) == Counted(Tally(fates), fate)
  {
    TimesSnoc(fates, fate);
  }

  /** `batch` is what the database answers: the due tasks nobody has locked, the oldest first, as many as fit. */
  ghost predicate DueBatch(s: State, now: int, batchSize: int, batch: seq<Key>) {
    && Distinct(batch) && (batchSize >= 0 ==> |batch| <= batchSize)
    && (forall k :: k in batch ==> k in s.tasks && s.tasks[k].nextAttemptAt <= now && !TaskLocked(s, k))
    && (forall i, j :: 0 <= i < j < |batch| ==> s.tasks[batch[i]].nextAttemptAt <= s.tasks[batch[j]].nextAttemptAt)
    && forall k :: k in s.tasks && s.tasks[k].nextAttemptAt <= now && !TaskLocked(s, k) && k !in batch ==>
         && |batch| == batchSize
         && forall b :: b in batch ==> s.tasks[b].nextAttemptAt <= s.tasks[k].nextAttemptAt
  }

  /** The task of `k` met its fate: a removed or released task is gone, a removed one has left
      no file behind, a released one leaves its row, and any other task is due again later. */
  ghost predicate Settled(s: State, s': State, k: Key, fate: Fate, fault: RemoveFault, now: int) {
    && k in s.tasks
    && Fitting(fate, k in s.rows, s.tasks[k].action, fault)
    && (k in s'.rows <==> k in s.rows)
    && (if FateEdit(fate, s.tasks[k], now) == None then k !in s'.tasks
        else k in s'.tasks && s'.tasks[k] == FateEdit(fate, s.tasks[k], now).value)
    && (fate == Removed ==> NoFiles(s', k))
    && (k in s.rows ==> k in s'.finals)
  }

  /** The open batch of `c` has settled its first |fates| tasks, and nobody else has touched any of its keys. */
  ghost predicate Halfway(
    s0: State, s: State, c: nat, now: int, batch: seq<Key>, faults: Key -> RemoveFault, fates: seq<Fate>)
  {
    && Distinct(batch) && |fates| <= |batch|
    && c in s.cleaners && s.cleaners[c] == Cleaner(now, batch, |fates|, false, s.cleaners[c].edits)
    && (forall k :: k in batch ==> k in s0.tasks && k in s.tasks && s.tasks[k] == s0.tasks[k] && (k in s.rows <==> k in s0.rows))
    && (forall k :: k in s.cleaners[c].edits ==> k in batch)
    && forall j :: 0 <= j < |fates| ==> JudgedAs(s, c, now, batch[j], faults(batch[j]), fates[j])
  }

  ghost predicate JudgedAs(s: State, c: nat, now: int, k: Key, fault: RemoveFault, fate: Fate) {
    && c in s.cleaners && k in s.tasks && k in s.cleaners[c].edits
    && s.cleaners[c].edits[k] == FateEdit(fate, s.tasks[k], now)
    && Fitting(fate, k in s.rows, s.tasks[k].action, fault)
    && (fate == Removed ==> NoFiles(s, k))
  }

  lemma JudgedUntouched(s: State, s': State, c: nat, now: int, k: Key, fault: RemoveFault, fate: Fate)
    requires JudgedAs(s, c, now, k, fault, fate) && KeyUntouched(s, s', k)
    requires c in s'.cleaners && k in s'.cleaners[c].edits && s'.cleaners[c].edits[k] == s.cleaners[c].edits[k]
    ensures JudgedAs(s', c, now, k, fault, fate)
  {
    if fate == Removed {
      forall t | t in s'.temps
        ensures t.0 != k
      {
        assert t.0 == k ==> (k, t.1) in s.temps;
      }
    }
  }

  lemma HalfwayUntouched(
    s0: State, s: State, s': State, c: nat, now: int, batch: seq<Key>, faults: Key -> RemoveFault, fates: seq<Fate>)
    requires Halfway(s0, s, c, now, batch, faults, fates)
    requires c in s'.cleaners && s'.cleaners[c] == s.cleaners[c]
    requires forall k :: k in batch ==> KeyUntouched(s, s', k)
    ensures Halfway(s0, s', c, now, batch, faults, fates)
  {
    forall j | 0 <= j < |fates|
      ensures JudgedAs(s', c, now, batch[j], faults(batch[j]), fates[j])
    {
      JudgedUntouched(s, s', c, now, batch[j], faults(batch[j]), fates[j]);
    }
  }

  lemma HalfwayNext(
    s0: State, s: State, s': State, c: nat, now: int, batch: seq<Key>, faults: Key -> RemoveFault, fates: seq<Fate>, fate: Fate)
    requires Halfway(s0, s, c, now, batch, faults, fates) && |fates| < |batch|
    requires s'.tasks == s.tasks && s'.rows == s.rows
    requires var k := batch[|fates|];
      && s'.cleaners == s.cleaners[c := Edit(s.cleaners[c], k, FateEdit(fate, s.tasks[k], now))]
      && Fitting(fate, k in s.rows, s.tasks[k].action, faults(k))
      && (fate == Removed ==> NoFiles(s', k))
      && s'.finals - {k} == s.finals - {k}
      && forall t: (Key, nat) :: t.0 != k ==> (t in s'.temps <==> t in s.temps)
    ensures Halfway(s0, s', c, now, batch, faults, fates + [fate])
  {
    var k := batch[|fates|];
    assert JudgedAs(s', c, now, k, faults(k), fate);
    forall j | 0 <= j < |fates|
      ensures JudgedAs(s', c, now, batch[j], faults(batch[j]), fates[j])
    {
      OtherFilesStay(s.finals, s'.finals, k, batch[j]);
      JudgedUntouched(s, s', c, now, batch[j], faults(batch[j]), fates[j]);
    }
  }

  lemma OtherFilesStay(m: map<Key, Bytes>, m': map<Key, Bytes>, k: Key, other: Key)
    requires m' - {k} == m - {k} && other != k
    ensures other in m' <==> other in m
    ensures other in m ==> m'[other] == m[other]
  {
    assert other in m' <==> other in m' - {k};
    assert other in m <==> other in m - {k};
    assert other in m ==> m'[other] == (m' - {k})[other] && m[other] == (m - {k})[other];
  }

  lemma HalfwayDone(
    s0: State, s: State, s': State, c: nat, now: int, batch: seq<Key>, faults: Key -> RemoveFault, fates: seq<Fate>)
    requires Halfway(s0, s, c, now, batch, faults, fates) && |fates| == |batch| && RowsBacked(s)
    requires s' == s.(tasks := Edited(s.tasks, s.cleaners[c].edits), cleaners := s.cleaners - {c})
    ensures forall i :: 0 <= i < |batch| ==> Settled(s0, s', batch[i], fates[i], faults(batch[i]), now)
  {
    forall i | 0 <= i < |batch|
      ensures Settled(s0, s', batch[i], fates[i], faults(batch[i]), now)
    {
      assert JudgedAs(s, c, now, batch[i], faults(batch[i]), fates[i]);
      assert batch[i] in batch;
    }
  }

  /** No step of `steps` is taken by `a`, or reuses its transaction name. */
  ghost predicate Foreign(steps: seq<Step>, a: Actor) {
    forall i :: 0 <= i < |steps| ==>
      && Acting(steps[i]) != a
      && (a.WriterActor? && steps[i].BeginWrite? ==> steps[i].w != a.w)
      && (a.CleanerActor? && steps[i].BeginClean? ==> steps[i].c != a.c)
  }

  lemma KeyUntouchedTrans(a: State, b: State, c: State, k: Key)
    requires KeyUntouched(a, b, k) && KeyUntouched(b, c, k)
    ensures KeyUntouched(a, c, k)
  {
  }

  lemma {:induction false} RunIsolatesWriter(s: State, env: seq<Step>, w: nat)
    requires Inv(s) && w in s.writers && Foreign(env, WriterActor(w))
    ensures var s', k := Run(s, env), s.writers[w].key;
      && Inv(s') && w in s'.writers && s'.writers[w] == s.writers[w] && KeyUntouched(s, s', k)
    decreases |env|
  {
    if env != [] {
      var s1 := Apply(s, env[0]);
      WriterIsolated(s, env[0], w);
      StepKeepsInv(s, env[0]);
      RunIsolatesWriter(s1, env[1..], w);
      KeyUntouchedTrans(s, s1, Run(s1, env[1..]), s.writers[w].key);
    }
  }

  lemma StepKeepsFreshWriter(s: State, step: Step, w: nat)
    requires w !in s.writers && !(step.BeginWrite? && step.w == w)
    ensures w !in Apply(s, step).writers
  {
    if Acting(step).CleanerActor? {
      CleanersKeepWriters(s, step);
    }
  }

  lemma {:induction false} RunKeepsFreshWriter(s: State, env: seq<Step>, w: nat)
    requires w !in s.writers && Foreign(env, WriterActor(w))
    ensures w !in Run(s, env).writers
    decreases |env|
  {
    if env != [] {
      StepKeepsFreshWriter(s, env[0], w);
      RunKeepsFreshWriter(Apply(s, env[0]), env[1..], w);
    }
  }

  lemma {:induction false} RunIsolatesCleaner(s: State, env: seq<Step>, c: nat)
    requires Inv(s) && c in s.cleaners && Foreign(env, CleanerActor(c))
    ensures var s' := Run(s, env);
      && Inv(s') && c in s'.cleaners && s'.cleaners[c] == s.cleaners[c]
      && forall k :: k in s.cleaners[c].batch ==> KeyUntouched(s, s', k)
    decreases |env|
  {
    if env != [] {
      var s1 := Apply(s, env[0]);
      CleanerKept(s, env[0], c);
      StepKeepsInv(s, env[0]);
      RunIsolatesCleaner(s1, env[1..], c);
      forall k | k in s.cleaners[c].batch
        ensures KeyUntouched(s, Run(s, env), k)
      {
        CleanerIsolated(s, env[0], c, k);
        KeyUntouchedTrans(s, s1, Run(s1, env[1..]), k);
      }
    }
  }

  ghost predicate NameFresh(s: State, name: nat) {
    forall t :: t in s.temps ==> t.1 != name
  }

  ghost predicate NeverOpens(steps: seq<Step>, name: nat) {
    forall i :: 0 <= i < |steps| && steps[i].OpenTemp? ==> steps[i].name != name
  }

  lemma StepKeepsNameFresh(s: State, step: Step, name: nat)
    requires NameFresh(s, name) && !(step.OpenTemp? && step.name == name)
    ensures NameFresh(Apply(s, step), name)
  {
    match Acting(step)
    case WriterActor(_) => WriterKeepsNameFresh(s, step, name);
    case CleanerActor(_) => assert ApplyCleaner(s, step).temps <= s.temps;
    case Nobody => assert ApplyTables(s, step).temps == s.temps;
  }

  lemma WriterKeepsNameFresh(s: State, step: Step, name: nat)
    requires NameFresh(s, name) && !(step.OpenTemp? && step.name == name) && Acting(step).WriterActor?
    ensures NameFresh(ApplyWriter(s, step), name)
  {
  }

  lemma {:induction false} RunKeepsNameFresh(s: State, env: seq<Step>, name: nat)
    requires NameFresh(s, name) && NeverOpens(env, name)
    ensures NameFresh(Run(s, env), name)
    decreases |env|
  {
    if env != [] {
      StepKeepsNameFresh(s, env[0], name);
      RunKeepsNameFresh(Apply(s, env[0]), env[1..], name);
    }
  }

  /** The scan of the key is completed, nobody holds its site or its task, and its files are not to be deleted. */
  predicate Reservable(s: State, k: Key) {
    && Scoped(s, k) && s.scans[k.scan].status == Completed
    && !SiteLocked(s, k.site) && !TaskLocked(s, k)
    && (k in s.tasks ==> s.tasks[k].action == WriteIntent)
  }

  class Store {
    var sites: set<nat>
    var scans: map<nat, Scan>
    var rows: map<Key, Bytes>
    var tasks: map<Key, Task>
    var finals: map<Key, Bytes>
    var temps: set<(Key, nat)>
    var writers: map<nat, Writer>
    var cleaners: map<nat, Cleaner>
    /** Every step taken so far, by anyone. */
    ghost var log: seq<Step>

    function View(): State
      reads this
    {
      State(sites, scans, rows, tasks, finals, temps, writers, cleaners)
    }

    /** The store is where its log leads. */
    ghost predicate Valid()
      reads this
    {
      View() == Run(INIT, log)
    }

    constructor ()
      ensures Valid() && View() == INIT && log == []
    {
      sites, scans, rows, tasks, finals, temps, writers, cleaners := {}, map[], map[], map[], map[], {}, map[], map[];
      log := [];
    }

    ghost method Took(step: Step)
      requires View() == Apply(Run(INIT, log), step)
      modifies this`log
      ensures Valid() && log == old(log) + [step]
    {
      RunStep(INIT, log, step);
      log := log + [step];
    }

    /** Other processes take the steps `env`. */
    method Others(env: seq<Step>)
      requires Valid()
      modifies this
      ensures Valid() && View() == Run(old(View()), env) && log == old(log) + env
    {
      RunConcat(INIT, log, env);
      var s := Run(View(), env);
      sites, scans, rows, tasks, finals, temps, writers, cleaners :=
        s.sites, s.scans, s.rows, s.tasks, s.finals, s.temps, s.writers, s.cleaners;
      log := log + env;
    }

    // ----- The capture writer -----

    method ReserveIntent(key: Key, now: int) returns (r: Reserved)
      requires Valid()
      modifies this`tasks, this`log
      ensures Valid() && View() == Apply(old(View()), Reserve(key, now))
      ensures r == Yes <==> Reservable(old(View()), key)
      ensures r == Yes ==> key in tasks && tasks[key].action == WriteIntent
      ensures r != Yes ==> View() == old(View())
    {
      if key.site in sites && SiteLocked(View(), key.site) {
        return Waiting;
      }
      if !Scoped(View(), key) || scans[key.scan].status != Completed {
        return No;
      }
      if TaskLocked(View(), key) {
        return Waiting;
      }
      if key in tasks {
        if tasks[key].action == Delete {
          return No;
        }
        tasks := tasks[key := tasks[key].(nextAttemptAt := now + WRITE_GRACE)];
      } else {
        tasks := tasks[key := Task(WriteIntent, 0, now + WRITE_GRACE)];
      }
      Took(Reserve(key, now));
      return Yes;
    }

    method LockForWrite(w: nat, key: Key, data: Bytes) returns (r: Reserved)
      requires Valid() && w !in writers
      modifies this`writers, this`log
      ensures Valid() && View() == Apply(old(View()), BeginWrite(w, key, data))
      ensures r == Yes <==> Reservable(old(View()), key) && key in old(tasks)
      ensures if r == Yes then writers == old(writers)[w := Writer(key, data, Locked)] else View() == old(View())
    {
      if key.site in sites && SiteLocked(View(), key.site) {
        return Waiting;
      }
      if !Scoped(View(), key) || scans[key.scan].status != Completed {
        return No;
      }
      if TaskLocked(View(), key) {
        return Waiting;
      }
      if key !in tasks || tasks[key].action != WriteIntent {
        return No;
      }
      writers := writers[w := Writer(key, data, Locked)];
      Took(BeginWrite(w, key, data));
      return Yes;
    }

    method OpenTemporary(w: nat, name: nat)
      requires Valid() && w in writers && writers[w].phase == Locked && (writers[w].key, name) !in temps
      modifies this`temps, this`writers, this`log
      ensures Valid() && View() == Apply(old(View()), OpenTemp(w, name))
      ensures writers == old(writers)[w := old(writers)[w].(phase := TempOpen(name))]
    {
      temps := temps + {(writers[w].key, name)};
      writers := writers[w := writers[w].(phase := TempOpen(name))];
      Took(OpenTemp(w, name));
    }

    method RenameTemporary(w: nat)
      requires Valid() && w in writers && writers[w].phase.TempOpen?
      modifies this`finals, this`temps, this`writers, this`log
      ensures Valid() && View() == Apply(old(View()), Rename(w))
      ensures writers == old(writers)[w := old(writers)[w].(phase := Renamed)]
    {
      var wr := writers[w];
      finals := finals[wr.key := wr.data];
      temps := temps - {(wr.key, wr.phase.name)};
      writers := writers[w := wr.(phase := Renamed)];
      Took(Rename(w));
    }

    method CommitMetadata(w: nat)
      requires Valid() && w in writers && writers[w].phase.Renamed?
      modifies this`rows, this`tasks, this`writers, this`log
      ensures Valid() && View() == Apply(old(View()), CommitWrite(w))
      ensures writers == old(writers) - {w} && tasks == old(tasks) - {old(writers)[w].key}
      ensures rows == old(rows)[old(writers)[w].key := old(writers)[w].data]
    {
      var wr := writers[w];
      rows := rows[wr.key := wr.data];
      tasks := tasks - {wr.key};
      writers := writers - {w};
      Took(CommitWrite(w));
    }

    method Abandon(w: nat, unlinkTemp: bool)
      requires Valid() && w in writers
      modifies this`temps, this`writers, this`log
      ensures Valid() && View() == Apply(old(View()), AbortWrite(w, unlinkTemp))
      ensures writers == old(writers) - {w}
    {
      var wr := writers[w];
      if unlinkTemp && wr.phase.TempOpen? {
        temps := temps - {(wr.key, wr.phase.name)};
      }
      writers := writers - {w};
      Took(AbortWrite(w, unlinkTemp));
    }

    /** Others run while the write transaction `w` is open: its own key stays as it left it. */
    method OthersDuringWrite(w: nat, env: seq<Step>)
      requires Valid() && w in writers && Foreign(env, WriterActor(w))
      modifies this
      ensures Valid() && w in writers && writers[w] == old(writers[w])
      ensures KeyUntouched(old(View()), View(), writers[w].key) && WriterOk(View(), writers[w])
    {
      RunKeepsInv(INIT, log);
      RunIsolatesWriter(View(), env, w);
      Others(env);
    }

    /** Writes, renames and syncs the file of the open transaction `w`; on an error the
        transaction ends, and its temporary file is removed if the rename has not happened. */
    method WriteScreenshotFile(w: nat, name: nat, fault: WriteFault, env: seq<seq<Step>>) returns (ok: bool)
      requires Valid() && w in writers && writers[w].phase == Locked && (writers[w].key, name) !in temps
      requires |env| == 2 && Foreign(env[0], WriterActor(w)) && Foreign(env[1], WriterActor(w))
      modifies this
      ensures Valid() && ok == (fault == NoFault)
      ensures var wr := old(writers)[w];
        && wr.key in tasks && tasks[wr.key].action == WriteIntent
        && (!fault.WriteFails? ==> wr.key in finals && finals[wr.key] == wr.data)
        && (if ok then w in writers && writers[w] == wr.(phase := Renamed) else w !in writers)
    {
      OpenTemporary(w, name);
      OthersDuringWrite(w, env[0]);
      if fault.WriteFails? {
        Abandon(w, fault.unlinked);
        return false;
      }
      RenameTemporary(w);
      OthersDuringWrite(w, env[1]);
      if fault == FailsAfterRename {
        Abandon(w, false);
        return false;
      }
      return true;
    }

    /** Stores a screenshot while others run between its steps (`env[0]` to `env[3]`). */
    method PersistPrimaryScreenshot(
      w: nat, key: Key, jpeg: bool, size: nat, data: Bytes, now: int, name: nat, fault: WriteFault, env: seq<seq<Step>>)
      returns (r: Persisted)
      requires Valid() && w !in writers && NameFresh(View(), name)
      requires |env| == 4 && forall i :: 0 <= i < 4 ==> Foreign(env[i], WriterActor(w)) && NeverOpens(env[i], name)
      modifies this
      ensures Valid() && w !in writers
      ensures r == Stored ==> key in rows && rows[key] == data && key in finals && finals[key] == data && key !in tasks
      ensures r == FailedWithIntent ==> key in tasks && tasks[key].action == WriteIntent
      ensures r == FailedWithIntent && fault == FailsAfterRename ==> key in finals && finals[key] == data
      ensures (!jpeg || size == 0 || size > MAX_SCREENSHOT_BYTES) ==> r == NotStored && View() == old(View())
      ensures fault == NoFault ==> r != FailedWithIntent
      ensures
        jpeg && 0 < size <= MAX_SCREENSHOT_BYTES && Reservable(old(View()), key) && env[0] == [] && fault == NoFault ==>
          r == Stored
    {
      if !jpeg || size == 0 || size > MAX_SCREENSHOT_BYTES {
        return NotStored;
      }
      var reserved := ReserveIntent(key, now);
      if reserved != Yes {
        return if reserved == Waiting then Blocked else NotStored;
      }
      RunKeepsFreshWriter(View(), env[0], w);
      RunKeepsNameFresh(View(), env[0], name);
      Others(env[0]);
      r := WriteReserved(w, key, data, name, fault, env[1..]);
    }

    /** The second transaction: locks, file and metadata. */
    method WriteReserved(w: nat, key: Key, data: Bytes, name: nat, fault: WriteFault, env: seq<seq<Step>>)
      returns (r: Persisted)
      requires Valid() && w !in writers && NameFresh(View(), name)
      requires |env| == 3 && forall i :: 0 <= i < 3 ==> Foreign(env[i], WriterActor(w)) && NeverOpens(env[i], name)
      modifies this
      ensures Valid() && w !in writers
      ensures r == Stored ==> key in rows && rows[key] == data && key in finals && finals[key] == data && key !in tasks
      ensures r == FailedWithIntent ==> fault != NoFault && key in tasks && tasks[key].action == WriteIntent
      ensures r == FailedWithIntent && fault == FailsAfterRename ==> key in finals && finals[key] == data
      ensures Reservable(old(View()), key) && key in old(tasks) && fault == NoFault ==> r == Stored
    {
      var locked := LockForWrite(w, key, data);
      if locked != Yes {
        return if locked == Waiting then Blocked else NotStored;
      }
      OthersDuringWrite(w, env[0]);
      assert (key, name) !in temps;
      var ok := WriteScreenshotFile(w, name, fault, env[1..]);
      if !ok {
        return FailedWithIntent;
      }
      CommitMetadata(w);
      return Stored;
    }

    // ----- The cleaner -----

    method BeginBatch(c: nat, now: int, batch: seq<Key>)
      requires Valid() && c !in cleaners && Distinct(batch)
      requires forall k :: k in batch ==> k in tasks && tasks[k].nextAttemptAt <= now && !TaskLocked(View(), k)
      modifies this`cleaners, this`log
      ensures Valid() && cleaners == old(cleaners)[c := Cleaner(now, batch, 0, false, map[])]
    {
      cleaners := cleaners[c := Cleaner(now, batch, 0, false, map[])];
      Took(BeginClean(c, now, batch));
    }

    /** Judges the current task. True means that its files are to be removed. */
    method Judge(c: nat) returns (remove: bool)
      requires Valid() && Deciding(View(), c) && Current(View(), c) in tasks
      modifies this`cleaners, this`log
      ensures Valid()
      ensures
        var k, cl := old(Current(View(), c)), old(cleaners[c]);
        var verdict := old(Verdict(View(), k, tasks[k], cl.now));
        && remove == verdict.None?
        && cleaners == old(cleaners)[c := if remove then cl.(removing := true) else Edit(cl, k, verdict.value)]
    {
      var cl := cleaners[c];
      var key := cl.batch[cl.next];
      var task := tasks[key];
      var referenced := key in rows;
      if referenced && task.action == WriteIntent {
        cleaners := cleaners[c := Edit(cl, key, None)];
        remove := false;
      } else if referenced {
        cleaners := cleaners[c := Edit(cl, key, Some(Retried(task, cl.now)))];
        remove := false;
      } else if task.action == WriteIntent && ScanActive(View(), key) {
        cleaners := cleaners[c := Edit(cl, key, Some(task.(nextAttemptAt := cl.now + WRITE_GRACE)))];
        remove := false;
      } else {
        cleaners := cleaners[c := cl.(removing := true)];
        remove := true;
      }
      Took(Decide(c));
    }

    method UnlinkFinalFile(c: nat)
      requires Valid() && Removing(View(), c)
      modifies this`finals, this`log
      ensures Valid() && finals == old(finals) - {Current(View(), c)}
    {
      finals := finals - {cleaners[c].batch[cleaners[c].next]};
      Took(UnlinkFinal(c));
    }

    method UnlinkTempFile(c: nat, name: nat)
      requires Valid() && Removing(View(), c) && Current(View(), c) !in finals
      modifies this`temps, this`log
      ensures Valid() && temps == old(temps) - {(Current(View(), c), name)}
    {
      temps := temps - {(cleaners[c].batch[cleaners[c].next], name)};
      Took(UnlinkTemp(c, name));
    }

    method EndRemoval(c: nat, ok: bool)
      requires Valid() && Removing(View(), c) && Current(View(), c) in tasks
      requires ok ==> NoFiles(View(), Current(View(), c))
      modifies this`cleaners, this`log
      ensures Valid()
      ensures var k, cl := old(Current(View(), c)), old(cleaners[c]);
        cleaners == old(cleaners)[c := Edit(cl, k, if ok then None else Some(Retried(tasks[k], cl.now)))]
    {
      var cl := cleaners[c];
      var key := cl.batch[cl.next];
      if ok {
        cleaners := cleaners[c := Edit(cl, key, None)];
        Took(RemovalDone(c));
      } else {
        cleaners := cleaners[c := Edit(cl, key, Some(Retried(tasks[key], cl.now)))];
        Took(RemovalFailed(c));
      }
    }

    method CommitBatch(c: nat)
      requires Valid() && c in cleaners && !cleaners[c].removing && cleaners[c].next == |cleaners[c].batch|
      modifies this`tasks, this`cleaners, this`log
      ensures Valid() && tasks == Edited(old(tasks), old(cleaners)[c].edits) && cleaners == old(cleaners) - {c}
    {
      tasks := Edited(tasks, cleaners[c].edits);
      cleaners := cleaners - {c};
      Took(CommitClean(c));
    }

    /** Others run while the cleanup transaction `c` is open: the keys of its batch stay as they are. */
    method OthersDuringClean(c: nat, env: seq<Step>)
      requires Valid() && c in cleaners && Foreign(env, CleanerActor(c))
      modifies this
      ensures Valid() && c in cleaners && cleaners[c] == old(cleaners[c])
      ensures forall k :: k in cleaners[c].batch ==> KeyUntouched(old(View()), View(), k)
    {
      RunKeepsInv(INIT, log);
      RunIsolatesCleaner(View(), env, c);
      Others(env);
    }

    /** Unlinks the final file of the current task and then every temporary file of its key. */
    method RemoveArtifact(c: nat, fault: RemoveFault) returns (ok: bool)
      requires Valid() && Removing(View(), c)
      modifies this`finals, this`temps, this`log
      ensures Valid()
      ensures var k := Current(View(), c);
        && (ok ==> NoFiles(View(), k))
        && (fault == NoRemoveFault ==> ok)
        && finals - {k} == old(finals) - {k}
        && forall t: (Key, nat) :: t.0 != k ==> (t in temps <==> t in old(temps))
    {
      var key := cleaners[c].batch[cleaners[c].next];
      if fault == FinalFails {
        return false;
      }
      UnlinkFinalFile(c);
      var names := set t | t in temps && t.0 == key :: t.1;
      while names != {}
        invariant Valid() && finals == old(finals) - {key}
        invariant forall t :: t in temps && t.0 == key ==> t.1 in names
        invariant forall t: (Key, nat) :: t.0 != key ==> (t in temps <==> t in old(temps))
        decreases names
      {
        var name :| name in names;
        if fault == TempFails(name) {
          return false;
        }
        UnlinkTempFile(c, name);
        names := names - {name};
      }
      return true;
    }

    /** Judges the current task and removes its files if nothing refers to them. */
    method Settle(c: nat, fault: RemoveFault) returns (fate: Fate)
      requires Valid() && Deciding(View(), c) && Current(View(), c) in tasks
      modifies this`cleaners, this`finals, this`temps, this`log
      ensures Valid()
      ensures var k, cl := old(Current(View(), c)), old(cleaners[c]);
        && cleaners == old(cleaners)[c := Edit(cl, k, FateEdit(fate, tasks[k], cl.now))]
        && Fitting(fate, k in rows, tasks[k].action, fault)
        && (fate == Removed ==> NoFiles(View(), k))
        && finals - {k} == old(finals) - {k}
        && (k in rows ==> finals == old(finals))
        && forall t: (Key, nat) :: t.0 != k ==> (t in temps <==> t in old(temps))
    {
      var cl := cleaners[c];
      var key := cl.batch[cl.next];
      var task, referenced := tasks[key], key in rows;
      var remove := Judge(c);
      if !remove {
        return if referenced then (if task.action == WriteIntent then Released else Retrying) else Deferred;
      }
      var ok := RemoveArtifact(c, fault);
      EndRemoval(c, ok);
      return if ok then Removed else Retrying;
    }

    /** Others run, and then the next task of the batch is settled. */
    method SettleNext(
      ghost s0: State, c: nat, now: int, batch: seq<Key>, faults: Key -> RemoveFault, ghost fates: seq<Fate>, env: seq<Step>)
      returns (fate: Fate)
      requires Valid() && Halfway(s0, View(), c, now, batch, faults, fates) && |fates| < |batch|
      requires Foreign(env, CleanerActor(c))
      modifies this
      ensures Valid() && Halfway(s0, View(), c, now, batch, faults, fates + [fate])
    {
      ghost var before := View();
      OthersDuringClean(c, env);
      HalfwayUntouched(s0, before, View(), c, now, batch, faults, fates);
      before := View();
      assert batch[|fates|] in batch;
      fate := Settle(c, faults(batch[cleaners[c].next]));
      HalfwayNext(s0, before, View(), c, now, batch, faults, fates, fate);
    }

    method SettleAll(
      ghost s0: State, c: nat, now: int, batch: seq<Key>, faults: Key -> RemoveFault, env: seq<seq<Step>>)
      returns (tally: CleanupResult, ghost fates: seq<Fate>)
      requires Valid() && Halfway(s0, View(), c, now, batch, faults, [])
      requires |env| == |batch| && forall i :: 0 <= i < |env| ==> Foreign(env[i], CleanerActor(c))
      modifies this
      ensures Valid() && |fates| == |batch| && Halfway(s0, View(), c, now, batch, faults, fates) && tally == Tally(fates)
    {
      tally, fates := CleanupResult(0, 0, 0, 0, 0), [];
      for i := 0 to |batch|
        invariant Valid() && |fates| == i && Halfway(s0, View(), c, now, batch, faults, fates)
        invariant tally == Tally(fates)
      {
        var fate := SettleNext(s0, c, now, batch, faults, fates, env[i]);
        TallySnoc(fates, fate);
        fates, tally := fates + [fate], Counted(tally, fate);
      }
    }

    /** One pass of the cleaner over the due tasks `batch`, while others run between its steps. */
    method PurgePendingArtifacts(
      c: nat, now: int, batchSize: int, batch: seq<Key>, faults: Key -> RemoveFault, env: seq<seq<Step>>)
      returns (r: Option<CleanupResult>, ghost fates: seq<Fate>)
      requires Valid() && c !in cleaners && DueBatch(View(), now, batchSize, batch)
      requires |env| == |batch| && forall i :: 0 <= i < |env| ==> Foreign(env[i], CleanerActor(c))
      modifies this
      ensures Valid()
      ensures r.None? <==> batchSize < 1 || batchSize > 500
      ensures r.None? ==> View() == old(View())
      ensures r.Some? ==> |fates| == |batch| && r == Some(Tally(fates))
      ensures r.Some? ==> forall i :: 0 <= i < |batch| ==>
        Settled(old(View()), View(), batch[i], fates[i], faults(batch[i]), now)
    {
      fates := [];
      if batchSize < 1 || batchSize > 500 {
        return None, [];
      }
      ghost var s0 := View();
      BeginBatch(c, now, batch);
      var tally;
      tally, fates := SettleAll(s0, c, now, batch, faults, env);
      RunKeepsInv(INIT, log);
      ghost var last := View();
      CommitBatch(c);
      HalfwayDone(s0, last, View(), c, now, batch, faults, fates);
      r := Some(tally);
    }

    // ----- Retention -----

    /** Deletes one expired public audit and hands its files to the cleaner, in one transaction. */
    method RetainOne(id: nat, now: int, cutoff: int, activeShare: bool) returns (fate: RetentionFate)
      requires Valid()
      modifies this`tasks, this`rows, this`scans, this`log
      ensures Valid() && log == old(log) + [Retain(id, now, cutoff, activeShare)]
      ensures View() == Apply(old(View()), Retain(id, now, cutoff, activeShare))
      ensures fate == RetentionOf(old(View()), id, cutoff, activeShare) && FateShows(old(View()), View(), id, now, fate)
    {
      if id !in scans || scans[id].site !in sites {
        fate := Gone;
      } else {
        var k := Key(scans[id].site, id);
        if SiteLocked(View(), k.site) {
          fate := StillWaiting;
        } else if !Expired(scans[id], cutoff) {
          fate := Gone;
        } else if activeShare {
          fate := KeptForShare;
        } else if Waits(View(), k) {
          fate := StillWaiting;
        } else {
          Purge(k, now);
          fate := Purged;
        }
      }
      Took(Retain(id, now, cutoff, activeShare));
    }

    /** The rows and intents of the scan become delete tasks, and the scan goes. */
    method Purge(k: Key, now: int)
      modifies this`tasks, this`rows, this`scans
      ensures tasks == Condemn(old(View()), {k}, now) && rows == old(rows) - {k} && scans == old(scans) - {k.scan}
    {
      if k in rows || (k in tasks && tasks[k].action == WriteIntent) {
        tasks := tasks[k := Task(Delete, 0, now)];
      }
      rows, scans := rows - {k}, scans - {k.scan};
    }

    method RetainLogged(id: nat, now: int, cutoff: int, share: bool) returns (fate: RetentionFate)
      requires Valid()
      modifies this`tasks, this`rows, this`scans, this`log
      ensures Valid() && log == old(log) + [Retain(id, now, cutoff, share)]
      ensures Dealt(log, |old(log)|, id, now, cutoff, share, fate)
    {
      ghost var before, s := log, View();
      fate := RetainOne(id, now, cutoff, share);
      DealtNow(before, log, s, View(), id, now, cutoff, share, fate);
    }

    /** One retention pass over the listed candidates, while others run in between; `shares` says which
        of them have an active share when their turn comes. */
    method PurgeExpiredPublicAudits(
      now: int, cutoff: int, candidates: seq<nat>, shares: seq<bool>, env: seq<seq<Step>>)
      returns (r: RetentionResult, ghost fates: seq<RetentionFate>, ghost turns: seq<nat>)
      requires Valid() && |env| == |candidates| && |shares| == |candidates|
      modifies this
      ensures Valid() && old(log) <= log && |fates| == |candidates| && r == RetentionTally(fates)
      ensures AllDealt(log, |old(log)|, candidates, shares, now, cutoff, fates, turns)
    {
      r, fates, turns := RetentionResult(0, 0, 0, 0), [], [];
      ghost var from := |log|;
      for i := 0 to |candidates|
        invariant Valid() && old(log) <= log && |fates| == i
        invariant r == RetentionTally(fates) && AllDealt(log, from, candidates, shares, now, cutoff, fates, turns)
      {
        r, fates, turns := RetainNext(r, from, candidates, shares, now, cutoff, fates, turns, env[i]);
      }
    }

    /** Others run, and then the next candidate is dealt with. */
    method RetainNext(
      r: RetentionResult, ghost from: nat, candidates: seq<nat>, shares: seq<bool>, now: int, cutoff: int,
      ghost fates: seq<RetentionFate>, ghost turns: seq<nat>, env: seq<Step>)
      returns (r': RetentionResult, ghost fates': seq<RetentionFate>, ghost turns': seq<nat>)
      requires Valid() && from <= |log| && r.checked < |candidates| && |shares| == |candidates|
      requires r == RetentionTally(fates) && AllDealt(log, from, candidates, shares, now, cutoff, fates, turns)
      modifies this
      ensures Valid() && old(log) <= log && |fates'| == |fates| + 1
      ensures r' == RetentionTally(fates') && AllDealt(log, from, candidates, shares, now, cutoff, fates', turns')
    {
      var id, share := candidates[r.checked], shares[r.checked];
      Others(env);
      ghost var before := log;
      var fate := RetainLogged(id, now, cutoff, share);
      DealtSnoc(old(log), log, from, candidates, shares, now, cutoff, fates, turns, fate);
      RetentionSnoc(fates, fate);
      r', fates', turns' := Retained(r, fate), fates + [fate], turns + [|before|];
    }
  }

  datatype RetentionFate = Purged | KeptForShare | Gone | StillWaiting

  datatype RetentionResult = RetentionResult(checked: nat, purged: nat, skippedActiveShare: nat, alreadyGone: nat)

  function RetentionTally(fates: seq<RetentionFate>): RetentionResult {
    RetentionResult(|fates|, Times(fates, Purged), Times(fates, KeptForShare), Times(fates, Gone))
  }

  /** One more candidate dealt with. */
  function Retained(r: RetentionResult, fate: RetentionFate): RetentionResult {
    var next := r.(checked := r.checked + 1);
    match fate
    case Purged => next.(purged := r.purged + 1)
    case KeptForShare => next.(skippedActiveShare := r.skippedActiveShare + 1)
    case Gone => next.(alreadyGone := r.alreadyGone + 1)
    case StillWaiting => next
  }

  /** What the transaction of a candidate leaves behind. */
  ghost predicate FateShows(s: State, s': State, id: nat, now: int, fate: RetentionFate) {
    if fate == Purged then
      id in s.scans && id !in s'.scans && HandedOver(s, s', Key(s.scans[id].site, id), now)
    else s' == s
  }

  /** At step `turn` of the log the candidate was dealt with, for the reasons there were just then. */
  ghost predicate Dealt(log: seq<Step>, turn: nat, id: nat, now: int, cutoff: int, share: bool, fate: RetentionFate) {
    && turn < |log| && log[turn] == Retain(id, now, cutoff, share)
    && fate == RetentionOf(Run(INIT, log[..turn]), id, cutoff, share)
    && FateShows(Run(INIT, log[..turn]), Run(INIT, log[..turn + 1]), id, now, fate)
  }

  /** The first candidates have been dealt with, one after the other, since `from`. */
  ghost predicate AllDealt(
    log: seq<Step>, from: nat, candidates: seq<nat>, shares: seq<bool>, now: int, cutoff: int, fates: seq<RetentionFate>,
    turns: seq<nat>)
  {
    && |turns| == |fates| <= |candidates| && |shares| == |candidates|
    && (forall i :: 0 <= i < |fates| ==>
         from <= turns[i] && Dealt(log, turns[i], candidates[i], now, cutoff, shares[i], fates[i]))
    && forall i, j :: 0 <= i < j < |fates| ==> turns[i] < turns[j]
  }

  lemma DealtSnoc(
    before: seq<Step>, log: seq<Step>, from: nat, candidates: seq<nat>, shares: seq<bool>, now: int, cutoff: int,
    fates: seq<RetentionFate>, turns: seq<nat>, fate: RetentionFate)
    requires AllDealt(before, from, candidates, shares, now, cutoff, fates, turns) && |fates| < |candidates|
    requires before <= log && from <= |before| < |log|
    requires Dealt(log, |log| - 1, candidates[|fates|], now, cutoff, shares[|fates|], fate)
    ensures AllDealt(log, from, candidates, shares, now, cutoff, fates + [fate], turns + [|log| - 1])
  {
    forall i | 0 <= i < |fates|
      ensures Dealt(log, turns[i], candidates[i], now, cutoff, shares[i], fates[i])
    {
      DealtStays(before, log, turns[i], candidates[i], now, cutoff, shares[i], fates[i]);
    }
  }

  lemma DealtStays(
    before: seq<Step>, log: seq<Step>, turn: nat, id: nat, now: int, cutoff: int, share: bool, fate: RetentionFate)
    requires Dealt(before, turn, id, now, cutoff, share, fate) && before <= log
    ensures Dealt(log, turn, id, now, cutoff, share, fate)
  {
    assert log[..turn] == before[..turn] && log[..turn + 1] == before[..turn + 1];
  }

  lemma DealtNow(
    before: seq<Step>, log: seq<Step>, s: State, s': State, id: nat, now: int, cutoff: int, share: bool, fate: RetentionFate)
    requires log == before + [Retain(id, now, cutoff, share)] && s == Run(INIT, before) && s' == Run(INIT, log)
    requires fate == RetentionOf(s, id, cutoff, share) && FateShows(s, s', id, now, fate)
    ensures Dealt(log, |before|, id, now, cutoff, share, fate)
  {
    assert log[..|before|] == before && log[..|log|] == log;
  }

  lemma RetentionSnoc(fates: seq<RetentionFate>, fate: RetentionFate)
    ensures RetentionTally(fates + [fate]) == Retained(RetentionTally(fates), fate)
  {
    TimesSnoc(fates, fate);
  }

  /** A candidate with an active share is never purged, and none is kept for a share it does not have. */
  lemma SharesRespected(log: seq<Step>, turn: nat, id: nat, now: int, cutoff: int, share: bool, fate: RetentionFate)
    requires Dealt(log, turn, id, now, cutoff, share, fate)
    ensures share ==> id in Run(INIT, log[..turn]).scans ==>
      id in Run(INIT, log[..turn + 1]).scans && Run(INIT, log[..turn + 1]).scans[id] == Run(INIT, log[..turn]).scans[id]
    ensures fate == KeptForShare ==> share
  {
  }

  /** A purged scan stays gone while its identifier is not given out again: no row refers to it, and
      whatever file it still has is left to a journal task. */
  lemma PurgedForGood(log: seq<Step>, turn: nat, id: nat, now: int, cutoff: int, share: bool, j: nat)
    requires Dealt(log, turn, id, now, cutoff, share, Purged) && turn < j <= |log|
    requires forall i :: turn < i < j ==> !(log[i].PutScan? && log[i].id == id)
    ensures var s := Run(INIT, log[..j]);
      id !in s.scans && forall k: Key :: k.scan == id ==> k !in s.rows && (k in s.finals ==> k in s.tasks)
  {
    var later := log[turn + 1..j];
    assert log[..j] == log[..turn + 1] + later;
    RunConcat(INIT, log[..turn + 1], later);
    StaysGone(Run(INIT, log[..turn + 1]), later, id);
    RunKeepsInv(INIT, log[..j]);
  }

  lemma StepKeepsGone(s: State, step: Step, id: nat)
    requires id !in s.scans && !(step.PutScan? && step.id == id)
    ensures id !in Apply(s, step).scans
  {
    OnlyTablesChangeScans(s, step);
    if Acting(step).Nobody? {
      assert id !in ApplyTables(s, step).scans;
    }
  }

  lemma {:induction false} StaysGone(s: State, steps: seq<Step>, id: nat)
    requires id !in s.scans && forall i :: 0 <= i < |steps| ==> !(steps[i].PutScan? && steps[i].id == id)
    ensures id !in Run(s, steps).scans
    decreases |steps|
  {
    if steps != [] {
      StepKeepsGone(s, steps[0], id);
      StaysGone(Apply(s, steps[0]), steps[1..], id);
    }
  }

  /** The row is gone, and if there was a row or an intent, a delete task answers for its files. */
  ghost predicate HandedOver(s: State, s': State, k: Key, now: int) {
    k !in s'.rows && (Condemned(s, k) ==> k in s'.tasks && s'.tasks[k] == Task(Delete, 0, now))
  }

  /** What happens to a retention candidate; a transaction that needs a held lock is still waiting. */
  function RetentionOf(s: State, id: nat, cutoff: int, activeShare: bool): RetentionFate {
    if id !in s.scans || s.scans[id].site !in s.sites then Gone
    else if SiteLocked(s, s.scans[id].site) then StillWaiting
    else if !Expired(s.scans[id], cutoff) then Gone
    else if activeShare then KeptForShare
    else if Waits(s, Key(s.scans[id].site, id)) then StillWaiting
    else Purged
  }
}
