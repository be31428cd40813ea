/** The screenshot journal: a durable write intent, a file written and renamed while row locks
    are held, the metadata commit, the cleaner, retention and site deletion. Every database
    transaction that touches no file is one step. A transaction that works on files is split
    into one step per file operation; a crash ends it at any point, undoing its table changes
    and releasing its locks but keeping what it did to the files. */
module ArtifactJournal {

  import opened Common

  datatype ScanStatus = Queued | Running | Completed | Failed | Cancelled

  datatype Scan = Scan(site: nat, status: ScanStatus, publicAudit: bool, completedAt: Option<int>)

  /** The storage key <site>/<scan>/primary.jpg. */
  datatype Key = Key(site: nat, scan: nat)

  datatype Action = WriteIntent | Delete

  datatype Task = Task(action: Action, attempts: nat, nextAttemptAt: int)

  /** File contents; a row stores their digest, which is taken to be injective. */
  type Bytes = nat

  datatype Phase = Locked | TempOpen(name: nat) | Renamed

  /** An open write transaction, holding the site, scan and task rows of its key. */
  datatype Writer = Writer(key: Key, data: Bytes, phase: Phase)

  /** An open cleanup transaction: it holds the task rows of its batch; `edits` are its
      uncommitted changes (None deletes the task). */
  datatype Cleaner = Cleaner(now: int, batch: seq<Key>, next: nat, removing: bool, edits: map<Key, Option<Task>>)

  datatype State = State(
    sites: set<nat>,
    scans: map<nat, Scan>,
    rows: map<Key, Bytes>,
    tasks: map<Key, Task>,
    finals: map<Key, Bytes>,
    temps: set<(Key, nat)>,
    writers: map<nat, Writer>,
    cleaners: map<nat, Cleaner>
  )

  const INIT := State({}, map[], map[], map[], map[], {}, map[], map[])

  const WRITE_GRACE := 10 * 60_000
  const MAX_ATTEMPTS := 2_147_483_647

  predicate SiteLocked(s: State, site: nat) {
    exists w :: w in s.writers && s.writers[w].key.site == site
  }

  predicate ScanLocked(s: State, id: nat) {
    exists w :: w in s.writers && s.writers[w].key.scan == id
  }

  predicate TaskLocked(s: State, k: Key) {
    || (exists w :: w in s.writers && s.writers[w].key == k)
    || (exists c :: c in s.cleaners && k in s.cleaners[c].batch)
  }

  /** The scan of the key exists and belongs to its site. */
  predicate Scoped(s: State, k: Key) {
    k.site in s.sites && k.scan in s.scans && s.scans[k.scan].site == k.site
  }

  predicate Terminal(status: ScanStatus) {
    status == Completed || status == Failed || status == Cancelled
  }

  function RetryDelay(attempts: nat): int {
    Min(60 * 60_000, 60_000 * Pow2(Min(attempts - 1, 6)))
  }

  function Retried(t: Task, now: int): Task {
    var attempts := Min(t.attempts + 1, MAX_ATTEMPTS);
    t.(attempts := attempts, nextAttemptAt := now + RetryDelay(attempts))
  }

  // ----- Steps -----

  datatype Step =
    // The world around the journal.
    | AddSite(site: nat)
    | PutScan(id: nat, scan: Scan)
    // The capture writer.
    | Reserve(key: Key, now: int)
    | BeginWrite(w: nat, key: Key, data: Bytes)
    | OpenTemp(w: nat, name: nat)
    | Rename(w: nat)
    | CommitWrite(w: nat)
    | AbortWrite(w: nat, unlinkTemp: bool)
    // The cleaner.
    | BeginClean(c: nat, now: int, batch: seq<Key>)
    | Decide(c: nat)
    | UnlinkFinal(c: nat)
    | UnlinkTemp(c: nat, name: nat)
    | RemovalDone(c: nat)
    | RemovalFailed(c: nat)
    | CommitClean(c: nat)
    | AbortClean(c: nat)
    // Deletions.
    | Retain(id: nat, now: int, cutoff: int, activeShare: bool)
    | DeleteSite(site: nat, now: int)
    | StageOrphan(key: Key, now: int)

  /** The open transaction a step belongs to. */
  datatype Actor = WriterActor(w: nat) | CleanerActor(c: nat) | Nobody

  function Acting(step: Step): Actor {
    match step
    case OpenTemp(w, _) => WriterActor(w)
    case Rename(w) => WriterActor(w)
    case CommitWrite(w) => WriterActor(w)
    case AbortWrite(w, _) => WriterActor(w)
    case Decide(c) => CleanerActor(c)
    case UnlinkFinal(c) => CleanerActor(c)
    case UnlinkTemp(c, _) => CleanerActor(c)
    case RemovalDone(c) => CleanerActor(c)
    case RemovalFailed(c) => CleanerActor(c)
    case CommitClean(c) => CleanerActor(c)
    case AbortClean(c) => CleanerActor(c)
    case _ => Nobody
  }

  function ApplyWriter(s: State, step: Step): State
    requires Acting(step).WriterActor?
  {
    match step
    case OpenTemp(w, name) => ApplyOpenTemp(s, w, name)
    case Rename(w) => ApplyRename(s, w)
    case CommitWrite(w) => ApplyCommitWrite(s, w)
    case AbortWrite(w, unlinkTemp) => ApplyAbortWrite(s, w, unlinkTemp)
  }

  function ApplyCleaner(s: State, step: Step): State
    requires Acting(step).CleanerActor?
  {
    match step
    case Decide(c) => ApplyDecide(s, c)
    case UnlinkFinal(c) => ApplyUnlinkFinal(s, c)
    case UnlinkTemp(c, name) => ApplyUnlinkTemp(s, c, name)
    case RemovalDone(c) => ApplyRemovalDone(s, c)
    case RemovalFailed(c) => ApplyRemovalFailed(s, c)
    case CommitClean(c) => ApplyCommitClean(s, c)
    case AbortClean(c) => s.(cleaners := s.cleaners - {c})
  }

  function ApplyTables(s: State, step: Step): State
    requires Acting(step).Nobody?
  {
    match step
    case AddSite(site) => s.(sites := s.sites + {site})
    case PutScan(id, scan) => ApplyPutScan(s, id, scan)
    case Reserve(key, now) => ApplyReserve(s, key, now)
    case BeginWrite(w, key, data) => ApplyBeginWrite(s, w, key, data)
    case BeginClean(c, now, batch) => ApplyBeginClean(s, c, now, batch)
    case Retain(id, now, cutoff, activeShare) => ApplyRetain(s, id, now, cutoff, activeShare)
    case DeleteSite(site, now) => ApplyDeleteSite(s, site, now)
    case StageOrphan(key, now) => ApplyStageOrphan(s, key, now)
  }

  /** One step. A step whose guard fails, or that would wait for a lock, changes nothing. */
  function Apply(s: State, step: Step): State {
    match Acting(step)
    case WriterActor(_) => ApplyWriter(s, step)
    case CleanerActor(_) => ApplyCleaner(s, step)
    case Nobody => ApplyTables(s, step)
  }

  function Run(s: State, steps: seq<Step>): State
    decreases |steps|
  {
    if steps == [] then s else Run(Apply(s, steps[0]), steps[1..])
  }

  /** Scans are created and change status outside the journal, but never while their row is locked. */
  function ApplyPutScan(s: State, id: nat, scan: Scan): State {
    if scan.site in s.sites && !ScanLocked(s, id) && (id in s.scans ==> s.scans[id].site == scan.site)
    then s.(scans := s.scans[id := scan])
    else s
  }

  /** The first transaction of the writer. */
  function ApplyReserve(s: State, k: Key, now: int): State {
    if !Scoped(s, k) || SiteLocked(s, k.site) || s.scans[k.scan].status != Completed || TaskLocked(s, k) then s
    else if k in s.tasks then
      if s.tasks[k].action == Delete then s
      else s.(tasks := s.tasks[k := s.tasks[k].(nextAttemptAt := now + WRITE_GRACE)])
    else s.(tasks := s.tasks[k := Task(WriteIntent, 0, now + WRITE_GRACE)])
  }

  /** The second transaction takes its locks and checks everything again. */
  function ApplyBeginWrite(s: State, w: nat, k: Key, data: Bytes): State {
    if w in s.writers || !Scoped(s, k) || SiteLocked(s, k.site) || s.scans[k.scan].status != Completed then s
    else if TaskLocked(s, k) || k !in s.tasks || s.tasks[k].action != WriteIntent then s
    else s.(writers := s.writers[w := Writer(k, data, Locked)])
  }

  function ApplyOpenTemp(s: State, w: nat, name: nat): State {
    if w in s.writers && s.writers[w].phase == Locked && (s.writers[w].key, name) !in s.temps then
      s.(temps := s.temps + {(s.writers[w].key, name)},
         writers := s.writers[w := s.writers[w].(phase := TempOpen(name))])
    else s
  }

  function ApplyRename(s: State, w: nat): State {
    if w in s.writers && s.writers[w].phase.TempOpen? then
      var wr := s.writers[w];
      s.(finals := s.finals[wr.key := wr.data],
         temps := s.temps - {(wr.key, wr.phase.name)},
         writers := s.writers[w := wr.(phase := Renamed)])
    else s
  }

  function ApplyCommitWrite(s: State, w: nat): State {
    if w in s.writers && s.writers[w].phase == Renamed then
      var wr := s.writers[w];
      s.(rows := s.rows[wr.key := wr.data],
         tasks := s.tasks - {wr.key},
         writers := s.writers - {w})
    else s
  }

  /** A failed or killed writer: before the rename it may still remove its temporary file. */
  function ApplyAbortWrite(s: State, w: nat, unlinkTemp: bool): State {
    if w !in s.writers then s
    else
      var wr := s.writers[w];
      s.(temps := if unlinkTemp && wr.phase.TempOpen? then s.temps - {(wr.key, wr.phase.name)} else s.temps,
         writers := s.writers - {w})
  }

  predicate Distinct(batch: seq<Key>) {
    forall i, j :: 0 <= i < j < |batch| ==> batch[i] != batch[j]
  }

  function ApplyBeginClean(s: State, c: nat, now: int, batch: seq<Key>): State {
    if && c !in s.cleaners && Distinct(batch)
       && (forall k :: k in batch ==> k in s.tasks && s.tasks[k].nextAttemptAt <= now && !TaskLocked(s, k))
    then s.(cleaners := s.cleaners[c := Cleaner(now, batch, 0, false, map[])])
    else s
  }

  /** The cleaner is at a task it has not judged yet. */
  predicate Deciding(s: State, c: nat) {
    c in s.cleaners && !s.cleaners[c].removing && s.cleaners[c].next < |s.cleaners[c].batch|
  }

  predicate Removing(s: State, c: nat) {
    c in s.cleaners && s.cleaners[c].removing && s.cleaners[c].next < |s.cleaners[c].batch|
  }

  function Current(s: State, c: nat): Key
    requires Deciding(s, c) || Removing(s, c)
  {
    s.cleaners[c].batch[s.cleaners[c].next]
  }

  /** Record an edit for the current task and move to the next one. */
  function Edit(cl: Cleaner, k: Key, edit: Option<Task>): Cleaner {
    cl.(next := cl.next + 1, removing := false, edits := cl.edits[k := edit])
  }

  predicate ScanActive(s: State, k: Key) {
    k.scan in s.scans && s.scans[k.scan].site == k.site
    && (s.scans[k.scan].status == Queued || s.scans[k.scan].status == Running)
  }

  /** What the cleaner decides for task `t` of key `k`; None means its files are to be removed. */
  function Verdict(s: State, k: Key, t: Task, now: int): Option<Option<Task>> {
    if k in s.rows && t.action == WriteIntent then Some(None)
    else if k in s.rows then Some(Some(Retried(t, now)))
    else if t.action == WriteIntent && ScanActive(s, k) then Some(Some(t.(nextAttemptAt := now + WRITE_GRACE)))
    else None
  }

  function ApplyDecide(s: State, c: nat): State {
    if Deciding(s, c) && Current(s, c) in s.tasks then
      var k, cl := Current(s, c), s.cleaners[c];
      match Verdict(s, k, s.tasks[k], cl.now)
      case Some(edit) => s.(cleaners := s.cleaners[c := Edit(cl, k, edit)])
      case None => s.(cleaners := s.cleaners[c := cl.(removing := true)])
    else s
  }

  function ApplyUnlinkFinal(s: State, c: nat): State {
    if Removing(s, c) then s.(finals := s.finals - {Current(s, c)}) else s
  }

  /** Temporary files are only looked for once the final file is gone. */
  function ApplyUnlinkTemp(s: State, c: nat, name: nat): State {
    if Removing(s, c) && Current(s, c) !in s.finals then s.(temps := s.temps - {(Current(s, c), name)}) else s
  }

  predicate NoFiles(s: State, k: Key) {
    k !in s.finals && forall t :: t in s.temps ==> t.0 != k
  }

  function ApplyRemovalDone(s: State, c: nat): State {
    if Removing(s, c) && NoFiles(s, Current(s, c)) then
      s.(cleaners := s.cleaners[c := Edit(s.cleaners[c], Current(s, c), None)])
    else s
  }

  function ApplyRemovalFailed(s: State, c: nat): State {
    if Removing(s, c) && Current(s, c) in s.tasks then
      var cl, k := s.cleaners[c], Current(s, c);
      s.(cleaners := s.cleaners[c := Edit(cl, k, Some(Retried(s.tasks[k], cl.now)))])
    else s
  }

  function Edited(tasks: map<Key, Task>, edits: map<Key, Option<Task>>): map<Key, Task> {
    map k | k in tasks.Keys + edits.Keys && (k in edits ==> edits[k].Some?) ::
      if k in edits then edits[k].value else tasks[k]
  }

  function ApplyCommitClean(s: State, c: nat): State {
    if c in s.cleaners && !s.cleaners[c].removing && s.cleaners[c].next == |s.cleaners[c].batch| then
      s.(tasks := Edited(s.tasks, s.cleaners[c].edits), cleaners := s.cleaners - {c})
    else s
  }

  /** Keys whose files a deletion has to hand over to the cleaner. */
  predicate Condemned(s: State, k: Key) {
    k in s.rows || (k in s.tasks && s.tasks[k].action == WriteIntent)
  }

  function Condemn(s: State, keys: set<Key>, now: int): map<Key, Task> {
    s.tasks + map k | k in keys && Condemned(s, k) :: Task(Delete, 0, now)
  }

  predicate Waits(s: State, k: Key) {
    Condemned(s, k) && k in s.tasks && TaskLocked(s, k)
  }

  predicate Expired(scan: Scan, cutoff: int) {
    scan.publicAudit && Terminal(scan.status) && scan.completedAt.Some? && scan.completedAt.value < cutoff
  }

  /** Retention: rows and intents of the scan become delete tasks in the transaction that deletes it. */
  function ApplyRetain(s: State, id: nat, now: int, cutoff: int, activeShare: bool): State {
    if id !in s.scans || s.scans[id].site !in s.sites || SiteLocked(s, s.scans[id].site) then s
    else
      var k := Key(s.scans[id].site, id);
      if !Expired(s.scans[id], cutoff) || activeShare || Waits(s, k) then s
      else s.(tasks := Condemn(s, {k}, now), rows := s.rows - {k}, scans := s.scans - {id})
  }

  function KeysOf(s: State, site: nat): set<Key> {
    set k | k in s.rows.Keys + s.tasks.Keys && k.site == site
  }

  function ApplyDeleteSite(s: State, site: nat, now: int): State {
    if || site !in s.sites || SiteLocked(s, site)
       || (exists id :: id in s.scans && s.scans[id].site == site && !Terminal(s.scans[id].status))
       || (exists k :: k in KeysOf(s, site) && Waits(s, k))
    then s
    else
      s.(tasks := Condemn(s, KeysOf(s, site), now),
         rows := map k | k in s.rows && k.site != site :: s.rows[k],
         scans := map id | id in s.scans && s.scans[id].site != site :: s.scans[id],
         sites := s.sites - {site})
  }

  /** The offline inventory adopts an old file nobody answers for. */
  function ApplyStageOrphan(s: State, k: Key, now: int): State {
    if SiteLocked(s, k.site) || ScanActive(s, k) || k in s.rows || k in s.tasks then s
    else s.(tasks := s.tasks[k := Task(Delete, 0, now)])
  }

  // ----- The invariant -----

  /** No file without a metadata row or a journal task to answer for it. */
  ghost predicate FilesAccounted(s: State) {
    && (forall k :: k in s.finals ==> k in s.rows || k in s.tasks)
    && (forall t :: t in s.temps ==> t.0 in s.rows || t.0 in s.tasks)
  }

  /** No metadata row without its file. */
  ghost predicate RowsBacked(s: State) {
    forall k :: k in s.rows ==> k in s.finals && Scoped(s, k)
  }

  ghost predicate WriterOk(s: State, wr: Writer) {
    && Scoped(s, wr.key)
    && wr.key in s.tasks && s.tasks[wr.key].action == WriteIntent
    && (wr.phase.TempOpen? ==> (wr.key, wr.phase.name) in s.temps)
    && (wr.phase.Renamed? ==> wr.key in s.finals && s.finals[wr.key] == wr.data)
  }

  ghost predicate WritersOk(s: State) {
    && (forall w :: w in s.writers ==> WriterOk(s, s.writers[w]))
    && (forall w, v :: w in s.writers && v in s.writers && w != v ==> s.writers[w].key.site != s.writers[v].key.site)
  }

  ghost predicate CleanerOk(s: State, cl: Cleaner) {
    && Distinct(cl.batch) && cl.next <= |cl.batch|
    && (forall k :: k in cl.batch ==> k in s.tasks)
    && (forall k :: k in cl.edits <==> k in cl.batch[..cl.next])
    && (cl.removing ==> cl.next < |cl.batch| && cl.batch[cl.next] !in s.rows)
    && (forall k :: k in cl.edits && cl.edits[k].None? ==> k in s.rows || NoFiles(s, k))
  }

  ghost predicate CleanersOk(s: State) {
    && (forall c :: c in s.cleaners ==> CleanerOk(s, s.cleaners[c]))
    && (forall c, d, k :: c in s.cleaners && d in s.cleaners && c != d && k in s.cleaners[c].batch ==> k !in s.cleaners[d].batch)
    && (forall c, w :: c in s.cleaners && w in s.writers ==> s.writers[w].key !in s.cleaners[c].batch)
  }

  ghost predicate Inv(s: State) {
    FilesAccounted(s) && RowsBacked(s) && WritersOk(s) && CleanersOk(s)
  }

  /** The cleaners stay as they should while nothing about their keys gets worse. */
  lemma CleanersFramed(s: State, s': State)
    requires CleanersOk(s) && s'.cleaners.Keys <= s.cleaners.Keys
    requires forall c :: c in s'.cleaners ==> s'.cleaners[c] == s.cleaners[c]
    requires forall w :: w in s'.writers ==> w in s.writers && s'.writers[w].key == s.writers[w].key
    requires forall c, k :: c in s'.cleaners && k in s.cleaners[c].batch ==>
      k in s'.tasks && (k in s'.rows <==> k in s.rows) && (NoFiles(s, k) ==> NoFiles(s', k))
    ensures CleanersOk(s')
  {
    forall c | c in s'.cleaners
      ensures CleanerOk(s', s'.cleaners[c])
    {
      var cl := s.cleaners[c];
      assert CleanerOk(s, cl);
      forall k | k in cl.edits && cl.edits[k].None?
        ensures k in s'.rows || NoFiles(s', k)
      {
        assert k in cl.batch;
      }
      assert cl.removing ==> cl.batch[cl.next] in cl.batch;
    }
  }

  /** Adding or changing an unlocked task keeps the invariant. */
  lemma TaskUpdated(s: State, k: Key, t: Task)
    requires Inv(s) && !TaskLocked(s, k)
    ensures Inv(s.(tasks := s.tasks[k := t]))
  {
    var s' := s.(tasks := s.tasks[k := t]);
    forall w | w in s.writers
      ensures WriterOk(s', s.writers[w])
    {
      assert s.writers[w].key != k;
    }
    forall c | c in s.cleaners
      ensures CleanerOk(s', s.cleaners[c])
    {
    }
    assert CleanersOk(s');
  }

  lemma StepReserve(s: State, k: Key, now: int)
    requires Inv(s)
    ensures Inv(ApplyReserve(s, k, now))
  {
    var s' := ApplyReserve(s, k, now);
    if s' != s {
      ReserveIsUpdate(s, k, now);
      TaskUpdated(s, k, s'.tasks[k]);
    }
  }

  lemma ReserveIsUpdate(s: State, k: Key, now: int)
    requires ApplyReserve(s, k, now) != s
    ensures var s' := ApplyReserve(s, k, now);
      !TaskLocked(s, k) && k in s'.tasks && s' == s.(tasks := s.tasks[k := s'.tasks[k]])
  {
  }

  lemma StepBeginWrite(s: State, w: nat, k: Key, data: Bytes)
    requires Inv(s)
    ensures Inv(ApplyBeginWrite(s, w, k, data))
  {
  }

  lemma StepOpenTemp(s: State, w: nat, name: nat)
    requires Inv(s)
    ensures Inv(ApplyOpenTemp(s, w, name))
  {
    var s' := ApplyOpenTemp(s, w, name);
    if s' != s {
      OpenTempFiles(s, w, name);
      CleanersFramed(s, s');
    }
  }

  lemma OpenTempFiles(s: State, w: nat, name: nat)
    requires Inv(s)
    ensures var s' := ApplyOpenTemp(s, w, name); FilesAccounted(s') && RowsBacked(s') && WritersOk(s')
  {
  }

  lemma RenameKeepsWriters(s: State, w: nat)
    requires Inv(s) && w in s.writers && s.writers[w].phase.TempOpen?
    ensures WritersOk(ApplyRename(s, w))
  {
    forall v | v in s.writers && v != w
      ensures WriterOk(ApplyRename(s, w), s.writers[v])
    {
      assert s.writers[v].key.site != s.writers[w].key.site;
    }
  }

  lemma StepRename(s: State, w: nat)
    requires Inv(s)
    ensures Inv(ApplyRename(s, w))
  {
    if w in s.writers && s.writers[w].phase.TempOpen? {
      var s' := ApplyRename(s, w);
      RenameKeepsWriters(s, w);
      assert FilesAccounted(s') && RowsBacked(s');
      CleanersFramed(s, s');
    }
  }

  lemma StepCommitWrite(s: State, w: nat)
    requires Inv(s)
    ensures Inv(ApplyCommitWrite(s, w))
  {
    if w in s.writers && s.writers[w].phase == Renamed {
      var s' := ApplyCommitWrite(s, w);
      CommitWriteFiles(s, w);
      CommitWriteWriters(s, w);
      CleanersFramed(s, s');
    }
  }

  lemma CommitWriteFiles(s: State, w: nat)
    requires Inv(s) && w in s.writers && s.writers[w].phase == Renamed
    ensures FilesAccounted(ApplyCommitWrite(s, w)) && RowsBacked(ApplyCommitWrite(s, w))
  {
    assert WriterOk(s, s.writers[w]);
  }

  lemma CommitWriteWriters(s: State, w: nat)
    requires Inv(s) && w in s.writers && s.writers[w].phase == Renamed
    ensures WritersOk(ApplyCommitWrite(s, w))
  {
    forall v | v in s.writers && v != w
      ensures WriterOk(ApplyCommitWrite(s, w), s.writers[v])
    {
      assert s.writers[v].key.site != s.writers[w].key.site;
    }
  }

  lemma StepAbortWrite(s: State, w: nat, unlinkTemp: bool)
    requires Inv(s)
    ensures Inv(ApplyAbortWrite(s, w, unlinkTemp))
  {
    var s' := ApplyAbortWrite(s, w, unlinkTemp);
    if w in s.writers {
      AbortWriteWriters(s, w, unlinkTemp);
      assert FilesAccounted(s') && RowsBacked(s');
      CleanersFramed(s, s');
    }
  }

  lemma AbortWriteWriters(s: State, w: nat, unlinkTemp: bool)
    requires Inv(s) && w in s.writers
    ensures WritersOk(ApplyAbortWrite(s, w, unlinkTemp))
  {
    forall v | v in s.writers && v != w
      ensures WriterOk(ApplyAbortWrite(s, w, unlinkTemp), s.writers[v])
    {
      assert s.writers[v].key.site != s.writers[w].key.site;
    }
  }

  /** Changing one open cleaner, and nothing else, keeps the invariant. */
  lemma CleanerUpdated(s: State, c: nat, cl: Cleaner)
    requires Inv(s) && CleanerOk(s, cl)
    requires if c in s.cleaners then cl.batch == s.cleaners[c].batch else forall k :: k in cl.batch ==> !TaskLocked(s, k)
    ensures Inv(s.(cleaners := s.cleaners[c := cl]))
  {
    var s' := s.(cleaners := s.cleaners[c := cl]);
    assert FilesAccounted(s') && RowsBacked(s') && WritersOk(s');
    forall d | d in s'.cleaners
      ensures CleanerOk(s', s'.cleaners[d])
    {
      CleanerLooksAtTables(s, s', s'.cleaners[d]);
    }
    CleanersStayApart(s, c, cl);
  }

  lemma CleanerLooksAtTables(s: State, s': State, cl: Cleaner)
    requires CleanerOk(s, cl) && s' == s.(cleaners := s'.cleaners)
    ensures CleanerOk(s', cl)
  {
  }

  lemma CleanersStayApart(s: State, c: nat, cl: Cleaner)
    requires CleanersOk(s)
    requires if c in s.cleaners then cl.batch == s.cleaners[c].batch else forall k :: k in cl.batch ==> !TaskLocked(s, k)
    ensures var cleaners := s.cleaners[c := cl];
      && (forall a, b, k :: a in cleaners && b in cleaners && a != b && k in cleaners[a].batch ==> k !in cleaners[b].batch)
      && (forall a, w :: a in cleaners && w in s.writers ==> s.writers[w].key !in cleaners[a].batch)
  {
  }

  lemma EditOk(s: State, c: nat, edit: Option<Task>)
    requires Inv(s) && (Deciding(s, c) || Removing(s, c))
    requires edit.None? ==> Current(s, c) in s.rows || NoFiles(s, Current(s, c))
    ensures CleanerOk(s, Edit(s.cleaners[c], Current(s, c), edit))
  {
    var cl := s.cleaners[c];
    assert cl.batch[..cl.next + 1] == cl.batch[..cl.next] + [cl.batch[cl.next]];
  }

  lemma StepBeginClean(s: State, c: nat, now: int, batch: seq<Key>)
    requires Inv(s)
    ensures Inv(ApplyBeginClean(s, c, now, batch))
  {
    if ApplyBeginClean(s, c, now, batch) != s {
      CleanerUpdated(s, c, Cleaner(now, batch, 0, false, map[]));
    }
  }

  lemma StepDecide(s: State, c: nat)
    requires Inv(s)
    ensures Inv(ApplyDecide(s, c))
  {
    if Deciding(s, c) && Current(s, c) in s.tasks {
      var k, cl := Current(s, c), s.cleaners[c];
      match Verdict(s, k, s.tasks[k], cl.now)
      case Some(edit) =>
        EditOk(s, c, edit);
        CleanerUpdated(s, c, Edit(cl, k, edit));
      case None =>
        CleanerUpdated(s, c, cl.(removing := true));
    }
  }

  lemma StepUnlinkFinal(s: State, c: nat)
    requires Inv(s)
    ensures Inv(ApplyUnlinkFinal(s, c))
  {
  }

  lemma StepUnlinkTemp(s: State, c: nat, name: nat)
    requires Inv(s)
    ensures Inv(ApplyUnlinkTemp(s, c, name))
  {
  }

  lemma StepRemovalDone(s: State, c: nat)
    requires Inv(s)
    ensures Inv(ApplyRemovalDone(s, c))
  {
    if Removing(s, c) && NoFiles(s, Current(s, c)) {
      EditOk(s, c, None);
      CleanerUpdated(s, c, Edit(s.cleaners[c], Current(s, c), None));
    }
  }

  lemma StepRemovalFailed(s: State, c: nat)
    requires Inv(s)
    ensures Inv(ApplyRemovalFailed(s, c))
  {
    if Removing(s, c) && Current(s, c) in s.tasks {
      var edit := Some(Retried(s.tasks[Current(s, c)], s.cleaners[c].now));
      EditOk(s, c, edit);
      CleanerUpdated(s, c, Edit(s.cleaners[c], Current(s, c), edit));
    }
  }

  lemma StepCommitClean(s: State, c: nat)
    requires Inv(s)
    ensures Inv(ApplyCommitClean(s, c))
  {
    var s' := ApplyCommitClean(s, c);
    if s' != s {
      CommitCleanFiles(s, c);
      CleanersFramed(s, s');
    }
  }

  lemma CommitCleanFiles(s: State, c: nat)
    requires Inv(s) && c in s.cleaners
    ensures var s' := ApplyCommitClean(s, c); FilesAccounted(s') && RowsBacked(s') && WritersOk(s')
  {
    assert CleanerOk(s, s.cleaners[c]);
  }

  lemma StepRetain(s: State, id: nat, now: int, cutoff: int, activeShare: bool)
    requires Inv(s)
    ensures Inv(ApplyRetain(s, id, now, cutoff, activeShare))
  {
    var s' := ApplyRetain(s, id, now, cutoff, activeShare);
    if s' != s {
      var k := Key(s.scans[id].site, id);
      RetainFiles(s, s', k, now);
      RetainWriters(s, s', k, now);
      CleanersFramed(s, s');
    }
  }

  lemma RetainFiles(s: State, s': State, k: Key, now: int)
    requires Inv(s) && s' == s.(tasks := Condemn(s, {k}, now), rows := s.rows - {k}, scans := s.scans - {k.scan})
    requires k.scan in s.scans && s.scans[k.scan].site == k.site
    ensures FilesAccounted(s') && RowsBacked(s')
  {
  }

  lemma RetainWriters(s: State, s': State, k: Key, now: int)
    requires Inv(s) && s' == s.(tasks := Condemn(s, {k}, now), rows := s.rows - {k}, scans := s.scans - {k.scan})
    requires k.scan in s.scans && s.scans[k.scan].site == k.site && !SiteLocked(s, k.site)
    ensures WritersOk(s')
  {
    forall w | w in s.writers
      ensures WriterOk(s', s.writers[w])
    {
      assert WriterOk(s, s.writers[w]) && s.writers[w].key.site != k.site;
    }
  }

  lemma CleanerSurvives(s: State, s': State, site: nat, c: nat)
    requires Inv(s) && c in s.cleaners
    requires forall k :: k in KeysOf(s, site) ==> !Waits(s, k)
    requires forall k :: k in s.tasks ==> k in s'.tasks
    requires forall k :: k in s'.rows <==> k in s.rows && k.site != site
    requires s'.finals == s.finals && s'.temps == s.temps
    ensures CleanerOk(s', s.cleaners[c])
  {
    var cl := s.cleaners[c];
    forall k | k in cl.edits && cl.edits[k].None?
      ensures k in s'.rows || NoFiles(s', k)
    {
      assert k in cl.batch && TaskLocked(s, k);
      assert k in s.rows && k.site == site ==> k in KeysOf(s, site) && Waits(s, k);
    }
  }

  lemma DeleteSiteWriters(s: State, site: nat, now: int)
    requires Inv(s)
    ensures WritersOk(ApplyDeleteSite(s, site, now))
  {
    var s' := ApplyDeleteSite(s, site, now);
    if s' != s {
      forall w | w in s.writers
        ensures WriterOk(s', s.writers[w])
      {
        assert s.writers[w].key.site != site;
      }
    }
  }

  lemma StepDeleteSite(s: State, site: nat, now: int)
    requires Inv(s)
    ensures Inv(ApplyDeleteSite(s, site, now))
  {
    var s' := ApplyDeleteSite(s, site, now);
    if s' != s {
      assert FilesAccounted(s');
      assert RowsBacked(s');
      DeleteSiteWriters(s, site, now);
      forall c | c in s.cleaners
        ensures CleanerOk(s', s.cleaners[c])
      {
        CleanerSurvives(s, s', site, c);
      }
    }
  }

  lemma StepStageOrphan(s: State, k: Key, now: int)
    requires Inv(s)
    ensures Inv(ApplyStageOrphan(s, k, now))
  {
    if k !in s.tasks {
      if TaskLocked(s, k) {
        LockedHasTask(s, k);
      }
      TaskUpdated(s, k, Task(Delete, 0, now));
    }
  }

  lemma StepPutScan(s: State, id: nat, scan: Scan)
    requires Inv(s)
    ensures Inv(ApplyPutScan(s, id, scan))
  {
    var s' := ApplyPutScan(s, id, scan);
    forall k | Scoped(s, k)
      ensures Scoped(s', k)
    {
    }
    ScansChanged(s, s');
  }

  /** Scans and sites may change as long as no key loses its scope. */
  lemma ScansChanged(s: State, s': State)
    requires Inv(s) && s' == s.(scans := s'.scans, sites := s'.sites)
    requires forall k :: Scoped(s, k) ==> Scoped(s', k)
    ensures Inv(s')
  {
    forall w | w in s'.writers
      ensures WriterOk(s', s'.writers[w])
    {
      assert WriterOk(s, s.writers[w]);
    }
    CleanersFramed(s, s');
  }

  lemma WriterStepsKeepInv(s: State, step: Step)
    requires Inv(s) && Acting(step).WriterActor?
    ensures Inv(ApplyWriter(s, step))
  {
    match step
    case OpenTemp(w, name) => StepOpenTemp(s, w, name);
    case Rename(w) => StepRename(s, w);
    case CommitWrite(w) => StepCommitWrite(s, w);
    case AbortWrite(w, unlinkTemp) => StepAbortWrite(s, w, unlinkTemp);
  }

  lemma CleanerStepsKeepInv(s: State, step: Step)
    requires Inv(s) && Acting(step).CleanerActor?
    ensures Inv(ApplyCleaner(s, step))
  {
    match step
    case Decide(c) => StepDecide(s, c);
    case UnlinkFinal(c) => StepUnlinkFinal(s, c);
    case UnlinkTemp(c, name) => StepUnlinkTemp(s, c, name);
    case RemovalDone(c) => StepRemovalDone(s, c);
    case RemovalFailed(c) => StepRemovalFailed(s, c);
    case CommitClean(c) => StepCommitClean(s, c);
    case AbortClean(c) => StepAbortClean(s, c);
  }

  lemma StepAbortClean(s: State, c: nat)
    requires Inv(s)
    ensures Inv(s.(cleaners := s.cleaners - {c}))
  {
  }

  lemma TableStepsKeepInv(s: State, step: Step)
    requires Inv(s) && Acting(step).Nobody?
    ensures Inv(ApplyTables(s, step))
  {
    match step
    case AddSite(site) => ScansChanged(s, s.(sites := s.sites + {site}));
    case PutScan(id, scan) => StepPutScan(s, id, scan);
    case Reserve(key, now) => StepReserve(s, key, now);
    case BeginWrite(w, key, data) => StepBeginWrite(s, w, key, data);
    case BeginClean(c, now, batch) => StepBeginClean(s, c, now, batch);
    case Retain(id, now, cutoff, activeShare) => StepRetain(s, id, now, cutoff, activeShare);
    case DeleteSite(site, now) => StepDeleteSite(s, site, now);
    case StageOrphan(key, now) => StepStageOrphan(s, key, now);
  }

  lemma StepKeepsInv(s: State, step: Step)
    requires Inv(s)
    ensures Inv(Apply(s, step))
  {
    match Acting(step)
    case WriterActor(_) => WriterStepsKeepInv(s, step);
    case CleanerActor(_) => CleanerStepsKeepInv(s, step);
    case Nobody => TableStepsKeepInv(s, step);
  }

  lemma {:induction false} RunConcat(s: State, a: seq<Step>, b: seq<Step>)
    ensures Run(s, a + b) == Run(Run(s, a), b)
    decreases |a|
  {
    if a == [] {
      assert a + b == b;
    } else {
      assert (a + b)[1..] == a[1..] + b;
      RunConcat(Apply(s, a[0]), a[1..], b);
    }
  }

  /** One more step of a run. */
  lemma RunStep(s: State, steps: seq<Step>, step: Step)
    ensures Run(s, steps + [step]) == Apply(Run(s, steps), step)
  {
    RunConcat(s, steps, [step]);
    assert Run(Run(s, steps), [step]) == Run(Apply(Run(s, steps), step), []);
  }

  lemma {:induction false} RunKeepsInv(s: State, steps: seq<Step>)
    requires Inv(s)
    ensures Inv(Run(s, steps))
    decreases |steps|
  {
    if steps != [] {
      StepKeepsInv(s, steps[0]);
      RunKeepsInv(Apply(s, steps[0]), steps[1..]);
    }
  }

  /** In every interleaving with crashes anywhere: each key with a file has a row or a task,
      and each row has its file. */
  lemma Safety(steps: seq<Step>)
    ensures FilesAccounted(Run(INIT, steps)) && RowsBacked(Run(INIT, steps))
  {
    RunKeepsInv(INIT, steps);
  }

  /** Once the journal is empty, the final files are exactly those of the rows: nothing leaks and nothing is missing. */
  lemma NothingLeaks(steps: seq<Step>)
    requires Run(INIT, steps).tasks == map[]
    ensures var s := Run(INIT, steps);
      s.finals.Keys == s.rows.Keys && forall t :: t in s.temps ==> t.0 in s.rows
  {
    RunKeepsInv(INIT, steps);
  }

  // ----- What the locks protect -----

  /** Everything the journal knows about a key is as before. */
  ghost predicate KeyUntouched(s: State, s': State, k: Key) {
    && (k in s'.rows <==> k in s.rows) && (k in s.rows ==> s'.rows[k] == s.rows[k])
    && (k in s'.tasks <==> k in s.tasks) && (k in s.tasks ==> s'.tasks[k] == s.tasks[k])
    && (k in s'.finals <==> k in s.finals) && (k in s.finals ==> s'.finals[k] == s.finals[k])
    && forall n :: (k, n) in s'.temps <==> (k, n) in s.temps
  }

  /** The actor is the open transaction that holds the task of `k`. */
  predicate Holds(s: State, a: Actor, k: Key) {
    match a
    case WriterActor(w) => w in s.writers && s.writers[w].key == k
    case CleanerActor(c) => c in s.cleaners && k in s.cleaners[c].batch
    case Nobody => false
  }

  lemma CommitCleanKeepsKey(s: State, c: nat, k: Key)
    requires Inv(s) && !Holds(s, CleanerActor(c), k)
    ensures KeyUntouched(s, ApplyCommitClean(s, c), k)
  {
  }

  lemma RetainKeepsKey(s: State, id: nat, now: int, cutoff: int, activeShare: bool, k: Key)
    requires k in s.tasks && TaskLocked(s, k)
    ensures KeyUntouched(s, ApplyRetain(s, id, now, cutoff, activeShare), k)
  {
  }

  lemma DeleteSiteKeepsKey(s: State, site: nat, now: int, k: Key)
    requires k in s.tasks && TaskLocked(s, k)
    ensures KeyUntouched(s, ApplyDeleteSite(s, site, now), k)
  {
    if ApplyDeleteSite(s, site, now) != s && k.site == site {
      assert k in KeysOf(s, site) && !Waits(s, k);
      assert !Condemned(s, k);
    }
  }

  lemma WriterStepKeepsKey(s: State, step: Step, k: Key)
    requires Acting(step).WriterActor? && !Holds(s, Acting(step), k)
    ensures KeyUntouched(s, ApplyWriter(s, step), k)
  {
  }

  lemma CleanerStepKeepsKey(s: State, step: Step, k: Key)
    requires Inv(s) && Acting(step).CleanerActor? && !Holds(s, Acting(step), k)
    ensures KeyUntouched(s, ApplyCleaner(s, step), k)
  {
    if step.CommitClean? {
      CommitCleanKeepsKey(s, step.c, k);
    } else if step.UnlinkFinal? || step.UnlinkTemp? {
      UnlinkKeepsKey(s, step, k);
    } else {
      VerdictsTouchNothing(s, step);
    }
  }

  lemma UnlinkKeepsKey(s: State, step: Step, k: Key)
    requires (step.UnlinkFinal? || step.UnlinkTemp?) && !Holds(s, CleanerActor(step.c), k)
    ensures KeyUntouched(s, ApplyCleaner(s, step), k)
  {
    assert Removing(s, step.c) ==> Current(s, step.c) in s.cleaners[step.c].batch;
  }

  /** The cleaner's verdicts stay in its own transaction until it commits. */
  lemma VerdictsTouchNothing(s: State, step: Step)
    requires step.Decide? || step.RemovalDone? || step.RemovalFailed? || step.AbortClean?
    ensures ApplyCleaner(s, step) == s.(cleaners := ApplyCleaner(s, step).cleaners)
  {
  }

  lemma ReserveKeepsKey(s: State, k: Key, key: Key, now: int)
    requires TaskLocked(s, k) && k in s.tasks
    ensures KeyUntouched(s, ApplyReserve(s, key, now), k)
    ensures KeyUntouched(s, ApplyStageOrphan(s, key, now), k)
  {
  }

  /** Opening a transaction and changing scans or sites touches no key. */
  lemma NoKeyTouched(s: State, step: Step, k: Key)
    requires step.AddSite? || step.PutScan? || step.BeginWrite? || step.BeginClean?
    ensures KeyUntouched(s, ApplyTables(s, step), k)
  {
  }

  lemma OtherStepKeepsKey(s: State, step: Step, k: Key)
    requires TaskLocked(s, k) && k in s.tasks && Acting(step).Nobody?
    ensures KeyUntouched(s, ApplyTables(s, step), k)
  {
    match step
    case Retain(id, now, cutoff, activeShare) => RetainKeepsKey(s, id, now, cutoff, activeShare, k);
    case DeleteSite(site, now) => DeleteSiteKeepsKey(s, site, now, k);
    case Reserve(key, now) => ReserveKeepsKey(s, k, key, now);
    case StageOrphan(key, now) => ReserveKeepsKey(s, k, key, now);
    case _ => NoKeyTouched(s, step, k);
  }

  lemma LockedHasTask(s: State, k: Key)
    requires Inv(s) && TaskLocked(s, k)
    ensures k in s.tasks
  {
    if w :| w in s.writers && s.writers[w].key == k {
      assert WriterOk(s, s.writers[w]);
    } else {
      var c :| c in s.cleaners && k in s.cleaners[c].batch;
      assert CleanerOk(s, s.cleaners[c]);
    }
  }

  /** A locked task shields everything about its key from every other transaction. */
  lemma KeyIsolated(s: State, step: Step, k: Key)
    requires Inv(s) && TaskLocked(s, k) && !Holds(s, Acting(step), k)
    ensures KeyUntouched(s, Apply(s, step), k)
  {
    LockedHasTask(s, k);
    match Acting(step)
    case WriterActor(_) => WriterStepKeepsKey(s, step, k);
    case CleanerActor(_) => CleanerStepKeepsKey(s, step, k);
    case Nobody => OtherStepKeepsKey(s, step, k);
  }

  /** Open transactions change neither scans nor sites. */
  lemma OnlyTablesChangeScans(s: State, step: Step)
    ensures Acting(step).WriterActor? ==> ApplyWriter(s, step).scans == s.scans && ApplyWriter(s, step).sites == s.sites
    ensures Acting(step).CleanerActor? ==> ApplyCleaner(s, step).scans == s.scans && ApplyCleaner(s, step).sites == s.sites
  {
    if Acting(step).WriterActor? {
      WritersKeepScans(s, step);
    } else if Acting(step).CleanerActor? {
      CleanersKeepScans(s, step);
    }
  }

  lemma WritersKeepScans(s: State, step: Step)
    requires Acting(step).WriterActor?
    ensures ApplyWriter(s, step).scans == s.scans && ApplyWriter(s, step).sites == s.sites
  {
  }

  lemma CleanersKeepScans(s: State, step: Step)
    requires Acting(step).CleanerActor?
    ensures ApplyCleaner(s, step).scans == s.scans && ApplyCleaner(s, step).sites == s.sites
  {
  }

  lemma TablesKeepScope(s: State, step: Step, k: Key)
    requires Scoped(s, k) && SiteLocked(s, k.site) && ScanLocked(s, k.scan) && Acting(step).Nobody?
    ensures Scoped(ApplyTables(s, step), k) && ApplyTables(s, step).scans[k.scan] == s.scans[k.scan]
  {
  }

  /** A locked site is neither deleted nor are its locked scans changed. */
  lemma ScopeKept(s: State, step: Step, k: Key)
    requires Scoped(s, k) && SiteLocked(s, k.site) && ScanLocked(s, k.scan)
    ensures Scoped(Apply(s, step), k) && Apply(s, step).scans[k.scan] == s.scans[k.scan]
  {
    OnlyTablesChangeScans(s, step);
    if Acting(step).Nobody? {
      TablesKeepScope(s, step, k);
    }
  }

  lemma WriterKept(s: State, step: Step, w: nat)
    requires w in s.writers && Acting(step) != WriterActor(w)
    ensures w in Apply(s, step).writers && Apply(s, step).writers[w] == s.writers[w]
  {
    if Acting(step).CleanerActor? {
      CleanersKeepWriters(s, step);
    }
  }

  lemma CleanersKeepWriters(s: State, step: Step)
    requires Acting(step).CleanerActor?
    ensures ApplyCleaner(s, step).writers == s.writers
  {
  }

  /** While a writer holds its locks, no other step touches its key, its scan or its phase. */
  lemma WriterIsolated(s: State, step: Step, w: nat)
    requires Inv(s) && w in s.writers && Acting(step) != WriterActor(w)
    ensures var s', k := Apply(s, step), s.writers[w].key;
      && w in s'.writers && s'.writers[w] == s.writers[w]
      && Scoped(s', k) && s'.scans[k.scan] == s.scans[k.scan]
      && KeyUntouched(s, s', k)
  {
    assert WriterOk(s, s.writers[w]);
    WriterKept(s, step, w);
    ScopeKept(s, step, s.writers[w].key);
    KeyIsolated(s, step, s.writers[w].key);
  }

  lemma CleanerKept(s: State, step: Step, c: nat)
    requires c in s.cleaners && Acting(step) != CleanerActor(c)
    ensures c in Apply(s, step).cleaners && Apply(s, step).cleaners[c] == s.cleaners[c]
  {
    match Acting(step)
    case WriterActor(_) => assert ApplyWriter(s, step).cleaners == s.cleaners;
    case CleanerActor(_) => OtherCleanersKept(s, step, c);
    case Nobody => assert c in ApplyTables(s, step).cleaners;
  }

  lemma OtherCleanersKept(s: State, step: Step, c: nat)
    requires c in s.cleaners && Acting(step).CleanerActor? && step.c != c
    ensures c in ApplyCleaner(s, step).cleaners && ApplyCleaner(s, step).cleaners[c] == s.cleaners[c]
  {
  }

  /** While a cleaner holds a task, no other step touches the key; only its scan may change. */
  lemma CleanerIsolated(s: State, step: Step, c: nat, k: Key)
    requires Inv(s) && c in s.cleaners && k in s.cleaners[c].batch && Acting(step) != CleanerActor(c)
    ensures var s' := Apply(s, step);
      c in s'.cleaners && s'.cleaners[c] == s.cleaners[c] && KeyUntouched(s, s', k)
  {
    CleanerKept(s, step, c);
    KeyIsolated(s, step, k);
  }

  lemma CleanerSparesReferenced(s: State, step: Step, k: Key)
    requires Inv(s) && k in s.rows && Acting(step).CleanerActor?
    ensures k in ApplyCleaner(s, step).finals && ApplyCleaner(s, step).finals[k] == s.finals[k]
  {
    if step.UnlinkFinal? && Removing(s, step.c) {
      assert CleanerOk(s, s.cleaners[step.c]);
    }
  }

  lemma OnlyRenameWritesFinals(s: State, step: Step, k: Key)
    requires k in s.finals && Acting(step).WriterActor?
    ensures k in ApplyWriter(s, step).finals
    ensures ApplyWriter(s, step).finals[k] != s.finals[k] ==> step.Rename? && step.w in s.writers && s.writers[step.w].key == k
  {
  }

  lemma TablesKeepFinals(s: State, step: Step)
    requires Acting(step).Nobody?
    ensures ApplyTables(s, step).finals == s.finals
  {
  }

  /** The file of a key with a row is never removed, and only a writer's rename changes its bytes. */
  lemma ReferencedFileSurvives(s: State, step: Step, k: Key)
    requires Inv(s) && k in s.rows
    ensures k in Apply(s, step).finals
    ensures Apply(s, step).finals[k] != s.finals[k] ==>
      step.Rename? && step.w in s.writers && s.writers[step.w].key == k
  {
    match Acting(step)
    case WriterActor(_) => OnlyRenameWritesFinals(s, step, k);
    case CleanerActor(_) => CleanerSparesReferenced(s, step, k);
    case Nobody => TablesKeepFinals(s, step);
  }

  // ----- When a row's digest matches its file -----

  /** A row describes its file, unless a writer is between its rename and its commit. */
  ghost predicate DigestsAgree(s: State) {
    forall k :: k in s.rows && k in s.finals ==> s.rows[k] == s.finals[k] || MidWrite(s, k)
  }

  ghost predicate MidWrite(s: State, k: Key) {
    exists w :: w in s.writers && s.writers[w].key == k && s.writers[w].phase.Renamed?
  }

  /** The step kills a writer that has replaced the bytes of an existing row by other bytes. */
  predicate Tears(s: State, step: Step) {
    && step.AbortWrite? && step.w in s.writers && s.writers[step.w].phase.Renamed?
    && var wr := s.writers[step.w]; wr.key in s.rows && s.rows[wr.key] != wr.data
  }

  lemma RenameKeepsDigests(s: State, w: nat)
    requires Inv(s) && DigestsAgree(s)
    ensures DigestsAgree(ApplyRename(s, w))
  {
    var s' := ApplyRename(s, w);
    if s' != s {
      var key := s.writers[w].key;
      assert w in s'.writers && s'.writers[w].key == key && s'.writers[w].phase.Renamed?;
      forall k | k in s'.rows && k in s'.finals
        ensures s'.rows[k] == s'.finals[k] || MidWrite(s', k)
      {
        if k != key && s.rows[k] != s.finals[k] {
          var v :| v in s.writers && s.writers[v].key == k && s.writers[v].phase.Renamed?;
          assert s'.writers[v] == s.writers[v];
        }
      }
    }
  }

  lemma WriterExitDigests(s: State, step: Step)
    requires Inv(s) && DigestsAgree(s) && (step.CommitWrite? || step.AbortWrite?)
    ensures DigestsAgree(Apply(s, step)) <==> !Tears(s, step)
  {
    var s' := Apply(s, step);
    if step.w in s.writers && s' != s {
      var wr := s.writers[step.w];
      assert WriterOk(s, wr);
      forall k | k != wr.key && MidWrite(s, k)
        ensures MidWrite(s', k)
      {
        OtherWriterStays(s, step, k);
      }
      NobodyElseWrites(s, step);
    }
  }

  lemma OtherWriterStays(s: State, step: Step, k: Key)
    requires (step.CommitWrite? || step.AbortWrite?) && step.w in s.writers && k != s.writers[step.w].key && MidWrite(s, k)
    ensures MidWrite(Apply(s, step), k)
  {
    var v :| v in s.writers && s.writers[v].key == k && s.writers[v].phase.Renamed?;
    assert v in Apply(s, step).writers && Apply(s, step).writers[v] == s.writers[v];
  }

  lemma NobodyElseWrites(s: State, step: Step)
    requires Inv(s) && (step.CommitWrite? || step.AbortWrite?) && step.w in s.writers && Apply(s, step) != s
    ensures !MidWrite(Apply(s, step), s.writers[step.w].key)
  {
    var s' := Apply(s, step);
    forall v | v in s'.writers
      ensures s'.writers[v].key != s.writers[step.w].key
    {
      assert s.writers[v].key.site != s.writers[step.w].key.site;
    }
  }

  lemma OnlyCommitAddsRows(s: State, step: Step, k: Key)
    requires !step.CommitWrite? && k in Apply(s, step).rows
    ensures k in s.rows && Apply(s, step).rows[k] == s.rows[k]
  {
    match Acting(step)
    case WriterActor(_) => WritersKeepRows(s, step);
    case CleanerActor(_) => CleanersKeepRows(s, step);
    case Nobody => TablesOnlyRemoveRows(s, step, k);
  }

  lemma WritersKeepRows(s: State, step: Step)
    requires Acting(step).WriterActor? && !step.CommitWrite?
    ensures ApplyWriter(s, step).rows == s.rows
  {
  }

  lemma CleanersKeepRows(s: State, step: Step)
    requires Acting(step).CleanerActor?
    ensures ApplyCleaner(s, step).rows == s.rows
  {
  }

  lemma TablesOnlyRemoveRows(s: State, step: Step, k: Key)
    requires Acting(step).Nobody? && k in ApplyTables(s, step).rows
    ensures k in s.rows && ApplyTables(s, step).rows[k] == s.rows[k]
  {
  }

  lemma OtherStepKeepsDigests(s: State, step: Step)
    requires Inv(s) && DigestsAgree(s) && !step.Rename? && !step.CommitWrite? && !step.AbortWrite?
    ensures DigestsAgree(Apply(s, step))
  {
    var s' := Apply(s, step);
    forall k | k in s'.rows && k in s'.finals
      ensures s'.rows[k] == s'.finals[k] || MidWrite(s', k)
    {
      OnlyCommitAddsRows(s, step, k);
      ReferencedFileSurvives(s, step, k);
      if s.rows[k] != s.finals[k] {
        var v :| v in s.writers && s.writers[v].key == k && s.writers[v].phase.Renamed?;
        RenamedWriterKept(s, step, v);
      }
    }
  }

  lemma RenamedWriterKept(s: State, step: Step, v: nat)
    requires v in s.writers && s.writers[v].phase.Renamed? && !step.CommitWrite? && !step.AbortWrite?
    ensures v in Apply(s, step).writers && Apply(s, step).writers[v] == s.writers[v]
  {
    if Acting(step) != WriterActor(v) {
      WriterKept(s, step, v);
    }
  }

  /** The digests stay right exactly as long as no writer dies after replacing other bytes. */
  lemma DigestsAgreeUntilTorn(s: State, step: Step)
    requires Inv(s) && DigestsAgree(s)
    ensures DigestsAgree(Apply(s, step)) <==> !Tears(s, step)
  {
    if step.Rename? {
      RenameKeepsDigests(s, step.w);
    } else if step.CommitWrite? || step.AbortWrite? {
      WriterExitDigests(s, step);
    } else {
      OtherStepKeepsDigests(s, step);
    }
  }

  /** The first write stores byte 1, a second one dies after its rename: the row still says 1. */
  lemma TornRun() returns (steps: seq<Step>)
    ensures var s, k := Run(INIT, steps), Key(0, 0);
      k in s.rows && s.rows[k] == 1 && k in s.finals && s.finals[k] == 2 && !DigestsAgree(s)
  {
    var k, scan := Key(0, 0), Scan(0, Completed, false, None);
    var setup := [AddSite(0), PutScan(0, scan)];
    RunStep(INIT, [], setup[0]);
    RunStep(INIT, [setup[0]], setup[1]);
    var s := State({0}, map[0 := scan], map[], map[], map[], {}, map[], map[]);
    assert [] + [setup[0]] == [setup[0]] && [setup[0]] + [setup[1]] == setup;
    assert Run(INIT, setup) == s;
    var first := [Reserve(k, 0), BeginWrite(0, k, 1), OpenTemp(0, 0), Rename(0), CommitWrite(0)];
    var second := [Reserve(k, 0), BeginWrite(0, k, 2), OpenTemp(0, 1), Rename(0), AbortWrite(0, false)];
    WriteAlone(s, k, 1, 0, CommitWrite(0));
    var s' := Run(s, first);
    WriteAlone(s', k, 2, 1, AbortWrite(0, false));
    steps := setup + first + second;
    RunConcat(INIT, setup + first, second);
    RunConcat(INIT, setup, first);
  }

  /** The steps of an undisturbed write, up to its commit or its death after the rename. */
  lemma WriteAlone(s: State, k: Key, data: Bytes, name: nat, last: Step)
    requires Scoped(s, k) && s.scans[k.scan].status == Completed && s.writers == map[] && s.cleaners == map[]
    requires k !in s.tasks && s.temps == {} && last in {CommitWrite(0), AbortWrite(0, false)}
    ensures var s' := Run(s, [Reserve(k, 0), BeginWrite(0, k, data), OpenTemp(0, name), Rename(0), last]);
      && s'.finals == s.finals[k := data] && s'.temps == {} && s'.writers == map[] && s'.cleaners == map[]
      && s'.sites == s.sites && s'.scans == s.scans
      && (last.CommitWrite? ==> s'.rows == s.rows[k := data] && k !in s'.tasks)
      && (last.AbortWrite? ==> s'.rows == s.rows && k in s'.tasks)
  {
    var steps := [Reserve(k, 0), BeginWrite(0, k, data), OpenTemp(0, name), Rename(0), last];
    Run5(s, steps);
    var s1 := s.(tasks := s.tasks[k := Task(WriteIntent, 0, WRITE_GRACE)]);
    Opened(s, k, data);
    WriteAndRename(s1, k, data, name);
  }

  lemma Opened(s: State, k: Key, data: Bytes)
    requires Scoped(s, k) && s.scans[k.scan].status == Completed && s.writers == map[] && s.cleaners == map[] && k !in s.tasks
    ensures var s1 := s.(tasks := s.tasks[k := Task(WriteIntent, 0, WRITE_GRACE)]);
      && Apply(s, Reserve(k, 0)) == s1
      && Apply(s1, BeginWrite(0, k, data)) == s1.(writers := map[0 := Writer(k, data, Locked)])
  {
  }

  lemma WriteAndRename(s: State, k: Key, data: Bytes, name: nat)
    requires s.writers == map[] && s.temps == {}
    ensures
      var s1 := ApplyOpenTemp(s.(writers := map[0 := Writer(k, data, Locked)]), 0, name);
      var s2 := ApplyRename(s1, 0);
      && s2 == s.(finals := s.finals[k := data], writers := map[0 := Writer(k, data, Renamed)])
      && ApplyAbortWrite(s2, 0, false) == s.(finals := s.finals[k := data])
      && ApplyCommitWrite(s2, 0) == s.(finals := s.finals[k := data], rows := s.rows[k := data], tasks := s.tasks - {k})
  {
    assert map[0 := Writer(k, data, Renamed)] - {0} == map[];
    assert {(k, name)} - {(k, name)} == {};
  }

  lemma Run5(s: State, t: seq<Step>)
    requires |t| == 5
    ensures Run(s, t) == Apply(Apply(Apply(Apply(Apply(s, t[0]), t[1]), t[2]), t[3]), t[4])
  {
    RunStep(s, t[..0], t[0]);
    RunStep(s, t[..1], t[1]);
    RunStep(s, t[..2], t[2]);
    RunStep(s, t[..3], t[3]);
    RunStep(s, t[..4], t[4]);
    assert t[..0] + [t[0]] == t[..1] && t[..1] + [t[1]] == t[..2] && t[..2] + [t[2]] == t[..3];
    assert t[..3] + [t[3]] == t[..4] && t[..4] + [t[4]] == t;
  }
}
