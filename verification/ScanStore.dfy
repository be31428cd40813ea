/** The scan tables and the loops of the dispatch coordinator, which run while other processes
    take any steps in between. */
module ScanStore {
  import opened Common
  import opened ScanLifecycle

  /** `a` comes before `b` in the order by time and then identifier. */
  predicate Earlier(a: (int, nat), b: (int, nat)) {
    a.0 < b.0 || (a.0 == b.0 && a.1 < b.1)
  }

  /** `rows` are the first `limit` members of `ids` in the order of `at`. */
  ghost predicate FirstOf(ids: set<nat>, at: map<nat, int>, limit: nat, rows: seq<nat>)
    requires ids <= at.Keys
  {
    && |rows| <= limit
    && (forall id :: id in rows ==> id in ids)
    && (forall i, j :: 0 <= i < j < |rows| ==> Earlier((at[rows[i]], rows[i]), (at[rows[j]], rows[j])))
    && (forall id :: id in ids && id !in rows ==>
         |rows| == limit && forall r :: r in rows ==> Earlier((at[r], r), (at[id], id)))
  }

  method Least(ids: set<nat>, at: map<nat, int>) returns (least: nat)
    requires ids != {} && ids <= at.Keys
    ensures least in ids && forall id :: id in ids && id != least ==> Earlier((at[least], least), (at[id], id))
  {
    least :| least in ids;
    var rest := ids - {least};
    while rest != {}
      invariant rest <= ids && least in ids - rest
      invariant forall id :: id in ids - rest && id != least ==> Earlier((at[least], least), (at[id], id))
      decreases rest
    {
      var id :| id in rest;
      if Earlier((at[id], id), (at[least], least)) {
        least := id;
      }
      rest := rest - {id};
    }
  }

  method First(ids: set<nat>, at: map<nat, int>, limit: nat) returns (rows: seq<nat>)
    requires ids <= at.Keys
    ensures FirstOf(ids, at, limit, rows)
  {
    rows := [];
    var rest := ids;
    while |rows| < limit && rest != {}
      invariant |rows| <= limit && rest <= ids
      invariant forall id :: id in ids <==> id in rest || id in rows
      invariant forall i :: 0 <= i < |rows| ==> rows[i] !in rest
      invariant forall i, j :: 0 <= i < j < |rows| ==> Earlier((at[rows[i]], rows[i]), (at[rows[j]], rows[j]))
      invariant forall i, id :: 0 <= i < |rows| && id in rest ==> Earlier((at[rows[i]], rows[i]), (at[id], id))
      decreases rest
    {
      var id := Least(rest, at);
      rows := rows + [id];
      rest := rest - {id};
    }
  }

  datatype Claimed = Claimed(id: nat, claim: nat)

  /** How handing a job to the queue ends; the last one fails to record its success. */
  datatype Enqueue = Accepted | Refused | AcceptedUnrecorded

  datatype DispatchResult = DispatchResult(attempted: nat, dispatched: nat, deferred: nat, cancelled: nat)

  datatype Presence = Present | Absent | Unreachable

  datatype Reconciled = Reconciled(checked: nat, restored: nat, inspectionFailed: nat)

  /** None of the steps touches the scan. */
  ghost predicate Spares(steps: seq<Step>, id: nat) {
    forall i :: 0 <= i < |steps| ==>
      match steps[i]
      case Write(other, _) => other != id
      case Create(other, _, _, _, _) => other != id
      case Delete(other) => other != id
      case Fence(_, _) => false
  }

  lemma {:induction false} SparedStays(s: State, steps: seq<Step>, id: nat)
    requires Spares(steps, id)
    ensures id in Run(s, steps).scans <==> id in s.scans
    ensures id in s.scans ==> Run(s, steps).scans[id] == s.scans[id]
    decreases |steps|
  {
    if steps != [] {
      SparedStays(s, steps[..|steps| - 1], id);
    }
  }

  /** The steps others take before this process's k-th next step. */
  function Turn(env: seq<seq<Step>>, k: nat): seq<Step> {
    if k < |env| then env[k] else []
  }

  ghost predicate AllSpare(env: seq<seq<Step>>, id: nat) {
    forall k: nat :: Spares(Turn(env, k), id)
  }

  /** Nobody interferes with any of the scans. */
  ghost predicate Quiet(env: seq<seq<Step>>, ids: seq<nat>) {
    forall i :: 0 <= i < |ids| ==> AllSpare(env, ids[i])
  }

  function IdsOf(claims: seq<Claimed>): seq<nat> {
    seq(|claims|, i requires 0 <= i < |claims| => claims[i].id)
  }

  function EnqueueOf(enqueues: map<nat, Enqueue>, id: nat): Enqueue {
    if id in enqueues then enqueues[id] else Accepted
  }

  /** The dispatch after its claimant has settled it. */
  function SettledAs(scan: Scan, claim: nat, e: Enqueue, now: int): Scan {
    if e == Accepted then ActMarkDispatched(scan, claim) else ActMarkRetry(scan, claim, now)
  }

  /** How far the claimant has come with one of its claims. */
  ghost predicate Progress(scan: Scan, c: Claimed, e: Enqueue, now: int, settled: bool) {
    if !settled then HeldBy(scan, c.claim)
    else
      && scan.dispatch.Some? && scan.dispatch.value.attempts == c.claim && scan.dispatch.value.lease == None
      && (if e == Accepted then scan.dispatch.value.status == Dispatched
          else scan.dispatch.value.status == Pending && scan.dispatch.value.due == now + RetryDelay(c.claim))
  }

  ghost predicate AllProgress(
    scans: map<nat, Scan>, claims: seq<Claimed>, n: nat, enqueues: map<nat, Enqueue>, env: seq<seq<Step>>, now: int)
  {
    forall i :: 0 <= i < |claims| && AllSpare(env, claims[i].id) ==>
      && claims[i].id in scans
      && Progress(scans[claims[i].id], claims[i], EnqueueOf(enqueues, claims[i].id), now, i < n)
  }

  lemma ProgressSpared(
    s: State, claims: seq<Claimed>, n: nat, enqueues: map<nat, Enqueue>, env: seq<seq<Step>>, now: int, k: nat)
    requires AllProgress(s.scans, claims, n, enqueues, env, now)
    ensures AllProgress(Run(s, Turn(env, k)).scans, claims, n, enqueues, env, now)
  {
    var s' := Run(s, Turn(env, k));
    forall i | 0 <= i < |claims| && AllSpare(env, claims[i].id)
      ensures claims[i].id in s'.scans
      ensures Progress(s'.scans[claims[i].id], claims[i], EnqueueOf(enqueues, claims[i].id), now, i < n)
    {
      SparedStays(s, Turn(env, k), claims[i].id);
    }
  }

  lemma ProgressNext(
    scans: map<nat, Scan>, scans': map<nat, Scan>, claims: seq<Claimed>, n: nat, enqueues: map<nat, Enqueue>,
    env: seq<seq<Step>>, now: int)
    requires n < |claims| && AllProgress(scans, claims, n, enqueues, env, now)
    requires forall i, j :: 0 <= i < j < |claims| ==> claims[i].id != claims[j].id
    requires forall id :: id in scans ==> id in scans' && (id != claims[n].id ==> scans'[id] == scans[id])
    requires var c := claims[n];
      c.id in scans ==> scans'[c.id] == SettledAs(scans[c.id], c.claim, EnqueueOf(enqueues, c.id), now)
    ensures AllProgress(scans', claims, n + 1, enqueues, env, now)
  {
    forall i | 0 <= i < |claims| && AllSpare(env, claims[i].id)
      ensures claims[i].id in scans'
      ensures Progress(scans'[claims[i].id], claims[i], EnqueueOf(enqueues, claims[i].id), now, i < n + 1)
    {
      assert Progress(scans[claims[i].id], claims[i], EnqueueOf(enqueues, claims[i].id), now, i < n);
    }
  }

  lemma FreshClaims(
    scans: map<nat, Scan>, scans': map<nat, Scan>, rows: seq<nat>, context: map<nat, Context>, claims: seq<Claimed>,
    enqueues: map<nat, Enqueue>, env: seq<seq<Step>>, now: int)
    requires GoodClaims(scans, scans', rows, context, claims)
    ensures AllProgress(scans', claims, 0, enqueues, env, now)
  {
    forall i | 0 <= i < |claims|
      ensures claims[i].id in scans' && HeldBy(scans'[claims[i].id], claims[i].claim)
    {
      assert claims[i] in claims;
    }
  }

  function Deferrals(claims: seq<Claimed>, n: nat, enqueues: map<nat, Enqueue>): nat
    requires n <= |claims|
  {
    if n == 0 then 0
    else Deferrals(claims, n - 1, enqueues) + if EnqueueOf(enqueues, claims[n - 1].id) == Accepted then 0 else 1
  }

  lemma DeferralsNext(claims: seq<Claimed>, i: nat, enqueues: map<nat, Enqueue>)
    requires i < |claims|
    ensures Deferrals(claims, i + 1, enqueues)
      == Deferrals(claims, i, enqueues) + if EnqueueOf(enqueues, claims[i].id) == Accepted then 0 else 1
  {
  }

  function PresenceOf(presence: map<nat, Presence>, id: nat): Presence {
    if id in presence then presence[id] else Absent
  }

  /** Restored exactly if its job is gone. */
  ghost predicate Checked(scan: Scan, scan': Scan, p: Presence, now: int, done: bool) {
    scan' == if done && p == Absent then ActRestore(scan, now) else scan
  }

  function AskedAs(presence: map<nat, Presence>, rows: seq<nat>, n: nat, p: Presence): nat
    requires n <= |rows|
  {
    if n == 0 then 0 else AskedAs(presence, rows, n - 1, p) + if PresenceOf(presence, rows[n - 1]) == p then 1 else 0
  }

  lemma AskedNext(presence: map<nat, Presence>, rows: seq<nat>, i: nat, p: Presence)
    requires i < |rows|
    ensures AskedAs(presence, rows, i + 1, p) == AskedAs(presence, rows, i, p) + if PresenceOf(presence, rows[i]) == p then 1 else 0
  {
  }

  /** Queued scans whose dispatch says that the queue has them. */
  function DispatchedIds(scans: map<nat, Scan>): set<nat> {
    set id | id in scans && scans[id].status == Queued && scans[id].dispatch.Some?
      && scans[id].dispatch.value.status == Dispatched
  }

  /** Identifiers stand for the order in which scans were queued. */
  function InOrder(scans: map<nat, Scan>): map<nat, int> {
    map id | id in scans :: 0
  }

  ghost predicate AllChecked(
    scans: map<nat, Scan>, scans': map<nat, Scan>, rows: seq<nat>, n: nat, presence: map<nat, Presence>,
    env: seq<seq<Step>>, now: int)
  {
    forall i :: 0 <= i < |rows| && AllSpare(env, rows[i]) ==>
      && rows[i] in scans && rows[i] in scans'
      && Checked(scans[rows[i]], scans'[rows[i]], PresenceOf(presence, rows[i]), now, i < n)
  }

  lemma CheckedSpared(
    scans: map<nat, Scan>, s: State, rows: seq<nat>, n: nat, presence: map<nat, Presence>, env: seq<seq<Step>>, now: int, k: nat)
    requires AllChecked(scans, s.scans, rows, n, presence, env, now)
    ensures AllChecked(scans, Run(s, Turn(env, k)).scans, rows, n, presence, env, now)
  {
    forall i | 0 <= i < |rows| && AllSpare(env, rows[i])
      ensures rows[i] in Run(s, Turn(env, k)).scans && Run(s, Turn(env, k)).scans[rows[i]] == s.scans[rows[i]]
    {
      SparedStays(s, Turn(env, k), rows[i]);
    }
  }

  class Store {
    var scans: map<nat, Scan>
    var used: set<nat>
    /** Every step taken so far, by anyone. */
    ghost var log: seq<Step>

    function View(): State
      reads this
    {
      State(scans, used)
    }

    ghost predicate Valid()
      reads this
    {
      View() == Run(INIT, log)
    }

    constructor ()
      ensures Valid() && View() == INIT && log == []
    {
      scans, used, log := map[], {}, [];
    }

    ghost method Took(step: Step)
      requires View() == Apply(Run(INIT, log), step)
      modifies this`log
      ensures Valid() && log == old(log) + [step]
    {
      ghost var longer := log + [step];
      assert longer[..|log|] == log;
      log := longer;
    }

    /** Other processes take the steps `env`. */
    method Others(env: seq<Step>)
      requires Valid()
      modifies this
      ensures Valid() && View() == Run(old(View()), env) && log == old(log) + env
    {
      RunConcat(INIT, log, env);
      var s := Run(View(), env);
      scans, used := s.scans, s.used;
      log := log + env;
    }

    // ----- The dispatch coordinator -----

    /** Claims one ripe dispatch, or puts it off or away. */
    method ClaimRow(id: nat, now: int, leaseMs: nat, context: Context) returns (claim: Option<nat>, dropped: bool)
      requires Valid() && id in DueIds(scans, now)
      modifies this`scans, this`log
      ensures Valid() && old(log) <= log
      ensures scans == old(scans)[id := ActClaim(old(scans)[id], now, leaseMs, context)]
      ensures claim == if Wins(old(scans)[id], context) then Some(old(scans)[id].dispatch.value.attempts + 1) else None
      ensures dropped == Drops(old(scans)[id], context)
    {
      var scan := scans[id];
      var d := scan.dispatch.value;
      claim, dropped := None, false;
      if scan.status != Queued {
        dropped := scan.status == Cancelled;
        scans := scans[id := SetDispatch(scan, d.(status := if dropped then DispatchCancelled else Dispatched, lease := None))];
      } else if context == ProofStale {
        scans := scans[id := SetDispatch(scan, d.(status := Pending, due := now + PROOF_RETRY, lease := None))];
      } else if context == Invalid {
        dropped := true;
        scans := scans[id := SetDispatch(scan, d.(status := DispatchCancelled, lease := None)).(status := Cancelled)];
      } else {
        claim := Some(d.attempts + 1);
        scans := scans[id := SetDispatch(scan, d.(status := Dispatching, attempts := d.attempts + 1, lease := Some(now + leaseMs)))];
      }
      Took(Write(id, Claim(now, leaseMs, context)));
    }

    /** Claims the i-th of the ripe dispatches. */
    method ClaimNext(
      ghost scans0: map<nat, Scan>, now: int, leaseMs: nat, rows: seq<nat>, i: nat, context: map<nat, Context>,
      claims: seq<Claimed>, cancelled: nat)
      returns (claims': seq<Claimed>, cancelled': nat)
      requires Valid() && i < |rows| && rows[i] !in rows[..i] && rows[i] in DueIds(scans0, now)
      requires AllClaimed(scans0, scans, now, leaseMs, rows[..i], context)
      requires claims == ClaimsOf(scans0, rows, i, context) && cancelled == DropsOf(scans0, rows, i, context)
      modifies this`scans, this`log
      ensures Valid() && old(log) <= log
      ensures AllClaimed(scans0, scans, now, leaseMs, rows[..i + 1], context)
      ensures claims' == ClaimsOf(scans0, rows, i + 1, context) && cancelled' == DropsOf(scans0, rows, i + 1, context)
    {
      var id := rows[i];
      ClaimedNext(scans0, scans, now, leaseMs, rows, i, context);
      ClaimsOfNext(scans0, rows, i, context, scans0[id], ContextOf(context, id));
      var claim, dropped := ClaimRow(id, now, leaseMs, ContextOf(context, id));
      claims' := if claim.Some? then claims + [Claimed(id, claim.value)] else claims;
      cancelled' := if dropped then cancelled + 1 else cancelled;
    }

    /** One transaction over the ripe dispatches, the earliest first. */
    method ClaimDueScanDispatches(now: int, batchSize: nat, leaseMs: nat, context: map<nat, Context>)
      returns (claims: seq<Claimed>, cancelled: nat, ghost rows: seq<nat>)
      requires Valid()
      modifies this`scans, this`log
      ensures Valid() && old(log) <= log
      ensures FirstOf(DueIds(old(scans), now), DueTimes(old(scans)), batchSize, rows)
      ensures AllClaimed(old(scans), scans, now, leaseMs, rows, context)
      ensures claims == ClaimsOf(old(scans), rows, |rows|, context) && cancelled == DropsOf(old(scans), rows, |rows|, context)
      ensures GoodClaims(old(scans), scans, rows, context, claims)
    {
      var listed := First(DueIds(scans, now), DueTimes(scans), batchSize);
      rows := listed;
      claims, cancelled := ClaimAll(now, leaseMs, listed, context);
      ClaimsOfRows(old(scans), scans, now, leaseMs, listed, |listed|, context);
      assert listed[..|listed|] == listed;
    }

    /** Claims the listed dispatches one by one. */
    method ClaimAll(now: int, leaseMs: nat, listed: seq<nat>, context: map<nat, Context>)
      returns (claims: seq<Claimed>, cancelled: nat)
      requires Valid() && forall i :: 0 <= i < |listed| ==> listed[i] in DueIds(scans, now) && listed[i] !in listed[..i]
      modifies this`scans, this`log
      ensures Valid() && old(log) <= log
      ensures AllClaimed(old(scans), scans, now, leaseMs, listed[..|listed|], context)
      ensures claims == ClaimsOf(old(scans), listed, |listed|, context)
      ensures cancelled == DropsOf(old(scans), listed, |listed|, context)
    {
      claims, cancelled := [], 0;
      for i := 0 to |listed|
        invariant Valid() && old(log) <= log
        invariant AllClaimed(old(scans), scans, now, leaseMs, listed[..i], context)
        invariant claims == ClaimsOf(old(scans), listed, i, context)
        invariant cancelled == DropsOf(old(scans), listed, i, context)
      {
        claims, cancelled := ClaimNext(old(scans), now, leaseMs, listed, i, context, claims, cancelled);
      }
    }

    /** Settles a claim after its job was offered to the queue; a claim that is no longer held is left alone. */
    method SettleClaim(c: Claimed, e: Enqueue, now: int) returns (hit: bool)
      requires Valid()
      modifies this`scans, this`log
      ensures Valid() && old(log) <= log
      ensures hit == (c.id in old(scans) && HeldBy(old(scans)[c.id], c.claim))
      ensures scans == if c.id in old(scans) then old(scans)[c.id := SettledAs(old(scans)[c.id], c.claim, e, now)] else old(scans)
    {
      hit := c.id in scans && HeldBy(scans[c.id], c.claim);
      if !hit {
        assert c.id in scans ==> scans[c.id := scans[c.id]] == scans;
      } else if e == Accepted {
        MarkScanDispatched(c);
      } else {
        MarkScanDispatchRetry(c, now);
      }
    }

    method MarkScanDispatched(c: Claimed)
      requires Valid() && c.id in scans && HeldBy(scans[c.id], c.claim)
      modifies this`scans, this`log
      ensures Valid() && old(log) <= log
      ensures scans == old(scans)[c.id := ActMarkDispatched(old(scans)[c.id], c.claim)]
    {
      scans := scans[c.id := SetDispatch(scans[c.id], scans[c.id].dispatch.value.(status := Dispatched, lease := None))];
      Took(Write(c.id, MarkDispatched(c.claim)));
    }

    method MarkScanDispatchRetry(c: Claimed, now: int)
      requires Valid() && c.id in scans && HeldBy(scans[c.id], c.claim)
      modifies this`scans, this`log
      ensures Valid() && old(log) <= log
      ensures scans == old(scans)[c.id := ActMarkRetry(old(scans)[c.id], c.claim, now)]
    {
      var due := now + RetryDelay(c.claim);
      scans := scans[c.id := SetDispatch(scans[c.id], scans[c.id].dispatch.value.(status := Pending, due := due, lease := None))];
      Took(Write(c.id, MarkRetry(c.claim, now)));
    }

    /** Others take their turn, and then the next claim is settled. */
    method SettleNext(claims: seq<Claimed>, i: nat, enqueues: map<nat, Enqueue>, env: seq<seq<Step>>, now: int)
      returns (hit: bool)
      requires Valid() && i < |claims| && AllProgress(scans, claims, i, enqueues, env, now)
      requires forall j, k :: 0 <= j < k < |claims| ==> claims[j].id != claims[k].id
      modifies this
      ensures Valid() && old(log) <= log && AllProgress(scans, claims, i + 1, enqueues, env, now)
      ensures AllSpare(env, claims[i].id) ==> hit
    {
      ProgressSpared(View(), claims, i, enqueues, env, now, i);
      Others(Turn(env, i));
      ghost var before := scans;
      hit := SettleClaim(claims[i], EnqueueOf(enqueues, claims[i].id), now);
      ProgressNext(before, scans, claims, i, enqueues, env, now);
    }

    method SettleAll(claims: seq<Claimed>, enqueues: map<nat, Enqueue>, env: seq<seq<Step>>, now: int)
      returns (dispatched: nat, deferred: nat)
      requires Valid() && AllProgress(scans, claims, 0, enqueues, env, now)
      requires forall j, k :: 0 <= j < k < |claims| ==> claims[j].id != claims[k].id
      modifies this
      ensures Valid() && old(log) <= log && AllProgress(scans, claims, |claims|, enqueues, env, now)
      ensures deferred == Deferrals(claims, |claims|, enqueues) && dispatched + deferred <= |claims|
      ensures Quiet(env, IdsOf(claims)) ==> dispatched + deferred == |claims|
    {
      dispatched, deferred := 0, 0;
      ghost var quiet := Quiet(env, IdsOf(claims));
      for i := 0 to |claims|
        invariant Valid() && old(log) <= log && AllProgress(scans, claims, i, enqueues, env, now)
        invariant deferred == Deferrals(claims, i, enqueues) && dispatched + deferred <= i
        invariant quiet ==> dispatched + deferred == i
      {
        assert quiet ==> AllSpare(env, IdsOf(claims)[i]);
        dispatched, deferred := SettleCounted(claims, i, enqueues, env, now, dispatched, deferred);
      }
    }

    /** Settles the next claim and counts it. */
    method SettleCounted(
      claims: seq<Claimed>, i: nat, enqueues: map<nat, Enqueue>, env: seq<seq<Step>>, now: int, dispatched: nat, deferred: nat)
      returns (dispatched': nat, deferred': nat)
      requires Valid() && i < |claims| && AllProgress(scans, claims, i, enqueues, env, now)
      requires forall j, k :: 0 <= j < k < |claims| ==> claims[j].id != claims[k].id
      requires deferred == Deferrals(claims, i, enqueues)
      modifies this
      ensures Valid() && old(log) <= log && AllProgress(scans, claims, i + 1, enqueues, env, now)
      ensures deferred' == Deferrals(claims, i + 1, enqueues)
      ensures dispatched + deferred <= dispatched' + deferred' <= dispatched + deferred + 1
      ensures AllSpare(env, claims[i].id) ==> dispatched' + deferred' == dispatched + deferred + 1
    {
      var hit := SettleNext(claims, i, enqueues, env, now);
      DeferralsNext(claims, i, enqueues);
      dispatched', deferred' := dispatched, deferred;
      if EnqueueOf(enqueues, claims[i].id) != Accepted {
        deferred' := deferred + 1;
      } else if hit {
        dispatched' := dispatched + 1;
      }
    }

    /** Claims, hands the jobs over and settles each claim, while others take turns in between.
        A claim nobody interferes with ends dispatched or put off, as its job was taken or not. */
    method DispatchDueScanJobs(
      now: int, later: int, batchSize: nat, leaseMs: nat, context: map<nat, Context>, enqueues: map<nat, Enqueue>,
      env: seq<seq<Step>>)
      returns (r: DispatchResult, ghost claims: seq<Claimed>, ghost rows: seq<nat>)
      requires Valid()
      modifies this
      ensures Valid() && old(log) <= log
      ensures FirstOf(DueIds(old(scans), now), DueTimes(old(scans)), batchSize, rows)
      ensures claims == ClaimsOf(old(scans), rows, |rows|, context)
      ensures AllProgress(scans, claims, |claims|, enqueues, env, later)
      ensures r.attempted == |claims| && r.deferred == Deferrals(claims, |claims|, enqueues)
      ensures r.dispatched + r.deferred <= r.attempted
      ensures Quiet(env, IdsOf(claims)) ==> r.dispatched + r.deferred == r.attempted
    {
      var claimed, cancelled;
      claimed, cancelled, rows := ClaimDueScanDispatches(now, batchSize, leaseMs, context);
      claims := claimed;
      FreshClaims(old(scans), scans, rows, context, claims, enqueues, env, later);
      var dispatched, deferred := SettleAll(claimed, enqueues, env, later);
      r := DispatchResult(|claimed|, dispatched, deferred, cancelled);
    }

    /** Others take their turn, and then the next listed dispatch is put back if its job is gone. */
    method RestoreNext(
      ghost scans0: map<nat, Scan>, rows: seq<nat>, i: nat, presence: map<nat, Presence>, env: seq<seq<Step>>, now: int)
      returns (hit: bool)
      requires Valid() && i < |rows| && AllChecked(scans0, scans, rows, i, presence, env, now)
      requires forall j, k :: 0 <= j < k < |rows| ==> rows[j] != rows[k]
      requires rows[i] in DispatchedIds(scans0)
      modifies this
      ensures Valid() && old(log) <= log && AllChecked(scans0, scans, rows, i + 1, presence, env, now)
      ensures hit ==> PresenceOf(presence, rows[i]) == Absent
      ensures AllSpare(env, rows[i]) && PresenceOf(presence, rows[i]) == Absent ==> hit
    {
      CheckedSpared(scans0, View(), rows, i, presence, env, now, i);
      Others(Turn(env, i));
      ghost var before := scans;
      var id := rows[i];
      hit := PresenceOf(presence, id) == Absent
        && id in scans && scans[id].dispatch.Some? && scans[id].dispatch.value.status == Dispatched;
      if hit {
        scans := scans[id := SetDispatch(scans[id], scans[id].dispatch.value.(status := Pending, due := now, lease := None))];
        Took(Write(id, Restore(now)));
      }
      assert AllSpare(env, id) ==> before[id] == scans0[id];
    }

    method RestoreAll(
      ghost scans0: map<nat, Scan>, rows: seq<nat>, presence: map<nat, Presence>, env: seq<seq<Step>>, now: int)
      returns (restored: nat, inspectionFailed: nat)
      requires Valid() && AllChecked(scans0, scans, rows, 0, presence, env, now)
      requires forall j, k :: 0 <= j < k < |rows| ==> rows[j] != rows[k]
      requires forall j :: 0 <= j < |rows| ==> rows[j] in DispatchedIds(scans0)
      modifies this
      ensures Valid() && old(log) <= log && AllChecked(scans0, scans, rows, |rows|, presence, env, now)
      ensures inspectionFailed == AskedAs(presence, rows, |rows|, Unreachable) && restored <= AskedAs(presence, rows, |rows|, Absent)
      ensures Quiet(env, rows) ==> restored == AskedAs(presence, rows, |rows|, Absent)
    {
      restored, inspectionFailed := 0, 0;
      ghost var quiet := Quiet(env, rows);
      for i := 0 to |rows|
        invariant Valid() && old(log) <= log && AllChecked(scans0, scans, rows, i, presence, env, now)
        invariant inspectionFailed == AskedAs(presence, rows, i, Unreachable) && restored <= AskedAs(presence, rows, i, Absent)
        invariant quiet ==> restored == AskedAs(presence, rows, i, Absent)
      {
        assert quiet ==> AllSpare(env, rows[i]);
        var hit := RestoreNext(scans0, rows, i, presence, env, now);
        AskedNext(presence, rows, i, Unreachable);
        AskedNext(presence, rows, i, Absent);
        if PresenceOf(presence, rows[i]) == Unreachable {
          inspectionFailed := inspectionFailed + 1;
        } else if hit {
          restored := restored + 1;
        }
      }
    }

    /** Puts back queued scans whose job the queue has lost, while others take turns in between. */
    method ReconcileQueuedScanDispatches(now: int, batchSize: nat, presence: map<nat, Presence>, env: seq<seq<Step>>)
      returns (r: Reconciled, ghost rows: seq<nat>)
      requires Valid()
      modifies this
      ensures Valid() && old(log) <= log
      ensures FirstOf(DispatchedIds(old(scans)), InOrder(old(scans)), batchSize, rows)
      ensures AllChecked(old(scans), scans, rows, |rows|, presence, env, now)
      ensures r.checked == |rows| && r.inspectionFailed == AskedAs(presence, rows, |rows|, Unreachable)
      ensures r.restored <= AskedAs(presence, rows, |rows|, Absent)
      ensures Quiet(env, rows) ==> r.restored == AskedAs(presence, rows, |rows|, Absent)
    {
      var listed := First(DispatchedIds(scans), InOrder(scans), batchSize);
      rows := listed;
      assert forall j :: 0 <= j < |listed| ==> listed[j] in listed;
      var restored, inspectionFailed := RestoreAll(old(scans), listed, presence, env, now);
      r := Reconciled(|listed|, restored, inspectionFailed);
    }
  }

  /** Exactly the scans of `rows` were put through the claim. */
  ghost predicate AllClaimed(
    scans: map<nat, Scan>, scans': map<nat, Scan>, now: int, leaseMs: nat, rows: seq<nat>, context: map<nat, Context>)
  {
    && scans'.Keys == scans.Keys
    && forall id :: id in scans ==>
         scans'[id] == if id in rows then ActClaim(scans[id], now, leaseMs, ContextOf(context, id)) else scans[id]
  }

  lemma ClaimedNext(
    scans: map<nat, Scan>, before: map<nat, Scan>, now: int, leaseMs: nat, rows: seq<nat>, i: nat, context: map<nat, Context>)
    requires i < |rows| && rows[i] in scans && AllClaimed(scans, before, now, leaseMs, rows[..i], context)
    ensures AllClaimed(
      scans, before[rows[i] := ActClaim(scans[rows[i]], now, leaseMs, ContextOf(context, rows[i]))], now, leaseMs, rows[..i + 1], context)
  {
    assert rows[..i + 1] == rows[..i] + [rows[i]];
  }

  /** The claims are those of the rows that won, each once and each still held. */
  ghost predicate GoodClaims(
    scans: map<nat, Scan>, scans': map<nat, Scan>, rows: seq<nat>, context: map<nat, Context>, claims: seq<Claimed>)
  {
    && (forall c :: c in claims <==>
         && c.id in rows && c.id in scans && Wins(scans[c.id], ContextOf(context, c.id))
         && c.id in scans' && HeldBy(scans'[c.id], c.claim))
    && forall i, j :: 0 <= i < j < |claims| ==> claims[i].id != claims[j].id
  }

  /** What the join with site and schedule finds; a scan without them is invalid. */
  function ContextOf(context: map<nat, Context>, id: nat): Context {
    if id in context then context[id] else Invalid
  }

  /** The claim takes the dispatch. */
  predicate Wins(scan: Scan, context: Context) {
    scan.dispatch.Some? && scan.status == Queued && context == Fit
  }

  /** The claim cancels the dispatch, and with it a queued scan. */
  predicate Drops(scan: Scan, context: Context) {
    scan.status == Cancelled || (scan.status == Queued && context == Invalid)
  }

  /** The claims that the first n rows yield. */
  function ClaimsOf(scans: map<nat, Scan>, rows: seq<nat>, n: nat, context: map<nat, Context>): seq<Claimed>
    requires n <= |rows|
  {
    if n == 0 then []
    else
      var front, id := ClaimsOf(scans, rows, n - 1, context), rows[n - 1];
      if id in scans && Wins(scans[id], ContextOf(context, id)) then front + [Claimed(id, scans[id].dispatch.value.attempts + 1)]
      else front
  }

  lemma ClaimsOfNext(scans: map<nat, Scan>, rows: seq<nat>, i: nat, context: map<nat, Context>, scan: Scan, c: Context)
    requires i < |rows| && rows[i] in scans && scans[rows[i]] == scan && ContextOf(context, rows[i]) == c
    ensures ClaimsOf(scans, rows, i + 1, context) ==
      if Wins(scan, c) then ClaimsOf(scans, rows, i, context) + [Claimed(rows[i], scan.dispatch.value.attempts + 1)]
      else ClaimsOf(scans, rows, i, context)
    ensures DropsOf(scans, rows, i + 1, context) == DropsOf(scans, rows, i, context) + if Drops(scan, c) then 1 else 0
  {
  }

  /** How many of the first n rows are cancelled. */
  function DropsOf(scans: map<nat, Scan>, rows: seq<nat>, n: nat, context: map<nat, Context>): nat
    requires n <= |rows|
  {
    if n == 0 then 0
    else
      var id := rows[n - 1];
      DropsOf(scans, rows, n - 1, context) + if id in scans && Drops(scans[id], ContextOf(context, id)) then 1 else 0
  }

  lemma {:induction false} ClaimsOfRows(
    scans: map<nat, Scan>, scans': map<nat, Scan>, now: int, leaseMs: nat, rows: seq<nat>, n: nat, context: map<nat, Context>)
    requires n <= |rows| && forall i, j :: 0 <= i < j < |rows| ==> rows[i] != rows[j]
    requires forall id :: id in rows ==> id in DueIds(scans, now) && id in scans
    requires forall id :: id in rows ==> id in scans && id in scans' && scans'[id] == ActClaim(scans[id], now, leaseMs, ContextOf(context, id))
    ensures GoodClaims(scans, scans', rows[..n], context, ClaimsOf(scans, rows, n, context))
  {
    if n != 0 {
      assert rows[..n] == rows[..n - 1] + [rows[n - 1]];
      ClaimsOfRows(scans, scans', now, leaseMs, rows, n - 1, context);
    }
  }

  function DueIds(scans: map<nat, Scan>, now: int): set<nat> {
    set id | id in scans && scans[id].dispatch.Some? && Due(scans[id].dispatch.value, now)
  }

  /** The retry time of each dispatch; identifiers stand for the order of creation. */
  function DueTimes(scans: map<nat, Scan>): map<nat, int> {
    map id | id in scans && scans[id].dispatch.Some? :: scans[id].dispatch.value.due
  }
}
