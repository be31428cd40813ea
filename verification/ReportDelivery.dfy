/** Report mails: a mailed report has its own share link, and revoking the link withdraws its mail. */
module ReportDelivery {
  import Q = LeaseQueue
  import opened Common

  datatype Share = Share(scan: nat, revokedAt: Option<int>, expiresAt: int)

  datatype Delivery = Delivery(share: nat, row: Q.Row)

  datatype State = State(shares: map<nat, Share>, deliveries: map<nat, Delivery>)

  const INIT := State(map[], map[])

  const SHARE_LIFETIME := 7 * 24 * 60 * 60_000

  datatype Step =
    | CreateShare(share: nat, scan: nat, now: int)
    | QueueEmail(share: nat, delivery: nat, scan: nat, now: int)
    | Revoke(share: nat, now: int)
    | Claim(delivery: nat, now: int, leaseMs: nat, scanCompleted: bool)
    | MarkSent(delivery: nat, attempt: nat)
    | MarkRetry(delivery: nat, attempt: nat, again: int)

  /** The link must not be used any more. */
  predicate Unusable(share: Share, now: int, scanCompleted: bool) {
    share.revokedAt.Some? || share.expiresAt <= now || !scanCompleted
  }

  function ApplyCreate(s: State, share: nat, scan: nat, now: int): State {
    if share in s.shares then s else s.(shares := s.shares[share := Share(scan, None, now + SHARE_LIFETIME)])
  }

  /** Each mail gets a link of its own. */
  function ApplyQueueEmail(s: State, share: nat, delivery: nat, scan: nat, now: int): State {
    if share in s.shares || delivery in s.deliveries then s
    else ApplyCreate(s, share, scan, now).(deliveries := s.deliveries[delivery := Delivery(share, Q.Fresh(now))])
  }

  predicate Revokes(s: State, share: nat) {
    share in s.shares && s.shares[share].revokedAt.None?
  }

  function ApplyRevoke(s: State, share: nat, now: int): State {
    if !Revokes(s, share) then s
    else State(
      s.shares[share := s.shares[share].(revokedAt := Some(now))],
      map d | d in s.deliveries ::
        if s.deliveries[d].share == share then s.deliveries[d].(row := Q.Do(s.deliveries[d].row, Q.Withdraw)) else s.deliveries[d])
  }

  function DoRow(s: State, d: nat, op: Q.Op): State {
    if d in s.deliveries then s.(deliveries := s.deliveries[d := s.deliveries[d].(row := Q.Do(s.deliveries[d].row, op))]) else s
  }

  function ClaimOp(s: State, d: nat, now: int, leaseMs: nat, scanCompleted: bool): Q.Op
    requires d in s.deliveries
  {
    var share := s.deliveries[d].share;
    if share !in s.shares || Unusable(s.shares[share], now, scanCompleted) then Q.Cancel(now) else Q.Claim(now, leaseMs)
  }

  function Apply(s: State, step: Step): State {
    match step
    case CreateShare(share, scan, now) => ApplyCreate(s, share, scan, now)
    case QueueEmail(share, d, scan, now) => ApplyQueueEmail(s, share, d, scan, now)
    case Revoke(share, now) => ApplyRevoke(s, share, now)
    case Claim(d, now, leaseMs, scanCompleted) =>
      if d in s.deliveries then DoRow(s, d, ClaimOp(s, d, now, leaseMs, scanCompleted)) else s
    case MarkSent(d, attempt) => DoRow(s, d, Q.Succeed(attempt))
    case MarkRetry(d, attempt, again) => DoRow(s, d, Q.Retry(attempt, again))
  }

  function Run(s: State, steps: seq<Step>): State
    decreases |steps|
  {
    if steps == [] then s else Apply(Run(s, steps[..|steps| - 1]), steps[|steps| - 1])
  }

  /** A delivery has a link, and one whose link is revoked is settled. */
  ghost predicate Inv(s: State) {
    forall d :: d in s.deliveries ==>
      && s.deliveries[d].share in s.shares && Q.RowOk(s.deliveries[d].row)
      && (s.shares[s.deliveries[d].share].revokedAt.Some? ==> Q.Settled(s.deliveries[d].row))
  }

  lemma StepKeepsInv(s: State, step: Step)
    requires Inv(s)
    ensures Inv(Apply(s, step))
  {
  }

  lemma {:induction false} RunKeepsInv(s: State, steps: seq<Step>)
    requires Inv(s)
    ensures Inv(Run(s, steps))
    decreases |steps|
  {
    if steps != [] {
      RunKeepsInv(s, steps[..|steps| - 1]);
      StepKeepsInv(Run(s, steps[..|steps| - 1]), steps[|steps| - 1]);
    }
  }

  /** The step takes the delivery or records it as sent. */
  predicate Uses(s: State, step: Step, d: nat) {
    && d in s.deliveries
    && var s' := Apply(s, step);
       d in s'.deliveries && s'.deliveries[d].row != s.deliveries[d].row
       && (s'.deliveries[d].row.status == Q.Held || s'.deliveries[d].row.status == Q.Done)
  }

  lemma {:induction false} RevokedForever(s: State, steps: seq<Step>, share: nat)
    requires share in s.shares && s.shares[share].revokedAt.Some?
    ensures share in Run(s, steps).shares && Run(s, steps).shares[share].revokedAt == s.shares[share].revokedAt
    decreases |steps|
  {
    if steps != [] {
      RevokedForever(s, steps[..|steps| - 1], share);
    }
  }

  /** Once a link is revoked, no later step of any run claims a delivery of it or records one as sent. */
  lemma NothingSentAfterRevoke(before: seq<Step>, share: nat, now: int, later: seq<Step>, next: Step, d: nat)
    requires Revokes(Run(INIT, before), share)
    requires var s := Run(ApplyRevoke(Run(INIT, before), share, now), later); d in s.deliveries && s.deliveries[d].share == share
    ensures !Uses(Run(ApplyRevoke(Run(INIT, before), share, now), later), next, d)
  {
    RunKeepsInv(INIT, before);
    var s0 := ApplyRevoke(Run(INIT, before), share, now);
    StepKeepsInv(Run(INIT, before), Revoke(share, now));
    RevokedForever(s0, later, share);
    RunKeepsInv(s0, later);
    NoUseAfterRevoke(Run(s0, later), next, d);
  }

  lemma NoUseAfterRevoke(s: State, step: Step, d: nat)
    requires Inv(s) && d in s.deliveries && s.shares[s.deliveries[d].share].revokedAt.Some?
    ensures !Uses(s, step, d)
  {
  }

  /** Revoking withdraws exactly the unsettled mails of the link. */
  lemma RevokeWithdraws(s: State, share: nat, now: int, d: nat)
    requires Inv(s) && Revokes(s, share) && d in s.deliveries
    ensures var row, row' := s.deliveries[d].row, ApplyRevoke(s, share, now).deliveries[d].row;
      if s.deliveries[d].share == share && Q.Unsettled(row) then row'.status == Q.Dropped && row'.attempts == row.attempts
      else row' == row
  {
  }

  /** What a step does to the delivery, in terms of the lease protocol. */
  function StepOps(s: State, step: Step, d: nat): seq<Q.Op>
    requires d in s.deliveries
  {
    match step
    case Revoke(share, _) => if Revokes(s, share) && s.deliveries[d].share == share then [Q.Withdraw] else []
    case Claim(e, now, leaseMs, scanCompleted) => if e == d then [ClaimOp(s, d, now, leaseMs, scanCompleted)] else []
    case MarkSent(e, attempt) => if e == d then [Q.Succeed(attempt)] else []
    case MarkRetry(e, attempt, again) => if e == d then [Q.Retry(attempt, again)] else []
    case _ => []
  }

  lemma {:induction false} Present(s: State, steps: seq<Step>, d: nat)
    requires d in s.deliveries
    ensures d in Run(s, steps).deliveries
    decreases |steps|
  {
    if steps != [] {
      Present(s, steps[..|steps| - 1], d);
    }
  }

  /** What the steps of a run do to it, one after the other. */
  function RunOps(s: State, steps: seq<Step>, d: nat): (ops: seq<Q.Op>)
    requires d in s.deliveries
    ensures forall i :: 0 <= i < |ops| ==> !ops[i].Reopen? && !ops[i].Abandon?
    decreases |steps|
  {
    if steps == [] then []
    else
      var init := steps[..|steps| - 1];
      Present(s, init, d);
      RunOps(s, init, d) + StepOps(Run(s, init), steps[|steps| - 1], d)
  }

  lemma StepRefines(s: State, step: Step, d: nat)
    requires d in s.deliveries
    ensures d in Apply(s, step).deliveries
    ensures Apply(s, step).deliveries[d] == s.deliveries[d].(row := Q.DoAll(s.deliveries[d].row, StepOps(s, step, d)))
  {
    if StepOps(s, step, d) != [] {
      Q.DoOne(s.deliveries[d].row, StepOps(s, step, d)[0]);
    }
  }

  /** Over any run a delivery goes through exactly the operations of the lease protocol that its steps
      stand for, none of which reopens it. */
  lemma {:induction false} DeliveryRefines(s: State, steps: seq<Step>, d: nat)
    requires d in s.deliveries
    ensures d in Run(s, steps).deliveries
    ensures Run(s, steps).deliveries[d] == s.deliveries[d].(row := Q.DoAll(s.deliveries[d].row, RunOps(s, steps, d)))
    decreases |steps|
  {
    if steps != [] {
      var init, step := steps[..|steps| - 1], steps[|steps| - 1];
      DeliveryRefines(s, init, d);
      StepRefines(Run(s, init), step, d);
      Q.DoAllConcat(s.deliveries[d].row, RunOps(s, init, d), StepOps(Run(s, init), step, d));
    }
  }

  /** Sent and cancelled deliveries never change. */
  lemma SettledStays(s: State, steps: seq<Step>, d: nat)
    requires d in s.deliveries && Q.Settled(s.deliveries[d].row)
    ensures d in Run(s, steps).deliveries && Run(s, steps).deliveries[d] == s.deliveries[d]
  {
    DeliveryRefines(s, steps, d);
    Q.SettledForever(s.deliveries[d].row, RunOps(s, steps, d));
  }

  /** Once somebody else has claimed a delivery, the earlier claimant's success or retry changes nothing. */
  lemma OldClaimIsPowerless(s: State, steps: seq<Step>, d: nat, attempt: nat, again: int)
    requires d in s.deliveries && attempt < s.deliveries[d].row.attempts
    ensures var s' := Run(s, steps); Apply(s', MarkSent(d, attempt)) == s' && Apply(s', MarkRetry(d, attempt, again)) == s'
  {
    DeliveryRefines(s, steps, d);
    Q.CountOnlyGrows(s.deliveries[d].row, RunOps(s, steps, d));
    var s' := Run(s, steps);
    assert s'.deliveries[d := s'.deliveries[d]] == s'.deliveries;
  }

  /** The row of the delivery, if there is one. */
  function RowOf(s: State, d: nat): Option<Q.Row> {
    if d in s.deliveries then Some(s.deliveries[d].row) else None
  }

  /** Only a claim makes a delivery held. */
  lemma HeldByClaim(s: State, step: Step, d: nat)
    requires RowOf(s, d) != RowOf(Apply(s, step), d)
    requires RowOf(Apply(s, step), d).Some? && RowOf(Apply(s, step), d).value.status == Q.Held
    ensures step.Claim? && step.delivery == d
    ensures RowOf(s, d).Some? && RowOf(Apply(s, step), d).value.attempts == RowOf(s, d).value.attempts + 1
  {
  }

  /** A delivery that is being sent is in the hands of whoever claimed it last: step i claimed it with the
      count it has, and nothing has happened to it since. */
  lemma HolderClaimedLast(s: State, steps: seq<Step>, d: nat) returns (i: nat)
    requires RowOf(s, d).Some? ==> RowOf(s, d).value.status != Q.Held
    requires RowOf(Run(s, steps), d).Some? && RowOf(Run(s, steps), d).value.status == Q.Held
    ensures i < |steps| && steps[i].Claim? && steps[i].delivery == d && RowOf(Run(s, steps[..i]), d).Some?
    ensures RowOf(Run(s, steps), d).value.attempts == RowOf(Run(s, steps[..i]), d).value.attempts + 1
    ensures forall j :: i < j <= |steps| ==> RowOf(Run(s, steps[..j]), d) == RowOf(Run(s, steps), d)
  {
    var trace := seq(|steps| + 1, j requires 0 <= j <= |steps| => RowOf(Run(s, steps[..j]), d));
    assert steps[..|steps|] == steps;
    i := LastChange(trace);
    assert steps[..i + 1][..i] == steps[..i];
    assert forall j :: i < j <= |steps| ==> trace[j] == RowOf(Run(s, steps[..j]), d);
    assert Run(s, steps[..i + 1]) == Apply(Run(s, steps[..i]), steps[i]);
    HeldByClaim(Run(s, steps[..i]), steps[i], d);
  }

  // ----- The code -----

  datatype Claimed = Claimed(delivery: nat, attempt: nat)

  /** A due delivery that the claim may take. */
  predicate Usable(s: State, d: nat, now: int, completed: set<nat>) {
    && d in s.deliveries && s.deliveries[d].share in s.shares
    && var share := s.shares[s.deliveries[d].share]; !Unusable(share, now, share.scan in completed)
  }

  /** The claims that the first n rows yield. */
  function ClaimsOf(s: State, rows: seq<nat>, n: nat, now: int, completed: set<nat>): seq<Claimed>
    requires n <= |rows|
  {
    if n == 0 then []
    else
      var front, d := ClaimsOf(s, rows, n - 1, now, completed), rows[n - 1];
      if Usable(s, d, now, completed) then front + [Claimed(d, s.deliveries[d].row.attempts + 1)] else front
  }

  /** Each row was claimed or cancelled, and nothing else was touched. */
  ghost predicate AllClaimed(s: State, s': State, rows: seq<nat>, now: int, leaseMs: nat, completed: set<nat>) {
    && s'.shares == s.shares && s'.deliveries.Keys == s.deliveries.Keys
    && forall d :: d in s.deliveries ==>
         s'.deliveries[d] ==
           if d !in rows then s.deliveries[d]
           else if Usable(s, d, now, completed) then s.deliveries[d].(row := Q.Do(s.deliveries[d].row, Q.Claim(now, leaseMs)))
           else s.deliveries[d].(row := Q.Do(s.deliveries[d].row, Q.Cancel(now)))
  }

  lemma AllClaimedNext(
    s: State, s1: State, s2: State, rows: seq<nat>, n: nat, now: int, leaseMs: nat, completed: set<nat>)
    requires n < |rows| && rows[n] !in rows[..n] && rows[n] in s.deliveries
    requires AllClaimed(s, s1, rows[..n], now, leaseMs, completed)
    requires s2 == s1.(deliveries := s1.deliveries[rows[n] := s1.deliveries[rows[n]].(row :=
      Q.Do(s1.deliveries[rows[n]].row, if Usable(s, rows[n], now, completed) then Q.Claim(now, leaseMs) else Q.Cancel(now)))])
    ensures AllClaimed(s, s2, rows[..n + 1], now, leaseMs, completed)
  {
    assert rows[..n + 1] == rows[..n] + [rows[n]];
  }

  class Store {
    var shares: map<nat, Share>
    var deliveries: map<nat, Delivery>
    ghost var log: seq<Step>

    function View(): State
      reads this
    {
      State(shares, deliveries)
    }

    ghost predicate Valid()
      reads this
    {
      View() == Run(INIT, log)
    }

    constructor ()
      ensures Valid() && log == []
    {
      shares, deliveries, log := map[], map[], [];
    }

    ghost method Took(step: Step)
      requires View() == Apply(Run(INIT, log), step)
      modifies this`log
      ensures Valid() && log == old(log) + [step]
    {
      assert (log + [step])[..|log|] == log;
      log := log + [step];
    }

    /** Claims a due delivery, or cancels it if its link must not be used any more. */
    method ClaimOne(d: nat, now: int, leaseMs: nat, completed: set<nat>) returns (claim: Option<Claimed>)
      requires Valid() && d in deliveries && Q.Due(deliveries[d].row, now)
      modifies this`deliveries, this`log
      ensures Valid()
      ensures deliveries == old(deliveries)[d := old(deliveries)[d].(row := Q.Do(old(deliveries)[d].row,
        if Usable(old(View()), d, now, completed) then Q.Claim(now, leaseMs) else Q.Cancel(now)))]
      ensures claim ==
        if Usable(old(View()), d, now, completed) then Some(Claimed(d, old(deliveries)[d].row.attempts + 1)) else None
    {
      var row, share := deliveries[d].row, deliveries[d].share;
      if share !in shares || Unusable(shares[share], now, shares[share].scan in completed) {
        deliveries := deliveries[d := deliveries[d].(row := row.(status := Q.Dropped, lease := None))];
        claim := None;
      } else {
        deliveries := deliveries[d := deliveries[d].(row := Q.Row(Q.Held, row.attempts + 1, row.due, Some(now + leaseMs)))];
        claim := Some(Claimed(d, row.attempts + 1));
      }
      Took(Claim(d, now, leaseMs, share in shares && shares[share].scan in completed));
    }

    /** One transaction over the due deliveries `rows`: a mail whose link must not be used any more is
        cancelled, any other is claimed. */
    method ClaimDueReportDeliveries(now: int, leaseMs: nat, rows: seq<nat>, completed: set<nat>)
      returns (claims: seq<Claimed>, cancelled: nat)
      requires Valid()
      requires forall i, j :: 0 <= i < j < |rows| ==> rows[i] != rows[j]
      requires forall d :: d in rows ==> d in deliveries && Q.Due(deliveries[d].row, now)
      modifies this`deliveries, this`log
      ensures Valid() && AllClaimed(old(View()), View(), rows, now, leaseMs, completed)
      ensures claims == ClaimsOf(old(View()), rows, |rows|, now, completed)
      ensures cancelled + |claims| == |rows|
    {
      claims, cancelled := [], 0;
      ghost var s0 := View();
      for i := 0 to |rows|
        invariant Valid() && AllClaimed(s0, View(), rows[..i], now, leaseMs, completed)
        invariant claims == ClaimsOf(s0, rows, i, now, completed) && cancelled + |claims| == i
      {
        var d := rows[i];
        assert d in rows && d !in rows[..i];
        ghost var before := View();
        var claim := ClaimOne(d, now, leaseMs, completed);
        AllClaimedNext(s0, before, View(), rows, i, now, leaseMs, completed);
        if claim.Some? {
          claims := claims + [claim.value];
        } else {
          cancelled := cancelled + 1;
        }
      }
      assert rows[..|rows|] == rows;
    }

    /** True exactly if this call revoked the link. */
    method RevokeReportShare(share: nat, now: int) returns (ok: bool)
      requires Valid()
      modifies this
      ensures Valid() && ok == Revokes(old(View()), share)
      ensures View() == if ok then ApplyRevoke(old(View()), share, now) else old(View())
      ensures ok ==> forall d :: d in deliveries && deliveries[d].share == share ==> Q.Settled(deliveries[d].row)
    {
      ok := share in shares && shares[share].revokedAt.None?;
      if ok {
        shares := shares[share := shares[share].(revokedAt := Some(now))];
        deliveries := map d | d in deliveries ::
          if deliveries[d].share == share && Q.Unsettled(deliveries[d].row)
          then deliveries[d].(row := deliveries[d].row.(status := Q.Dropped, lease := None)) else deliveries[d];
        assert deliveries == ApplyRevoke(old(View()), share, now).deliveries;
        Took(Revoke(share, now));
      }
    }
  }
}
