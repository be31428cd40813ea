/** The protocol that the three outbox tables share, for one row: it is claimed for a lease,
    and settled by whoever still holds it. */
module LeaseQueue {

  import opened Common

  datatype Status = Pending | Held | Done | Dropped

  datatype Row = Row(status: Status, attempts: nat, due: int, lease: Option<int>)

  datatype Op =
    | Claim(now: int, leaseMs: nat)
    | Succeed(attempt: nat)
    | Retry(attempt: nat, again: int)
    | PutOff(now: int, again: int)   // found due, but to be looked at later
    | Skip(now: int)                 // found due, but already taken care of
    | Cancel(now: int)               // found due, but no longer wanted
    | Withdraw                       // no longer wanted, whoever holds it
    | Abandon                        // given up, in whatever state it is
    | Reopen(again: int)             // wanted again, in whatever state it is

  function Fresh(due: int): Row {
    Row(Pending, 0, due, None)
  }

  predicate Due(row: Row, now: int) {
    (row.status == Pending && row.due <= now) || (row.status == Held && row.lease.Some? && row.lease.value <= now)
  }

  predicate HeldBy(row: Row, attempt: nat) {
    row.status == Held && row.attempts == attempt
  }

  predicate Unsettled(row: Row) {
    row.status == Pending || row.status == Held
  }

  predicate Settled(row: Row) {
    row.status == Done || row.status == Dropped
  }

  function Do(row: Row, op: Op): Row {
    match op
    case Claim(now, leaseMs) =>
      if Due(row, now) then Row(Held, row.attempts + 1, row.due, Some(now + leaseMs)) else row
    case Succeed(attempt) => if HeldBy(row, attempt) then row.(status := Done, lease := None) else row
    case Retry(attempt, again) =>
      if HeldBy(row, attempt) then row.(status := Pending, due := again, lease := None) else row
    case PutOff(now, again) => if Due(row, now) then row.(status := Pending, due := again, lease := None) else row
    case Skip(now) => if Due(row, now) then row.(status := Done, lease := None) else row
    case Cancel(now) => if Due(row, now) then row.(status := Dropped, lease := None) else row
    case Withdraw => if Unsettled(row) then row.(status := Dropped, lease := None) else row
    case Abandon => row.(status := Dropped, lease := None)
    case Reopen(again) => row.(status := Pending, due := again, lease := None)
  }

  function DoAll(row: Row, ops: seq<Op>): Row
    decreases |ops|
  {
    if ops == [] then row else Do(DoAll(row, ops[..|ops| - 1]), ops[|ops| - 1])
  }

  ghost predicate RowOk(row: Row) {
    row.lease.Some? <==> row.status == Held
  }

  /** Whatever is done to a row: its count only grows, and it stays leased exactly while it is held. */
  lemma {:induction false} CountOnlyGrows(row: Row, ops: seq<Op>)
    ensures row.attempts <= DoAll(row, ops).attempts && (RowOk(row) ==> RowOk(DoAll(row, ops)))
    decreases |ops|
  {
    if ops != [] {
      CountOnlyGrows(row, ops[..|ops| - 1]);
    }
  }

  lemma DoAllPrefix(row: Row, ops: seq<Op>, i: nat, j: nat)
    requires i <= j <= |ops|
    ensures DoAll(row, ops[..j]) == DoAll(DoAll(row, ops[..i]), ops[i..j])
    decreases j - i
  {
    if i == j {
      assert ops[i..j] == [];
    } else {
      DoAllPrefix(row, ops, i, j - 1);
      assert ops[..j][..j - 1] == ops[..j - 1];
      assert ops[i..j][..j - 1 - i] == ops[i..j - 1];
    }
  }

  lemma DoAllConcat(row: Row, a: seq<Op>, b: seq<Op>)
    ensures DoAll(row, a + b) == DoAll(DoAll(row, a), b)
  {
    DoAllPrefix(row, a + b, |a|, |a + b|);
    assert (a + b)[..|a|] == a && (a + b)[|a|..|a + b|] == b && (a + b)[..|a + b|] == a + b;
  }

  lemma DoOne(row: Row, op: Op)
    ensures DoAll(row, [op]) == Do(row, op)
  {
    assert [op][..0] == [];
  }

  /** A held row is in the hands of its last claimant: the claim at `i` gave it its count, and
      nothing has happened to the row since. So only that claimant can settle it. */
  lemma {:induction false} OnlyLatestClaimantHolds(row: Row, ops: seq<Op>) returns (i: nat)
    requires row.status != Held && DoAll(row, ops).status == Held
    ensures i < |ops| && ops[i].Claim? && DoAll(row, ops[..i + 1]).attempts == DoAll(row, ops[..i]).attempts + 1
    ensures forall j :: i < j <= |ops| ==> DoAll(row, ops[..j]) == DoAll(row, ops)
    decreases |ops|
  {
    var n := |ops| - 1;
    assert ops[..n + 1] == ops;
    var before := DoAll(row, ops[..n]);
    if ops[n].Claim? && Due(before, ops[n].now) {
      i := n;
    } else {
      i := OnlyLatestClaimantHolds(row, ops[..n]);
      assert ops[..n][..i] == ops[..i] && ops[..n][..i + 1] == ops[..i + 1];
      forall j | i < j <= |ops|
        ensures DoAll(row, ops[..j]) == DoAll(row, ops)
      {
        if j <= n {
          assert ops[..n][..j] == ops[..j];
        }
      }
    }
  }

  /** Unless it is reopened or abandoned, a settled row never changes again. */
  lemma {:induction false} SettledForever(row: Row, ops: seq<Op>)
    requires Settled(row) && forall i :: 0 <= i < |ops| ==> !ops[i].Reopen? && !ops[i].Abandon?
    ensures DoAll(row, ops) == row
    decreases |ops|
  {
    if ops != [] {
      SettledForever(row, ops[..|ops| - 1]);
    }
  }

  /** So it succeeds at most once: two effective successes would be the same one. */
  lemma SucceedsOnce(row: Row, ops: seq<Op>, i: nat, j: nat)
    requires forall k :: 0 <= k < |ops| ==> !ops[k].Reopen? && !ops[k].Abandon?
    requires i < |ops| && ops[i].Succeed? && HeldBy(DoAll(row, ops[..i]), ops[i].attempt)
    requires j < |ops| && ops[j].Succeed? && HeldBy(DoAll(row, ops[..j]), ops[j].attempt)
    ensures i == j
  {
    var first, second := if i < j then i else j, if i < j then j else i;
    if first < second {
      assert ops[..first + 1][..first] == ops[..first];
      DoAllPrefix(row, ops, first + 1, second);
      SettledForever(DoAll(row, ops[..first + 1]), ops[first + 1..second]);
    }
  }
}
