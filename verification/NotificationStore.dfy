/** The code behind the alert mails: the loops of the completion and of recording a mail as sent. */
module NotificationStore {
  import opened Notifications
  import Q = LeaseQueue

  /** The incidents among `incidents` that the completion tells recipient r as recovered. */
  function Told(incidents: set<Incident>, report: Report, outstanding: set<Incident>, r: nat): set<Fingerprint> {
    set k | k in incidents && k.recipient == r && Tells(report, outstanding, k) :: k.fingerprint
  }

  predicate Tells(report: Report, outstanding: set<Incident>, k: Incident) {
    k.fingerprint !in report.current && k in report.resolvable && k !in outstanding
  }

  lemma ToldNext(incidents: set<Incident>, report: Report, outstanding: set<Incident>, k: Incident, r: nat)
    requires k !in incidents
    ensures Told(incidents + {k}, report, outstanding, r) ==
      Told(incidents, report, outstanding, r) + if k.recipient == r && Tells(report, outstanding, k) then {k.fingerprint} else {}
  {
    var more := Told(incidents + {k}, report, outstanding, r);
    forall f | f in Told(incidents, report, outstanding, r)
      ensures f in more
    {
      var j :| j in incidents && j.recipient == r && Tells(report, outstanding, j) && j.fingerprint == f;
      assert j in incidents + {k};
    }
    if k.recipient == r && Tells(report, outstanding, k) {
      assert k in incidents + {k};
    }
  }

  /** Groups the recovered incidents by recipient. */
  method ResolvedByRecipient(incidents: set<Incident>, report: Report, outstanding: set<Incident>)
    returns (resolved: map<nat, set<Fingerprint>>)
    ensures forall r :: r in resolved <==> Told(incidents, report, outstanding, r) != {}
    ensures forall r :: r in resolved ==> resolved[r] == Told(incidents, report, outstanding, r)
  {
    resolved := map[];
    var rest := incidents;
    while rest != {}
      invariant rest <= incidents
      invariant forall r :: r in resolved <==> Told(incidents - rest, report, outstanding, r) != {}
      invariant forall r :: r in resolved ==> resolved[r] == Told(incidents - rest, report, outstanding, r)
      decreases rest
    {
      var k :| k in rest;
      assert incidents - (rest - {k}) == (incidents - rest) + {k};
      forall r {
        ToldNext(incidents - rest, report, outstanding, k, r);
      }
      rest := rest - {k};
      if k.fingerprint in report.current || k !in report.resolvable || k in outstanding {
        continue;
      }
      var items := if k.recipient in resolved then resolved[k.recipient] else {};
      resolved := resolved[k.recipient := items + {k.fingerprint}];
    }
    assert incidents - {} == incidents;
  }

  /** One delivery for each recipient with something above their threshold. */
  method DegradationDeliveries(site: nat, recipients: set<nat>, scan: nat, now: int, report: Report)
    returns (m: map<Id, Delivery>)
    ensures forall id: Id :: id in m <==>
      id.scan == scan && id.kind == Degradation && id.recipient in recipients
      && id.recipient in report.degraded && report.degraded[id.recipient] != {}
    ensures forall id :: id in m ==> m[id] == Delivery(site, report.degraded[id.recipient], Q.Fresh(now))
  {
    m := map[];
    var rest := recipients;
    while rest != {}
      invariant rest <= recipients
      invariant forall id: Id :: id in m <==>
        id.scan == scan && id.kind == Degradation && id.recipient in recipients - rest
        && id.recipient in report.degraded && report.degraded[id.recipient] != {}
      invariant forall id :: id in m ==> m[id] == Delivery(site, report.degraded[id.recipient], Q.Fresh(now))
      decreases rest
    {
      var r :| r in rest;
      rest := rest - {r};
      if r in report.degraded && report.degraded[r] != {} {
        m := m[Id(scan, r, Degradation) := Delivery(site, report.degraded[r], Q.Fresh(now))];
      }
    }
  }

  /** One delivery for each known recipient with something resolved. */
  method RecoveryDeliveries(site: nat, recipients: set<nat>, scan: nat, now: int, resolved: map<nat, set<Fingerprint>>)
    returns (m: map<Id, Delivery>)
    ensures forall id: Id :: id in m <==>
      id.scan == scan && id.kind == Recovery && id.recipient in recipients && id.recipient in resolved
    ensures forall id :: id in m ==> m[id] == Delivery(site, resolved[id.recipient], Q.Fresh(now))
  {
    m := map[];
    var rest := resolved.Keys;
    while rest != {}
      invariant rest <= resolved.Keys
      invariant forall id: Id :: id in m <==>
        id.scan == scan && id.kind == Recovery && id.recipient in recipients && id.recipient in resolved.Keys - rest
      invariant forall id :: id in m ==> m[id] == Delivery(site, resolved[id.recipient], Q.Fresh(now))
      decreases rest
    {
      var r :| r in rest;
      rest := rest - {r};
      if r in recipients {
        m := m[Id(scan, r, Recovery) := Delivery(site, resolved[r], Q.Fresh(now))];
      }
    }
  }

  /** Both batches together are what the completion wants to add. */
  lemma BatchesAreWanted(
    s: State, snap: Snapshot, scan: nat, now: int, report: Report, outstanding: set<Incident>,
    resolved: map<nat, set<Fingerprint>>, degradations: map<Id, Delivery>, recoveries: map<Id, Delivery>)
    requires forall k :: k in snap.incidents ==> k.site == snap.site
    requires forall k: Incident :: k.site == snap.site ==> (k in outstanding <==> Outstanding(s, k))
    requires forall r :: r in resolved <==> Told(snap.incidents, report, outstanding, r) != {}
    requires forall r :: r in resolved ==> resolved[r] == Told(snap.incidents, report, outstanding, r)
    requires forall id: Id :: id in degradations <==>
      id.scan == scan && id.kind == Degradation && id.recipient in snap.recipients
      && id.recipient in report.degraded && report.degraded[id.recipient] != {}
    requires forall id :: id in degradations ==> degradations[id] == NewDelivery(snap, report.degraded[id.recipient], now)
    requires forall id: Id :: id in recoveries <==>
      id.scan == scan && id.kind == Recovery && id.recipient in snap.recipients && id.recipient in resolved
    requires forall id :: id in recoveries ==> recoveries[id] == NewDelivery(snap, resolved[id.recipient], now)
    ensures degradations + recoveries == Wanted(s, snap, scan, now, report)
  {
    forall id: Id
      ensures id in Wanted(s, snap, scan, now, report) <==> id in degradations || id in recoveries
      ensures id in degradations ==> Wanted(s, snap, scan, now, report)[id] == degradations[id]
      ensures id in recoveries ==> Wanted(s, snap, scan, now, report)[id] == recoveries[id]
    {
      ToldIsResolved(s, snap, report, outstanding, id.recipient);
      WantedAt(s, snap, scan, now, report, id);
    }
    SameUnion(degradations, recoveries, Wanted(s, snap, scan, now, report));
  }

  lemma SameUnion(a: map<Id, Delivery>, b: map<Id, Delivery>, c: map<Id, Delivery>)
    requires forall id :: id in c <==> id in a || id in b
    requires forall id :: id in a ==> c[id] == a[id]
    requires forall id :: id in b ==> c[id] == b[id]
    ensures a + b == c
  {
  }

  lemma WantedAt(s: State, snap: Snapshot, scan: nat, now: int, report: Report, id: Id)
    ensures id in Wanted(s, snap, scan, now, report) <==>
      id.scan == scan && id.recipient in snap.recipients && ItemsFor(s, snap, report, id) != {}
    ensures id in Wanted(s, snap, scan, now, report) ==>
      Wanted(s, snap, scan, now, report)[id] == NewDelivery(snap, ItemsFor(s, snap, report, id), now)
  {
    if id.scan == scan && id.recipient in snap.recipients {
      assert id == Id(scan, id.recipient, if id.kind == Degradation then Degradation else Recovery);
      assert id in Candidates(snap, scan);
    }
  }

  lemma ToldIsResolved(s: State, snap: Snapshot, report: Report, outstanding: set<Incident>, r: nat)
    requires forall k :: k in snap.incidents ==> k.site == snap.site
    requires forall k: Incident :: k.site == snap.site ==> (k in outstanding <==> Outstanding(s, k))
    ensures Told(snap.incidents, report, outstanding, r) == Resolved(s, snap, report, r)
  {
  }

  lemma TwoInserts(a: map<Id, Delivery>, b: map<Id, Delivery>, d: map<Id, Delivery>)
    requires a.Keys !! b.Keys
    ensures b + (a + d) == (a + b) + d
  {
  }

  class Store {
    var deliveries: map<Id, Delivery>
    var active: set<Incident>
    var completed: set<nat>
    var gone: set<nat>
    var snapshots: map<nat, Snapshot>
    var mails: seq<Mail>
    /** Every step taken so far, by anyone. */
    ghost var log: seq<Step>

    ghost function View(): State
      reads this
    {
      State(deliveries, active, snapshots, completed, gone, mails)
    }

    ghost predicate Valid()
      reads this
    {
      View() == Run(INIT, log)
    }

    constructor ()
      ensures Valid() && log == []
    {
      deliveries, active, completed, gone, snapshots, mails, log := map[], {}, {}, {}, map[], [], [];
    }

    ghost method Took(step: Step)
      requires View() == Apply(Run(INIT, log), step)
      modifies this`log
      ensures Valid() && log == old(log) + [step]
    {
      assert (log + [step])[..|log|] == log;
      log := log + [step];
    }

    method ReadActiveIncidents(tx: nat, site: nat, recipients: set<nat>) returns (incidents: set<Incident>)
      requires Valid() && site !in gone
      modifies this`snapshots, this`log
      ensures Valid() && View() == Apply(old(View()), ReadIncidents(tx, site, recipients))
      ensures tx in snapshots && snapshots[tx] == Snapshot(site, recipients, incidents)
    {
      incidents := set k | k in active && k.site == site && k.recipient in recipients;
      snapshots := snapshots[tx := Snapshot(site, recipients, incidents)];
      Took(ReadIncidents(tx, site, recipients));
    }

    /** The keys of the outstanding recoveries of a site. */
    method OutstandingRecoveries(site: nat) returns (keys: set<Incident>)
      ensures forall k: Incident :: k.site == site ==> (k in keys <==> Outstanding(View(), k))
    {
      keys := {};
      var rest := deliveries.Keys;
      while rest != {}
        invariant rest <= deliveries.Keys
        invariant forall k: Incident :: k in keys <==>
          exists id :: id in deliveries.Keys - rest && Telling(View(), id, k.fingerprint)
            && id.recipient == k.recipient && deliveries[id].site == k.site && k.site == site
        decreases rest
      {
        var id :| id in rest;
        rest := rest - {id};
        var d := deliveries[id];
        if id.kind == Recovery && Q.Unsettled(d.row) && d.site == site {
          keys := keys + Keys(id, d);
        }
      }
    }

    /** The second half of a completion, with the incidents read in its first half. */
    method CompleteScan(
      tx: nat, site: nat, recipients: set<nat>, incidents: set<Incident>, scan: nat, now: int, report: Report)
      requires Valid() && tx in snapshots
      requires snapshots[tx] == Snapshot(site, recipients, incidents)
      requires forall k :: k in incidents ==> k.site == site
      modifies this
      ensures Valid() && View() == Apply(old(View()), Complete(tx, scan, now, report))
    {
      if scan in completed {
        Took(Complete(tx, scan, now, report));
        return;
      }
      var outstanding := OutstandingRecoveries(site);
      var resolved := ResolvedByRecipient(incidents, report, outstanding);
      var degradations := DegradationDeliveries(site, recipients, scan, now, report);
      var recoveries := RecoveryDeliveries(site, recipients, scan, now, resolved);
      BatchesAreWanted(View(), snapshots[tx], scan, now, report, outstanding, resolved, degradations, recoveries);
      ghost var before := deliveries;
      deliveries := degradations + deliveries;
      deliveries := recoveries + deliveries;
      TwoInserts(degradations, recoveries, before);
      completed := completed + {scan};
      snapshots := snapshots - {tx};
      Took(Complete(tx, scan, now, report));
    }

    /** Other processes take the steps `env`. */
    method Others(env: seq<Step>)
      requires Valid()
      modifies this
      ensures Valid() && View() == Run(old(View()), env) && log == old(log) + env
    {
      RunConcat(INIT, log, env);
      var s := Run(State(deliveries, active, snapshots, completed, gone, mails), env);
      deliveries, active, snapshots, completed, gone, mails := s.deliveries, s.active, s.snapshots, s.completed, s.gone, s.mails;
      log := log + env;
    }

    /** The alerts of a completed scan: the two reads, with others running in between, and the new
        deliveries. If all outstanding recoveries were about active incidents, they still are, unless
        the sending of a recovery has overtaken the completion and closed an incident that it reports. */
    method QueueAlerts(
      tx: nat, site: nat, recipients: set<nat>, scan: nat, now: int, report: Report, env: seq<Step>)
      returns (ghost before: State, ghost sending: nat)
      requires Valid() && site !in gone && Foreign(env, tx)
      modifies this
      ensures Valid() && View() == Apply(before, Complete(tx, scan, now, report))
      ensures before == Run(Apply(old(View()), ReadIncidents(tx, site, recipients)), env)
      ensures RecoveriesActive(before) ==> (RecoveriesActive(View()) <==> Timely(before, Complete(tx, scan, now, report)))
      ensures !Timely(before, Complete(tx, scan, now, report)) ==>
        exists k :: k in old(active) - before.active && Reports(before, before.snapshots[tx], report, k)
          && sending < |env| && Closes(Apply(old(View()), ReadIncidents(tx, site, recipients)), env, sending, k)
    {
      var incidents := ReadActiveIncidents(tx, site, recipients);
      ghost var read := View();
      Others(env);
      before, sending := View(), 0;
      SnapshotStays(read, env, tx);
      CompleteScan(tx, site, recipients, incidents, scan, now, report);
      RunKeepsInv(INIT, old(log));
      StepKeepsInv(old(View()), ReadIncidents(tx, site, recipients));
      RunKeepsInv(read, env);
      if RecoveriesActive(before) {
        CompleteActiveIff(before, tx, scan, now, report);
      }
      if !Timely(before, Complete(tx, scan, now, report)) {
        var k :| k in incidents && Reports(before, before.snapshots[tx], report, k) && k !in before.active;
        sending := ClosedBySending(read, env, tx, k);
      }
    }

    /** Records a mail as sent and opens or closes its incidents one by one; a claimant that no
        longer holds the delivery changes nothing. */
    method MarkNotificationSent(id: Id, attempt: nat) returns (ok: bool)
      requires Valid()
      modifies this
      ensures Valid() && View() == Apply(old(View()), MarkSent(id, attempt))
      ensures ok == Sends(old(View()), id, attempt)
    {
      ok := id in deliveries && Q.HeldBy(deliveries[id].row, attempt);
      if ok {
        var d := deliveries[id];
        deliveries := deliveries[id := d.(row := Q.Do(d.row, Q.Succeed(attempt)))];
        var incidents := active;
        var rest := d.items;
        while rest != {}
          invariant rest <= d.items
          invariant forall k :: k in incidents <==>
            if Mentions(Mail(id, d.site, d.items - rest), k) then id.kind == Degradation else k in active
          decreases rest
        {
          var f :| f in rest;
          rest := rest - {f};
          incidents := if id.kind == Degradation then incidents + {KeyOf(id, d, f)} else incidents - {KeyOf(id, d, f)};
        }
        assert d.items - {} == d.items;
        forall k {
          KeysMentioned(id, d, k);
        }
        assert incidents == if id.kind == Degradation then active + Keys(id, d) else active - Keys(id, d);
        active := incidents;
        mails := mails + [Mail(id, d.site, d.items)];
      }
      Took(MarkSent(id, attempt));
    }
  }
}
