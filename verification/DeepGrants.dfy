/** Deep audit grants: a challenge is issued, proved by a DNS record, and turned into an
    authorization; issuing and revoking fence the running Deep attempts of the site. */
module DeepGrants {
  import L = ScanLifecycle
  import opened Common

  datatype Challenge = Challenge(generation: nat, token: nat, record: nat, expiresAt: int)

  datatype Grant = Grant(generation: nat, token: nat, record: nat, verifiedAt: int, expiresAt: int, revokedAt: Option<int>)

  /** `asked` are the challenges that verifications have read and are still resolving. */
  datatype State = State(
    scans: L.State,
    challenges: map<nat, Challenge>,
    grants: map<nat, Grant>,
    asked: map<nat, (nat, Challenge)>
  )

  const INIT := State(L.INIT, map[], map[], map[])

  const CHALLENGE_TTL := 15 * 60_000
  const GRANT_TTL := 24 * 60 * 60_000

  datatype Step =
    | Issue(site: nat, generation: nat, token: nat, record: nat, now: int)
    | ReadChallenge(v: nat, site: nat)
    | Verify(v: nat, answers: set<nat>, record: nat, active: bool, now: int)   // the site's record name and state now
    | Revoke(site: nat, now: int)
    | OnScans(step: L.Step)

  function Withdrawn(grants: map<nat, Grant>, site: nat, now: int): map<nat, Grant> {
    if site in grants then grants[site := grants[site].(revokedAt := Some(now))] else grants
  }

  function ApplyIssue(s: State, site: nat, generation: nat, token: nat, record: nat, now: int): State {
    State(
      L.Apply(s.scans, L.Fence(site, now)),
      s.challenges[site := Challenge(generation, token, record, now + CHALLENGE_TTL)],
      Withdrawn(s.grants, site, now),
      s.asked)
  }

  function ApplyRevoke(s: State, site: nat, now: int): State {
    State(L.Apply(s.scans, L.Fence(site, now)), s.challenges - {site}, Withdrawn(s.grants, site, now), s.asked)
  }

  /** The proof is for the challenge that was read, and that challenge is still the current one. */
  predicate Proves(s: State, v: nat, answers: set<nat>, record: nat, active: bool, now: int) {
    && v in s.asked && active
    && var (site, c) := s.asked[v];
       && c.token in answers && site in s.challenges
       && var current := s.challenges[site];
          && current.generation == c.generation && current.token == c.token && current.record == c.record
          && current.record == record && current.expiresAt > now
  }

  function ApplyVerify(s: State, v: nat, answers: set<nat>, record: nat, active: bool, now: int): State {
    if !Proves(s, v, answers, record, active, now) then s.(asked := s.asked - {v})
    else
      var site := s.asked[v].0;
      var c := s.challenges[site];
      s.(grants := s.grants[site := Grant(c.generation, c.token, c.record, now, now + GRANT_TTL, None)],
         challenges := s.challenges - {site},
         asked := s.asked - {v})
  }

  function Apply(s: State, step: Step): State {
    match step
    case Issue(site, generation, token, record, now) => ApplyIssue(s, site, generation, token, record, now)
    case ReadChallenge(v, site) =>
      if site in s.challenges then s.(asked := s.asked[v := (site, s.challenges[site])]) else s
    case Verify(v, answers, record, active, now) => ApplyVerify(s, v, answers, record, active, now)
    case Revoke(site, now) => ApplyRevoke(s, site, now)
    case OnScans(step) => s.(scans := L.Apply(s.scans, step))
  }

  function Run(s: State, steps: seq<Step>): State
    decreases |steps|
  {
    if steps == [] then s else Apply(Run(s, steps[..|steps| - 1]), steps[|steps| - 1])
  }

  predicate Unrevoked(s: State, site: nat) {
    site in s.grants && s.grants[site].revokedAt.None?
  }

  /** An authorization that counts at `clock`. */
  predicate Live(s: State, site: nat, clock: int) {
    Unrevoked(s, site) && s.grants[site].expiresAt > clock
  }

  /** The step issues a challenge for the site, or revokes its grant. */
  predicate Resets(step: Step, site: nat) {
    (step.Issue? || step.Revoke?) && step.site == site
  }

  lemma {:induction false} RunConcat(s: State, a: seq<Step>, b: seq<Step>)
    ensures Run(s, a + b) == Run(Run(s, a), b)
    decreases |b|
  {
    if b == [] {
      assert a + b == a;
    } else {
      var c := b[..|b| - 1];
      assert (a + b)[..|a + b| - 1] == a + c;
      RunConcat(s, a, c);
    }
  }

  // ----- Which generation is authorized -----

  /** A pending challenge comes from the last reset of its site. */
  lemma {:induction false} ChallengeIsLatest(steps: seq<Step>, site: nat) returns (i: nat)
    requires site in Run(INIT, steps).challenges
    ensures i < |steps| && steps[i].Issue? && steps[i].site == site
    ensures var c := Run(INIT, steps).challenges[site]; c.generation == steps[i].generation && c.token == steps[i].token
    ensures forall j :: i < j < |steps| ==> !Resets(steps[j], site)
    decreases |steps|
  {
    var n := |steps| - 1;
    if steps[n].Issue? && steps[n].site == site {
      i := n;
    } else {
      i := ChallengeIsLatest(steps[..n], site);
    }
  }

  /** An unrevoked grant and a pending challenge never coexist. */
  lemma {:induction false} NoGrantWithChallenge(steps: seq<Step>, site: nat)
    ensures var s := Run(INIT, steps); !(Unrevoked(s, site) && site in s.challenges)
    decreases |steps|
  {
    if steps != [] {
      NoGrantWithChallenge(steps[..|steps| - 1], site);
      StepKeepsApart(Run(INIT, steps[..|steps| - 1]), steps[|steps| - 1], site);
    }
  }

  lemma StepKeepsApart(s: State, step: Step, site: nat)
    requires !(Unrevoked(s, site) && site in s.challenges)
    ensures !(Unrevoked(Apply(s, step), site) && site in Apply(s, step).challenges)
  {
  }

  /** Whatever happens while DNS is being asked: an unrevoked grant carries the generation of the last
      reset of its site, which was an issue, and was made by a verification since, whose DNS answers
      contained the token of that very generation. */
  lemma {:induction false} GrantIsLatest(steps: seq<Step>, site: nat) returns (i: nat, j: nat)
    requires Unrevoked(Run(INIT, steps), site)
    ensures i < j < |steps| && steps[i].Issue? && steps[i].site == site && steps[j].Verify?
    ensures forall k :: i < k < |steps| ==> !Resets(steps[k], site)
    ensures var g := Run(INIT, steps).grants[site];
      g.generation == steps[i].generation && g.token == steps[i].token && g.token in steps[j].answers
      && g.verifiedAt == steps[j].now && g.expiresAt == steps[j].now + GRANT_TTL
    decreases |steps|
  {
    var n := |steps| - 1;
    var s, step := Run(INIT, steps[..n]), steps[n];
    if step.Verify? && Proves(s, step.v, step.answers, step.record, step.active, step.now) && s.asked[step.v].0 == site {
      i := ChallengeIsLatest(steps[..n], site);
      j := n;
    } else {
      i, j := GrantIsLatest(steps[..n], site);
    }
  }

  /** An authorization that counts carries the generation of the last reset of its site, never stands
      beside a pending challenge, and was proved in DNS less than its term ago. */
  lemma LiveAuthorization(steps: seq<Step>, site: nat, clock: int) returns (i: nat, j: nat)
    requires Live(Run(INIT, steps), site, clock)
    ensures i < j < |steps| && steps[i].Issue? && steps[i].site == site && steps[j].Verify?
    ensures forall k :: i < k < |steps| ==> !Resets(steps[k], site)
    ensures Run(INIT, steps).grants[site].generation == steps[i].generation
    ensures steps[i].token in steps[j].answers && clock < steps[j].now + GRANT_TTL
    ensures site !in Run(INIT, steps).challenges
  {
    i, j := GrantIsLatest(steps, site);
    NoGrantWithChallenge(steps, site);
  }

  // ----- Fencing -----

  /** At `clock` the lease of attempt n is over, whatever its state. */
  ghost predicate Over(s: State, id: nat, n: nat, clock: int) {
    id in s.scans.scans ==> !L.LeaseLive(s.scans.scans[id], n, clock)
  }

  /** Issuing and revoking leave no running Deep attempt of the site with a lease beyond that instant. */
  lemma ResetFences(s: State, step: Step, site: nat, id: nat, n: nat, clock: int)
    requires Resets(step, site) && clock >= step.now
    requires id in s.scans.scans && s.scans.scans[id].site == site && s.scans.scans[id].mode == L.Deep
    ensures Over(Apply(s, step), id, n, clock)
  {
  }

  /** The database clock that a step reads, if it reads one. */
  function ClockOf(step: Step): Option<int> {
    match step
    case Issue(_, _, _, _, now) => Some(now)
    case Verify(_, _, _, _, now) => Some(now)
    case Revoke(_, now) => Some(now)
    case OnScans(Fence(_, clock)) => Some(clock)
    case OnScans(Write(_, w)) =>
      (match w
       case ClaimLease(clock) => Some(clock)
       case RenewLease(_, clock) => Some(clock)
       case PersistChecks(_, clock, _) => Some(clock)
       case _ => None)
    case _ => None
  }

  /** The clock after the run, which started at `from`. */
  function EndClock(from: int, steps: seq<Step>): int {
    if steps == [] then from
    else
      var c := ClockOf(steps[|steps| - 1]);
      if c.Some? then c.value else EndClock(from, steps[..|steps| - 1])
  }

  /** The clock never goes back. */
  ghost predicate Timely(from: int, steps: seq<Step>) {
    forall i :: 0 <= i < |steps| && ClockOf(steps[i]).Some? ==> ClockOf(steps[i]).value >= EndClock(from, steps[..i])
  }

  lemma WriteKeepsOver(scan: L.Scan, w: L.Writer, rivalled: bool, n: nat, clock: int)
    requires L.ScanOk(scan) && scan.mode == L.Deep && 1 <= n <= |scan.attempts| && !L.LeaseLive(scan, n, clock)
    requires w.RenewLease? || w.ClaimLease? || w.PersistChecks? ==> w.clock >= clock
    ensures !L.LeaseLive(L.Act(scan, w, rivalled), n, clock)
  {
    if L.IsDeep(w) {
      DeepWriteKeepsOver(scan, w, n, clock);
    }
  }

  lemma DeepWriteKeepsOver(scan: L.Scan, w: L.Writer, n: nat, clock: int)
    requires L.ScanOk(scan) && scan.mode == L.Deep && 1 <= n <= |scan.attempts| && !L.LeaseLive(scan, n, clock)
    requires L.IsDeep(w) && (w.RenewLease? || w.ClaimLease? || w.PersistChecks? ==> w.clock >= clock)
    ensures !L.LeaseLive(L.ActDeep(scan, w), n, clock)
  {
  }

  lemma StepKeepsOver(s: State, step: Step, id: nat, n: nat, clock: int, clock': int)
    requires L.Inv(s.scans) && id in s.scans.used && Over(s, id, n, clock)
    requires id in s.scans.scans ==> s.scans.scans[id].mode == L.Deep && 1 <= n <= |s.scans.scans[id].attempts|
    requires clock' == (if ClockOf(step).Some? then ClockOf(step).value else clock) >= clock
    ensures Over(Apply(s, step), id, n, clock')
  {
    match step
    case Issue(site, _, _, _, now) => FenceKeepsOver(s.scans, site, now, id, n, clock);
    case Revoke(site, now) => FenceKeepsOver(s.scans, site, now, id, n, clock);
    case OnScans(l) => ScanStepKeepsOver(s.scans, l, id, n, clock);
    case _ =>
  }

  lemma FenceKeepsOver(scans: L.State, site: nat, now: int, id: nat, n: nat, clock: int)
    requires now >= clock && (id in scans.scans ==> !L.LeaseLive(scans.scans[id], n, clock))
    ensures id in L.Apply(scans, L.Fence(site, now)).scans ==>
      !L.LeaseLive(L.Apply(scans, L.Fence(site, now)).scans[id], n, now)
  {
  }

  lemma ScanStepKeepsOver(scans: L.State, l: L.Step, id: nat, n: nat, clock: int)
    requires L.Inv(scans) && id in scans.used
    requires id in scans.scans ==>
      !L.LeaseLive(scans.scans[id], n, clock) && scans.scans[id].mode == L.Deep && 1 <= n <= |scans.scans[id].attempts|
    requires var c := ClockOf(OnScans(l)); c.Some? ==> c.value >= clock
    ensures id in L.Apply(scans, l).scans ==> !L.LeaseLive(
      L.Apply(scans, l).scans[id], n, if ClockOf(OnScans(l)).Some? then ClockOf(OnScans(l)).value else clock)
  {
    if id in scans.scans && l.Write? && l.id == id {
      var scan := scans.scans[id];
      WriteKeepsOver(scan, l.writer, L.Rivalled(scans, id, scan.site), n, clock);
    } else if l.Fence? && id in scans.scans {
      FenceKeepsOver(scans, l.site, l.clock, id, n, clock);
    }
  }

  lemma {:induction false} ScansKeepInv(s: State, steps: seq<Step>)
    requires L.Inv(s.scans)
    ensures L.Inv(Run(s, steps).scans)
    decreases |steps|
  {
    if steps != [] {
      var step := steps[|steps| - 1];
      ScansKeepInv(s, steps[..|steps| - 1]);
      var s1 := Run(s, steps[..|steps| - 1]);
      if step.OnScans? {
        L.StepKeepsInv(s1.scans, step.step);
      } else if step.Issue? || step.Revoke? {
        L.StepKeepsInv(s1.scans, L.Fence(step.site, step.now));
      }
    }
  }

  lemma StepKeepsScan(s: State, step: Step, id: nat)
    requires L.Inv(s.scans) && id in s.scans.used
    ensures id in Apply(s, step).scans.used
    ensures id in Apply(s, step).scans.scans ==>
      && id in s.scans.scans
      && L.CountersGrown(s.scans.scans[id], Apply(s, step).scans.scans[id])
      && Apply(s, step).scans.scans[id].mode == s.scans.scans[id].mode
  {
    var lstep := if step.OnScans? then step.step
      else if step.Issue? || step.Revoke? then L.Fence(step.site, step.now) else L.Fence(0, 0);
    if id in s.scans.scans && id in L.Apply(s.scans, lstep).scans {
      L.StepGrows(s.scans, lstep, id);
      if lstep.Write? && lstep.id == id {
        L.ActKeepsIdentity(s.scans.scans[id], lstep.writer, L.Rivalled(s.scans, id, s.scans.scans[id].site));
      }
    }
  }

  lemma {:induction false} OverForever(s: State, steps: seq<Step>, id: nat, n: nat, clock: int)
    requires L.Inv(s.scans) && id in s.scans.scans && s.scans.scans[id].mode == L.Deep
    requires 1 <= n <= |s.scans.scans[id].attempts| && Over(s, id, n, clock) && Timely(clock, steps)
    ensures var s' := Run(s, steps);
      && id in s'.scans.used && Over(s', id, n, EndClock(clock, steps)) && EndClock(clock, steps) >= clock
      && (id in s'.scans.scans ==> s'.scans.scans[id].mode == L.Deep && n <= |s'.scans.scans[id].attempts|)
    decreases |steps|
  {
    if steps != [] {
      var before, step := steps[..|steps| - 1], steps[|steps| - 1];
      assert forall i :: 0 <= i < |before| ==> before[..i] == steps[..i];
      OverForever(s, before, id, n, clock);
      ScansKeepInv(s, before);
      var s1 := Run(s, before);
      StepKeepsScan(s1, step, id);
      StepKeepsOver(s1, step, id, n, EndClock(clock, before), EndClock(clock, steps));
    }
  }

  lemma ResetKeepsScan(s: State, reset: Step, site: nat, id: nat)
    requires L.Inv(s.scans) && Resets(reset, site) && id in s.scans.scans
    ensures var s1 := Apply(s, reset);
      && L.Inv(s1.scans) && id in s1.scans.scans && s1.scans.scans[id].mode == s.scans.scans[id].mode
      && |s1.scans.scans[id].attempts| == |s.scans.scans[id].attempts|
  {
    L.StepKeepsInv(s.scans, L.Fence(site, reset.now));
  }

  /** After its lease is over an attempt can neither renew it nor store results. */
  lemma OverBlocks(s: State, id: nat, n: nat, clock: int, w: L.Writer)
    requires Over(s, id, n, clock) && (w.RenewLease? || w.PersistChecks?) && w.attempt == n && w.clock >= clock
    ensures Apply(s, OnScans(L.Write(id, w))) == s
  {
    if id in s.scans.scans {
      assert s.scans.scans[id := s.scans.scans[id]] == s.scans.scans;
    }
  }

  /** A Deep attempt that was there when its site was reset can, from then on, neither renew its lease
      nor store results, however the run goes on. */
  lemma FencedAttemptIsPowerless(s: State, reset: Step, site: nat, steps: seq<Step>, id: nat, n: nat, w: L.Writer)
    requires L.Inv(s.scans) && Resets(reset, site)
    requires id in s.scans.scans && s.scans.scans[id].site == site && s.scans.scans[id].mode == L.Deep
    requires 1 <= n <= |s.scans.scans[id].attempts| && Timely(reset.now, steps)
    requires (w.RenewLease? || w.PersistChecks?) && w.attempt == n && w.clock >= EndClock(reset.now, steps)
    ensures var s' := Run(Apply(s, reset), steps); Apply(s', OnScans(L.Write(id, w))) == s'
  {
    ResetFences(s, reset, site, id, n, reset.now);
    ResetKeepsScan(s, reset, site, id);
    OverForever(Apply(s, reset), steps, id, n, reset.now);
    OverBlocks(Run(Apply(s, reset), steps), id, n, EndClock(reset.now, steps), w);
  }

  // ----- The code -----

  class Store {
    var scans: L.State
    var challenges: map<nat, Challenge>
    var grants: map<nat, Grant>
    var asked: map<nat, (nat, Challenge)>
    ghost var log: seq<Step>

    function View(): State
      reads this
    {
      State(scans, challenges, grants, asked)
    }

    ghost predicate Valid()
      reads this
    {
      View() == Run(INIT, log)
    }

    constructor ()
      ensures Valid() && log == []
    {
      scans, challenges, grants, asked, log := L.INIT, map[], map[], map[], [];
    }

    ghost method Took(step: Step)
      requires View() == Apply(Run(INIT, log), step)
      modifies this`log
      ensures Valid() && log == old(log) + [step]
    {
      assert (log + [step])[..|log|] == log;
      log := log + [step];
    }

    /** Other processes take the steps `env`. */
    method Others(env: seq<Step>)
      requires Valid()
      modifies this
      ensures Valid() && View() == Run(old(View()), env) && log == old(log) + env
    {
      RunConcat(INIT, log, env);
      var s := Run(View(), env);
      scans, challenges, grants, asked := s.scans, s.challenges, s.grants, s.asked;
      log := log + env;
    }
  
    /** Rotates the challenge; an earlier grant is withdrawn and running attempts are fenced. */
    method IssueDeepAuditChallenge(site: nat, active: bool, generation: nat, token: nat, record: nat, now: int)
      returns (ok: bool)
      requires Valid()
      modifies this
      ensures Valid() && ok == active
      ensures View() == if ok then Apply(old(View()), Issue(site, generation, token, record, now)) else old(View())
      ensures ok ==> !Unrevoked(View(), site)
    {
      ok := active;
      if ok {
        challenges := challenges[site := Challenge(generation, token, record, now + CHALLENGE_TTL)];
        if site in grants {
          grants := grants[site := grants[site].(revokedAt := Some(now))];
        }
        scans := L.Apply(scans, L.Fence(site, now));
        Took(Issue(site, generation, token, record, now));
      }
    }

    method RevokeDeepAuditGrant(site: nat, now: int)
      requires Valid()
      modifies this
      ensures Valid() && View() == Apply(old(View()), Revoke(site, now))
      ensures !Unrevoked(View(), site) && site !in challenges
    {
      if site in grants {
        grants := grants[site := grants[site].(revokedAt := Some(now))];
      }
      challenges := challenges - {site};
      scans := L.Apply(scans, L.Fence(site, now));
      Took(Revoke(site, now));
    }

    /** Reads the challenge, asks DNS while others take the steps `env`, and checks everything again
        before it grants what the challenge asks for. */
    method VerifyDeepAuditChallenge(v: nat, site: nat, answers: set<nat>, env: seq<Step>, record: nat, active: bool, now: int)
      returns (ok: bool)
      requires Valid() && Uninvolved(env, v)
      modifies this
      ensures Valid()
      ensures site !in old(challenges) ==> !ok && View() == old(View())
      ensures site in old(challenges) ==>
        var s1 := Run(Apply(old(View()), ReadChallenge(v, site)), env);
        && ok == Proves(s1, v, answers, record, active, now)
        && View() == Apply(s1, Verify(v, answers, record, active, now))
      ensures ok ==> Unrevoked(View(), site) && site !in challenges
      ensures ok ==> var c := old(challenges)[site];
        grants[site] == Grant(c.generation, c.token, c.record, now, now + GRANT_TTL, None) && c.token in answers
    {
      if site !in challenges {
        return false;
      }
      var challenge := challenges[site];
      asked := asked[v := (site, challenge)];
      Took(ReadChallenge(v, site));
      AskedKept(View(), env, v);
      Others(env);
      ok := challenge.token in answers && active && site in challenges
        && challenges[site].generation == challenge.generation && challenges[site].token == challenge.token
        && challenges[site].record == challenge.record && challenges[site].record == record && challenges[site].expiresAt > now;
      if ok {
        grants := grants[site := Grant(challenge.generation, challenge.token, challenge.record, now, now + GRANT_TTL, None)];
        challenges := challenges - {site};
      }
      asked := asked - {v};
      Took(Verify(v, answers, record, active, now));
    }
  }

  /** The steps are not those of verification v. */
  ghost predicate Uninvolved(steps: seq<Step>, v: nat) {
    forall i :: 0 <= i < |steps| ==> (steps[i].ReadChallenge? || steps[i].Verify? ==> steps[i].v != v)
  }

  lemma {:induction false} AskedKept(s: State, steps: seq<Step>, v: nat)
    requires v in s.asked && Uninvolved(steps, v)
    ensures v in Run(s, steps).asked && Run(s, steps).asked[v] == s.asked[v]
    decreases |steps|
  {
    if steps != [] {
      AskedKept(s, steps[..|steps| - 1], v);
    }
  }
}
