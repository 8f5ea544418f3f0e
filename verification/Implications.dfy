/**
How the hypotheses on runs relate: fewer of them allow more runs, a key whose jobs settle between
items respects lifetimes by itself, and an idle collector is a calm one.
*/
module Implications {
  import opened Common
  import opened HashCaches
  import opened Protocol

  lemma {:induction false} ExecConcat(cfg: Config, h: Hypotheses, s: State, a: seq<Step>, b: seq<Step>)
    requires Exec(cfg, h, s, a).Some?
    ensures Exec(cfg, h, s, a + b) == Exec(cfg, h, Exec(cfg, h, s, a).value, b)
    decreases a
  {
    if a == [] {
      assert a + b == b;
    } else {
      ExecConcat(cfg, h, Next(cfg, s, a[0]), a[1..], b);
      assert (a + b)[1..] == a[1..] + b;
    }
  }

  /** Whatever `g` asks, `h` asks too. */
  predicate Stronger(h: Hypotheses, g: Hypotheses) {
    && (g.settled ==> h.settled) && (g.truthful ==> h.truthful) && (g.lifetimes ==> h.lifetimes)
    && (g.uids ==> h.uids) && (g.calmGc ==> h.calmGc) && (g.idleGc ==> h.idleGc) && (g.clearGc ==> h.clearGc)
  }

  lemma {:induction false} ExecStronger(cfg: Config, h: Hypotheses, g: Hypotheses, s: State, steps: seq<Step>)
    requires Stronger(h, g) && Exec(cfg, h, s, steps).Some?
    ensures Exec(cfg, g, s, steps) == Exec(cfg, h, s, steps)
    decreases steps
  {
    if steps != [] {
      ExecStronger(cfg, h, g, Next(cfg, s, steps[0]), steps[1..]);
    }
  }

  // ---------------------------------------------------------------- settled keys respect lifetimes

  predicate BeforeReserve(w: Worker) {
    w.Read? || w.Retried? || w.Loaded? || w.Closed?
  }

  /** The only versioned job there may be is the deletion whose claim the entry carries. */
  predicate OneClaim(entry: Option<CacheEntry>, jobs: seq<Job>) {
    && (forall i :: 0 <= i < |jobs| && Versioned(jobs[i]) ==>
          jobs[i].Delete? && entry.Some? && entry.value.version == jobs[i].version && entry.value.pendingDelete)
    && (forall i, k :: 0 <= i < k < |jobs| ==> !Versioned(jobs[i]) || !Versioned(jobs[k]))
  }

  predicate Unreserved(s: State) {
    BeforeReserve(s.worker) ==> OneClaim(s.entry, s.jobs)
  }

  lemma OneClaimMore(entry: Option<CacheEntry>, jobs: seq<Job>, more: seq<Job>)
    requires OneClaim(entry, jobs) && forall j :: j in more ==> !Versioned(j)
    ensures OneClaim(entry, jobs + more)
  {
    assert forall i :: 0 <= i < |more| ==> more[i] in more;
  }

  lemma {:induction false} AcceptedAreUnversioned(records: seq<Record>, accepts: seq<bool>)
    requires |records| == |accepts|
    ensures forall j :: j in AcceptedJobs(records, accepts) ==> !Versioned(j)
  {
    if records != [] {
      AcceptedAreUnversioned(records[1..], accepts[1..]);
    }
  }

  lemma OneClaimSettles(entry: Option<CacheEntry>, jobs: seq<Job>, i: nat, ok: bool)
    requires OneClaim(entry, jobs) && i < |jobs|
    ensures OneClaim(Committed(entry, jobs[i], ok), Without(jobs, i))
  {
    var rest := Without(jobs, i);
    forall k | 0 <= k < |rest| ensures rest[k] == jobs[if k < i then k else k + 1] {
    }
  }

  lemma UnreservedRetry(s: State, accepts: seq<bool>)
    requires Unreserved(s) && s.worker.Read? && |accepts| == |s.closeOuts|
    ensures Unreserved(AfterRetry(s, accepts))
  {
    AcceptedAreUnversioned(s.closeOuts, accepts);
    OneClaimMore(s.entry, s.jobs, AcceptedJobs(s.closeOuts, accepts));
  }

  lemma UnreservedClaim(s: State, uid: Uid, accepted: bool)
    requires Unreserved(s)
    ensures Unreserved(ClaimAndDelete(s, uid, accepted))
  {
  }

  lemma UnreservedCloseOld(cfg: Config, s: State, accepted: bool)
    requires Unreserved(s) && s.worker.Loaded?
    ensures Unreserved(AfterCloseOld(cfg, s, accepted))
  {
  }

  lemma UnreservedStep(cfg: Config, h: Hypotheses, s: State, step: Step)
    requires h.settled && Unreserved(s) && Enabled(cfg, s, step) && Allowed(h, s, step)
    ensures Unreserved(Next(cfg, s, step))
    ensures step.Reserve? && s.entry.None? ==> forall i :: 0 <= i < |s.jobs| ==> !Versioned(s.jobs[i])
  {
    match step
    case Retry(accepts) => UnreservedRetry(s, accepts);
    case CloseOld(accepted) => UnreservedCloseOld(cfg, s, accepted);
    case GcClaim(uid, accepted) => UnreservedClaim(s, uid, accepted);
    case Settle(i, ok, _) =>
      if BeforeReserve(s.worker) {
        OneClaimSettles(s.entry, s.jobs, i, ok);
      }
    case _ =>
  }

  /** A run whose items start only once the key's jobs have settled never re-inserts it too early. */
  lemma {:induction false} SettledRespectsLifetimes(cfg: Config, h: Hypotheses, s: State, steps: seq<Step>)
    requires h.settled && Unreserved(s) && Exec(cfg, h, s, steps).Some?
    ensures Exec(cfg, h.(lifetimes := true), s, steps) == Exec(cfg, h, s, steps)
    decreases steps
  {
    if steps != [] {
      UnreservedStep(cfg, h, s, steps[0]);
      SettledRespectsLifetimes(cfg, h, Next(cfg, s, steps[0]), steps[1..]);
    }
  }

  /** A collector that only claims while no worker is busy never claims what a worker holds. */
  lemma {:induction false} IdleIsCalm(cfg: Config, h: Hypotheses, s: State, steps: seq<Step>)
    requires h.idleGc && Exec(cfg, h, s, steps).Some?
    ensures Exec(cfg, h.(calmGc := true), s, steps) == Exec(cfg, h, s, steps)
    decreases steps
  {
    if steps != [] {
      IdleIsCalm(cfg, h, Next(cfg, s, steps[0]), steps[1..]);
    }
  }

  /** `h` with what follows from it. */
  function Closure(h: Hypotheses): Hypotheses {
    h.(lifetimes := h.lifetimes || h.settled, calmGc := h.calmGc || h.idleGc)
  }

  lemma ExecClosure(cfg: Config, h: Hypotheses, steps: seq<Step>)
    requires Exec(cfg, h, INIT, steps).Some?
    ensures Exec(cfg, Closure(h), INIT, steps) == Exec(cfg, h, INIT, steps)
  {
    if h.settled {
      SettledRespectsLifetimes(cfg, h, INIT, steps);
    }
    var g := h.(lifetimes := h.lifetimes || h.settled);
    assert Exec(cfg, g, INIT, steps) == Exec(cfg, h, INIT, steps);
    if g.idleGc {
      IdleIsCalm(cfg, g, INIT, steps);
    }
  }
}
