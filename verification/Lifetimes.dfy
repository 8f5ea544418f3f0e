/**
Which incarnations a key's cache entry, worker and outstanding writes can speak of: only ones
that have been seen, never one claimed as deleted that could still be recorded as live.
*/
module Lifetimes {
  import opened Common
  import opened HashCaches
  import opened Protocol
  import opened Settlement

  predicate Seen(s: State, uid: Uid) {
    uid in s.gone || (s.live.Some? && s.live.value.uid == uid)
  }

  /** The object the worker is recording, if it found one. */
  function Held(w: Worker): Option<Obj> {
    match w
    case Idle => None
    case Read(found) => found
    case Retried(found) => found
    case Loaded(obj, _) => Some(obj)
    case Closed(obj, _) => Some(obj)
    case Reserving(obj, _) => Some(obj)
  }

  function Snapshotted(w: Worker): Option<CacheEntry> {
    if w.Loaded? || w.Closed? then w.cached else None
  }

  /** `uid` is dead, or is the very object the worker found. */
  predicate DeadOrHeld(s: State, uid: Uid) {
    uid in s.gone || (Held(s.worker).Some? && Held(s.worker).value.uid == uid)
  }

  ghost predicate Lives(s: State) {
    && (s.live.Some? ==> s.live.value.uid != NO_UID && s.live.value.uid !in s.gone)
    && (Held(s.worker).Some? ==> Held(s.worker).value.uid != NO_UID && Seen(s, Held(s.worker).value.uid))
    && (s.entry.Some? ==> s.entry.value.uid != NO_UID && Seen(s, s.entry.value.uid))
    && (s.entry.Some? && !s.worker.Idle? ==> DeadOrHeld(s, s.entry.value.uid))
    && (s.entry.Some? && s.entry.value.pendingDelete ==>
          s.entry.value.uid in s.gone && !Holds(s.worker, s.entry.value.uid))
    && (var c := Snapshotted(s.worker); c.Some? ==>
          && c.value.uid != NO_UID
          && DeadOrHeld(s, c.value.uid)
          && (c.value.uid == s.worker.obj.uid ==> !c.value.pendingDelete))
  }

  predicate SafeRevert(j: Job) {
    j.Upsert? ==>
      && j.confirmed.uid != NO_UID
      && (j.revert.Some? ==> j.revert.value.uid == j.confirmed.uid && !j.revert.value.pendingDelete)
  }

  ghost predicate SafeReverts(s: State) {
    && (forall i :: 0 <= i < |s.jobs| ==> SafeRevert(s.jobs[i]))
    && (s.worker.Reserving? ==> SafeRevert(s.worker.job))
  }

  ghost predicate LifeInv(s: State) {
    VersionInv(s) && Lives(s) && SafeReverts(s)
  }

  predicate Environment(step: Step) {
    step.Observe? || step.Vanish? || step.Pick? || step.Load? || step.Rot? || step.Tick?
  }

  /** The reincarnation branch is taken and wins the claim. */
  predicate ClosesOld(cfg: Config, s: State)
    requires s.worker.Loaded?
  {
    var obj, cached := s.worker.obj, s.worker.cached;
    !cfg.ephemeral && Reincarnated(cached, obj) && ClaimVerdict(s.entry, cached.value.uid) == Claimed
  }

  /** A claim may be made: the incarnation is dead and no worker is recording it. */
  predicate Claimable(s: State, uid: Uid) {
    ClaimVerdict(s.entry, uid) == Claimed ==>
      s.entry.value.uid in s.gone && !Holds(s.worker, s.entry.value.uid)
  }

  // ---------------------------------------------------------------- every step keeps it

  lemma LivesEnvironment(cfg: Config, h: Hypotheses, s: State, step: Step)
    requires Lives(s) && Enabled(cfg, s, step) && Allowed(h, s, step) && h.uids && Environment(step)
    ensures Lives(Next(cfg, s, step))
  {
  }

  lemma LifeEnvironment(cfg: Config, h: Hypotheses, s: State, step: Step)
    requires LifeInv(s) && Enabled(cfg, s, step) && Allowed(h, s, step) && h.uids && h.lifetimes && Environment(step)
    ensures LifeInv(Next(cfg, s, step))
  {
    VersionStep(cfg, h, s, step);
    LivesEnvironment(cfg, h, s, step);
  }

  lemma LifeRetry(s: State, accepts: seq<bool>)
    requires LifeInv(s) && s.worker.Read? && |accepts| == |s.closeOuts|
    ensures LifeInv(AfterRetry(s, accepts))
  {
    VersionRetry(s, accepts);
    RetriedAreCloseOuts(s.closeOuts, accepts);
    var more := AcceptedJobs(s.closeOuts, accepts);
    assert forall i :: 0 <= i < |more| ==> more[i] in more;
  }

  lemma LivesClaim(s: State, uid: Uid, accepted: bool)
    requires Lives(s) && Claimable(s, uid)
    ensures Lives(ClaimAndDelete(s, uid, accepted))
  {
  }

  lemma LifeClaim(s: State, uid: Uid, accepted: bool)
    requires LifeInv(s) && Claimable(s, uid)
    ensures LifeInv(ClaimAndDelete(s, uid, accepted))
  {
    VersionClaim(s, uid, accepted);
    LivesClaim(s, uid, accepted);
  }

  lemma LifeEmitDelete(s: State, accepted: bool)
    requires LifeInv(s) && s.worker.Retried? && s.worker.found.None?
    ensures Claimable(s, NO_UID) && LifeInv(AfterEmitDelete(s, accepted))
  {
    LifeClaim(s, NO_UID, accepted);
  }

  lemma LivesCloseOld(cfg: Config, s: State, accepted: bool)
    requires Lives(s) && s.worker.Loaded?
    ensures Lives(AfterCloseOld(cfg, s, accepted))
  {
  }

  lemma LifeCloseOld(cfg: Config, s: State, accepted: bool)
    requires LifeInv(s) && s.worker.Loaded?
    ensures LifeInv(AfterCloseOld(cfg, s, accepted))
  {
    VersionCloseOld(cfg, s, accepted);
    LivesCloseOld(cfg, s, accepted);
  }

  lemma LivesReserve(cfg: Config, s: State, warm: bool)
    requires Lives(s) && s.worker.Closed?
    ensures Lives(AfterReserve(cfg, s, warm)) && SafeRevert(AfterReserve(cfg, s, warm).worker.job)
  {
  }

  lemma LifeReserve(cfg: Config, s: State, warm: bool)
    requires LifeInv(s) && s.worker.Closed?
    requires s.entry.None? ==> forall i :: 0 <= i < |s.jobs| ==> !Versioned(s.jobs[i])
    ensures LifeInv(AfterReserve(cfg, s, warm))
  {
    VersionReserve(cfg, s, warm);
    LivesReserve(cfg, s, warm);
  }

  /** Settling the owner of the entry keeps the incarnation it names; settling another job changes nothing. */
  lemma SettleKeepsUid(entry: Option<CacheEntry>, job: Job, ok: bool)
    requires WellFormed(job) && Gated(entry, job) && SafeRevert(job)
    ensures var e := Committed(entry, job, ok);
      e.Some? ==>
        && entry.Some?
        && e.value.uid == entry.value.uid
        && (e.value.pendingDelete ==> entry.value.pendingDelete)
        && (!e.value.pendingDelete && entry.value.pendingDelete ==>
              !ok && job.Delete? && job.record.uid == e.value.uid)
  {
  }

  lemma LifeSubmit(s: State, accepted: bool)
    requires LifeInv(s) && s.worker.Reserving?
    ensures LifeInv(AfterSubmit(s, accepted))
  {
    VersionSubmit(s, accepted);
    assert Outstanding(s)[0] == s.worker.job;
    SettleKeepsUid(s.entry, s.worker.job, false);
  }

  lemma OutstandingJob(s: State, i: nat)
    requires VersionInv(s) && i < |s.jobs|
    ensures WellFormed(s.jobs[i]) && Gated(s.entry, s.jobs[i])
  {
    assert Outstanding(s)[if s.worker.Reserving? then i + 1 else i] == s.jobs[i];
  }

  lemma LivesSettle(s: State, i: nat, ok: bool, durable: bool)
    requires Lives(s) && i < |s.jobs|
    requires WellFormed(s.jobs[i]) && Gated(s.entry, s.jobs[i]) && SafeRevert(s.jobs[i])
    ensures Lives(AfterSettle(s, i, ok, durable))
  {
    SettleKeepsUid(s.entry, s.jobs[i], ok);
  }

  lemma LifeSettle(s: State, i: nat, ok: bool, durable: bool)
    requires LifeInv(s) && i < |s.jobs|
    ensures LifeInv(AfterSettle(s, i, ok, durable))
  {
    VersionSettle(s, i, ok, durable);
    OutstandingJob(s, i);
    LivesSettle(s, i, ok, durable);
  }

  lemma LifeStep(cfg: Config, h: Hypotheses, s: State, step: Step)
    requires LifeInv(s) && Enabled(cfg, s, step) && Allowed(h, s, step)
    requires h.lifetimes && h.uids && h.calmGc
    ensures LifeInv(Next(cfg, s, step))
  {
    match step
    case Retry(accepts) => LifeRetry(s, accepts);
    case EmitDelete(accepted) => LifeEmitDelete(s, accepted);
    case CloseOld(accepted) => LifeCloseOld(cfg, s, accepted);
    case Reserve(warm) => LifeReserve(cfg, s, warm);
    case Submit(accepted) => LifeSubmit(s, accepted);
    case Settle(i, ok, durable) => LifeSettle(s, i, ok, durable);
    case GcClaim(uid, accepted) => LifeClaim(s, uid, accepted);
    case _ => LifeEnvironment(cfg, h, s, step);
  }
}
