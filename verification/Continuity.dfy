/**
The live half of the no-gaps claim, and the order of rows. Whatever the collector does, and even in
the middle of an item, a key with nothing left to do has the live object's own state as its newest
row, Event or not, and rows that are not deletions become durable in the order they were stamped.
*/
module Continuity {
  import opened Common
  import opened HashCaches
  import opened Protocol
  import opened Settlement
  import opened Lifetimes
  import opened NoGaps
  import opened Implications

  // ---------------------------------------------------------------- incarnations

  /** A claimed entry, wherever it is kept, belongs to an incarnation that is gone. */
  predicate ClaimsTheDead(s: State, e: CacheEntry) {
    e.uid != NO_UID && (e.pendingDelete ==> e.uid in s.gone)
  }

  ghost predicate Incarnations(s: State) {
    && (s.live.Some? ==> s.live.value.uid != NO_UID && s.live.value.uid !in s.gone)
    && (Held(s.worker).Some? ==> Held(s.worker).value.uid != NO_UID && Seen(s, Held(s.worker).value.uid))
    && (s.entry.Some? ==> ClaimsTheDead(s, s.entry.value) && Seen(s, s.entry.value.uid))
    && (s.entry.Some? && !s.worker.Idle? ==> DeadOrHeld(s, s.entry.value.uid))
    && (var c := Snapshotted(s.worker); c.Some? ==> ClaimsTheDead(s, c.value) && DeadOrHeld(s, c.value.uid))
  }

  predicate RevertsInKind(s: State, u: Job) {
    u.Upsert? ==>
      && u.record.sha == u.confirmed.hash
      && (u.revert.Some? ==> u.revert.value.uid == u.confirmed.uid && ClaimsTheDead(s, u.revert.value))
  }

  /** The collector's claim overtook the write: its incarnation is gone, and the entry's too. */
  predicate Overtaken(s: State, u: Job) {
    u.record.uid in s.gone && (s.entry.Some? ==> s.entry.value.uid in s.gone)
  }

  /** What settling between items fixes, even when the collector claims in the middle of one. */
  ghost predicate Stages(cfg: Config, s: State) {
    && (forall u :: u in s.jobs ==> RevertsInKind(s, u))
    && (!s.worker.Idle? ==> forall u :: u in s.jobs ==> !u.Upsert?)
    && (forall u, v :: u in s.jobs && v in s.jobs && u.Upsert? && v.Upsert? ==> u == v)
    && (forall u :: u in s.jobs && u.Upsert? ==> Current(s.entry, u) || Overtaken(s, u))
    && (s.worker.Reserving? ==>
          var u := s.worker.job;
          && RevertsInKind(s, u) && (Current(s.entry, u) || Overtaken(s, u))
          && u.Upsert? && u.record.uid == s.worker.obj.uid && u.record.sha == cfg.codec.hash(s.worker.obj.json))
    && (var c := Snapshotted(s.worker); c.Some? && c.value.uid !in s.gone ==> s.entry == c)
  }

  ghost predicate Core(cfg: Config, s: State) {
    VersionInv(s) && Incarnations(s) && Stages(cfg, s)
  }

  lemma StagesEnvironment(cfg: Config, h: Hypotheses, s: State, step: Step)
    requires Stages(cfg, s) && Enabled(cfg, s, step) && Allowed(h, s, step)
    requires Environment(step) && h.settled
    ensures Stages(cfg, Next(cfg, s, step))
  {
  }

  lemma IncarnationsEnvironment(cfg: Config, h: Hypotheses, s: State, step: Step)
    requires Incarnations(s) && Enabled(cfg, s, step) && Allowed(h, s, step)
    requires Environment(step) && h.uids
    ensures Incarnations(Next(cfg, s, step))
  {
  }

  lemma VersionEnvironment(cfg: Config, s: State, step: Step)
    requires VersionInv(s) && Enabled(cfg, s, step) && Environment(step)
    ensures VersionInv(Next(cfg, s, step))
  {
  }

  lemma CoreEnvironment(cfg: Config, h: Hypotheses, s: State, step: Step)
    requires Core(cfg, s) && Enabled(cfg, s, step) && Allowed(h, s, step) && Environment(step)
    requires h.settled && h.uids
    ensures Core(cfg, Next(cfg, s, step))
  {
    VersionEnvironment(cfg, s, step);
    IncarnationsEnvironment(cfg, h, s, step);
    StagesEnvironment(cfg, h, s, step);
  }

  lemma CoreRetry(cfg: Config, s: State, accepts: seq<bool>)
    requires Core(cfg, s) && s.worker.Read? && |accepts| == |s.closeOuts|
    ensures Core(cfg, AfterRetry(s, accepts))
  {
    VersionRetry(s, accepts);
    RetriedAreCloseOuts(s.closeOuts, accepts);
  }

  lemma StagesClaim(cfg: Config, s: State, uid: Uid, accepted: bool)
    requires VersionInv(s) && Stages(cfg, s) && (ClaimVerdict(s.entry, uid) == Claimed ==> s.entry.value.uid in s.gone)
    ensures Stages(cfg, ClaimAndDelete(s, uid, accepted))
  {
    var t := ClaimAndDelete(s, uid, accepted);
    forall u | u in t.jobs && u.Upsert? ensures Current(t.entry, u) || Overtaken(t, u) {
      UpsertUid(s, u);
    }
    if s.worker.Reserving? {
      assert Outstanding(s)[0] == s.worker.job;
    }
  }

  /** A claim of a dead incarnation overtakes what was current. */
  lemma CoreClaim(cfg: Config, s: State, uid: Uid, accepted: bool)
    requires Core(cfg, s) && (ClaimVerdict(s.entry, uid) == Claimed ==> s.entry.value.uid in s.gone)
    ensures Core(cfg, ClaimAndDelete(s, uid, accepted))
  {
    VersionClaim(s, uid, accepted);
    StagesClaim(cfg, s, uid, accepted);
  }

  lemma CoreEmitDelete(cfg: Config, s: State, accepted: bool)
    requires Core(cfg, s) && s.worker.Retried? && s.worker.found.None?
    ensures Core(cfg, AfterEmitDelete(s, accepted))
  {
    CoreClaim(cfg, s, NO_UID, accepted);
  }

  lemma CoreCloseOld(cfg: Config, s: State, accepted: bool)
    requires Core(cfg, s) && s.worker.Loaded?
    ensures Core(cfg, AfterCloseOld(cfg, s, accepted))
  {
    VersionCloseOld(cfg, s, accepted);
  }

  lemma CoreReserve(cfg: Config, s: State, warm: bool)
    requires Core(cfg, s) && s.worker.Closed?
    requires s.entry.None? ==> forall i :: 0 <= i < |s.jobs| ==> !Versioned(s.jobs[i])
    ensures Core(cfg, AfterReserve(cfg, s, warm))
  {
    VersionReserve(cfg, s, warm);
  }

  lemma CoreSubmit(cfg: Config, s: State, accepted: bool)
    requires Core(cfg, s) && s.worker.Reserving?
    ensures Core(cfg, AfterSubmit(s, accepted))
  {
    VersionSubmit(s, accepted);
    assert Outstanding(s)[0] == s.worker.job;
  }

  /** Only the current job's callback does anything, and it keeps the incarnation. */
  lemma SettleInKind(s: State, job: Job, ok: bool)
    requires WellFormed(job) && Gated(s.entry, job) && RevertsInKind(s, job)
    ensures var e := Committed(s.entry, job, ok);
      && (!Current(s.entry, job) ==> e == s.entry)
      && (e.Some? ==> s.entry.Some? && e.value.uid == s.entry.value.uid && e.value.version == s.entry.value.version)
      && (e.Some? && e.value.pendingDelete ==> s.entry.value.pendingDelete || e.value.uid in s.gone)
  {
  }

  lemma IncarnationsSettle(s: State, i: nat, ok: bool)
    requires Incarnations(s) && i < |s.jobs|
    requires WellFormed(s.jobs[i]) && Gated(s.entry, s.jobs[i]) && RevertsInKind(s, s.jobs[i])
    ensures Incarnations(AfterSettle(s, i, ok, ok))
  {
    SettleInKind(s, s.jobs[i], ok);
  }

  lemma StagesSettle(cfg: Config, s: State, i: nat, ok: bool)
    requires Core(cfg, s) && i < |s.jobs|
    ensures Stages(cfg, AfterSettle(s, i, ok, ok))
  {
    var t, j := AfterSettle(s, i, ok, ok), s.jobs[i];
    assert j in s.jobs;
    WithoutMembers(s, i);
    OutstandingJob(s, i);
    SettleInKind(s, j, ok);
    forall u | u in t.jobs && u.Upsert? ensures Current(t.entry, u) || Overtaken(t, u) {
      if Versioned(j) {
        DifferentVersions(s, u, j);
      }
    }
    if s.worker.Reserving? && Versioned(j) {
      assert Outstanding(s)[0] == s.worker.job && Outstanding(s)[i + 1] == j;
      assert s.worker.job.version != j.version;
    }
  }

  lemma CoreSettle(cfg: Config, s: State, i: nat, ok: bool)
    requires Core(cfg, s) && i < |s.jobs|
    ensures Core(cfg, AfterSettle(s, i, ok, ok))
  {
    assert s.jobs[i] in s.jobs;
    VersionSettle(s, i, ok, ok);
    OutstandingJob(s, i);
    IncarnationsSettle(s, i, ok);
    StagesSettle(cfg, s, i, ok);
  }

  // ---------------------------------------------------------------- the order of rows

  /** Every deletion, durable, in flight or owed, is older than `ts`. */
  ghost predicate DeathsBefore(s: State, ts: nat) {
    && (forall r :: r in s.rows && r.event == Deleted ==> r.ts < ts)
    && (forall j :: j in s.jobs && !j.Upsert? ==> j.record.ts < ts)
    && (forall r :: r in s.closeOuts ==> r.ts < ts)
  }

  /** The last row that is not a deletion speaks for `e`, and no deletion will ever be newer. */
  ghost predicate LiveRow(s: State, e: CacheEntry) {
    && LastLive(s.rows).Some?
    && RowFor(LastLive(s.rows).value, e)
    && DeathsBefore(s, LastLive(s.rows).value.ts)
  }

  /** A write is stamped after every row; if its incarnation lives, also after every deletion. */
  ghost predicate Timed(s: State, u: Job)
    requires u.Upsert?
  {
    && LiveTop(s.rows) <= u.record.ts < s.clock
    && (u.record.uid !in s.gone ==>
          DeathsBefore(s, u.record.ts) && (u.revert.Some? ==> LiveRow(s, u.revert.value)))
  }

  ghost predicate Ordered(s: State) {
    && LiveTop(s.rows) <= s.clock && LiveAscending(s.rows) && DeathsBefore(s, s.clock)
    && (forall u :: u in s.jobs && u.Upsert? ==> Timed(s, u))
    && (s.worker.Reserving? && s.worker.job.Upsert? ==> Timed(s, s.worker.job))
    && (!OwnedByUpsert(s) && s.entry.Some? && s.entry.value.uid !in s.gone ==> LiveRow(s, s.entry.value))
  }

  /** No row is added, no deletion appears, and the writes stay the same; the entry may be forgotten. */
  ghost predicate KeepsOrder(s: State, t: State) {
    && t.rows == s.rows && s.clock <= t.clock && s.gone <= t.gone
    && (forall j :: j in t.jobs && !j.Upsert? ==> j in s.jobs || j.record in s.closeOuts)
    && (forall r :: r in t.closeOuts ==> r in s.closeOuts)
    && (forall u :: u in t.jobs && u.Upsert? ==> u in s.jobs)
    && (forall u :: u in s.jobs && u.Upsert? ==> u in t.jobs)
    && (t.worker == s.worker || (!s.worker.Reserving? && !t.worker.Reserving?))
    && (t.entry.Some? ==> s.entry.Some? && t.entry.value.(baseline := s.entry.value.baseline) == s.entry.value)
  }

  lemma OrderCarry(s: State, t: State)
    requires Ordered(s) && KeepsOrder(s, t)
    ensures Ordered(t)
  {
    forall ts: nat | DeathsBefore(s, ts) ensures DeathsBefore(t, ts) {
    }
    forall u | u in t.jobs && u.Upsert? ensures Timed(t, u) {
      assert Timed(s, u);
    }
    if !OwnedByUpsert(t) && t.entry.Some? {
      assert !OwnedByUpsert(s);
    }
  }

  lemma OrderEnvironment(cfg: Config, s: State, step: Step)
    requires Ordered(s) && Enabled(cfg, s, step) && Environment(step)
    ensures Ordered(Next(cfg, s, step))
  {
    EnvironmentKeepsOrder(cfg, s, step);
    OrderCarry(s, Next(cfg, s, step));
  }

  lemma EnvironmentKeepsOrder(cfg: Config, s: State, step: Step)
    requires Enabled(cfg, s, step) && Environment(step)
    ensures KeepsOrder(s, Next(cfg, s, step))
  {
  }

  lemma OrderRetry(s: State, accepts: seq<bool>)
    requires Ordered(s) && s.worker.Read? && |accepts| == |s.closeOuts|
    ensures Ordered(AfterRetry(s, accepts))
  {
    RetriedAreCloseOuts(s.closeOuts, accepts);
    OrderCarry(s, AfterRetry(s, accepts));
  }

  /** A write of a living incarnation is current, and of the entry's incarnation. */
  lemma LivingIsCurrent(cfg: Config, s: State, u: Job)
    requires Core(cfg, s) && u.Upsert? && u.record.uid !in s.gone
    requires u in s.jobs || (s.worker.Reserving? && u == s.worker.job)
    ensures Current(s.entry, u) && s.entry.value.uid == u.record.uid && s.entry.value.hash == u.record.sha
  {
    if u in s.jobs {
      UpsertUid(s, u);
    } else {
      assert Outstanding(s)[0] == u;
    }
  }

  /** A claim stamps the newest deletion, but nothing that lives is left to be older. */
  lemma OrderClaim(cfg: Config, s: State, uid: Uid, accepted: bool)
    requires Core(cfg, s) && Ordered(s) && (ClaimVerdict(s.entry, uid) == Claimed ==> s.entry.value.uid in s.gone)
    ensures Ordered(ClaimAndDelete(s, uid, accepted))
  {
    var t := ClaimAndDelete(s, uid, accepted);
    if ClaimVerdict(s.entry, uid) == Claimed {
      forall u | (u in t.jobs || (t.worker.Reserving? && u == t.worker.job)) && u.Upsert? ensures Timed(t, u) {
        assert Timed(s, u);
        if u.record.uid !in s.gone {
          LivingIsCurrent(cfg, s, u);
        }
      }
    }
  }

  lemma OrderEmitDelete(cfg: Config, s: State, accepted: bool)
    requires Core(cfg, s) && Ordered(s) && s.worker.Retried? && s.worker.found.None?
    ensures Ordered(AfterEmitDelete(s, accepted))
  {
    OrderClaim(cfg, s, NO_UID, accepted);
    OrderCarry(ClaimAndDelete(s, NO_UID, accepted), AfterEmitDelete(s, accepted));
  }

  lemma OrderCloseOld(cfg: Config, s: State, accepted: bool)
    requires Core(cfg, s) && Ordered(s) && s.worker.Loaded?
    ensures Ordered(AfterCloseOld(cfg, s, accepted))
  {
    var t := AfterCloseOld(cfg, s, accepted);
    if ClosesOld(cfg, s) {
      assert t.entry.value.uid in t.gone;
    } else {
      OrderCarry(s, t);
    }
  }

  lemma OrderReserve(cfg: Config, s: State, warm: bool)
    requires Core(cfg, s) && Ordered(s) && s.worker.Closed?
    ensures Ordered(AfterReserve(cfg, s, warm))
  {
    var t := AfterReserve(cfg, s, warm);
    assert !OwnedByUpsert(s);
    assert forall ts: nat :: DeathsBefore(s, ts) ==> DeathsBefore(t, ts);
  }

  lemma OrderAccepted(cfg: Config, s: State)
    requires Core(cfg, s) && Ordered(s) && s.worker.Reserving?
    ensures Ordered(AfterSubmit(s, true))
  {
    var t, u := AfterSubmit(s, true), s.worker.job;
    assert forall ts: nat :: DeathsBefore(s, ts) ==> DeathsBefore(t, ts);
    assert forall v :: v in t.jobs && v.Upsert? ==> v == u;
    assert t.jobs[|s.jobs|] == u;
    if u.record.uid !in s.gone {
      LivingIsCurrent(cfg, s, u);
    }
  }

  lemma OrderRefused(cfg: Config, s: State)
    requires Core(cfg, s) && Ordered(s) && s.worker.Reserving?
    ensures Ordered(AfterSubmit(s, false))
  {
    var t, u := AfterSubmit(s, false), s.worker.job;
    assert t.rows == s.rows && t.jobs == s.jobs && t.closeOuts == s.closeOuts && t.clock == s.clock && t.gone == s.gone;
    assert forall ts: nat :: DeathsBefore(s, ts) ==> DeathsBefore(t, ts);
    if t.entry.Some? && t.entry.value.uid !in t.gone {
      assert Outstanding(s)[0] == u;
      SettleInKind(s, u, false);
      assert u.record.uid !in s.gone;
      LivingIsCurrent(cfg, s, u);
      assert t.entry == Some(u.revert.value.(version := u.version));
    }
  }

  lemma OrderSubmit(cfg: Config, s: State, accepted: bool)
    requires Core(cfg, s) && Ordered(s) && s.worker.Reserving?
    ensures Ordered(AfterSubmit(s, accepted))
  {
    if accepted {
      OrderAccepted(cfg, s);
    } else {
      OrderRefused(cfg, s);
    }
  }

  /** Deletions only move from one place to the next, keeping their stamps. */
  lemma SettleKeepsDeaths(s: State, i: nat, ok: bool, ts: nat)
    requires VersionInv(s) && i < |s.jobs| && DeathsBefore(s, ts)
    ensures DeathsBefore(AfterSettle(s, i, ok, ok), ts)
  {
    assert s.jobs[i] in s.jobs;
    WithoutMembers(s, i);
    OutstandingJob(s, i);
  }

  lemma TimedAfterDeath(s: State, i: nat, ok: bool, u: Job)
    requires VersionInv(s) && i < |s.jobs| && !s.jobs[i].Upsert? && u.Upsert? && Timed(s, u)
    ensures Timed(AfterSettle(s, i, ok, ok), u)
  {
    OutstandingJob(s, i);
    TopsAppend(s.rows, s.jobs[i].record);
    if u.record.uid !in s.gone {
      SettleKeepsDeaths(s, i, ok, u.record.ts);
      if u.revert.Some? {
        SettleKeepsDeaths(s, i, ok, LastLive(s.rows).value.ts);
      }
    }
  }

  lemma OrderSettleDeath(cfg: Config, s: State, i: nat, ok: bool)
    requires Core(cfg, s) && Ordered(s) && i < |s.jobs| && !s.jobs[i].Upsert?
    ensures Ordered(AfterSettle(s, i, ok, ok))
  {
    var t, j := AfterSettle(s, i, ok, ok), s.jobs[i];
    assert j in s.jobs;
    WithoutMembers(s, i);
    OutstandingJob(s, i);
    TopsAppend(s.rows, j.record);
    AscendAppend(s.rows, j.record);
    SettleKeepsDeaths(s, i, ok, s.clock);
    forall u | (u in t.jobs || (t.worker.Reserving? && u == t.worker.job)) && u.Upsert? ensures Timed(t, u) {
      TimedAfterDeath(s, i, ok, u);
    }
    if t.entry.Some? && t.entry.value.uid !in t.gone && !OwnedByUpsert(t) {
      SettleInKind(s, j, ok);
      assert t.entry == s.entry;
      assert !OwnedByUpsert(s);
      SettleKeepsDeaths(s, i, ok, LastLive(s.rows).value.ts);
    }
  }

  lemma OrderSettleUpsert(cfg: Config, s: State, i: nat, ok: bool)
    requires Core(cfg, s) && Ordered(s) && i < |s.jobs| && s.jobs[i].Upsert?
    ensures Ordered(AfterSettle(s, i, ok, ok))
  {
    var t, u := AfterSettle(s, i, ok, ok), s.jobs[i];
    assert u in s.jobs && Timed(s, u);
    WithoutMembers(s, i);
    OutstandingJob(s, i);
    SettleInKind(s, u, ok);
    TopsAppend(s.rows, u.record);
    AscendAppend(s.rows, u.record);
    forall ts: nat | DeathsBefore(s, ts) ensures DeathsBefore(t, ts) {
      SettleKeepsDeaths(s, i, ok, ts);
    }
    assert forall v :: v in t.jobs ==> !v.Upsert?;
    if t.entry.Some? && t.entry.value.uid !in t.gone {
      assert Current(s.entry, u) && u.record.uid !in s.gone;
    }
  }

  // ---------------------------------------------------------------- agreement with the watch cache

  /** Unless the key is queued, the entry answers for the object the watch cache holds. */
  ghost predicate Answers(cfg: Config, s: State) {
    && (!s.queued && !s.worker.Idle? ==> s.live == Held(s.worker))
    && (!s.queued && s.worker.Idle? && s.live.Some? ==> Matches(cfg, s.entry, s.live.value))
  }

  lemma AnswersWorker(cfg: Config, h: Hypotheses, s: State, step: Step)
    requires Core(cfg, s) && Answers(cfg, s) && Enabled(cfg, s, step) && Allowed(h, s, step) && h.uids
    requires !step.Settle? && !step.Submit?
    ensures Answers(cfg, Next(cfg, s, step))
  {
  }

  lemma AnswersSubmit(cfg: Config, s: State, accepted: bool)
    requires Core(cfg, s) && Answers(cfg, s) && s.worker.Reserving?
    ensures Answers(cfg, AfterSubmit(s, accepted))
  {
    if s.worker.job.record.uid !in s.gone {
      LivingIsCurrent(cfg, s, s.worker.job);
    }
  }

  lemma AnswersSettle(cfg: Config, s: State, i: nat, ok: bool)
    requires Core(cfg, s) && Answers(cfg, s) && i < |s.jobs|
    ensures Answers(cfg, AfterSettle(s, i, ok, ok))
  {
    assert s.jobs[i] in s.jobs;
    OutstandingJob(s, i);
    SettleInKind(s, s.jobs[i], ok);
  }

  // ---------------------------------------------------------------- the theorem

  ghost predicate Continuous(cfg: Config, s: State) {
    Core(cfg, s) && Ordered(s) && Answers(cfg, s)
  }

  lemma ContinuousSettle(cfg: Config, s: State, i: nat, ok: bool)
    requires Continuous(cfg, s) && i < |s.jobs|
    ensures Continuous(cfg, AfterSettle(s, i, ok, ok))
  {
    CoreSettle(cfg, s, i, ok);
    AnswersSettle(cfg, s, i, ok);
    if s.jobs[i].Upsert? {
      OrderSettleUpsert(cfg, s, i, ok);
    } else {
      OrderSettleDeath(cfg, s, i, ok);
    }
  }

  lemma CoreStep(cfg: Config, h: Hypotheses, s: State, step: Step)
    requires Core(cfg, s) && Enabled(cfg, s, step) && Allowed(h, s, step)
    requires h.settled && h.truthful && h.lifetimes && h.uids
    ensures Core(cfg, Next(cfg, s, step))
  {
    match step
    case Retry(accepts) => CoreRetry(cfg, s, accepts);
    case EmitDelete(accepted) => CoreEmitDelete(cfg, s, accepted);
    case CloseOld(accepted) => CoreCloseOld(cfg, s, accepted);
    case Reserve(warm) => CoreReserve(cfg, s, warm);
    case Submit(accepted) => CoreSubmit(cfg, s, accepted);
    case Settle(i, ok, _) => CoreSettle(cfg, s, i, ok);
    case GcClaim(uid, accepted) => CoreClaim(cfg, s, uid, accepted);
    case _ => CoreEnvironment(cfg, h, s, step);
  }

  lemma OrderStep(cfg: Config, s: State, step: Step)
    requires Core(cfg, s) && Ordered(s) && Enabled(cfg, s, step) && !step.Settle?
    ensures Ordered(Next(cfg, s, step))
  {
    match step
    case Retry(accepts) => OrderRetry(s, accepts);
    case EmitDelete(accepted) => OrderEmitDelete(cfg, s, accepted);
    case CloseOld(accepted) => OrderCloseOld(cfg, s, accepted);
    case Reserve(warm) => OrderReserve(cfg, s, warm);
    case Submit(accepted) => OrderSubmit(cfg, s, accepted);
    case GcClaim(uid, accepted) => OrderClaim(cfg, s, uid, accepted);
    case _ => OrderEnvironment(cfg, s, step);
  }

  lemma ContinuousStep(cfg: Config, h: Hypotheses, s: State, step: Step)
    requires Continuous(cfg, s) && Enabled(cfg, s, step) && Allowed(h, s, step)
    requires h.settled && h.truthful && h.lifetimes && h.uids
    ensures Continuous(cfg, Next(cfg, s, step))
  {
    if step.Settle? {
      ContinuousSettle(cfg, s, step.index, step.ok);
    } else {
      CoreStep(cfg, h, s, step);
      OrderStep(cfg, s, step);
      if step.Submit? {
        AnswersSubmit(cfg, s, step.accepted);
      } else {
        AnswersWorker(cfg, h, s, step);
      }
    }
  }

  lemma {:induction false} ContinuousInEveryRun(cfg: Config, h: Hypotheses, s: State, steps: seq<Step>)
    requires Continuous(cfg, s) && h.settled && h.truthful && h.lifetimes && h.uids && Exec(cfg, h, s, steps).Some?
    ensures Continuous(cfg, Exec(cfg, h, s, steps).value)
    decreases steps
  {
    if steps != [] {
      ContinuousStep(cfg, h, s, steps[0]);
      ContinuousInEveryRun(cfg, h, Next(cfg, s, steps[0]), steps[1..]);
    }
  }

  /**
  The live half of the no-gaps claim, with the collector free to claim at any moment: a key with
  nothing left to do has the live object's own state as its newest row.
  */
  lemma LiveIsRecorded(cfg: Config, h: Hypotheses, steps: seq<Step>)
    requires h.settled && h.truthful && h.uids && Exec(cfg, h, INIT, steps).Some?
    ensures var s := Exec(cfg, h, INIT, steps).value;
      Quiescent(s) && s.live.Some? ==> Recorded(cfg, s.rows, s.live)
  {
    ExecClosure(cfg, h, steps);
    ContinuousInEveryRun(cfg, Closure(h), INIT, steps);
    var s := Exec(cfg, h, INIT, steps).value;
    if Quiescent(s) && s.live.Some? {
      assert !OwnedByUpsert(s);
      LiveRowIsNewest(s, s.entry.value);
    }
  }

  lemma LiveRowIsNewest(s: State, e: CacheEntry)
    requires LiveRow(s, e) && LiveAscending(s.rows)
    ensures exists i: nat :: NewestRow(s.rows, i) && RowFor(s.rows[i], e)
  {
    var n := LastLiveIsLast(s.rows);
    forall k | 0 <= k < |s.rows| ensures s.rows[k].ts <= s.rows[n].ts {
      assert s.rows[k] in s.rows;
      if s.rows[k].event != Deleted {
        BelowLiveTop(s.rows, k);
      }
    }
    assert NewestRow(s.rows, n);
  }
}
