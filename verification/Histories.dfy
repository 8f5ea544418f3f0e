/**
Whole histories: in every run whose writes settle between work items, once a key has nothing left to
do, each incarnation that was ever recorded is the live one or has its deletion on record, and that
deletion is stamped after everything else that was written about it.
*/
module Histories {
  import opened Common
  import opened HashCaches
  import opened Protocol
  import opened Settlement
  import opened Lifetimes
  import opened Implications
  import opened DeleteOnce
  import opened NoGaps

  // ---------------------------------------------------------------- every death is recorded

  /** The death of `x` is durable, or certain to be retried until it is. */
  ghost predicate Buried(s: State, x: Uid) {
    || (exists r :: r in s.rows && r.event == Deleted && r.uid == x)
    || (exists j :: j in s.jobs && j.CloseOut? && j.record.uid == x)
    || (exists r :: r in s.closeOuts && r.uid == x)
  }

  ghost predicate Chronicled(rows: seq<Record>, x: Uid) {
    exists r :: r in rows && r.event != Deleted && r.uid == x
  }

  /** A write about `x` that has not settled. */
  ghost predicate Writing(s: State, j: Job, x: Uid) {
    (j in s.jobs || (s.worker.Reserving? && j == s.worker.job)) && j.Upsert? && j.record.uid == x
  }

  predicate Cached(s: State, x: Uid) {
    s.entry.Some? && s.entry.value.uid == x
  }

  /** An incarnation with a row or a write on its way is buried or still in the cache. */
  ghost predicate Remembered(s: State, x: Uid) {
    && (Chronicled(s.rows, x) ==> Buried(s, x) || Cached(s, x))
    && (forall j :: Writing(s, j, x) ==> Buried(s, x) || Cached(s, x))
    && (forall j :: Writing(s, j, x) && j.revert.None? && Chronicled(s.rows, x) ==> Buried(s, x))
    && (s.worker.Closed? && Reincarnated(s.worker.cached, s.worker.obj) ==>
          Cached(s, s.worker.cached.value.uid) && (s.worker.cached.value.uid == x ==> Buried(s, x)))
  }

  /** Rows, writes and the cached incarnation stay, and no burial is undone. */
  ghost predicate KeepsMemory(s: State, t: State, x: Uid) {
    && t.rows == s.rows && (Buried(s, x) ==> Buried(t, x))
    && (forall j :: Writing(t, j, x) ==> Writing(s, j, x))
    && (s.entry.Some? ==> t.entry.Some? && t.entry.value.uid == s.entry.value.uid)
    && (t.worker.Closed? ==> t.worker == s.worker)
  }

  lemma MemoryCarry(s: State, t: State, x: Uid)
    requires Remembered(s, x) && KeepsMemory(s, t, x)
    ensures Remembered(t, x)
  {
  }

  lemma MemoryEnvironment(cfg: Config, s: State, step: Step, x: Uid)
    requires !cfg.ephemeral && Remembered(s, x) && Enabled(cfg, s, step) && Environment(step)
    ensures Remembered(Next(cfg, s, step), x)
  {
    MemoryCarry(s, Next(cfg, s, step), x);
  }

  lemma {:induction false} RetriedOrKept(records: seq<Record>, accepts: seq<bool>, r: Record)
    requires |records| == |accepts| && r in records
    ensures CloseOut(r) in AcceptedJobs(records, accepts) || r in RefusedRecords(records, accepts)
  {
    if records[0] != r {
      RetriedOrKept(records[1..], accepts[1..], r);
    }
  }

  lemma MemoryRetry(s: State, accepts: seq<bool>, x: Uid)
    requires Remembered(s, x) && s.worker.Read? && |accepts| == |s.closeOuts|
    ensures Remembered(AfterRetry(s, accepts), x)
  {
    var t := AfterRetry(s, accepts);
    RetriedAreCloseOuts(s.closeOuts, accepts);
    if r :| r in s.closeOuts && r.uid == x {
      RetriedOrKept(s.closeOuts, accepts, r);
      assert CloseOut(r) in t.jobs || r in t.closeOuts;
    }
    if j :| j in s.jobs && j.CloseOut? && j.record.uid == x {
      assert j in t.jobs;
    }
    MemoryCarry(s, t, x);
  }

  lemma MemoryClaim(s: State, uid: Uid, accepted: bool, x: Uid)
    requires Remembered(s, x)
    ensures Remembered(ClaimAndDelete(s, uid, accepted), x)
  {
    var t := ClaimAndDelete(s, uid, accepted);
    if j :| j in s.jobs && j.CloseOut? && j.record.uid == x {
      assert j in t.jobs;
    }
    MemoryCarry(s, t, x);
  }

  lemma MemoryEmitDelete(s: State, accepted: bool, x: Uid)
    requires Remembered(s, x) && s.worker.Retried? && s.worker.found.None?
    ensures Remembered(AfterEmitDelete(s, accepted), x)
  {
    MemoryClaim(s, NO_UID, accepted, x);
    MemoryCarry(ClaimAndDelete(s, NO_UID, accepted), AfterEmitDelete(s, accepted), x);
  }

  /** The superseded incarnation is claimed, so its death is with the sink or owed. */
  lemma MemoryCloseOld(cfg: Config, s: State, accepted: bool, x: Uid)
    requires GapInv(cfg, s) && Remembered(s, x) && s.worker.Loaded?
    ensures Remembered(AfterCloseOld(cfg, s, accepted), x)
  {
    var t := AfterCloseOld(cfg, s, accepted);
    if j :| j in s.jobs && j.CloseOut? && j.record.uid == x {
      assert j in t.jobs;
    }
    if Reincarnated(s.worker.cached, s.worker.obj) {
      var record := DeletedRecord(s.entry.value, s.clock);
      assert CloseOut(record) in t.jobs || record in t.closeOuts;
    }
  }

  lemma MemoryReserve(cfg: Config, s: State, warm: bool, x: Uid)
    requires GapInv(cfg, s) && Remembered(s, x) && s.worker.Closed?
    ensures Remembered(AfterReserve(cfg, s, warm), x)
  {
    var t := AfterReserve(cfg, s, warm);
    assert Buried(t, x) == Buried(s, x);
    assert forall j :: j in s.jobs ==> !j.Upsert?;
  }

  lemma MemoryRevert(s: State, t: State, j: Job, x: Uid)
    requires Remembered(s, x) && Writing(s, j, j.record.uid) && SafeRevert(j) && j.confirmed.uid == j.record.uid
    requires t.rows == s.rows && (Buried(s, x) ==> Buried(t, x)) && !t.worker.Closed?
    requires forall k :: Writing(t, k, x) ==> Writing(s, k, x) && (j.revert.None? ==> k.record.uid != j.record.uid)
    requires t.entry == Reverted(s.entry, j.version, j.revert)
    requires MayDelete(s.entry, j.version) ==> s.entry.value.uid == j.record.uid
    ensures Remembered(t, x)
  {
  }

  lemma MemorySubmit(cfg: Config, s: State, accepted: bool, x: Uid)
    requires GapInv(cfg, s) && Remembered(s, x) && s.worker.Reserving?
    ensures Remembered(AfterSubmit(s, accepted), x)
  {
    var t := AfterSubmit(s, accepted);
    if j :| j in s.jobs && j.CloseOut? && j.record.uid == x {
      assert j in t.jobs;
    }
    assert Outstanding(s)[0] == s.worker.job;
    if accepted {
      assert t.jobs[|s.jobs|] == s.worker.job;
      MemoryCarry(s, t, x);
    } else {
      MemoryRevert(s, t, s.worker.job, x);
    }
  }

  /** Settling a death keeps it buried, or leaves the incarnation in the cache. */
  lemma BurialStays(s: State, i: nat, ok: bool, x: Uid)
    requires VersionInv(s) && i < |s.jobs| && Buried(s, x)
    ensures Buried(AfterSettle(s, i, ok, ok), x)
  {
    var t := AfterSettle(s, i, ok, ok);
    OutstandingJob(s, i);
    if r :| r in s.rows && r.event == Deleted && r.uid == x {
      assert r in t.rows;
    } else if r :| r in s.closeOuts && r.uid == x {
      assert r in t.closeOuts;
    } else {
      var j :| j in s.jobs && j.CloseOut? && j.record.uid == x;
      SettledOrLeft(s, i, j);
      if j !in t.jobs {
        assert if ok then j.record in t.rows else j.record in t.closeOuts;
      }
    }
  }

  lemma SettledOrLeft(s: State, i: nat, j: Job)
    requires i < |s.jobs| && j in s.jobs
    ensures j == s.jobs[i] || j in Without(s.jobs, i)
  {
    var k :| 0 <= k < |s.jobs| && s.jobs[k] == j;
    if k != i {
      assert j == Without(s.jobs, i)[if k < i then k else k - 1];
    }
  }

  lemma MemorySettleUpsert(cfg: Config, s: State, i: nat, ok: bool, x: Uid)
    requires GapInv(cfg, s) && Remembered(s, x) && i < |s.jobs| && s.jobs[i].Upsert?
    ensures Remembered(AfterSettle(s, i, ok, ok), x)
  {
    var t, u := AfterSettle(s, i, ok, ok), s.jobs[i];
    assert u in s.jobs;
    WithoutMembers(s, i);
    OutstandingJob(s, i);
    if Buried(s, x) {
      BurialStays(s, i, ok, x);
    }
    assert forall v :: v in t.jobs ==> !v.Upsert?;
    if ok {
      assert forall r :: r in t.rows ==> r in s.rows || r == u.record;
      assert s.entry.Some? ==> t.entry.Some? && t.entry.value.uid == s.entry.value.uid;
      assert u.record.uid == x ==> Writing(s, u, x);
    } else {
      MemoryRevert(s, t, u, x);
    }
  }

  lemma MemorySettleDeath(cfg: Config, s: State, i: nat, ok: bool, x: Uid)
    requires GapInv(cfg, s) && Remembered(s, x) && i < |s.jobs| && !s.jobs[i].Upsert?
    ensures Remembered(AfterSettle(s, i, ok, ok), x)
  {
    var t, d := AfterSettle(s, i, ok, ok), s.jobs[i];
    assert d in s.jobs;
    WithoutMembers(s, i);
    OutstandingJob(s, i);
    if Buried(s, x) {
      BurialStays(s, i, ok, x);
    }
    assert forall r :: r in t.rows ==> r in s.rows || r == d.record;
    assert forall j :: Writing(t, j, x) ==> Writing(s, j, x);
    if ok {
      assert d.record in t.rows;
    }
  }

  lemma MemoryStep(cfg: Config, h: Hypotheses, s: State, step: Step, x: Uid)
    requires GapInv(cfg, s) && Remembered(s, x) && Enabled(cfg, s, step) && Allowed(h, s, step) && h.truthful
    ensures Remembered(Next(cfg, s, step), x)
  {
    match step
    case Retry(accepts) => MemoryRetry(s, accepts, x);
    case EmitDelete(accepted) => MemoryEmitDelete(s, accepted, x);
    case CloseOld(accepted) => MemoryCloseOld(cfg, s, accepted, x);
    case Reserve(warm) => MemoryReserve(cfg, s, warm, x);
    case Submit(accepted) => MemorySubmit(cfg, s, accepted, x);
    case GcClaim(uid, accepted) => MemoryClaim(s, uid, accepted, x);
    case Settle(i, ok, _) =>
      if s.jobs[i].Upsert? {
        MemorySettleUpsert(cfg, s, i, ok, x);
      } else {
        MemorySettleDeath(cfg, s, i, ok, x);
      }
    case _ => MemoryEnvironment(cfg, s, step, x);
  }

  lemma {:induction false} RememberedInEveryRun(cfg: Config, h: Hypotheses, s: State, steps: seq<Step>, x: Uid)
    requires GapInv(cfg, s) && Remembered(s, x) && Strict(h) && Exec(cfg, h, s, steps).Some?
    ensures Remembered(Exec(cfg, h, s, steps).value, x)
    decreases steps
  {
    if steps != [] {
      GapStep(cfg, h, s, steps[0]);
      MemoryStep(cfg, h, s, steps[0], x);
      RememberedInEveryRun(cfg, h, Next(cfg, s, steps[0]), steps[1..], x);
    }
  }

  /** A key with nothing left to do has a deletion on record for every recorded incarnation but the live one. */
  lemma EveryDeathIsRecorded(cfg: Config, h: Hypotheses, steps: seq<Step>, x: Uid)
    requires !cfg.ephemeral && h.settled && h.truthful && h.uids && h.idleGc && Exec(cfg, h, INIT, steps).Some?
    requires Quiescent(Exec(cfg, h, INIT, steps).value)
    ensures var s := Exec(cfg, h, INIT, steps).value;
      Chronicled(s.rows, x) && !(s.live.Some? && s.live.value.uid == x) ==>
        exists r :: r in s.rows && r.event == Deleted && r.uid == x
  {
    ExecClosure(cfg, h, steps);
    RememberedInEveryRun(cfg, Closure(h), INIT, steps, x);
    GapInEveryRun(cfg, h, steps);
  }

  // ---------------------------------------------------------------- a death comes last

  /** `d` records the death of `x`: durable, in flight or owed. */
  ghost predicate Death(s: State, d: Record, x: Uid) {
    d.uid == x && (
      || (d in s.rows && d.event == Deleted)
      || d in s.closeOuts
      || exists j :: j in s.jobs && !j.Upsert? && j.record == d)
  }

  /** `r` records a state of `x`: durable, in flight or about to be submitted. */
  ghost predicate Life(s: State, r: Record, x: Uid) {
    r.uid == x && ((r in s.rows && r.event != Deleted) || exists j :: Writing(s, j, x) && j.record == r)
  }

  /** Whoever has a death is gone, held by no worker, and every state was stamped before the death. */
  ghost predicate Final(s: State, x: Uid) {
    && (forall d :: Death(s, d, x) ==> d.ts < s.clock && x in s.gone && !Holds(s.worker, x))
    && (forall d, r :: Death(s, d, x) && Life(s, r, x) ==> r.ts < d.ts)
  }

  /** No death and no state is new. */
  ghost predicate NothingNewOf(s: State, t: State, x: Uid) {
    && (forall d :: Death(t, d, x) ==> Death(s, d, x))
    && (forall r :: Life(t, r, x) ==> Life(s, r, x))
    && s.clock <= t.clock && s.gone <= t.gone
    && (Holds(t.worker, x) ==> Holds(s.worker, x) || x !in s.gone)
  }

  lemma FinalCarry(s: State, t: State, x: Uid)
    requires Final(s, x) && NothingNewOf(s, t, x)
    ensures Final(t, x)
  {
  }

  lemma EnvironmentIsOld(cfg: Config, s: State, step: Step, x: Uid)
    requires !cfg.ephemeral && (s.live.Some? ==> s.live.value.uid !in s.gone)
    requires Enabled(cfg, s, step) && Environment(step)
    ensures NothingNewOf(s, Next(cfg, s, step), x)
  {
    var t := Next(cfg, s, step);
    assert t.rows == s.rows && t.jobs == s.jobs && t.closeOuts == s.closeOuts;
    assert t.worker == s.worker || (!t.worker.Reserving? && !s.worker.Reserving?);
  }

  lemma FinalEnvironment(cfg: Config, s: State, step: Step, x: Uid)
    requires !cfg.ephemeral && Lives(s) && Final(s, x) && Enabled(cfg, s, step) && Environment(step)
    ensures Final(Next(cfg, s, step), x)
  {
    EnvironmentIsOld(cfg, s, step, x);
    FinalCarry(s, Next(cfg, s, step), x);
  }

  lemma FinalRetry(s: State, accepts: seq<bool>, x: Uid)
    requires Final(s, x) && s.worker.Read? && |accepts| == |s.closeOuts|
    ensures Final(AfterRetry(s, accepts), x)
  {
    RetriedAreCloseOuts(s.closeOuts, accepts);
    FinalCarry(s, AfterRetry(s, accepts), x);
  }

  /** Everything recorded so far was stamped in the past. */
  lemma LifeIsPast(cfg: Config, s: State, r: Record, x: Uid)
    requires GapInv(cfg, s) && Life(s, r, x)
    ensures r.ts < s.clock
  {
    if r in s.rows && r.event != Deleted {
      var k :| 0 <= k < |s.rows| && s.rows[k] == r;
      BelowLiveTop(s.rows, k);
    }
  }

  /** A death stamped now comes after everything, and of someone who is gone. */
  lemma FinalDeath(cfg: Config, s: State, t: State, d: Record, x: Uid)
    requires GapInv(cfg, s) && Final(s, x) && d.ts == s.clock < t.clock && s.gone <= t.gone
    requires forall e :: Death(t, e, x) ==> Death(s, e, x) || e == d
    requires forall r :: Life(t, r, x) ==> Life(s, r, x)
    requires d.uid == x ==> x in s.gone
    requires Holds(t.worker, x) ==> Holds(s.worker, x) && d.uid != x
    ensures Final(t, x)
  {
    forall e, r | Death(t, e, x) && Life(t, r, x) ensures r.ts < e.ts {
      LifeIsPast(cfg, s, r, x);
    }
  }

  lemma FinalClaim(cfg: Config, s: State, uid: Uid, accepted: bool, x: Uid)
    requires GapInv(cfg, s) && Final(s, x)
    requires ClaimVerdict(s.entry, uid) == Claimed ==>
      s.entry.value.uid in s.gone && !Holds(s.worker, s.entry.value.uid)
    ensures Final(ClaimAndDelete(s, uid, accepted), x)
  {
    var t := ClaimAndDelete(s, uid, accepted);
    if ClaimVerdict(s.entry, uid) == Claimed {
      FinalDeath(cfg, s, t, DeletedRecord(s.entry.value, s.clock), x);
    } else {
      FinalCarry(s, t, x);
    }
  }

  lemma FinalEmitDelete(cfg: Config, s: State, accepted: bool, x: Uid)
    requires GapInv(cfg, s) && Final(s, x) && s.worker.Retried? && s.worker.found.None?
    ensures Final(AfterEmitDelete(s, accepted), x)
  {
    FinalClaim(cfg, s, NO_UID, accepted, x);
    FinalCarry(ClaimAndDelete(s, NO_UID, accepted), AfterEmitDelete(s, accepted), x);
  }

  lemma FinalCloseOld(cfg: Config, s: State, accepted: bool, x: Uid)
    requires GapInv(cfg, s) && Final(s, x) && s.worker.Loaded?
    ensures Final(AfterCloseOld(cfg, s, accepted), x)
  {
    var t := AfterCloseOld(cfg, s, accepted);
    if ClosesOld(cfg, s) {
      FinalDeath(cfg, s, t, DeletedRecord(s.entry.value, s.clock), x);
    } else {
      FinalCarry(s, t, x);
    }
  }

  lemma FinalReserve(cfg: Config, s: State, warm: bool, x: Uid)
    requires Final(s, x) && s.worker.Closed?
    ensures Final(AfterReserve(cfg, s, warm), x)
  {
    var t := AfterReserve(cfg, s, warm);
    assert forall d :: Death(t, d, x) ==> Death(s, d, x);
    forall r | Life(t, r, x) && !Life(s, r, x) ensures s.worker.obj.uid == x {
    }
  }

  lemma FinalSubmit(s: State, accepted: bool, x: Uid)
    requires Final(s, x) && s.worker.Reserving? && s.worker.job.Upsert?
    ensures Final(AfterSubmit(s, accepted), x)
  {
    FinalCarry(s, AfterSubmit(s, accepted), x);
  }

  lemma FinalSettle(s: State, i: nat, ok: bool, x: Uid)
    requires VersionInv(s) && Final(s, x) && i < |s.jobs|
    ensures Final(AfterSettle(s, i, ok, ok), x)
  {
    var t, j := AfterSettle(s, i, ok, ok), s.jobs[i];
    assert j in s.jobs;
    OutstandingJob(s, i);
    assert forall k :: k in t.jobs ==> k in s.jobs;
    assert forall r :: r in t.rows ==> r in s.rows || r == j.record;
    assert j.Upsert? ==> Writing(s, j, j.record.uid);
    FinalCarry(s, t, x);
  }

  lemma FinalStep(cfg: Config, h: Hypotheses, s: State, step: Step, x: Uid)
    requires GapInv(cfg, s) && Final(s, x) && Enabled(cfg, s, step) && Allowed(h, s, step) && Strict(h)
    ensures Final(Next(cfg, s, step), x)
  {
    match step
    case Retry(accepts) => FinalRetry(s, accepts, x);
    case EmitDelete(accepted) => FinalEmitDelete(cfg, s, accepted, x);
    case CloseOld(accepted) => FinalCloseOld(cfg, s, accepted, x);
    case Reserve(warm) => FinalReserve(cfg, s, warm, x);
    case Submit(accepted) => FinalSubmit(s, accepted, x);
    case GcClaim(uid, accepted) => FinalClaim(cfg, s, uid, accepted, x);
    case Settle(i, ok, _) => FinalSettle(s, i, ok, x);
    case _ => FinalEnvironment(cfg, s, step, x);
  }

  lemma {:induction false} FinalInEveryRun(cfg: Config, h: Hypotheses, s: State, steps: seq<Step>, x: Uid)
    requires GapInv(cfg, s) && Final(s, x) && Strict(h) && Exec(cfg, h, s, steps).Some?
    ensures Final(Exec(cfg, h, s, steps).value, x)
    decreases steps
  {
    if steps != [] {
      GapStep(cfg, h, s, steps[0]);
      FinalStep(cfg, h, s, steps[0], x);
      FinalInEveryRun(cfg, h, Next(cfg, s, steps[0]), steps[1..], x);
    }
  }

  /**
  In every run, whatever order the rows became durable in, an incarnation's deletion bears a later
  timestamp than each of its states, and no incarnation is recorded as dead before it is gone.
  */
  lemma DeathComesLast(cfg: Config, h: Hypotheses, steps: seq<Step>, i: nat, k: nat)
    requires !cfg.ephemeral && h.settled && h.truthful && h.uids && h.idleGc && Exec(cfg, h, INIT, steps).Some?
    requires var rows := Exec(cfg, h, INIT, steps).value.rows;
      i < |rows| && k < |rows| && rows[i].uid == rows[k].uid && rows[i].event != Deleted && rows[k].event == Deleted
    ensures var s := Exec(cfg, h, INIT, steps).value; s.rows[i].ts < s.rows[k].ts && s.rows[k].uid in s.gone
  {
    ExecClosure(cfg, h, steps);
    var s := Exec(cfg, h, INIT, steps).value;
    FinalInEveryRun(cfg, Closure(h), INIT, steps, s.rows[k].uid);
    assert Death(s, s.rows[k], s.rows[k].uid) && Life(s, s.rows[i], s.rows[k].uid);
  }

  ghost predicate NoDeath(rows: seq<Record>, x: Uid) {
    forall k :: 0 <= k < |rows| && rows[k].uid == x ==> rows[k].event != Deleted
  }

  /** `rows[k]` is the one deletion of `x`, and every other row of `x` is older. */
  ghost predicate OneDeath(rows: seq<Record>, x: Uid, k: nat) {
    && k < |rows| && rows[k].uid == x && rows[k].event == Deleted
    && forall i :: 0 <= i < |rows| && i != k && rows[i].uid == x ==>
         rows[i].event != Deleted && rows[i].ts < rows[k].ts
  }

  lemma LiveHasNoDeath(cfg: Config, h: Hypotheses, steps: seq<Step>, x: Uid)
    requires !cfg.ephemeral && h.settled && h.truthful && h.uids && h.idleGc && Exec(cfg, h, INIT, steps).Some?
    requires var s := Exec(cfg, h, INIT, steps).value; s.live.Some? && s.live.value.uid == x
    ensures NoDeath(Exec(cfg, h, INIT, steps).value.rows, x)
  {
    var s := Exec(cfg, h, INIT, steps).value;
    ExecClosure(cfg, h, steps);
    FinalInEveryRun(cfg, Closure(h), INIT, steps, x);
    GapInEveryRun(cfg, h, steps);
    assert forall k :: 0 <= k < |s.rows| && s.rows[k].uid == x && s.rows[k].event == Deleted ==> Death(s, s.rows[k], x);
  }

  lemma DeathIsTheOnly(cfg: Config, h: Hypotheses, steps: seq<Step>, x: Uid, k: nat)
    requires !cfg.ephemeral && h.settled && h.truthful && h.uids && h.idleGc && Exec(cfg, h, INIT, steps).Some?
    requires var rows := Exec(cfg, h, INIT, steps).value.rows;
      k < |rows| && rows[k].uid == x && rows[k].event == Deleted
    ensures OneDeath(Exec(cfg, h, INIT, steps).value.rows, x, k)
  {
    var rows := Exec(cfg, h, INIT, steps).value.rows;
    ExecClosure(cfg, h, steps);
    forall i | 0 <= i < |rows| && i != k && rows[i].uid == x
      ensures rows[i].event != Deleted && rows[i].ts < rows[k].ts
    {
      if rows[i].event != Deleted {
        DeathComesLast(cfg, h, steps, i, k);
      } else if i < k {
        AtMostOneDeletedRow(cfg, Closure(h), steps, i, k);
      } else {
        AtMostOneDeletedRow(cfg, Closure(h), steps, k, i);
      }
    }
  }

  /**
  The whole history of a key with nothing left to do: an incarnation that was ever recorded is the live
  one and has no deletion, or it has exactly one, stamped after all its states.
  */
  lemma HistoryIsComplete(cfg: Config, h: Hypotheses, steps: seq<Step>, x: Uid)
    requires !cfg.ephemeral && h.settled && h.truthful && h.uids && h.idleGc && Exec(cfg, h, INIT, steps).Some?
    requires var s := Exec(cfg, h, INIT, steps).value; Quiescent(s) && Chronicled(s.rows, x)
    ensures var s := Exec(cfg, h, INIT, steps).value;
      if s.live.Some? && s.live.value.uid == x then NoDeath(s.rows, x) else exists k :: OneDeath(s.rows, x, k)
  {
    var s := Exec(cfg, h, INIT, steps).value;
    if s.live.Some? && s.live.value.uid == x {
      LiveHasNoDeath(cfg, h, steps, x);
    } else {
      EveryDeathIsRecorded(cfg, h, steps, x);
      var r :| r in s.rows && r.event == Deleted && r.uid == x;
      var k :| 0 <= k < |s.rows| && s.rows[k] == r;
      DeathIsTheOnly(cfg, h, steps, x, k);
    }
  }
}
