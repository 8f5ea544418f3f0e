/**
Bounded exact replay: folding the patches recorded after an incarnation's newest data-bearing row
reproduces exactly the state hashed on its newest row, and the number of patches to fold is the
cache's own count, which stays below the sink's checkpoint cadence.
*/
module Replay {
  import opened Common
  import opened HashCaches
  import opened Protocol
  import opened Settlement
  import opened Lifetimes
  import opened NoGaps
  import opened Implications
  import opened Continuity

  datatype Replayed = Replayed(json: Json, patches: nat)

  /** One row of the incarnation is read on top of what was replayed so far. */
  function ReplayRow(c: Codec, before: Option<Replayed>, r: Record): Option<Replayed> {
    if r.data.Some? then Some(Replayed(r.data.value, 0))
    else if before.None? || r.diff.None? then None
    else
      var json := c.apply(r.diff.value, before.value.json);
      if json.None? then None else Some(Replayed(json.value, before.value.patches + 1))
  }

  /** The reader's recipe over the rows of incarnation `uid`, in durable order. */
  function ReplayRows(c: Codec, rows: seq<Record>, uid: Uid): Option<Replayed> {
    if rows == [] then None
    else
      var last, before := rows[|rows| - 1], ReplayRows(c, rows[..|rows| - 1], uid);
      if last.event == Deleted || last.uid != uid then before else ReplayRow(c, before, last)
  }

  /** The newest row of incarnation `uid` that is not its deletion. */
  function NewestOf(rows: seq<Record>, uid: Uid): Option<Record> {
    if rows == [] then None
    else
      var last := rows[|rows| - 1];
      if last.event != Deleted && last.uid == uid then Some(last) else NewestOf(rows[..|rows| - 1], uid)
  }

  predicate Below(every: int, patches: nat) {
    every > 0 ==> patches < every
  }

  predicate Exact(cfg: Config, replayed: Option<Replayed>, sha: Digest) {
    replayed.Some? && cfg.codec.hash(replayed.value.json) == sha && Below(cfg.every, replayed.value.patches)
  }

  /** Every incarnation replays to the state hashed on its newest row. */
  ghost predicate AllExact(cfg: Config, rows: seq<Record>) {
    forall uid :: NewestOf(rows, uid).Some? ==>
      Exact(cfg, ReplayRows(cfg.codec, rows, uid), NewestOf(rows, uid).value.sha)
  }

  /** The cache entry `e` describes what replaying its incarnation yields. */
  predicate Anchored(cfg: Config, rows: seq<Record>, e: CacheEntry) {
    var replayed := ReplayRows(cfg.codec, rows, e.uid);
    && Exact(cfg, replayed, e.hash)
    && replayed.value.patches == e.modifiedSinceCheckpoint
    && (var d := DecodeBaseline(cfg.codec, e.baseline); d.Text? ==> d.json == replayed.value.json)
  }

  /** Once `u` is durable, its confirmed entry is anchored. */
  predicate Fits(cfg: Config, rows: seq<Record>, u: Job)
    requires u.Upsert?
  {
    var replayed := ReplayRow(cfg.codec, ReplayRows(cfg.codec, rows, u.record.uid), u.record);
    && Exact(cfg, replayed, u.record.sha)
    && u.confirmed.hash == u.record.sha && u.confirmed.uid == u.record.uid
    && replayed.value.patches == u.confirmed.modifiedSinceCheckpoint
    && DecodeBaseline(cfg.codec, u.confirmed.baseline) == Text(replayed.value.json)
  }

  /** `uid` can still be written; with `all`, every incarnation counts. */
  predicate Reached(all: bool, s: State, uid: Uid) {
    all || uid !in s.gone || Holds(s.worker, uid)
  }

  predicate BaseAnchored(cfg: Config, all: bool, s: State, base: Option<CacheEntry>) {
    base.Some? && Reached(all, s, base.value.uid) ==> Anchored(cfg, s.rows, base.value)
  }

  /** An outstanding write continues the rows, and what it would fall back to describes them. */
  ghost predicate WriteFits(cfg: Config, all: bool, s: State, u: Job)
    requires u.Upsert?
  {
    && Fits(cfg, s.rows, u)
    && (all ==> Current(s.entry, u))
    && (Current(s.entry, u) ==> BaseAnchored(cfg, all, s, u.revert))
  }

  ghost predicate ReplayInv(cfg: Config, all: bool, s: State) {
    && AllExact(cfg, s.rows)
    && (forall u :: u in s.jobs && u.Upsert? ==> WriteFits(cfg, all, s, u))
    && (s.worker.Reserving? ==> s.worker.job.Upsert? && WriteFits(cfg, all, s, s.worker.job))
    && (!OwnedByUpsert(s) ==> BaseAnchored(cfg, all, s, s.entry))
    && (var c := Snapshotted(s.worker); c.Some? && c.value.uid == s.worker.obj.uid ==> Anchored(cfg, s.rows, c.value))
  }

  // ---------------------------------------------------------------- rows

  lemma ReplayAppend(c: Codec, rows: seq<Record>, r: Record, uid: Uid)
    ensures ReplayRows(c, rows + [r], uid)
         == if r.event == Deleted || r.uid != uid then ReplayRows(c, rows, uid)
            else ReplayRow(c, ReplayRows(c, rows, uid), r)
    ensures NewestOf(rows + [r], uid) == if r.event != Deleted && r.uid == uid then Some(r) else NewestOf(rows, uid)
  {
    assert (rows + [r])[..|rows|] == rows;
  }

  lemma ExactAppend(cfg: Config, rows: seq<Record>, u: Job)
    requires AllExact(cfg, rows) && u.Upsert? && Fits(cfg, rows, u)
    ensures AllExact(cfg, rows + [u.record])
  {
    forall uid | NewestOf(rows + [u.record], uid).Some?
      ensures Exact(cfg, ReplayRows(cfg.codec, rows + [u.record], uid), NewestOf(rows + [u.record], uid).value.sha)
    {
      ReplayAppend(cfg.codec, rows, u.record, uid);
    }
  }

  lemma ExactDeath(cfg: Config, rows: seq<Record>, r: Record)
    requires AllExact(cfg, rows) && r.event == Deleted
    ensures AllExact(cfg, rows + [r])
  {
    forall uid | NewestOf(rows + [r], uid).Some?
      ensures Exact(cfg, ReplayRows(cfg.codec, rows + [r], uid), NewestOf(rows + [r], uid).value.sha)
    {
      ReplayAppend(cfg.codec, rows, r, uid);
    }
  }

  // ---------------------------------------------------------------- what a write says

  lemma DraftFits(
    cfg: Config, rows: seq<Record>, cached: Option<CacheEntry>, obj: Obj, warm: bool, ts: nat,
    version: nat)
    requires Lawful(cfg.codec) && !cfg.ephemeral
    requires cached.Some? && !Reincarnated(cached, obj) ==>
      cached.value.uid == obj.uid && Anchored(cfg, rows, cached.value)
    ensures var d := DraftOf(cfg, cached, obj, warm);
      Fits(cfg, rows, Upsert(RecordOf(cfg, d, obj, ts), version, ConfirmedEntry(cfg, d, obj), d.revert))
  {
  }

  // ---------------------------------------------------------------- every step keeps it

  /** Nothing about the rows or the writes changes, and no further incarnation comes into reach. */
  ghost predicate KeepsReplay(cfg: Config, s: State, t: State) {
    && t.rows == s.rows
    && (forall u :: u in t.jobs && u.Upsert? ==> u in s.jobs)
    && (forall u :: u in s.jobs && u.Upsert? ==> u in t.jobs)
    && (t.worker == s.worker || (!s.worker.Reserving? && !t.worker.Reserving?))
    && Snapshotted(t.worker) == Snapshotted(s.worker)
    && (t.worker.Loaded? || t.worker.Closed? ==> Held(t.worker) == Held(s.worker))
    && (t.entry.Some? ==>
          && s.entry.Some?
          && t.entry.value.(baseline := s.entry.value.baseline) == s.entry.value
          && (t.entry.value.baseline != s.entry.value.baseline ==>
                !DecodeBaseline(cfg.codec, t.entry.value.baseline).Text?))
    && (s.entry.Some? ==> t.entry.Some?)
    && (forall x :: x !in t.gone || Holds(t.worker, x) ==> x !in s.gone || Holds(s.worker, x))
  }

  lemma ReplayCarry(cfg: Config, all: bool, s: State, t: State)
    requires ReplayInv(cfg, all, s) && KeepsReplay(cfg, s, t)
    ensures ReplayInv(cfg, all, t)
  {
    forall u | u in t.jobs && u.Upsert? ensures WriteFits(cfg, all, t, u) {
      assert WriteFits(cfg, all, s, u);
    }
    if !OwnedByUpsert(t) {
      assert !OwnedByUpsert(s);
    }
  }

  lemma ReplayLoad(cfg: Config, all: bool, s: State, ok: bool)
    requires Core(cfg, s) && ReplayInv(cfg, all, s) && s.worker.Retried? && s.worker.found.Some?
    ensures ReplayInv(cfg, all, AfterLoad(cfg, s, ok))
  {
    assert !OwnedByUpsert(s);
  }

  lemma EnvironmentKeepsReplay(cfg: Config, s: State, step: Step)
    requires !cfg.ephemeral && Incarnations(s) && Enabled(cfg, s, step) && Environment(step) && !step.Load?
    ensures KeepsReplay(cfg, s, Next(cfg, s, step))
  {
  }

  lemma ReplayEnvironment(cfg: Config, all: bool, s: State, step: Step)
    requires !cfg.ephemeral && Core(cfg, s) && ReplayInv(cfg, all, s) && Enabled(cfg, s, step) && Environment(step)
    ensures ReplayInv(cfg, all, Next(cfg, s, step))
  {
    if step.Load? {
      ReplayLoad(cfg, all, s, step.ok);
    } else {
      EnvironmentKeepsReplay(cfg, s, step);
      ReplayCarry(cfg, all, s, Next(cfg, s, step));
    }
  }

  lemma ReplayRetry(cfg: Config, all: bool, s: State, accepts: seq<bool>)
    requires ReplayInv(cfg, all, s) && s.worker.Read? && |accepts| == |s.closeOuts|
    ensures ReplayInv(cfg, all, AfterRetry(s, accepts))
  {
    RetriedAreCloseOuts(s.closeOuts, accepts);
    ReplayCarry(cfg, all, s, AfterRetry(s, accepts));
  }

  /** A claim keeps what the entry describes; a write it overtakes is of an incarnation out of reach. */
  lemma ReplayClaim(cfg: Config, all: bool, s: State, uid: Uid, accepted: bool)
    requires Core(cfg, s) && ReplayInv(cfg, all, s)
    requires ClaimVerdict(s.entry, uid) == Claimed ==> s.entry.value.uid in s.gone
    requires all ==> !OwnedByUpsert(s) && forall u :: u in s.jobs ==> !u.Upsert?
    ensures ReplayInv(cfg, all, ClaimAndDelete(s, uid, accepted))
  {
    var t := ClaimAndDelete(s, uid, accepted);
    if ClaimVerdict(s.entry, uid) == Claimed {
      forall u | u in t.jobs && u.Upsert? ensures WriteFits(cfg, all, t, u) {
        assert WriteFits(cfg, all, s, u);
        UpsertUid(s, u);
      }
      if s.worker.Reserving? {
        assert Outstanding(s)[0] == s.worker.job;
      }
      if !OwnedByUpsert(t) && Reached(all, t, t.entry.value.uid) {
        assert !OwnedByUpsert(s);
      }
    }
  }

  lemma ReplayEmitDelete(cfg: Config, all: bool, s: State, accepted: bool)
    requires Core(cfg, s) && ReplayInv(cfg, all, s) && s.worker.Retried? && s.worker.found.None?
    ensures ReplayInv(cfg, all, AfterEmitDelete(s, accepted))
  {
    ReplayClaim(cfg, all, s, NO_UID, accepted);
    ReplayCarry(cfg, all, ClaimAndDelete(s, NO_UID, accepted), AfterEmitDelete(s, accepted));
  }

  lemma ReplayCloseOld(cfg: Config, all: bool, s: State, accepted: bool)
    requires Core(cfg, s) && ReplayInv(cfg, all, s) && s.worker.Loaded?
    ensures ReplayInv(cfg, all, AfterCloseOld(cfg, s, accepted))
  {
    var t := AfterCloseOld(cfg, s, accepted);
    if ClosesOld(cfg, s) {
      assert !OwnedByUpsert(s);
      assert forall u :: u in t.jobs ==> !u.Upsert?;
    } else {
      ReplayCarry(cfg, all, s, t);
    }
  }

  lemma ReplayReserve(cfg: Config, all: bool, s: State, warm: bool)
    requires !cfg.ephemeral && Core(cfg, s) && ReplayInv(cfg, all, s) && Lawful(cfg.codec) && s.worker.Closed?
    ensures ReplayInv(cfg, all, AfterReserve(cfg, s, warm))
  {
    var t := AfterReserve(cfg, s, warm);
    var cached, obj := s.worker.cached, s.worker.obj;
    DraftFits(cfg, s.rows, cached, obj, warm, s.clock, t.entry.value.version);
    DraftReverts(cfg, cached, obj, warm);
  }

  lemma DraftReverts(cfg: Config, cached: Option<CacheEntry>, obj: Obj, warm: bool)
    ensures var d := DraftOf(cfg, cached, obj, warm);
      d.revert.Some? ==> d.revert == cached && !Reincarnated(cached, obj)
  {
  }

  lemma ReplayAccepted(cfg: Config, all: bool, s: State)
    requires Core(cfg, s) && ReplayInv(cfg, all, s) && s.worker.Reserving?
    ensures ReplayInv(cfg, all, AfterSubmit(s, true))
  {
    var t, u := AfterSubmit(s, true), s.worker.job;
    assert t.jobs[|s.jobs|] == u;
    assert forall v :: v in t.jobs && v.Upsert? ==> v == u;
    assert WriteFits(cfg, all, t, u);
    if Current(s.entry, u) {
      assert OwnedByUpsert(t);
    }
  }

  lemma ReplayRefused(cfg: Config, all: bool, s: State)
    requires Core(cfg, s) && ReplayInv(cfg, all, s) && s.worker.Reserving?
    ensures ReplayInv(cfg, all, AfterSubmit(s, false))
  {
    var t, u := AfterSubmit(s, false), s.worker.job;
    assert forall v :: v in t.jobs ==> !v.Upsert?;
    assert Outstanding(s)[0] == u;
    SettleInKind(s, u, false);
  }

  lemma ReplaySettleUpsert(cfg: Config, all: bool, s: State, i: nat, ok: bool)
    requires Core(cfg, s) && ReplayInv(cfg, all, s) && i < |s.jobs| && s.jobs[i].Upsert?
    ensures ReplayInv(cfg, all, AfterSettle(s, i, ok, ok))
  {
    var t, u := AfterSettle(s, i, ok, ok), s.jobs[i];
    assert u in s.jobs && WriteFits(cfg, all, s, u);
    WithoutMembers(s, i);
    OutstandingJob(s, i);
    assert forall v :: v in t.jobs ==> !v.Upsert?;
    if ok {
      ExactAppend(cfg, s.rows, u);
      ReplayAppend(cfg.codec, s.rows, u.record, u.record.uid);
    }
    if !Current(s.entry, u) {
      assert t.entry == s.entry;
    }
  }

  /** The two histories replay alike, which is all that entries and writes look at. */
  ghost predicate SameReplay(cfg: Config, s: State, t: State) {
    forall uid :: ReplayRows(cfg.codec, t.rows, uid) == ReplayRows(cfg.codec, s.rows, uid)
  }

  lemma SettleDeathReplay(cfg: Config, s: State, i: nat, ok: bool)
    requires VersionInv(s) && AllExact(cfg, s.rows) && i < |s.jobs| && !s.jobs[i].Upsert?
    ensures var t := AfterSettle(s, i, ok, ok); SameReplay(cfg, s, t) && AllExact(cfg, t.rows)
  {
    var r := s.jobs[i].record;
    OutstandingJob(s, i);
    ExactDeath(cfg, s.rows, r);
    forall uid ensures ReplayRows(cfg.codec, s.rows + [r], uid) == ReplayRows(cfg.codec, s.rows, uid) {
      ReplayAppend(cfg.codec, s.rows, r, uid);
    }
  }

  lemma WriteStillFits(cfg: Config, all: bool, s: State, t: State, u: Job)
    requires u.Upsert? && WriteFits(cfg, all, s, u) && SameReplay(cfg, s, t) && t.gone == s.gone && t.worker == s.worker
    requires Current(t.entry, u) == Current(s.entry, u)
    ensures WriteFits(cfg, all, t, u)
  {
  }

  /** A deletion that settles leaves every write as current, or as overtaken, as it was. */
  lemma DeathKeepsCurrent(s: State, i: nat, ok: bool, u: Job)
    requires VersionInv(s) && i < |s.jobs| && !s.jobs[i].Upsert? && RevertsInKind(s, s.jobs[i]) && u.Upsert?
    requires u in Without(s.jobs, i) || (s.worker.Reserving? && u == s.worker.job)
    ensures Current(AfterSettle(s, i, ok, ok).entry, u) == Current(s.entry, u)
  {
    var j := s.jobs[i];
    assert j in s.jobs;
    WithoutMembers(s, i);
    OutstandingJob(s, i);
    SettleInKind(s, j, ok);
    if j.Delete? {
      if u in s.jobs {
        DifferentVersions(s, u, j);
      } else {
        assert Outstanding(s)[0] == u && Outstanding(s)[i + 1] == j;
      }
    }
  }

  predicate SameContent(a: CacheEntry, b: CacheEntry) {
    a.(version := b.version, pendingDelete := b.pendingDelete) == b
  }

  /** Rows that replay alike, writes as current as before, an entry of the same content: nothing else matters. */
  lemma ReplayAlike(cfg: Config, all: bool, s: State, t: State)
    requires ReplayInv(cfg, all, s) && SameReplay(cfg, s, t) && AllExact(cfg, t.rows)
    requires t.gone == s.gone && t.worker == s.worker
    requires forall u :: u in t.jobs && u.Upsert? ==> u in s.jobs && Current(t.entry, u) == Current(s.entry, u)
    requires s.worker.Reserving? ==> Current(t.entry, s.worker.job) == Current(s.entry, s.worker.job)
    requires t.entry.Some? && !OwnedByUpsert(t) ==>
      !OwnedByUpsert(s) && s.entry.Some? && SameContent(t.entry.value, s.entry.value)
    ensures ReplayInv(cfg, all, t)
  {
    forall u | u in t.jobs && u.Upsert? ensures WriteFits(cfg, all, t, u) {
      WriteStillFits(cfg, all, s, t, u);
    }
    if s.worker.Reserving? {
      WriteStillFits(cfg, all, s, t, s.worker.job);
    }
  }

  lemma ReplaySettleDeath(cfg: Config, all: bool, s: State, i: nat, ok: bool)
    requires Core(cfg, s) && ReplayInv(cfg, all, s) && i < |s.jobs| && !s.jobs[i].Upsert?
    ensures ReplayInv(cfg, all, AfterSettle(s, i, ok, ok))
  {
    var t, j := AfterSettle(s, i, ok, ok), s.jobs[i];
    assert RevertsInKind(s, j) by {
      assert j in s.jobs;
    }
    SettleDeathReplay(cfg, s, i, ok);
    forall u | u in t.jobs && u.Upsert? ensures u in s.jobs && Current(t.entry, u) == Current(s.entry, u) {
      WithoutMembers(s, i);
      DeathKeepsCurrent(s, i, ok, u);
    }
    if s.worker.Reserving? {
      DeathKeepsCurrent(s, i, ok, s.worker.job);
    }
    if t.entry.Some? && !OwnedByUpsert(t) {
      OwnerStays(s, i, ok);
      assert s.entry.Some? && SameContent(t.entry.value, s.entry.value);
    }
    ReplayAlike(cfg, all, s, t);
  }

  /** A settling deletion leaves the owner of the entry its owner. */
  lemma OwnerStays(s: State, i: nat, ok: bool)
    requires VersionInv(s) && i < |s.jobs| && !s.jobs[i].Upsert?
    requires var t := AfterSettle(s, i, ok, ok); t.entry.Some? && !OwnedByUpsert(t)
    ensures !OwnedByUpsert(s)
  {
    var t, j := AfterSettle(s, i, ok, ok), s.jobs[i];
    assert j in s.jobs;
    WithoutMembers(s, i);
    OutstandingJob(s, i);
    forall u | u in s.jobs && u.Upsert? ensures !Current(s.entry, u) {
      assert u in t.jobs;
    }
  }

  lemma ReplayStep(cfg: Config, all: bool, h: Hypotheses, s: State, step: Step)
    requires Lawful(cfg.codec) && !cfg.ephemeral && Core(cfg, s) && ReplayInv(cfg, all, s)
    requires Enabled(cfg, s, step) && Allowed(h, s, step) && h.truthful && (all ==> h.clearGc)
    ensures ReplayInv(cfg, all, Next(cfg, s, step))
  {
    match step
    case Retry(accepts) => ReplayRetry(cfg, all, s, accepts);
    case EmitDelete(accepted) => ReplayEmitDelete(cfg, all, s, accepted);
    case CloseOld(accepted) => ReplayCloseOld(cfg, all, s, accepted);
    case Reserve(warm) => ReplayReserve(cfg, all, s, warm);
    case Submit(accepted) =>
      if accepted {
        ReplayAccepted(cfg, all, s);
      } else {
        ReplayRefused(cfg, all, s);
      }
    case Settle(i, ok, _) =>
      if s.jobs[i].Upsert? {
        ReplaySettleUpsert(cfg, all, s, i, ok);
      } else {
        ReplaySettleDeath(cfg, all, s, i, ok);
      }
    case GcClaim(uid, accepted) => ReplayClaim(cfg, all, s, uid, accepted);
    case _ => ReplayEnvironment(cfg, all, s, step);
  }

  lemma {:induction false} ReplayInEveryRun(cfg: Config, all: bool, h: Hypotheses, s: State, steps: seq<Step>)
    requires Lawful(cfg.codec) && !cfg.ephemeral && Continuous(cfg, s) && ReplayInv(cfg, all, s)
    requires h.settled && h.truthful && h.lifetimes && h.uids && (all ==> h.clearGc)
    requires Exec(cfg, h, s, steps).Some?
    ensures Continuous(cfg, Exec(cfg, h, s, steps).value) && ReplayInv(cfg, all, Exec(cfg, h, s, steps).value)
    decreases steps
  {
    if steps != [] {
      ReplayStep(cfg, all, h, s, steps[0]);
      ContinuousStep(cfg, h, s, steps[0]);
      ReplayInEveryRun(cfg, all, h, Next(cfg, s, steps[0]), steps[1..]);
    }
  }

  /** Both invariants hold wherever a run whose jobs settle truthfully between items can lead. */
  lemma ReplayReaches(cfg: Config, all: bool, h: Hypotheses, steps: seq<Step>)
    requires Lawful(cfg.codec) && !cfg.ephemeral && h.settled && h.truthful && h.uids && (all ==> h.clearGc)
    requires Exec(cfg, h, INIT, steps).Some?
    ensures Continuous(cfg, Exec(cfg, h, INIT, steps).value) && ReplayInv(cfg, all, Exec(cfg, h, INIT, steps).value)
  {
    ExecClosure(cfg, h, steps);
    ReplayInEveryRun(cfg, all, Closure(h), INIT, steps);
  }

  /**
  Every incarnation with a row replays exactly, over fewer patches than the cadence allows; and the
  durable order the fold follows is the order of the rows' own timestamps.
  */
  lemma BoundedExactReplay(cfg: Config, h: Hypotheses, steps: seq<Step>, uid: Uid)
    requires Lawful(cfg.codec) && !cfg.ephemeral && h.settled && h.truthful && h.uids
    requires Exec(cfg, h, INIT, steps).Some?
    ensures var s := Exec(cfg, h, INIT, steps).value;
      && LiveAscending(s.rows)
      && (NewestOf(s.rows, uid).Some? ==>
            var replayed := ReplayRows(cfg.codec, s.rows, uid);
            && replayed.Some?
            && cfg.codec.hash(replayed.value.json) == NewestOf(s.rows, uid).value.sha
            && (cfg.every > 0 ==> replayed.value.patches < cfg.every))
  {
    ReplayReaches(cfg, false, h, steps);
  }

  /** At a settled point the cache counts exactly the patches a reader folds, for what is in the watch cache. */
  lemma PatchCountIsExact(cfg: Config, h: Hypotheses, steps: seq<Step>)
    requires Lawful(cfg.codec) && !cfg.ephemeral && h.settled && h.truthful && h.uids
    requires Exec(cfg, h, INIT, steps).Some?
    ensures var s := Exec(cfg, h, INIT, steps).value;
      s.jobs == [] && s.worker.Idle? && s.entry.Some? && s.entry.value.uid !in s.gone ==> CountsExactly(cfg, s)
  {
    ReplayReaches(cfg, false, h, steps);
    SettledEntryIsAnchored(cfg, false, Exec(cfg, h, INIT, steps).value);
  }

  /** Unless the collector overtakes a write, it counts exactly for what has left the watch cache as well. */
  lemma EveryPatchCountIsExact(cfg: Config, h: Hypotheses, steps: seq<Step>)
    requires Lawful(cfg.codec) && !cfg.ephemeral && h.settled && h.truthful && h.uids && h.clearGc
    requires Exec(cfg, h, INIT, steps).Some?
    ensures var s := Exec(cfg, h, INIT, steps).value;
      s.jobs == [] && s.worker.Idle? && s.entry.Some? ==> CountsExactly(cfg, s)
  {
    ReplayReaches(cfg, true, h, steps);
    SettledEntryIsAnchored(cfg, true, Exec(cfg, h, INIT, steps).value);
  }

  /** The entry's counter is the number of patches to fold for its incarnation. */
  predicate CountsExactly(cfg: Config, s: State)
    requires s.entry.Some?
  {
    var replayed := ReplayRows(cfg.codec, s.rows, s.entry.value.uid);
    replayed.Some? && replayed.value.patches == s.entry.value.modifiedSinceCheckpoint
  }

  lemma SettledEntryIsAnchored(cfg: Config, all: bool, s: State)
    requires ReplayInv(cfg, all, s)
    ensures s.jobs == [] && s.worker.Idle? && s.entry.Some? && (all || s.entry.value.uid !in s.gone) ==>
      Anchored(cfg, s.rows, s.entry.value)
  {
    if s.jobs == [] && s.worker.Idle? {
      assert !OwnedByUpsert(s);
    }
  }

  /** A key with nothing left to do replays, byte for byte, to the live object. */
  lemma ReplayIsLive(cfg: Config, h: Hypotheses, steps: seq<Step>)
    requires Lawful(cfg.codec) && !cfg.ephemeral && h.settled && h.truthful && h.uids
    requires Exec(cfg, h, INIT, steps).Some?
    ensures var s := Exec(cfg, h, INIT, steps).value;
      Quiescent(s) && s.live.Some? ==>
        var replayed := ReplayRows(cfg.codec, s.rows, s.live.value.uid);
        replayed.Some? && replayed.value.json == s.live.value.json
  {
    ReplayReaches(cfg, false, h, steps);
    SettledEntryIsAnchored(cfg, false, Exec(cfg, h, INIT, steps).value);
  }
}
