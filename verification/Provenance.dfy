/**
Nothing is invented: in every run, whatever fails or races, each row describes an object that was
observed, with the columns that object had.
*/
module Provenance {
  import opened Common
  import opened HashCaches
  import opened Protocol

  /** The objects a run has shown to the watch cache. */
  function SeenIn(steps: seq<Step>): set<Obj> {
    set i | 0 <= i < |steps| && steps[i].Observe? :: steps[i].obj
  }

  predicate DescribesEntry(cfg: Config, o: Obj, e: CacheEntry) {
    o.uid == e.uid && o.apiVersion == e.apiVersion && cfg.codec.hash(o.json) == e.hash
  }

  /** A deletion names an observed object; any other row carries one's digest and, if any, its document. */
  predicate DescribesRecord(cfg: Config, o: Obj, r: Record) {
    && o.uid == r.uid && o.apiVersion == r.apiVersion
    && if r.event == Deleted then r.data == None && r.diff == None && r.sha == NO_DIGEST
       else cfg.codec.hash(o.json) == r.sha && (r.data.Some? ==> r.data.value == o.json)
  }

  ghost predicate KnownEntry(cfg: Config, seen: set<Obj>, e: CacheEntry) {
    exists o :: o in seen && DescribesEntry(cfg, o, e)
  }

  ghost predicate KnownRecord(cfg: Config, seen: set<Obj>, r: Record) {
    exists o :: o in seen && DescribesRecord(cfg, o, r)
  }

  ghost predicate KnownMaybe(cfg: Config, seen: set<Obj>, e: Option<CacheEntry>) {
    e.Some? ==> KnownEntry(cfg, seen, e.value)
  }

  ghost predicate KnownJob(cfg: Config, seen: set<Obj>, j: Job) {
    && KnownRecord(cfg, seen, j.record)
    && (j.Upsert? ==> KnownEntry(cfg, seen, j.confirmed) && KnownMaybe(cfg, seen, j.revert))
  }

  ghost predicate KnownWorker(cfg: Config, seen: set<Obj>, w: Worker) {
    match w
    case Idle => true
    case Read(found) => found.Some? ==> found.value in seen
    case Retried(found) => found.Some? ==> found.value in seen
    case Loaded(obj, cached) => obj in seen && KnownMaybe(cfg, seen, cached)
    case Closed(obj, cached) => obj in seen && KnownMaybe(cfg, seen, cached)
    case Reserving(obj, job) => KnownJob(cfg, seen, job)
  }

  ghost predicate KnownWrites(cfg: Config, seen: set<Obj>, s: State) {
    && KnownMaybe(cfg, seen, s.entry)
    && (forall j :: j in s.jobs ==> KnownJob(cfg, seen, j))
    && (forall r :: r in s.closeOuts ==> KnownRecord(cfg, seen, r))
    && (forall r :: r in s.rows ==> KnownRecord(cfg, seen, r))
  }

  ghost predicate Known(cfg: Config, seen: set<Obj>, s: State) {
    && (s.live.Some? ==> s.live.value in seen)
    && KnownWorker(cfg, seen, s.worker)
    && KnownWrites(cfg, seen, s)
  }

  lemma KnownDeletion(cfg: Config, seen: set<Obj>, e: CacheEntry, ts: nat)
    requires KnownEntry(cfg, seen, e)
    ensures KnownRecord(cfg, seen, DeletedRecord(e, ts))
  {
    var o :| o in seen && DescribesEntry(cfg, o, e);
    assert DescribesRecord(cfg, o, DeletedRecord(e, ts));
  }

  /** The gates only ever move whole entries, so an entry's columns stay together. */
  lemma KnownGates(cfg: Config, seen: set<Obj>, cur: Option<CacheEntry>, e: CacheEntry, version: nat, uid: Uid)
    requires KnownMaybe(cfg, seen, cur)
    ensures KnownMaybe(cfg, seen, AfterClaim(cur, uid))
    ensures KnownMaybe(cfg, seen, AfterUnclaim(cur, version))
    ensures KnownMaybe(cfg, seen, AfterDelete(cur, version))
    ensures KnownEntry(cfg, seen, e) ==> KnownMaybe(cfg, seen, AfterCommit(cur, version, e))
    ensures KnownEntry(cfg, seen, e) ==> KnownEntry(cfg, seen, e.(version := version))
  {
    if KnownEntry(cfg, seen, e) {
      var o :| o in seen && DescribesEntry(cfg, o, e);
      assert DescribesEntry(cfg, o, e.(version := version));
    }
    if cur.Some? {
      var o :| o in seen && DescribesEntry(cfg, o, cur.value);
      assert forall v, p :: DescribesEntry(cfg, o, cur.value.(version := v, pendingDelete := p));
    }
  }

  lemma KnownClaim(cfg: Config, seen: set<Obj>, s: State, uid: Uid, accepted: bool)
    requires KnownWrites(cfg, seen, s)
    ensures KnownWrites(cfg, seen, ClaimAndDelete(s, uid, accepted))
  {
    if ClaimVerdict(s.entry, uid) == Claimed {
      KnownGates(cfg, seen, s.entry, s.entry.value, 0, uid);
      var claimed := AfterClaim(s.entry, uid);
      KnownGates(cfg, seen, claimed, claimed.value, claimed.value.version, uid);
      KnownDeletion(cfg, seen, s.entry.value, s.clock);
    }
  }

  lemma {:induction false} KnownRetry(cfg: Config, seen: set<Obj>, records: seq<Record>, accepts: seq<bool>)
    requires |records| == |accepts| && forall r :: r in records ==> KnownRecord(cfg, seen, r)
    ensures forall j :: j in AcceptedJobs(records, accepts) ==> KnownJob(cfg, seen, j)
    ensures forall r :: r in RefusedRecords(records, accepts) ==> KnownRecord(cfg, seen, r)
  {
    if records != [] {
      KnownRetry(cfg, seen, records[1..], accepts[1..]);
      assert records[0] in records;
    }
  }

  lemma KnownCloseOld(cfg: Config, seen: set<Obj>, s: State, accepted: bool)
    requires s.worker.Loaded? && KnownWorker(cfg, seen, s.worker) && KnownWrites(cfg, seen, s)
    ensures KnownWrites(cfg, seen, AfterCloseOld(cfg, s, accepted))
  {
    var cached := s.worker.cached;
    if Reincarnated(cached, s.worker.obj) && ClaimVerdict(s.entry, cached.value.uid) == Claimed {
      KnownGates(cfg, seen, s.entry, s.entry.value, 0, cached.value.uid);
      KnownDeletion(cfg, seen, s.entry.value, s.clock);
    }
  }

  lemma KnownDraft(cfg: Config, seen: set<Obj>, obj: Obj, cached: Option<CacheEntry>, warm: bool, ts: nat)
    requires obj in seen && KnownMaybe(cfg, seen, cached)
    ensures
      var d := DraftOf(cfg, cached, obj, warm);
      && KnownRecord(cfg, seen, RecordOf(cfg, d, obj, ts))
      && KnownEntry(cfg, seen, ConfirmedEntry(cfg, d, obj))
      && KnownMaybe(cfg, seen, d.revert)
  {
    var d := DraftOf(cfg, cached, obj, warm);
    assert DescribesRecord(cfg, obj, RecordOf(cfg, d, obj, ts));
    assert DescribesEntry(cfg, obj, ConfirmedEntry(cfg, d, obj));
  }

  lemma KnownReserve(cfg: Config, seen: set<Obj>, s: State, warm: bool)
    requires s.worker.Closed? && KnownWorker(cfg, seen, s.worker) && KnownWrites(cfg, seen, s)
    ensures KnownWrites(cfg, seen, AfterReserve(cfg, s, warm))
    ensures KnownWorker(cfg, seen, AfterReserve(cfg, s, warm).worker)
  {
    var obj, cached := s.worker.obj, s.worker.cached;
    KnownDraft(cfg, seen, obj, cached, warm, s.clock);
    var e := ConfirmedEntry(cfg, DraftOf(cfg, cached, obj, warm), obj);
    KnownGates(cfg, seen, s.entry, e, CurrentVersion(s.entry) + 1, NO_UID);
  }

  lemma KnownCommitted(cfg: Config, seen: set<Obj>, cur: Option<CacheEntry>, j: Job, ok: bool)
    requires KnownMaybe(cfg, seen, cur) && KnownJob(cfg, seen, j)
    ensures KnownMaybe(cfg, seen, Committed(cur, j, ok))
    ensures j.Upsert? ==> KnownMaybe(cfg, seen, Reverted(cur, j.version, j.revert))
  {
    match j
    case Upsert(_, version, confirmed, revert) =>
      KnownGates(cfg, seen, cur, confirmed, version, NO_UID);
      KnownGates(cfg, seen, cur, if revert.Some? then revert.value else confirmed, version, NO_UID);
    case Delete(_, version) =>
      if cur.Some? {
        KnownGates(cfg, seen, cur, cur.value, version, NO_UID);
      }
    case CloseOut(_) =>
  }

  lemma KnownMore(cfg: Config, seen: set<Obj>, more: set<Obj>, s: State)
    requires Known(cfg, seen, s) && seen <= more
    ensures Known(cfg, more, s)
  {
    forall r | KnownRecord(cfg, seen, r) ensures KnownRecord(cfg, more, r) {
    }
    forall e | KnownEntry(cfg, seen, e) ensures KnownEntry(cfg, more, e) {
    }
  }

  lemma KnownPick(cfg: Config, seen: set<Obj>, s: State, ok: bool, sinkLive: bool)
    requires Known(cfg, seen, s)
    ensures Known(cfg, seen, Picked(cfg, s, ok, sinkLive))
  {
    if s.entry.Some? {
      var claimed := AfterClaim(s.entry, NO_UID);
      KnownGates(cfg, seen, s.entry, s.entry.value, 0, NO_UID);
      KnownGates(cfg, seen, claimed, s.entry.value, claimed.value.version, NO_UID);
    }
  }

  lemma KnownRot(cfg: Config, seen: set<Obj>, e: CacheEntry, b: Baseline)
    requires KnownEntry(cfg, seen, e)
    ensures KnownEntry(cfg, seen, e.(baseline := b))
  {
    var o :| o in seen && DescribesEntry(cfg, o, e);
    assert DescribesEntry(cfg, o, e.(baseline := b));
  }

  lemma KnownSettle(cfg: Config, seen: set<Obj>, s: State, i: nat, ok: bool, durable: bool)
    requires KnownWrites(cfg, seen, s) && i < |s.jobs|
    ensures KnownWrites(cfg, seen, AfterSettle(s, i, ok, durable))
  {
    var job := s.jobs[i];
    assert job in s.jobs;
    KnownCommitted(cfg, seen, s.entry, job, ok);
    assert forall j :: j in Without(s.jobs, i) ==> j in s.jobs;
  }

  lemma KnownSubmit(cfg: Config, seen: set<Obj>, s: State, accepted: bool)
    requires s.worker.Reserving? && s.worker.job.Upsert? && KnownJob(cfg, seen, s.worker.job)
    requires KnownWrites(cfg, seen, s)
    ensures KnownWrites(cfg, seen, AfterSubmit(s, accepted))
  {
    KnownCommitted(cfg, seen, s.entry, s.worker.job, false);
  }

  lemma KnownAfterRetry(cfg: Config, seen: set<Obj>, s: State, accepts: seq<bool>)
    requires s.worker.Read? && |accepts| == |s.closeOuts| && KnownWrites(cfg, seen, s)
    ensures KnownWrites(cfg, seen, AfterRetry(s, accepts))
  {
    KnownRetry(cfg, seen, s.closeOuts, accepts);
  }

  lemma KnownStep(cfg: Config, seen: set<Obj>, s: State, step: Step)
    requires Known(cfg, seen, s) && Enabled(cfg, s, step)
    ensures Known(cfg, if step.Observe? then seen + {step.obj} else seen, Next(cfg, s, step))
  {
    match step
    case Observe(obj) => KnownMore(cfg, seen, seen + {obj}, s);
    case Pick(ok, sinkLive) => KnownPick(cfg, seen, s, ok, sinkLive);
    case Retry(accepts) => KnownAfterRetry(cfg, seen, s, accepts);
    case EmitDelete(accepted) => KnownClaim(cfg, seen, s, NO_UID, accepted);
    case CloseOld(accepted) => KnownCloseOld(cfg, seen, s, accepted);
    case Reserve(warm) => KnownReserve(cfg, seen, s, warm);
    case Submit(accepted) => KnownSubmit(cfg, seen, s, accepted);
    case Settle(i, ok, durable) => KnownSettle(cfg, seen, s, i, ok, durable);
    case GcClaim(uid, accepted) => KnownClaim(cfg, seen, s, uid, accepted);
    case Rot(b) => KnownRot(cfg, seen, s.entry.value, b);
    case _ =>
  }

  lemma {:induction false} KnownInEveryRun(cfg: Config, h: Hypotheses, s: State, seen: set<Obj>, steps: seq<Step>)
    requires Known(cfg, seen, s) && Exec(cfg, h, s, steps).Some?
    ensures Known(cfg, seen + SeenIn(steps), Exec(cfg, h, s, steps).value)
    decreases steps
  {
    if steps == [] {
      assert seen + SeenIn(steps) == seen;
    } else {
      var more := if steps[0].Observe? then seen + {steps[0].obj} else seen;
      KnownStep(cfg, seen, s, steps[0]);
      KnownInEveryRun(cfg, h, Next(cfg, s, steps[0]), more, steps[1..]);
      SeenHead(steps, seen);
    }
  }

  lemma SeenHead(steps: seq<Step>, seen: set<Obj>)
    requires steps != []
    ensures (if steps[0].Observe? then seen + {steps[0].obj} else seen) + SeenIn(steps[1..]) == seen + SeenIn(steps)
  {
    forall o ensures o in SeenIn(steps) <==> (steps[0].Observe? && steps[0].obj == o) || o in SeenIn(steps[1..]) {
      if o in SeenIn(steps) {
        var i :| 0 <= i < |steps| && steps[i].Observe? && steps[i].obj == o;
        assert i > 0 ==> steps[1..][i - 1] == steps[i];
      }
      if o in SeenIn(steps[1..]) {
        var i :| 0 <= i < |steps[1..]| && steps[1..][i].Observe? && steps[1..][i].obj == o;
        assert steps[i + 1].obj == o;
      }
    }
  }

  /** Every durable row, in every run and under no hypothesis at all, is about an observed object. */
  lemma RowsAreObserved(cfg: Config, h: Hypotheses, steps: seq<Step>, i: nat) returns (o: Obj)
    requires Exec(cfg, h, INIT, steps).Some? && i < |Exec(cfg, h, INIT, steps).value.rows|
    ensures o in SeenIn(steps) && DescribesRecord(cfg, o, Exec(cfg, h, INIT, steps).value.rows[i])
  {
    KnownInEveryRun(cfg, h, INIT, {}, steps);
    var r := Exec(cfg, h, INIT, steps).value.rows[i];
    assert KnownRecord(cfg, {} + SeenIn(steps), r);
    o :| o in {} + SeenIn(steps) && DescribesRecord(cfg, o, r);
  }
}
