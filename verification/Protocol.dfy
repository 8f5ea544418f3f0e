/**
The write protocol of one (sink, object key) pair as a state machine.

The steps are the environment (the watch cache changes, time passes), the worker that owns the key's
work item, the zombie collector, and the sink settling jobs in any order. A work item is not
atomic: the worker reads the lister, retries owed close-outs, loads the cache, closes out a
superseded incarnation, reserves a version and submits the write in separate steps, and every
other step may fall between them.
*/
module Protocol {
  import opened Common
  import opened HashCaches

  datatype EventType = Added | Modified | Deleted | Snapshot | Checkpoint

  /** One live object after normalization. */
  datatype Obj = Obj(uid: Uid, json: Json, apiVersion: string)

  /** The columns of a row that the protocol decides on; `ts` is the instant it was stamped. */
  datatype Record = Record(
    ts: nat,
    event: EventType,
    uid: Uid,
    apiVersion: string,
    data: Option<Json>,
    diff: Option<Patch>,
    sha: Digest)

  /** A write handed to the sink, with what its commit callback closes over. */
  datatype Job =
    | Upsert(record: Record, version: nat, confirmed: CacheEntry, revert: Option<CacheEntry>)
    | Delete(record: Record, version: nat)
    | CloseOut(record: Record)

  /** How far the worker holding the key's work item has come. */
  datatype Worker =
    | Idle
    | Read(found: Option<Obj>)
    | Retried(found: Option<Obj>)
    | Loaded(obj: Obj, cached: Option<CacheEntry>)
    | Closed(obj: Obj, cached: Option<CacheEntry>)
    | Reserving(obj: Obj, job: Job)

  /** What is fixed over a run: the libraries, the sink's cadence, whether the kind is Event. */
  datatype Config = Config(codec: Codec, every: int, ephemeral: bool)

  /**
  `gone` holds every UID that has left the watch cache; `claimed` and `acked` are the
  reincarnation close-outs ever claimed and those acknowledged as written.
  */
  datatype State = State(
    live: Option<Obj>,
    gone: set<Uid>,
    queued: bool,
    worker: Worker,
    entry: Option<CacheEntry>,
    jobs: seq<Job>,
    closeOuts: seq<Record>,
    rows: seq<Record>,
    clock: nat,
    claimed: multiset<Record>,
    acked: multiset<Record>)

  const INIT := State(None, {}, false, Idle, None, [], [], [], 0, multiset{}, multiset{})

  datatype Step =
    | Observe(obj: Obj)
    | Vanish
    | Pick(ok: bool, sinkLive: bool)
    | Retry(accepts: seq<bool>)
    | EmitDelete(accepted: bool)
    | Load(ok: bool)
    | CloseOld(accepted: bool)
    | Reserve(warm: bool)
    | Submit(accepted: bool)
    | Settle(index: nat, ok: bool, durable: bool)
    | GcClaim(uid: Uid, accepted: bool)
    | Rot(baseline: Baseline)
    | Tick(now: nat)

  // ---------------------------------------------------------------- decisions

  predicate CheckpointDue(every: int, run: nat, diff: Patch, full: Json) {
    every > 0 && (run >= every || |diff| > |full|)
  }

  predicate SameObject(cached: CacheEntry, obj: Obj) {
    cached.uid == NO_UID || cached.uid == obj.uid
  }

  predicate Reincarnated(cached: Option<CacheEntry>, obj: Obj) {
    cached.Some? && !SameObject(cached.value, obj)
  }

  /** What a write will say, and what the cache falls back to should it fail. */
  datatype Draft = Draft(
    event: EventType,
    data: Option<Json>,
    diff: Option<Patch>,
    run: nat,
    revert: Option<CacheEntry>)

  function FullState(event: EventType, obj: Obj, revert: Option<CacheEntry>): Draft {
    Draft(event, Some(obj.json), None, 0, revert)
  }

  function DraftOf(cfg: Config, cached: Option<CacheEntry>, obj: Obj, warm: bool): Draft {
    if cached.None? then
      FullState(if !cfg.ephemeral && !warm then Snapshot else Added, obj, None)
    else if Reincarnated(cached, obj) then
      FullState(Added, obj, None)
    else if cfg.ephemeral then
      FullState(Modified, obj, cached)
    else
      match DecodeBaseline(cfg.codec, cached.value.baseline)
      case Missing => FullState(Modified, obj, cached)
      case Corrupt => FullState(Modified, obj, cached)
      case Text(base) => DiffDraft(cfg, cached.value, base, obj)
  }

  function DiffDraft(cfg: Config, cached: CacheEntry, base: Json, obj: Obj): Draft {
    var run := cached.modifiedSinceCheckpoint + 1;
    match cfg.codec.diff(base, obj.json)
    case None => FullState(Modified, obj, Some(cached))
    case Some(patch) =>
      if CheckpointDue(cfg.every, run, patch, obj.json) then
        Draft(Checkpoint, Some(obj.json), Some(patch), 0, Some(cached))
      else
        Draft(Modified, None, Some(patch), run, Some(cached))
  }

  function RecordOf(cfg: Config, d: Draft, obj: Obj, ts: nat): Record {
    Record(ts, d.event, obj.uid, obj.apiVersion, d.data, d.diff, cfg.codec.hash(obj.json))
  }

  function ConfirmedEntry(cfg: Config, d: Draft, obj: Obj): CacheEntry {
    CacheEntry(
      cfg.codec.hash(obj.json),
      if cfg.ephemeral then NoBaseline else CompressBaseline(cfg.codec, obj.json),
      obj.uid, obj.apiVersion, d.run, 0, false)
  }

  function DeletedRecord(e: CacheEntry, ts: nat): Record {
    Record(ts, Deleted, e.uid, e.apiVersion, None, None, NO_DIGEST)
  }

  // ---------------------------------------------------------------- steps

  function Observed(s: State, obj: Obj): State {
    s.(live := Some(obj),
       gone := if s.live.Some? && s.live.value.uid != obj.uid then s.gone + {s.live.value.uid} else s.gone,
       queued := true)
  }

  function Vanished(s: State): State
    requires s.live.Some?
  {
    s.(live := None, gone := s.gone + {s.live.value.uid}, queued := true)
  }

  /**
  The worker takes the item: a failed lister read or an unavailable sink puts the key back; an
  expired Event is forgotten without a row, before the sink is even resolved.
  */
  function Picked(cfg: Config, s: State, ok: bool, sinkLive: bool): State {
    if !ok then s
    else if s.live.None? && cfg.ephemeral then
      var e := AfterClaim(s.entry, NO_UID);
      s.(queued := false,
         entry := if ClaimVerdict(s.entry, NO_UID) == Claimed then AfterDelete(e, e.value.version) else s.entry)
    else if !sinkLive then s
    else s.(queued := false, worker := Read(s.live))
  }

  function AcceptedJobs(records: seq<Record>, accepts: seq<bool>): seq<Job>
    requires |records| == |accepts|
  {
    if records == [] then []
    else
      var more := AcceptedJobs(records[1..], accepts[1..]);
      if accepts[0] then [CloseOut(records[0])] + more else more
  }

  function RefusedRecords(records: seq<Record>, accepts: seq<bool>): seq<Record>
    requires |records| == |accepts|
  {
    if records == [] then []
    else
      var kept := RefusedRecords(records[1..], accepts[1..]);
      if accepts[0] then kept else [records[0]] + kept
  }

  function AfterRetry(s: State, accepts: seq<bool>): State
    requires s.worker.Read? && |accepts| == |s.closeOuts|
  {
    var refused := RefusedRecords(s.closeOuts, accepts);
    s.(worker := Retried(s.worker.found),
       jobs := s.jobs + AcceptedJobs(s.closeOuts, accepts),
       closeOuts := refused,
       queued := s.queued || refused != [])
  }

  /** The shared deletion path: claim, then hand the row over or release the claim. */
  function ClaimAndDelete(s: State, expectedUid: Uid, accepted: bool): State {
    if ClaimVerdict(s.entry, expectedUid) != Claimed then s
    else
      var claimed := AfterClaim(s.entry, expectedUid);
      var record := DeletedRecord(s.entry.value, s.clock);
      if accepted then
        s.(entry := claimed, jobs := s.jobs + [Delete(record, claimed.value.version)], clock := s.clock + 1)
      else
        s.(entry := AfterUnclaim(claimed, claimed.value.version), clock := s.clock + 1)
  }

  function AfterEmitDelete(s: State, accepted: bool): State {
    var t := ClaimAndDelete(s, NO_UID, accepted);
    t.(worker := Idle, queued := s.queued || (ClaimVerdict(s.entry, NO_UID) == Claimed && !accepted))
  }

  function AfterLoad(cfg: Config, s: State, ok: bool): State
    requires s.worker.Retried? && s.worker.found.Some?
  {
    var obj := s.worker.found.value;
    if !ok then s.(worker := Idle, queued := true)
    else if s.entry.Some? && SameObject(s.entry.value, obj) && s.entry.value.hash == cfg.codec.hash(obj.json) then
      s.(worker := Idle)
    else s.(worker := Loaded(obj, s.entry))
  }

  /** The reincarnation branch: claim the superseded incarnation's deletion and close it out. */
  function AfterCloseOld(cfg: Config, s: State, accepted: bool): State
    requires s.worker.Loaded?
  {
    var obj, cached := s.worker.obj, s.worker.cached;
    var t := s.(worker := Closed(obj, cached));
    if cfg.ephemeral || !Reincarnated(cached, obj) || ClaimVerdict(s.entry, cached.value.uid) != Claimed then t
    else
      var record := DeletedRecord(s.entry.value, s.clock);
      var u := t.(entry := AfterClaim(s.entry, cached.value.uid),
                  clock := s.clock + 1,
                  claimed := s.claimed + multiset{record});
      if accepted then u.(jobs := s.jobs + [CloseOut(record)])
      else u.(closeOuts := s.closeOuts + [record], queued := true)
  }

  function AfterReserve(cfg: Config, s: State, warm: bool): State
    requires s.worker.Closed?
  {
    var obj, cached := s.worker.obj, s.worker.cached;
    var d := DraftOf(cfg, cached, obj, warm);
    var e := ConfirmedEntry(cfg, d, obj);
    var r := Reserved(s.entry, e);
    s.(entry := Some(r),
       clock := s.clock + 1,
       worker := Reserving(obj, Upsert(RecordOf(cfg, d, obj, s.clock), r.version, e, d.revert)))
  }

  function Reverted(cur: Option<CacheEntry>, version: nat, revert: Option<CacheEntry>): Option<CacheEntry> {
    if revert.Some? then AfterCommit(cur, version, revert.value) else AfterDelete(cur, version)
  }

  function AfterSubmit(s: State, accepted: bool): State
    requires s.worker.Reserving? && s.worker.job.Upsert?
  {
    var job := s.worker.job;
    if accepted then s.(worker := Idle, jobs := s.jobs + [job])
    else s.(worker := Idle, entry := Reverted(s.entry, job.version, job.revert), queued := true)
  }

  function Without<T>(xs: seq<T>, i: nat): seq<T>
    requires i < |xs|
  {
    xs[..i] + xs[i + 1..]
  }

  /** The entry a job's commit callback leaves behind. */
  function Committed(cur: Option<CacheEntry>, job: Job, ok: bool): Option<CacheEntry> {
    match job
    case Upsert(_, version, confirmed, revert) =>
      if ok then AfterCommit(cur, version, confirmed) else Reverted(cur, version, revert)
    case Delete(_, version) =>
      if ok then AfterDelete(cur, version) else AfterUnclaim(cur, version)
    case CloseOut(_) => cur
  }

  /** One job settles: its row may have become durable, and its callback runs. */
  function AfterSettle(s: State, i: nat, ok: bool, durable: bool): State
    requires i < |s.jobs|
  {
    var job := s.jobs[i];
    var t := s.(jobs := Without(s.jobs, i),
                rows := if durable then s.rows + [job.record] else s.rows,
                entry := Committed(s.entry, job, ok),
                queued := s.queued || !ok);
    if !job.CloseOut? then t
    else if ok then t.(acked := s.acked + multiset{job.record})
    else t.(closeOuts := s.closeOuts + [job.record])
  }

  predicate Enabled(cfg: Config, s: State, step: Step) {
    match step
    case Observe(_) => true
    case Vanish => s.live.Some?
    case Pick(_, _) => s.queued && s.worker.Idle?
    case Retry(accepts) => s.worker.Read? && |accepts| == |s.closeOuts|
    case EmitDelete(_) => s.worker.Retried? && s.worker.found.None?
    case Load(_) => s.worker.Retried? && s.worker.found.Some?
    case CloseOld(_) => s.worker.Loaded?
    case Reserve(_) => s.worker.Closed?
    case Submit(_) => s.worker.Reserving? && s.worker.job.Upsert?
    case Settle(i, _, _) => i < |s.jobs|
    case GcClaim(uid, _) => !cfg.ephemeral && uid != NO_UID && uid in s.gone
    case Rot(b) => s.worker.Idle? && s.entry.Some? && !DecodeBaseline(cfg.codec, b).Text?
    case Tick(now) => s.clock <= now
  }

  function Next(cfg: Config, s: State, step: Step): State
    requires Enabled(cfg, s, step)
  {
    match step
    case Observe(obj) => Observed(s, obj)
    case Vanish => Vanished(s)
    case Pick(ok, sinkLive) => Picked(cfg, s, ok, sinkLive)
    case Retry(accepts) => AfterRetry(s, accepts)
    case EmitDelete(accepted) => AfterEmitDelete(s, accepted)
    case Load(ok) => AfterLoad(cfg, s, ok)
    case CloseOld(accepted) => AfterCloseOld(cfg, s, accepted)
    case Reserve(warm) => AfterReserve(cfg, s, warm)
    case Submit(accepted) => AfterSubmit(s, accepted)
    case Settle(i, ok, durable) => AfterSettle(s, i, ok, durable)
    case GcClaim(uid, accepted) => ClaimAndDelete(s, uid, accepted)
    case Rot(b) => s.(entry := Some(s.entry.value.(baseline := b)))
    case Tick(now) => s.(clock := now)
  }

  // ---------------------------------------------------------------- hypotheses and runs

  predicate Versioned(j: Job) {
    !j.CloseOut?
  }

  predicate Holds(w: Worker, uid: Uid) {
    match w
    case Idle => false
    case Read(found) => found.Some? && found.value.uid == uid
    case Retried(found) => found.Some? && found.value.uid == uid
    case Loaded(obj, _) => obj.uid == uid
    case Closed(obj, _) => obj.uid == uid
    case Reserving(obj, _) => obj.uid == uid
  }

  /**
  The hypotheses a run may be asked to meet.
  `settled`: a work item starts only once every job of the key has settled.
  `truthful`: a commit reports success exactly when the row is durable.
  `lifetimes`: the key is not re-inserted while a versioned job is outstanding.
  `uids`: object UIDs are non-empty and never come back to the watch cache.
  `calmGc`: the collector does not claim the incarnation a worker is in the middle of recording.
  `idleGc`: the collector does not claim at all while a worker is in the middle of an item.
  `clearGc`: the collector does not claim while a write of the key is reserved or outstanding.
  */
  datatype Hypotheses = Hypotheses(
    settled: bool, truthful: bool, lifetimes: bool, uids: bool, calmGc: bool, idleGc: bool, clearGc: bool)

  predicate Allowed(h: Hypotheses, s: State, step: Step) {
    && (h.settled && step.Pick? ==> s.jobs == [])
    && (h.truthful && step.Settle? ==> step.ok == step.durable)
    && (h.lifetimes && step.Reserve? && s.entry.None? ==> forall i :: 0 <= i < |s.jobs| ==> !Versioned(s.jobs[i]))
    && (h.uids && step.Observe? ==> step.obj.uid != NO_UID && step.obj.uid !in s.gone)
    && (h.calmGc && step.GcClaim? ==> !Holds(s.worker, step.uid))
    && (h.idleGc && step.GcClaim? ==> s.worker.Idle?)
    && (h.clearGc && step.GcClaim? ==> !s.worker.Reserving? && forall i :: 0 <= i < |s.jobs| ==> !s.jobs[i].Upsert?)
  }

  /** The state a run of `steps` from `s` ends in, if every step is possible and allowed. */
  function Exec(cfg: Config, h: Hypotheses, s: State, steps: seq<Step>): Option<State>
    decreases steps
  {
    if steps == [] then Some(s)
    else if Enabled(cfg, s, steps[0]) && Allowed(h, s, steps[0]) then
      Exec(cfg, h, Next(cfg, s, steps[0]), steps[1..])
    else None
  }
}
