/**
Where no change is ever recorded as a patch, every row but a death carries full state, whatever the
sink, the collector and the watch do: the records of an Event kind, and those of a sink whose cadence
makes every change a checkpoint.
*/
module FullRows {
  import opened Common
  import opened HashCaches
  import opened Protocol
  import opened Replay

  /** A change of `a` into `b`, the first since full state was written, is recorded as a patch. */
  predicate Patches(cfg: Config, a: Json, b: Json) {
    && !cfg.ephemeral && a != b && cfg.codec.diff(a, b).Some?
    && !(cfg.every > 0 && (1 >= cfg.every || |cfg.codec.diff(a, b).value| > |b|))
  }

  ghost predicate NeverPatches(cfg: Config) {
    forall a, b :: !Patches(cfg, a, b)
  }

  predicate Full(r: Record) {
    r.event == Deleted || r.data.Some?
  }

  /** The entry counts no patch, and its baseline, where it can be read, is the state it hashes. */
  predicate Plain(cfg: Config, e: CacheEntry) {
    && e.modifiedSinceCheckpoint == 0
    && (var d := DecodeBaseline(cfg.codec, e.baseline); d.Text? ==> cfg.codec.hash(d.json) == e.hash)
  }

  predicate PlainIfAny(cfg: Config, e: Option<CacheEntry>) {
    e.Some? ==> Plain(cfg, e.value)
  }

  predicate FullJob(cfg: Config, j: Job) {
    if j.Upsert? then Full(j.record) && Plain(cfg, j.confirmed) && PlainIfAny(cfg, j.revert)
    else j.record.event == Deleted
  }

  /** What a worker loaded is not what it is about to record. */
  predicate Changes(cfg: Config, cached: Option<CacheEntry>, obj: Obj) {
    PlainIfAny(cfg, cached) && (cached.Some? && SameObject(cached.value, obj) ==>
      cached.value.hash != cfg.codec.hash(obj.json))
  }

  predicate FullWorker(cfg: Config, w: Worker) {
    match w
    case Loaded(obj, cached) => Changes(cfg, cached, obj)
    case Closed(obj, cached) => Changes(cfg, cached, obj)
    case Reserving(_, job) => FullJob(cfg, job)
    case _ => true
  }

  ghost predicate AllFull(cfg: Config, s: State) {
    && PlainIfAny(cfg, s.entry) && FullWorker(cfg, s.worker)
    && (forall j :: j in s.jobs ==> FullJob(cfg, j))
    && (forall r :: r in s.closeOuts ==> r.event == Deleted)
    && (forall r :: r in s.rows ==> Full(r))
  }

  lemma FullReserve(cfg: Config, s: State, warm: bool)
    requires Lawful(cfg.codec) && NeverPatches(cfg) && AllFull(cfg, s) && s.worker.Closed?
    ensures AllFull(cfg, AfterReserve(cfg, s, warm))
  {
    var obj, cached := s.worker.obj, s.worker.cached;
    if cached.Some? && SameObject(cached.value, obj) && !cfg.ephemeral {
      var d := DecodeBaseline(cfg.codec, cached.value.baseline);
      if d.Text? {
        assert !Patches(cfg, d.json, obj.json);
      }
    }
  }

  lemma {:induction false} FullRetry(cfg: Config, records: seq<Record>, accepts: seq<bool>)
    requires |records| == |accepts| && forall r :: r in records ==> r.event == Deleted
    ensures forall j :: j in AcceptedJobs(records, accepts) ==> FullJob(cfg, j)
    ensures forall r :: r in RefusedRecords(records, accepts) ==> r.event == Deleted
  {
    if records != [] {
      FullRetry(cfg, records[1..], accepts[1..]);
    }
  }

  lemma FullSettle(cfg: Config, s: State, i: nat, ok: bool, durable: bool)
    requires AllFull(cfg, s) && i < |s.jobs|
    ensures AllFull(cfg, AfterSettle(s, i, ok, durable))
  {
    assert s.jobs[i] in s.jobs;
    forall j | j in Without(s.jobs, i) ensures j in s.jobs {
    }
  }

  lemma FullStep(cfg: Config, s: State, step: Step)
    requires Lawful(cfg.codec) && NeverPatches(cfg) && AllFull(cfg, s) && Enabled(cfg, s, step)
    ensures AllFull(cfg, Next(cfg, s, step))
  {
    match step
    case Reserve(warm) => FullReserve(cfg, s, warm);
    case Retry(accepts) => FullRetry(cfg, s.closeOuts, accepts);
    case Settle(i, ok, durable) => FullSettle(cfg, s, i, ok, durable);
    case _ =>
  }

  lemma {:induction false} FullInEveryRun(cfg: Config, h: Hypotheses, s: State, steps: seq<Step>)
    requires Lawful(cfg.codec) && NeverPatches(cfg) && AllFull(cfg, s) && Exec(cfg, h, s, steps).Some?
    ensures AllFull(cfg, Exec(cfg, h, s, steps).value)
    decreases steps
  {
    if steps != [] {
      FullStep(cfg, s, steps[0]);
      FullInEveryRun(cfg, h, Next(cfg, s, steps[0]), steps[1..]);
    }
  }

  /** Full rows are replayed without folding anything. */
  lemma {:induction false} FullReplay(c: Codec, rows: seq<Record>, uid: Uid)
    requires (forall r :: r in rows ==> Full(r)) && NewestOf(rows, uid).Some?
    ensures NewestOf(rows, uid).value.data.Some?
    ensures ReplayRows(c, rows, uid) == Some(Replayed(NewestOf(rows, uid).value.data.value, 0))
    decreases rows
  {
    var last := rows[|rows| - 1];
    assert last in rows;
    if last.event == Deleted || last.uid != uid {
      FullReplay(c, rows[..|rows| - 1], uid);
    }
  }

  /** Where nothing is recorded as a patch, every run can be replayed, under no hypothesis at all. */
  lemma ReplayableWithoutPatches(cfg: Config, h: Hypotheses, steps: seq<Step>, uid: Uid)
    requires Lawful(cfg.codec) && NeverPatches(cfg) && Exec(cfg, h, INIT, steps).Some?
    ensures var rows := Exec(cfg, h, INIT, steps).value.rows; NewestOf(rows, uid).Some? ==>
      && NewestOf(rows, uid).value.data.Some?
      && ReplayRows(cfg.codec, rows, uid) == Some(Replayed(NewestOf(rows, uid).value.data.value, 0))
  {
    FullInEveryRun(cfg, h, INIT, steps);
    if NewestOf(Exec(cfg, h, INIT, steps).value.rows, uid).Some? {
      FullReplay(cfg.codec, Exec(cfg, h, INIT, steps).value.rows, uid);
    }
  }
}
