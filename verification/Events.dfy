/** Kubernetes Events: what they leave behind, and that the live ones are recorded in full. */
module Events {
  import opened Common
  import opened HashCaches
  import opened Protocol
  import opened Provenance
  import opened NoGaps
  import opened Continuity
  import Identity

  predicate EventRow(r: Record) {
    (r.event == Added || r.event == Modified) && r.data.Some? && r.diff.None?
  }

  ghost predicate OnlyEventRows(s: State) {
    && (forall i :: 0 <= i < |s.rows| ==> EventRow(s.rows[i]))
    && (forall i :: 0 <= i < |s.jobs| ==> s.jobs[i].Upsert? && EventRow(s.jobs[i].record))
    && s.closeOuts == []
    && (s.worker.Reserving? ==> s.worker.job.Upsert? && EventRow(s.worker.job.record))
    && !(s.worker.Retried? && s.worker.found.None?)
    && !(s.worker.Read? && s.worker.found.None?)
  }

  /** An Event's entry holds nothing to diff against and is never claimed as deleted. */
  predicate Bare(cfg: Config, e: Option<CacheEntry>) {
    e.Some? ==> !DecodeBaseline(cfg.codec, e.value.baseline).Text? && !e.value.pendingDelete
  }

  predicate BareJob(cfg: Config, j: Job) {
    j.Upsert? && j.version >= 1 && Bare(cfg, Some(j.confirmed)) && Bare(cfg, j.revert)
  }

  /** Unless the key is queued, an Event that has left the watch cache has no entry. */
  ghost predicate Forgotten(cfg: Config, s: State) {
    && Bare(cfg, s.entry)
    && (forall j :: j in s.jobs ==> BareJob(cfg, j))
    && (s.worker.Loaded? || s.worker.Closed? ==> Bare(cfg, s.worker.cached))
    && (s.worker.Reserving? ==> BareJob(cfg, s.worker.job))
    && (!s.queued && s.live.None? ==> s.worker.Idle? && s.entry.None?)
  }

  lemma ForgottenSettle(cfg: Config, s: State, i: nat, ok: bool, durable: bool)
    requires Forgotten(cfg, s) && i < |s.jobs|
    ensures Forgotten(cfg, AfterSettle(s, i, ok, durable))
  {
    assert s.jobs[i] in s.jobs;
    assert forall j :: j in Without(s.jobs, i) ==> j in s.jobs;
  }

  lemma ForgottenSubmit(cfg: Config, s: State, accepted: bool)
    requires Forgotten(cfg, s) && s.worker.Reserving? && s.worker.job.Upsert?
    ensures Forgotten(cfg, AfterSubmit(s, accepted))
  {
  }

  lemma ForgottenReserve(cfg: Config, s: State, warm: bool)
    requires cfg.ephemeral && Forgotten(cfg, s) && s.worker.Closed?
    ensures Forgotten(cfg, AfterReserve(cfg, s, warm))
  {
  }

  lemma ForgottenRetry(cfg: Config, s: State, accepts: seq<bool>)
    requires OnlyEventRows(s) && Forgotten(cfg, s) && s.worker.Read? && |accepts| == |s.closeOuts|
    ensures Forgotten(cfg, AfterRetry(s, accepts))
  {
    assert AfterRetry(s, accepts).jobs == s.jobs;
  }

  lemma ForgottenStep(cfg: Config, s: State, step: Step)
    requires cfg.ephemeral && OnlyEventRows(s) && Forgotten(cfg, s) && Enabled(cfg, s, step)
    ensures Forgotten(cfg, Next(cfg, s, step))
  {
    match step
    case Retry(accepts) => ForgottenRetry(cfg, s, accepts);
    case Reserve(warm) => ForgottenReserve(cfg, s, warm);
    case Submit(accepted) => ForgottenSubmit(cfg, s, accepted);
    case Settle(i, ok, durable) => ForgottenSettle(cfg, s, i, ok, durable);
    case _ =>
  }

  lemma {:induction false} ForgottenInEveryRun(cfg: Config, h: Hypotheses, s: State, steps: seq<Step>)
    requires cfg.ephemeral && OnlyEventRows(s) && Forgotten(cfg, s) && Exec(cfg, h, s, steps).Some?
    ensures Forgotten(cfg, Exec(cfg, h, s, steps).value)
    decreases steps
  {
    if steps != [] {
      EventStep(cfg, s, steps[0]);
      ForgottenStep(cfg, s, steps[0]);
      ForgottenInEveryRun(cfg, h, Next(cfg, s, steps[0]), steps[1..]);
    }
  }

  /** In every run, under no hypothesis: an expired Event leaves no entry behind, and no Event keeps a baseline. */
  lemma ExpiredEventsAreForgotten(cfg: Config, h: Hypotheses, steps: seq<Step>)
    requires cfg.ephemeral && Exec(cfg, h, INIT, steps).Some?
    ensures var s := Exec(cfg, h, INIT, steps).value;
      && (!s.queued && s.live.None? ==> s.entry.None?)
      && (s.entry.Some? ==> !DecodeBaseline(cfg.codec, s.entry.value.baseline).Text?)
  {
    ForgottenInEveryRun(cfg, h, INIT, steps);
  }

  lemma EventStep(cfg: Config, s: State, step: Step)
    requires cfg.ephemeral && OnlyEventRows(s) && Enabled(cfg, s, step)
    ensures OnlyEventRows(Next(cfg, s, step))
  {
  }

  /** No run issues a Deleted, Snapshot, Checkpoint or diff-bearing row for an Event. */
  lemma {:induction false} EventsStayEphemeral(cfg: Config, h: Hypotheses, s: State, steps: seq<Step>)
    requires cfg.ephemeral && OnlyEventRows(s) && Exec(cfg, h, s, steps).Some?
    ensures OnlyEventRows(Exec(cfg, h, s, steps).value)
    decreases steps
  {
    if steps != [] {
      EventStep(cfg, s, steps[0]);
      EventsStayEphemeral(cfg, h, Next(cfg, s, steps[0]), steps[1..]);
    }
  }

  /** The configuration a key runs under: only the kind decides whether it is ephemeral. */
  function ConfigFor(codec: Codec, every: int, key: Identity.Key): Config {
    Config(codec, every, Identity.EphemeralKind(key.group, key.kind))
  }

  /** So no run for an Event of either API group leaves any other row, queued write or debt. */
  lemma EventKeysStayEphemeral(codec: Codec, every: int, key: Identity.Key, h: Hypotheses, steps: seq<Step>)
    requires key.kind == "Event" && key.group in ["", "events.k8s.io"]
    requires Exec(ConfigFor(codec, every, key), h, INIT, steps).Some?
    ensures var s := Exec(ConfigFor(codec, every, key), h, INIT, steps).value;
      && (forall r :: r in s.rows ==> r.event in {Added, Modified} && r.data.Some? && r.diff.None?)
      && (forall j :: j in s.jobs ==> j.record.event in {Added, Modified} && j.record.diff.None?)
      && s.closeOuts == []
  {
    EventsStayEphemeral(ConfigFor(codec, every, key), h, INIT, steps);
  }

  /** The newest row is the full state of `obj`. */
  ghost predicate RecordedInFull(cfg: Config, rows: seq<Record>, obj: Obj) {
    exists i: nat ::
      && NewestRow(rows, i) && rows[i].event in {Added, Modified}
      && rows[i].uid == obj.uid && rows[i].sha == cfg.codec.hash(obj.json)
      && rows[i].data == Some(obj.json) && rows[i].diff == None
  }

  /**
  In every run whose jobs settle truthfully between items, an Event in the watch cache with nothing left
  to do for it has its full document as its newest row.
  */
  lemma LiveEventIsRecorded(cfg: Config, h: Hypotheses, steps: seq<Step>)
    requires Lawful(cfg.codec) && cfg.ephemeral && h.settled && h.truthful && h.uids
    requires Exec(cfg, h, INIT, steps).Some?
    ensures var s := Exec(cfg, h, INIT, steps).value;
      Quiescent(s) && s.live.Some? ==> RecordedInFull(cfg, s.rows, s.live.value)
  {
    LiveIsRecorded(cfg, h, steps);
    EventsStayEphemeral(cfg, h, INIT, steps);
    var s := Exec(cfg, h, INIT, steps).value;
    if Quiescent(s) && s.live.Some? {
      var obj := s.live.value;
      var i: nat :| NewestRow(s.rows, i) && s.rows[i].uid == obj.uid && s.rows[i].sha == cfg.codec.hash(obj.json);
      var o := RowsAreObserved(cfg, h, steps, i);
      assert EventRow(s.rows[i]);
    }
  }

  /** So the live Events of both API groups are recorded in full. */
  lemma EventKeysAreRecorded(codec: Codec, every: int, key: Identity.Key, h: Hypotheses, steps: seq<Step>)
    requires key.kind == "Event" && key.group in ["", "events.k8s.io"]
    requires Lawful(codec) && h.settled && h.truthful && h.uids
    requires Exec(ConfigFor(codec, every, key), h, INIT, steps).Some?
    ensures var s := Exec(ConfigFor(codec, every, key), h, INIT, steps).value;
      Quiescent(s) && s.live.Some? ==> RecordedInFull(ConfigFor(codec, every, key), s.rows, s.live.value)
  {
    LiveEventIsRecorded(ConfigFor(codec, every, key), h, steps);
  }

  /** Every other kind, and Events of any other group, are recorded to the end, deaths included. */
  lemma DurableKindsHaveNoGaps(codec: Codec, every: int, key: Identity.Key, h: Hypotheses, steps: seq<Step>)
    requires !(key.kind == "Event" && key.group in ["", "events.k8s.io"])
    requires h.settled && h.truthful && h.uids && h.idleGc
    requires Exec(ConfigFor(codec, every, key), h, INIT, steps).Some?
    ensures var s := Exec(ConfigFor(codec, every, key), h, INIT, steps).value;
      Quiescent(s) ==> Recorded(ConfigFor(codec, every, key), s.rows, s.live)
  {
    NoGapsWhenQuiescent(ConfigFor(codec, every, key), h, steps);
  }
}
