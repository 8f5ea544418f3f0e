/**
The data plane as the program runs it: one dedup cache, one close-out retry list and one work
queue, updated in place for many keys. Every method is proved to do to its own key exactly what
the protocol's steps do, and nothing to any other key.
*/
module Pipelines {
  import opened Common
  import opened HashCaches
  import opened Protocol
  import opened Implications

  /** The environment's answers during one work item. */
  datatype Answers = Answers(
    listed: bool,
    sinkLive: bool,
    retries: seq<bool>,
    policyOk: bool,
    closeOutAccepted: bool,
    warm: bool,
    accepted: bool)

  /** One work item with nothing in between: the worker's steps from Pick to Idle. */
  function AfterItem(cfg: Config, s: State, a: Answers): State
    requires s.worker.Idle? && |a.retries| == |s.closeOuts|
  {
    var picked := Picked(cfg, s, a.listed, a.sinkLive);
    if !picked.worker.Read? then picked
    else
      var retried := AfterRetry(picked, a.retries);
      if retried.worker.found.None? then AfterEmitDelete(retried, a.accepted)
      else
        var loaded := AfterLoad(cfg, retried, a.policyOk);
        if !loaded.worker.Loaded? then loaded
        else AfterUpsert(cfg, loaded, a)
  }

  function AfterUpsert(cfg: Config, s: State, a: Answers): State
    requires s.worker.Loaded?
  {
    AfterSubmit(AfterReserve(cfg, AfterCloseOld(cfg, s, a.closeOutAccepted), a.warm), a.accepted)
  }

  /** What a run under `h` asks of an uninterrupted item, when it is picked and when it reserves. */
  predicate MayStart(h: Hypotheses, s: State) {
    && (h.settled ==> s.jobs == [])
    && (h.lifetimes && s.entry.None? ==> forall i :: 0 <= i < |s.jobs| ==> !Versioned(s.jobs[i]))
  }

  lemma ExecOne(cfg: Config, h: Hypotheses, s: State, step: Step, rest: seq<Step>)
    requires Enabled(cfg, s, step) && Allowed(h, s, step)
    ensures Exec(cfg, h, s, [step] + rest) == Exec(cfg, h, Next(cfg, s, step), rest)
  {
    assert ([step] + rest)[1..] == rest;
  }

  lemma RetryStillMay(h: Hypotheses, s: State, accepts: seq<bool>)
    requires s.worker.Read? && |accepts| == |s.closeOuts| && MayStart(h, s)
    ensures MayStart(h.(settled := false), AfterRetry(s, accepts))
  {
    AcceptedAreUnversioned(s.closeOuts, accepts);
    var more := AcceptedJobs(s.closeOuts, accepts);
    assert forall i :: 0 <= i < |more| ==> more[i] in more;
  }

  /**
  An uninterrupted work item is a run of the machine under any hypotheses that let it start, so
  every theorem about such runs covers it.
  */
  lemma ItemIsARun(cfg: Config, h: Hypotheses, s: State, a: Answers) returns (steps: seq<Step>, t: State)
    requires s.worker.Idle? && s.queued && |a.retries| == |s.closeOuts| && MayStart(h, s)
    ensures t == AfterItem(cfg, s, a) && t.worker.Idle?
    ensures Exec(cfg, h, s, steps) == Some(t)
  {
    t := AfterItem(cfg, s, a);
    var pick, retry := Pick(a.listed, a.sinkLive), Retry(a.retries);
    var s1 := Next(cfg, s, pick);
    if !s1.worker.Read? {
      steps := [pick];
      ExecOne(cfg, h, s, pick, []);
      return;
    }
    var s2 := Next(cfg, s1, retry);
    RetryStillMay(h, s1, a.retries);
    var rest;
    if s2.worker.found.None? {
      rest := [EmitDelete(a.accepted)];
      ExecOne(cfg, h, s2, EmitDelete(a.accepted), []);
    } else {
      rest := UpsertIsARun(cfg, h, s2, a);
    }
    steps := [pick] + ([retry] + rest);
    ExecOne(cfg, h, s, pick, [retry] + rest);
    ExecOne(cfg, h, s1, retry, rest);
  }

  /** A work item reads the watch cache and does not change it. */
  lemma ItemKeepsLive(cfg: Config, s: State, a: Answers)
    requires s.worker.Idle? && |a.retries| == |s.closeOuts|
    ensures AfterItem(cfg, s, a).live == s.live
  {
  }

  /** The writes among the jobs, in order. */
  function Writes(jobs: seq<Job>): seq<Job> {
    if jobs == [] then []
    else
      var last := jobs[|jobs| - 1];
      Writes(jobs[..|jobs| - 1]) + if last.Upsert? then [last] else []
  }

  lemma {:induction false} WritesConcat(a: seq<Job>, b: seq<Job>)
    ensures Writes(a + b) == Writes(a) + Writes(b)
    decreases b
  {
    if b == [] {
      assert a + b == a;
    } else {
      var n := |b| - 1;
      WritesConcat(a, b[..n]);
      assert (a + b)[..|a + b| - 1] == a + b[..n];
    }
  }

  lemma {:induction false} NoWrites(jobs: seq<Job>)
    requires forall j :: j in jobs ==> !j.Upsert?
    ensures Writes(jobs) == []
    decreases jobs
  {
    if jobs != [] {
      NoWrites(jobs[..|jobs| - 1]);
    }
  }

  /** What the sink was told last is what the watch cache holds: an empty stored UID passes for any. */
  predicate Duplicate(cfg: Config, entry: Option<CacheEntry>, obj: Obj) {
    && entry.Some?
    && (entry.value.uid == NO_UID || entry.value.uid == obj.uid)
    && entry.value.hash == cfg.codec.hash(obj.json)
  }

  /** The row holds the whole document and nothing to fold. */
  predicate InFull(r: Record, obj: Obj) {
    r.data == Some(obj.json) && r.diff == None
  }

  /**
  A change against a known document is a patch from it; it becomes a checkpoint when the sink has a
  cadence and it is the one that is due, or when the patch is larger than the document.
  */
  predicate Changed(cfg: Config, e: CacheEntry, patch: Patch, obj: Obj, u: Job)
    requires u.Upsert?
  {
    && u.record.diff == Some(patch)
    && if cfg.every > 0 && (e.modifiedSinceCheckpoint + 1 >= cfg.every || |patch| > |obj.json|) then
         u.record.event == Checkpoint && u.record.data == Some(obj.json) && u.confirmed.modifiedSinceCheckpoint == 0
       else
         && u.record.event == Modified && u.record.data == None
         && u.confirmed.modifiedSinceCheckpoint == e.modifiedSinceCheckpoint + 1
  }

  /**
  The write says what happened to the object: first seen, while the history is known or not; replaced
  by another incarnation; or changed. A first state, and one with nothing to diff against, is in full.
  Should it fail, what was known of the same object stands.
  */
  predicate Reports(cfg: Config, entry: Option<CacheEntry>, obj: Obj, warm: bool, u: Job) {
    && u.Upsert?
    && u.record.uid == obj.uid && u.record.apiVersion == obj.apiVersion && u.record.sha == cfg.codec.hash(obj.json)
    && u.confirmed.uid == obj.uid && u.confirmed.hash == cfg.codec.hash(obj.json)
    && u.revert == (if entry.Some? && entry.value.uid in {NO_UID, obj.uid} then entry else None)
    && match entry
       case None => InFull(u.record, obj) && u.record.event == if warm || cfg.ephemeral then Added else Snapshot
       case Some(e) =>
         if e.uid !in {NO_UID, obj.uid} then InFull(u.record, obj) && u.record.event == Added
         else
           var base := DecodeBaseline(cfg.codec, e.baseline);
           if !cfg.ephemeral && base.Text? && cfg.codec.diff(base.json, obj.json).Some? then
             Changed(cfg, e, cfg.codec.diff(base.json, obj.json).value, obj, u)
           else InFull(u.record, obj) && u.record.event == Modified
  }

  lemma CloseOldWritesNothing(cfg: Config, s: State, accepted: bool)
    requires s.worker.Loaded?
    ensures Writes(AfterCloseOld(cfg, s, accepted).jobs) == Writes(s.jobs)
  {
    var jobs := AfterCloseOld(cfg, s, accepted).jobs;
    if jobs != s.jobs {
      var more := [jobs[|s.jobs|]];
      assert jobs == s.jobs + more;
      WritesConcat(s.jobs, more);
      NoWrites(more);
    }
  }

  lemma ReserveReports(cfg: Config, s: State, warm: bool)
    requires s.worker.Closed?
    ensures AfterReserve(cfg, s, warm).jobs == s.jobs
    ensures Reports(cfg, s.worker.cached, s.worker.obj, warm, AfterReserve(cfg, s, warm).worker.job)
  {
  }

  /** A write that is not a duplicate is handed over once, or the key is queued again. */
  lemma UpsertReports(cfg: Config, s: State, a: Answers)
    requires s.worker.Loaded?
    ensures var t := AfterUpsert(cfg, s, a);
      if a.accepted then
        exists u :: Writes(t.jobs) == Writes(s.jobs) + [u] && Reports(cfg, s.worker.cached, s.worker.obj, a.warm, u)
      else Writes(t.jobs) == Writes(s.jobs) && t.queued
  {
    var closed := AfterCloseOld(cfg, s, a.closeOutAccepted);
    CloseOldWritesNothing(cfg, s, a.closeOutAccepted);
    assert closed.worker == Closed(s.worker.obj, s.worker.cached);
    ReserveReports(cfg, closed, a.warm);
    SubmitHandsOver(AfterReserve(cfg, closed, a.warm), a.accepted);
  }

  lemma SubmitHandsOver(s: State, accepted: bool)
    requires s.worker.Reserving? && s.worker.job.Upsert?
    ensures var t := AfterSubmit(s, accepted);
      if accepted then Writes(t.jobs) == Writes(s.jobs) + [s.worker.job] else t.jobs == s.jobs && t.queued
  {
    var u := s.worker.job;
    WritesConcat(s.jobs, [u]);
    assert [u][..0] == [] && Writes([u]) == [u];
  }

  /**
  A work item on a listed object, Event or not, writes nothing exactly when the object is a duplicate;
  otherwise it hands over exactly one write, which says what happened, or queues the key again.
  */
  lemma ItemReports(cfg: Config, s: State, a: Answers)
    requires s.worker.Idle? && |a.retries| == |s.closeOuts|
    requires s.live.Some? && a.listed && a.sinkLive && a.policyOk
    ensures var t, obj := AfterItem(cfg, s, a), s.live.value;
      if Duplicate(cfg, s.entry, obj) then Writes(t.jobs) == Writes(s.jobs) && t.entry == s.entry
      else if a.accepted then
        exists u :: Writes(t.jobs) == Writes(s.jobs) + [u] && Reports(cfg, s.entry, obj, a.warm, u)
      else Writes(t.jobs) == Writes(s.jobs) && t.queued
  {
    var picked := Picked(cfg, s, true, true);
    var retried := AfterRetry(picked, a.retries);
    assert Writes(retried.jobs) == Writes(s.jobs) by {
      var more := AcceptedJobs(s.closeOuts, a.retries);
      AcceptedAreUnversioned(s.closeOuts, a.retries);
      WritesConcat(s.jobs, more);
      NoWrites(more);
    }
    var loaded := AfterLoad(cfg, retried, true);
    if !Duplicate(cfg, s.entry, s.live.value) {
      UpsertReports(cfg, loaded, a);
    }
  }

  lemma UpsertIsARun(cfg: Config, h: Hypotheses, s: State, a: Answers) returns (steps: seq<Step>)
    requires s.worker.Retried? && s.worker.found.Some? && MayStart(h.(settled := false), s)
    ensures
      var loaded := AfterLoad(cfg, s, a.policyOk);
      Exec(cfg, h, s, steps) == Some(if loaded.worker.Loaded? then AfterUpsert(cfg, loaded, a) else loaded)
  {
    var load := Load(a.policyOk);
    var s1 := Next(cfg, s, load);
    if !s1.worker.Loaded? {
      steps := [load];
      ExecOne(cfg, h, s, load, []);
      return;
    }
    var rest := RecordingIsARun(cfg, h, s1, a);
    steps := [load] + rest;
    ExecOne(cfg, h, s, load, rest);
  }

  lemma RecordingIsARun(cfg: Config, h: Hypotheses, s: State, a: Answers) returns (steps: seq<Step>)
    requires s.worker.Loaded? && MayStart(h.(settled := false), s)
    ensures Exec(cfg, h, s, steps) == Some(AfterUpsert(cfg, s, a))
  {
    var close, reserve, submit := CloseOld(a.closeOutAccepted), Reserve(a.warm), Submit(a.accepted);
    var s1 := Next(cfg, s, close);
    assert MayStart(h.(settled := false), s1);
    var s2 := Next(cfg, s1, reserve);
    steps := [close] + ([reserve] + ([submit] + []));
    ExecOne(cfg, h, s2, submit, []);
    ExecOne(cfg, h, s1, reserve, [submit] + []);
    ExecOne(cfg, h, s, close, [reserve] + ([submit] + []));
  }

  // ---------------------------------------------------------------- per-key lists

  class CloseOutRetryQueue {
    var data: map<string, seq<Record>>

    constructor ()
      ensures data == map[]
    {
      data := map[];
    }

    method Add(key: string, record: Record)
      modifies this
      ensures data == old(data)[key := ListAt(old(data), key) + [record]]
    {
      data := data[key := ListAt(data, key) + [record]];
    }

    method TakeAll(key: string) returns (records: seq<Record>)
      modifies this
      ensures records == ListAt(old(data), key)
      ensures data == old(data) - {key}
    {
      records := ListAt(data, key);
      data := data - {key};
    }
  }

  // ---------------------------------------------------------------- the pipeline

  /** Everything the pipeline holds for one key. */
  datatype Slot = Slot(queued: bool, entry: Option<CacheEntry>, jobs: seq<Job>, closeOuts: seq<Record>)

  function SlotOf(s: State): Slot {
    Slot(s.queued, s.entry, s.jobs, s.closeOuts)
  }

  /** A close-out is in the sink's hands, or it is owed and the key is queued. */
  function AfterCloseOut(t: Slot, record: Record, accepted: bool): Slot {
    if accepted then t.(jobs := t.jobs + [CloseOut(record)])
    else t.(queued := true, closeOuts := t.closeOuts + [record])
  }

  function RetryAll(t: Slot, records: seq<Record>, accepts: seq<bool>): Slot
    requires |records| == |accepts|
    decreases records
  {
    if records == [] then t
    else RetryAll(AfterCloseOut(t, records[0], accepts[0]), records[1..], accepts[1..])
  }

  /** Retrying one record after the other is the machine's single Retry step. */
  lemma {:induction false} RetryAllIsAfterRetry(t: Slot, records: seq<Record>, accepts: seq<bool>)
    requires |records| == |accepts|
    ensures RetryAll(t, records, accepts)
      == t.(queued := t.queued || RefusedRecords(records, accepts) != [],
            jobs := t.jobs + AcceptedJobs(records, accepts),
            closeOuts := t.closeOuts + RefusedRecords(records, accepts))
    decreases records
  {
    if records != [] {
      RetryAllIsAfterRetry(AfterCloseOut(t, records[0], accepts[0]), records[1..], accepts[1..]);
    }
  }

  class Pipeline {
    const cache: HashCache
    const closeOuts: CloseOutRetryQueue
    var queue: set<string>
    /** The jobs the sink has accepted and not yet settled. */
    var handed: map<string, seq<Job>>
    var clock: nat

    constructor ()
      ensures fresh(cache) && fresh(closeOuts)
      ensures forall k :: At(k) == SlotOf(INIT)
      ensures clock == 0
    {
      cache := new HashCache();
      closeOuts := new CloseOutRetryQueue();
      queue := {};
      handed := map[];
      clock := 0;
    }

    function At(key: string): Slot
      reads this, cache, closeOuts
    {
      Slot(key in queue, Lookup(cache.data, key), ListAt(handed, key), ListAt(closeOuts.data, key))
    }

    /** The fields hold what the machine state `s` says of `key`. */
    predicate Shows(key: string, s: State)
      reads this, cache, closeOuts
    {
      At(key) == SlotOf(s) && clock == s.clock
    }

    twostate predicate OnlyTouches(key: string)
      reads this, cache, closeOuts
    {
      old(clock) <= clock && forall k :: k != key ==> At(k) == old(At(k))
    }

    /** For any other key no more happened than that time passed. */
    twostate lemma OthersTick(key: string, other: string, cfg: Config, s: State)
      requires OnlyTouches(key) && other != key && old(Shows(other, s))
      ensures Enabled(cfg, s, Tick(clock)) && Shows(other, Next(cfg, s, Tick(clock)))
    {
      assert At(other) == old(At(other));
    }

    /** The watch cache changed: the key is due. */
    method AddToQueue(key: string)
      modifies this`queue
      ensures At(key) == old(At(key)).(queued := true)
      ensures OnlyTouches(key)
    {
      queue := queue + {key};
    }

    method Enqueue(key: string, job: Job, accepted: bool) returns (ok: bool)
      modifies this`handed
      ensures ok == accepted
      ensures handed == if ok then old(handed)[key := ListAt(old(handed), key) + [job]] else old(handed)
    {
      ok := accepted;
      if accepted {
        handed := handed[key := ListAt(handed, key) + [job]];
      }
    }

    method ForgetEphemeral(key: string)
      modifies cache
      ensures
        var was := Lookup(old(cache.data), key);
        cache.data == Put(old(cache.data), key, if ClaimVerdict(was, NO_UID) == Claimed then None else was)
    {
      var _, version, outcome := cache.ReserveDelete(key, NO_UID);
      if outcome != Claimed {
        return;
      }
      var _ := cache.DeleteIfCurrent(key, version);
    }

    method EnqueueCloseOut(key: string, record: Record, accepted: bool)
      modifies this`handed, this`queue, closeOuts
      ensures At(key) == AfterCloseOut(old(At(key)), record, accepted)
      ensures OnlyTouches(key)
    {
      var ok := Enqueue(key, CloseOut(record), accepted);
      if !ok {
        closeOuts.Add(key, record);
        queue := queue + {key};
      }
    }

    method RetryPendingCloseOuts(key: string, accepts: seq<bool>, ghost s: State)
      requires Shows(key, s) && s.worker.Read?
      requires |accepts| == |s.closeOuts|
      modifies this`handed, this`queue, closeOuts
      ensures Shows(key, AfterRetry(s, accepts))
      ensures OnlyTouches(key)
    {
      var records := closeOuts.TakeAll(key);
      ghost var taken := SlotOf(s).(closeOuts := []);
      RetryAllIsAfterRetry(taken, records, accepts);
      var i := 0;
      while i < |records|
        invariant i <= |records| == |accepts|
        invariant RetryAll(At(key), records[i..], accepts[i..]) == RetryAll(taken, records, accepts)
        invariant OnlyTouches(key)
      {
        assert records[i..][1..] == records[i + 1..] && accepts[i..][1..] == accepts[i + 1..];
        EnqueueCloseOut(key, records[i], accepts[i]);
        i := i + 1;
      }
    }

    /** The shared deletion path of the worker and the collector. */
    method EmitDelete(key: string, expectedUid: Uid, accepted: bool, ghost s: State)
      returns (outcome: ClaimOutcome, failed: bool)
      requires Shows(key, s)
      modifies this`handed, this`clock, cache
      ensures outcome == ClaimVerdict(s.entry, expectedUid)
      ensures failed == (outcome == Claimed && !accepted)
      ensures Shows(key, ClaimAndDelete(s, expectedUid, accepted))
      ensures OnlyTouches(key)
    {
      var entry, version;
      entry, version, outcome := cache.ReserveDelete(key, expectedUid);
      if outcome != Claimed {
        return outcome, false;
      }
      var record := Record(clock, Deleted, entry.value.uid, entry.value.apiVersion, None, None, NO_DIGEST);
      clock := clock + 1;
      var ok := Enqueue(key, Delete(record, version), accepted);
      if !ok {
        cache.UnclaimDelete(key, version);
      }
      return Claimed, !ok;
    }

    method RevertVersion(key: string, version: nat, revert: Option<CacheEntry>)
      modifies cache
      ensures cache.data == Put(old(cache.data), key, Reverted(Lookup(old(cache.data), key), version, revert))
    {
      if revert.Some? {
        var _ := cache.CommitIfCurrent(key, version, revert.value);
      } else {
        var _ := cache.DeleteIfCurrent(key, version);
      }
    }

    /** The reincarnation branch: claim the superseded incarnation's deletion and close it out. */
    method CloseSuperseded(
      cfg: Config, key: string, obj: Obj, cached: Option<CacheEntry>, accepted: bool, ghost s: State)
      requires Shows(key, s) && s.worker == Loaded(obj, cached)
      modifies this, closeOuts, cache
      ensures Shows(key, AfterCloseOld(cfg, s, accepted))
      ensures OnlyTouches(key)
    {
      if cfg.ephemeral || !Reincarnated(cached, obj) {
        return;
      }
      var claimed, _, outcome := cache.ReserveDelete(key, cached.value.uid);
      if outcome == Claimed {
        var record := Record(clock, Deleted, claimed.value.uid, claimed.value.apiVersion, None, None, NO_DIGEST);
        clock := clock + 1;
        EnqueueCloseOut(key, record, accepted);
      }
    }

    method ReserveAndSubmit(cfg: Config, key: string, obj: Obj, cached: Option<CacheEntry>, a: Answers, ghost s: State)
      returns (failed: bool)
      requires Shows(key, s) && s.worker == Closed(obj, cached)
      modifies this, cache
      ensures failed == !a.accepted
      ensures
        var t := AfterSubmit(AfterReserve(cfg, s, a.warm), a.accepted);
        Shows(key, t.(queued := s.queued)) && t.queued == (s.queued || failed)
      ensures OnlyTouches(key)
    {
      var d := DraftOf(cfg, cached, obj, a.warm);
      var confirmed := ConfirmedEntry(cfg, d, obj);
      var version := cache.Reserve(key, confirmed);
      var record := RecordOf(cfg, d, obj, clock);
      clock := clock + 1;
      var ok := Enqueue(key, Upsert(record, version, confirmed, d.revert), a.accepted);
      if !ok {
        RevertVersion(key, version, d.revert);
      }
      return !ok;
    }

    method ProcessUpsert(cfg: Config, key: string, obj: Obj, a: Answers, ghost s: State) returns (failed: bool)
      requires Shows(key, s) && s.worker == Retried(Some(obj))
      modifies this, cache, closeOuts
      ensures
        var loaded := AfterLoad(cfg, s, a.policyOk);
        var t := if loaded.worker.Loaded? then AfterUpsert(cfg, loaded, a) else loaded;
        Shows(key, t.(queued := key in queue)) && t.queued == (key in queue || failed)
      ensures OnlyTouches(key)
    {
      if !a.policyOk {
        return true;
      }
      var cached := cache.Load(key);
      if cached.Some? && SameObject(cached.value, obj) && cached.value.hash == cfg.codec.hash(obj.json) {
        return false;
      }
      failed := RecordChange(cfg, key, obj, cached, a, AfterLoad(cfg, s, true));
    }

    /** What changed is closed out, drafted, reserved and submitted. */
    method RecordChange(cfg: Config, key: string, obj: Obj, cached: Option<CacheEntry>, a: Answers, ghost s: State)
      returns (failed: bool)
      requires Shows(key, s) && s.worker == Loaded(obj, cached)
      modifies this, cache, closeOuts
      ensures
        var t := AfterUpsert(cfg, s, a);
        Shows(key, t.(queued := key in queue)) && t.queued == (key in queue || failed)
      ensures OnlyTouches(key)
    {
      ghost var closed := AfterCloseOld(cfg, s, a.closeOutAccepted);
      CloseSuperseded(cfg, key, obj, cached, a.closeOutAccepted, s);
      failed := ReserveAndSubmit(cfg, key, obj, cached, a, closed);
    }

    /** One work item after the lister answered, its sink resolved; `failed` asks for a retry. */
    method Process(cfg: Config, key: string, found: Option<Obj>, a: Answers, ghost s: State) returns (failed: bool)
      requires Shows(key, s.(queued := false)) && s.worker.Idle? && s.live == found && s.queued
      requires |a.retries| == |s.closeOuts|
      modifies this, cache, closeOuts
      ensures
        var t := AfterItem(cfg, s, a);
        Shows(key, t.(queued := key in queue)) && t.queued == (key in queue || failed)
      ensures OnlyTouches(key)
    {
      if !a.listed {
        return true;
      }
      if found.None? && cfg.ephemeral {
        ForgetEphemeral(key);
        return false;
      }
      if !a.sinkLive {
        return true;
      }
      ghost var picked := Picked(cfg, s, true, true);
      RetryPendingCloseOuts(key, a.retries, picked);
      ghost var retried := AfterRetry(picked, a.retries);
      if found.None? {
        var _, err := EmitDelete(key, NO_UID, a.accepted, retried);
        return err;
      }
      failed := ProcessUpsert(cfg, key, found.value, a, retried);
    }

    /** Takes the key off the queue, processes it, and puts it back if that failed. */
    method ProcessNext(cfg: Config, key: string, found: Option<Obj>, a: Answers, ghost s: State)
      requires Shows(key, s) && key in queue && s.worker.Idle? && s.live == found
      requires |a.retries| == |s.closeOuts|
      modifies this, cache, closeOuts
      ensures Shows(key, AfterItem(cfg, s, a))
      ensures OnlyTouches(key)
    {
      queue := queue - {key};
      label Taken:
      var failed := Process(cfg, key, found, a, s);
      if failed {
        queue := queue + {key};
      }
      forall k | k != key
        ensures At(k) == old(At(k))
      {
        assert old@Taken(At(k)) == old(At(k));
      }
    }

    /** The sink settles one job of the key and runs its commit callback. */
    method Settle(key: string, i: nat, ok: bool, durable: bool, ghost s: State)
      requires Shows(key, s) && i < |s.jobs|
      modifies this, cache, closeOuts
      ensures Shows(key, AfterSettle(s, i, ok, durable))
      ensures OnlyTouches(key)
    {
      var job := handed[key][i];
      handed := handed[key := Without(handed[key], i)];
      match job {
        case Upsert(_, version, confirmed, revert) =>
          if ok {
            var _ := cache.CommitIfCurrent(key, version, confirmed);
          } else {
            RevertVersion(key, version, revert);
          }
        case Delete(_, version) =>
          if ok {
            var _ := cache.DeleteIfCurrent(key, version);
          } else {
            cache.UnclaimDelete(key, version);
          }
        case CloseOut(record) =>
          if !ok {
            closeOuts.Add(key, record);
          }
      }
      if !ok {
        queue := queue + {key};
      }
    }
  }
}
