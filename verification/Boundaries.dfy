/**
The hypotheses of the protocol theorems are needed: for each one, a run that is possible in the
code, meets the others, and breaks a guarantee. Where one hypothesis follows from another, both are
dropped.
*/
module Boundaries {
  import opened Common
  import opened HashCaches
  import opened Protocol
  import opened Implications
  import opened NoGaps
  import opened FullRows
  import opened Replay

  const ALL := Hypotheses(true, true, true, true, true, true, true)

  const OK := Settle(0, true, true)
  const FAILED := Settle(0, false, false)

  /** One more step of a run. */
  lemma Go(cfg: Config, h: Hypotheses, run: seq<Step>, s: State, step: Step) returns (more: seq<Step>, t: State)
    requires Exec(cfg, h, INIT, run) == Some(s) && Enabled(cfg, s, step) && Allowed(h, s, step)
    ensures more == run + [step] && t == Next(cfg, s, step) && Exec(cfg, h, INIT, more) == Some(t)
  {
    more, t := run + [step], Next(cfg, s, step);
    ExecConcat(cfg, h, INIT, run, [step]);
    assert [step][1..] == [];
  }

  /** The worker takes the item and gets as far as loading the cache. */
  lemma Begin(cfg: Config, h: Hypotheses, run: seq<Step>, s: State) returns (more: seq<Step>, t: State)
    requires Exec(cfg, h, INIT, run) == Some(s)
    requires s.queued && s.worker.Idle? && s.closeOuts == [] && (h.settled ==> s.jobs == [])
    requires cfg.ephemeral ==> s.live.Some?
    ensures Exec(cfg, h, INIT, more) == Some(t) && t == s.(queued := false, worker := Retried(s.live))
  {
    more, t := Go(cfg, h, run, s, Pick(true, true));
    more, t := Go(cfg, h, more, t, Retry([]));
    assert t.jobs == s.jobs;
  }

  /** The worker writes what it found, and the sink accepts it. */
  lemma Finish(cfg: Config, h: Hypotheses, run: seq<Step>, s: State) returns (more: seq<Step>, t: State, u: Job)
    requires Exec(cfg, h, INIT, run) == Some(s) && s.worker.Loaded? && !cfg.ephemeral
    requires ClaimVerdict(s.entry, NO_UID) == Claimed ==> !Reincarnated(s.worker.cached, s.worker.obj)
    requires s.entry.None? ==> h.lifetimes ==> forall i :: 0 <= i < |s.jobs| ==> !Versioned(s.jobs[i])
    ensures Exec(cfg, h, INIT, more) == Some(t)
    ensures var obj, d := s.worker.obj, DraftOf(cfg, s.worker.cached, s.worker.obj, true);
      && u == Upsert(RecordOf(cfg, d, obj, s.clock), CurrentVersion(s.entry) + 1, ConfirmedEntry(cfg, d, obj), d.revert)
      && t == s.(worker := Idle, clock := s.clock + 1, jobs := s.jobs + [u],
                 entry := Some(u.confirmed.(version := u.version)))
  {
    more, t := Go(cfg, h, run, s, CloseOld(true));
    more, t := Go(cfg, h, more, t, Reserve(true));
    u := t.worker.job;
    more, t := Go(cfg, h, more, t, Submit(true));
  }

  /** The entry a write of `json` confirms: its digest, its baseline, no claim. */
  predicate SpeaksFor(cfg: Config, e: CacheEntry, json: Json) {
    && e.hash == cfg.codec.hash(json) && e.baseline == CompressBaseline(cfg.codec, json)
    && e.modifiedSinceCheckpoint == 0 && !e.pendingDelete
  }

  /** `x` is observed and its first write handed to the sink. */
  lemma Submitted(cfg: Config, h: Hypotheses, x: Obj) returns (run: seq<Step>, s: State, u: Job)
    requires !cfg.ephemeral && (h.uids ==> x.uid != NO_UID)
    ensures Exec(cfg, h, INIT, run) == Some(s)
    ensures u.Upsert? && u.version == 1 && u.revert == None
    ensures u.record.event == Added && u.record.uid == x.uid && u.record.ts == 0
    ensures u.confirmed.uid == x.uid && SpeaksFor(cfg, u.confirmed, x.json)
    ensures s == INIT.(live := Some(x), entry := Some(u.confirmed.(version := 1)), jobs := [u], clock := 1)
  {
    run, s := Go(cfg, h, [], INIT, Observe(x));
    run, s := Begin(cfg, h, run, s);
    run, s := Go(cfg, h, run, s, Load(true));
    run, s, u := Finish(cfg, h, run, s);
    assert s.jobs == [u];
  }

  /** `x` is observed and recorded: one Added row, one confirmed entry. */
  lemma RecordFirst(cfg: Config, h: Hypotheses, x: Obj) returns (run: seq<Step>, s: State)
    requires !cfg.ephemeral && (h.uids ==> x.uid != NO_UID)
    ensures Exec(cfg, h, INIT, run) == Some(s)
    ensures s.entry.Some? && s.rows != []
    ensures var e, r := s.entry.value, s.rows[0];
      && e.uid == x.uid && SpeaksFor(cfg, e, x.json) && e.version == 1
      && r.event == Added && r.uid == x.uid && r.ts == 0
      && s == INIT.(live := Some(x), entry := Some(e), rows := [r], clock := 1)
  {
    var u: Job;
    run, s, u := Submitted(cfg, h, x);
    run, s := Go(cfg, h, run, s, OK);
  }

  /** The work item of a vanished object claims its deletion and hands the row over. */
  lemma ClaimGone(cfg: Config, h: Hypotheses, run: seq<Step>, s: State) returns (more: seq<Step>, t: State, d: Job)
    requires Exec(cfg, h, INIT, run) == Some(s) && !cfg.ephemeral
    requires s.queued && s.worker.Idle? && s.closeOuts == [] && (h.settled ==> s.jobs == []) && s.live.None?
    requires s.entry.Some? && !s.entry.value.pendingDelete
    ensures Exec(cfg, h, INIT, more) == Some(t)
    ensures d == Delete(DeletedRecord(s.entry.value, s.clock), s.entry.value.version + 1)
    ensures t == s.(queued := false, jobs := s.jobs + [d], clock := s.clock + 1,
                    entry := Some(s.entry.value.(version := d.version, pendingDelete := true)))
  {
    more, t := Begin(cfg, h, run, s);
    more, t := Go(cfg, h, more, t, EmitDelete(true));
    d := t.jobs[|s.jobs|];
  }

  /** A worker reads `b`, the object vanishes, and the collector claims its deletion in the middle of the item. */
  lemma ClaimedMidItem(
    cfg: Config, h: Hypotheses, a: Json, b: Json)
    returns (run: seq<Step>, s: State, e: CacheEntry, d: Job)
    requires !cfg.ephemeral && cfg.codec.hash(a) != cfg.codec.hash(b) && !h.calmGc && !h.idleGc
    ensures Exec(cfg, h, INIT, run) == Some(s)
    ensures e.uid == 1 && e.hash == cfg.codec.hash(a)
    ensures d.Delete? && d.version == e.version && d.record.event == Deleted && d.record.uid == 1
    ensures |s.rows| == 1 && s.rows[0].event == Added
    ensures s == INIT.(gone := {1}, queued := true, worker := Retried(Some(Obj(1, b, "v1"))), rows := s.rows,
                       entry := Some(e.(pendingDelete := true)), jobs := [d], clock := 2)
  {
    run, s := RecordFirst(cfg, h, Obj(1, a, "v1"));
    run, s := Go(cfg, h, run, s, Observe(Obj(1, b, "v1")));
    run, s := Begin(cfg, h, run, s);
    run, s := Go(cfg, h, run, s, Vanish);
    run, s := Go(cfg, h, run, s, GcClaim(1, true));
    d, e := s.jobs[0], s.entry.value;
    assert s.jobs == [d];
  }

  /**
  Without `calmGc` and `idleGc`: a worker reads an object, the object vanishes, the collector claims
  and records its death, and the worker's late write makes the next item record the death again.
  */
  lemma CollectorRace(cfg: Config, a: Json, b: Json) returns (run: seq<Step>, s: State)
    requires !cfg.ephemeral && cfg.codec.hash(a) != cfg.codec.hash(b)
    ensures Exec(cfg, ALL.(calmGc := false, idleGc := false), INIT, run) == Some(s)
    ensures DiesTwice(s.rows)
  {
    var h := ALL.(calmGc := false, idleGc := false);
    var e: CacheEntry;
    var d, u: Job;
    run, s, e, d := ClaimedMidItem(cfg, h, a, b);
    run, s := Go(cfg, h, run, s, Load(true));
    run, s, u := Finish(cfg, h, run, s);
    assert s.jobs == [d, u];
    run, s := BothLand(cfg, h, run, s, d, u);
    run, s, d := ClaimGone(cfg, h, run, s);
    run, s := Go(cfg, h, run, s, OK);
    assert s.rows[1].uid == s.rows[3].uid && s.rows[1].event == Deleted && s.rows[3].event == Deleted;
  }

  /** Two outstanding writes land in the order they were issued; the later one owns the entry. */
  lemma BothLand(cfg: Config, h: Hypotheses, run: seq<Step>, s: State, d: Job, u: Job)
    returns (more: seq<Step>, t: State)
    requires Exec(cfg, h, INIT, run) == Some(s) && s.jobs == [d, u]
    requires Versioned(d) && u.Upsert? && d.version != u.version && s.entry == Some(u.confirmed.(version := u.version))
    ensures Exec(cfg, h, INIT, more) == Some(t)
    ensures t == s.(jobs := [], rows := s.rows + [d.record, u.record])
  {
    more, t := Go(cfg, h, run, s, OK);
    assert t.jobs == [u] && t.entry == s.entry;
    more, t := Go(cfg, h, more, t, OK);
    assert t.jobs == [] && t.rows == s.rows + [d.record, u.record];
  }

  /** Two durable rows record the death of one incarnation. */
  ghost predicate DiesTwice(rows: seq<Record>) {
    exists i, k ::
      0 <= i < k < |rows| && rows[i].event == Deleted && rows[k].event == Deleted && rows[i].uid == rows[k].uid
  }

  /** The key's one incarnation was recorded and has left the watch cache. */
  predicate OnlyOf(s: State, x: Uid) {
    s.live.None? && s.rows != [] && s.rows[0].event != Deleted && forall i :: 0 <= i < |s.rows| ==> s.rows[i].uid == x
  }

  /**
  Without `lifetimes`: versions restart at one after a removal, so a late success of the previous
  incarnation overwrites its successor's entry and is then closed out a second time.
  */
  lemma VersionRestart(cfg: Config, a: Json, b: Json) returns (run: seq<Step>, s: State)
    requires !cfg.ephemeral
    ensures Exec(cfg, ALL.(settled := false, lifetimes := false), INIT, run) == Some(s)
    ensures DiesTwice(s.rows)
  {
    var h := ALL.(settled := false, lifetimes := false);
    var u, v, d: Job;
    run, s, u := Submitted(cfg, h, Obj(1, a, "v1"));
    run, s := Go(cfg, h, run, s, Vanish);
    run, s, d := ClaimGone(cfg, h, run, s);
    run, s := Go(cfg, h, run, s, Settle(1, true, true));
    assert s == INIT.(gone := {1}, jobs := [u], rows := [d.record], clock := 2);
    run, s, v := Successor(cfg, h, run, s, Obj(2, b, "v1"), u);
    run, s := Go(cfg, h, run, s, OK);
    assert s.jobs == [v] && s.entry == Some(u.confirmed.(version := 1));
    run, s := ClosedOutAgain(cfg, h, run, s, Obj(2, b, "v1"), v);
    assert s.rows[0].uid == 1 && s.rows[2].uid == 1 && s.rows[0].event == Deleted && s.rows[2].event == Deleted;
  }

  /** The next item of `y` finds another incarnation in its entry and closes it out. */
  lemma ClosedOutAgain(cfg: Config, h: Hypotheses, run: seq<Step>, s: State, y: Obj, v: Job)
    returns (more: seq<Step>, t: State)
    requires Exec(cfg, h, INIT, run) == Some(s) && !cfg.ephemeral && !h.settled
    requires s.live == Some(y) && y.uid != NO_UID && y.uid !in s.gone
    requires s.worker.Idle? && s.closeOuts == [] && s.jobs == [v]
    requires s.entry.Some? && !s.entry.value.pendingDelete && s.entry.value.uid != NO_UID && s.entry.value.uid != y.uid
    ensures Exec(cfg, h, INIT, more) == Some(t)
    ensures t.rows == s.rows + [DeletedRecord(s.entry.value, s.clock)]
  {
    more, t := Go(cfg, h, run, s, Observe(y));
    more, t := Begin(cfg, h, more, t);
    more, t := Go(cfg, h, more, t, Load(true));
    more, t := Go(cfg, h, more, t, CloseOld(true));
    more, t := Go(cfg, h, more, t, Settle(1, true, true));
  }

  /** A successor is inserted under version one while `late`, also of version one, is outstanding. */
  lemma Successor(cfg: Config, h: Hypotheses, run: seq<Step>, s: State, y: Obj, late: Job)
    returns (more: seq<Step>, t: State, v: Job)
    requires Exec(cfg, h, INIT, run) == Some(s) && !cfg.ephemeral && !h.settled && !h.lifetimes
    requires s.live.None? && s.entry.None? && s.worker.Idle? && s.closeOuts == [] && s.jobs == [late]
    requires y.uid != NO_UID && y.uid !in s.gone
    ensures Exec(cfg, h, INIT, more) == Some(t)
    ensures v.Upsert? && v.version == 1 && v.confirmed.uid == y.uid
    ensures t == s.(live := Some(y), queued := false, jobs := [late, v], clock := s.clock + 1,
                    entry := Some(v.confirmed.(version := 1)))
  {
    more, t := Go(cfg, h, run, s, Observe(y));
    more, t := Begin(cfg, h, more, t);
    more, t := Go(cfg, h, more, t, Load(true));
    more, t, v := Finish(cfg, h, more, t);
    assert t.jobs == [late, v];
  }

  /** Without `truthful`: a deletion that is durable but reported as failed is written again. */
  lemma LostAcknowledgement(cfg: Config, a: Json) returns (run: seq<Step>, s: State)
    requires !cfg.ephemeral
    ensures Exec(cfg, ALL.(truthful := false), INIT, run) == Some(s)
    ensures DiesTwice(s.rows) && Quiescent(s) && OnlyOf(s, 1)
  {
    var h := ALL.(truthful := false);
    var d: Job;
    run, s := RecordFirst(cfg, h, Obj(1, a, "v1"));
    run, s := Go(cfg, h, run, s, Vanish);
    run, s, d := ClaimGone(cfg, h, run, s);
    assert s.jobs == [d];
    run, s := Go(cfg, h, run, s, Settle(0, false, true));
    assert s.jobs == [] && !s.entry.value.pendingDelete;
    run, s, d := ClaimGone(cfg, h, run, s);
    run, s := Go(cfg, h, run, s, OK);
    assert s.rows[1].uid == s.rows[2].uid && s.rows[1].event == Deleted && s.rows[2].event == Deleted;
  }

  /**
  Without `settled`: an update is based on a write that then fails, falls back to it when it fails
  itself, and the object returning to that state is deduplicated against a row that does not exist.
  */
  lemma UnsettledFallback(cfg: Config, a: Json, b: Json) returns (run: seq<Step>, s: State)
    requires !cfg.ephemeral && cfg.codec.hash(a) != cfg.codec.hash(b)
    ensures Exec(cfg, ALL.(settled := false), INIT, run) == Some(s)
    ensures Quiescent(s) && s.live.Some? && !Recorded(cfg, s.rows, s.live)
    ensures s.rows == [] && s.gone == {} && s.entry.Some? && s.entry.value.uid == 1 && SpeaksFor(cfg, s.entry.value, a)
  {
    var h := ALL.(settled := false);
    var x, y := Obj(1, a, "v1"), Obj(1, b, "v1");
    var u, v: Job;
    run, s, u := Submitted(cfg, h, x);
    run, s := Go(cfg, h, run, s, Observe(y));
    run, s := Begin(cfg, h, run, s);
    run, s := Go(cfg, h, run, s, Load(true));
    DraftRevertsToCached(cfg, s.entry, y);
    run, s, v := Finish(cfg, h, run, s);
    assert s.jobs == [u, v];
    run, s := BothFail(cfg, h, run, s, u, v);
    run, s := Go(cfg, h, run, s, Observe(x));
    run, s := Begin(cfg, h, run, s);
    run, s := Go(cfg, h, run, s, Load(true));
  }

  /** Two outstanding writes fail in the order they were issued; the later one owns the entry. */
  lemma BothFail(cfg: Config, h: Hypotheses, run: seq<Step>, s: State, d: Job, u: Job)
    returns (more: seq<Step>, t: State)
    requires Exec(cfg, h, INIT, run) == Some(s) && s.jobs == [d, u]
    requires Versioned(d) && u.Upsert? && d.version != u.version && s.entry.Some? && s.entry.value.version == u.version
    ensures Exec(cfg, h, INIT, more) == Some(t)
    ensures t == s.(jobs := [], queued := true,
                    entry := if u.revert.Some? then Some(u.revert.value.(version := u.version)) else None)
  {
    more, t := Go(cfg, h, run, s, FAILED);
    assert t.jobs == [u];
    more, t := Go(cfg, h, more, t, FAILED);
    assert t.jobs == [];
  }

  lemma DraftRevertsToCached(cfg: Config, cached: Option<CacheEntry>, obj: Obj)
    ensures cached.Some? && !Reincarnated(cached, obj) ==> DraftOf(cfg, cached, obj, true).revert == cached
  {
  }

  /** The collector claims a superseded incarnation while a worker is about to write its successor. */
  lemma ClaimedBeforeSuccessor(cfg: Config, h: Hypotheses, a: Json, b: Json) returns (run: seq<Step>, s: State, d: Job)
    requires !cfg.ephemeral && !h.idleGc
    ensures Exec(cfg, h, INIT, run) == Some(s)
    ensures |s.rows| == 1 && s.rows[0].event == Added
    ensures s.entry.Some? && s.entry.value.uid == 1 && s.entry.value.pendingDelete
    ensures d.Delete? && d.version == s.entry.value.version
    ensures s.worker.Loaded? && s.worker.obj == Obj(2, b, "v1") && Reincarnated(s.worker.cached, s.worker.obj)
    ensures s == INIT.(live := Some(Obj(2, b, "v1")), gone := {1}, worker := s.worker, entry := s.entry,
                       jobs := [d], rows := s.rows, clock := 2)
  {
    run, s := RecordFirst(cfg, h, Obj(1, a, "v1"));
    run, s := Go(cfg, h, run, s, Observe(Obj(2, b, "v1")));
    run, s := Begin(cfg, h, run, s);
    run, s := Go(cfg, h, run, s, Load(true));
    run, s := Go(cfg, h, run, s, GcClaim(1, true));
    d := s.jobs[0];
    assert s.jobs == [d];
  }

  /** Both the claim's write and the successor's then fail. */
  lemma BothLost(cfg: Config, h: Hypotheses, a: Json, b: Json) returns (run: seq<Step>, s: State)
    requires !cfg.ephemeral && !h.idleGc
    ensures Exec(cfg, h, INIT, run) == Some(s)
    ensures |s.rows| == 1 && s.rows[0].event == Added
    ensures s == INIT.(live := Some(Obj(2, b, "v1")), gone := {1}, queued := true, rows := s.rows, clock := 3)
  {
    var d, u: Job;
    run, s, d := ClaimedBeforeSuccessor(cfg, h, a, b);
    run, s, u := Finish(cfg, h, run, s);
    assert s.jobs == [d, u];
    run, s := BothFail(cfg, h, run, s, d, u);
  }

  /**
  Without `idleGc`: the collector claims a superseded incarnation while its successor is being
  written; once the successor holds the entry, the claim's failure is not retried by anyone.
  */
  lemma UnrecordedDeath(cfg: Config, a: Json, b: Json) returns (run: seq<Step>, s: State)
    requires !cfg.ephemeral
    ensures Exec(cfg, ALL.(idleGc := false), INIT, run) == Some(s)
    ensures Quiescent(s) && !Recorded(cfg, s.rows, s.live) && s.live.None?
    ensures |s.rows| == 1 && s.rows[0].event == Added
  {
    var h := ALL.(idleGc := false);
    run, s := BothLost(cfg, h, a, b);
    run, s := Go(cfg, h, run, s, Vanish);
    run, s := Begin(cfg, h, run, s);
    run, s := Go(cfg, h, run, s, EmitDelete(true));
    assert |s.rows| == 1 && s.rows[0].event == Added;
  }

  /** An object is observed under a key without an entry, and recorded. */
  lemma RecordAfresh(cfg: Config, h: Hypotheses, run: seq<Step>, s: State, x: Obj) returns (more: seq<Step>, t: State)
    requires Exec(cfg, h, INIT, run) == Some(s) && !cfg.ephemeral && !h.uids
    requires s.worker.Idle? && s.closeOuts == [] && s.jobs == [] && s.entry.None? && s.live.None?
    ensures Exec(cfg, h, INIT, more) == Some(t)
    ensures t.entry.Some? && t.entry.value.uid == x.uid && !t.entry.value.pendingDelete && |t.rows| == |s.rows| + 1
    ensures t == s.(live := Some(x), queued := false, entry := t.entry, rows := s.rows + [t.rows[|s.rows|]],
                    clock := s.clock + 1)
    ensures t.rows[|s.rows|].uid == x.uid
  {
    var u: Job;
    more, t := Go(cfg, h, run, s, Observe(x));
    more, t := Begin(cfg, h, more, t);
    more, t := Go(cfg, h, more, t, Load(true));
    more, t, u := Finish(cfg, h, more, t);
    assert t.jobs == [u];
    more, t := Go(cfg, h, more, t, OK);
    assert t.jobs == [];
  }

  /**
  Without `settled`: an incarnation's deletion is still in flight when its successor is recorded, and
  nobody retries it once it fails.
  */
  lemma OvertakenDeath(cfg: Config, a: Json) returns (run: seq<Step>, s: State)
    requires !cfg.ephemeral
    ensures Exec(cfg, ALL.(settled := false), INIT, run) == Some(s) && Quiescent(s)
    ensures s.live.Some? && s.live.value.uid == 2
    ensures s.rows != [] && s.rows[0].uid == 1 && forall i :: 0 <= i < |s.rows| ==> s.rows[i].event != Deleted
  {
    var h := ALL.(settled := false);
    var d, u: Job;
    run, s := RecordFirst(cfg, h, Obj(1, a, "v1"));
    run, s := Go(cfg, h, run, s, Vanish);
    run, s, d := ClaimGone(cfg, h, run, s);
    run, s, u := Replaced(cfg, h, run, s, Obj(2, a, "v1"), d);
    run, s := LateFailure(cfg, h, run, s, d, u);
  }

  /** The older deletion fails and the newer write succeeds, after which the item finds a duplicate. */
  lemma LateFailure(cfg: Config, h: Hypotheses, run: seq<Step>, s: State, d: Job, u: Job)
    returns (more: seq<Step>, t: State)
    requires Exec(cfg, h, INIT, run) == Some(s) && !cfg.ephemeral
    requires s.worker.Idle? && s.closeOuts == [] && s.jobs == [d, u] && d.Delete? && u.Upsert? && d.version < u.version
    requires s.entry == Some(u.confirmed.(version := u.version)) && s.live.Some?
    requires u.confirmed.uid == s.live.value.uid && u.confirmed.hash == cfg.codec.hash(s.live.value.json)
    ensures Exec(cfg, h, INIT, more) == Some(t) && Quiescent(t) && t.live == s.live && t.rows == s.rows + [u.record]
  {
    more, t := Go(cfg, h, run, s, FAILED);
    assert t.jobs == [u] && t.entry == s.entry;
    more, t := Go(cfg, h, more, t, OK);
    assert t.jobs == [];
    more, t := Begin(cfg, h, more, t);
    more, t := Go(cfg, h, more, t, Load(true));
  }

  /** Another incarnation is recorded over an entry whose claim is in flight. */
  lemma Replaced(cfg: Config, h: Hypotheses, run: seq<Step>, s: State, y: Obj, d: Job)
    returns (more: seq<Step>, t: State, u: Job)
    requires Exec(cfg, h, INIT, run) == Some(s) && !cfg.ephemeral && !h.settled
    requires s.worker.Idle? && s.closeOuts == [] && s.jobs == [d] && s.live.None?
    requires s.entry.Some? && s.entry.value.pendingDelete && s.entry.value.uid !in {NO_UID, y.uid}
    requires y.uid != NO_UID && y.uid !in s.gone
    ensures Exec(cfg, h, INIT, more) == Some(t)
    ensures u.Upsert? && u.version == s.entry.value.version + 1 && u.record.event == Added && u.record.uid == y.uid
    ensures u.confirmed.uid == y.uid && u.confirmed.hash == cfg.codec.hash(y.json)
    ensures t == s.(live := Some(y), queued := false, jobs := [d, u], clock := s.clock + 1,
                    entry := Some(u.confirmed.(version := u.version)))
  {
    more, t := Go(cfg, h, run, s, Observe(y));
    more, t := Begin(cfg, h, more, t);
    more, t := Go(cfg, h, more, t, Load(true));
    more, t, u := Finish(cfg, h, more, t);
    assert t.jobs == [d, u];
  }

  /** Without `uids`: an incarnation that comes back after its death was recorded dies again. */
  lemma ReturningUid(cfg: Config, a: Json) returns (run: seq<Step>, s: State)
    requires !cfg.ephemeral
    ensures Exec(cfg, ALL.(uids := false), INIT, run) == Some(s)
    ensures DiesTwice(s.rows) && Quiescent(s) && OnlyOf(s, 1)
  {
    var h := ALL.(uids := false);
    var x := Obj(1, a, "v1");
    run, s := RecordFirst(cfg, h, x);
    run, s := RecordDeath(cfg, h, run, s);
    run, s := RecordAfresh(cfg, h, run, s, x);
    run, s := RecordDeath(cfg, h, run, s);
    assert s.rows[1].uid == s.rows[3].uid && s.rows[1].event == Deleted && s.rows[3].event == Deleted;
  }

  /** The object vanishes and its death is recorded. */
  lemma RecordDeath(cfg: Config, h: Hypotheses, run: seq<Step>, s: State) returns (more: seq<Step>, t: State)
    requires Exec(cfg, h, INIT, run) == Some(s) && !cfg.ephemeral
    requires s.worker.Idle? && s.closeOuts == [] && s.jobs == [] && s.live.Some?
    requires s.entry.Some? && !s.entry.value.pendingDelete
    ensures Exec(cfg, h, INIT, more) == Some(t)
    ensures t == s.(live := None, gone := s.gone + {s.live.value.uid}, queued := false, entry := None,
                    clock := s.clock + 1, rows := s.rows + [DeletedRecord(s.entry.value, s.clock)])
  {
    var d: Job;
    more, t := Go(cfg, h, run, s, Vanish);
    more, t, d := ClaimGone(cfg, h, more, t);
    assert t.jobs == [d];
    more, t := Go(cfg, h, more, t, OK);
    assert t.jobs == [];
  }

  /**
  Under all the hypotheses, an incarnation that has left the watch cache may keep an entry no row
  stands behind: the collector's claim supersedes its write, so the write's failure reverts nothing.
  */
  lemma SupersededCount(cfg: Config, a: Json) returns (run: seq<Step>, s: State)
    requires !cfg.ephemeral
    ensures Exec(cfg, ALL.(clearGc := false), INIT, run) == Some(s)
    ensures s.jobs == [] && s.worker.Idle? && s.entry.Some? && s.entry.value.uid in s.gone
    ensures ReplayRows(cfg.codec, s.rows, s.entry.value.uid).None?
  {
    var h := ALL.(clearGc := false);
    var u: Job;
    run, s, u := Submitted(cfg, h, Obj(1, a, "v1"));
    run, s := Go(cfg, h, run, s, Vanish);
    run, s := Go(cfg, h, run, s, GcClaim(1, false));
    assert s.jobs == [u];
    run, s := Go(cfg, h, run, s, FAILED);
    assert s.jobs == [] && s.rows == [];
  }

  /** Without `truthful`: a write reported as durable that is not leaves the live object without a row. */
  lemma UnfoundedAcknowledgement(cfg: Config, a: Json) returns (run: seq<Step>, s: State)
    requires !cfg.ephemeral
    ensures Exec(cfg, ALL.(truthful := false), INIT, run) == Some(s)
    ensures Quiescent(s) && s.live.Some? && !Recorded(cfg, s.rows, s.live)
    ensures s.rows == [] && s.gone == {} && s.entry.Some? && s.entry.value.uid == 1 && SpeaksFor(cfg, s.entry.value, a)
  {
    var h := ALL.(truthful := false);
    var u: Job;
    run, s, u := Submitted(cfg, h, Obj(1, a, "v1"));
    run, s := Go(cfg, h, run, s, Settle(0, true, false));
    assert s.jobs == [] && s.rows == [];
  }

  /** An incarnation leaves, comes back unchanged and is deduplicated. */
  lemma Returned(cfg: Config, h: Hypotheses, x: Obj) returns (run: seq<Step>, s: State)
    requires !cfg.ephemeral && x.uid != NO_UID && !h.uids
    ensures Exec(cfg, h, INIT, run) == Some(s)
    ensures s.entry.Some? && s.entry.value.uid == x.uid && !s.entry.value.pendingDelete
    ensures |s.rows| == 1 && s.rows[0].ts == 0
    ensures s == INIT.(live := Some(x), gone := {x.uid}, entry := s.entry, rows := s.rows, clock := 1)
  {
    run, s := RecordFirst(cfg, h, x);
    run, s := Go(cfg, h, run, s, Vanish);
    run, s := Go(cfg, h, run, s, Observe(x));
    run, s := Begin(cfg, h, run, s);
    run, s := Go(cfg, h, run, s, Load(true));
  }

  /** Without `uids`: the collector takes an incarnation that came back for the one that left. */
  lemma ReturningGap(cfg: Config, a: Json) returns (run: seq<Step>, s: State)
    requires !cfg.ephemeral
    ensures Exec(cfg, ALL.(uids := false), INIT, run) == Some(s)
    ensures Quiescent(s) && s.live.Some? && !Recorded(cfg, s.rows, s.live)
  {
    var h := ALL.(uids := false);
    run, s := Returned(cfg, h, Obj(1, a, "v1"));
    var added := s.rows[0];
    run, s := Go(cfg, h, run, s, GcClaim(1, true));
    var d := s.jobs[0];
    assert s.jobs == [d] && d.record.ts == 1 && d.record.event == Deleted;
    run, s := Go(cfg, h, run, s, OK);
    assert s.jobs == [] && s.rows == [added, d.record];
    assert s.rows[1].ts == 1 && s.rows[0].ts == 0;
  }

  // ---------------------------------------------------------------- patches with nothing to apply them to

  /** The newest row of some incarnation cannot be replayed. */
  ghost predicate Unreadable(cfg: Config, rows: seq<Record>) {
    exists uid :: NewestOf(rows, uid).Some? && ReplayRows(cfg.codec, rows, uid).None?
  }

  /** Everything has settled, and the entry's incarnation cannot be replayed. */
  predicate Baseless(cfg: Config, s: State) {
    s.jobs == [] && s.worker.Idle? && s.entry.Some? && ReplayRows(cfg.codec, s.rows, s.entry.value.uid).None?
  }

  /** An entry that speaks for a state no row holds makes the next change a patch without a base. */
  lemma PatchWithoutBase(cfg: Config, h: Hypotheses, run: seq<Step>, s: State, a: Json, y: Obj)
    returns (more: seq<Step>, t: State)
    requires Exec(cfg, h, INIT, run) == Some(s) && Lawful(cfg.codec) && Patches(cfg, a, y.json)
    requires s.worker.Idle? && s.jobs == [] && s.closeOuts == []
    requires s.entry.Some? && SpeaksFor(cfg, s.entry.value, a) && s.entry.value.uid in {NO_UID, y.uid}
    requires (h.uids ==> y.uid != NO_UID && y.uid !in s.gone) && ReplayRows(cfg.codec, s.rows, y.uid).None?
    ensures Exec(cfg, h, INIT, more) == Some(t) && Unreadable(cfg, t.rows)
    ensures Baseless(cfg, t)
  {
    var u: Job;
    more, t := Go(cfg, h, run, s, Observe(y));
    more, t := Begin(cfg, h, more, t);
    more, t := Go(cfg, h, more, t, Load(true));
    more, t, u := Finish(cfg, h, more, t);
    assert t.jobs == [u];
    assert u.record.event == Modified && u.record.data.None? && u.record.uid == y.uid;
    more, t := Go(cfg, h, more, t, OK);
    ReplayAppend(cfg.codec, s.rows, u.record, y.uid);
    assert t.rows == s.rows + [u.record];
    assert t.jobs == [];
  }

  /** Without `settled`, without `truthful`, or without `uids`, a patch may be left with no base. */
  lemma UnreadableOtherwise(cfg: Config, h: Hypotheses, a: Json, b: Json) returns (run: seq<Step>, s: State)
    requires Lawful(cfg.codec) && Patches(cfg, a, b) && !(h.settled && h.truthful && h.uids)
    ensures Exec(cfg, h, INIT, run) == Some(s) && Unreadable(cfg, s.rows) && Baseless(cfg, s)
  {
    if !h.settled {
      run, s := UnsettledFallback(cfg, a, b);
      run, s := PatchWithoutBase(cfg, ALL.(settled := false), run, s, a, Obj(1, b, "v1"));
      ExecStronger(cfg, ALL.(settled := false), h, INIT, run);
    } else if !h.truthful {
      run, s := UnfoundedAcknowledgement(cfg, a);
      run, s := PatchWithoutBase(cfg, ALL.(truthful := false), run, s, a, Obj(1, b, "v1"));
      ExecStronger(cfg, ALL.(truthful := false), h, INIT, run);
    } else {
      run, s := Nameless(cfg, a, b);
      ExecStronger(cfg, ALL.(uids := false), h, INIT, run);
    }
  }

  /** Without `uids`: an entry with an empty UID passes for the next incarnation's own. */
  lemma Nameless(cfg: Config, a: Json, b: Json) returns (run: seq<Step>, s: State)
    requires Lawful(cfg.codec) && Patches(cfg, a, b)
    ensures Exec(cfg, ALL.(uids := false), INIT, run) == Some(s) && Unreadable(cfg, s.rows) && Baseless(cfg, s)
  {
    var h := ALL.(uids := false);
    run, s := RecordFirst(cfg, h, Obj(NO_UID, a, "v1"));
    ReplayAppend(cfg.codec, [], s.rows[0], 1);
    assert [] + s.rows == s.rows;
    run, s := PatchWithoutBase(cfg, h, run, s, a, Obj(1, b, "v1"));
  }

  /**
  Without `uids` and `clearGc`: an incarnation leaves, the collector's claim overtakes its write, the
  write fails, and when the incarnation comes back it is diffed against a state no row holds.
  */
  lemma ReturningPatch(cfg: Config, a: Json, b: Json) returns (run: seq<Step>, s: State)
    requires Lawful(cfg.codec) && Patches(cfg, a, b)
    ensures Exec(cfg, ALL.(clearGc := false, uids := false), INIT, run) == Some(s) && Unreadable(cfg, s.rows)
  {
    var h := ALL.(clearGc := false, uids := false);
    var u: Job;
    run, s, u := Submitted(cfg, h, Obj(1, a, "v1"));
    run, s := Go(cfg, h, run, s, Vanish);
    run, s := Go(cfg, h, run, s, GcClaim(1, false));
    assert s.jobs == [u];
    run, s := Go(cfg, h, run, s, FAILED);
    assert s.jobs == [] && s.rows == [];
    run, s := PatchWithoutBase(cfg, h, run, s, a, Obj(1, b, "v1"));
  }
}
