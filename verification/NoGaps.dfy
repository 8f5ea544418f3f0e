/**
No gaps: in every run whose writes settle between work items, once a key is neither queued, in
flight nor owing a close-out, the newest durable row is the live object's own state, or the
deletion of the object that is gone.
*/
module NoGaps {
  import opened Common
  import opened HashCaches
  import opened Protocol
  import opened Settlement
  import opened Lifetimes
  import opened Implications

  function Max(a: nat, b: nat): nat {
    if a >= b then a else b
  }

  /** The last row that is not a deletion. */
  function LastLive(rows: seq<Record>): Option<Record> {
    if rows == [] then None
    else
      var last := rows[|rows| - 1];
      if last.event != Deleted then Some(last) else LastLive(rows[..|rows| - 1])
  }

  /** One past the instant of the last live row; zero when there is none. */
  function LiveTop(rows: seq<Record>): nat {
    if LastLive(rows).Some? then LastLive(rows).value.ts + 1 else 0
  }

  /** One past the instant of the newest of `rs`, all of them deletions; zero when there is none. */
  function DeathTop(rs: seq<Record>): nat {
    if rs == [] then 0
    else
      var last := rs[|rs| - 1];
      if last.event == Deleted then Max(last.ts + 1, DeathTop(rs[..|rs| - 1])) else DeathTop(rs[..|rs| - 1])
  }

  function CloseOutTop(jobs: seq<Job>): nat {
    if jobs == [] then 0
    else
      var last := jobs[|jobs| - 1];
      if last.CloseOut? then Max(last.record.ts + 1, CloseOutTop(jobs[..|jobs| - 1]))
      else CloseOutTop(jobs[..|jobs| - 1])
  }

  /** One past the newest death that is durable or certain to be retried until it is. */
  function Deathline(s: State): nat {
    Max(DeathTop(s.rows), Max(CloseOutTop(s.jobs), DeathTop(s.closeOuts)))
  }

  predicate RowFor(r: Record, e: CacheEntry) {
    r.event != Deleted && r.uid == e.uid && r.sha == e.hash
  }

  /** `base` truthfully describes the durable rows: what they end in, or that they end in a death. */
  predicate Truthful(s: State, base: Option<CacheEntry>) {
    match base
    case None => LiveTop(s.rows) == 0 || LiveTop(s.rows) < Deathline(s)
    case Some(e) =>
      || e.uid in s.gone
      || (LastLive(s.rows).Some? && RowFor(LastLive(s.rows).value, e) && Deathline(s) <= LastLive(s.rows).value.ts)
  }

  predicate Current(entry: Option<CacheEntry>, j: Job) {
    Versioned(j) && entry.Some? && entry.value.version == j.version
  }

  predicate UpsertBacked(s: State, u: Job)
    requires u.Upsert?
  {
    && LiveTop(s.rows) <= u.record.ts < s.clock
    && u.record.sha == u.confirmed.hash
    && if Current(s.entry, u) then Truthful(s, u.revert) && Deathline(s) <= u.record.ts
       else
         && u.record.uid in s.gone
         && (s.entry.None? ==> u.record.ts + 1 < DeathTop(s.rows))
         && (s.entry.Some? ==> s.entry.value.uid in s.gone)
  }

  predicate DeleteBacked(s: State, d: Job)
    requires d.Delete?
  {
    Current(s.entry, d) && LiveTop(s.rows) <= d.record.ts < s.clock && Deathline(s) <= d.record.ts
  }

  /** Rows other than deletions became durable in the order they were stamped. */
  ghost predicate LiveAscending(rows: seq<Record>) {
    forall i, k :: 0 <= i < k < |rows| && rows[i].event != Deleted && rows[k].event != Deleted ==>
      rows[i].ts < rows[k].ts
  }

  /** The entry is the optimistic mark of a write that has not settled. */
  ghost predicate OwnedByUpsert(s: State) {
    s.worker.Reserving? || exists u :: u in s.jobs && u.Upsert? && Current(s.entry, u)
  }

  /** Every outstanding write and the entry itself are truthful about the durable rows. */
  ghost predicate Backing(s: State) {
    && LiveTop(s.rows) <= s.clock && Deathline(s) <= s.clock && LiveAscending(s.rows)
    && (forall u :: u in s.jobs && u.Upsert? ==> UpsertBacked(s, u))
    && (s.worker.Reserving? ==> s.worker.job.Upsert? && Current(s.entry, s.worker.job) && UpsertBacked(s, s.worker.job))
    && (forall d :: d in s.jobs && d.Delete? ==> DeleteBacked(s, d))
    && (forall u, d :: u in s.jobs && d in s.jobs && u.Upsert? && d.Delete? ==> u.record.ts < d.record.ts)
    && (!OwnedByUpsert(s) ==> Truthful(s, s.entry))
  }

  ghost predicate NoVersioned(jobs: seq<Job>) {
    forall j :: j in jobs ==> !Versioned(j)
  }

  /** What settling between items fixes about each phase of the worker. */
  ghost predicate Phases(s: State) {
    && (!s.worker.Idle? ==> NoVersioned(s.jobs))
    && (forall u, v :: u in s.jobs && v in s.jobs && u.Upsert? && v.Upsert? ==> u == v)
    && (s.worker.Idle? && s.entry.Some? && s.entry.value.pendingDelete ==> exists d :: d in s.jobs && d.Delete?)
    && (s.worker.Read? || s.worker.Retried? ==> s.entry.Some? ==> !s.entry.value.pendingDelete)
    && (s.worker.Loaded? ==> s.entry == s.worker.cached && (s.entry.Some? ==> !s.entry.value.pendingDelete))
    && (s.worker.Closed? ==>
          if Reincarnated(s.worker.cached, s.worker.obj) then Truthful(s, None) else s.entry == s.worker.cached)
  }

  predicate Matches(cfg: Config, entry: Option<CacheEntry>, obj: Obj) {
    entry.Some? && entry.value.uid == obj.uid && entry.value.hash == cfg.codec.hash(obj.json)
  }

  /** Unless the key is queued, the entry answers for what the watch cache holds. */
  ghost predicate Agreement(cfg: Config, s: State) {
    && (s.worker.Reserving? ==> Matches(cfg, s.entry, s.worker.obj))
    && (!s.queued && !s.worker.Idle? ==> s.live == Held(s.worker))
    && (!s.queued && s.worker.Idle? && s.live.Some? ==> Matches(cfg, s.entry, s.live.value))
    && (!s.queued && s.worker.Idle? && s.live.None? && s.entry.Some? ==> s.entry.value.pendingDelete)
  }

  ghost predicate GapInv(cfg: Config, s: State) {
    && !cfg.ephemeral
    && LifeInv(s)
    && Phases(s)
    && Backing(s)
    && Agreement(cfg, s)
  }

  // ---------------------------------------------------------------- tops

  lemma TopsAppend(rows: seq<Record>, r: Record)
    ensures LastLive(rows + [r]) == if r.event != Deleted then Some(r) else LastLive(rows)
    ensures DeathTop(rows + [r]) == if r.event == Deleted then Max(r.ts + 1, DeathTop(rows)) else DeathTop(rows)
  {
    assert (rows + [r])[..|rows|] == rows;
  }

  lemma {:induction false} LastLiveIsLast(rows: seq<Record>) returns (n: nat)
    requires LastLive(rows).Some?
    ensures n < |rows| && rows[n] == LastLive(rows).value && rows[n].event != Deleted
    ensures forall k :: n < k < |rows| ==> rows[k].event == Deleted
    decreases rows
  {
    n := |rows| - 1;
    if rows[n].event == Deleted {
      var m := LastLiveIsLast(rows[..n]);
      assert forall k :: m < k < n ==> rows[k] == rows[..n][k];
      n := m;
    }
  }

  lemma {:induction false} NoLastLive(rows: seq<Record>)
    requires LastLive(rows).None?
    ensures forall k :: 0 <= k < |rows| ==> rows[k].event == Deleted
    decreases rows
  {
    if rows != [] {
      NoLastLive(rows[..|rows| - 1]);
      assert forall k :: 0 <= k < |rows| - 1 ==> rows[k] == rows[..|rows| - 1][k];
    }
  }

  lemma BelowLiveTop(rows: seq<Record>, k: nat)
    requires LiveAscending(rows) && k < |rows| && rows[k].event != Deleted
    ensures rows[k].ts < LiveTop(rows)
  {
    if LastLive(rows).None? {
      NoLastLive(rows);
    } else {
      var n := LastLiveIsLast(rows);
      assert k <= n;
    }
  }

  lemma AscendAppend(rows: seq<Record>, r: Record)
    requires LiveAscending(rows) && (r.event != Deleted ==> LiveTop(rows) <= r.ts)
    ensures LiveAscending(rows + [r])
  {
    if r.event != Deleted {
      forall k | 0 <= k < |rows| && rows[k].event != Deleted
        ensures rows[k].ts < r.ts
      {
        BelowLiveTop(rows, k);
      }
    }
  }

  lemma {:induction false} NewestDeath(rs: seq<Record>) returns (n: nat)
    requires DeathTop(rs) > 0
    ensures n < |rs| && rs[n].event == Deleted && rs[n].ts + 1 == DeathTop(rs)
    decreases rs
  {
    n := |rs| - 1;
    if rs[n].event != Deleted || rs[n].ts + 1 != DeathTop(rs) {
      n := NewestDeath(rs[..n]);
    }
  }

  lemma {:induction false} BelowDeathTop(rs: seq<Record>, k: nat)
    requires k < |rs| && rs[k].event == Deleted
    ensures rs[k].ts < DeathTop(rs)
    decreases rs
  {
    if k < |rs| - 1 {
      BelowDeathTop(rs[..|rs| - 1], k);
    }
  }

  lemma CloseOutTopAppend(jobs: seq<Job>, j: Job)
    ensures CloseOutTop(jobs + [j]) ==
      if j.CloseOut? then Max(j.record.ts + 1, CloseOutTop(jobs)) else CloseOutTop(jobs)
  {
    assert (jobs + [j])[..|jobs|] == jobs;
  }

  lemma {:induction false} CloseOutTopWithout(jobs: seq<Job>, i: nat)
    requires i < |jobs|
    ensures CloseOutTop(jobs)
         == if jobs[i].CloseOut? then Max(jobs[i].record.ts + 1, CloseOutTop(Without(jobs, i)))
            else CloseOutTop(Without(jobs, i))
    decreases jobs
  {
    var n := |jobs| - 1;
    if i == n {
      assert Without(jobs, i) == jobs[..n];
    } else {
      CloseOutTopWithout(jobs[..n], i);
      assert Without(jobs, i) == Without(jobs[..n], i) + [jobs[n]];
      CloseOutTopAppend(Without(jobs[..n], i), jobs[n]);
    }
  }

  lemma {:induction false} DeathTopConcat(a: seq<Record>, b: seq<Record>)
    ensures DeathTop(a + b) == Max(DeathTop(a), DeathTop(b))
    decreases b
  {
    if b == [] {
      assert a + b == a;
    } else {
      var n := |b| - 1;
      DeathTopConcat(a, b[..n]);
      assert a + b == (a + b[..n]) + [b[n]];
      TopsAppend(a + b[..n], b[n]);
    }
  }

  lemma {:induction false} CloseOutTopConcat(a: seq<Job>, b: seq<Job>)
    ensures CloseOutTop(a + b) == Max(CloseOutTop(a), CloseOutTop(b))
    decreases b
  {
    if b == [] {
      assert a + b == a;
    } else {
      var n := |b| - 1;
      CloseOutTopConcat(a, b[..n]);
      assert a + b == (a + b[..n]) + [b[n]];
      CloseOutTopAppend(a + b[..n], b[n]);
    }
  }

  lemma SingleTops(r: Record)
    requires r.event == Deleted
    ensures DeathTop([r]) == r.ts + 1 && CloseOutTop([CloseOut(r)]) == r.ts + 1
  {
    TopsAppend([], r);
    CloseOutTopAppend([], CloseOut(r));
    assert [] + [r] == [r] && [] + [CloseOut(r)] == [CloseOut(r)];
  }

  /** A retry moves owed close-outs to the sink or keeps them owed; the newest of them stays put. */
  lemma {:induction false} RetryTop(records: seq<Record>, accepts: seq<bool>)
    requires |records| == |accepts|
    requires forall i :: 0 <= i < |records| ==> records[i].event == Deleted
    ensures Max(CloseOutTop(AcceptedJobs(records, accepts)), DeathTop(RefusedRecords(records, accepts)))
         == DeathTop(records)
    decreases records
  {
    if records != [] {
      RetryTop(records[1..], accepts[1..]);
      RetryTopHead(records[0], accepts[0], DeathTop(records[1..]),
                   AcceptedJobs(records[1..], accepts[1..]), RefusedRecords(records[1..], accepts[1..]));
      assert DeathTop(records) == Max(records[0].ts + 1, DeathTop(records[1..])) by {
        HeadTops(records[0], records[1..], []);
        assert [records[0]] + records[1..] == records;
      }
    }
  }

  lemma RetryTopHead(r: Record, accept: bool, top: nat, more: seq<Job>, kept: seq<Record>)
    requires r.event == Deleted && Max(CloseOutTop(more), DeathTop(kept)) == top
    ensures Max(CloseOutTop(if accept then [CloseOut(r)] + more else more),
                DeathTop(if accept then kept else [r] + kept)) == Max(r.ts + 1, top)
  {
    HeadTops(r, kept, more);
  }

  lemma HeadTops(r: Record, rs: seq<Record>, jobs: seq<Job>)
    requires r.event == Deleted
    ensures DeathTop([r] + rs) == Max(r.ts + 1, DeathTop(rs))
    ensures CloseOutTop([CloseOut(r)] + jobs) == Max(r.ts + 1, CloseOutTop(jobs))
  {
    SingleTops(r);
    DeathTopConcat([r], rs);
    CloseOutTopConcat([CloseOut(r)], jobs);
  }

  lemma RetryKeepsDeathline(s: State, accepts: seq<bool>)
    requires s.worker.Read? && |accepts| == |s.closeOuts|
    requires forall i :: 0 <= i < |s.closeOuts| ==> s.closeOuts[i].event == Deleted
    ensures Deathline(AfterRetry(s, accepts)) == Deathline(s)
  {
    RetryTop(s.closeOuts, accepts);
    CloseOutTopConcat(s.jobs, AcceptedJobs(s.closeOuts, accepts));
  }

  // ---------------------------------------------------------------- every step keeps it

  /** Rows gain at most a death, and no versioned job and no fact about the entry changes. */
  ghost predicate KeepsWrites(s: State, t: State) {
    && LastLive(t.rows) == LastLive(s.rows) && LiveAscending(t.rows) && DeathTop(s.rows) <= DeathTop(t.rows)
    && s.clock <= t.clock && s.gone <= t.gone && Deathline(t) == Deathline(s)
    && (forall j :: j in t.jobs && Versioned(j) ==> j in s.jobs)
    && (forall j :: j in s.jobs && Versioned(j) ==> j in t.jobs)
    && t.entry.Some? == s.entry.Some?
    && (t.entry.Some? ==> t.entry.value.(baseline := s.entry.value.baseline) == s.entry.value)
  }

  lemma TruthfulCarry(s: State, t: State, base: Option<CacheEntry>)
    requires t.rows == s.rows && s.gone <= t.gone && Deathline(t) == Deathline(s) && Truthful(s, base)
    ensures Truthful(t, base)
  {
  }

  lemma BackingCarry(s: State, t: State)
    requires Backing(s) && KeepsWrites(s, t)
    requires t.worker == s.worker || (!s.worker.Reserving? && !t.worker.Reserving?)
    ensures Backing(t)
  {
    forall u | u in t.jobs && u.Upsert?
      ensures UpsertBacked(t, u)
    {
      assert UpsertBacked(s, u);
    }
    if !OwnedByUpsert(t) {
      assert !OwnedByUpsert(s);
    }
  }

  lemma EnvironmentKeepsWrites(cfg: Config, s: State, step: Step)
    requires !cfg.ephemeral && LiveAscending(s.rows) && Enabled(cfg, s, step) && Environment(step)
    ensures var t := Next(cfg, s, step);
      KeepsWrites(s, t) && (t.worker == s.worker || (!s.worker.Reserving? && !t.worker.Reserving?))
  {
  }

  lemma PhasesEnvironment(cfg: Config, h: Hypotheses, s: State, step: Step)
    requires !cfg.ephemeral && Enabled(cfg, s, step) && Allowed(h, s, step) && Environment(step)
    requires h.settled && Phases(s)
    ensures Phases(Next(cfg, s, step))
  {
  }

  lemma AgreementEnvironment(cfg: Config, h: Hypotheses, s: State, step: Step)
    requires !cfg.ephemeral && Enabled(cfg, s, step) && Allowed(h, s, step) && Environment(step)
    requires Lives(s) && Agreement(cfg, s)
    ensures Agreement(cfg, Next(cfg, s, step))
  {
  }

  lemma GapEnvironment(cfg: Config, h: Hypotheses, s: State, step: Step)
    requires GapInv(cfg, s) && Enabled(cfg, s, step) && Allowed(h, s, step) && Environment(step)
    requires h.settled && h.uids && h.lifetimes
    ensures GapInv(cfg, Next(cfg, s, step))
  {
    LifeEnvironment(cfg, h, s, step);
    PhasesEnvironment(cfg, h, s, step);
    EnvironmentKeepsWrites(cfg, s, step);
    BackingCarry(s, Next(cfg, s, step));
    AgreementEnvironment(cfg, h, s, step);
  }

  lemma GapRetry(cfg: Config, s: State, accepts: seq<bool>)
    requires GapInv(cfg, s) && s.worker.Read? && |accepts| == |s.closeOuts|
    ensures GapInv(cfg, AfterRetry(s, accepts))
  {
    var t := AfterRetry(s, accepts);
    LifeRetry(s, accepts);
    RetriedAreCloseOuts(s.closeOuts, accepts);
    RetryKeepsDeathline(s, accepts);
    assert KeepsWrites(s, t);
    BackingCarry(s, t);
  }

  // A deletion is claimed.

  lemma UnclaimedHasNoDelete(s: State)
    requires VersionInv(s) && Backing(s) && s.entry.Some? && !s.entry.value.pendingDelete
    ensures forall d :: d in s.jobs ==> !d.Delete?
  {
    forall d | d in s.jobs && d.Delete?
      ensures false
    {
      var i :| 0 <= i < |s.jobs| && s.jobs[i] == d;
      OutstandingJob(s, i);
      assert false;
    }
  }

  lemma BackingClaim(s: State, uid: Uid, accepted: bool)
    requires VersionInv(s) && Backing(s) && !s.worker.Reserving?
    requires ClaimVerdict(s.entry, uid) == Claimed && s.entry.value.uid in s.gone
    ensures Backing(ClaimAndDelete(s, uid, accepted))
  {
    var t := ClaimAndDelete(s, uid, accepted);
    assert forall d :: d in s.jobs ==> !d.Delete? by {
      UnclaimedHasNoDelete(s);
    }
    ClaimKeepsDeathline(s, uid, accepted);
    forall u | u in t.jobs && u.Upsert?
      ensures u in s.jobs && UpsertBacked(t, u)
    {
      ClaimKeepsBacked(s, uid, accepted, u);
    }
    forall d | d in t.jobs && d.Delete?
      ensures DeleteBacked(t, d) && d.record.ts == s.clock
    {
      assert d !in s.jobs;
    }
    assert Truthful(t, t.entry);
  }

  /** A claim overtakes the write that was current; its incarnation is gone. */
  lemma ClaimKeepsBacked(s: State, uid: Uid, accepted: bool, u: Job)
    requires VersionInv(s) && u in s.jobs && u.Upsert? && UpsertBacked(s, u)
    requires ClaimVerdict(s.entry, uid) == Claimed && s.entry.value.uid in s.gone
    ensures var t := ClaimAndDelete(s, uid, accepted); UpsertBacked(t, u) && !Current(t.entry, u)
  {
    UpsertUid(s, u);
    ClaimKeepsDeathline(s, uid, accepted);
  }

  lemma ClaimKeepsDeathline(s: State, uid: Uid, accepted: bool)
    ensures Deathline(ClaimAndDelete(s, uid, accepted)) == Deathline(s)
  {
    if ClaimVerdict(s.entry, uid) == Claimed && accepted {
      CloseOutTopAppend(s.jobs, Delete(DeletedRecord(s.entry.value, s.clock), s.entry.value.version + 1));
    }
  }

  /** An outstanding write is no newer than the entry, and of the entry's incarnation if current. */
  lemma UpsertUid(s: State, u: Job)
    requires VersionInv(s) && u in s.jobs && u.Upsert?
    ensures s.entry.Some? ==> u.version <= s.entry.value.version
    ensures Current(s.entry, u) ==> u.record.uid == s.entry.value.uid && s.entry.value.hash == u.confirmed.hash
  {
    var i :| 0 <= i < |s.jobs| && s.jobs[i] == u;
    OutstandingJob(s, i);
  }

  lemma GapEmitDelete(cfg: Config, s: State, accepted: bool)
    requires GapInv(cfg, s) && s.worker.Retried? && s.worker.found.None?
    ensures GapInv(cfg, AfterEmitDelete(s, accepted))
  {
    LifeEmitDelete(s, accepted);
    var u, t := ClaimAndDelete(s, NO_UID, accepted), AfterEmitDelete(s, accepted);
    if ClaimVerdict(s.entry, NO_UID) == Claimed {
      BackingClaim(s, NO_UID, accepted);
      BackingCarry(u, t);
      PhasesClaim(s, NO_UID, accepted, t);
    } else {
      BackingCarry(s, t);
    }
  }

  lemma PhasesClaim(s: State, uid: Uid, accepted: bool, t: State)
    requires Phases(s) && ClaimVerdict(s.entry, uid) == Claimed
    requires var u := ClaimAndDelete(s, uid, accepted); t.entry == u.entry && t.jobs == u.jobs && t.worker == Idle
    ensures Phases(t)
  {
    if accepted {
      assert t.jobs[|s.jobs|].Delete?;
    }
  }

  lemma GapGcClaim(cfg: Config, s: State, uid: Uid, accepted: bool)
    requires GapInv(cfg, s) && s.worker.Idle? && uid in s.gone && uid != NO_UID
    ensures GapInv(cfg, ClaimAndDelete(s, uid, accepted))
  {
    LifeClaim(s, uid, accepted);
    if ClaimVerdict(s.entry, uid) == Claimed {
      BackingClaim(s, uid, accepted);
      PhasesClaim(s, uid, accepted, ClaimAndDelete(s, uid, accepted));
    }
  }

  // The worker closes out, reserves and submits.

  lemma GapCloseOld(cfg: Config, s: State, accepted: bool)
    requires GapInv(cfg, s) && s.worker.Loaded?
    ensures GapInv(cfg, AfterCloseOld(cfg, s, accepted))
  {
    LifeCloseOld(cfg, s, accepted);
    var t := AfterCloseOld(cfg, s, accepted);
    if ClosesOld(cfg, s) {
      CloseOldTops(cfg, s, accepted);
      BackingCloseOld(cfg, s, accepted);
    } else {
      BackingCarry(s, t);
    }
  }

  /** The close-out just stamped is the newest record there is. */
  lemma CloseOldTops(cfg: Config, s: State, accepted: bool)
    requires s.worker.Loaded? && ClosesOld(cfg, s) && Deathline(s) <= s.clock
    ensures Deathline(AfterCloseOld(cfg, s, accepted)) == s.clock + 1
  {
    var record := DeletedRecord(s.entry.value, s.clock);
    if accepted {
      CloseOutTopAppend(s.jobs, CloseOut(record));
    } else {
      TopsAppend(s.closeOuts, record);
    }
  }

  lemma BackingCloseOld(cfg: Config, s: State, accepted: bool)
    requires Backing(s) && Phases(s) && Lives(s) && s.worker.Loaded? && ClosesOld(cfg, s)
    requires Deathline(AfterCloseOld(cfg, s, accepted)) == s.clock + 1
    ensures Backing(AfterCloseOld(cfg, s, accepted))
  {
    var t := AfterCloseOld(cfg, s, accepted);
    assert NoVersioned(t.jobs);
    assert t.entry.value.uid in t.gone;
  }

  lemma GapReserve(cfg: Config, s: State, warm: bool)
    requires GapInv(cfg, s) && s.worker.Closed?
    ensures GapInv(cfg, AfterReserve(cfg, s, warm))
  {
    assert forall i :: 0 <= i < |s.jobs| ==> s.jobs[i] in s.jobs;
    LifeReserve(cfg, s, warm);
    BackingReserve(cfg, s, warm);
  }

  lemma BackingReserve(cfg: Config, s: State, warm: bool)
    requires Backing(s) && Phases(s) && Lives(s) && s.worker.Closed?
    ensures Backing(AfterReserve(cfg, s, warm))
  {
    var t := AfterReserve(cfg, s, warm);
    var u := t.worker.job;
    assert Deathline(t) == Deathline(s);
    assert Truthful(s, u.revert);
    TruthfulCarry(s, t, u.revert);
  }

  lemma GapSubmit(cfg: Config, s: State, accepted: bool)
    requires GapInv(cfg, s) && s.worker.Reserving?
    ensures GapInv(cfg, AfterSubmit(s, accepted))
  {
    LifeSubmit(s, accepted);
    BackingSubmit(s, accepted);
    PhasesSubmit(cfg, s, accepted);
  }

  lemma PhasesSubmit(cfg: Config, s: State, accepted: bool)
    requires Phases(s) && Backing(s) && Agreement(cfg, s) && SafeReverts(s) && Lives(s) && s.worker.Reserving?
    ensures Phases(AfterSubmit(s, accepted)) && Agreement(cfg, AfterSubmit(s, accepted))
  {
    var t := AfterSubmit(s, accepted);
    if accepted {
      assert forall j :: j in t.jobs && Versioned(j) ==> j == s.worker.job;
      assert !s.entry.value.pendingDelete;
    }
  }

  lemma BackingSubmit(s: State, accepted: bool)
    requires Backing(s) && Phases(s) && s.worker.Reserving?
    ensures Backing(AfterSubmit(s, accepted))
  {
    var t, u := AfterSubmit(s, accepted), s.worker.job;
    CloseOutTopAppend(s.jobs, u);
    assert Deathline(t) == Deathline(s);
    if accepted {
      assert u == t.jobs[|s.jobs|];
      assert OwnedByUpsert(t);
      assert forall j :: j in t.jobs && Versioned(j) ==> j == u;
    } else {
      TruthfulCarry(s, t, u.revert);
    }
  }

  // A job settles.

  lemma WithoutMembers(s: State, i: nat)
    requires VersionInv(s) && i < |s.jobs|
    ensures forall j :: j in Without(s.jobs, i) ==> j in s.jobs
    ensures forall j :: j in s.jobs && j != s.jobs[i] ==> j in Without(s.jobs, i)
    ensures Versioned(s.jobs[i]) ==> s.jobs[i] !in Without(s.jobs, i)
  {
    var rest := Without(s.jobs, i);
    forall k | 0 <= k < |rest|
      ensures rest[k] == s.jobs[if k < i then k else k + 1]
    {}
    forall j | j in s.jobs && j != s.jobs[i]
      ensures j in rest
    {
      var k :| 0 <= k < |s.jobs| && s.jobs[k] == j;
      assert rest[if k < i then k else k - 1] == j;
    }
    if Versioned(s.jobs[i]) {
      DistinctJobs(s);
    }
  }

  lemma DistinctJobs(s: State)
    requires VersionInv(s)
    ensures forall i, k :: 0 <= i < k < |s.jobs| && Versioned(s.jobs[i]) ==> s.jobs[i] != s.jobs[k]
  {
    forall i, k | 0 <= i < k < |s.jobs| && Versioned(s.jobs[i])
      ensures s.jobs[i] != s.jobs[k]
    {
      var off := if s.worker.Reserving? then 1 else 0;
      assert Outstanding(s)[i + off] == s.jobs[i] && Outstanding(s)[k + off] == s.jobs[k];
    }
  }

  lemma SettleTops(s: State, i: nat, ok: bool)
    requires i < |s.jobs| && WellFormed(s.jobs[i])
    ensures var t, job := AfterSettle(s, i, ok, ok), s.jobs[i];
      && Deathline(t) == (if job.Delete? && ok then Max(job.record.ts + 1, Deathline(s)) else Deathline(s))
      && LastLive(t.rows) == (if job.Upsert? && ok then Some(job.record) else LastLive(s.rows))
      && DeathTop(t.rows) == (if !job.Upsert? && ok then Max(job.record.ts + 1, DeathTop(s.rows)) else DeathTop(s.rows))
  {
    TopsAppend(s.rows, s.jobs[i].record);
    SettleDeathline(s, i, ok);
  }

  lemma SettleDeathline(s: State, i: nat, ok: bool)
    requires i < |s.jobs| && WellFormed(s.jobs[i])
    ensures var t, job := AfterSettle(s, i, ok, ok), s.jobs[i];
      Deathline(t) == if job.Delete? && ok then Max(job.record.ts + 1, Deathline(s)) else Deathline(s)
  {
    var job := s.jobs[i];
    CloseOutTopWithout(s.jobs, i);
    if ok {
      TopsAppend(s.rows, job.record);
    } else {
      TopsAppend(s.closeOuts, job.record);
    }
  }

  lemma AscendSettle(s: State, i: nat, ok: bool)
    requires Backing(s) && i < |s.jobs| && WellFormed(s.jobs[i])
    ensures LiveAscending(AfterSettle(s, i, ok, ok).rows)
  {
    assert s.jobs[i] in s.jobs;
    AscendAppend(s.rows, s.jobs[i].record);
  }

  lemma BackingSettleCloseOut(s: State, i: nat, ok: bool)
    requires VersionInv(s) && Backing(s) && i < |s.jobs| && s.jobs[i].CloseOut?
    ensures Backing(AfterSettle(s, i, ok, ok))
  {
    var t := AfterSettle(s, i, ok, ok);
    assert KeepsWrites(s, t) by {
      WithoutMembers(s, i);
      OutstandingJob(s, i);
      AscendSettle(s, i, ok);
      SettleTops(s, i, ok);
    }
    BackingCarry(s, t);
  }

  lemma BackingSettleDelete(s: State, i: nat, ok: bool)
    requires VersionInv(s) && Lives(s) && Phases(s) && Backing(s) && i < |s.jobs| && s.jobs[i].Delete?
    ensures Backing(AfterSettle(s, i, ok, ok))
  {
    var t, d := AfterSettle(s, i, ok, ok), s.jobs[i];
    WithoutMembers(s, i);
    OutstandingJob(s, i);
    AscendSettle(s, i, ok);
    SettleTops(s, i, ok);
    assert s.entry.value.pendingDelete && s.entry.value.uid in s.gone;
    forall u | u in t.jobs && u.Upsert?
      ensures UpsertBacked(t, u) && !Current(s.entry, u)
    {
      assert UpsertBacked(s, u);
      UpsertUid(s, u);
      DifferentVersions(s, u, d);
    }
    forall e | e in t.jobs
      ensures !e.Delete?
    {
      if e.Delete? {
        DifferentVersions(s, e, d);
        assert false;
      }
    }
  }

  lemma DifferentVersions(s: State, a: Job, b: Job)
    requires VersionInv(s) && a in s.jobs && b in s.jobs && a != b && Versioned(a) && Versioned(b)
    ensures a.version != b.version
  {
    var i :| 0 <= i < |s.jobs| && s.jobs[i] == a;
    var k :| 0 <= k < |s.jobs| && s.jobs[k] == b;
    var off := if s.worker.Reserving? then 1 else 0;
    assert Outstanding(s)[i + off] == a && Outstanding(s)[k + off] == b;
  }

  lemma BackingSettleUpsert(s: State, i: nat, ok: bool)
    requires VersionInv(s) && Phases(s) && Backing(s) && i < |s.jobs| && s.jobs[i].Upsert?
    ensures Backing(AfterSettle(s, i, ok, ok))
  {
    var t, u := AfterSettle(s, i, ok, ok), s.jobs[i];
    WithoutMembers(s, i);
    OutstandingJob(s, i);
    AscendSettle(s, i, ok);
    SettleTops(s, i, ok);
    assert forall v :: v in t.jobs ==> !v.Upsert?;
    assert !OwnedByUpsert(t);
    if Current(s.entry, u) {
      forall d | d in t.jobs
        ensures !d.Delete?
      {
        if d.Delete? {
          DifferentVersions(s, u, d);
          assert false;
        }
      }
    } else {
      assert t.entry == s.entry;
    }
  }

  lemma PhasesSettle(s: State, i: nat, ok: bool)
    requires VersionInv(s) && SafeReverts(s) && Phases(s) && Backing(s) && i < |s.jobs|
    ensures Phases(AfterSettle(s, i, ok, ok))
  {
    var t, j := AfterSettle(s, i, ok, ok), s.jobs[i];
    WithoutMembers(s, i);
    OutstandingJob(s, i);
    SettleKeepsUid(s.entry, j, ok);
    if s.worker.Closed? {
      assert j in s.jobs && j.CloseOut?;
      SettleTops(s, i, ok);
    }
  }

  lemma AgreementSettle(cfg: Config, s: State, i: nat, ok: bool)
    requires VersionInv(s) && Lives(s) && SafeReverts(s) && Phases(s) && Agreement(cfg, s) && i < |s.jobs|
    ensures Agreement(cfg, AfterSettle(s, i, ok, ok))
  {
    OutstandingJob(s, i);
  }

  lemma GapSettle(cfg: Config, s: State, i: nat, ok: bool)
    requires GapInv(cfg, s) && i < |s.jobs|
    ensures GapInv(cfg, AfterSettle(s, i, ok, ok))
  {
    LifeSettle(s, i, ok, ok);
    match s.jobs[i] {
      case Upsert(_, _, _, _) => BackingSettleUpsert(s, i, ok);
      case Delete(_, _) => BackingSettleDelete(s, i, ok);
      case CloseOut(_) => BackingSettleCloseOut(s, i, ok);
    }
    PhasesSettle(s, i, ok);
    AgreementSettle(cfg, s, i, ok);
  }

  // ---------------------------------------------------------------- the theorem

  /** What the steps are proved under. */
  predicate Strict(h: Hypotheses) {
    h.settled && h.truthful && h.lifetimes && h.uids && h.calmGc && h.idleGc
  }

  lemma GapStep(cfg: Config, h: Hypotheses, s: State, step: Step)
    requires GapInv(cfg, s) && Enabled(cfg, s, step) && Allowed(h, s, step) && Strict(h)
    ensures GapInv(cfg, Next(cfg, s, step))
  {
    match step
    case Retry(accepts) => GapRetry(cfg, s, accepts);
    case EmitDelete(accepted) => GapEmitDelete(cfg, s, accepted);
    case CloseOld(accepted) => GapCloseOld(cfg, s, accepted);
    case Reserve(warm) => GapReserve(cfg, s, warm);
    case Submit(accepted) => GapSubmit(cfg, s, accepted);
    case Settle(i, ok, _) => GapSettle(cfg, s, i, ok);
    case GcClaim(uid, accepted) => GapGcClaim(cfg, s, uid, accepted);
    case _ => GapEnvironment(cfg, h, s, step);
  }

  lemma {:induction false} GapInStrictRun(cfg: Config, h: Hypotheses, s: State, steps: seq<Step>)
    requires GapInv(cfg, s) && Strict(h) && Exec(cfg, h, s, steps).Some?
    ensures GapInv(cfg, Exec(cfg, h, s, steps).value)
    decreases steps
  {
    if steps != [] {
      GapStep(cfg, h, s, steps[0]);
      GapInStrictRun(cfg, h, Next(cfg, s, steps[0]), steps[1..]);
    }
  }

  /** Items that start settled respect lifetimes, and an idle collector is calm: four hypotheses are enough. */
  lemma GapInEveryRun(cfg: Config, h: Hypotheses, steps: seq<Step>)
    requires !cfg.ephemeral && h.settled && h.truthful && h.uids && h.idleGc && Exec(cfg, h, INIT, steps).Some?
    ensures GapInv(cfg, Exec(cfg, h, INIT, steps).value)
  {
    ExecClosure(cfg, h, steps);
    GapInStrictRun(cfg, Closure(h), INIT, steps);
  }

  /** Nothing is left to do for the key. */
  predicate Quiescent(s: State) {
    !s.queued && s.worker.Idle? && s.jobs == [] && s.closeOuts == []
  }

  /** `rows[i]` is the newest row by timestamp. */
  predicate NewestRow(rows: seq<Record>, i: nat) {
    i < |rows| && forall k :: 0 <= k < |rows| ==> rows[k].ts <= rows[i].ts
  }

  /** What the newest durable row says agrees with the watch cache. */
  ghost predicate Recorded(cfg: Config, rows: seq<Record>, live: Option<Obj>) {
    match live
    case Some(obj) =>
      exists i: nat :: NewestRow(rows, i) && rows[i].event != Deleted
               && rows[i].uid == obj.uid && rows[i].sha == cfg.codec.hash(obj.json)
    case None => rows == [] || exists i: nat :: NewestRow(rows, i) && rows[i].event == Deleted
  }

  lemma QuiescentLive(cfg: Config, s: State)
    requires GapInv(cfg, s) && Quiescent(s) && s.live.Some?
    ensures Recorded(cfg, s.rows, s.live)
  {
    var n := LastLiveIsLast(s.rows);
    forall k | 0 <= k < |s.rows|
      ensures s.rows[k].ts <= s.rows[n].ts
    {
      if s.rows[k].event == Deleted {
        BelowDeathTop(s.rows, k);
      } else {
        BelowLiveTop(s.rows, k);
      }
    }
    assert NewestRow(s.rows, n);
  }

  lemma QuiescentGone(cfg: Config, s: State)
    requires GapInv(cfg, s) && Quiescent(s) && s.live.None?
    ensures Recorded(cfg, s.rows, s.live)
  {
    if s.rows != [] {
      if LiveTop(s.rows) == 0 {
        NoLastLive(s.rows);
        BelowDeathTop(s.rows, 0);
      }
      var n := NewestDeath(s.rows);
      forall k | 0 <= k < |s.rows|
        ensures s.rows[k].ts <= s.rows[n].ts
      {
        if s.rows[k].event == Deleted {
          BelowDeathTop(s.rows, k);
        } else {
          BelowLiveTop(s.rows, k);
        }
      }
      assert NewestRow(s.rows, n);
    }
  }

  /** A key with nothing left to do has no gap between cluster and rows. */
  lemma NoGapsWhenQuiescent(cfg: Config, h: Hypotheses, steps: seq<Step>)
    requires !cfg.ephemeral && h.settled && h.truthful && h.uids && h.idleGc && Exec(cfg, h, INIT, steps).Some?
    ensures var s := Exec(cfg, h, INIT, steps).value; Quiescent(s) ==> Recorded(cfg, s.rows, s.live)
  {
    GapInEveryRun(cfg, h, steps);
    var s := Exec(cfg, h, INIT, steps).value;
    if Quiescent(s) {
      if s.live.Some? {
        QuiescentLive(cfg, s);
      } else {
        QuiescentGone(cfg, s);
      }
    }
  }
}
