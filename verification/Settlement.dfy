/**
The version gate: in every run that respects key lifetimes, reserved versions strictly
increase, only the latest write of a key can change its entry, and the entry left once every
outstanding job has settled does not depend on the order they settled in.
*/
module Settlement {
  import opened Common
  import opened HashCaches
  import opened Protocol

  /** Every job issued and not settled, including the one the worker is about to submit. */
  function Outstanding(s: State): seq<Job> {
    if s.worker.Reserving? then [s.worker.job] + s.jobs else s.jobs
  }

  predicate WellFormed(j: Job) {
    match j
    case Upsert(record, version, confirmed, _) =>
      version >= 1 && record.event != Deleted && record.uid == confirmed.uid && !confirmed.pendingDelete
    case Delete(record, version) => version >= 1 && record.event == Deleted
    case CloseOut(record) => record.event == Deleted
  }

  /** `e` is the entry `j` installed when it was issued. */
  predicate Owns(j: Job, e: CacheEntry) {
    match j
    case Upsert(_, version, confirmed, _) =>
      && e.version == version
      && e.(baseline := confirmed.baseline, version := confirmed.version) == confirmed
    case Delete(record, version) => e.version == version && e.pendingDelete && e.uid == record.uid
    case CloseOut(_) => false
  }

  predicate Gated(entry: Option<CacheEntry>, j: Job) {
    Versioned(j) && entry.Some? ==>
      j.version <= entry.value.version && (j.version == entry.value.version ==> Owns(j, entry.value))
  }

  ghost predicate DistinctVersions(jobs: seq<Job>) {
    forall i, k :: 0 <= i < k < |jobs| && Versioned(jobs[i]) && Versioned(jobs[k]) ==>
      jobs[i].version != jobs[k].version
  }

  ghost predicate Versions(entry: Option<CacheEntry>, jobs: seq<Job>) {
    && (entry.Some? ==> entry.value.version >= 1)
    && (forall i :: 0 <= i < |jobs| ==> WellFormed(jobs[i]) && Gated(entry, jobs[i]))
    && DistinctVersions(jobs)
  }

  ghost predicate VersionInv(s: State) {
    && Versions(s.entry, Outstanding(s))
    && (s.worker.Reserving? ==> s.worker.job.Upsert?)
    && (forall i :: 0 <= i < |s.closeOuts| ==> s.closeOuts[i].event == Deleted)
  }

  // ---------------------------------------------------------------- every step keeps it

  lemma VersionsDrop(entry: Option<CacheEntry>, jobs: seq<Job>, i: nat)
    requires Versions(entry, jobs) && i < |jobs|
    ensures Versions(entry, Without(jobs, i))
    ensures Versioned(jobs[i]) ==> forall k :: 0 <= k < |jobs| - 1 ==>
      Versioned(Without(jobs, i)[k]) ==> Without(jobs, i)[k].version != jobs[i].version
  {
    var rest := Without(jobs, i);
    forall k | 0 <= k < |rest|
      ensures rest[k] == jobs[if k < i then k else k + 1]
    {}
  }

  lemma VersionsAdd(entry: Option<CacheEntry>, jobs: seq<Job>, j: Job, after: CacheEntry)
    requires Versions(entry, jobs)
    requires after.version == CurrentVersion(entry) + 1
    requires WellFormed(j) && (Versioned(j) ==> Owns(j, after))
    requires entry.None? ==> forall i :: 0 <= i < |jobs| ==> !Versioned(jobs[i])
    ensures Versions(Some(after), jobs + [j])
    ensures Versions(Some(after), jobs)
  {
  }

  lemma VersionsCloseOuts(entry: Option<CacheEntry>, jobs: seq<Job>, more: seq<Job>)
    requires Versions(entry, jobs)
    requires forall i :: 0 <= i < |more| ==> more[i].CloseOut? && WellFormed(more[i])
    ensures Versions(entry, jobs + more)
  {
  }

  lemma RetriedAreCloseOuts(records: seq<Record>, accepts: seq<bool>)
    requires |records| == |accepts|
    ensures forall j :: j in AcceptedJobs(records, accepts) ==> j.CloseOut? && j.record in records
    ensures forall r :: r in RefusedRecords(records, accepts) ==> r in records
  {
  }

  /** What settling a job does to the entry keeps every remaining job gated. */
  lemma VersionsSettle(entry: Option<CacheEntry>, jobs: seq<Job>, i: nat, ok: bool)
    requires Versions(entry, jobs) && i < |jobs|
    ensures Versions(Committed(entry, jobs[i], ok), Without(jobs, i))
  {
    VersionsDrop(entry, jobs, i);
  }

  lemma VersionsRotate(entry: Option<CacheEntry>, jobs: seq<Job>, j: Job)
    requires Versions(entry, [j] + jobs)
    ensures Versions(entry, jobs + [j])
  {
    var a, b := [j] + jobs, jobs + [j];
    forall i, k | 0 <= i < k < |b| && Versioned(b[i]) && Versioned(b[k])
      ensures b[i].version != b[k].version
    {
      assert b[i] == a[i + 1];
      assert b[k] == if k < |jobs| then a[k + 1] else a[0];
    }
    forall i | 0 <= i < |b|
      ensures WellFormed(b[i]) && Gated(entry, b[i])
    {
      assert b[i] == if i < |jobs| then a[i + 1] else a[0];
    }
  }

  lemma VersionClaim(s: State, uid: Uid, accepted: bool)
    requires VersionInv(s)
    ensures VersionInv(ClaimAndDelete(s, uid, accepted))
  {
    if ClaimVerdict(s.entry, uid) == Claimed {
      var claimed := AfterClaim(s.entry, uid).value;
      var record := DeletedRecord(s.entry.value, s.clock);
      VersionsAdd(s.entry, Outstanding(s), Delete(record, claimed.version), claimed);
      var t := ClaimAndDelete(s, uid, accepted);
      assert accepted ==> Outstanding(t) == Outstanding(s) + [Delete(record, claimed.version)];
    }
  }

  lemma VersionCloseOld(cfg: Config, s: State, accepted: bool)
    requires VersionInv(s) && s.worker.Loaded?
    ensures VersionInv(AfterCloseOld(cfg, s, accepted))
  {
    var obj, cached := s.worker.obj, s.worker.cached;
    if !cfg.ephemeral && Reincarnated(cached, obj) && ClaimVerdict(s.entry, cached.value.uid) == Claimed {
      VersionsAdd(s.entry, s.jobs, CloseOut(DeletedRecord(s.entry.value, s.clock)),
                  AfterClaim(s.entry, cached.value.uid).value);
    }
  }

  lemma VersionReserve(cfg: Config, s: State, warm: bool)
    requires VersionInv(s) && s.worker.Closed?
    requires s.entry.None? ==> forall i :: 0 <= i < |s.jobs| ==> !Versioned(s.jobs[i])
    ensures VersionInv(AfterReserve(cfg, s, warm))
  {
    var t := AfterReserve(cfg, s, warm);
    VersionsAdd(s.entry, s.jobs, t.worker.job, t.entry.value);
    var a, b := s.jobs + [t.worker.job], [t.worker.job] + s.jobs;
    forall i, k | 0 <= i < k < |b| && Versioned(b[i]) && Versioned(b[k])
      ensures b[i].version != b[k].version
    {
      assert b[k] == a[k - 1];
      assert b[i] == if i == 0 then a[|s.jobs|] else a[i - 1];
    }
    forall i | 0 <= i < |b|
      ensures WellFormed(b[i]) && Gated(t.entry, b[i])
    {
      assert b[i] == if i == 0 then a[|s.jobs|] else a[i - 1];
    }
  }

  lemma VersionSubmit(s: State, accepted: bool)
    requires VersionInv(s) && s.worker.Reserving?
    ensures VersionInv(AfterSubmit(s, accepted))
  {
    if accepted {
      VersionsRotate(s.entry, s.jobs, s.worker.job);
    } else {
      VersionsSettle(s.entry, Outstanding(s), 0, false);
      assert Without(Outstanding(s), 0) == s.jobs;
    }
  }

  lemma WithoutTail<T>(x: T, xs: seq<T>, i: nat)
    requires i < |xs|
    ensures ([x] + xs)[i + 1] == xs[i] && Without([x] + xs, i + 1) == [x] + Without(xs, i)
  {
  }

  lemma VersionSettle(s: State, i: nat, ok: bool, durable: bool)
    requires VersionInv(s) && i < |s.jobs|
    ensures VersionInv(AfterSettle(s, i, ok, durable))
  {
    assert WellFormed(s.jobs[i]) by {
      assert s.worker.Reserving? ==> Outstanding(s)[i + 1] == s.jobs[i];
    }
    if s.worker.Reserving? {
      WithoutTail(s.worker.job, s.jobs, i);
      VersionsSettle(s.entry, Outstanding(s), i + 1, ok);
    } else {
      VersionsSettle(s.entry, s.jobs, i, ok);
    }
  }

  lemma VersionRetry(s: State, accepts: seq<bool>)
    requires VersionInv(s) && s.worker.Read? && |accepts| == |s.closeOuts|
    ensures VersionInv(AfterRetry(s, accepts))
  {
    RetriedAreCloseOuts(s.closeOuts, accepts);
    var kept := RefusedRecords(s.closeOuts, accepts);
    assert forall i :: 0 <= i < |kept| ==> kept[i] in s.closeOuts;
    VersionsCloseOuts(s.entry, s.jobs, AcceptedJobs(s.closeOuts, accepts));
  }

  lemma VersionStep(cfg: Config, h: Hypotheses, s: State, step: Step)
    requires VersionInv(s) && Enabled(cfg, s, step) && Allowed(h, s, step) && h.lifetimes
    ensures VersionInv(Next(cfg, s, step))
  {
    match step
    case Retry(accepts) => VersionRetry(s, accepts);
    case EmitDelete(accepted) => VersionClaim(s, NO_UID, accepted);
    case CloseOld(accepted) => VersionCloseOld(cfg, s, accepted);
    case Reserve(warm) => VersionReserve(cfg, s, warm);
    case Submit(accepted) => VersionSubmit(s, accepted);
    case Settle(i, ok, durable) => VersionSettle(s, i, ok, durable);
    case GcClaim(uid, accepted) => VersionClaim(s, uid, accepted);
    case _ =>
  }

  lemma {:induction false} VersionsInEveryRun(cfg: Config, h: Hypotheses, s: State, steps: seq<Step>)
    requires VersionInv(s) && h.lifetimes
    requires Exec(cfg, h, s, steps).Some?
    ensures VersionInv(Exec(cfg, h, s, steps).value)
    decreases steps
  {
    if steps != [] {
      VersionStep(cfg, h, s, steps[0]);
      VersionsInEveryRun(cfg, h, Next(cfg, s, steps[0]), steps[1..]);
    }
  }

  // ---------------------------------------------------------------- confluence

  /** A job with the outcome its callback will be given. */
  datatype Verdict = Verdict(job: Job, ok: bool)

  function Jobs(vs: seq<Verdict>): seq<Job> {
    seq(|vs|, i requires 0 <= i < |vs| => vs[i].job)
  }

  /** The entry left after settling `vs` one after the other. */
  function SettleAll(entry: Option<CacheEntry>, vs: seq<Verdict>): Option<CacheEntry>
    decreases vs
  {
    if vs == [] then entry else SettleAll(Committed(entry, vs[0].job, vs[0].ok), vs[1..])
  }

  /** `v` is the latest write of the key: its version is the one the entry carries. */
  predicate Latest(entry: Option<CacheEntry>, v: Verdict) {
    entry.Some? && Versioned(v.job) && v.job.version == entry.value.version
  }

  /** Jobs other than the latest, and any job of an absent key, leave the entry alone. */
  lemma {:induction false} StaleJobsDoNothing(entry: Option<CacheEntry>, vs: seq<Verdict>)
    requires Versions(entry, Jobs(vs))
    requires forall i :: 0 <= i < |vs| ==> !Latest(entry, vs[i])
    ensures SettleAll(entry, vs) == entry
    decreases vs
  {
    if vs != [] {
      assert Jobs(vs)[0] == vs[0].job;
      VersionsDrop(entry, Jobs(vs), 0);
      assert Without(Jobs(vs), 0) == Jobs(vs[1..]);
      assert Committed(entry, vs[0].job, vs[0].ok) == entry;
      StaleJobsDoNothing(entry, vs[1..]);
    }
  }

  /** Whatever the order, the latest write's own outcome decides the entry. */
  lemma {:induction false} LatestDecides(entry: Option<CacheEntry>, vs: seq<Verdict>, k: nat)
    requires Versions(entry, Jobs(vs))
    requires k < |vs| && Latest(entry, vs[k])
    ensures SettleAll(entry, vs) == Committed(entry, vs[k].job, vs[k].ok)
    decreases vs
  {
    assert Jobs(vs)[0] == vs[0].job && Jobs(vs)[k] == vs[k].job;
    var next := Committed(entry, vs[0].job, vs[0].ok);
    VersionsSettle(entry, Jobs(vs), 0, vs[0].ok);
    VersionsDrop(entry, Jobs(vs), 0);
    assert Without(Jobs(vs), 0) == Jobs(vs[1..]);
    if k == 0 {
      forall i | 0 <= i < |vs[1..]|
        ensures !Latest(next, vs[1..][i])
      {
        assert Jobs(vs[1..])[i] == vs[1..][i].job;
      }
      StaleJobsDoNothing(next, vs[1..]);
    } else {
      assert next == entry;
      LatestDecides(entry, vs[1..], k - 1);
    }
  }

  lemma {:induction false} TwiceInSeq<T>(xs: seq<T>, x: T) returns (i: nat, k: nat)
    requires multiset(xs)[x] >= 2
    ensures i < k < |xs| && xs[i] == x && xs[k] == x
  {
    assert xs == [xs[0]] + xs[1..];
    if xs[0] == x {
      assert x in multiset(xs[1..]);
      var m :| 0 <= m < |xs[1..]| && xs[1..][m] == x;
      i, k := 0, m + 1;
    } else {
      i, k := TwiceInSeq(xs[1..], x);
      i, k := i + 1, k + 1;
    }
  }

  lemma TwoPlaces<T>(xs: seq<T>, i: nat, k: nat)
    requires i < k < |xs| && xs[i] == xs[k]
    ensures multiset(xs)[xs[i]] >= 2
  {
    assert xs == xs[..i] + [xs[i]] + xs[i + 1..k] + [xs[k]] + xs[k + 1..];
  }

  /** Being gated does not depend on the order the jobs are listed in. */
  lemma VersionsPermute(entry: Option<CacheEntry>, a: seq<Job>, b: seq<Job>)
    requires Versions(entry, a) && multiset(a) == multiset(b)
    ensures Versions(entry, b)
  {
    forall i | 0 <= i < |b|
      ensures b[i] in a
    {
      assert b[i] in multiset(b);
    }
    forall i, k | 0 <= i < k < |b| && Versioned(b[i]) && Versioned(b[k])
      ensures b[i].version != b[k].version
    {
      assert b[i] in a && b[k] in a;
      if b[i] == b[k] {
        TwoPlaces(b, i, k);
        var x, y := TwiceInSeq(a, b[i]);
        assert false;
      }
    }
  }

  lemma JobsBag(vs: seq<Verdict>, k: nat)
    requires k < |vs|
    ensures multiset(Jobs(vs)) == multiset(Jobs(Without(vs, k))) + multiset{vs[k].job}
    ensures multiset(vs) == multiset(Without(vs, k)) + multiset{vs[k]}
  {
    assert vs == vs[..k] + [vs[k]] + vs[k + 1..];
    assert Jobs(vs) == Jobs(vs[..k]) + [vs[k].job] + Jobs(vs[k + 1..]);
    assert Jobs(Without(vs, k)) == Jobs(vs[..k]) + Jobs(vs[k + 1..]);
  }

  lemma {:induction false} SameVerdictsSameJobs(vs: seq<Verdict>, ws: seq<Verdict>)
    requires multiset(vs) == multiset(ws)
    ensures multiset(Jobs(vs)) == multiset(Jobs(ws))
    decreases vs
  {
    if vs == [] {
      assert |multiset(ws)| == |ws|;
    } else {
      assert vs[0] in multiset(ws);
      var k :| 0 <= k < |ws| && ws[k] == vs[0];
      JobsBag(vs, 0);
      JobsBag(ws, k);
      assert multiset(Without(vs, 0)) == multiset(vs) - multiset{vs[0]};
      assert multiset(Without(ws, k)) == multiset(ws) - multiset{ws[k]};
      SameVerdictsSameJobs(Without(vs, 0), Without(ws, k));
    }
  }

  /**
  Settlement is confluent: two orders of settling the same outstanding jobs with the same
  outcomes leave the same entry.
  */
  lemma SettlementConfluence(s: State, vs: seq<Verdict>, ws: seq<Verdict>)
    requires VersionInv(s) && !s.worker.Reserving?
    requires multiset(Jobs(vs)) == multiset(s.jobs) && multiset(vs) == multiset(ws)
    ensures SettleAll(s.entry, vs) == SettleAll(s.entry, ws)
  {
    SameVerdictsSameJobs(vs, ws);
    VersionsPermute(s.entry, s.jobs, Jobs(vs));
    VersionsPermute(s.entry, s.jobs, Jobs(ws));
    if k :| 0 <= k < |vs| && Latest(s.entry, vs[k]) {
      assert vs[k] in multiset(ws);
      var m :| 0 <= m < |ws| && ws[m] == vs[k];
      LatestDecides(s.entry, vs, k);
      LatestDecides(s.entry, ws, m);
    } else {
      forall m | 0 <= m < |ws|
        ensures !Latest(s.entry, ws[m])
      {
        assert ws[m] in multiset(vs);
      }
      StaleJobsDoNothing(s.entry, vs);
      StaleJobsDoNothing(s.entry, ws);
    }
  }

  // ---------------------------------------------------------------- whole settling runs

  predicate SettlesOnly(steps: seq<Step>) {
    forall i :: 0 <= i < |steps| ==> steps[i].Settle?
  }

  /** The verdicts a run of settlements hands out, in its order. */
  function VerdictsOf(cfg: Config, h: Hypotheses, s: State, steps: seq<Step>): seq<Verdict>
    requires SettlesOnly(steps) && Exec(cfg, h, s, steps).Some?
    decreases steps
  {
    if steps == [] then []
    else
      [Verdict(s.jobs[steps[0].index], steps[0].ok)] + VerdictsOf(cfg, h, Next(cfg, s, steps[0]), steps[1..])
  }

  lemma VerdictsHead(v: Verdict, vs: seq<Verdict>, entry: Option<CacheEntry>)
    ensures multiset(Jobs([v] + vs)) == multiset{v.job} + multiset(Jobs(vs))
    ensures SettleAll(entry, [v] + vs) == SettleAll(Committed(entry, v.job, v.ok), vs)
  {
    assert Jobs([v] + vs) == [v.job] + Jobs(vs);
    assert ([v] + vs)[1..] == vs;
  }

  lemma BagWithout<T>(xs: seq<T>, i: nat)
    requires i < |xs|
    ensures multiset(xs) == multiset(Without(xs, i)) + multiset{xs[i]}
  {
    assert xs == xs[..i] + [xs[i]] + xs[i + 1..];
  }

  lemma SettleHead(cfg: Config, h: Hypotheses, s: State, steps: seq<Step>) returns (next: State)
    requires steps != [] && SettlesOnly(steps) && Exec(cfg, h, s, steps).Some?
    ensures steps[0].index < |s.jobs|
    ensures next.jobs == Without(s.jobs, steps[0].index)
    ensures next.entry == Committed(s.entry, s.jobs[steps[0].index], steps[0].ok)
    ensures SettlesOnly(steps[1..]) && Exec(cfg, h, s, steps) == Exec(cfg, h, next, steps[1..])
    ensures VerdictsOf(cfg, h, s, steps)
         == [Verdict(s.jobs[steps[0].index], steps[0].ok)] + VerdictsOf(cfg, h, next, steps[1..])
  {
    next := AfterSettle(s, steps[0].index, steps[0].ok, steps[0].durable);
  }

  lemma {:induction false} SettlingRun(cfg: Config, h: Hypotheses, s: State, steps: seq<Step>)
    requires SettlesOnly(steps) && Exec(cfg, h, s, steps).Some?
    ensures var t := Exec(cfg, h, s, steps).value;
      && t.entry == SettleAll(s.entry, VerdictsOf(cfg, h, s, steps))
      && multiset(Jobs(VerdictsOf(cfg, h, s, steps))) + multiset(t.jobs) == multiset(s.jobs)
    decreases steps
  {
    if steps != [] {
      var next := SettleHead(cfg, h, s, steps);
      SettlingRun(cfg, h, next, steps[1..]);
      var i := steps[0].index;
      VerdictsHead(Verdict(s.jobs[i], steps[0].ok), VerdictsOf(cfg, h, next, steps[1..]), s.entry);
      BagWithout(s.jobs, i);
    }
  }

  /**
  Over every run: from any state a run that respects lifetimes can reach, two ways of settling
  everything outstanding that give each job the same outcome end with the same cache entry.
  */
  lemma ConfluentRuns(cfg: Config, h: Hypotheses, prefix: seq<Step>, one: seq<Step>, other: seq<Step>)
    requires h.lifetimes && Exec(cfg, h, INIT, prefix).Some?
    requires var s := Exec(cfg, h, INIT, prefix).value;
      && !s.worker.Reserving?
      && SettlesOnly(one) && SettlesOnly(other)
      && Exec(cfg, h, s, one).Some? && Exec(cfg, h, s, other).Some?
      && Exec(cfg, h, s, one).value.jobs == [] && Exec(cfg, h, s, other).value.jobs == []
      && multiset(VerdictsOf(cfg, h, s, one)) == multiset(VerdictsOf(cfg, h, s, other))
    ensures var s := Exec(cfg, h, INIT, prefix).value;
      Exec(cfg, h, s, one).value.entry == Exec(cfg, h, s, other).value.entry
  {
    var s := Exec(cfg, h, INIT, prefix).value;
    VersionsInEveryRun(cfg, h, INIT, prefix);
    SettlingRun(cfg, h, s, one);
    SettlingRun(cfg, h, s, other);
    SettlementConfluence(s, VerdictsOf(cfg, h, s, one), VerdictsOf(cfg, h, s, other));
  }
}
