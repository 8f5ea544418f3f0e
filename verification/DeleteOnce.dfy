/**
At most one durable Deleted row per incarnation: live deletes, collector claims, reincarnation
close-outs and their retries never record the same death twice, however their writes
interleave, fail or arrive late.
*/
module DeleteOnce {
  import opened Common
  import opened HashCaches
  import opened Protocol
  import opened Settlement
  import opened Lifetimes

  /** One if `r` records the death of `x`. */
  function Death(r: Record, x: Uid): nat {
    if r.event == Deleted && r.uid == x then 1 else 0
  }

  function DeathsIn(rs: seq<Record>, x: Uid): nat {
    if rs == [] then 0 else Death(rs[0], x) + DeathsIn(rs[1..], x)
  }

  function DeathsInFlight(jobs: seq<Job>, x: Uid): nat {
    if jobs == [] then 0 else Death(jobs[0].record, x) + DeathsInFlight(jobs[1..], x)
  }

  /** How often the death of `x` is on record: durable, in flight, or owed. */
  function Deaths(s: State, x: Uid): nat {
    DeathsIn(s.rows, x) + DeathsInFlight(s.jobs, x) + DeathsIn(s.closeOuts, x)
  }

  /** The death of `x` is recorded at most once, and only if `x` can no longer be recorded as live. */
  predicate DiesOnce(s: State, x: Uid) {
    Deaths(s, x) >= 1 ==>
      && Deaths(s, x) == 1
      && x in s.gone
      && !Holds(s.worker, x)
      && (s.entry.Some? && s.entry.value.uid == x ==> s.entry.value.pendingDelete)
  }

  // ---------------------------------------------------------------- counting

  lemma {:induction false} DeathsAppend(rs: seq<Record>, r: Record, x: Uid)
    ensures DeathsIn(rs + [r], x) == DeathsIn(rs, x) + Death(r, x)
  {
    if rs != [] {
      DeathsAppend(rs[1..], r, x);
      assert (rs + [r])[1..] == rs[1..] + [r];
    }
  }

  lemma {:induction false} InFlightAppend(jobs: seq<Job>, j: Job, x: Uid)
    ensures DeathsInFlight(jobs + [j], x) == DeathsInFlight(jobs, x) + Death(j.record, x)
  {
    if jobs != [] {
      InFlightAppend(jobs[1..], j, x);
      assert (jobs + [j])[1..] == jobs[1..] + [j];
    }
  }

  lemma {:induction false} InFlightWithout(jobs: seq<Job>, i: nat, x: Uid)
    requires i < |jobs|
    ensures DeathsInFlight(jobs, x) == DeathsInFlight(Without(jobs, i), x) + Death(jobs[i].record, x)
    decreases i
  {
    if i == 0 {
      assert Without(jobs, 0) == jobs[1..];
    } else {
      InFlightWithout(jobs[1..], i - 1, x);
      assert Without(jobs, i)[1..] == Without(jobs[1..], i - 1);
    }
  }

  lemma {:induction false} RetryKeepsDeaths(jobs: seq<Job>, records: seq<Record>, accepts: seq<bool>, x: Uid)
    requires |records| == |accepts|
    ensures DeathsInFlight(jobs + AcceptedJobs(records, accepts), x) + DeathsIn(RefusedRecords(records, accepts), x)
         == DeathsInFlight(jobs, x) + DeathsIn(records, x)
    decreases records
  {
    if records == [] {
      assert jobs + AcceptedJobs(records, accepts) == jobs;
    } else {
      var more, kept := AcceptedJobs(records[1..], accepts[1..]), RefusedRecords(records[1..], accepts[1..]);
      if accepts[0] {
        var first := [CloseOut(records[0])];
        RetryKeepsDeaths(jobs + first, records[1..], accepts[1..], x);
        InFlightAppend(jobs, first[0], x);
        assert jobs + (first + more) == jobs + first + more;
      } else {
        RetryKeepsDeaths(jobs, records[1..], accepts[1..], x);
        assert ([records[0]] + kept)[1..] == kept;
      }
    }
  }

  lemma {:induction false} CountedTwice(rs: seq<Record>, i: nat, k: nat, x: Uid)
    requires i < k < |rs| && Death(rs[i], x) == 1 && Death(rs[k], x) == 1
    ensures DeathsIn(rs, x) >= 2
    decreases rs
  {
    if i > 0 {
      CountedTwice(rs[1..], i - 1, k - 1, x);
    } else {
      CountedOnce(rs[1..], k - 1, x);
    }
  }

  lemma {:induction false} CountedOnce(rs: seq<Record>, i: nat, x: Uid)
    requires i < |rs| && Death(rs[i], x) == 1
    ensures DeathsIn(rs, x) >= 1
    decreases rs
  {
    if i > 0 {
      CountedOnce(rs[1..], i - 1, x);
    }
  }

  // ---------------------------------------------------------------- every step keeps it

  /** A step that touches no record, revives no UID and holds only what is alive. */
  ghost predicate RecordsNothing(s: State, t: State) {
    && t.rows == s.rows && t.jobs == s.jobs && t.closeOuts == s.closeOuts && s.gone <= t.gone
    && (t.entry.Some? ==>
          s.entry.Some? && t.entry.value.uid == s.entry.value.uid
          && t.entry.value.pendingDelete == s.entry.value.pendingDelete)
    && (forall x :: Holds(t.worker, x) ==> Holds(s.worker, x) || x !in s.gone)
  }

  lemma EnvironmentRecordsNothing(cfg: Config, s: State, step: Step)
    requires Lives(s) && Enabled(cfg, s, step) && Environment(step)
    ensures RecordsNothing(s, Next(cfg, s, step))
  {
  }

  /** A claim of a dead, unheld incarnation adds its death once. */
  lemma ClaimDiesOnce(s: State, uid: Uid, accepted: bool, x: Uid)
    requires DiesOnce(s, x) && Claimable(s, uid)
    ensures DiesOnce(ClaimAndDelete(s, uid, accepted), x)
  {
    if ClaimVerdict(s.entry, uid) == Claimed && accepted {
      InFlightAppend(s.jobs, Delete(DeletedRecord(s.entry.value, s.clock), s.entry.value.version + 1), x);
    }
  }

  lemma CloseOldDiesOnce(cfg: Config, s: State, accepted: bool, x: Uid)
    requires DiesOnce(s, x) && Lives(s) && s.worker.Loaded?
    ensures DiesOnce(AfterCloseOld(cfg, s, accepted), x)
  {
    if ClosesOld(cfg, s) {
      var record := DeletedRecord(s.entry.value, s.clock);
      if accepted {
        InFlightAppend(s.jobs, CloseOut(record), x);
      } else {
        DeathsAppend(s.closeOuts, record, x);
      }
    }
  }

  lemma SubmitDiesOnce(s: State, accepted: bool, x: Uid)
    requires DiesOnce(s, x) && LifeInv(s) && s.worker.Reserving?
    ensures DiesOnce(AfterSubmit(s, accepted), x)
  {
    assert Outstanding(s)[0] == s.worker.job;
    SettleKeepsUid(s.entry, s.worker.job, false);
    InFlightAppend(s.jobs, s.worker.job, x);
  }

  lemma SettleDiesOnce(s: State, i: nat, ok: bool, x: Uid)
    requires DiesOnce(s, x) && i < |s.jobs|
    requires WellFormed(s.jobs[i]) && Gated(s.entry, s.jobs[i]) && SafeRevert(s.jobs[i])
    ensures DiesOnce(AfterSettle(s, i, ok, ok), x)
  {
    var job := s.jobs[i];
    InFlightWithout(s.jobs, i, x);
    DeathsAppend(s.rows, job.record, x);
    DeathsAppend(s.closeOuts, job.record, x);
    SettleKeepsUid(s.entry, job, ok);
  }

  lemma OnceStep(cfg: Config, h: Hypotheses, s: State, step: Step, x: Uid)
    requires LifeInv(s) && DiesOnce(s, x) && Enabled(cfg, s, step) && Allowed(h, s, step)
    requires h.truthful && h.lifetimes && h.uids && h.calmGc
    ensures DiesOnce(Next(cfg, s, step), x)
  {
    match step
    case Retry(accepts) => RetryKeepsDeaths(s.jobs, s.closeOuts, accepts, x);
    case EmitDelete(accepted) =>
      LifeEmitDelete(s, accepted);
      ClaimDiesOnce(s, NO_UID, accepted, x);
    case CloseOld(accepted) => CloseOldDiesOnce(cfg, s, accepted, x);
    case Reserve(warm) =>
    case Submit(accepted) => SubmitDiesOnce(s, accepted, x);
    case Settle(i, ok, _) =>
      OutstandingJob(s, i);
      SettleDiesOnce(s, i, ok, x);
    case GcClaim(uid, accepted) => ClaimDiesOnce(s, uid, accepted, x);
    case _ => EnvironmentRecordsNothing(cfg, s, step);
  }

  lemma {:induction false} OnceInEveryRun(cfg: Config, h: Hypotheses, s: State, steps: seq<Step>, x: Uid)
    requires LifeInv(s) && DiesOnce(s, x) && h.truthful && h.lifetimes && h.uids && h.calmGc
    requires Exec(cfg, h, s, steps).Some?
    ensures DiesOnce(Exec(cfg, h, s, steps).value, x)
    decreases steps
  {
    if steps != [] {
      OnceStep(cfg, h, s, steps[0], x);
      LifeStep(cfg, h, s, steps[0]);
      OnceInEveryRun(cfg, h, Next(cfg, s, steps[0]), steps[1..], x);
    }
  }

  /** No incarnation is recorded as deleted twice, in any run. */
  lemma AtMostOneDeletedRow(cfg: Config, h: Hypotheses, steps: seq<Step>, i: nat, k: nat)
    requires h.truthful && h.lifetimes && h.uids && h.calmGc
    requires Exec(cfg, h, INIT, steps).Some?
    requires var rows := Exec(cfg, h, INIT, steps).value.rows;
      i < k < |rows| && rows[i].event == Deleted && rows[k].event == Deleted
    ensures var rows := Exec(cfg, h, INIT, steps).value.rows; rows[i].uid != rows[k].uid
  {
    var s := Exec(cfg, h, INIT, steps).value;
    OnceInEveryRun(cfg, h, INIT, steps, s.rows[i].uid);
    if s.rows[i].uid == s.rows[k].uid {
      CountedTwice(s.rows, i, k, s.rows[i].uid);
      assert false;
    }
  }
}
