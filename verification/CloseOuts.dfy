/**
Two facts about every run, whatever the environment, the acknowledgements and the collector do:
an owed reincarnation close-out is never lost and never doubled, and a Kubernetes Event only
ever produces full-state Added and Modified rows.
*/
module CloseOuts {
  import opened Common
  import opened HashCaches
  import opened Protocol

  /** How many outstanding jobs carry the close-out `r`. */
  function CountInFlight(jobs: seq<Job>, r: Record): nat {
    if jobs == [] then 0 else (if jobs[0] == CloseOut(r) then 1 else 0) + CountInFlight(jobs[1..], r)
  }

  /** How many entries of the retry list are `r`. */
  function CountOwed(rs: seq<Record>, r: Record): nat {
    if rs == [] then 0 else (if rs[0] == r then 1 else 0) + CountOwed(rs[1..], r)
  }

  ghost predicate ConservedOne(s: State, r: Record) {
    && s.claimed[r] == CountInFlight(s.jobs, r) + CountOwed(s.closeOuts, r) + s.acked[r]
    && s.claimed[r] <= 1
    && (r in s.claimed ==> r.ts < s.clock)
  }

  lemma {:induction false} CountAppend(jobs: seq<Job>, j: Job, r: Record)
    ensures CountInFlight(jobs + [j], r) == CountInFlight(jobs, r) + if j == CloseOut(r) then 1 else 0
  {
    if jobs != [] {
      CountAppend(jobs[1..], j, r);
      assert (jobs + [j])[1..] == jobs[1..] + [j];
    }
  }

  lemma {:induction false} OwedAppend(rs: seq<Record>, x: Record, r: Record)
    ensures CountOwed(rs + [x], r) == CountOwed(rs, r) + if x == r then 1 else 0
  {
    if rs != [] {
      OwedAppend(rs[1..], x, r);
      assert (rs + [x])[1..] == rs[1..] + [x];
    }
  }

  lemma {:induction false} CountWithout(jobs: seq<Job>, i: nat, r: Record)
    requires i < |jobs|
    ensures CountInFlight(jobs, r) == CountInFlight(Without(jobs, i), r) + if jobs[i] == CloseOut(r) then 1 else 0
    decreases i
  {
    if i == 0 {
      assert Without(jobs, 0) == jobs[1..];
    } else {
      CountWithout(jobs[1..], i - 1, r);
      assert Without(jobs, i)[1..] == Without(jobs[1..], i - 1);
    }
  }

  lemma {:induction false} RetryKeepsCloseOuts(jobs: seq<Job>, records: seq<Record>, accepts: seq<bool>, r: Record)
    requires |records| == |accepts|
    ensures CountInFlight(jobs + AcceptedJobs(records, accepts), r) + CountOwed(RefusedRecords(records, accepts), r)
         == CountInFlight(jobs, r) + CountOwed(records, r)
    decreases records
  {
    if records == [] {
      assert jobs + AcceptedJobs(records, accepts) == jobs;
    } else {
      var more, kept := AcceptedJobs(records[1..], accepts[1..]), RefusedRecords(records[1..], accepts[1..]);
      if accepts[0] {
        var first := [CloseOut(records[0])];
        RetryKeepsCloseOuts(jobs + first, records[1..], accepts[1..], r);
        CountAppend(jobs, first[0], r);
        assert jobs + (first + more) == jobs + first + more;
      } else {
        RetryKeepsCloseOuts(jobs, records[1..], accepts[1..], r);
        assert ([records[0]] + kept)[1..] == kept;
      }
    }
  }

  lemma ConservedCarry(s: State, t: State, r: Record)
    requires ConservedOne(s, r) && t.claimed == s.claimed && t.acked == s.acked
    requires t.jobs == s.jobs && t.closeOuts == s.closeOuts && t.clock >= s.clock
    ensures ConservedOne(t, r)
  {
  }

  lemma ConservedClaim(s: State, uid: Uid, accepted: bool, r: Record)
    requires ConservedOne(s, r)
    ensures ConservedOne(ClaimAndDelete(s, uid, accepted), r)
  {
    if ClaimVerdict(s.entry, uid) == Claimed && accepted {
      CountAppend(s.jobs, Delete(DeletedRecord(s.entry.value, s.clock), s.entry.value.version + 1), r);
    }
  }

  lemma ConservedCloseOld(cfg: Config, s: State, accepted: bool, r: Record)
    requires ConservedOne(s, r) && s.worker.Loaded?
    ensures ConservedOne(AfterCloseOld(cfg, s, accepted), r)
  {
    if s.entry.Some? {
      var record := DeletedRecord(s.entry.value, s.clock);
      CountAppend(s.jobs, CloseOut(record), r);
      OwedAppend(s.closeOuts, record, r);
    }
  }

  lemma ConservedSettle(s: State, i: nat, ok: bool, durable: bool, r: Record)
    requires ConservedOne(s, r) && i < |s.jobs|
    ensures ConservedOne(AfterSettle(s, i, ok, durable), r)
  {
    CountWithout(s.jobs, i, r);
    OwedAppend(s.closeOuts, s.jobs[i].record, r);
  }

  lemma ConservedStep(cfg: Config, s: State, step: Step, r: Record)
    requires ConservedOne(s, r) && Enabled(cfg, s, step)
    ensures ConservedOne(Next(cfg, s, step), r)
  {
    match step
    case Retry(accepts) => RetryKeepsCloseOuts(s.jobs, s.closeOuts, accepts, r);
    case EmitDelete(accepted) =>
      ConservedClaim(s, NO_UID, accepted, r);
      ConservedCarry(ClaimAndDelete(s, NO_UID, accepted), AfterEmitDelete(s, accepted), r);
    case GcClaim(uid, accepted) => ConservedClaim(s, uid, accepted, r);
    case CloseOld(accepted) => ConservedCloseOld(cfg, s, accepted, r);
    case Submit(accepted) => CountAppend(s.jobs, s.worker.job, r);
    case Settle(i, ok, durable) => ConservedSettle(s, i, ok, durable, r);
    case _ => ConservedCarry(s, Next(cfg, s, step), r);
  }

  lemma {:induction false} ConservedInEveryRun(cfg: Config, h: Hypotheses, s: State, steps: seq<Step>, r: Record)
    requires ConservedOne(s, r) && Exec(cfg, h, s, steps).Some?
    ensures ConservedOne(Exec(cfg, h, s, steps).value, r)
    decreases steps
  {
    if steps != [] {
      ConservedStep(cfg, s, steps[0], r);
      ConservedInEveryRun(cfg, h, Next(cfg, s, steps[0]), steps[1..], r);
    }
  }

  /**
  At every point of every run each claimed close-out is in exactly one place: in flight, on the
  retry list, or acknowledged; and nothing else is in any of them.
  */
  lemma CloseOutConservation(cfg: Config, h: Hypotheses, steps: seq<Step>, r: Record)
    requires Exec(cfg, h, INIT, steps).Some?
    ensures var s := Exec(cfg, h, INIT, steps).value;
      CountInFlight(s.jobs, r) + CountOwed(s.closeOuts, r) + s.acked[r] == if r in s.claimed then 1 else 0
  {
    ConservedInEveryRun(cfg, h, INIT, steps, r);
  }

  // ---------------------------------------------------------------- debts are retried

  /** What is owed will be looked at: the key is queued, or a worker has just taken it. */
  ghost predicate Scheduled(cfg: Config, s: State) {
    && (s.closeOuts != [] ==> s.queued || s.worker.Read?)
    && (cfg.ephemeral ==> s.closeOuts == [] && forall j :: j in s.jobs ==> !j.CloseOut?)
  }

  lemma ScheduledSettle(cfg: Config, s: State, i: nat, ok: bool, durable: bool)
    requires Scheduled(cfg, s) && i < |s.jobs|
    ensures Scheduled(cfg, AfterSettle(s, i, ok, durable))
  {
    assert s.jobs[i] in s.jobs;
    assert forall j :: j in Without(s.jobs, i) ==> j in s.jobs;
  }

  lemma ScheduledStep(cfg: Config, s: State, step: Step)
    requires Scheduled(cfg, s) && Enabled(cfg, s, step)
    ensures Scheduled(cfg, Next(cfg, s, step))
  {
    match step
    case Settle(i, ok, durable) => ScheduledSettle(cfg, s, i, ok, durable);
    case _ =>
  }

  lemma {:induction false} ScheduledInEveryRun(cfg: Config, h: Hypotheses, s: State, steps: seq<Step>)
    requires Scheduled(cfg, s) && Exec(cfg, h, s, steps).Some?
    ensures Scheduled(cfg, Exec(cfg, h, s, steps).value)
    decreases steps
  {
    if steps != [] {
      ScheduledStep(cfg, s, steps[0]);
      ScheduledInEveryRun(cfg, h, Next(cfg, s, steps[0]), steps[1..]);
    }
  }

  /** In every run, under no hypothesis: whenever no worker is at the key, an owed close-out has it queued. */
  lemma DebtsAreQueued(cfg: Config, h: Hypotheses, steps: seq<Step>)
    requires Exec(cfg, h, INIT, steps).Some?
    ensures var s := Exec(cfg, h, INIT, steps).value; s.closeOuts != [] && s.worker.Idle? ==> s.queued
  {
    ScheduledInEveryRun(cfg, h, INIT, steps);
  }
}
