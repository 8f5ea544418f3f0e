/**
Exactly when the guarantees hold: for each of them, the hypotheses under which no run breaks it,
and no fewer.
*/
module Exactness {
  import opened Common
  import opened HashCaches
  import opened Protocol
  import opened Implications
  import opened DeleteOnce
  import opened NoGaps
  import opened Continuity
  import opened Histories
  import opened FullRows
  import opened Replay
  import opened Boundaries

  /** A run that meets all but what `h` does not ask for is a run under `h`. */
  lemma RunUnder(cfg: Config, g: Hypotheses, h: Hypotheses, run: seq<Step>, s: State)
    requires Stronger(g, h) && Exec(cfg, g, INIT, run) == Some(s)
    ensures Exec(cfg, h, INIT, run) == Some(s)
  {
    ExecStronger(cfg, g, h, INIT, run);
  }

  // ---------------------------------------------------------------- at most one deletion

  ghost predicate NeverDiesTwice(cfg: Config, h: Hypotheses) {
    forall steps :: Exec(cfg, h, INIT, steps).Some? ==> !DiesTwice(Exec(cfg, h, INIT, steps).value.rows)
  }

  lemma OneDeathIsEnough(cfg: Config, h: Hypotheses, steps: seq<Step>)
    requires h.truthful && h.uids && (h.calmGc || h.idleGc) && (h.settled || h.lifetimes)
    requires Exec(cfg, h, INIT, steps).Some?
    ensures !DiesTwice(Exec(cfg, h, INIT, steps).value.rows)
  {
    ExecClosure(cfg, h, steps);
    var rows := Exec(cfg, h, INIT, steps).value.rows;
    forall i, k | 0 <= i < k < |rows| && rows[i].event == Deleted && rows[k].event == Deleted
      ensures rows[i].uid != rows[k].uid
    {
      AtMostOneDeletedRow(cfg, Closure(h), steps, i, k);
    }
  }

  lemma TwoDeathsOtherwise(cfg: Config, h: Hypotheses, a: Json, b: Json) returns (run: seq<Step>, s: State)
    requires !cfg.ephemeral && cfg.codec.hash(a) != cfg.codec.hash(b)
    requires !(h.truthful && h.uids && (h.calmGc || h.idleGc) && (h.settled || h.lifetimes))
    ensures Exec(cfg, h, INIT, run) == Some(s) && DiesTwice(s.rows)
  {
    if !h.truthful {
      run, s := LostAcknowledgement(cfg, a);
      RunUnder(cfg, ALL.(truthful := false), h, run, s);
    } else if !h.uids {
      run, s := ReturningUid(cfg, a);
      RunUnder(cfg, ALL.(uids := false), h, run, s);
    } else if !h.settled && !h.lifetimes {
      run, s := VersionRestart(cfg, a, b);
      RunUnder(cfg, ALL.(settled := false, lifetimes := false), h, run, s);
    } else {
      run, s := CollectorRace(cfg, a, b);
      RunUnder(cfg, ALL.(calmGc := false, idleGc := false), h, run, s);
    }
  }

  /**
  No run records one death twice if and only if acknowledgements are truthful, UIDs do not return, the
  collector leaves alone what a worker is recording, and versions do not restart under a late job.
  */
  lemma DeletedOnceExactly(cfg: Config, h: Hypotheses, a: Json, b: Json)
    requires !cfg.ephemeral && cfg.codec.hash(a) != cfg.codec.hash(b)
    ensures NeverDiesTwice(cfg, h) <==> h.truthful && h.uids && (h.calmGc || h.idleGc) && (h.settled || h.lifetimes)
  {
    if h.truthful && h.uids && (h.calmGc || h.idleGc) && (h.settled || h.lifetimes) {
      forall steps | Exec(cfg, h, INIT, steps).Some? ensures !DiesTwice(Exec(cfg, h, INIT, steps).value.rows) {
        OneDeathIsEnough(cfg, h, steps);
      }
    } else {
      var run, s := TwoDeathsOtherwise(cfg, h, a, b);
    }
  }

  // ---------------------------------------------------------------- no gaps

  ghost predicate NeverGaps(cfg: Config, h: Hypotheses) {
    forall steps :: Exec(cfg, h, INIT, steps).Some? && Quiescent(Exec(cfg, h, INIT, steps).value) ==>
      Recorded(cfg, Exec(cfg, h, INIT, steps).value.rows, Exec(cfg, h, INIT, steps).value.live)
  }

  /** The same, asked only of keys whose object is in the watch cache. */
  ghost predicate NeverLosesTheLiving(cfg: Config, h: Hypotheses) {
    forall steps :: Exec(cfg, h, INIT, steps).Some? && Quiescent(Exec(cfg, h, INIT, steps).value) ==>
      var s := Exec(cfg, h, INIT, steps).value;
      s.live.Some? ==> Recorded(cfg, s.rows, s.live)
  }

  /** Three of the hypotheses are needed even for the living. */
  lemma LiveGapOtherwise(cfg: Config, h: Hypotheses, a: Json, b: Json) returns (run: seq<Step>, s: State)
    requires !cfg.ephemeral && cfg.codec.hash(a) != cfg.codec.hash(b)
    requires !(h.settled && h.truthful && h.uids)
    ensures Exec(cfg, h, INIT, run) == Some(s) && Quiescent(s) && s.live.Some? && !Recorded(cfg, s.rows, s.live)
  {
    if !h.settled {
      run, s := UnsettledFallback(cfg, a, b);
      RunUnder(cfg, ALL.(settled := false), h, run, s);
    } else if !h.truthful {
      run, s := UnfoundedAcknowledgement(cfg, a);
      RunUnder(cfg, ALL.(truthful := false), h, run, s);
    } else {
      run, s := ReturningGap(cfg, a);
      RunUnder(cfg, ALL.(uids := false), h, run, s);
    }
  }

  lemma GapOtherwise(cfg: Config, h: Hypotheses, a: Json, b: Json) returns (run: seq<Step>, s: State)
    requires !cfg.ephemeral && cfg.codec.hash(a) != cfg.codec.hash(b)
    requires !(h.settled && h.truthful && h.uids && h.idleGc)
    ensures Exec(cfg, h, INIT, run) == Some(s) && Quiescent(s) && !Recorded(cfg, s.rows, s.live)
  {
    if h.settled && h.truthful && h.uids {
      run, s := UnrecordedDeath(cfg, a, b);
      RunUnder(cfg, ALL.(idleGc := false), h, run, s);
    } else {
      run, s := LiveGapOtherwise(cfg, h, a, b);
    }
  }

  /** No run leaves a gap if and only if all four hypotheses are met. */
  lemma NoGapsExactly(cfg: Config, h: Hypotheses, a: Json, b: Json)
    requires !cfg.ephemeral && cfg.codec.hash(a) != cfg.codec.hash(b)
    ensures NeverGaps(cfg, h) <==> h.settled && h.truthful && h.uids && h.idleGc
  {
    if h.settled && h.truthful && h.uids && h.idleGc {
      forall steps | Exec(cfg, h, INIT, steps).Some? && Quiescent(Exec(cfg, h, INIT, steps).value)
        ensures Recorded(cfg, Exec(cfg, h, INIT, steps).value.rows, Exec(cfg, h, INIT, steps).value.live)
      {
        NoGapsWhenQuiescent(cfg, h, steps);
      }
    } else {
      var run, s := GapOtherwise(cfg, h, a, b);
    }
  }

  /** For the living the collector does not matter: three hypotheses are necessary and sufficient. */
  lemma LivingRecordedExactly(cfg: Config, h: Hypotheses, a: Json, b: Json)
    requires !cfg.ephemeral && cfg.codec.hash(a) != cfg.codec.hash(b)
    ensures NeverLosesTheLiving(cfg, h) <==> h.settled && h.truthful && h.uids
  {
    if h.settled && h.truthful && h.uids {
      forall steps | Exec(cfg, h, INIT, steps).Some? && Quiescent(Exec(cfg, h, INIT, steps).value)
        ensures var s := Exec(cfg, h, INIT, steps).value; s.live.Some? ==> Recorded(cfg, s.rows, s.live)
      {
        LiveIsRecorded(cfg, h, steps);
      }
    } else {
      var run, s := LiveGapOtherwise(cfg, h, a, b);
    }
  }

  // ---------------------------------------------------------------- whole histories

  /** Every recorded incarnation is live and undeleted, or has exactly one deletion, stamped last. */
  ghost predicate Complete(s: State) {
    forall x :: Chronicled(s.rows, x) ==>
      if s.live.Some? && s.live.value.uid == x then NoDeath(s.rows, x) else exists k :: OneDeath(s.rows, x, k)
  }

  ghost predicate AlwaysComplete(cfg: Config, h: Hypotheses) {
    forall steps :: Exec(cfg, h, INIT, steps).Some? && Quiescent(Exec(cfg, h, INIT, steps).value) ==>
      Complete(Exec(cfg, h, INIT, steps).value)
  }

  lemma TwiceIsIncomplete(s: State)
    requires DiesTwice(s.rows) && OnlyOf(s, 1)
    ensures !Complete(s)
  {
    assert s.rows[0] in s.rows && Chronicled(s.rows, 1);
    var i, k :| 0 <= i < k < |s.rows| && s.rows[i].event == Deleted && s.rows[k].event == Deleted;
    assert forall n :: !OneDeath(s.rows, 1, n);
  }

  lemma UnburiedIsIncomplete(s: State, x: Uid)
    requires s.rows != [] && s.rows[0].uid == x && forall i :: 0 <= i < |s.rows| ==> s.rows[i].event != Deleted
    requires !(s.live.Some? && s.live.value.uid == x)
    ensures !Complete(s)
  {
    assert s.rows[0] in s.rows && Chronicled(s.rows, x);
    assert forall n :: !OneDeath(s.rows, x, n);
  }

  lemma IncompleteOtherwise(cfg: Config, h: Hypotheses, a: Json, b: Json) returns (run: seq<Step>, s: State)
    requires !cfg.ephemeral && !(h.settled && h.truthful && h.uids && h.idleGc)
    ensures Exec(cfg, h, INIT, run) == Some(s) && Quiescent(s) && !Complete(s)
  {
    if !h.settled {
      run, s := OvertakenDeath(cfg, a);
      UnburiedIsIncomplete(s, 1);
      RunUnder(cfg, ALL.(settled := false), h, run, s);
    } else if !h.truthful {
      run, s := LostAcknowledgement(cfg, a);
      TwiceIsIncomplete(s);
      RunUnder(cfg, ALL.(truthful := false), h, run, s);
    } else if !h.uids {
      run, s := ReturningUid(cfg, a);
      TwiceIsIncomplete(s);
      RunUnder(cfg, ALL.(uids := false), h, run, s);
    } else {
      run, s := UnrecordedDeath(cfg, a, b);
      UnburiedIsIncomplete(s, s.rows[0].uid);
      RunUnder(cfg, ALL.(idleGc := false), h, run, s);
    }
  }

  /** Every run that comes to rest leaves a complete history if and only if all four hypotheses are met. */
  lemma CompleteExactly(cfg: Config, h: Hypotheses)
    requires !cfg.ephemeral
    ensures AlwaysComplete(cfg, h) <==> h.settled && h.truthful && h.uids && h.idleGc
  {
    if h.settled && h.truthful && h.uids && h.idleGc {
      forall steps | Exec(cfg, h, INIT, steps).Some? && Quiescent(Exec(cfg, h, INIT, steps).value)
        ensures Complete(Exec(cfg, h, INIT, steps).value)
      {
        forall x | Chronicled(Exec(cfg, h, INIT, steps).value.rows, x)
          ensures var s := Exec(cfg, h, INIT, steps).value;
            if s.live.Some? && s.live.value.uid == x then NoDeath(s.rows, x) else exists k :: OneDeath(s.rows, x, k)
        {
          HistoryIsComplete(cfg, h, steps, x);
        }
      }
    } else {
      var run, s := IncompleteOtherwise(cfg, h, "", "");
    }
  }

  // ---------------------------------------------------------------- replay

  ghost predicate AlwaysReadable(cfg: Config, h: Hypotheses) {
    forall steps :: Exec(cfg, h, INIT, steps).Some? ==> !Unreadable(cfg, Exec(cfg, h, INIT, steps).value.rows)
  }

  lemma ReadableWhenMet(cfg: Config, h: Hypotheses, steps: seq<Step>)
    requires Lawful(cfg.codec) && Exec(cfg, h, INIT, steps).Some?
    requires (h.settled && h.truthful && h.uids) || NeverPatches(cfg)
    ensures !Unreadable(cfg, Exec(cfg, h, INIT, steps).value.rows)
  {
    var rows := Exec(cfg, h, INIT, steps).value.rows;
    forall uid | NewestOf(rows, uid).Some? ensures ReplayRows(cfg.codec, rows, uid).Some? {
      if NeverPatches(cfg) {
        ReplayableWithoutPatches(cfg, h, steps, uid);
      } else {
        BoundedExactReplay(cfg, h, steps, uid);
      }
    }
  }

  /**
  Every run leaves rows that can be replayed if and only if nothing is ever recorded as a patch, or
  items start settled, acknowledgements are truthful and UIDs are non-empty and do not return.
  */
  lemma ReplayableExactly(cfg: Config, h: Hypotheses)
    requires Lawful(cfg.codec)
    ensures AlwaysReadable(cfg, h) <==> (h.settled && h.truthful && h.uids) || NeverPatches(cfg)
  {
    if (h.settled && h.truthful && h.uids) || NeverPatches(cfg) {
      forall steps | Exec(cfg, h, INIT, steps).Some? ensures !Unreadable(cfg, Exec(cfg, h, INIT, steps).value.rows) {
        ReadableWhenMet(cfg, h, steps);
      }
    } else {
      var a, b :| Patches(cfg, a, b);
      var run, s := UnreadableOtherwise(cfg, h, a, b);
    }
  }

  // ---------------------------------------------------------------- the patch count

  predicate AtRest(s: State) {
    s.jobs == [] && s.worker.Idle? && s.entry.Some?
  }

  /** At every settled point the entry's counter is what a reader folds, wherever its object is. */
  ghost predicate AlwaysCounts(cfg: Config, h: Hypotheses) {
    forall steps :: Exec(cfg, h, INIT, steps).Some? && AtRest(Exec(cfg, h, INIT, steps).value) ==>
      CountsExactly(cfg, Exec(cfg, h, INIT, steps).value)
  }

  /**
  Where changes are recorded as patches at all, the counter is exact for every entry if and only if
  items start settled, acknowledgements are truthful, UIDs are non-empty and do not return, and no
  claim is made while a write is outstanding.
  */
  lemma PatchCountExactly(cfg: Config, h: Hypotheses, a: Json, b: Json)
    requires Lawful(cfg.codec) && Patches(cfg, a, b)
    ensures AlwaysCounts(cfg, h) <==> h.settled && h.truthful && h.uids && h.clearGc
  {
    if h.settled && h.truthful && h.uids && h.clearGc {
      forall steps | Exec(cfg, h, INIT, steps).Some? && AtRest(Exec(cfg, h, INIT, steps).value)
        ensures CountsExactly(cfg, Exec(cfg, h, INIT, steps).value)
      {
        EveryPatchCountIsExact(cfg, h, steps);
      }
    } else if !(h.settled && h.truthful && h.uids) {
      var run, s := UnreadableOtherwise(cfg, h, a, b);
    } else {
      var run, s := SupersededCount(cfg, a);
      RunUnder(cfg, ALL.(clearGc := false), h, run, s);
    }
  }
}
