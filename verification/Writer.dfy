/**
The batched sink writer as a state machine: any number of Enqueue calls and other connection
users, a fixed pool of workers that batch, flush, isolate failing rows and run commit callbacks,
and the shutdown sequence, in every interleaving.
*/
module Writer {
  import opened Common

  /** One Enqueue call's job. */
  type Job = nat

  /** What a worker does with its batch. `settled` callbacks have run; `allOk` is the batch's verdict. */
  datatype Mode = Filling | Sending | Committing(settled: nat, allOk: bool)

  /** `armed` is the batch timer, `final` the flush after the queue was found closed. */
  datatype Worker = Worker(batch: seq<Job>, mode: Mode, armed: bool, final: bool, exited: bool)

  datatype Outcome = Outcome(job: Job, ok: bool)

  /** How far the shutdown sequence has come. */
  datatype Phase = Serving | Refusing | ChannelClosed | WorkersDone | ConnClosed

  datatype Limits = Limits(capacity: nat, batchMaxRows: nat)

  /**
  `inflight` are the calls past the closing check; `written` the jobs the database acknowledged and
  `blamed` those whose own one-row attempt failed.
  */
  datatype State = State(
    phase: Phase,
    inflight: set<Job>,
    accepted: set<Job>,
    refused: set<Job>,
    queue: seq<Job>,
    workers: seq<Worker>,
    commits: seq<Outcome>,
    otherUsers: nat,
    written: set<Job>,
    blamed: set<Job>)

  const IDLE_WORKER := Worker([], Filling, false, false, false)

  function Init(workers: nat): State {
    State(Serving, {}, {}, {}, [], seq(workers, _ => IDLE_WORKER), [], 0, {}, {})
  }

  datatype Step =
    | Call(job: Job)
    | Send(job: Job)
    | GiveUp(job: Job)
    | Receive(w: nat)
    | TimerFires(w: nat)
    | ReceiveClosed(w: nat)
    | SendBatch(w: nat, ok: bool)
    | Commit(w: nat, rowOk: bool)
    | OtherBegins
    | OtherEnds
    | BeginShutdown
    | CloseChannel
    | WorkersFinish
    | CloseConn

  predicate Closing(s: State) {
    !s.phase.Serving?
  }

  predicate Closed(s: State) {
    s.phase.ChannelClosed? || s.phase.WorkersDone? || s.phase.ConnClosed?
  }

  predicate Listening(s: State, w: nat) {
    w < |s.workers| && !s.workers[w].exited && s.workers[w].mode.Filling?
  }

  /** The guards are what blocks in the program: locks, channel operations and wait groups. */
  predicate Enabled(lim: Limits, s: State, step: Step) {
    match step
    case Call(job) => job !in s.inflight + s.accepted + s.refused
    case Send(job) => job in s.inflight && |s.queue| < lim.capacity
    case GiveUp(job) => job in s.inflight
    case Receive(w) => Listening(s, w) && s.queue != []
    case TimerFires(w) => Listening(s, w) && s.workers[w].armed
    case ReceiveClosed(w) => Listening(s, w) && s.queue == [] && Closed(s)
    case SendBatch(w, _) => w < |s.workers| && s.workers[w].mode.Sending?
    case Commit(w, _) =>
      w < |s.workers| && s.workers[w].mode.Committing? && s.workers[w].mode.settled < |s.workers[w].batch|
    case OtherBegins => true
    case OtherEnds => s.otherUsers > 0
    case BeginShutdown => s.phase.Serving?
    case CloseChannel => s.phase.Refusing? && s.inflight == {}
    case WorkersFinish => s.phase.ChannelClosed? && forall w :: 0 <= w < |s.workers| ==> s.workers[w].exited
    case CloseConn => s.phase.WorkersDone? && s.otherUsers == 0
  }

  /** The received job joins the batch; the first one arms the timer, the last one that fits flushes. */
  function Received(lim: Limits, w: Worker, job: Job): Worker {
    var batch := w.batch + [job];
    if |batch| >= lim.batchMaxRows then w.(batch := batch, mode := Sending, armed := false)
    else w.(batch := batch, armed := true)
  }

  function FoundClosed(w: Worker): Worker {
    if w.batch != [] then w.(mode := Sending, armed := false, final := true)
    else w.(armed := false, exited := true)
  }

  /** One callback has run; after the last one the batch is gone, and so is a worker that was on its final flush. */
  function Settled(w: Worker): Worker
    requires w.mode.Committing?
  {
    var n := w.mode.settled + 1;
    if n < |w.batch| then w.(mode := w.mode.(settled := n))
    else Worker([], Filling, false, w.final, w.final)
  }

  function JobsOf(batch: seq<Job>): set<Job> {
    set j | j in batch
  }

  function Next(lim: Limits, s: State, step: Step): State
    requires Enabled(lim, s, step)
  {
    match step
    case Call(job) =>
      if Closing(s) then s.(refused := s.refused + {job}) else s.(inflight := s.inflight + {job})
    case Send(job) =>
      s.(inflight := s.inflight - {job}, accepted := s.accepted + {job}, queue := s.queue + [job])
    case GiveUp(job) =>
      s.(inflight := s.inflight - {job}, refused := s.refused + {job})
    case Receive(w) =>
      s.(queue := s.queue[1..], workers := s.workers[w := Received(lim, s.workers[w], s.queue[0])])
    case TimerFires(w) =>
      s.(workers := s.workers[w := s.workers[w].(mode := Sending, armed := false)])
    case ReceiveClosed(w) =>
      s.(workers := s.workers[w := FoundClosed(s.workers[w])])
    case SendBatch(w, ok) =>
      s.(workers := s.workers[w := s.workers[w].(mode := Committing(0, ok))],
         written := if ok then s.written + JobsOf(s.workers[w].batch) else s.written)
    case Commit(w, rowOk) =>
      var k := s.workers[w];
      var job := k.batch[k.mode.settled];
      s.(workers := s.workers[w := Settled(k)],
         commits := s.commits + [Outcome(job, k.mode.allOk || rowOk)],
         written := if !k.mode.allOk && rowOk then s.written + {job} else s.written,
         blamed := if !k.mode.allOk && !rowOk then s.blamed + {job} else s.blamed)
    case OtherBegins => if Closing(s) then s else s.(otherUsers := s.otherUsers + 1)
    case OtherEnds => s.(otherUsers := s.otherUsers - 1)
    case BeginShutdown => s.(phase := Refusing)
    case CloseChannel => s.(phase := ChannelClosed)
    case WorkersFinish => s.(phase := WorkersDone)
    case CloseConn => s.(phase := ConnClosed)
  }

  // ---------------------------------------------------------------- counting

  function Count(xs: seq<Job>, j: Job): nat {
    if xs == [] then 0 else (if xs[0] == j then 1 else 0) + Count(xs[1..], j)
  }

  lemma {:induction false} CountAppend(xs: seq<Job>, x: Job, j: Job)
    ensures Count(xs + [x], j) == Count(xs, j) + if x == j then 1 else 0
  {
    if xs == [] {
      assert [] + [x] == [x];
    } else {
      CountAppend(xs[1..], x, j);
      assert (xs + [x])[1..] == xs[1..] + [x];
    }
  }

  /** The jobs of a batch whose callback has not run. */
  function Unsettled(w: Worker): seq<Job> {
    if w.mode.Committing? && w.mode.settled <= |w.batch| then w.batch[w.mode.settled..] else w.batch
  }

  function Held(ws: seq<Worker>, j: Job): nat {
    if ws == [] then 0 else Count(Unsettled(ws[0]), j) + Held(ws[1..], j)
  }

  lemma {:induction false} HeldUpdate(ws: seq<Worker>, i: nat, w: Worker, j: Job)
    requires i < |ws|
    ensures Held(ws[i := w], j) == Held(ws, j) - Count(Unsettled(ws[i]), j) + Count(Unsettled(w), j)
    ensures Held(ws, j) >= Count(Unsettled(ws[i]), j)
  {
    if i > 0 {
      HeldUpdate(ws[1..], i - 1, w, j);
      assert ws[i := w][1..] == ws[1..][i - 1 := w];
    } else {
      assert ws[i := w][1..] == ws[1..];
    }
  }

  lemma {:induction false} NoneHeld(ws: seq<Worker>, j: Job)
    requires forall i :: 0 <= i < |ws| ==> ws[i].batch == []
    ensures Held(ws, j) == 0
  {
    if ws != [] {
      NoneHeld(ws[1..], j);
    }
  }

  function Fired(commits: seq<Outcome>, j: Job): nat {
    if commits == [] then 0
    else Fired(commits[..|commits| - 1], j) + if commits[|commits| - 1].job == j then 1 else 0
  }

  lemma FiredMore(commits: seq<Outcome>, o: Outcome, j: Job)
    ensures Fired(commits + [o], j) == Fired(commits, j) + if o.job == j then 1 else 0
  {
    assert (commits + [o])[..|commits|] == commits;
  }

  // ---------------------------------------------------------------- the invariant

  /** Every job is where it belongs: an accepted one queued, batched or settled, exactly once. */
  predicate ConservedAt(s: State, j: Job) {
    Count(s.queue, j) + Held(s.workers, j) + Fired(s.commits, j) == if j in s.accepted then 1 else 0
  }

  predicate WorkerOk(lim: Limits, s: State, w: Worker) {
    && (w.mode.Filling? ==> (w.armed <==> w.batch != []) && |w.batch| < lim.batchMaxRows)
    && (!w.mode.Filling? ==> w.batch != [] && !w.armed && !w.exited && |w.batch| <= lim.batchMaxRows)
    && (w.mode.Committing? ==> w.mode.settled < |w.batch|)
    && (w.exited ==> w.batch == [])
    && (w.exited || w.final ==> Closed(s) && s.queue == [])
  }

  predicate Orderly(lim: Limits, s: State) {
    && s.inflight !! s.accepted && s.inflight !! s.refused && s.accepted !! s.refused
    && (Closed(s) ==> s.inflight == {})
    && (forall i :: 0 <= i < |s.workers| ==> WorkerOk(lim, s, s.workers[i]))
    && (s.phase.WorkersDone? || s.phase.ConnClosed? ==> forall i :: 0 <= i < |s.workers| ==> s.workers[i].exited)
    && (s.phase.ConnClosed? ==> s.otherUsers == 0)
    && (s.workers == [] ==> s.commits == [])
  }

  /** A callback reports a row as written only if it was, and as failed only if it failed on its own. */
  predicate Truthful(s: State) {
    && (forall o :: o in s.commits ==> if o.ok then o.job in s.written else o.job in s.blamed)
    && (forall i :: 0 <= i < |s.workers| && s.workers[i].mode.Committing? && s.workers[i].mode.allOk ==>
          JobsOf(s.workers[i].batch) <= s.written)
  }

  ghost predicate Inv(lim: Limits, s: State) {
    Orderly(lim, s) && Truthful(s) && forall j :: ConservedAt(s, j)
  }

  lemma TruthfulStep(lim: Limits, s: State, step: Step)
    requires Truthful(s) && Enabled(lim, s, step)
    ensures Truthful(Next(lim, s, step))
  {
    if step.Commit? {
      var k := s.workers[step.w];
      assert k.batch[k.mode.settled] in JobsOf(k.batch);
    }
  }

  /** A step on behalf of worker `w` leaves the other workers as they were. */
  lemma OtherWorkersOk(lim: Limits, s: State, t: State, w: nat)
    requires w < |s.workers| == |t.workers| && t.workers == s.workers[w := t.workers[w]]
    requires forall i :: 0 <= i < |s.workers| ==> WorkerOk(lim, s, s.workers[i])
    requires Closed(s) == Closed(t) && (s.queue == [] ==> t.queue == []) && WorkerOk(lim, t, t.workers[w])
    ensures forall i :: 0 <= i < |t.workers| ==> WorkerOk(lim, t, t.workers[i])
  {
    forall i | 0 <= i < |t.workers| ensures WorkerOk(lim, t, t.workers[i]) {
      assert WorkerOk(lim, s, s.workers[i]);
      assert i != w ==> t.workers[i] == s.workers[i];
    }
  }

  predicate ByWorker(step: Step) {
    step.Receive? || step.TimerFires? || step.ReceiveClosed? || step.SendBatch? || step.Commit?
  }

  lemma OrderlyWorker(lim: Limits, s: State, step: Step)
    requires lim.batchMaxRows > 0 && Orderly(lim, s) && Enabled(lim, s, step) && ByWorker(step)
    ensures Orderly(lim, Next(lim, s, step))
  {
    var t := Next(lim, s, step);
    assert WorkerOk(lim, s, s.workers[step.w]);
    OtherWorkersOk(lim, s, t, step.w);
  }

  lemma OrderlyStep(lim: Limits, s: State, step: Step)
    requires lim.batchMaxRows > 0 && Orderly(lim, s) && Enabled(lim, s, step)
    ensures Orderly(lim, Next(lim, s, step))
  {
    if ByWorker(step) {
      OrderlyWorker(lim, s, step);
    } else {
      var t := Next(lim, s, step);
      forall i | 0 <= i < |t.workers| ensures WorkerOk(lim, t, t.workers[i]) {
        assert WorkerOk(lim, s, s.workers[i]);
      }
    }
  }

  lemma ConservedSend(lim: Limits, s: State, job: Job, j: Job)
    requires Orderly(lim, s) && Enabled(lim, s, Send(job)) && ConservedAt(s, j)
    ensures ConservedAt(Next(lim, s, Send(job)), j)
  {
    CountAppend(s.queue, job, j);
  }

  lemma ConservedReceive(lim: Limits, s: State, w: nat, j: Job)
    requires Orderly(lim, s) && Enabled(lim, s, Receive(w)) && ConservedAt(s, j)
    ensures ConservedAt(Next(lim, s, Receive(w)), j)
  {
    var k := Received(lim, s.workers[w], s.queue[0]);
    HeldUpdate(s.workers, w, k, j);
    CountAppend(s.workers[w].batch, s.queue[0], j);
  }

  /** A worker that changes mode without settling anything holds the same jobs. */
  lemma ConservedMode(s: State, t: State, w: nat, j: Job)
    requires w < |s.workers| == |t.workers|
    requires t == s.(workers := s.workers[w := t.workers[w]], written := t.written)
    requires Unsettled(t.workers[w]) == Unsettled(s.workers[w]) && ConservedAt(s, j)
    ensures ConservedAt(t, j)
  {
    HeldUpdate(s.workers, w, t.workers[w], j);
  }

  lemma ConservedCommit(lim: Limits, s: State, w: nat, rowOk: bool, j: Job)
    requires Enabled(lim, s, Commit(w, rowOk)) && ConservedAt(s, j)
    ensures ConservedAt(Next(lim, s, Commit(w, rowOk)), j)
  {
    var k, t := s.workers[w], Next(lim, s, Commit(w, rowOk));
    HeldUpdate(s.workers, w, Settled(k), j);
    UnsettledShrinks(k, j);
    FiredMore(s.commits, Outcome(k.batch[k.mode.settled], k.mode.allOk || rowOk), j);
  }

  lemma ConservedStep(lim: Limits, s: State, step: Step, j: Job)
    requires lim.batchMaxRows > 0 && Orderly(lim, s) && Enabled(lim, s, step) && ConservedAt(s, j)
    ensures ConservedAt(Next(lim, s, step), j)
  {
    match step
    case Send(job) => ConservedSend(lim, s, job, j);
    case Receive(w) => ConservedReceive(lim, s, w, j);
    case TimerFires(w) => ConservedMode(s, Next(lim, s, step), w, j);
    case ReceiveClosed(w) => ConservedMode(s, Next(lim, s, step), w, j);
    case SendBatch(w, _) =>
      assert s.workers[w].batch[0..] == s.workers[w].batch;
      ConservedMode(s, Next(lim, s, step), w, j);
    case Commit(w, rowOk) => ConservedCommit(lim, s, w, rowOk, j);
    case _ =>
  }

  lemma UnsettledShrinks(w: Worker, j: Job)
    requires w.mode.Committing? && w.mode.settled < |w.batch|
    ensures Count(Unsettled(w), j) == Count(Unsettled(Settled(w)), j) + if w.batch[w.mode.settled] == j then 1 else 0
  {
    var n := w.mode.settled;
    assert w.batch[n..][1..] == w.batch[n + 1..];
  }

  function Run(lim: Limits, s: State, steps: seq<Step>): Option<State>
    decreases steps
  {
    if steps == [] then Some(s)
    else if Enabled(lim, s, steps[0]) then Run(lim, Next(lim, s, steps[0]), steps[1..])
    else None
  }

  lemma {:induction false} InvInEveryRun(lim: Limits, s: State, steps: seq<Step>)
    requires lim.batchMaxRows > 0 && Inv(lim, s) && Run(lim, s, steps).Some?
    ensures Inv(lim, Run(lim, s, steps).value)
    decreases steps
  {
    if steps != [] {
      OrderlyStep(lim, s, steps[0]);
      TruthfulStep(lim, s, steps[0]);
      forall j ensures ConservedAt(Next(lim, s, steps[0]), j) {
        ConservedStep(lim, s, steps[0], j);
      }
      InvInEveryRun(lim, Next(lim, s, steps[0]), steps[1..]);
    }
  }

  lemma InitInv(lim: Limits, workers: nat)
    requires lim.batchMaxRows > 0
    ensures Inv(lim, Init(workers))
  {
    forall j ensures ConservedAt(Init(workers), j) {
      NoneHeld(Init(workers).workers, j);
    }
  }

  /**
  In every interleaving a callback runs at most once, only for an accepted job, and no send is
  possible once the channel is closed.
  */
  lemma CallbacksAtMostOnce(lim: Limits, workers: nat, steps: seq<Step>)
    requires lim.batchMaxRows > 0 && Run(lim, Init(workers), steps).Some?
    ensures
      var s := Run(lim, Init(workers), steps).value;
      && (forall j :: Fired(s.commits, j) <= if j in s.accepted then 1 else 0)
      && (forall j :: j in s.refused ==> Fired(s.commits, j) == 0)
      && (forall o :: o in s.commits ==> if o.ok then o.job in s.written else o.job in s.blamed)
      && (forall j :: Closed(s) ==> !Enabled(lim, s, Send(j)))
  {
    InitInv(lim, workers);
    InvInEveryRun(lim, Init(workers), steps);
    var s := Run(lim, Init(workers), steps).value;
    forall j ensures Fired(s.commits, j) <= if j in s.accepted then 1 else 0 {
      assert ConservedAt(s, j);
    }
  }

  /**
  When Start returns, every accepted job's callback has run exactly once, nothing is left in the
  queue or in a batch, and nobody holds or can obtain the closed connection.
  */
  lemma CleanShutdown(lim: Limits, workers: nat, steps: seq<Step>)
    requires lim.batchMaxRows > 0 && workers > 0
    requires Run(lim, Init(workers), steps).Some? && Run(lim, Init(workers), steps).value.phase.ConnClosed?
    ensures
      var s := Run(lim, Init(workers), steps).value;
      && (forall j :: Fired(s.commits, j) == if j in s.accepted then 1 else 0)
      && s.queue == [] && s.inflight == {} && s.otherUsers == 0
      && (forall i :: 0 <= i < |s.workers| ==> s.workers[i].exited && s.workers[i].batch == [])
      && (forall step :: Enabled(lim, s, step) ==> step.Call? || step.OtherBegins?)
      && (forall step :: Enabled(lim, s, step) ==>
            Next(lim, s, step).otherUsers == 0 && Next(lim, s, step).accepted == s.accepted)
  {
    InitInv(lim, workers);
    InvInEveryRun(lim, Init(workers), steps);
    PoolSize(lim, Init(workers), steps);
    var s := Run(lim, Init(workers), steps).value;
    assert WorkerOk(lim, s, s.workers[0]);
    forall j ensures Fired(s.commits, j) == if j in s.accepted then 1 else 0 {
      assert ConservedAt(s, j);
      NoneHeld(s.workers, j);
    }
  }

  lemma {:induction false} PoolSize(lim: Limits, s: State, steps: seq<Step>)
    requires Run(lim, s, steps).Some?
    ensures |Run(lim, s, steps).value.workers| == |s.workers|
    decreases steps
  {
    if steps != [] {
      PoolSize(lim, Next(lim, s, steps[0]), steps[1..]);
    }
  }

  // ---------------------------------------------------------------- shutdown can finish

  /** How much a worker still has to do once the queue is closed and empty. */
  function Work(w: Worker): nat {
    if w.exited then 0
    else
      var rest := if w.final then 0 else 1;
      match w.mode
      case Filling => if w.batch == [] then 1 else |w.batch| + 3
      case Sending => |w.batch| + 2 + rest
      case Committing(settled, _) => if settled <= |w.batch| then |w.batch| - settled + 1 + rest else 0
  }

  function WorkLeft(ws: seq<Worker>): nat {
    if ws == [] then 0 else Work(ws[0]) + WorkLeft(ws[1..])
  }

  lemma {:induction false} WorkUpdate(ws: seq<Worker>, i: nat, w: Worker)
    requires i < |ws|
    ensures WorkLeft(ws[i := w]) == WorkLeft(ws) - Work(ws[i]) + Work(w)
  {
    if i > 0 {
      WorkUpdate(ws[1..], i - 1, w);
      assert ws[i := w][1..] == ws[1..][i - 1 := w];
    } else {
      assert ws[i := w][1..] == ws[1..];
    }
  }

  function PhaseRank(p: Phase): nat {
    match p
    case Serving => 4
    case Refusing => 3
    case ChannelClosed => 2
    case WorkersDone => 1
    case ConnClosed => 0
  }

  /** What the worker does next when nothing stands in its way. */
  function WorkerMove(s: State, w: nat): Step
    requires w < |s.workers|
  {
    match s.workers[w].mode
    case Filling => if s.queue != [] then Receive(w) else ReceiveClosed(w)
    case Sending => SendBatch(w, true)
    case Committing(_, _) => Commit(w, true)
  }

  /** Once the channel is closed every busy worker can move, and moving brings the end nearer. */
  lemma WorkerMoves(lim: Limits, s: State, w: nat)
    requires lim.batchMaxRows > 0 && Orderly(lim, s) && s.phase.ChannelClosed? && w < |s.workers|
    requires !s.workers[w].exited
    ensures Enabled(lim, s, WorkerMove(s, w))
    ensures var t := Next(lim, s, WorkerMove(s, w));
      && t.phase == s.phase && t.inflight == s.inflight
      && (|t.queue| < |s.queue| || (t.queue == s.queue && WorkLeft(t.workers) < WorkLeft(s.workers)))
  {
    assert WorkerOk(lim, s, s.workers[w]);
    var t := Next(lim, s, WorkerMove(s, w));
    WorkUpdate(s.workers, w, t.workers[w]);
  }

  /**
  From every state of an interrupted writer some finite run closes the connection: no combination of
  blocked callers, half-filled batches and busy users is a dead end.
  */
  lemma {:induction false} ShutdownCanFinish(lim: Limits, s: State) returns (steps: seq<Step>)
    requires lim.batchMaxRows > 0 && Orderly(lim, s) && Closing(s)
    ensures Run(lim, s, steps).Some? && Run(lim, s, steps).value.phase.ConnClosed?
    decreases |s.inflight|, |s.queue|, WorkLeft(s.workers), PhaseRank(s.phase), s.otherUsers
  {
    if s.phase.ConnClosed? {
      return [];
    }
    var step;
    if s.inflight != {} {
      var job :| job in s.inflight;
      step := GiveUp(job);
    } else if s.phase.Refusing? {
      step := CloseChannel;
    } else if w :| 0 <= w < |s.workers| && !s.workers[w].exited {
      WorkerMoves(lim, s, w);
      step := WorkerMove(s, w);
    } else if s.phase.ChannelClosed? {
      step := WorkersFinish;
    } else {
      step := if s.otherUsers > 0 then OtherEnds else CloseConn;
    }
    OrderlyStep(lim, s, step);
    var rest := ShutdownCanFinish(lim, Next(lim, s, step));
    steps := [step] + rest;
    assert steps[1..] == rest;
  }

  /** So every run of the writer, wherever it was interrupted, can be brought to a clean end. */
  lemma EveryRunCanShutDown(lim: Limits, workers: nat, steps: seq<Step>) returns (more: seq<Step>)
    requires lim.batchMaxRows > 0 && Run(lim, Init(workers), steps).Some?
    ensures var s := Run(lim, Init(workers), steps).value;
      Run(lim, s, more).Some? && Run(lim, s, more).value.phase.ConnClosed?
  {
    InitInv(lim, workers);
    InvInEveryRun(lim, Init(workers), steps);
    var s := Run(lim, Init(workers), steps).value;
    if Closing(s) {
      more := ShutdownCanFinish(lim, s);
    } else {
      OrderlyStep(lim, s, BeginShutdown);
      var rest := ShutdownCanFinish(lim, Next(lim, s, BeginShutdown));
      more := [BeginShutdown] + rest;
      assert more[1..] == rest;
    }
  }

  // ---------------------------------------------------------------- a serving writer serves

  /** With room in the queue a serving writer takes any new job, at its end. */
  lemma ServingAccepts(lim: Limits, s: State, j: Job)
    requires s.phase.Serving? && j !in s.inflight + s.accepted + s.refused && |s.queue| < lim.capacity
    ensures Run(lim, s, [Call(j), Send(j)]).Some?
    ensures var t := Run(lim, s, [Call(j), Send(j)]).value;
      && t.accepted == s.accepted + {j} && t.queue == s.queue + [j] && t.refused == s.refused
      && t.phase == s.phase && t.workers == s.workers && t.commits == s.commits && t.inflight == s.inflight
  {
    var t := Next(lim, s, Call(j));
    assert [Call(j), Send(j)][1..] == [Send(j)];
    assert Run(lim, t, [Send(j)]) == Run(lim, Next(lim, t, Send(j)), []);
  }

  /** A serving writer lends its connection to anyone; once it is closing, to nobody new. */
  lemma ConnectionIsLent(lim: Limits, s: State)
    ensures Enabled(lim, s, OtherBegins)
    ensures Next(lim, s, OtherBegins).otherUsers == s.otherUsers + if s.phase.Serving? then 1 else 0
    ensures s.phase.Serving? ==> Run(lim, s, [OtherBegins, OtherEnds]) == Some(s)
  {
    assert [OtherBegins, OtherEnds][1..] == [OtherEnds];
    assert s.phase.Serving? ==>
      Run(lim, Next(lim, s, OtherBegins), [OtherEnds]) == Run(lim, Next(lim, Next(lim, s, OtherBegins), OtherEnds), []);
  }

  /** What a worker of a serving writer can do next without waiting for more jobs. */
  function ServingMove(s: State, w: nat): Step
    requires w < |s.workers|
  {
    match s.workers[w].mode
    case Filling => if s.queue != [] then Receive(w) else TimerFires(w)
    case Sending => SendBatch(w, true)
    case Committing(_, _) => Commit(w, true)
  }

  predicate Resting(w: Worker) {
    w.mode.Filling? && w.batch == []
  }

  /** How far a worker is from rest if nothing more arrives. */
  function Ahead(w: Worker): nat {
    match w.mode
    case Filling => if w.batch == [] then 0 else |w.batch| + 3
    case Sending => |w.batch| + 2
    case Committing(settled, _) => if settled <= |w.batch| then |w.batch| - settled + 1 else 0
  }

  lemma ServingMoves(lim: Limits, s: State, w: nat)
    requires lim.batchMaxRows > 0 && Orderly(lim, s) && s.phase.Serving? && w < |s.workers|
    requires s.queue != [] || !Resting(s.workers[w])
    ensures Enabled(lim, s, ServingMove(s, w))
    ensures var t := Next(lim, s, ServingMove(s, w));
      && Orderly(lim, t) && t.phase.Serving? && |t.workers| == |s.workers|
      && t.inflight == s.inflight && t.accepted == s.accepted && t.refused == s.refused
      && (|t.queue| < |s.queue| || (t.queue == s.queue && Ahead(t.workers[w]) < Ahead(s.workers[w])))
  {
    assert WorkerOk(lim, s, s.workers[w]);
    OrderlyStep(lim, s, ServingMove(s, w));
  }

  /** A worker on its own brings the writer to an empty queue and itself to rest. */
  lemma {:induction false} Drains(lim: Limits, s: State, w: nat) returns (steps: seq<Step>, t: State)
    requires lim.batchMaxRows > 0 && Orderly(lim, s) && s.phase.Serving? && w < |s.workers|
    ensures Run(lim, s, steps) == Some(t) && Orderly(lim, t) && t.phase.Serving? && |t.workers| == |s.workers|
    ensures t.queue == [] && Resting(t.workers[w])
    ensures t.inflight == s.inflight && t.accepted == s.accepted && t.refused == s.refused
    decreases |s.queue|, Ahead(s.workers[w])
  {
    if s.queue == [] && Resting(s.workers[w]) {
      return [], s;
    }
    var step := ServingMove(s, w);
    ServingMoves(lim, s, w);
    var rest;
    rest, t := Drains(lim, Next(lim, s, step), w);
    steps := [step] + rest;
    assert steps[1..] == rest;
  }

  lemma {:induction false} RunAppend(lim: Limits, s: State, steps: seq<Step>, step: Step)
    requires Run(lim, s, steps).Some? && Enabled(lim, Run(lim, s, steps).value, step)
    ensures Run(lim, s, steps + [step]) == Some(Next(lim, Run(lim, s, steps).value, step))
    decreases steps
  {
    if steps == [] {
      assert [] + [step] == [step];
    } else {
      RunAppend(lim, Next(lim, s, steps[0]), steps[1..], step);
      assert (steps + [step])[1..] == steps[1..] + [step];
    }
  }

  lemma {:induction false} RunJoin(lim: Limits, s: State, a: seq<Step>, b: seq<Step>)
    requires Run(lim, s, a).Some?
    ensures Run(lim, s, a + b) == Run(lim, Run(lim, s, a).value, b)
    decreases a
  {
    if a == [] {
      assert a + b == b;
    } else {
      RunJoin(lim, Next(lim, s, a[0]), a[1..], b);
      assert (a + b)[1..] == a[1..] + b;
    }
  }

  /** A resting worker takes the one job there is and is ready to flush it. */
  lemma TakesOne(lim: Limits, s: State, w: nat, j: Job) returns (steps: seq<Step>, t: State)
    requires lim.batchMaxRows > 0 && w < |s.workers| && Resting(s.workers[w]) && !s.workers[w].exited && s.queue == [j]
    ensures Run(lim, s, steps) == Some(t)
    ensures w < |t.workers| && t.workers[w].mode.Sending? && t.workers[w].batch == [j]
  {
    t := Next(lim, s, Receive(w));
    assert t.workers[w].batch == [j];
    steps := [Receive(w)];
    assert Run(lim, s, steps) == Run(lim, t, []);
    if t.workers[w].mode.Filling? {
      RunAppend(lim, s, steps, TimerFires(w));
      steps := steps + [TimerFires(w)];
      t := Next(lim, t, TimerFires(w));
    }
  }

  /** Its callback reports success. */
  lemma FlushesOne(lim: Limits, s: State, w: nat, j: Job)
    requires w < |s.workers| && s.workers[w].mode.Sending? && s.workers[w].batch == [j]
    ensures Run(lim, s, [SendBatch(w, true), Commit(w, true)]).Some?
    ensures var t := Run(lim, s, [SendBatch(w, true), Commit(w, true)]).value;
      t.commits == s.commits + [Outcome(j, true)] && t.written == s.written + {j}
  {
    var steps := [SendBatch(w, true), Commit(w, true)];
    var t := Next(lim, s, SendBatch(w, true));
    assert steps[1..] == [Commit(w, true)];
    assert Run(lim, t, [Commit(w, true)]) == Run(lim, Next(lim, t, Commit(w, true)), []);
    assert JobsOf([j]) == {j};
  }

  lemma WritesOne(lim: Limits, s: State, w: nat, j: Job) returns (steps: seq<Step>)
    requires lim.batchMaxRows > 0 && w < |s.workers| && Resting(s.workers[w]) && !s.workers[w].exited && s.queue == [j]
    ensures Run(lim, s, steps).Some?
    ensures var t := Run(lim, s, steps).value; Outcome(j, true) in t.commits && j in t.written
  {
    var take, t := TakesOne(lim, s, w, j);
    var flush := [SendBatch(w, true), Commit(w, true)];
    FlushesOne(lim, t, w, j);
    RunJoin(lim, s, take, flush);
    steps := take + flush;
  }

  /**
  From every state of a serving writer with a worker and any room at all, a new job can be accepted,
  written and reported as written: no run wears the writer out.
  */
  lemma EveryJobCanBeWritten(lim: Limits, workers: nat, steps: seq<Step>, j: Job) returns (more: seq<Step>)
    requires lim.batchMaxRows > 0 && lim.capacity > 0 && workers > 0
    requires Run(lim, Init(workers), steps).Some?
    requires var s := Run(lim, Init(workers), steps).value;
      s.phase.Serving? && j !in s.inflight + s.accepted + s.refused
    ensures var s := Run(lim, Init(workers), steps).value;
      && Run(lim, s, more).Some?
      && var t := Run(lim, s, more).value;
         j in t.accepted && Outcome(j, true) in t.commits && j in t.written
  {
    InitInv(lim, workers);
    InvInEveryRun(lim, Init(workers), steps);
    PoolSize(lim, Init(workers), steps);
    var s := Run(lim, Init(workers), steps).value;
    var drain, t := Drains(lim, s, 0);
    ServingAccepts(lim, t, j);
    var hand := [Call(j), Send(j)];
    var u := Run(lim, t, hand).value;
    assert WorkerOk(lim, t, t.workers[0]);
    var write := WritesOne(lim, u, 0, j);
    RunJoin(lim, s, drain, hand + write);
    RunJoin(lim, t, hand, write);
    AcceptedStays(lim, u, write, j);
    more := drain + (hand + write);
  }

  lemma {:induction false} AcceptedStays(lim: Limits, s: State, steps: seq<Step>, j: Job)
    requires Run(lim, s, steps).Some? && j in s.accepted
    ensures j in Run(lim, s, steps).value.accepted
    decreases steps
  {
    if steps != [] {
      AcceptedStays(lim, Next(lim, s, steps[0]), steps[1..], j);
    }
  }

  /** Step `i` turned the job away: its caller gave up, or it called after shutdown had begun. */
  ghost predicate TurnedAway(lim: Limits, s: State, steps: seq<Step>, i: nat, j: Job)
    requires i < |steps|
  {
    || steps[i] == GiveUp(j)
    || (steps[i] == Call(j) && Run(lim, s, steps[..i]).Some? && Closing(Run(lim, s, steps[..i]).value))
  }

  /** No job is refused for any other reason. */
  lemma {:induction false} RefusedForAReason(lim: Limits, s: State, steps: seq<Step>, j: Job) returns (i: nat)
    requires Run(lim, s, steps).Some? && j !in s.refused && j in Run(lim, s, steps).value.refused
    ensures i < |steps| && TurnedAway(lim, s, steps, i, j)
    decreases steps
  {
    var t := Next(lim, s, steps[0]);
    if j in t.refused {
      assert steps[..0] == [];
      i := 0;
    } else {
      var k := RefusedForAReason(lim, t, steps[1..], j);
      i := k + 1;
      assert steps[..i][1..] == steps[1..][..k];
    }
  }

  // ---------------------------------------------------------------- flushing

  /**
  Flushes one batch: all callbacks succeed if the batch went through, otherwise each row is tried
  once on its own. It is the machine's SendBatch followed by one Commit per job, in order.
  */
  method FlushBatch(batch: seq<Job>, sent: bool, rowOks: seq<bool>, ghost lim: Limits, ghost s: State, ghost w: nat)
    returns (outcomes: seq<Outcome>, ghost steps: seq<Step>)
    requires |rowOks| == |batch| && batch != []
    requires w < |s.workers| && s.workers[w].mode.Sending? && s.workers[w].batch == batch
    ensures |outcomes| == |batch|
    ensures forall i :: 0 <= i < |batch| ==> outcomes[i] == Outcome(batch[i], sent || rowOks[i])
    ensures Run(lim, s, steps).Some?
    ensures Run(lim, s, steps).value.commits == s.commits + outcomes
    ensures Run(lim, s, steps).value.workers ==
      s.workers[w := Worker([], Filling, false, s.workers[w].final, s.workers[w].final)]
  {
    outcomes := [];
    steps := [];
    RunAppend(lim, s, [], SendBatch(w, sent));
    steps := [] + [SendBatch(w, sent)];
    ghost var t := Next(lim, s, SendBatch(w, sent));
    var i := 0;
    while i < |batch|
      invariant i <= |batch| && |outcomes| == i
      invariant forall k :: 0 <= k < i ==> outcomes[k] == Outcome(batch[k], sent || rowOks[k])
      invariant Run(lim, s, steps) == Some(t) && t.commits == s.commits + outcomes
      invariant |t.workers| == |s.workers| && t.workers == s.workers[w := t.workers[w]]
      invariant i < |batch| ==> t.workers[w] == s.workers[w].(mode := Committing(i, sent))
      invariant i == |batch| ==> t.workers[w] == Worker([], Filling, false, s.workers[w].final, s.workers[w].final)
    {
      ghost var step := Commit(w, rowOks[i]);
      RunAppend(lim, s, steps, step);
      steps := steps + [step];
      t := Next(lim, t, step);
      outcomes := outcomes + [Outcome(batch[i], sent || rowOks[i])];
      i := i + 1;
    }
  }
}
