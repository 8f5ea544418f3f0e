/**
From desired targets to scope epochs: a reconcile pass installs the interests, stops and starts
informers, and reports edges to the recorder, which writes one Started or Stopped event per edge
of a (sink, scope) pair. Over every sequence of passes the events of a scope alternate.
*/
module Epochs {
  import opened Common
  import opened Identity
  import opened Registry

  datatype InformerKey = InformerKey(gvr: string, namespace: string)

  datatype InterestId = InterestId(informer: InformerKey, sink: string)

  datatype Interest = Interest(informer: InformerKey, gvk: Gvk, sink: string)

  /** One sink's view of one scope: what an epoch is about. */
  datatype Epoch = Epoch(sink: string, scope: ScopeKey)

  datatype Action = Started | Stopped

  datatype Event = Event(epoch: Epoch, action: Action, version: string, at: nat)

  function IdOf(i: Interest): InterestId {
    InterestId(i.informer, i.sink)
  }

  function EpochOf(i: Interest): Epoch {
    Epoch(i.sink, ScopeKey(i.gvk.group, i.gvk.kind, i.informer.namespace))
  }

  // ---------------------------------------------------------------- the log of one scope

  function LogOf(log: seq<Event>, e: Epoch): seq<Action> {
    if log == [] then []
    else
      var last := log[|log| - 1];
      LogOf(log[..|log| - 1], e) + if last.epoch == e then [last.action] else []
  }

  predicate Alternates(actions: seq<Action>) {
    forall i :: 0 <= i < |actions| ==> actions[i] == if i % 2 == 0 then Started else Stopped
  }

  predicate Open(actions: seq<Action>) {
    |actions| % 2 == 1
  }

  lemma LogGrows(log: seq<Event>, x: Event, e: Epoch)
    ensures LogOf(log + [x], e) == LogOf(log, e) + if x.epoch == e then [x.action] else []
  {
    assert (log + [x])[..|log|] == log;
  }

  // ---------------------------------------------------------------- the recorder

  function ActiveAt(active: map<Epoch, set<InformerKey>>, e: Epoch): set<InformerKey> {
    if e in active then active[e] else {}
  }

  /** Every scope's events alternate from Started, and end open exactly for the active scopes. */
  ghost predicate Tells(log: seq<Event>, active: map<Epoch, set<InformerKey>>) {
    && (forall e :: e in active ==> active[e] != {})
    && (forall e :: Alternates(LogOf(log, e)) && (Open(LogOf(log, e)) <==> e in active))
  }

  lemma TellsStart(log: seq<Event>, active: map<Epoch, set<InformerKey>>, x: Event, targets: set<InformerKey>)
    requires Tells(log, active) && x.action == Started && x.epoch !in active && targets != {}
    ensures Tells(log + [x], active[x.epoch := targets])
  {
    forall e
      ensures Alternates(LogOf(log + [x], e)) && (Open(LogOf(log + [x], e)) <==> e in active[x.epoch := targets])
    {
      LogGrows(log, x, e);
    }
  }

  lemma TellsStop(log: seq<Event>, active: map<Epoch, set<InformerKey>>, x: Event)
    requires Tells(log, active) && x.action == Stopped && x.epoch in active
    ensures Tells(log + [x], active - {x.epoch})
  {
    forall e ensures Alternates(LogOf(log + [x], e)) && (Open(LogOf(log + [x], e)) <==> e in active - {x.epoch}) {
      LogGrows(log, x, e);
    }
  }

  lemma TellsSame(log: seq<Event>, active: map<Epoch, set<InformerKey>>, e: Epoch, targets: set<InformerKey>)
    requires Tells(log, active) && e in active && targets != {}
    ensures Tells(log, active[e := targets])
  {
  }

  lemma FirstTarget(targets: set<InformerKey>, informer: InformerKey)
    ensures informer !in targets && |targets + {informer}| == 1 <==> targets == {}
  {
    if informer !in targets {
      assert |targets + {informer}| == |targets| + 1;
    }
  }

  lemma MoveOne(before: seq<Event>, all: seq<Event>, n: nat)
    requires n < |all|
    ensures all[n..][0] == all[n] && all[n..][1..] == all[n + 1..]
    ensures before + all[..n] + [all[n]] == before + all[..n + 1]
  {
    assert all[..n + 1] == all[..n] + [all[n]];
  }

  /** Where the flush loop is with the head of the queue. */
  datatype Flight = Resting | Peeked(next: Event) | Accepted(next: Event)

  class ScopeRecorder {
    var active: map<Epoch, set<InformerKey>>
    var pending: seq<Event>
    var dropped: nat
    const queueLimit: nat
    var flight: Flight
    /** Everything ever enqueued, everything a sink accepted, and how many left the queue either way. */
    ghost var log: seq<Event>
    ghost var handed: seq<Event>
    ghost var popped: nat
    ghost var lost: nat

    constructor (limit: nat)
      requires limit > 0
      ensures Valid() && active == map[] && log == [] && handed == [] && queueLimit == limit
    {
      queueLimit := limit;
      active, pending, dropped, flight := map[], [], 0, Resting;
      log, handed, popped, lost := [], [], 0, 0;
    }

    /** The queue is the youngest part of the log; if nothing was dropped, sinks were given the rest in order. */
    ghost predicate Queued()
      reads this
    {
      && lost + popped + |pending| == |log|
      && pending == log[lost + popped..]
      && |pending| <= queueLimit
      && (lost == 0 && !flight.Resting? ==> pending != [] && flight.next == pending[0])
      && (lost == 0 ==> handed == log[..popped] + if flight.Accepted? then [flight.next] else [])
    }

    ghost predicate Valid()
      reads this
    {
      Queued() && Tells(log, active)
    }

    /** Appends an event, dropping the oldest ones over the limit. */
    method EnqueueEvent(event: Event)
      requires Queued() && queueLimit > 0
      modifies this`pending, this`dropped, this`log, this`lost
      ensures Queued() && log == old(log) + [event]
      ensures lost - old(lost) == dropped - old(dropped) == if |old(pending)| == queueLimit then 1 else 0
    {
      pending := pending + [event];
      log := log + [event];
      var overflow := |pending| - queueLimit;
      if overflow > 0 {
        pending := pending[overflow..];
        dropped := dropped + overflow;
        lost := lost + overflow;
      }
    }

    method ScopeStarted(interest: Interest, at: nat)
      requires Valid() && queueLimit > 0
      modifies this`active, this`pending, this`dropped, this`log, this`lost
      ensures Valid()
      ensures active == old(active)[EpochOf(interest) := ActiveAt(old(active), EpochOf(interest)) + {interest.informer}]
      ensures log == old(log) +
        if EpochOf(interest) in old(active) then [] else [Event(EpochOf(interest), Started, interest.gvk.version, at)]
    {
      var epoch := EpochOf(interest);
      var targets := ActiveAt(active, epoch);
      var held := interest.informer in targets;
      var first := !held && |targets + {interest.informer}| == 1;
      FirstTarget(targets, interest.informer);
      if first {
        var event := Event(epoch, Started, interest.gvk.version, at);
        TellsStart(log, active, event, targets + {interest.informer});
        EnqueueEvent(event);
      } else {
        TellsSame(log, active, epoch, targets + {interest.informer});
      }
      active := active[epoch := targets + {interest.informer}];
    }

    /** The scope's last target is gone. */
    method EndEpoch(event: Event)
      requires Valid() && queueLimit > 0 && event.action == Stopped && event.epoch in active
      modifies this`active, this`pending, this`dropped, this`log, this`lost
      ensures Valid()
      ensures active == old(active) - {event.epoch} && log == old(log) + [event]
    {
      TellsStop(log, active, event);
      EnqueueEvent(event);
      active := active - {event.epoch};
    }

    method ScopeStopped(interest: Interest, at: nat)
      requires Valid() && queueLimit > 0
      modifies this`active, this`pending, this`dropped, this`log, this`lost
      ensures Valid()
      ensures
        var epoch := EpochOf(interest);
        var left := ActiveAt(old(active), epoch) - {interest.informer};
        if interest.informer !in ActiveAt(old(active), epoch) then active == old(active) && log == old(log)
        else if left != {} then active == old(active)[epoch := left] && log == old(log)
        else active == old(active) - {epoch} && log == old(log) + [Event(epoch, Stopped, interest.gvk.version, at)]
    {
      var epoch := EpochOf(interest);
      var targets := ActiveAt(active, epoch);
      if interest.informer !in targets {
        return;
      }
      var left := targets - {interest.informer};
      if left == {} {
        var event := Event(epoch, Stopped, interest.gvk.version, at);
        EndEpoch(event);
      } else {
        TellsSame(log, active, epoch, left);
        active := active[epoch := left];
      }
    }

    // The flush loop takes the lock to look at the head, hands it over without the lock, and takes
    // the lock again to pop it; other methods may run in between. None of this touches `log` or `active`.

    method Peek()
      requires Queued() && flight.Resting? && pending != []
      modifies this`flight
      ensures Queued() && flight == Peeked(pending[0])
    {
      flight := Peeked(pending[0]);
    }

    method HandOver(accepted: bool)
      requires Queued() && flight.Peeked?
      modifies this`flight, this`handed
      ensures Queued()
      ensures flight == if accepted then Accepted(old(flight).next) else Resting
      ensures handed == old(handed) + if accepted then [old(flight).next] else []
    {
      if accepted {
        handed := handed + [flight.next];
        flight := Accepted(flight.next);
      } else {
        flight := Resting;
      }
    }

    method Pop()
      requires Queued() && flight.Accepted?
      modifies this`flight, this`pending, this`popped
      ensures Queued() && flight.Resting?
      ensures pending ==
        if old(pending) != [] && old(pending)[0] == old(flight).next then old(pending)[1..] else old(pending)
    {
      if pending != [] && pending[0] == flight.next {
        pending := pending[1..];
        popped := popped + 1;
      }
      flight := Resting;
    }

    method FlushHead(accepted: bool) returns (ok: bool)
      requires Queued() && flight.Resting? && pending != []
      modifies this`flight, this`handed, this`pending, this`popped
      ensures Queued() && flight.Resting? && ok == accepted
      ensures handed == old(handed) + if ok then [old(pending)[0]] else []
      ensures pending == if ok then old(pending)[1..] else old(pending)
    {
      Peek();
      HandOver(accepted);
      if flight.Accepted? {
        Pop();
      }
      ok := accepted;
    }

    /** Hands over as many events as the sinks accept, in order, and stops at the first refusal. */
    method Flush(accepts: nat)
      requires Queued() && flight.Resting?
      modifies this`flight, this`handed, this`pending, this`popped
      ensures Queued() && flight.Resting?
      ensures
        var n := if accepts < |old(pending)| then accepts else |old(pending)|;
        handed == old(handed) + old(pending)[..n] && pending == old(pending)[n..]
    {
      var n := 0;
      ghost var all := pending;
      while pending != []
        invariant Queued() && flight.Resting?
        invariant n <= |all| && n <= accepts
        invariant pending == all[n..] && handed == old(handed) + all[..n]
        decreases |pending|
      {
        var ok := FlushHead(n < accepts);
        if !ok {
          return;
        }
        MoveOne(old(handed), all, n);
        n := n + 1;
      }
    }

    /** Reads and clears the drop counter. */
    method ReportDrops() returns (n: nat)
      requires Valid()
      modifies this`dropped
      ensures Valid() && n == old(dropped) && dropped == 0
    {
      n := dropped;
      dropped := 0;
    }
  }

  /** Nothing in the log was touched, and everything new bears one instant. */
  predicate Adds(before: seq<Event>, after: seq<Event>, at: nat) {
    before <= after && forall i :: |before| <= i < |after| ==> after[i].at == at
  }

  // ---------------------------------------------------------------- the watch manager

  /** How the resolver names kinds; `gvk` undoes `gvr`, so no two kinds share a resource name. */
  datatype Naming = Naming(gvr: Gvk -> string, gvk: string -> Gvk)

  ghost predicate OneToOne(n: Naming) {
    forall g :: n.gvk(n.gvr(g)) == g
  }

  function EpochFor(n: Naming, id: InterestId): Epoch {
    EpochOf(Interest(id.informer, n.gvk(id.informer.gvr), id.sink))
  }

  predicate Proper(n: Naming, table: map<InterestId, Interest>) {
    forall id :: id in table ==> table[id] == Interest(id.informer, n.gvk(id.informer.gvr), id.sink)
  }

  function Serving(n: Naming, started: set<InterestId>, e: Epoch): set<InformerKey> {
    set id | id in started && EpochFor(n, id) == e :: id.informer
  }

  /** The recorder's targets are the informers of the started interests, scope by scope. */
  ghost predicate Mirrors(n: Naming, started: set<InterestId>, active: map<Epoch, set<InformerKey>>) {
    forall e :: ActiveAt(active, e) == Serving(n, started, e)
  }

  lemma MirrorStart(n: Naming, started: set<InterestId>, active: map<Epoch, set<InformerKey>>, id: InterestId)
    requires Mirrors(n, started, active)
    ensures
      var e := EpochFor(n, id);
      Mirrors(n, started + {id}, active[e := ActiveAt(active, e) + {id.informer}])
  {
    var e := EpochFor(n, id);
    forall f ensures Serving(n, started + {id}, f) == Serving(n, started, f) + if f == e then {id.informer} else {} {
    }
  }

  /** An informer serves an epoch through one interest only, so stopping that one stops it there. */
  lemma MirrorStop(
    n: Naming, started: set<InterestId>, active: map<Epoch, set<InformerKey>>,
    after: map<Epoch, set<InformerKey>>, id: InterestId)
    requires Mirrors(n, started, active)
    requires forall f :: ActiveAt(after, f) == ActiveAt(active, f) - if f == EpochFor(n, id) then {id.informer} else {}
    ensures Mirrors(n, started - {id}, after)
  {
    var e := EpochFor(n, id);
    forall f ensures Serving(n, started - {id}, f) == Serving(n, started, f) - if f == e then {id.informer} else {} {
      forall k | k in Serving(n, started, f) && (f != e || k != id.informer)
        ensures k in Serving(n, started - {id}, f)
      {
        var other :| other in started && EpochFor(n, other) == f && other.informer == k;
        assert other != id;
      }
      assert f == e ==> id.informer !in Serving(n, started - {id}, f) by {
        forall other | other in started - {id} && EpochFor(n, other) == e ensures other.informer != id.informer {
          assert other.sink == id.sink;
        }
      }
    }
  }

  function IdFor(n: Naming, key: TargetKey): InterestId {
    InterestId(InformerKey(n.gvr(key.gvk), key.namespace), key.sink)
  }

  /** Turns the usable targets into interests; a target that cannot be translated is left out alone. */
  method Translate(
    n: Naming, snapshot: set<TargetKey>, usable: set<TargetKey>)
    returns (desired: map<InterestId, Interest>)
    requires OneToOne(n)
    ensures Proper(n, desired)
    ensures desired.Keys == set key | key in snapshot * usable :: IdFor(n, key)
  {
    desired := map[];
    var todo := snapshot;
    while todo != {}
      invariant todo <= snapshot
      invariant Proper(n, desired)
      invariant desired.Keys == set key | key in (snapshot - todo) * usable :: IdFor(n, key)
      decreases todo
    {
      var key :| key in todo;
      todo := todo - {key};
      if key in usable {
        var id := IdFor(n, key);
        desired := desired[id := Interest(id.informer, key.gvk, key.sink)];
      }
    }
    assert snapshot - todo == snapshot;
  }

  class WatchManager {
    ghost const naming: Naming
    const recorder: ScopeRecorder
    var table: map<InterestId, Interest>
    var started: set<InterestId>
    var running: set<InformerKey>

    constructor (ghost n: Naming, limit: nat)
      requires OneToOne(n) && limit > 0
      ensures fresh(recorder) && Valid() && table == map[]
    {
      naming := n;
      recorder := new ScopeRecorder(limit);
      table, started, running := map[], {}, {};
      new;
      assert forall e :: Serving(naming, started, e) == {};
    }

    ghost predicate Valid()
      reads this, recorder
    {
      && OneToOne(naming) && Reporting() && Proper(naming, table)
      && started == set id | id in table && id.informer in running
    }

    /** The part of validity that holds between the reports of one pass. */
    ghost predicate Reporting()
      reads this, recorder
    {
      recorder.Valid() && recorder.queueLimit > 0 && Mirrors(naming, started, recorder.active)
    }

    method StopOne(interest: Interest, at: nat)
      requires Reporting() && interest.gvk == naming.gvk(interest.informer.gvr)
      modifies this`started, recorder
      ensures Reporting() && started == old(started) - {IdOf(interest)} && Adds(old(recorder.log), recorder.log, at)
    {
      ghost var before := recorder.active;
      recorder.ScopeStopped(interest, at);
      MirrorStop(naming, started, before, recorder.active, IdOf(interest));
      started := started - {IdOf(interest)};
    }

    method StartOne(interest: Interest, at: nat)
      requires Reporting() && interest.gvk == naming.gvk(interest.informer.gvr)
      modifies this`started, recorder
      ensures Reporting() && started == old(started) + {IdOf(interest)} && Adds(old(recorder.log), recorder.log, at)
    {
      MirrorStart(naming, started, recorder.active, IdOf(interest));
      recorder.ScopeStarted(interest, at);
      started := started + {IdOf(interest)};
    }

    method StopRemoved(removed: map<InterestId, Interest>, at: nat)
      requires Reporting() && Proper(naming, removed)
      modifies this`started, recorder
      ensures Reporting() && started == old(started) - removed.Keys && Adds(old(recorder.log), recorder.log, at)
    {
      var todo := removed.Keys;
      while todo != {}
        invariant todo <= removed.Keys
        invariant Reporting() && started == old(started) - (removed.Keys - todo)
        invariant Adds(old(recorder.log), recorder.log, at)
        decreases todo
      {
        var id :| id in todo;
        todo := todo - {id};
        StopOne(removed[id], at);
      }
    }

    method StartServing(ready: map<InterestId, Interest>, at: nat)
      requires Reporting() && Proper(naming, ready)
      modifies this`started, recorder
      ensures Reporting() && started == old(started) + ready.Keys && Adds(old(recorder.log), recorder.log, at)
    {
      var todo := ready.Keys;
      while todo != {}
        invariant todo <= ready.Keys
        invariant Reporting() && started == old(started) + (ready.Keys - todo)
        invariant Adds(old(recorder.log), recorder.log, at)
        decreases todo
      {
        var id :| id in todo;
        todo := todo - {id};
        StartOne(ready[id], at);
      }
    }

    /**
    One pass: install the interests, report the stopped ones, move the informers (those in
    `startable` come up, others wait for a later pass), report the ones newly serving.
    */
    method ReconcilePool(
      n: Naming, snapshot: set<TargetKey>, usable: set<TargetKey>, startable: set<InformerKey>, at: nat)
      requires Valid() && n == naming
      modifies this, recorder
      ensures Valid()
      ensures table.Keys == set key | key in snapshot * usable :: IdFor(n, key)
      ensures running == set id | id in table && id.informer in old(running) + startable :: id.informer
      ensures Adds(old(recorder.log), recorder.log, at)
      ensures forall e :: Alternates(LogOf(recorder.log, e))
      ensures forall e :: Open(LogOf(recorder.log, e)) <==>
        exists id :: id in table && EpochOf(table[id]) == e && id.informer in running
    {
      var desired := Translate(n, snapshot, usable);
      Install(desired, startable, at);
      OpenWhileServing(naming, table, started, recorder.log, recorder.active);
    }

    method Install(desired: map<InterestId, Interest>, startable: set<InformerKey>, at: nat)
      requires Valid() && Proper(naming, desired)
      modifies this, recorder
      ensures Valid() && table == desired && Adds(old(recorder.log), recorder.log, at)
      ensures running == set id | id in table && id.informer in old(running) + startable :: id.informer
    {
      var wanted := set id | id in desired :: id.informer;
      var moved := running * wanted + wanted * startable;
      MovedInformers(desired, running, startable, moved);
      InstallTable(desired, at);
      assert forall id :: id in started ==> id in desired && id.informer in moved;
      StartReady(moved, at);
    }

    /** The desired interests are installed, and those that vanished are reported. */
    method InstallTable(desired: map<InterestId, Interest>, at: nat)
      requires Valid() && Proper(naming, desired)
      modifies this`table, this`started, recorder
      ensures Reporting() && table == desired && Adds(old(recorder.log), recorder.log, at)
      ensures started == old(started) * desired.Keys
    {
      var removed := map id | id in table && id !in desired :: table[id];
      table := desired;
      StopRemoved(removed, at);
    }

    /** The informers are where they were moved to, and the interests they newly serve are reported. */
    method StartReady(moved: set<InformerKey>, at: nat)
      requires OneToOne(naming) && Reporting() && Proper(naming, table)
      requires forall id :: id in started ==> id in table && id.informer in moved
      modifies this`started, this`running, recorder
      ensures Valid() && running == moved && Adds(old(recorder.log), recorder.log, at)
    {
      var ready := map id | id in table && id !in started && id.informer in moved :: table[id];
      assert started + ready.Keys == set id | id in table && id.informer in moved;
      running := moved;
      StartServing(ready, at);
    }
  }

  lemma MovedInformers(
    desired: map<InterestId, Interest>, running: set<InformerKey>, startable: set<InformerKey>,
    moved: set<InformerKey>)
    requires var wanted := set id | id in desired :: id.informer; moved == running * wanted + wanted * startable
    ensures moved == set id | id in desired && id.informer in running + startable :: id.informer
  {
  }

  lemma OpenWhileServing(
    n: Naming, table: map<InterestId, Interest>, started: set<InterestId>, log: seq<Event>,
    active: map<Epoch, set<InformerKey>>)
    requires Proper(n, table) && Tells(log, active) && Mirrors(n, started, active) && started <= table.Keys
    ensures forall e :: Open(LogOf(log, e)) <==> exists id :: id in started && EpochOf(table[id]) == e
  {
    forall e ensures Open(LogOf(log, e)) <==> exists id :: id in started && EpochOf(table[id]) == e {
      assert ActiveAt(active, e) == Serving(n, started, e);
      if e in active {
        var k :| k in active[e];
        assert k in Serving(n, started, e);
      }
      if id :| id in started && EpochOf(table[id]) == e {
        assert id.informer in Serving(n, started, e);
      }
    }
  }
}
