/**
The sink runtime: which instance serves a name, and what becomes of the instances that no longer
do. Every instance that was started is either the one routed under its name or has had exactly
one drain scheduled for it, and after shutdown none is left routed or undrained.
*/
module SinkManagers {
  import opened Common
  import opened HashCaches

  datatype Instance = Instance(id: nat, name: string, fingerprint: string)

  predicate Routed(live: map<string, Instance>, id: nat) {
    exists name :: name in live && live[name].id == id
  }

  /** Names lead to their own instances, all of them started and none of them shared. */
  predicate Routes(live: map<string, Instance>, started: nat) {
    && (forall name :: name in live ==> live[name].name == name && live[name].id < started)
    && (forall a, b :: a in live && b in live && live[a].id == live[b].id ==> a == b)
  }

  predicate NoRepeats(ids: seq<nat>) {
    forall i, j :: 0 <= i < j < |ids| ==> ids[i] != ids[j]
  }

  /** Instances are numbered as they start; each is routed or has one drain scheduled, never both. */
  ghost predicate Accounted(live: map<string, Instance>, scheduled: seq<nat>, started: nat) {
    && Routes(live, started) && NoRepeats(scheduled)
    && (forall id :: id in scheduled ==> id < started)
    && (forall id: nat :: id < started ==> (Routed(live, id) <==> id !in scheduled))
  }

  lemma AccountedNew(live: map<string, Instance>, scheduled: seq<nat>, started: nat, name: string, fingerprint: string)
    requires Accounted(live, scheduled, started)
    ensures
      var next := live[name := Instance(started, name, fingerprint)];
      var drains := if name in live then scheduled + [live[name].id] else scheduled;
      Accounted(next, drains, started + 1)
  {
    var next := live[name := Instance(started, name, fingerprint)];
    var drains := if name in live then scheduled + [live[name].id] else scheduled;
    assert name in live ==> Routed(live, live[name].id);
    forall id: nat | id < started + 1 ensures Routed(next, id) <==> id !in drains {
      if id == started {
        assert next[name].id == id;
      } else {
        RoutedElsewhere(live, next, name, id, started);
      }
    }
  }

  lemma RoutedElsewhere(live: map<string, Instance>, next: map<string, Instance>, name: string, id: nat, started: nat)
    requires Routes(live, started) && id < started
    requires forall n :: n != name ==> (n in next <==> n in live) && (n in live ==> next[n] == live[n])
    requires name in next ==> next[name].id == started
    ensures Routed(next, id) <==> Routed(live, id) && !(name in live && live[name].id == id)
  {
    if Routed(live, id) {
      var n :| n in live && live[n].id == id;
      if n != name {
        assert next[n].id == id;
      }
    }
    if Routed(next, id) {
      var n :| n in next && next[n].id == id;
      assert live[n].id == id;
    }
  }

  lemma AccountedDelete(live: map<string, Instance>, scheduled: seq<nat>, started: nat, name: string)
    requires Accounted(live, scheduled, started) && name in live
    ensures Accounted(live - {name}, scheduled + [live[name].id], started)
  {
    var next := live - {name};
    assert Routed(live, live[name].id);
    forall id: nat | id < started ensures Routed(next, id) <==> id !in scheduled + [live[name].id] {
      RoutedElsewhere(live, next, name, id, started);
    }
  }

  class SinkManager {
    var live: map<string, Instance>
    /** Configurations declared before the manager ran, by fingerprint. */
    var pending: map<string, string>
    var running: bool
    var stopped: bool
    var returned: bool
    /** How many instances were ever started, whose drain was ever scheduled, whose drain has ended. */
    var started: nat
    var scheduled: seq<nat>
    var drained: set<nat>

    constructor ()
      ensures Valid() && live == map[] && started == 0 && !running && !stopped && !returned
    {
      live, pending, running, stopped, returned := map[], map[], false, false, false;
      started, scheduled, drained := 0, [], {};
    }

    ghost predicate Valid()
      reads this
    {
      && Accounted(live, scheduled, started)
      && (forall id :: id in drained ==> id in scheduled)
      && (!running ==> live == map[] && started == 0 && !stopped)
      && (running ==> pending == map[])
      && (stopped ==> live == map[])
      && (returned ==> stopped && forall id: nat :: id < started ==> id in drained)
    }

    /** Builds, starts and routes an instance unless the current one already fits, then drains the one it replaced. */
    method EnsureLocked(name: string, fingerprint: string, factoryOk: bool) returns (ok: bool)
      requires Valid() && running && !stopped
      modifies this`live, this`started, this`scheduled
      ensures Valid()
      ensures
        var same := name in old(live) && old(live)[name].fingerprint == fingerprint;
        && ok == (same || factoryOk)
        && (same || !factoryOk ==> live == old(live) && scheduled == old(scheduled) && started == old(started))
        && (!same && factoryOk ==>
          && live == old(live)[name := Instance(old(started), name, fingerprint)] && started == old(started) + 1
          && scheduled == if name in old(live) then old(scheduled) + [old(live)[name].id] else old(scheduled))
    {
      if name in live && live[name].fingerprint == fingerprint {
        return true;
      }
      if !factoryOk {
        return false;
      }
      AccountedNew(live, scheduled, started, name, fingerprint);
      var current := Lookup(live, name);
      live := live[name := Instance(started, name, fingerprint)];
      started := started + 1;
      if current.Some? {
        scheduled := scheduled + [current.value.id];
      }
      return true;
    }

    /** Before the manager runs a request is only noted; once it has stopped it is refused. */
    method Ensure(name: string, fingerprint: string, factoryOk: bool) returns (ok: bool)
      requires Valid()
      modifies this
      ensures Valid()
      ensures running == old(running) && stopped == old(stopped) && returned == old(returned) && drained == old(drained)
      ensures name == "" || old(stopped) ==>
        !ok && live == old(live) && pending == old(pending) && scheduled == old(scheduled) && started == old(started)
      ensures name != "" && !old(running) ==>
        ok && pending == old(pending)[name := fingerprint] && started == old(started)
      ensures name != "" && !old(running) ==> live == old(live) && scheduled == old(scheduled)
      ensures name != "" && old(running) && !old(stopped) ==>
        var same := name in old(live) && old(live)[name].fingerprint == fingerprint;
        && pending == old(pending) && ok == (same || factoryOk)
        && (same || !factoryOk ==> live == old(live) && scheduled == old(scheduled) && started == old(started))
        && (!same && factoryOk ==>
          && live == old(live)[name := Instance(old(started), name, fingerprint)] && started == old(started) + 1
          && scheduled == if name in old(live) then old(scheduled) + [old(live)[name].id] else old(scheduled))
    {
      if name == "" {
        return false;
      }
      if stopped {
        return false;
      }
      if !running {
        pending := pending[name := fingerprint];
        return true;
      }
      ok := EnsureLocked(name, fingerprint, factoryOk);
    }

    /** Takes the name out of service and schedules the drain of the instance that served it. */
    method Delete(name: string)
      requires Valid()
      modifies this`live, this`pending, this`scheduled
      ensures Valid()
      ensures old(stopped) ==> live == old(live) && pending == old(pending) && scheduled == old(scheduled)
      ensures !old(stopped) ==>
        && live == old(live) - {name} && pending == old(pending) - {name}
        && scheduled == if name in old(live) then old(scheduled) + [old(live)[name].id] else old(scheduled)
    {
      if stopped {
        return;
      }
      pending := pending - {name};
      if name in live {
        AccountedDelete(live, scheduled, started, name);
        scheduled := scheduled + [live[name].id];
        live := live - {name};
      } else {
        assert live - {name} == live;
      }
    }

    /** A scheduled drain ends. */
    method DrainEnds(id: nat)
      requires Valid() && id in scheduled
      modifies this`drained
      ensures Valid() && drained == old(drained) + {id}
    {
      drained := drained + {id};
    }

    /** The manager starts running and brings up what was declared so far. */
    method Begin(factoryOk: set<string>)
      requires Valid() && !running
      modifies this
      ensures Valid() && running && !stopped && returned == old(returned)
      ensures live.Keys == old(pending).Keys * factoryOk
      ensures forall name :: name in live ==> live[name].fingerprint == old(pending)[name]
      ensures scheduled == old(scheduled) && drained == old(drained)
    {
      var declared := pending;
      running, pending := true, map[];
      var todo := declared.Keys;
      while todo != {}
        invariant todo <= declared.Keys
        invariant Valid() && running && !stopped && returned == old(returned)
        invariant live.Keys == (declared.Keys - todo) * factoryOk
        invariant forall name :: name in live ==> live[name].fingerprint == declared[name]
        invariant scheduled == old(scheduled) && drained == old(drained)
        decreases todo
      {
        var name :| name in todo;
        todo := todo - {name};
        var _ := EnsureLocked(name, declared[name], name in factoryOk);
      }
      assert declared.Keys - todo == declared.Keys;
    }

    /** Shutdown: nothing is routed any more, and every instance that was gets its drain. */
    method Stop()
      requires Valid() && running && !stopped
      modifies this
      ensures Valid() && stopped && running && live == map[] && started == old(started) && drained == old(drained)
      ensures |scheduled| >= |old(scheduled)| && scheduled[..|old(scheduled)|] == old(scheduled)
      ensures forall id: nat :: id < started ==> id in scheduled
    {
      var names := live.Keys;
      while names != {}
        invariant names == live.Keys
        invariant Valid() && running && !stopped && started == old(started) && drained == old(drained)
        invariant |scheduled| >= |old(scheduled)| && scheduled[..|old(scheduled)|] == old(scheduled)
        decreases names
      {
        var name :| name in names;
        names := names - {name};
        Delete(name);
      }
      assert live == map[];
      stopped := true;
      forall id: nat | id < started ensures id in scheduled {
        assert !Routed(live, id);
      }
    }

    /** Start returns once everything it waits for has ended. */
    method Return()
      requires Valid() && stopped && forall id :: id in scheduled ==> id in drained
      modifies this`returned
      ensures Valid() && returned
      ensures live == map[] && forall id: nat :: id < started ==> id in drained
    {
      forall id: nat | id < started ensures id in drained {
        assert !Routed(live, id);
      }
      returned := true;
    }
  }
}
