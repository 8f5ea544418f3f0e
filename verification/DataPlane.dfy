/**
The whole data plane over many keys: the watch cache, the pipeline and the sink's callbacks, with one
clock for all of them. Whatever is called in whatever order, every key is at each moment in a state
the protocol machine reaches, so the theorems about runs hold of it key by key.
*/
module DataPlanes {
  import opened Common
  import opened HashCaches
  import opened Protocol
  import opened Implications
  import opened Pipelines
  import opened NoGaps
  import opened Replay
  import opened Boundaries
  import opened Exactness
  import opened Histories
  import opened Events

  ghost predicate Reachable(cfg: Config, h: Hypotheses, s: State) {
    exists steps :: Exec(cfg, h, INIT, steps) == Some(s)
  }

  lemma ReachMore(cfg: Config, h: Hypotheses, s: State, more: seq<Step>, t: State)
    requires Reachable(cfg, h, s) && Exec(cfg, h, s, more) == Some(t)
    ensures Reachable(cfg, h, t)
  {
    var steps :| Exec(cfg, h, INIT, steps) == Some(s);
    ExecConcat(cfg, h, INIT, steps, more);
    assert Exec(cfg, h, INIT, steps + more) == Some(t);
  }

  lemma ReachStep(cfg: Config, h: Hypotheses, s: State, step: Step)
    requires Reachable(cfg, h, s) && Enabled(cfg, s, step) && Allowed(h, s, step)
    ensures Reachable(cfg, h, Next(cfg, s, step))
  {
    assert [step][1..] == [];
    ReachMore(cfg, h, s, [step], Next(cfg, s, step));
  }

  class DataPlane {
    const pipeline: Pipeline
    const cfgOf: string -> Config
    ghost const h: Hypotheses
    /** The watch cache, by key. */
    var lister: map<string, Obj>
    /** The machine state of every key. */
    ghost var machine: string -> State

    constructor (configs: string -> Config, ghost hypotheses: Hypotheses)
      ensures fresh(pipeline) && Valid() && cfgOf == configs && h == hypotheses && lister == map[]
    {
      pipeline := new Pipeline();
      cfgOf := configs;
      h := hypotheses;
      lister := map[];
      machine := (k: string) => INIT;
      new;
      forall k ensures ValidAt(k) {
        assert Exec(cfgOf(k), h, INIT, []) == Some(INIT);
      }
    }

    ghost function StateOf(key: string): State
      reads this
    {
      machine(key)
    }

    /** The key's fields hold its machine state, except that time may have passed since. */
    ghost predicate Behind(key: string)
      reads this, pipeline, pipeline.cache, pipeline.closeOuts
    {
      var s := machine(key);
      && pipeline.At(key) == SlotOf(s) && s.clock <= pipeline.clock && s.worker.Idle? && s.live == Lookup(lister, key)
      && Reachable(cfgOf(key), h, s)
    }

    ghost predicate ValidAt(key: string)
      reads this, pipeline, pipeline.cache, pipeline.closeOuts
    {
      Behind(key) && machine(key).clock == pipeline.clock
    }

    ghost predicate Valid()
      reads this, pipeline, pipeline.cache, pipeline.closeOuts
    {
      forall key :: ValidAt(key)
    }

    /** One key has moved as the machine does; the others are brought up to the clock by a Tick each. */
    ghost method Move(key: string, t: State)
      requires forall k :: k != key ==> Behind(k)
      requires pipeline.Shows(key, t) && t.worker.Idle? && t.live == Lookup(lister, key) && Reachable(cfgOf(key), h, t)
      modifies this`machine
      ensures Valid() && StateOf(key) == t
      ensures forall k :: k != key ==> StateOf(k) == old(StateOf(k)).(clock := pipeline.clock)
    {
      var was, now := machine, pipeline.clock;
      machine := (k: string) => if k == key then t else was(k).(clock := now);
      forall k ensures ValidAt(k) {
        if k != key {
          assert old(Behind(k));
          ReachStep(cfgOf(k), h, was(k), Tick(now));
        }
      }
    }

    /** The informer reports an object. */
    method Observe(key: string, obj: Obj)
      requires Valid()
      requires h.uids ==> obj.uid != NO_UID && obj.uid !in StateOf(key).gone
      modifies this`lister, this`machine, pipeline
      ensures Valid() && StateOf(key) == Observed(old(StateOf(key)), obj)
      ensures lister == old(lister)[key := obj]
    {
      ghost var s := StateOf(key);
      assert ValidAt(key);
      lister := lister[key := obj];
      pipeline.AddToQueue(key);
      ReachStep(cfgOf(key), h, s, Step.Observe(obj));
      forall k | k != key ensures Behind(k) {
        assert old(ValidAt(k)) && pipeline.At(k) == old(pipeline.At(k));
      }
      Move(key, Observed(s, obj));
    }

    /** The informer reports that the object is gone. */
    method Vanish(key: string)
      requires Valid() && ValidAt(key) && key in lister
      modifies this`lister, this`machine, pipeline
      ensures Valid() && StateOf(key) == Vanished(old(StateOf(key)))
      ensures lister == old(lister) - {key}
    {
      ghost var s := StateOf(key);
      assert ValidAt(key);
      lister := lister - {key};
      pipeline.AddToQueue(key);
      ReachStep(cfgOf(key), h, s, Step.Vanish);
      forall k | k != key ensures Behind(k) {
        assert old(ValidAt(k)) && pipeline.At(k) == old(pipeline.At(k));
      }
      Move(key, Vanished(s));
    }

    /** A worker processes the key's item from start to end. */
    method Work(key: string, a: Answers)
      requires Valid() && ValidAt(key) && key in pipeline.queue && MayStart(h, StateOf(key))
      requires |a.retries| == |StateOf(key).closeOuts|
      modifies this`machine, pipeline, pipeline.cache, pipeline.closeOuts
      ensures Valid()
      ensures StateOf(key) == AfterItem(cfgOf(key), old(StateOf(key)), a)
    {
      ghost var s := StateOf(key);
      assert ValidAt(key);
      var found := Lookup(lister, key);
      pipeline.ProcessNext(cfgOf(key), key, found, a, s);
      ghost var t := AfterItem(cfgOf(key), s, a);
      Worked(cfgOf(key), h, s, a);
      forall k | k != key ensures Behind(k) {
        assert old(ValidAt(k)) && pipeline.At(k) == old(pipeline.At(k));
      }
      Move(key, t);
    }

    /** The sink settles one of the key's jobs. */
    method Settle(key: string, i: nat, ok: bool, durable: bool)
      requires Valid() && i < |StateOf(key).jobs| && (h.truthful ==> ok == durable)
      modifies this`machine, pipeline, pipeline.cache, pipeline.closeOuts
      ensures Valid() && StateOf(key) == AfterSettle(old(StateOf(key)), i, ok, durable)
    {
      ghost var s := StateOf(key);
      assert ValidAt(key);
      pipeline.Settle(key, i, ok, durable, s);
      ReachStep(cfgOf(key), h, s, Step.Settle(i, ok, durable));
      forall k | k != key ensures Behind(k) {
        assert old(ValidAt(k)) && pipeline.At(k) == old(pipeline.At(k));
      }
      Move(key, AfterSettle(s, i, ok, durable));
    }

    /** The collector claims the deletion of an incarnation that left the watch cache. */
    method Collect(key: string, uid: Uid, accepted: bool) returns (outcome: ClaimOutcome, failed: bool)
      requires Valid() && Enabled(cfgOf(key), StateOf(key), GcClaim(uid, accepted))
      requires h.clearGc ==> forall i :: 0 <= i < |StateOf(key).jobs| ==> !StateOf(key).jobs[i].Upsert?
      modifies this`machine, pipeline, pipeline.cache
      ensures Valid() && StateOf(key) == ClaimAndDelete(old(StateOf(key)), uid, accepted)
      ensures outcome == ClaimVerdict(old(StateOf(key)).entry, uid)
    {
      ghost var s := StateOf(key);
      assert ValidAt(key);
      outcome, failed := pipeline.EmitDelete(key, uid, accepted, s);
      ReachStep(cfgOf(key), h, s, GcClaim(uid, accepted));
      forall k | k != key ensures Behind(k) {
        assert old(ValidAt(k)) && pipeline.At(k) == old(pipeline.At(k));
      }
      Move(key, ClaimAndDelete(s, uid, accepted));
    }

    /** No key of the data plane has a gap once nothing is left to do for it, whatever the others do. */
    lemma NoKeyHasAGap(key: string)
      requires Valid() && !cfgOf(key).ephemeral && h.settled && h.truthful && h.uids && h.idleGc
      requires Quiescent(StateOf(key))
      ensures Recorded(cfgOf(key), StateOf(key).rows, Lookup(lister, key))
    {
      assert ValidAt(key);
      var steps :| Exec(cfgOf(key), h, INIT, steps) == Some(StateOf(key));
      NoGapsWhenQuiescent(cfgOf(key), h, steps);
    }

    /** And none records a death twice. */
    lemma NoKeyDiesTwice(key: string)
      requires Valid() && h.truthful && h.uids && (h.calmGc || h.idleGc) && (h.settled || h.lifetimes)
      ensures !DiesTwice(StateOf(key).rows)
    {
      assert ValidAt(key);
      var steps :| Exec(cfgOf(key), h, INIT, steps) == Some(StateOf(key));
      OneDeathIsEnough(cfgOf(key), h, steps);
    }

    /** A recorded incarnation of a key with nothing left to do is live, or has one deletion after all its states. */
    lemma NoKeyForgetsADeath(key: string, uid: Uid)
      requires Valid() && !cfgOf(key).ephemeral && h.settled && h.truthful && h.uids && h.idleGc
      requires Quiescent(StateOf(key)) && Chronicled(StateOf(key).rows, uid)
      ensures
        if key in lister && lister[key].uid == uid then NoDeath(StateOf(key).rows, uid)
        else exists k :: OneDeath(StateOf(key).rows, uid, k)
    {
      assert ValidAt(key);
      var steps :| Exec(cfgOf(key), h, INIT, steps) == Some(StateOf(key));
      HistoryIsComplete(cfgOf(key), h, steps, uid);
    }

    /** The live Event of every Event key with nothing left to do is recorded in full. */
    lemma NoEventIsMissed(key: string)
      requires Valid() && Lawful(cfgOf(key).codec) && cfgOf(key).ephemeral && h.settled && h.truthful && h.uids
      requires Quiescent(StateOf(key)) && key in lister
      ensures RecordedInFull(cfgOf(key), StateOf(key).rows, lister[key])
    {
      assert ValidAt(key);
      var steps :| Exec(cfgOf(key), h, INIT, steps) == Some(StateOf(key));
      LiveEventIsRecorded(cfgOf(key), h, steps);
    }

    /** And every incarnation of every key is replayed to the state hashed on its newest row. */
    lemma NoKeyIsUnreadable(key: string, uid: Uid)
      requires Valid() && Lawful(cfgOf(key).codec) && !cfgOf(key).ephemeral && h.settled && h.truthful && h.uids
      ensures NewestOf(StateOf(key).rows, uid).Some? ==>
        Exact(cfgOf(key), ReplayRows(cfgOf(key).codec, StateOf(key).rows, uid),
              NewestOf(StateOf(key).rows, uid).value.sha)
    {
      assert ValidAt(key);
      var steps :| Exec(cfgOf(key), h, INIT, steps) == Some(StateOf(key));
      BoundedExactReplay(cfgOf(key), h, steps, uid);
    }
  }

  lemma Worked(cfg: Config, h: Hypotheses, s: State, a: Answers)
    requires Reachable(cfg, h, s) && s.worker.Idle? && s.queued && |a.retries| == |s.closeOuts| && MayStart(h, s)
    ensures Reachable(cfg, h, AfterItem(cfg, s, a)) && AfterItem(cfg, s, a).worker.Idle?
    ensures AfterItem(cfg, s, a).live == s.live
  {
    ItemKeepsLive(cfg, s, a);
    var steps, t := ItemIsARun(cfg, h, s, a);
    ReachMore(cfg, h, s, steps, t);
  }
}
