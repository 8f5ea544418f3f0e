/**
The interest table: one authoritative map and two indexes rebuilt from it, and the lookups the
pipeline makes. An object answered for by several interests gets all of their policies.
*/
module Interests {
  import opened Common
  import opened Redaction
  import opened RedactionPaths
  import opened Policies
  import opened Identity
  import opened Epochs

  /** An installed interest with its compiled redaction policy. */
  datatype Installed = Installed(base: Interest, policy: Option<Policy>)

  datatype IdentityKey = IdentityKey(group: string, kind: string, namespace: string, sink: string)

  function InformerOf(i: Installed): InformerKey {
    i.base.informer
  }

  function IdentityOf(i: Installed): IdentityKey {
    IdentityKey(i.base.gvk.group, i.base.gvk.kind, i.base.informer.namespace, i.base.sink)
  }

  predicate Once<T(==)>(xs: seq<T>) {
    forall i, j :: 0 <= i < j < |xs| ==> xs[i] != xs[j]
  }

  /** Each list of the index holds exactly the interests with its key, each once. */
  ghost predicate Indexes<K(!new)>(index: map<K, seq<Installed>>, all: set<Installed>, key: Installed -> K) {
    && (forall k, i :: i in ListAt(index, k) <==> i in all && key(i) == k)
    && (forall k :: Once(ListAt(index, k)))
  }

  lemma IndexMore<K(!new)>(index: map<K, seq<Installed>>, all: set<Installed>, key: Installed -> K, i: Installed)
    requires Indexes(index, all, key) && i !in all
    ensures Indexes(index[key(i) := ListAt(index, key(i)) + [i]], all + {i}, key)
  {
    var next := index[key(i) := ListAt(index, key(i)) + [i]];
    forall k, j ensures j in ListAt(next, k) <==> j in all + {i} && key(j) == k {
      assert j in ListAt(index, k) <==> j in all && key(j) == k;
    }
    forall k ensures Once(ListAt(next, k)) {
      assert Once(ListAt(index, k)) && i !in ListAt(index, k);
    }
  }

  method BuildIndex<K(!new, ==)>(all: set<Installed>, key: Installed -> K) returns (index: map<K, seq<Installed>>)
    ensures Indexes(index, all, key)
  {
    index := map[];
    var todo := all;
    while todo != {}
      invariant todo <= all
      invariant Indexes(index, all - todo, key)
      decreases todo
    {
      var i :| i in todo;
      IndexMore(index, all - todo, key, i);
      assert all - todo + {i} == all - (todo - {i});
      index := index[key(i) := ListAt(index, key(i)) + [i]];
      todo := todo - {i};
    }
    assert all - todo == all;
  }

  lemma AtInformer(index: map<InformerKey, seq<Installed>>, all: set<Installed>, k: InformerKey)
    requires Indexes(index, all, InformerOf)
    ensures Once(ListAt(index, k)) && forall i :: i in ListAt(index, k) <==> i in all && i.base.informer == k
  {
    forall i ensures i in ListAt(index, k) <==> i in all && InformerOf(i) == k {
    }
  }

  lemma AtIdentity(index: map<IdentityKey, seq<Installed>>, all: set<Installed>, k: IdentityKey)
    requires Indexes(index, all, IdentityOf)
    ensures Once(ListAt(index, k)) && forall i :: i in ListAt(index, k) <==> i in all && IdentityOf(i) == k
  {
  }

  class InterestTable {
    var current: map<InterestId, Installed>
    var byInformer: map<InformerKey, seq<Installed>>
    var byIdentity: map<IdentityKey, seq<Installed>>

    constructor ()
      ensures Valid() && current == map[]
    {
      current, byInformer, byIdentity := map[], map[], map[];
    }

    ghost predicate Valid()
      reads this
    {
      && Indexes(byInformer, current.Values, InformerOf)
      && Indexes(byIdentity, current.Values, IdentityOf)
    }

    /** Installs exactly the desired interests and returns those that vanished. */
    method Replace(desired: map<InterestId, Installed>) returns (removed: set<Installed>)
      requires Valid()
      modifies this
      ensures Valid() && current == desired
      ensures removed == set id | id in old(current) && id !in desired :: old(current)[id]
    {
      removed := set id | id in current && id !in desired :: current[id];
      current := desired;
      byInformer := BuildIndex(desired.Values, InformerOf);
      byIdentity := BuildIndex(desired.Values, IdentityOf);
    }

    /** The interests an event of one informer fans out to. */
    method InterestsFor(informer: InformerKey) returns (found: seq<Installed>)
      requires Valid()
      ensures Once(found) && forall i :: i in found <==> i in current.Values && i.base.informer == informer
    {
      found := ListAt(byInformer, informer);
      AtInformer(byInformer, current.Values, informer);
    }

    /** The interests that answer for an object: those of its namespace first, then the cluster-wide ones. */
    method LookupIdentity(key: Key, sink: string) returns (found: seq<Installed>)
      requires Valid()
      ensures Once(found)
      ensures forall i :: i in found <==>
        i in current.Values && i.base.sink == sink && InScope(EpochOf(i.base).scope, key)
      ensures forall a, b :: 0 <= a < b < |found| && found[b].base.informer.namespace != "" ==>
        found[a].base.informer.namespace != ""
    {
      var exact := IdentityKey(key.group, key.kind, key.namespace, sink);
      var wide := exact.(namespace := "");
      var near := ListAt(byIdentity, exact);
      AtIdentity(byIdentity, current.Values, exact);
      AtIdentity(byIdentity, current.Values, wide);
      assert forall a :: 0 <= a < |near| ==> near[a] in near;
      if exact == wide {
        found := near;
        return;
      }
      var far := ListAt(byIdentity, wide);
      assert forall a :: 0 <= a < |far| ==> far[a] in far;
      found := near + far;
    }

    /** Exactly the interests of one (sink, scope) pair, with no cluster-wide fallback. */
    method InterestsForScope(epoch: Epoch) returns (found: seq<Installed>)
      requires Valid()
      ensures forall i :: i in found <==> i in current.Values && EpochOf(i.base) == epoch
    {
      var key := IdentityKey(epoch.scope.group, epoch.scope.kind, epoch.scope.namespace, epoch.sink);
      AtIdentity(byIdentity, current.Values, key);
      found := ListAt(byIdentity, key);
    }

    /** The policy for an object: the union of the policies of every interest answering for it. */
    method RedactionFor(q: Strconv, key: Key, sink: string) returns (policy: Option<Policy>, ok: bool)
      requires Valid() && Lawful(q)
      requires forall i :: i in current.Values ==> Policies.Proper(q, i.policy)
      ensures Policies.Proper(q, policy) && (ok <==> exists i :: Answering(i, key, sink, current))
      ensures ok ==> forall pos :: pos in Covered(Effective(q, policy)) <==>
        exists i :: Answering(i, key, sink, current) && pos in Covered(Effective(q, i.policy))
    {
      var found := LookupIdentity(key, sink);
      assert forall i :: i in found <==> Answering(i, key, sink, current);
      if |found| == 0 {
        return None, false;
      }
      assert found[0] in found;
      if |found| == 1 {
        return found[0].policy, true;
      }
      var policies := seq(|found|, n requires 0 <= n < |found| => found[n].policy);
      ok := true;
      PoliciesOf(found, policies);
      policy := MergeRedaction(policies);
      MergeIsProper(q, policies, policy);
      forall pos
        ensures pos in Covered(Effective(q, policy)) <==>
          exists i :: i in found && pos in Covered(Effective(q, i.policy))
      {
        MergeCovers(q, policies, policy, pos);
        FoundCovers(q, found, policies, pos);
      }
    }
  }

  predicate Answering(i: Installed, key: Key, sink: string, current: map<InterestId, Installed>) {
    i in current.Values && i.base.sink == sink && InScope(EpochOf(i.base).scope, key)
  }

  lemma PoliciesOf(found: seq<Installed>, policies: seq<Option<Policy>>)
    requires |policies| == |found| && forall n :: 0 <= n < |found| ==> policies[n] == found[n].policy
    ensures forall o :: o in policies <==> exists i :: i in found && i.policy == o
  {
    forall o | o in policies ensures exists i :: i in found && i.policy == o {
      var n :| 0 <= n < |policies| && policies[n] == o;
      assert found[n] in found;
    }
    forall i | i in found ensures i.policy in policies {
      var n :| 0 <= n < |found| && found[n] == i;
      assert policies[n] == i.policy;
    }
  }

  lemma FoundCovers(q: Strconv, found: seq<Installed>, policies: seq<Option<Policy>>, pos: Position)
    requires forall o :: o in policies <==> exists i :: i in found && i.policy == o
    ensures SomeCovers(q, policies, pos) <==> exists i :: i in found && pos in Covered(Effective(q, i.policy))
  {
    if i :| i in found && pos in Covered(Effective(q, i.policy)) {
      assert i.policy in policies;
    }
  }
}
