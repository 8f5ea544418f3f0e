/** Object identity as the cache spells it, and the eviction of a whole watch scope by prefix. */
module Identity {
  import opened Common
  import opened HashCaches

  datatype Key = Key(group: string, kind: string, namespace: string, name: string)

  datatype ScopeKey = ScopeKey(group: string, kind: string, namespace: string)

  function CacheKey(k: Key): string {
    k.group + "|" + k.kind + "|" + k.namespace + "/" + k.name
  }

  function ScopeOf(k: Key): ScopeKey {
    ScopeKey(k.group, k.kind, k.namespace)
  }

  function ScopeKeyPrefix(s: ScopeKey): string {
    s.group + "|" + s.kind + "|" + (if s.namespace == "" then "" else s.namespace + "/")
  }

  predicate InScope(s: ScopeKey, k: Key) {
    s.group == k.group && s.kind == k.kind && (s.namespace == "" || s.namespace == k.namespace)
  }

  /** What Kubernetes guarantees of API groups, kinds and namespaces. */
  predicate Plain(s: ScopeKey) {
    '|' !in s.group && '|' !in s.kind && '/' !in s.namespace
  }

  /** Text up to the first separator is read back uniquely. */
  lemma CutIsUnique(a: string, b: string, sep: char, x: string, y: string)
    requires sep !in a && sep !in b
    requires a + [sep] + x <= b + [sep] + y
    ensures a == b && x <= y
  {
    var s, t := a + [sep] + x, b + [sep] + y;
    assert |s| <= |t| && forall i :: 0 <= i < |s| ==> s[i] == t[i];
    assert s[|a|] == sep && t[|b|] == sep;
    assert forall i :: 0 <= i < |a| ==> s[i] != sep;
    assert forall i :: 0 <= i < |b| ==> t[i] != sep;
    assert |a| == |b|;
    assert forall i :: 0 <= i < |a| ==> s[i] == a[i] && t[i] == b[i];
    assert s[|a| + 1..] == x && t[|a| + 1..] == y;
  }

  lemma SplitHead(s: ScopeKey, t: ScopeKey, x: string, y: string)
    requires Plain(s) && Plain(t)
    requires s.group + "|" + s.kind + "|" + x <= t.group + "|" + t.kind + "|" + y
    ensures s.group == t.group && s.kind == t.kind && x <= y
  {
    assert s.group + "|" + s.kind + "|" + x == s.group + "|" + (s.kind + "|" + x);
    assert t.group + "|" + t.kind + "|" + y == t.group + "|" + (t.kind + "|" + y);
    CutIsUnique(s.group, t.group, '|', s.kind + "|" + x, t.kind + "|" + y);
    CutIsUnique(s.kind, t.kind, '|', x, y);
  }

  /** Two identities share a cache entry only if they are the same identity. */
  lemma CacheKeyIsInjective(a: Key, b: Key)
    requires Plain(ScopeOf(a)) && Plain(ScopeOf(b))
    ensures CacheKey(a) == CacheKey(b) <==> a == b
  {
    if CacheKey(a) == CacheKey(b) {
      var x, y := a.namespace + "/" + a.name, b.namespace + "/" + b.name;
      assert CacheKey(a) == a.group + "|" + a.kind + "|" + x;
      assert CacheKey(b) == b.group + "|" + b.kind + "|" + y;
      SplitHead(ScopeOf(a), ScopeOf(b), x, y);
      SplitHead(ScopeOf(b), ScopeOf(a), y, x);
      CutIsUnique(a.namespace, b.namespace, '/', a.name, b.name);
    }
  }

  /** A scope's prefix picks out exactly the keys of the scope. */
  lemma PrefixIsScope(s: ScopeKey, k: Key)
    requires Plain(s) && Plain(ScopeOf(k))
    ensures ScopeKeyPrefix(s) <= CacheKey(k) <==> InScope(s, k)
  {
    var x := if s.namespace == "" then "" else s.namespace + "/";
    var y := k.namespace + "/" + k.name;
    assert CacheKey(k) == k.group + "|" + k.kind + "|" + y;
    if ScopeKeyPrefix(s) <= CacheKey(k) {
      SplitHead(s, ScopeOf(k), x, y);
      if s.namespace != "" {
        assert x == s.namespace + "/" + "";
        CutIsUnique(s.namespace, k.namespace, '/', "", k.name);
      }
    }
    if InScope(s, k) {
      var head := s.group + "|" + s.kind + "|";
      assert CacheKey(k) == head + y && ScopeKeyPrefix(s) == head + x;
      assert x <= y;
    }
  }

  /** Without the guarantee on kinds two identities collide. */
  lemma BarsCollide()
    ensures CacheKey(Key("a", "b|c", "d", "e")) == CacheKey(Key("a|b", "c", "d", "e"))
  {
  }

  predicate EphemeralKind(group: string, kind: string) {
    kind == "Event" && (group == "" || group == "events.k8s.io")
  }

  /** What the pipeline remembers of one sink's scopes. */
  class SinkState {
    const cache: HashCache
    var warm: set<ScopeKey>

    constructor ()
      ensures fresh(cache) && cache.data == map[] && warm == {}
    {
      cache := new HashCache();
      warm := {};
    }

    method ScopeWarm(key: Key) returns (ready: bool)
      ensures ready <==> exists s :: s in warm && InScope(s, key) && s.namespace in {"", key.namespace}
    {
      var scope := ScopeOf(key);
      if scope in warm {
        assert InScope(scope, key);
        return true;
      }
      scope := scope.(namespace := "");
      return scope in warm;
    }

    /** Forgets one scope: its own warmth and its own keys, whoever else shares the sink. */
    method EvictScope(scope: ScopeKey)
      modifies this, cache
      ensures warm == old(warm) - {scope}
      ensures forall k :: Plain(scope) && Plain(ScopeOf(k)) ==>
        Lookup(cache.data, CacheKey(k)) == if InScope(scope, k) then None else Lookup(old(cache.data), CacheKey(k))
    {
      warm := warm - {scope};
      var _ := cache.DeletePrefix(ScopeKeyPrefix(scope));
      forall k | Plain(scope) && Plain(ScopeOf(k))
        ensures Lookup(cache.data, CacheKey(k)) ==
          if InScope(scope, k) then None else Lookup(old(cache.data), CacheKey(k))
      {
        PrefixIsScope(scope, k);
      }
    }
  }
}
