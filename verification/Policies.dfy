/** Compiled redaction policies: how they are built, merged and applied. */
module Policies {
  import opened Common
  import opened Texts
  import opened Redaction
  import opened RedactionPaths

  datatype Path = Path(raw: string, segments: seq<Segment>)

  type Policy = seq<Path>

  const KUBECTL := "kubectl.kubernetes.io"
  const LAST_CONFIGURATION := "last-applied-configuration"
  const LAST_APPLIED := KUBECTL + "/" + LAST_CONFIGURATION

  function BuiltinRaw(q: Strconv): string {
    AnnotationPath(q, LAST_APPLIED)
  }

  function RawOf(p: Path): string { p.raw }

  function Raws(policy: Policy): seq<string> {
    seq(|policy|, i requires 0 <= i < |policy| => policy[i].raw)
  }

  /** `policy` is the one compiled form of the texts in `raws`: ascending, once each, as parsed. */
  ghost predicate Compiled(q: Strconv, policy: Policy, raws: set<string>) {
    && Lists(Raws(policy), raws)
    && forall p :: p in policy ==> Parse(q, p.raw) == Some(p.segments)
  }

  /** The texts decide the compiled policy, whatever order or repetition they came in. */
  lemma CompiledUnique(q: Strconv, a: Policy, b: Policy, raws: set<string>)
    requires Compiled(q, a, raws) && Compiled(q, b, raws)
    ensures a == b
  {
    ListsUnique(Raws(a), Raws(b), raws);
    assert |a| == |Raws(a)| == |Raws(b)| == |b|;
    forall i | 0 <= i < |a| ensures a[i] == b[i] {
      assert a[i].raw == Raws(a)[i] == Raws(b)[i] == b[i].raw;
      assert a[i] in a && b[i] in b;
    }
  }

  lemma SortedPolicy(policy: Policy, raws: set<string>)
    requires forall x :: x in Raws(policy) <==> x in raws
    requires forall i, j :: 0 <= i < j < |policy| ==> policy[i].raw != policy[j].raw
    ensures Lists(Raws(SortBy(RawOf, policy)), raws)
    ensures forall p :: p in SortBy(RawOf, policy) <==> p in policy
  {
    var r := SortBy(RawOf, policy);
    AscendingRaws(policy);
    MembersOf(r, policy);
    assert Strict(Raws(r)) by {
      DistinctSorted(policy, r);
      StrictRaws(r, policy);
    }
    SameRaws(r, policy);
  }

  lemma AscendingRaws(policy: Policy)
    ensures Ascending(Raws(SortBy(RawOf, policy))) && multiset(SortBy(RawOf, policy)) == multiset(policy)
  {
    var r := SortBy(RawOf, policy);
    assert Raws(r) == Texts.Keys(RawOf, r);
  }

  lemma SameRaws(a: Policy, b: Policy)
    requires forall p :: p in a <==> p in b
    ensures forall x :: x in Raws(a) <==> x in Raws(b)
  {
    forall x ensures x in Raws(a) <==> x in Raws(b) {
      RawMember(a, x);
      RawMember(b, x);
    }
  }

  lemma StrictRaws(r: Policy, policy: Policy)
    requires Ascending(Raws(r))
    requires forall i, j :: 0 <= i < j < |r| ==> r[i] != r[j]
    requires forall p :: p in r ==> p in policy
    requires forall i, j :: 0 <= i < j < |policy| ==> policy[i].raw != policy[j].raw
    ensures Strict(Raws(r))
  {
    forall i, j | 0 <= i < j < |r| ensures Less(Raws(r)[i], Raws(r)[j]) {
      DistinctRaws(policy, r[i], r[j]);
      assert Leq(Raws(r)[i], Raws(r)[j]);
    }
  }

  lemma DistinctRaws(policy: Policy, a: Path, b: Path)
    requires forall i, j :: 0 <= i < j < |policy| ==> policy[i].raw != policy[j].raw
    requires a in policy && b in policy && a != b
    ensures a.raw != b.raw
  {
    var k :| 0 <= k < |policy| && policy[k] == a;
    var l :| 0 <= l < |policy| && policy[l] == b;
  }

  lemma RawMember(policy: Policy, x: string)
    ensures x in Raws(policy) <==> exists p :: p in policy && p.raw == x
  {
    if x in Raws(policy) {
      var i :| 0 <= i < |Raws(policy)| && Raws(policy)[i] == x;
      assert policy[i] in policy;
    }
    if p :| p in policy && p.raw == x {
      var i :| 0 <= i < |policy| && policy[i] == p;
      assert Raws(policy)[i] == x;
    }
  }

  function SetOf<T>(xs: seq<T>): set<T> {
    set x | x in xs
  }

  lemma SetOfMore<T>(xs: seq<T>, i: nat)
    requires i < |xs|
    ensures SetOf(xs[..i + 1]) == SetOf(xs[..i]) + {xs[i]}
  {
    assert xs[..i + 1] == xs[..i] + [xs[i]];
  }

  lemma RawsGrow(policy: Policy, p: Path)
    ensures Raws(policy + [p]) == Raws(policy) + [p.raw]
  {
  }

  /** Compiles the paths and the built-in one; any path that does not parse fails the whole call. */
  method CompileRedaction(q: Strconv, paths: seq<string>) returns (r: Option<Policy>)
    ensures r.Some? <==> forall raw :: raw in SetOf(paths) + {BuiltinRaw(q)} ==> Parse(q, raw).Some?
    ensures r.Some? ==> Compiled(q, r.value, SetOf(paths) + {BuiltinRaw(q)})
  {
    var all := paths + [BuiltinRaw(q)];
    assert SetOf(all) == SetOf(paths) + {BuiltinRaw(q)};
    var compiled: Policy := [];
    var seen: set<string> := {};
    var i := 0;
    while i < |all|
      invariant i <= |all|
      invariant seen == SetOf(all[..i])
      invariant Collected(q, compiled, seen)
    {
      var raw := all[i];
      SetOfMore(all, i);
      if raw !in seen {
        var segments := ParseRedactionPath(q, raw);
        if segments.None? {
          assert raw in SetOf(all);
          return None;
        }
        CollectOne(q, compiled, seen, Path(raw, segments.value));
        compiled := compiled + [Path(raw, segments.value)];
        seen := seen + {raw};
      }
      i := i + 1;
    }
    assert all[..|all|] == all;
    CollectedCompiles(q, compiled, seen);
    return Some(SortBy(RawOf, compiled));
  }

  ghost predicate Collected(q: Strconv, compiled: Policy, seen: set<string>) {
    && (forall x :: x in Raws(compiled) <==> x in seen)
    && (forall k, l :: 0 <= k < l < |compiled| ==> compiled[k].raw != compiled[l].raw)
    && (forall p :: p in compiled ==> Parse(q, p.raw) == Some(p.segments))
  }

  lemma CollectOne(q: Strconv, compiled: Policy, seen: set<string>, p: Path)
    requires Collected(q, compiled, seen) && p.raw !in seen && Parse(q, p.raw) == Some(p.segments)
    ensures Collected(q, compiled + [p], seen + {p.raw})
  {
    FreshRaw(compiled, p);
    RawsGrow(compiled, p);
  }

  lemma CollectedCompiles(q: Strconv, compiled: Policy, seen: set<string>)
    requires Collected(q, compiled, seen)
    ensures Compiled(q, SortBy(RawOf, compiled), seen)
    ensures forall raw :: raw in seen ==> Parse(q, raw).Some?
  {
    SortedPolicy(compiled, seen);
    forall raw | raw in seen ensures Parse(q, raw).Some? {
      RawMember(compiled, raw);
    }
  }

  lemma FreshRaw(policy: Policy, p: Path)
    requires p.raw !in Raws(policy)
    ensures forall k :: 0 <= k < |policy| ==> policy[k].raw != p.raw
  {
    forall k | 0 <= k < |policy| ensures policy[k].raw != p.raw {
      assert Raws(policy)[k] == policy[k].raw;
    }
  }

  // ---------------------------------------------------------------- applying

  lemma BuiltinParses(q: Strconv)
    requires Lawful(q)
    ensures Parse(q, BuiltinRaw(q)) == Some(AnnotationSegments(LAST_APPLIED))
  {
    LastAppliedIsAKey();
    AnnotationKeyParses(q, LAST_APPLIED);
  }

  lemma LastAppliedIsAKey()
    ensures AnnotationKey(LAST_APPLIED)
  {
    KubectlIsAPrefix();
    ConfigurationIsAName();
    PrefixedIsAKey(KUBECTL, LAST_CONFIGURATION);
  }

  lemma KubectlIsAPrefix()
    ensures AnnotationPrefix(KUBECTL)
  {
  }

  lemma ConfigurationIsAName()
    ensures AnnotationName(LAST_CONFIGURATION)
  {
  }

  lemma PrefixedIsAKey(prefix: string, name: string)
    requires AnnotationPrefix(prefix) && AnnotationName(name)
    ensures AnnotationKey(prefix + "/" + name)
  {
    var key, n := prefix + "/" + name, |prefix|;
    assert key[n] == '/' && key[..n] == prefix && key[n + 1..] == name;
  }

  /** No policy means the built-in one. */
  function Effective(q: Strconv, policy: Option<Policy>): Policy {
    if policy.Some? then policy.value else [Path(BuiltinRaw(q), AnnotationSegments(LAST_APPLIED))]
  }

  /** The positions a policy matches. */
  ghost function Covered(policy: Policy): iset<Position> {
    iset pos: Position | Covers(policy, pos)
  }

  predicate Covers(policy: Policy, pos: Position) {
    exists p :: p in policy && Matches(p.segments, pos)
  }

  lemma CoveredGrows(policy: Policy, p: Path)
    ensures Covered(policy + [p]) == Covered(policy) + Spots(p.segments)
  {
    forall pos: Position ensures pos in Covered(policy + [p]) <==> pos in Covered(policy) + Spots(p.segments) {
      if pos in Spots(p.segments) {
        assert p in policy + [p];
      }
      if o :| o in policy && Matches(o.segments, pos) {
        assert o in policy + [p];
      }
    }
  }

  lemma ScrubOneMore(v: Value, policy: Policy, i: nat)
    requires i < |policy|
    ensures Scrub(Scrub(v, Covered(policy[..i])), Spots(policy[i].segments)) == Scrub(v, Covered(policy[..i + 1]))
  {
    assert policy[..i + 1] == policy[..i] + [policy[i]];
    CoveredGrows(policy[..i], policy[i]);
    ScrubUnion(v, Covered(policy[..i]), Spots(policy[i].segments));
  }

  /** The root is never rewritten: a path starts with a field. */
  lemma RootStays(v: Value, segments: seq<Segment>)
    requires v.Obj? && segments != []
    ensures Scrub(v, Spots(segments)).Obj?
  {
  }

  lemma NothingCovered(v: Value, policy: Policy)
    ensures Scrub(v, Covered(policy[..0])) == v
  {
    assert Covered(policy[..0]) == iset{};
    ScrubNothing(v);
  }

  /** The paths after the first `i` are still to be applied. */
  method ApplyNext(paths: Policy, i: nat, current: Value, ghost subject: Value) returns (r: Value)
    requires i < |paths| && paths[i].segments != []
    requires current.Obj? && current == Scrub(subject, Covered(paths[..i]))
    ensures r.Obj? && r == Scrub(subject, Covered(paths[..i + 1]))
  {
    ScrubOneMore(subject, paths, i);
    RootStays(current, paths[i].segments);
    var next, changed := RedactValue(current, paths[i].segments);
    r := if changed then next else current;
  }

  /** Walks the paths one after the other; what comes out is the set semantics of all of them. */
  method ApplyPaths(paths: Policy, subject: Value) returns (r: Value)
    requires subject.Obj? && forall p :: p in paths ==> p.segments != []
    ensures r == Scrub(subject, Covered(paths))
    ensures r.Obj?
  {
    NothingCovered(subject, paths);
    r := subject;
    var i := 0;
    while i < |paths|
      invariant i <= |paths|
      invariant r.Obj? && r == Scrub(subject, Covered(paths[..i]))
    {
      r := ApplyNext(paths, i, r, subject);
      i := i + 1;
    }
    assert paths[..|paths|] == paths;
  }

  method Apply(q: Strconv, policy: Option<Policy>, subject: Value) returns (r: Value)
    requires subject.Obj?
    requires policy.Some? ==> forall p :: p in policy.value ==> p.segments != []
    ensures r == Scrub(subject, Covered(Effective(q, policy)))
    ensures r.Obj?
  {
    r := ApplyPaths(Effective(q, policy), subject);
  }

  /** Only the set of paths counts, not their order or repetition. */
  lemma OrderIsIrrelevant(a: Policy, b: Policy, v: Value)
    requires forall p :: p in a <==> p in b
    ensures Scrub(v, Covered(a)) == Scrub(v, Covered(b))
  {
    assert Covered(a) == Covered(b);
  }

  lemma ApplyIsIdempotent(policy: Policy, v: Value)
    ensures Scrub(Scrub(v, Covered(policy)), Covered(policy)) == Scrub(v, Covered(policy))
  {
    ScrubUnion(v, Covered(policy), Covered(policy));
    assert Covered(policy) + Covered(policy) == Covered(policy);
  }

  /** Objects that differ only beneath covered positions are stored, and so hashed, alike. */
  lemma StoredAlike(policy: Policy, v: Value, w: Value)
    ensures Scrub(v, Covered(policy)) == Scrub(w, Covered(policy)) <==> Agree(v, w, Covered(policy))
  {
    Noninterference(v, w, Covered(policy));
  }

  // ---------------------------------------------------------------- merging

  /** Every path of the given policies, none policies contributing nothing. */
  ghost predicate Contributed(policies: seq<Option<Policy>>, p: Path) {
    exists o :: o in policies && o.Some? && p in o.value
  }

  ghost predicate RawContributed(policies: seq<Option<Policy>>, raw: string) {
    exists p :: Contributed(policies, p) && p.raw == raw
  }

  method MergeRedaction(policies: seq<Option<Policy>>) returns (r: Option<Policy>)
    ensures IsMerge(policies, r)
    ensures r.Some? ==> Strict(Raws(r.value))
  {
    var merged: Policy := [];
    var i := 0;
    while i < |policies|
      invariant i <= |policies|
      invariant Merges(merged, policies[..i])
    {
      assert policies[..i + 1] == policies[..i] + [policies[i]];
      if policies[i].Some? {
        merged := Absorb(merged, policies[i].value, policies[..i]);
      } else {
        MergesNothing(merged, policies[..i]);
      }
      i := i + 1;
    }
    assert policies[..|policies|] == policies;
    if |merged| == 0 {
      NothingMerged(policies);
      return None;
    }
    FinishMerge(merged, policies);
    return Some(SortBy(RawOf, merged));
  }

  lemma FinishMerge(merged: Policy, policies: seq<Option<Policy>>)
    requires Merges(merged, policies) && merged != []
    ensures exists p :: Contributed(policies, p)
    ensures
      var r := SortBy(RawOf, merged);
      && Strict(Raws(r))
      && (forall raw :: raw in Raws(r) <==> RawContributed(policies, raw))
      && (forall p :: p in r ==> Contributed(policies, p))
  {
    assert merged[0] in merged;
    SortedPolicy(merged, SetOf(Raws(merged)));
    forall raw ensures raw in Raws(merged) <==> RawContributed(policies, raw) {
      RawMember(merged, raw);
    }
  }

  /** A duplicate-free list with the texts of all the given policies. */
  ghost predicate Merges(merged: Policy, policies: seq<Option<Policy>>) {
    && (forall k, l :: 0 <= k < l < |merged| ==> merged[k].raw != merged[l].raw)
    && (forall p :: p in merged ==> Contributed(policies, p))
    && (forall p :: Contributed(policies, p) ==> p.raw in Raws(merged))
  }

  lemma MergesNothing(merged: Policy, policies: seq<Option<Policy>>)
    requires Merges(merged, policies)
    ensures Merges(merged, policies + [None])
  {
    forall p ensures Contributed(policies + [None], p) <==> Contributed(policies, p) {
      if Contributed(policies, p) {
        var o :| o in policies && o.Some? && p in o.value;
        assert o in policies + [None];
      }
    }
  }

  lemma NothingMerged(policies: seq<Option<Policy>>)
    requires Merges([], policies)
    ensures !exists p :: Contributed(policies, p)
  {
    assert Raws([]) == [];
  }

  lemma ContributedGrows(policies: seq<Option<Policy>>, o: Option<Policy>, p: Path)
    ensures Contributed(policies + [o], p) <==> Contributed(policies, p) || (o.Some? && p in o.value)
  {
    if Contributed(policies, p) {
      var x :| x in policies && x.Some? && p in x.value;
      assert x in policies + [o];
    }
    if o.Some? && p in o.value {
      assert o in policies + [o];
    }
  }

  method Absorb(merged: Policy, policy: Policy, ghost policies: seq<Option<Policy>>) returns (r: Policy)
    requires Merges(merged, policies)
    ensures Merges(r, policies + [Some(policy)])
  {
    r := merged;
    var j := 0;
    while j < |policy|
      invariant j <= |policy|
      invariant Merges(r, policies + [Some(policy[..j])])
    {
      var p := policy[j];
      assert policy[..j + 1] == policy[..j] + [p];
      GrowContribution(policies, policy[..j], p);
      RawsGrow(r, p);
      if p.raw !in Raws(r) {
        FreshRaw(r, p);
        r := r + [p];
      }
      j := j + 1;
    }
    assert policy[..|policy|] == policy;
  }

  lemma GrowContribution(policies: seq<Option<Policy>>, part: Policy, p: Path)
    ensures forall x :: Contributed(policies + [Some(part + [p])], x) <==>
      Contributed(policies + [Some(part)], x) || x == p
  {
    forall x
      ensures Contributed(policies + [Some(part + [p])], x) <==> Contributed(policies + [Some(part)], x) || x == p
    {
      ContributedGrows(policies, Some(part + [p]), x);
      ContributedGrows(policies, Some(part), x);
    }
  }

  /** A policy as `CompileRedaction` or `MergeRedaction` leaves it; none means the built-in one. */
  ghost predicate Proper(q: Strconv, policy: Option<Policy>) {
    policy.Some? ==>
      BuiltinRaw(q) in Raws(policy.value) && forall p :: p in policy.value ==> Parse(q, p.raw) == Some(p.segments)
  }

  lemma CoveredByRaw(q: Strconv, a: Policy, b: Policy)
    requires forall p :: p in a + b ==> Parse(q, p.raw) == Some(p.segments)
    requires forall x :: x in Raws(a) ==> x in Raws(b)
    ensures Covered(a) <= Covered(b)
  {
    forall p | p in a ensures p in b {
      RawMember(a, p.raw);
      RawMember(b, p.raw);
      var o :| o in b && o.raw == p.raw;
      assert p in a + b && o in a + b;
    }
  }

  lemma EffectiveParses(q: Strconv, policy: Option<Policy>)
    requires Lawful(q) && Proper(q, policy)
    ensures BuiltinRaw(q) in Raws(Effective(q, policy))
    ensures forall p :: p in Effective(q, policy) ==> Parse(q, p.raw) == Some(p.segments)
  {
    if policy.None? {
      BuiltinParses(q);
      assert Raws(Effective(q, policy)) == [BuiltinRaw(q)];
    }
  }

  /** What `MergeRedaction` promises of its result. */
  ghost predicate IsMerge(policies: seq<Option<Policy>>, r: Option<Policy>) {
    && (r.None? <==> !exists p :: Contributed(policies, p))
    && (r.Some? ==> forall raw :: raw in Raws(r.value) <==> RawContributed(policies, raw))
    && (r.Some? ==> forall p :: p in r.value ==> Contributed(policies, p))
  }

  ghost predicate AllProper(q: Strconv, policies: seq<Option<Policy>>) {
    forall o :: o in policies ==> Proper(q, o)
  }

  lemma ContributedRaw(policies: seq<Option<Policy>>, o: Option<Policy>, raw: string)
    requires o in policies && o.Some? && raw in Raws(o.value)
    ensures RawContributed(policies, raw)
  {
    RawMember(o.value, raw);
    var p :| p in o.value && p.raw == raw;
    assert Contributed(policies, p);
  }

  lemma MergeIsProper(q: Strconv, policies: seq<Option<Policy>>, r: Option<Policy>)
    requires AllProper(q, policies) && IsMerge(policies, r)
    ensures Proper(q, r)
  {
    if r.Some? {
      var p :| Contributed(policies, p);
      var o :| o in policies && o.Some? && p in o.value;
      assert Proper(q, o);
      ContributedRaw(policies, o, BuiltinRaw(q));
      forall x | x in r.value ensures Parse(q, x.raw) == Some(x.segments) {
        var y :| y in policies && y.Some? && x in y.value;
        assert Proper(q, y);
      }
    }
  }

  /** A merge never weakens any policy that went into it. */
  lemma MergeKeeps(q: Strconv, policies: seq<Option<Policy>>, r: Option<Policy>, o: Option<Policy>)
    requires Lawful(q) && AllProper(q, policies) && IsMerge(policies, r) && o in policies
    ensures Covered(Effective(q, o)) <= Covered(Effective(q, r))
  {
    MergeIsProper(q, policies, r);
    EffectiveParses(q, o);
    EffectiveParses(q, r);
    forall x | x in Raws(Effective(q, o)) ensures x in Raws(Effective(q, r)) {
      if o.Some? {
        ContributedRaw(policies, o, x);
        var p :| Contributed(policies, p) && p.raw == x;
      } else {
        assert Raws(Effective(q, o)) == [BuiltinRaw(q)];
      }
    }
    CoveredByRaw(q, Effective(q, o), Effective(q, r));
  }

  ghost predicate SomeCovers(q: Strconv, policies: seq<Option<Policy>>, pos: Position) {
    exists o :: o in policies && pos in Covered(Effective(q, o))
  }

  /** The merge covers exactly what any of the policies covers. */
  lemma MergeCovers(q: Strconv, policies: seq<Option<Policy>>, r: Option<Policy>, pos: Position)
    requires Lawful(q) && AllProper(q, policies) && IsMerge(policies, r) && policies != []
    ensures pos in Covered(Effective(q, r)) <==> SomeCovers(q, policies, pos)
  {
    if SomeCovers(q, policies, pos) {
      var o :| o in policies && pos in Covered(Effective(q, o));
      MergeKeeps(q, policies, r, o);
    }
    if pos in Covered(Effective(q, r)) {
      if r.Some? {
        var p :| p in r.value && Matches(p.segments, pos);
        var o :| o in policies && o.Some? && p in o.value;
        assert pos in Covered(Effective(q, o));
      } else {
        NothingContributed(q, policies);
        assert policies[0] in policies && policies[0] == None;
      }
    }
  }

  lemma NothingContributed(q: Strconv, policies: seq<Option<Policy>>)
    requires AllProper(q, policies) && !exists p :: Contributed(policies, p)
    ensures forall o :: o in policies ==> o.None?
  {
    forall o | o in policies ensures o.None? {
      if o.Some? {
        assert Proper(q, o);
        ContributedRaw(policies, o, BuiltinRaw(q));
        assert false;
      }
    }
  }

  lemma MergeOfTwo(q: Strconv, a: Option<Policy>, b: Option<Policy>, r: Option<Policy>)
    requires Lawful(q) && Proper(q, a) && Proper(q, b) && IsMerge([a, b], r)
    ensures Covered(Effective(q, r)) == Covered(Effective(q, b)) + Covered(Effective(q, a))
  {
    assert AllProper(q, [a, b]);
    forall pos: Position
      ensures pos in Covered(Effective(q, r)) <==> pos in Covered(Effective(q, b)) || pos in Covered(Effective(q, a))
    {
      MergeCovers(q, [a, b], r, pos);
      EitherCovers(q, a, b, pos);
    }
  }

  lemma EitherCovers(q: Strconv, a: Option<Policy>, b: Option<Policy>, pos: Position)
    ensures SomeCovers(q, [a, b], pos) <==> pos in Covered(Effective(q, b)) || pos in Covered(Effective(q, a))
  {
    var pair := [a, b];
    assert pair[0] in pair && pair[1] in pair;
    assert forall o :: o in pair ==> o == a || o == b;
  }

  /** The merge of two policies redacts as one after the other does. */
  lemma MergeLaw(q: Strconv, a: Option<Policy>, b: Option<Policy>, r: Option<Policy>, v: Value)
    requires Lawful(q) && Proper(q, a) && Proper(q, b) && IsMerge([a, b], r)
    ensures Scrub(Scrub(v, Covered(Effective(q, b))), Covered(Effective(q, a))) == Scrub(v, Covered(Effective(q, r)))
  {
    MergeOfTwo(q, a, b, r);
    ScrubUnion(v, Covered(Effective(q, b)), Covered(Effective(q, a)));
  }
}
