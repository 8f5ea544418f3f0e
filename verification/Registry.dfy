/**
The registry of desired watch targets: a ref-counted index kept up to date incrementally, and
proved at every point equal to counting the rules' target sets from scratch.
*/
module Registry {
  import opened Common
  import opened Texts

  datatype TargetKey = TargetKey(sink: string, gvk: Gvk, namespace: string)

  datatype WatchTarget = WatchTarget(key: TargetKey, selector: string, redaction: string)

  /** One rule's contribution of one target. */
  datatype Ref = Ref(rule: string, target: WatchTarget)

  datatype TargetEntry = TargetEntry(rules: map<string, nat>, selectors: map<string, nat>, redactions: map<string, nat>)

  datatype TargetState = TargetState(ruleKeys: seq<string>, selectors: seq<string>, redactions: seq<string>)

  type Targets = map<TargetKey, TargetEntry>

  // ---------------------------------------------------------------- the view from scratch

  datatype Column = ByRule | BySelector | ByRedaction

  /** What a contribution counts for in a column; an empty redaction counts for nothing. */
  function Tag(c: Column, r: Ref): Option<string> {
    match c
    case ByRule => Some(r.rule)
    case BySelector => Some(r.target.selector)
    case ByRedaction => if r.target.redaction == "" then None else Some(r.target.redaction)
  }

  function Tagged(refs: set<Ref>, key: TargetKey, c: Column, v: string): set<Ref> {
    set r | r in refs && r.target.key == key && Tag(c, r) == Some(v)
  }

  function RefsOf(rules: map<string, set<WatchTarget>>): set<Ref> {
    set k, t | k in rules && t in rules[k] :: Ref(k, t)
  }

  function RefsBy(rule: string, targets: set<WatchTarget>): set<Ref> {
    set t | t in targets :: Ref(rule, t)
  }

  predicate Wanted(refs: set<Ref>, key: TargetKey) {
    exists r :: r in refs && r.target.key == key
  }

  // ---------------------------------------------------------------- the index

  function ColumnOf(e: TargetEntry, c: Column): map<string, nat> {
    match c
    case ByRule => e.rules
    case BySelector => e.selectors
    case ByRedaction => e.redactions
  }

  function Tally(m: map<string, nat>, v: string): nat {
    if v in m then m[v] else 0
  }

  /** The entry counts exactly the contributions to `key`, and holds no zero counter. */
  ghost predicate Counts(e: TargetEntry, refs: set<Ref>, key: TargetKey) {
    forall c, v ::
      Tally(ColumnOf(e, c), v) == |Tagged(refs, key, c, v)| && (v in ColumnOf(e, c) ==> ColumnOf(e, c)[v] > 0)
  }

  ghost predicate Exact(targets: Targets, refs: set<Ref>) {
    && (forall key :: key in targets <==> Wanted(refs, key))
    && (forall key :: key in targets ==> Counts(targets[key], refs, key))
  }

  function Bumped(m: map<string, nat>, v: Option<string>): map<string, nat> {
    if v.None? then m else m[v.value := Tally(m, v.value) + 1]
  }

  /** One contribution fewer; a counter that reaches zero disappears. */
  function Dropped(m: map<string, nat>, v: Option<string>): map<string, nat> {
    if v.None? then m
    else if Tally(m, v.value) <= 1 then m - {v.value}
    else m[v.value := m[v.value] - 1]
  }

  const EMPTY_ENTRY := TargetEntry(map[], map[], map[])

  function BumpedEntry(e: TargetEntry, r: Ref): TargetEntry {
    TargetEntry(
      Bumped(e.rules, Tag(ByRule, r)),
      Bumped(e.selectors, Tag(BySelector, r)),
      Bumped(e.redactions, Tag(ByRedaction, r)))
  }

  function DroppedEntry(e: TargetEntry, r: Ref): TargetEntry {
    TargetEntry(
      Dropped(e.rules, Tag(ByRule, r)),
      Dropped(e.selectors, Tag(BySelector, r)),
      Dropped(e.redactions, Tag(ByRedaction, r)))
  }

  function Added(targets: Targets, r: Ref): Targets {
    var key := r.target.key;
    var e := if key in targets then targets[key] else EMPTY_ENTRY;
    targets[key := BumpedEntry(e, r)]
  }

  function Removed(targets: Targets, r: Ref): Targets {
    var key := r.target.key;
    if key !in targets then targets
    else
      var d := DroppedEntry(targets[key], r);
      if d.rules == map[] then targets - {key} else targets[key := d]
  }

  lemma TaggedMore(refs: set<Ref>, r: Ref, key: TargetKey, c: Column, v: string)
    requires r !in refs
    ensures |Tagged(refs + {r}, key, c, v)|
      == |Tagged(refs, key, c, v)| + if r.target.key == key && Tag(c, r) == Some(v) then 1 else 0
  {
    if r.target.key == key && Tag(c, r) == Some(v) {
      assert Tagged(refs + {r}, key, c, v) == Tagged(refs, key, c, v) + {r};
    } else {
      assert Tagged(refs + {r}, key, c, v) == Tagged(refs, key, c, v);
    }
  }

  lemma NothingTagged(refs: set<Ref>, key: TargetKey)
    requires !Wanted(refs, key)
    ensures Counts(EMPTY_ENTRY, refs, key)
  {
    forall c, v ensures |Tagged(refs, key, c, v)| == 0 {
      assert Tagged(refs, key, c, v) == {};
    }
  }

  lemma BumpedCounts(e: TargetEntry, refs: set<Ref>, r: Ref)
    requires Counts(e, refs, r.target.key) && r !in refs
    ensures Counts(BumpedEntry(e, r), refs + {r}, r.target.key)
  {
    var d := BumpedEntry(e, r);
    forall c, v
      ensures Tally(ColumnOf(d, c), v) == |Tagged(refs + {r}, r.target.key, c, v)|
      ensures v in ColumnOf(d, c) ==> ColumnOf(d, c)[v] > 0
    {
      TaggedMore(refs, r, r.target.key, c, v);
      assert Tally(ColumnOf(e, c), v) == |Tagged(refs, r.target.key, c, v)|;
      assert ColumnOf(d, c) == Bumped(ColumnOf(e, c), Tag(c, r));
    }
  }

  lemma DroppedCounts(e: TargetEntry, refs: set<Ref>, r: Ref)
    requires Counts(e, refs + {r}, r.target.key) && r !in refs
    ensures Counts(DroppedEntry(e, r), refs, r.target.key)
  {
    var d := DroppedEntry(e, r);
    forall c, v
      ensures Tally(ColumnOf(d, c), v) == |Tagged(refs, r.target.key, c, v)|
      ensures v in ColumnOf(d, c) ==> ColumnOf(d, c)[v] > 0
    {
      TaggedMore(refs, r, r.target.key, c, v);
      assert Tally(ColumnOf(e, c), v) == |Tagged(refs + {r}, r.target.key, c, v)|;
      assert ColumnOf(d, c) == Dropped(ColumnOf(e, c), Tag(c, r));
      DroppedTally(ColumnOf(e, c), Tag(c, r), v);
    }
  }

  lemma DroppedTally(m: map<string, nat>, tag: Option<string>, v: string)
    requires v in m ==> m[v] > 0
    ensures Tally(Dropped(m, tag), v) == if tag == Some(v) && Tally(m, v) > 0 then Tally(m, v) - 1 else Tally(m, v)
    ensures v in Dropped(m, tag) ==> Dropped(m, tag)[v] > 0
  {
  }

  lemma OtherKeyCounts(e: TargetEntry, refs: set<Ref>, r: Ref, key: TargetKey)
    requires key != r.target.key
    ensures Counts(e, refs + {r}, key) <==> Counts(e, refs, key)
  {
    forall c, v ensures Tagged(refs + {r}, key, c, v) == Tagged(refs, key, c, v) {
    }
  }

  lemma WantedMore(refs: set<Ref>, r: Ref, key: TargetKey)
    ensures Wanted(refs + {r}, key) <==> Wanted(refs, key) || key == r.target.key
  {
    if Wanted(refs, key) {
      var x :| x in refs && x.target.key == key;
      assert x in refs + {r};
    }
    if key == r.target.key {
      assert r in refs + {r};
    }
  }

  /** Exactness read at one key. */
  ghost predicate ExactAt(targets: Targets, refs: set<Ref>, key: TargetKey) {
    (key in targets <==> Wanted(refs, key)) && (key in targets ==> Counts(targets[key], refs, key))
  }

  lemma AddedIsExact(targets: Targets, refs: set<Ref>, r: Ref)
    requires Exact(targets, refs) && r !in refs
    ensures Exact(Added(targets, r), refs + {r})
  {
    var after := Added(targets, r);
    forall key
      ensures key in after <==> Wanted(refs + {r}, key)
      ensures key in after ==> Counts(after[key], refs + {r}, key)
    {
      assert ExactAt(targets, refs, key);
      AddedAt(targets, refs, r, key);
    }
  }

  lemma AddedAt(targets: Targets, refs: set<Ref>, r: Ref, key: TargetKey)
    requires ExactAt(targets, refs, key) && r !in refs
    ensures ExactAt(Added(targets, r), refs + {r}, key)
  {
    WantedMore(refs, r, key);
    if key != r.target.key {
      OtherKey(targets, Added(targets, r), refs, r, key);
    } else if key in targets {
      BumpedCounts(targets[key], refs, r);
    } else {
      NothingTagged(refs, key);
      BumpedCounts(EMPTY_ENTRY, refs, r);
    }
  }

  lemma OtherKey(targets: Targets, after: Targets, refs: set<Ref>, r: Ref, key: TargetKey)
    requires key != r.target.key && (key in targets <==> key in after)
    requires (key in targets ==> targets[key] == after[key])
    ensures ExactAt(targets, refs, key) <==> ExactAt(after, refs + {r}, key)
    ensures ExactAt(targets, refs + {r}, key) <==> ExactAt(after, refs, key)
  {
    WantedMore(refs, r, key);
    if key in targets {
      OtherKeyCounts(targets[key], refs, r, key);
    }
  }

  lemma EmptyMeansUnwanted(e: TargetEntry, refs: set<Ref>, key: TargetKey)
    requires Counts(e, refs, key)
    ensures e.rules == map[] <==> !Wanted(refs, key)
  {
    if Wanted(refs, key) {
      var r :| r in refs && r.target.key == key;
      assert r in Tagged(refs, key, ByRule, r.rule);
      assert Tally(ColumnOf(e, ByRule), r.rule) > 0;
    }
    if e.rules != map[] {
      var v :| v in e.rules;
      assert v in ColumnOf(e, ByRule);
      assert Tally(ColumnOf(e, ByRule), v) > 0;
      var r :| r in Tagged(refs, key, ByRule, v);
    }
  }

  lemma RemovedIsExact(targets: Targets, refs: set<Ref>, r: Ref)
    requires Exact(targets, refs + {r}) && r !in refs
    ensures Exact(Removed(targets, r), refs)
  {
    var after := Removed(targets, r);
    forall key
      ensures key in after <==> Wanted(refs, key)
      ensures key in after ==> Counts(after[key], refs, key)
    {
      assert ExactAt(targets, refs + {r}, key);
      RemovedAt(targets, refs, r, key);
    }
  }

  lemma RemovedAt(targets: Targets, refs: set<Ref>, r: Ref, key: TargetKey)
    requires ExactAt(targets, refs + {r}, key) && r !in refs
    ensures ExactAt(Removed(targets, r), refs, key)
  {
    if key != r.target.key {
      OtherKey(targets, Removed(targets, r), refs, r, key);
    } else {
      WantedMore(refs, r, key);
      DroppedCounts(targets[key], refs, r);
      EmptyMeansUnwanted(DroppedEntry(targets[key], r), refs, key);
    }
  }

  /** The rules' sets decide the whole index, whatever edits led to them. */
  lemma ExactIsUnique(a: Targets, b: Targets, refs: set<Ref>)
    requires Exact(a, refs) && Exact(b, refs)
    ensures a == b
  {
    forall key ensures key in a <==> key in b {
    }
    forall key | key in a ensures a[key] == b[key] {
      forall c, v ensures Tally(ColumnOf(a[key], c), v) == Tally(ColumnOf(b[key], c), v)
        && (v in ColumnOf(a[key], c) <==> v in ColumnOf(b[key], c))
      {
        assert Tally(ColumnOf(a[key], c), v) == |Tagged(refs, key, c, v)| == Tally(ColumnOf(b[key], c), v);
      }
      SameColumn(ColumnOf(a[key], ByRule), ColumnOf(b[key], ByRule));
      SameColumn(ColumnOf(a[key], BySelector), ColumnOf(b[key], BySelector));
      SameColumn(ColumnOf(a[key], ByRedaction), ColumnOf(b[key], ByRedaction));
    }
  }

  lemma SameColumn(m: map<string, nat>, n: map<string, nat>)
    requires forall v :: Tally(m, v) == Tally(n, v) && (v in m <==> v in n)
    ensures m == n
  {
    forall v | v in m ensures m[v] == n[v] {
      assert Tally(m, v) == Tally(n, v);
    }
  }

  // ---------------------------------------------------------------- the registry

  /** What a rule's set becomes: an empty one is not kept. */
  function WithRule(
    rules: map<string, set<WatchTarget>>, rule: string, desired: set<WatchTarget>): map<string, set<WatchTarget>>
  {
    if desired == {} then rules - {rule} else rules[rule := desired]
  }

  function TargetsFor(rules: map<string, set<WatchTarget>>, rule: string): set<WatchTarget> {
    if rule in rules then rules[rule] else {}
  }

  lemma RefsWithRule(rules: map<string, set<WatchTarget>>, rule: string, desired: set<WatchTarget>)
    ensures RefsOf(WithRule(rules, rule, desired))
      == RefsOf(rules) - RefsBy(rule, TargetsFor(rules, rule) - desired) + RefsBy(rule, desired)
  {
  }

  /** The canonical target set of a request, unless some selector does not parse. */
  function Canonical(canon: string -> Option<string>, requested: seq<WatchTarget>): Option<set<WatchTarget>> {
    if exists t :: t in requested && canon(t.selector).None? then None
    else Some(set t | t in requested :: if canon(t.selector).Some? then t.(selector := canon(t.selector).value) else t)
  }

  class PlanRegistry {
    var rules: map<string, set<WatchTarget>>
    var targets: Targets
    /** Whether a wake-up is waiting to be read. */
    var changes: bool

    constructor ()
      ensures Valid() && rules == map[] && targets == map[] && !changes
    {
      rules := map[];
      targets := map[];
      changes := false;
      new;
      assert RefsOf(rules) == {};
    }

    ghost predicate Valid()
      reads this
    {
      Exact(targets, RefsOf(rules)) && forall k :: k in rules ==> rules[k] != {}
    }

    method AddRefs(rule: string, newcomers: set<WatchTarget>, ghost refs: set<Ref>)
      requires Exact(targets, refs) && forall t :: t in newcomers ==> Ref(rule, t) !in refs
      modifies this`targets
      ensures Exact(targets, refs + RefsBy(rule, newcomers))
    {
      var todo := newcomers;
      ghost var now := refs;
      while todo != {}
        invariant todo <= newcomers
        invariant Exact(targets, now)
        invariant now == refs + RefsBy(rule, newcomers - todo)
        decreases todo
      {
        var t :| t in todo;
        todo := todo - {t};
        AddedIsExact(targets, now, Ref(rule, t));
        targets := Added(targets, Ref(rule, t));
        now := now + {Ref(rule, t)};
      }
      assert newcomers - todo == newcomers;
    }

    method DropRefs(rule: string, stale: set<WatchTarget>, ghost refs: set<Ref>)
      requires Exact(targets, refs) && forall t :: t in stale ==> Ref(rule, t) in refs
      modifies this`targets
      ensures Exact(targets, refs - RefsBy(rule, stale))
    {
      var todo := stale;
      ghost var now := refs;
      while todo != {}
        invariant todo <= stale
        invariant Exact(targets, now)
        invariant now == refs - RefsBy(rule, stale - todo)
        decreases todo
      {
        var t :| t in todo;
        todo := todo - {t};
        ghost var before := now;
        now := now - {Ref(rule, t)};
        assert before == now + {Ref(rule, t)};
        RemovedIsExact(targets, now, Ref(rule, t));
        targets := Removed(targets, Ref(rule, t));
      }
      assert stale - todo == stale;
    }

    /**
    Replaces a rule's target set. A malformed selector fails the call and changes nothing; a
    wake-up is posted exactly when the rule's canonical set changed.
    */
    method Upsert(rule: string, requested: seq<WatchTarget>, canon: string -> Option<string>) returns (ok: bool)
      requires Valid()
      modifies this
      ensures Valid()
      ensures ok <==> Canonical(canon, requested).Some?
      ensures ok <==> forall t :: t in requested ==> canon(t.selector).Some?
      ensures ok ==> forall w :: w in TargetsFor(rules, rule) <==>
        exists t :: t in requested && canon(t.selector).Some? && w == t.(selector := canon(t.selector).value)
      ensures !ok ==> rules == old(rules) && targets == old(targets) && changes == old(changes)
      ensures ok ==>
        && rules == WithRule(old(rules), rule, Canonical(canon, requested).value)
        && changes == (old(changes) || TargetsFor(old(rules), rule) != TargetsFor(rules, rule))
    {
      var desired: set<WatchTarget> := {};
      var i := 0;
      while i < |requested|
        invariant i <= |requested|
        invariant forall t :: t in requested[..i] ==> canon(t.selector).Some?
        invariant desired ==
          set t | t in requested[..i] :: if canon(t.selector).Some? then t.(selector := canon(t.selector).value) else t
      {
        var t := requested[i];
        assert requested[..i + 1] == requested[..i] + [t];
        var sel := canon(t.selector);
        if sel.None? {
          assert t in requested;
          return false;
        }
        desired := desired + {t.(selector := sel.value)};
        i := i + 1;
      }
      assert requested[..|requested|] == requested;
      Install(rule, desired);
      return true;
    }

    method Install(rule: string, desired: set<WatchTarget>)
      requires Valid()
      modifies this
      ensures Valid()
      ensures rules == WithRule(old(rules), rule, desired)
      ensures changes == (old(changes) || TargetsFor(old(rules), rule) != desired)
    {
      var current := TargetsFor(rules, rule);
      ghost var refs := RefsOf(rules);
      AddRefs(rule, desired - current, refs);
      ghost var grown := refs + RefsBy(rule, desired - current);
      DropRefs(rule, current - desired, grown);
      RefsWithRule(rules, rule, desired);
      ghost var shrunk := grown - RefsBy(rule, current - desired);
      assert shrunk == RefsOf(WithRule(rules, rule, desired));
      rules := WithRule(rules, rule, desired);
      if desired != current {
        changes := true;
      }
    }

    method Remove(rule: string)
      requires Valid()
      modifies this
      ensures Valid()
      ensures rules == old(rules) - {rule}
      ensures changes == (old(changes) || rule in old(rules))
    {
      if rule !in rules {
        return;
      }
      DropRefs(rule, rules[rule], RefsOf(rules));
      assert RefsOf(rules) - RefsBy(rule, rules[rule]) == RefsOf(rules - {rule});
      rules := rules - {rule};
      changes := true;
    }

    /** The merged desire for every wanted target, read off the index. */
    method Snapshot() returns (out: map<TargetKey, TargetState>)
      requires Valid()
      ensures forall key :: key in out <==> exists rule, t :: rule in rules && t in rules[rule] && t.key == key
      ensures forall key :: key in out ==> Told(out[key], rules, key)
      ensures forall key :: key in out <==> Wanted(RefsOf(rules), key)
      ensures forall key :: key in out ==> Merged(out[key], RefsOf(rules), key)
    {
      out := map[];
      var todo := targets.Keys;
      while todo != {}
        invariant todo <= targets.Keys
        invariant out.Keys == targets.Keys - todo
        invariant forall key :: key in out ==> Merged(out[key], RefsOf(rules), key)
        decreases todo
      {
        var key :| key in todo;
        todo := todo - {key};
        var ruleKeys := SortedList(targets[key].rules.Keys);
        var selectors := SortedList(targets[key].selectors.Keys);
        var redactions := SortedList(targets[key].redactions.Keys);
        assert Counts(targets[key], RefsOf(rules), key);
        KeysAreTags(targets[key], RefsOf(rules), key);
        out := out[key := TargetState(ruleKeys, selectors, redactions)];
      }
      forall key
        ensures Wanted(RefsOf(rules), key) <==> exists rule, t :: rule in rules && t in rules[rule] && t.key == key
      {
        WantedByRules(rules, key);
      }
      forall key | key in out ensures Told(out[key], rules, key) {
        MergedIsTold(out[key], rules, key);
      }
    }

    method RulesForSink(sink: string) returns (names: seq<string>)
      requires Valid()
      ensures Strict(names)
      ensures forall k :: k in names <==> k in rules && exists t :: t in rules[k] && t.key.sink == sink
    {
      var found: set<string> := {};
      var todo := targets.Keys;
      while todo != {}
        invariant todo <= targets.Keys
        invariant forall k :: k in found <==>
          exists key :: key in targets.Keys - todo && key.sink == sink && k in targets[key].rules
        decreases todo
      {
        var key :| key in todo;
        todo := todo - {key};
        if key.sink == sink {
          found := found + targets[key].rules.Keys;
        }
      }
      forall k ensures k in found <==> k in rules && exists t :: t in rules[k] && t.key.sink == sink {
        RulesAreRefs(targets, rules, sink, k);
      }
      names := SortedList(found);
    }

    /** How many scopes a rule contributes, which is how many snapshot targets list it. */
    method TargetCountForRule(rule: string) returns (n: nat)
      requires Valid()
      ensures n == |set key | key in targets && rule in targets[key].rules|
    {
      var keys := set t | t in TargetsFor(rules, rule) :: t.key;
      forall key ensures key in keys <==> key in targets && rule in targets[key].rules {
        RuleHoldsTarget(targets, rules, rule, key);
      }
      assert keys == set key | key in targets && rule in targets[key].rules;
      n := |keys|;
    }
  }

  // ---------------------------------------------------------------- reading the index

  function Values(refs: set<Ref>, key: TargetKey, c: Column): set<string> {
    set r | r in refs && r.target.key == key && Tag(c, r).Some? :: Tag(c, r).value
  }

  /** A snapshot lists exactly what the contributing rules said, sorted. */
  ghost predicate Merged(s: TargetState, refs: set<Ref>, key: TargetKey) {
    && Lists(s.ruleKeys, Values(refs, key, ByRule))
    && Lists(s.selectors, Values(refs, key, BySelector))
    && Lists(s.redactions, Values(refs, key, ByRedaction))
  }

  predicate Selects(rules: map<string, set<WatchTarget>>, key: TargetKey, v: string) {
    exists rule, t :: rule in rules && t in rules[rule] && t.key == key && t.selector == v
  }

  predicate Redacts(rules: map<string, set<WatchTarget>>, key: TargetKey, v: string) {
    exists rule, t :: rule in rules && t in rules[rule] && t.key == key && t.redaction == v
  }

  /** Who wants the target, under which selectors, and with which redactions, from the rules themselves. */
  ghost predicate Told(s: TargetState, rules: map<string, set<WatchTarget>>, key: TargetKey) {
    && Strict(s.ruleKeys) && Strict(s.selectors) && Strict(s.redactions)
    && (forall v :: v in s.ruleKeys <==> v in rules && exists t :: t in rules[v] && t.key == key)
    && (forall v :: v in s.selectors <==> Selects(rules, key, v))
    && (forall v :: v in s.redactions <==> v != "" && Redacts(rules, key, v))
  }

  lemma WantedByRules(rules: map<string, set<WatchTarget>>, key: TargetKey)
    ensures Wanted(RefsOf(rules), key) <==> exists rule, t :: rule in rules && t in rules[rule] && t.key == key
  {
    if rule, t :| rule in rules && t in rules[rule] && t.key == key {
      assert Ref(rule, t) in RefsOf(rules) && Ref(rule, t).target.key == key;
    }
  }

  lemma MergedIsTold(s: TargetState, rules: map<string, set<WatchTarget>>, key: TargetKey)
    requires Merged(s, RefsOf(rules), key)
    ensures Told(s, rules, key)
  {
    forall v ensures v in s.ruleKeys <==> v in rules && exists t :: t in rules[v] && t.key == key {
      RuleTold(rules, key, v);
    }
    forall v ensures v in s.selectors <==> Selects(rules, key, v) {
      SelectorTold(rules, key, v);
    }
    forall v ensures v in s.redactions <==> v != "" && Redacts(rules, key, v) {
      RedactionTold(rules, key, v);
    }
  }

  lemma RuleTold(rules: map<string, set<WatchTarget>>, key: TargetKey, v: string)
    ensures v in Values(RefsOf(rules), key, ByRule) <==> v in rules && exists t :: t in rules[v] && t.key == key
  {
    if v in rules {
      if t :| t in rules[v] && t.key == key {
        assert Ref(v, t) in RefsOf(rules) && Tag(ByRule, Ref(v, t)) == Some(v);
      }
    }
  }

  lemma SelectorTold(rules: map<string, set<WatchTarget>>, key: TargetKey, v: string)
    ensures v in Values(RefsOf(rules), key, BySelector) <==> Selects(rules, key, v)
  {
    if rule, t :| rule in rules && t in rules[rule] && t.key == key && t.selector == v {
      assert Ref(rule, t) in RefsOf(rules) && Tag(BySelector, Ref(rule, t)) == Some(v);
    }
  }

  lemma RedactionTold(rules: map<string, set<WatchTarget>>, key: TargetKey, v: string)
    ensures v in Values(RefsOf(rules), key, ByRedaction) <==> v != "" && Redacts(rules, key, v)
  {
    if v != "" {
      if rule, t :| rule in rules && t in rules[rule] && t.key == key && t.redaction == v {
        assert Ref(rule, t) in RefsOf(rules) && Tag(ByRedaction, Ref(rule, t)) == Some(v);
      }
    }
  }

  lemma KeysAreTags(e: TargetEntry, refs: set<Ref>, key: TargetKey)
    requires Counts(e, refs, key)
    ensures e.rules.Keys == Values(refs, key, ByRule)
    ensures e.selectors.Keys == Values(refs, key, BySelector)
    ensures e.redactions.Keys == Values(refs, key, ByRedaction)
  {
    forall c, v ensures v in ColumnOf(e, c) <==> v in Values(refs, key, c) {
      ColumnHolds(e, refs, key, c, v);
    }
    assert forall v :: v in e.rules <==> v in ColumnOf(e, ByRule);
    assert forall v :: v in e.selectors <==> v in ColumnOf(e, BySelector);
    assert forall v :: v in e.redactions <==> v in ColumnOf(e, ByRedaction);
  }

  lemma ColumnHolds(e: TargetEntry, refs: set<Ref>, key: TargetKey, c: Column, v: string)
    requires Counts(e, refs, key)
    ensures v in ColumnOf(e, c) <==> v in Values(refs, key, c)
  {
    assert Tally(ColumnOf(e, c), v) == |Tagged(refs, key, c, v)|;
    if v in ColumnOf(e, c) {
      assert Tagged(refs, key, c, v) != {};
      var r :| r in Tagged(refs, key, c, v);
    }
    if v in Values(refs, key, c) {
      var r :| r in refs && r.target.key == key && Tag(c, r) == Some(v);
      assert r in Tagged(refs, key, c, v);
    }
  }

  lemma RuleHoldsTarget(targets: Targets, rules: map<string, set<WatchTarget>>, rule: string, key: TargetKey)
    requires Exact(targets, RefsOf(rules))
    ensures (exists t :: t in TargetsFor(rules, rule) && t.key == key) <==> key in targets && rule in targets[key].rules
  {
    var refs := RefsOf(rules);
    if t :| t in TargetsFor(rules, rule) && t.key == key {
      assert Ref(rule, t) in refs;
      assert Wanted(refs, key);
      ColumnHolds(targets[key], refs, key, ByRule, rule);
      assert Tag(ByRule, Ref(rule, t)) == Some(rule);
    }
    if key in targets && rule in targets[key].rules {
      ColumnHolds(targets[key], refs, key, ByRule, rule);
    }
  }

  lemma RulesAreRefs(targets: Targets, rules: map<string, set<WatchTarget>>, sink: string, k: string)
    requires Exact(targets, RefsOf(rules))
    ensures (exists key :: key in targets.Keys && key.sink == sink && k in targets[key].rules)
      <==> (k in rules && exists t :: t in rules[k] && t.key.sink == sink)
  {
    if key :| key in targets.Keys && key.sink == sink && k in targets[key].rules {
      RuleHoldsTarget(targets, rules, k, key);
    }
    if k in rules {
      if t :| t in rules[k] && t.key.sink == sink {
        RuleHoldsTarget(targets, rules, k, t.key);
        assert t in TargetsFor(rules, k);
        assert t.key in targets.Keys;
      }
    }
  }
}
