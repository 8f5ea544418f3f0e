/**
From rules to the stored document: a reconcile pass compiles the policy of every target it can serve
and installs it, and an object is scrubbed of the built-in path and of exactly what the rules in force
at that pass ask for at any target answering for it.
*/
module Scrubbing {
  import opened Common
  import opened Identity
  import opened Redaction
  import opened RedactionPaths
  import opened Policies
  import opened Registry
  import opened Epochs
  import opened Interests
  import opened Floors
  import opened ControlPlane

  function InterestFor(n: Naming, target: TargetKey): Interest {
    Interest(IdFor(n, target).informer, target.gvk, target.sink)
  }

  /** The target's scope takes in the object, at the sink. */
  predicate Answers(target: TargetKey, item: Key, sink: string) {
    target.sink == sink && InScope(ScopeKey(target.gvk.group, target.gvk.kind, target.namespace), item)
  }

  /** Nothing asked for at the target is malformed. */
  ghost predicate WellFormed(q: Strconv, requests: map<string, seq<Request>>, target: TargetKey) {
    forall path :: AskedFor(q, requests, target, path) ==> Parse(q, path).Some?
  }

  /** `path` is to be scrubbed wherever `target` answers. */
  ghost predicate Due(q: Strconv, requests: map<string, seq<Request>>, target: TargetKey, path: string) {
    path == BuiltinRaw(q) || AskedFor(q, requests, target, path)
  }

  predicate Reaches(q: Strconv, path: string, pos: Position) {
    Parse(q, path).Some? && Matches(Parse(q, path).value, pos)
  }

  ghost predicate DueAt(q: Strconv, requests: map<string, seq<Request>>, target: TargetKey, pos: Position) {
    exists path :: Due(q, requests, target, path) && Reaches(q, path, pos)
  }

  /** Some target of `served` answering for the object has the position due. */
  ghost predicate DueFor(
    q: Strconv, requests: map<string, seq<Request>>, served: set<TargetKey>, item: Key, sink: string, pos: Position)
  {
    exists target :: target in served && Answers(target, item, sink) && DueAt(q, requests, target, pos)
  }

  ghost function DuePositions(
    q: Strconv, requests: map<string, seq<Request>>, served: set<TargetKey>, item: Key, sink: string)
    : iset<Position>
  {
    iset pos: Position | DueFor(q, requests, served, item, sink, pos)
  }

  ghost predicate Carries(q: Strconv, requests: map<string, seq<Request>>, target: TargetKey, policy: Option<Policy>) {
    Policies.Proper(q, policy) && forall raw :: raw in Raws(Effective(q, policy)) <==> Due(q, requests, target, raw)
  }

  // ---------------------------------------------------------------- what a rule asks for

  /** Where a rule wants an object scrubbed: one annotation, or everything its field path names. */
  ghost predicate Demands(wish: Rule, pos: Position) {
    if wish.annotation != "" then pos == [Field("metadata"), Field("annotations"), Field(wish.annotation)]
    else exists segments :: Spellable(segments) && wish.fieldPath == Print(segments) && Matches(segments, pos)
  }

  /** What the API server admits: an annotation key, a field path, or nothing. */
  ghost predicate Admissible(wish: Rule) {
    if wish.annotation != "" then AnnotationKey(wish.annotation) else wish.fieldPath == "" || FieldPath(wish.fieldPath)
  }

  ghost predicate Wishing(requests: map<string, seq<Request>>, target: TargetKey, wish: Rule) {
    exists rule, r :: r in InForce(requests, rule) && r.key == target && wish in r.sinkFloor + r.ruleExtra
  }

  lemma MatchesName(name: string, rest: seq<Segment>, pos: Position)
    ensures Matches([Segment(name, false)] + rest, pos) <==>
      pos != [] && pos[0] == Field(name) && Matches(rest, pos[1..])
  {
    assert ([Segment(name, false)] + rest)[1..] == rest;
  }

  lemma ThreeNames(key: string, pos: Position)
    ensures Matches(AnnotationSegments(key), pos) <==> pos == [Field("metadata"), Field("annotations"), Field(key)]
  {
    var last := [Segment(key, false)];
    MatchesName(METADATA, [Segment(ANNOTATIONS, false), Segment(key, false)], pos);
    if pos != [] {
      assert [Segment(ANNOTATIONS, false), Segment(key, false)] == [Segment(ANNOTATIONS, false)] + last;
      MatchesName(ANNOTATIONS, last, pos[1..]);
      if |pos| > 1 {
        assert last == last + [];
        MatchesName(key, [], pos[1..][1..]);
      }
    }
  }

  /** A path rendered from an admissible wish reaches exactly what the wish demands. */
  lemma RenderedReaches(q: Strconv, wish: Rule, pos: Position)
    requires Lawful(q) && Admissible(wish) && RenderedPath(q, wish) != ""
    ensures Reaches(q, RenderedPath(q, wish), pos) <==> Demands(wish, pos)
  {
    if wish.annotation != "" {
      AnnotationKeyParses(q, wish.annotation);
      ThreeNames(wish.annotation, pos);
    } else {
      var segments: seq<Segment> :| Spellable(segments) && wish.fieldPath == Print(segments);
      PrintParses(q, segments);
      forall other | Spellable(other) && wish.fieldPath == Print(other) ensures other == segments {
        PrintParses(q, other);
      }
    }
  }

  lemma DemandIsRendered(q: Strconv, wish: Rule, pos: Position)
    requires Admissible(wish) && Demands(wish, pos)
    ensures RenderedPath(q, wish) != ""
  {
    if wish.annotation == "" {
      var segments: seq<Segment> :| Spellable(segments) && wish.fieldPath == Print(segments);
      assert ValidName(segments[0].name);
    }
  }

  const BUILTIN: Position := [Field("metadata"), Field("annotations"), Field(LAST_APPLIED)]

  lemma BuiltinIsLastApplied()
    ensures LAST_APPLIED == "kubectl.kubernetes.io/last-applied-configuration"
  {
  }

  lemma BuiltinReaches(q: Strconv, pos: Position)
    requires Lawful(q)
    ensures Reaches(q, BuiltinRaw(q), pos) <==> pos == BUILTIN
  {
    BuiltinParses(q);
    ThreeNames(LAST_APPLIED, pos);
  }

  /**
  What is due at a target is the last-applied configuration and exactly what the rules in force demand
  there: annotations one by one, field paths with every element their wildcards take in.
  */
  lemma DueExactly(q: Strconv, requests: map<string, seq<Request>>, target: TargetKey, pos: Position)
    requires Lawful(q) && forall wish :: Wishing(requests, target, wish) ==> Admissible(wish)
    ensures DueAt(q, requests, target, pos) <==>
      pos == BUILTIN || exists wish :: Wishing(requests, target, wish) && Demands(wish, pos)
  {
    BuiltinReaches(q, pos);
    if path :| Due(q, requests, target, path) && Reaches(q, path, pos) {
      if path != BuiltinRaw(q) {
        var wish := AskedIsWished(q, requests, target, path);
        RenderedReaches(q, wish, pos);
      }
    }
    if wish :| Wishing(requests, target, wish) && Demands(wish, pos) {
      DemandIsDue(q, requests, target, wish, pos);
    }
  }

  lemma AskedIsWished(q: Strconv, requests: map<string, seq<Request>>, target: TargetKey, path: string)
    returns (wish: Rule)
    requires AskedFor(q, requests, target, path)
    ensures Wishing(requests, target, wish) && path == RenderedPath(q, wish) && path != ""
  {
    var rule, r :| r in InForce(requests, rule) && r.key == target && path in Asked(q, Wishes(r));
    wish :| wish in Wishes(r) && path == RenderedPath(q, wish);
  }

  lemma DemandIsDue(q: Strconv, requests: map<string, seq<Request>>, target: TargetKey, wish: Rule, pos: Position)
    requires Lawful(q) && Wishing(requests, target, wish) && Admissible(wish) && Demands(wish, pos)
    ensures DueAt(q, requests, target, pos)
  {
    DemandIsRendered(q, wish, pos);
    RenderedReaches(q, wish, pos);
    var rule, r :| r in InForce(requests, rule) && r.key == target && wish in r.sinkFloor + r.ruleExtra;
    assert RenderedPath(q, wish) in Asked(q, Wishes(r));
    assert Due(q, requests, target, RenderedPath(q, wish));
  }

  /**
  What a rule in force demands is never seen: wherever a served target with such a rule answers for the
  object, the document shows the sentinel there, or nothing because something above it was scrubbed.
  */
  lemma DemandIsScrubbed(
    q: Strconv, requests: map<string, seq<Request>>, served: set<TargetKey>, item: Key, sink: string,
    target: TargetKey, wish: Rule, pos: Position, subject: Value)
    requires Lawful(q) && target in served && Answers(target, item, sink)
    requires Wishing(requests, target, wish) && Admissible(wish) && Demands(wish, pos)
    ensures Look(Scrub(subject, DuePositions(q, requests, served, item, sink)), pos)
      in {None, Some(Leaf(Str("[REDACTED]")))}
    ensures Look(subject, pos).Some? && Visible(DuePositions(q, requests, served, item, sink), pos[..|pos| - 1]) ==>
      Look(Scrub(subject, DuePositions(q, requests, served, item, sink)), pos) == Some(Leaf(Str("[REDACTED]")))
  {
    DemandIsDue(q, requests, target, wish, pos);
    var m := DuePositions(q, requests, served, item, sink);
    assert DueFor(q, requests, served, item, sink, pos);
    DemandBelowRoot(wish, pos);
    ScrubShows(subject, m, pos);
  }

  lemma DemandBelowRoot(wish: Rule, pos: Position)
    requires Demands(wish, pos)
    ensures pos != []
  {
  }

  /** What no rule in force demands, there or above it, is stored as it is. */
  lemma UndemandedIsKept(
    q: Strconv, requests: map<string, seq<Request>>, served: set<TargetKey>, item: Key, sink: string,
    pos: Position, subject: Value)
    requires Lawful(q)
    requires forall target, wish :: target in served && Wishing(requests, target, wish) ==> Admissible(wish)
    requires forall i :: 0 <= i <= |pos| ==> pos[..i] != BUILTIN && !Demanded(requests, served, item, sink, pos[..i])
    ensures Look(Scrub(subject, DuePositions(q, requests, served, item, sink)), pos) == Look(subject, pos)
  {
    var m := DuePositions(q, requests, served, item, sink);
    forall i | 0 <= i <= |pos| ensures pos[..i] !in m {
      forall target | target in served && Answers(target, item, sink)
        ensures !DueAt(q, requests, target, pos[..i])
      {
        DueExactly(q, requests, target, pos[..i]);
      }
    }
    ScrubShows(subject, m, pos);
  }

  ghost predicate Demanded(
    requests: map<string, seq<Request>>, served: set<TargetKey>, item: Key, sink: string, pos: Position)
  {
    exists target, wish ::
      target in served && Answers(target, item, sink) && Wishing(requests, target, wish) && Demands(wish, pos)
  }

  // ---------------------------------------------------------------- the table

  /** The table holds one interest for each target served, with the policy asked for there. */
  ghost predicate Installs(
    q: Strconv, n: Naming, current: map<InterestId, Installed>, served: set<TargetKey>,
    requests: map<string, seq<Request>>)
  {
    && current.Keys == (set target | target in served :: IdFor(n, target))
    && forall target :: target in served ==>
         current[IdFor(n, target)].base == InterestFor(n, target) &&
         Carries(q, requests, target, current[IdFor(n, target)].policy)
  }

  lemma InstallsMore(
    q: Strconv, n: Naming, current: map<InterestId, Installed>, served: set<TargetKey>,
    requests: map<string, seq<Request>>, target: TargetKey, policy: Option<Policy>)
    requires OneToOne(n) && Installs(q, n, current, served, requests) && Carries(q, requests, target, policy)
    ensures Installs(q, n, current[IdFor(n, target) := Installed(InterestFor(n, target), policy)],
                     served + {target}, requests)
  {
    forall other | other in served && IdFor(n, other) == IdFor(n, target) ensures other == target {
      assert n.gvk(n.gvr(other.gvk)) == other.gvk && n.gvk(n.gvr(target.gvk)) == target.gvk;
    }
  }

  /** A policy covers what the paths it carries reach. */
  lemma CarriedCovers(
    q: Strconv, requests: map<string, seq<Request>>, target: TargetKey, policy: Option<Policy>, pos: Position)
    requires Lawful(q) && Carries(q, requests, target, policy)
    ensures pos in Covered(Effective(q, policy)) <==> DueAt(q, requests, target, pos)
  {
    EffectiveParses(q, policy);
    var paths := Effective(q, policy);
    if pos in Covered(paths) {
      var p :| p in paths && Matches(p.segments, pos);
      RawMember(paths, p.raw);
      assert Due(q, requests, target, p.raw) && Reaches(q, p.raw, pos);
    }
    if path :| Due(q, requests, target, path) && Reaches(q, path, pos) {
      RawMember(paths, path);
      var p :| p in paths && p.raw == path;
    }
  }

  /** The interests answering for an object are those of the targets answering for it. */
  lemma AnsweringTargets(
    q: Strconv, n: Naming, current: map<InterestId, Installed>, served: set<TargetKey>,
    requests: map<string, seq<Request>>, i: Installed, item: Key, sink: string)
    requires Installs(q, n, current, served, requests)
    ensures Answering(i, item, sink, current) <==>
      exists target :: target in served && Answers(target, item, sink) && i == current[IdFor(n, target)]
  {
    if Answering(i, item, sink, current) {
      var id :| id in current && current[id] == i;
      var target :| target in served && IdFor(n, target) == id;
      assert Answers(target, item, sink);
    }
  }

  lemma SomeAnswers(
    q: Strconv, n: Naming, current: map<InterestId, Installed>, served: set<TargetKey>,
    requests: map<string, seq<Request>>, item: Key, sink: string)
    requires Installs(q, n, current, served, requests)
    ensures (exists i :: Answering(i, item, sink, current)) <==>
      exists target :: target in served && Answers(target, item, sink)
  {
    if i :| Answering(i, item, sink, current) {
      AnsweringTargets(q, n, current, served, requests, i, item, sink);
    }
    if target :| target in served && Answers(target, item, sink) {
      AnsweringTargets(q, n, current, served, requests, current[IdFor(n, target)], item, sink);
    }
  }

  /** What the answering interests cover together is what is due at the answering targets. */
  lemma AnsweringCovers(
    q: Strconv, n: Naming, current: map<InterestId, Installed>, served: set<TargetKey>,
    requests: map<string, seq<Request>>, item: Key, sink: string, pos: Position)
    requires Lawful(q) && Installs(q, n, current, served, requests)
    ensures pos in DuePositions(q, requests, served, item, sink) <==>
      exists i :: Answering(i, item, sink, current) && pos in Covered(Effective(q, i.policy))
  {
    if i :| Answering(i, item, sink, current) && pos in Covered(Effective(q, i.policy)) {
      AnsweringTargets(q, n, current, served, requests, i, item, sink);
      var target :| target in served && Answers(target, item, sink) && i == current[IdFor(n, target)];
      CarriedCovers(q, requests, target, i.policy, pos);
    }
    if target :| target in served && Answers(target, item, sink) && DueAt(q, requests, target, pos) {
      var i := current[IdFor(n, target)];
      AnsweringTargets(q, n, current, served, requests, i, item, sink);
      CarriedCovers(q, requests, target, i.policy, pos);
    }
  }

  class Scrubber {
    const book: RuleBook
    const table: InterestTable
    const naming: Naming
    /** The targets served since the last pass, and what was in force at it. */
    ghost var served: set<TargetKey>
    ghost var asOf: map<string, seq<Request>>

    constructor (rules: RuleBook, interests: InterestTable, n: Naming)
      requires OneToOne(n) && Lawful(rules.q) && interests.Valid() && interests.current == map[]
      ensures Valid() && served == {} && book == rules && table == interests && naming == n
    {
      book, table, naming := rules, interests, n;
      served, asOf := {}, map[];
    }

    ghost predicate Valid()
      reads this, table
    {
      OneToOne(naming) && Lawful(book.q) && table.Valid() && Installs(book.q, naming, table.current, served, asOf)
    }

    /** The interests of the targets wanted and usable, except where something malformed is asked for. */
    method Translate(usable: set<TargetKey>) returns (desired: map<InterestId, Installed>, ghost taken: set<TargetKey>)
      requires OneToOne(naming) && Lawful(book.q) && book.Valid()
      ensures Installs(book.q, naming, desired, taken, book.requests)
      ensures forall target :: target in taken <==>
        target in usable && Requested(book.requests, target) && WellFormed(book.q, book.requests, target)
    {
      var snapshot := book.Desired();
      desired, taken := map[], {};
      var todo := snapshot.Keys * usable;
      while todo != {}
        invariant todo <= snapshot.Keys * usable
        invariant Installs(book.q, naming, desired, taken, book.requests)
        invariant forall target :: target in taken <==>
          target in snapshot.Keys * usable - todo && WellFormed(book.q, book.requests, target)
        decreases todo
      {
        var target :| target in todo;
        var ok, policy := book.Compile(target, snapshot[target].redactions);
        if ok {
          InstallsMore(book.q, naming, desired, taken, book.requests, target, policy);
          desired := desired[IdFor(naming, target) := Installed(InterestFor(naming, target), policy)];
          taken := taken + {target};
        }
        todo := todo - {target};
      }
    }

    /** One pass: what is served is what the rules in force ask for now. */
    method Refresh(usable: set<TargetKey>)
      requires Valid() && book.Valid()
      modifies this, table
      ensures Valid() && asOf == book.requests
      ensures forall target :: target in served <==>
        target in usable && Requested(book.requests, target) && WellFormed(book.q, book.requests, target)
    {
      ghost var taken;
      var desired;
      desired, taken := Translate(usable);
      var _ := table.Replace(desired);
      served, asOf := taken, book.requests;
    }

    /**
    The document as it may be hashed and written: scrubbed of exactly what is due at the targets
    answering for the object, and nothing at all if none does.
    */
    method Scrub(item: Key, sink: string, subject: Value) returns (r: Option<Value>)
      requires Valid() && subject.Obj?
      ensures r.Some? <==> exists target :: target in served && Answers(target, item, sink)
      ensures r.Some? ==> r.value == Redaction.Scrub(subject, DuePositions(book.q, asOf, served, item, sink))
    {
      AllProper();
      var policy, ok := table.RedactionFor(book.q, item, sink);
      SomeAnswers(book.q, naming, table.current, served, asOf, item, sink);
      if !ok {
        return None;
      }
      SegmentsOf(book.q, policy);
      var scrubbed := Apply(book.q, policy, subject);
      forall pos: Position
        ensures pos in Covered(Effective(book.q, policy)) <==> pos in DuePositions(book.q, asOf, served, item, sink)
      {
        AnsweringCovers(book.q, naming, table.current, served, asOf, item, sink, pos);
      }
      assert Covered(Effective(book.q, policy)) == DuePositions(book.q, asOf, served, item, sink);
      return Some(scrubbed);
    }

    lemma AllProper()
      requires Valid()
      ensures forall i :: i in table.current.Values ==> Policies.Proper(book.q, i.policy)
    {
      forall i | i in table.current.Values ensures Policies.Proper(book.q, i.policy) {
        var id :| id in table.current && table.current[id] == i;
        var target :| target in served && IdFor(naming, target) == id;
      }
    }
  }

  lemma SegmentsOf(q: Strconv, policy: Option<Policy>)
    requires Policies.Proper(q, policy)
    ensures policy.Some? ==> forall p :: p in policy.value ==> p.segments != []
  {
    if policy.Some? {
      forall p | p in policy.value ensures p.segments != [] {
        ParseNonEmpty(q, p.raw);
      }
    }
  }
}
