/**
How redaction floors are written down and read back: rendered and joined by the control plane, split
and compiled by the data plane.
*/
module Floors {
  import opened Common
  import opened Texts
  import opened Redaction
  import opened RedactionPaths
  import opened Policies

  datatype Rule = Rule(annotation: string, fieldPath: string)

  function RenderedPath(q: Strconv, rule: Rule): string {
    if rule.annotation != "" then AnnotationPath(q, rule.annotation) else rule.fieldPath
  }

  /** The paths a list of rules asks for; a rule that names nothing asks for nothing. */
  function Asked(q: Strconv, rules: seq<Rule>): set<string> {
    set r | r in rules && RenderedPath(q, r) != "" :: RenderedPath(q, r)
  }

  // ---------------------------------------------------------------- canonical join

  /** Adjacent repeats removed. */
  function Compact(xs: seq<string>): (r: seq<string>)
    ensures xs != [] ==> r != [] && r[0] == xs[0]
    ensures forall x :: x in r <==> x in xs
  {
    if |xs| <= 1 then xs
    else
      assert forall x :: x in xs <==> x == xs[0] || x in xs[1..];
      assert xs[1] == xs[1..][0];
      var more := Compact(xs[1..]);
      assert forall x :: x in [xs[0]] + more <==> x == xs[0] || x in more;
      if xs[0] == xs[1] then more else [xs[0]] + more
  }

  lemma {:induction false} CompactIsStrict(xs: seq<string>)
    requires Ascending(xs)
    ensures Strict(Compact(xs))
  {
    if |xs| > 1 {
      var more := Compact(xs[1..]);
      CompactIsStrict(xs[1..]);
      if xs[0] != xs[1] {
        forall j | 0 <= j < |more| ensures Less(xs[0], more[j]) {
          assert more[0] == xs[1];
          assert Less(xs[0], xs[1]);
          if j > 0 {
            LessTransitive(xs[0], more[0], more[j]);
          }
        }
      }
    }
  }

  /** `text` is the one joined form of a set of paths. */
  ghost predicate Spells(text: string, paths: set<string>) {
    exists xs :: Lists(xs, paths) && text == Join(xs, '\n')
  }

  /** The joined form of what a list of rules asks for. */
  ghost function CanonicalText(q: Strconv, rules: seq<Rule>): (text: string)
    ensures Spells(text, Asked(q, rules))
  {
    Join(ListOf(Asked(q, rules)), '\n')
  }

  method CanonicalRedaction(q: Strconv, sinkFloor: seq<Rule>, ruleExtra: seq<Rule>) returns (text: string)
    ensures text == CanonicalText(q, sinkFloor + ruleExtra)
  {
    var rules := sinkFloor + ruleExtra;
    var paths: seq<string> := [];
    var i := 0;
    while i < |rules|
      invariant i <= |rules|
      invariant forall x :: x in paths <==> x in Asked(q, rules[..i])
    {
      assert rules[..i + 1] == rules[..i] + [rules[i]];
      var path := RenderedPath(q, rules[i]);
      if path != "" {
        paths := paths + [path];
      }
      i := i + 1;
    }
    assert rules[..|rules|] == rules;
    var sorted := Sort(paths);
    MembersOf(sorted, paths);
    CompactIsStrict(sorted);
    ListsUnique(Compact(sorted), ListOf(Asked(q, rules)), Asked(q, rules));
    text := Join(Compact(sorted), '\n');
  }

  // ---------------------------------------------------------------- split

  function PathsIn(text: string): set<string> {
    set p | p in Split(text, '\n') && p != ""
  }

  function Flattened(texts: seq<string>): set<string> {
    set t, p | t in texts && p in PathsIn(t) :: p
  }

  method CollectPaths(
    text: string, seen: set<string>, paths: seq<string>)
    returns (newSeen: set<string>, out: seq<string>)
    requires forall x :: x in paths <==> x in seen
    requires forall i, j :: 0 <= i < j < |paths| ==> paths[i] != paths[j]
    ensures newSeen == seen + PathsIn(text)
    ensures forall x :: x in out <==> x in newSeen
    ensures forall i, j :: 0 <= i < j < |out| ==> out[i] != out[j]
  {
    newSeen, out := seen, paths;
    var parts := Split(text, '\n');
    var i := 0;
    while i < |parts|
      invariant i <= |parts|
      invariant newSeen == seen + set p | p in parts[..i] && p != ""
      invariant forall x :: x in out <==> x in newSeen
      invariant forall k, l :: 0 <= k < l < |out| ==> out[k] != out[l]
    {
      assert parts[..i + 1] == parts[..i] + [parts[i]];
      var path := parts[i];
      if path != "" && path !in newSeen {
        assert forall k :: 0 <= k < |out| ==> out[k] in out;
        newSeen := newSeen + {path};
        out := out + [path];
      }
      i := i + 1;
    }
    assert parts[..|parts|] == parts;
  }

  /** The deduplicated, sorted union of the texts' paths. */
  method FlattenRedactions(texts: seq<string>) returns (paths: seq<string>)
    ensures Lists(paths, Flattened(texts))
  {
    paths := [];
    var seen: set<string> := {};
    var i := 0;
    while i < |texts|
      invariant i <= |texts|
      invariant seen == Flattened(texts[..i])
      invariant forall x :: x in paths <==> x in seen
      invariant forall k, l :: 0 <= k < l < |paths| ==> paths[k] != paths[l]
    {
      assert texts[..i + 1] == texts[..i] + [texts[i]];
      seen, paths := CollectPaths(texts[i], seen, paths);
      i := i + 1;
    }
    assert texts[..|texts|] == texts;
    SortLists(paths, seen);
    paths := Sort(paths);
  }

  /** The policy of one interest: none at all when nothing was asked, an error when a path is malformed. */
  method TargetPolicy(q: Strconv, redactions: seq<string>) returns (ok: bool, policy: Option<Policy>)
    requires Lawful(q)
    ensures ok <==> forall p :: p in Flattened(redactions) ==> Parse(q, p).Some?
    ensures ok ==> Compiled(q, Effective(q, policy), Flattened(redactions) + {BuiltinRaw(q)})
  {
    BuiltinParses(q);
    var paths := FlattenRedactions(redactions);
    if |paths| > 0 {
      policy := CompileRedaction(q, paths);
      assert SetOf(paths) == Flattened(redactions);
      return policy.Some?, policy;
    }
    ListsEmpty(paths, Flattened(redactions));
    assert Raws(Effective(q, None)) == [BuiltinRaw(q)];
    return true, None;
  }

  // ---------------------------------------------------------------- reading back

  /** What admission guarantees of a rule: nothing set, an annotation, or a field path. */
  ghost predicate Admitted(rule: Rule) {
    rule.annotation != "" || rule.fieldPath == "" || FieldPath(rule.fieldPath)
  }

  lemma {:induction false} PrintHasNoBreak(segments: seq<Segment>)
    requires forall i :: 0 <= i < |segments| ==> ValidName(segments[i].name)
    ensures '\n' !in Print(segments)
  {
    if segments != [] {
      PrintHasNoBreak(segments[1..]);
      assert '\n' !in segments[0].name;
    }
  }

  lemma AskedHasNoBreak(q: Strconv, rules: seq<Rule>, path: string)
    requires Lawful(q) && (forall r :: r in rules ==> Admitted(r)) && path in Asked(q, rules)
    ensures '\n' !in path
  {
    var r :| r in rules && RenderedPath(q, r) == path;
    if r.annotation != "" {
      assert '\n' !in q.quote(r.annotation);
      assert '\n' !in METADATA && '\n' !in ANNOTATIONS;
    } else {
      var segments :| Spellable(segments) && r.fieldPath == Print(segments);
      PrintHasNoBreak(segments);
    }
  }

  /** Splitting undoes joining. */
  lemma SpelledIsRead(text: string, paths: set<string>)
    requires Spells(text, paths) && forall p :: p in paths ==> p != "" && '\n' !in p
    ensures PathsIn(text) == paths
  {
    var xs :| Lists(xs, paths) && text == Join(xs, '\n');
    SplitJoin(xs, '\n');
  }
}
