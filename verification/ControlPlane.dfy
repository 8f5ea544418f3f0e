/**
Redaction floors end to end: rules are rendered, joined and upserted, the registry counts them, and a
target's policy is compiled from its snapshot. After any history of edits that policy is exactly what
the rules still in force ask for.
*/
module ControlPlane {
  import opened Common
  import opened Texts
  import opened RedactionPaths
  import opened Policies
  import opened Registry
  import opened Floors

  /** One target a rule wants, with its sink's floor and its own extras. */
  datatype Request = Request(key: TargetKey, selector: string, sinkFloor: seq<Rule>, ruleExtra: seq<Rule>)

  function Wishes(r: Request): seq<Rule> {
    r.sinkFloor + r.ruleExtra
  }

  function Selected(canon: string -> Option<string>, selector: string): string {
    if canon(selector).Some? then canon(selector).value else selector
  }

  ghost function TargetOf(q: Strconv, canon: string -> Option<string>, r: Request): WatchTarget {
    WatchTarget(r.key, Selected(canon, r.selector), CanonicalText(q, Wishes(r)))
  }

  ghost predicate AllAdmitted(requests: seq<Request>) {
    forall r, rule :: r in requests && rule in Wishes(r) ==> Admitted(rule)
  }

  function InForce(requests: map<string, seq<Request>>, rule: string): seq<Request> {
    if rule in requests then requests[rule] else []
  }

  /** Some rule in force wants the target. */
  ghost predicate Requested(requests: map<string, seq<Request>>, target: TargetKey) {
    exists rule, r :: r in InForce(requests, rule) && r.key == target
  }

  /** `path` is asked for at `key` by some rule in force. */
  ghost predicate AskedFor(q: Strconv, requests: map<string, seq<Request>>, key: TargetKey, path: string) {
    exists rule, r :: r in InForce(requests, rule) && r.key == key && path in Asked(q, Wishes(r))
  }

  class RuleBook {
    const q: Strconv
    const canon: string -> Option<string>
    const registry: PlanRegistry
    /** What each rule in force asked for. */
    ghost var requests: map<string, seq<Request>>

    constructor (quoting: Strconv, selectors: string -> Option<string>)
      ensures fresh(registry) && Valid() && requests == map[] && q == quoting && canon == selectors
    {
      q, canon := quoting, selectors;
      registry := new PlanRegistry();
      requests := map[];
    }

    /** The registry holds exactly the targets of the rules in force. */
    ghost predicate Valid()
      reads this, registry
    {
      registry.Valid() && forall rule :: Holds(rule, InForce(requests, rule))
    }

    ghost predicate Holds(rule: string, wanted: seq<Request>)
      reads registry
    {
      AllAdmitted(wanted) && TargetsFor(registry.rules, rule) == set r | r in wanted :: TargetOf(q, canon, r)
    }

    /** A rule is created or edited. A malformed selector leaves everything as it was. */
    method Apply(rule: string, wanted: seq<Request>) returns (ok: bool)
      requires Valid() && AllAdmitted(wanted)
      modifies this, registry
      ensures Valid()
      ensures ok <==> forall r :: r in wanted ==> canon(r.selector).Some?
      ensures requests == if ok then old(requests)[rule := wanted] else old(requests)
    {
      var targets := Render(wanted);
      ok := registry.Upsert(rule, targets, canon);
      RenderedCanonical(q, canon, wanted, targets);
      if ok {
        requests := requests[rule := wanted];
        forall other ensures Holds(other, InForce(requests, other)) {
          if other != rule {
            assert old(Holds(other, InForce(requests, other)));
          }
        }
      } else {
        forall other ensures Holds(other, InForce(requests, other)) {
          assert old(Holds(other, InForce(requests, other)));
        }
      }
    }

    method Render(wanted: seq<Request>) returns (targets: seq<WatchTarget>)
      ensures |targets| == |wanted|
      ensures forall i :: 0 <= i < |wanted| ==>
        targets[i] == WatchTarget(wanted[i].key, wanted[i].selector, CanonicalText(q, Wishes(wanted[i])))
    {
      targets := [];
      var i := 0;
      while i < |wanted|
        invariant i <= |wanted| && |targets| == i
        invariant forall k :: 0 <= k < i ==>
          targets[k] == WatchTarget(wanted[k].key, wanted[k].selector, CanonicalText(q, Wishes(wanted[k])))
      {
        var text := CanonicalRedaction(q, wanted[i].sinkFloor, wanted[i].ruleExtra);
        targets := targets + [WatchTarget(wanted[i].key, wanted[i].selector, text)];
        i := i + 1;
      }
    }

    /** A rule is deleted. */
    method Withdraw(rule: string)
      requires Valid()
      modifies this, registry
      ensures Valid() && requests == old(requests) - {rule}
    {
      registry.Remove(rule);
      requests := requests - {rule};
      forall other ensures Holds(other, InForce(requests, other)) {
        if other != rule {
          assert old(Holds(other, InForce(requests, other)));
        }
      }
    }

    /** The registry's snapshot: the targets some rule in force wants, with the texts they carry. */
    method Desired() returns (snapshot: map<TargetKey, TargetState>)
      requires Valid()
      ensures forall key :: key in snapshot <==> Requested(requests, key)
      ensures forall key :: key in snapshot ==>
        Lists(snapshot[key].redactions, Values(RefsOf(registry.rules), key, ByRedaction))
    {
      snapshot := registry.Snapshot();
      forall key ensures key in snapshot <==> Requested(requests, key) {
        WantedWhenAsked(key);
      }
    }

    /**
    The policy of a target, from the registry's snapshot: none of it if nobody wants the target, an
    error if a path that was asked for is malformed, and otherwise the built-in path and exactly the
    paths asked for by the rules in force.
    */
    method PolicyFor(key: TargetKey) returns (wanted: bool, ok: bool, policy: Option<Policy>)
      requires Valid() && Lawful(q)
      ensures wanted <==> Requested(requests, key)
      ensures wanted ==> (ok <==> forall path :: AskedFor(q, requests, key, path) ==> Parse(q, path).Some?)
      ensures wanted && ok ==>
        forall raw :: raw in Raws(Effective(q, policy)) <==> raw == BuiltinRaw(q) || AskedFor(q, requests, key, raw)
    {
      var snapshot := Desired();
      if key !in snapshot {
        return false, false, None;
      }
      wanted := true;
      ok, policy := Compile(key, snapshot[key].redactions);
    }

    /** The policy of a target from what a snapshot carries for it. */
    method Compile(key: TargetKey, redactions: seq<string>) returns (ok: bool, policy: Option<Policy>)
      requires Valid() && Lawful(q) && Lists(redactions, Values(RefsOf(registry.rules), key, ByRedaction))
      ensures ok <==> forall path :: AskedFor(q, requests, key, path) ==> Parse(q, path).Some?
      ensures ok ==> Proper(q, policy)
      ensures ok ==>
        forall raw :: raw in Raws(Effective(q, policy)) <==> raw == BuiltinRaw(q) || AskedFor(q, requests, key, raw)
    {
      ok, policy := TargetPolicy(q, redactions);
      forall path ensures path in Flattened(redactions) <==> AskedFor(q, requests, key, path) {
        CarriedIsAsked(key, redactions, path);
      }
    }

    lemma ContributionOf(rule: string, t: WatchTarget) returns (r: Request)
      requires Valid() && Ref(rule, t) in RefsOf(registry.rules)
      ensures r in InForce(requests, rule) && t == TargetOf(q, canon, r)
    {
      assert Holds(rule, InForce(requests, rule)) && t in TargetsFor(registry.rules, rule);
      r :| r in InForce(requests, rule) && t == TargetOf(q, canon, r);
    }

    lemma ContributionFor(rule: string, r: Request)
      requires Valid() && r in InForce(requests, rule)
      ensures Ref(rule, TargetOf(q, canon, r)) in RefsOf(registry.rules)
    {
      assert Holds(rule, InForce(requests, rule)) && TargetOf(q, canon, r) in TargetsFor(registry.rules, rule);
    }

    lemma WantedWhenAsked(key: TargetKey)
      requires Valid()
      ensures Wanted(RefsOf(registry.rules), key) <==> Requested(requests, key)
    {
      if Wanted(RefsOf(registry.rules), key) {
        var ref :| ref in RefsOf(registry.rules) && ref.target.key == key;
        var r := ContributionOf(ref.rule, ref.target);
      }
      if rule, r :| r in InForce(requests, rule) && r.key == key {
        ContributionFor(rule, r);
        assert Ref(rule, TargetOf(q, canon, r)).target.key == key;
      }
    }

    /** What the snapshot carries for a target is what its contributors wrote into it. */
    lemma CarriedIsAsked(key: TargetKey, redactions: seq<string>, path: string)
      requires Valid() && Lawful(q) && Lists(redactions, Values(RefsOf(registry.rules), key, ByRedaction))
      ensures path in Flattened(redactions) <==> AskedFor(q, requests, key, path)
    {
      var refs := RefsOf(registry.rules);
      if path in Flattened(redactions) {
        var text :| text in redactions && path in PathsIn(text);
        assert text in Values(refs, key, ByRedaction);
        var ref :| ref in refs && ref.target.key == key && Tag(ByRedaction, ref) == Some(text);
        var r := ContributionOf(ref.rule, ref.target);
        ReadBack(q, Wishes(r));
      }
      if AskedFor(q, requests, key, path) {
        var rule, r :| r in InForce(requests, rule) && r.key == key && path in Asked(q, Wishes(r));
        ContributionFor(rule, r);
        ReadBack(q, Wishes(r));
        CarriedText(refs, Ref(rule, TargetOf(q, canon, r)), redactions, path);
      }
    }
  }

  lemma CarriedText(refs: set<Ref>, ref: Ref, redactions: seq<string>, path: string)
    requires ref in refs && path in PathsIn(ref.target.redaction)
    requires Lists(redactions, Values(refs, ref.target.key, ByRedaction))
    ensures path in Flattened(redactions)
  {
    assert PathsIn("") == {};
    assert Tag(ByRedaction, ref) == Some(ref.target.redaction);
    assert ref.target.redaction in Values(refs, ref.target.key, ByRedaction);
    assert ref.target.redaction in redactions;
  }

  /** The canonical text is read back as what was asked for. */
  lemma ReadBack(q: Strconv, rules: seq<Rule>)
    requires Lawful(q) && forall r :: r in rules ==> Admitted(r)
    ensures PathsIn(CanonicalText(q, rules)) == Asked(q, rules)
  {
    forall p | p in Asked(q, rules) ensures p != "" && '\n' !in p {
      AskedHasNoBreak(q, rules, p);
    }
    SpelledIsRead(CanonicalText(q, rules), Asked(q, rules));
  }

  lemma RenderedCanonical(q: Strconv, canon: string -> Option<string>, wanted: seq<Request>, targets: seq<WatchTarget>)
    requires |targets| == |wanted|
    requires forall i :: 0 <= i < |wanted| ==>
      targets[i] == WatchTarget(wanted[i].key, wanted[i].selector, CanonicalText(q, Wishes(wanted[i])))
    ensures Canonical(canon, targets).Some? <==> forall r :: r in wanted ==> canon(r.selector).Some?
    ensures Canonical(canon, targets).Some? ==>
      Canonical(canon, targets).value == set r | r in wanted :: TargetOf(q, canon, r)
  {
    forall t | t in targets
      ensures exists r :: r in wanted && t == WatchTarget(r.key, r.selector, CanonicalText(q, Wishes(r)))
    {
      var i :| 0 <= i < |targets| && targets[i] == t;
      assert wanted[i] in wanted;
    }
    forall r | r in wanted ensures WatchTarget(r.key, r.selector, CanonicalText(q, Wishes(r))) in targets {
      var i :| 0 <= i < |wanted| && wanted[i] == r;
      assert targets[i] in targets;
    }
  }
}
