/**
Normalization and the informer transform: what of an object is hashed, who touched it, and when
caching the transformed object instead of the raw one makes no difference to either.
*/
module Normalization {
  import opened Common
  import opened Texts
  import opened Redaction
  import Policies
  import Protocol

  type Fields = map<string, Value>

  const MANAGED := "managedFields"
  const VERSION := "resourceVersion"
  const GENERATION := "generation"
  const MANAGER := "manager"
  const UNKNOWN := "unknown"
  const ACTORS := "internal.kuberecord.io/actors"

  // ---------------------------------------------------------------- accessors

  function Metadata(o: Fields): Option<Fields> {
    if METADATA in o && o[METADATA].Obj? then Some(o[METADATA].fields) else None
  }

  function ManagedFields(o: Fields): Option<Value> {
    var m := Metadata(o);
    if m.Some? && MANAGED in m.value then Some(m.value[MANAGED]) else None
  }

  predicate AllStrings(a: Fields) {
    forall k :: k in a ==> a[k].Str?
  }

  /** The typed accessor: nothing unless the annotations are a map of strings. */
  function Annotations(m: Fields): Option<Fields> {
    if ANNOTATIONS in m && m[ANNOTATIONS].Obj? && AllStrings(m[ANNOTATIONS].fields) then Some(m[ANNOTATIONS].fields)
    else None
  }

  predicate HasActors(o: Fields) {
    var m := Metadata(o);
    m.Some? && Annotations(m.value).Some? && ACTORS in Annotations(m.value).value
  }

  // ---------------------------------------------------------------- actors

  function ManagerOf(entry: Fields): string {
    if MANAGER in entry && entry[MANAGER].Str? && entry[MANAGER].s != "" then entry[MANAGER].s else UNKNOWN
  }

  function ManagersIn(items: seq<Value>): set<string> {
    set e | e in items && e.Obj? :: ManagerOf(e.fields)
  }

  function Managers(o: Fields): set<string> {
    var raw := ManagedFields(o);
    if raw.Some? && raw.value.Arr? then ManagersIn(raw.value.items) else {}
  }

  method ExtractActors(o: Fields) returns (actors: seq<string>)
    ensures actors == ListOf(Managers(o))
  {
    var raw := ManagedFields(o);
    if raw.None? || !raw.value.Arr? {
      actors := SortedList({});
      return;
    }
    var items := raw.value.items;
    var seen: set<string> := {};
    var i := 0;
    while i < |items|
      invariant i <= |items|
      invariant seen == ManagersIn(items[..i])
    {
      assert items[..i + 1] == items[..i] + [items[i]];
      if items[i].Obj? {
        seen := seen + {ManagerOf(items[i].fields)};
      }
      i := i + 1;
    }
    assert items[..|items|] == items;
    actors := SortedList(seen);
  }

  function EncodeActors(actors: seq<string>): string {
    Join(actors, ',')
  }

  function NonEmpty(parts: seq<string>): seq<string> {
    if parts == [] then []
    else NonEmpty(parts[..|parts| - 1]) + if parts[|parts| - 1] == "" then [] else [parts[|parts| - 1]]
  }

  function Decoded(value: string): seq<string> {
    NonEmpty(Split(value, ','))
  }

  method DecodeActors(value: string) returns (actors: seq<string>)
    ensures actors == Decoded(value)
  {
    var parts := Split(value, ',');
    actors := [];
    var i := 0;
    while i < |parts|
      invariant i <= |parts|
      invariant actors == NonEmpty(parts[..i])
    {
      assert parts[..i + 1][..i] == parts[..i];
      if parts[i] != "" {
        actors := actors + [parts[i]];
      }
      i := i + 1;
    }
    assert parts[..|parts|] == parts;
  }

  lemma {:induction false} NonEmptyKeeps(parts: seq<string>)
    ensures (forall p :: p in parts ==> p != "") ==> NonEmpty(parts) == parts
    ensures forall p :: p in NonEmpty(parts) ==> p in parts
  {
    if parts != [] {
      var front, last := parts[..|parts| - 1], parts[|parts| - 1];
      NonEmptyKeeps(front);
      assert parts == front + [last];
      assert forall p :: p in front ==> p in parts;
      assert last in parts;
    }
  }

  lemma {:induction false} SplitHasNoSeparator(s: string, sep: char)
    ensures forall p :: p in Split(s, sep) ==> sep !in p
    decreases |s|
  {
    var n := Find(s, sep);
    assert s[..|s|] == s;
    if n < |s| {
      SplitHasNoSeparator(s[n + 1..], sep);
    }
  }

  /** Actor names survive the annotation exactly when none of them holds a comma. */
  lemma ActorsRoundTrip(actors: seq<string>)
    requires forall a :: a in actors ==> a != ""
    ensures Decoded(EncodeActors(actors)) == actors <==> forall a :: a in actors ==> ',' !in a
  {
    var parts := Split(EncodeActors(actors), ',');
    NonEmptyKeeps(parts);
    if forall a :: a in actors ==> ',' !in a {
      SplitJoin(actors, ',');
      assert actors == [] ==> parts == [""] && NonEmpty([""]) == [];
    } else {
      SplitHasNoSeparator(EncodeActors(actors), ',');
    }
  }

  lemma ManagersNamed(o: Fields)
    ensures forall a :: a in ListOf(Managers(o)) ==> a != ""
  {
  }

  /** The name an entry of the managed fields gives: its manager's, if it has one. */
  predicate Names(v: Value, a: string) {
    && v.Obj?
    && if "manager" in v.fields && v.fields["manager"].Str? && v.fields["manager"].s != "" then
         a == v.fields["manager"].s
       else a == "unknown"
  }

  /** Unless the object brought the operator's annotation, its actors are the managers' names, ascending, once each. */
  lemma ActorsAreManagers(o: Fields)
    requires !HasActors(o)
    ensures Strict(Actors(o))
    ensures forall a :: a in Actors(o) <==>
      exists m, items, i ::
        && "metadata" in o && o["metadata"] == Obj(m)
        && "managedFields" in m && m["managedFields"] == Arr(items)
        && 0 <= i < |items| && Names(items[i], a)
  {
    forall a | a in Managers(o)
      ensures exists m, items, i ::
        && "metadata" in o && o["metadata"] == Obj(m)
        && "managedFields" in m && m["managedFields"] == Arr(items)
        && 0 <= i < |items| && Names(items[i], a)
    {
      var m := Metadata(o).value;
      var items := m[MANAGED].items;
      var e :| e in items && e.Obj? && ManagerOf(e.fields) == a;
      var i :| 0 <= i < |items| && items[i] == e;
      assert o["metadata"] == Obj(m) && m["managedFields"] == Arr(items) && Names(items[i], a);
    }
  }

  // ---------------------------------------------------------------- stripping

  predicate Volatile(k: string) {
    k == MANAGED || k == VERSION || k == GENERATION
  }

  /** Whether the operator's annotation is the only one, so that the map goes with it. */
  predicate OnlyOurs(m: Fields, k: string, stripActors: bool)
    requires k in m
  {
    k == ANNOTATIONS && stripActors && m[k].Obj? && |m[k].fields| == 1
  }

  function StrippedField(m: Fields, k: string, stripActors: bool): Value
    requires k in m
  {
    if k == ANNOTATIONS && stripActors && m[k].Obj? then Obj(m[k].fields - {ACTORS}) else m[k]
  }

  function StrippedMeta(m: Fields, stripActors: bool): Fields {
    map k | k in m && !Volatile(k) && !OnlyOurs(m, k, stripActors) :: StrippedField(m, k, stripActors)
  }

  function Stripped(o: Fields, stripActors: bool): Fields {
    match Metadata(o)
    case None => o
    case Some(m) => o[METADATA := Obj(StrippedMeta(m, stripActors))]
  }

  method StripVolatileFields(o: Fields, stripActors: bool) returns (r: Fields)
    ensures r == Stripped(o, stripActors)
  {
    if METADATA !in o || !o[METADATA].Obj? {
      return o;
    }
    var m := o[METADATA].fields;
    var out: Fields := map[];
    var todo := m.Keys;
    while todo != {}
      invariant todo <= m.Keys
      invariant forall k :: k in out <==> k in m && k !in todo && !Volatile(k) && !OnlyOurs(m, k, stripActors)
      invariant forall k :: k in out ==> out[k] == StrippedField(m, k, stripActors)
      decreases todo
    {
      var k :| k in todo;
      todo := todo - {k};
      if Volatile(k) {
      } else if k != ANNOTATIONS || !stripActors || !m[k].Obj? {
        out := out[k := m[k]];
      } else if |m[k].fields| != 1 {
        out := out[k := Obj(m[k].fields - {ACTORS})];
      }
    }
    assert out == StrippedMeta(m, stripActors);
    r := o[METADATA := Obj(out)];
  }

  /** What is hashed, before redaction, and who is recorded. */
  function Content(o: Fields): Fields {
    Stripped(o, HasActors(o))
  }

  ghost function Actors(o: Fields): seq<string> {
    if HasActors(o) then Decoded(Annotations(Metadata(o).value).value[ACTORS].s) else ListOf(Managers(o))
  }

  /** The stored document of an object under a policy. */
  ghost function Stored(o: Fields, policy: Policies.Policy): Value {
    Scrub(Obj(Content(o)), Policies.Covered(policy))
  }

  // ---------------------------------------------------------------- the transform

  function WithActors(m: Fields, value: string): Fields {
    var a := if Annotations(m).Some? then Annotations(m).value else map[];
    m[ANNOTATIONS := Obj(a[ACTORS := Str(value)])]
  }

  ghost function Transformed(o: Fields): Fields {
    if ManagedFields(o).None? then o
    else
      var m := Metadata(o).value;
      var marked := if Managers(o) == {} then m else WithActors(m, EncodeActors(ListOf(Managers(o))));
      o[METADATA := Obj(marked - {MANAGED})]
  }

  class Unstructured {
    var fields: Fields

    constructor (o: Fields)
      ensures fields == o
    {
      fields := o;
    }

    /** Harvests the actors into an annotation and drops the managed fields, in place. */
    method TransformObject()
      modifies this
      ensures fields == Transformed(old(fields))
    {
      if METADATA !in fields || !fields[METADATA].Obj? || MANAGED !in fields[METADATA].fields {
        return;
      }
      var actors := ExtractActors(fields);
      ListsEmpty(actors, Managers(fields));
      var m := fields[METADATA].fields;
      if |actors| > 0 {
        m := WithActors(m, EncodeActors(actors));
      }
      fields := fields[METADATA := Obj(m - {MANAGED})];
    }

    /** The hashed document, before redaction, and the actors. */
    method Normalize() returns (content: Fields, actors: seq<string>)
      ensures content == Content(fields) && actors == Actors(fields)
    {
      var has := HasActors(fields);
      if has {
        actors := DecodeActors(Annotations(Metadata(fields).value).value[ACTORS].s);
      } else {
        actors := ExtractActors(fields);
      }
      content := StripVolatileFields(fields, has);
    }
  }

  // ---------------------------------------------------------------- what is hashed

  /** The two maps agree outside `except`. */
  ghost predicate SameOutside(a: Fields, b: Fields, except: set<string>) {
    forall k :: k !in except ==> (k in a <==> k in b) && (k in a ==> a[k] == b[k])
  }

  /** The annotations that are hashed: all but the operator's own, and none at all if only that is left. */
  function HashedAnnotations(m: Fields, has: bool): Option<Value> {
    if "annotations" !in m then None
    else if !has || !m["annotations"].Obj? then Some(m["annotations"])
    else if |m["annotations"].fields| == 1 then None
    else Some(Obj(m["annotations"].fields - {"internal.kuberecord.io/actors"}))
  }

  /** The objects differ at most in what the API server keeps for itself and in the operator's annotation. */
  ghost predicate Alike(o: Fields, p: Fields) {
    && SameOutside(o, p, {"metadata"})
    && match (Metadata(o), Metadata(p))
       case (Some(m), Some(n)) =>
         && SameOutside(m, n, {"managedFields", "resourceVersion", "generation", "annotations"})
         && HashedAnnotations(m, HasActors(o)) == HashedAnnotations(n, HasActors(p))
       case _ => SameOutside(o, p, {})
  }

  predicate StripsTo(m: Fields, has: bool, kept: Fields, k: string) {
    if k == "annotations" then (if k in kept then Some(kept[k]) else None) == HashedAnnotations(m, has)
    else
      && (k in kept <==> k in m && k !in {"managedFields", "resourceVersion", "generation"})
      && (k in kept ==> kept[k] == m[k])
  }

  lemma StrippedAt(m: Fields, has: bool, k: string)
    ensures StripsTo(m, has, StrippedMeta(m, has), k)
  {
    NamesDiffer();
  }

  lemma SameStripped(m: Fields, n: Fields, has: bool, had: bool)
    ensures StrippedMeta(m, has) == StrippedMeta(n, had) <==>
      && SameOutside(m, n, {"managedFields", "resourceVersion", "generation", "annotations"})
      && HashedAnnotations(m, has) == HashedAnnotations(n, had)
  {
    var a, b := StrippedMeta(m, has), StrippedMeta(n, had);
    forall k ensures StripsTo(m, has, a, k) && StripsTo(n, had, b, k) {
      StrippedAt(m, has, k);
      StrippedAt(n, had, k);
    }
    assert StripsTo(m, has, a, "annotations") && StripsTo(n, had, b, "annotations");
    if a == b {
      forall k | k !in {"managedFields", "resourceVersion", "generation", "annotations"}
        ensures (k in m <==> k in n) && (k in m ==> m[k] == n[k])
      {
        assert StripsTo(m, has, a, k) && StripsTo(n, had, b, k);
      }
    } else if SameOutside(m, n, {"managedFields", "resourceVersion", "generation", "annotations"}) {
      StrippedDiffer(m, n, has, had, a, b);
    }
  }

  lemma StrippedDiffer(m: Fields, n: Fields, has: bool, had: bool, a: Fields, b: Fields)
    requires forall k :: StripsTo(m, has, a, k)
    requires forall k :: StripsTo(n, had, b, k)
    requires SameOutside(m, n, {"managedFields", "resourceVersion", "generation", "annotations"}) && a != b
    ensures HashedAnnotations(m, has) != HashedAnnotations(n, had)
  {
    if a.Keys != b.Keys {
      var k :| k in a.Keys + b.Keys && (k !in a || k !in b);
      assert StripsTo(m, has, a, k) && StripsTo(n, had, b, k);
    } else {
      var k :| k in a && a[k] != b[k];
      assert StripsTo(m, has, a, k) && StripsTo(n, had, b, k);
    }
  }

  /** The hashed document, before redaction, is the same exactly when the objects are alike. */
  lemma ContentExactly(o: Fields, p: Fields)
    ensures Content(o) == Content(p) <==> Alike(o, p)
  {
    match (Metadata(o), Metadata(p))
    case (Some(m), Some(n)) =>
      SameStripped(m, n, HasActors(o), HasActors(p));
      var a, b := StrippedMeta(m, HasActors(o)), StrippedMeta(n, HasActors(p));
      assert Content(o)[METADATA] == Obj(a) && Content(p)[METADATA] == Obj(b);
      SameWith(o, p, Obj(a), Obj(b));
    case _ =>
      SameWhole(o, p);
  }

  lemma SameWith(o: Fields, p: Fields, v: Value, w: Value)
    ensures o[METADATA := v] == p[METADATA := w] <==> SameOutside(o, p, {"metadata"}) && v == w
  {
    var a, b := o[METADATA := v], p[METADATA := w];
    if a == b {
      assert a[METADATA] == b[METADATA];
      forall k | k != METADATA ensures (k in o <==> k in p) && (k in o ==> o[k] == p[k]) {
        assert (k in a <==> k in o) && (k in b <==> k in p);
      }
    }
  }

  /** With no metadata on one side, only equal objects hash alike. */
  lemma SameWhole(o: Fields, p: Fields)
    requires Metadata(o).None? || Metadata(p).None?
    ensures Content(o) == Content(p) <==> SameOutside(o, p, {})
  {
    if Metadata(o).Some? {
      assert Content(o)[METADATA].Obj?;
    }
    if Metadata(p).Some? {
      assert Content(p)[METADATA].Obj?;
    }
    if SameOutside(o, p, {}) {
      assert o == p;
    }
  }

  // ---------------------------------------------------------------- commuting

  lemma NamesDiffer()
    ensures ANNOTATIONS != MANAGED && ANNOTATIONS != VERSION && ANNOTATIONS != GENERATION
    ensures !Volatile(ANNOTATIONS)
  {
    assert |ANNOTATIONS| == 11 && |MANAGED| == 13 && |VERSION| == 15 && |GENERATION| == 10;
  }

  lemma TransformIsIdempotent(o: Fields)
    ensures Transformed(Transformed(o)) == Transformed(o)
    ensures ManagedFields(Transformed(o)).None?
  {
  }

  /** Whether the transform has anything to write into the object. */
  predicate Harvests(o: Fields) {
    Managers(o) != {}
  }

  /** The annotations are absent, or a non-empty map of strings: what the accessor can carry over. */
  predicate Carried(m: Fields) {
    ANNOTATIONS in m ==> Annotations(m).Some? && m[ANNOTATIONS].fields != map[]
  }

  /** What the annotations field of a transformed object is stripped to: nothing if ours was the only one. */
  lemma MarkedStrips(m: Fields, value: string)
    ensures
      var marked := WithActors(m, value);
      && Annotations(marked).Some? && ACTORS in Annotations(marked).value
      && Annotations(marked).value[ACTORS] == Str(value)
      && (OnlyOurs(marked, ANNOTATIONS, true) <==> Annotations(m).None? || Annotations(m).value.Keys <= {ACTORS})
      && StrippedField(marked, ANNOTATIONS, true) ==
           Obj((if Annotations(m).Some? then Annotations(m).value else map[]) - {ACTORS})
  {
    var a := if Annotations(m).Some? then Annotations(m).value else map[];
    var b := a[ACTORS := Str(value)];
    assert b.Keys == a.Keys + {ACTORS};
    assert |b| == |b.Keys|;
    if a.Keys <= {ACTORS} {
      assert b.Keys == {ACTORS};
    } else {
      var k :| k in a.Keys && k != ACTORS;
      assert {k, ACTORS} <= b.Keys;
      SubsetSize({k, ACTORS}, b.Keys);
    }
    assert b - {ACTORS} == a - {ACTORS};
  }

  lemma SubsetSize(a: set<string>, b: set<string>)
    requires a <= b
    ensures |a| <= |b|
  {
    assert b == a + (b - a);
  }

  /** Stripping the marked metadata, field by field. */
  lemma MarkedMeta(m: Fields, value: string)
    ensures
      var kept := StrippedMeta(WithActors(m, value) - {MANAGED}, true);
      var only := Annotations(m).None? || Annotations(m).value.Keys <= {ACTORS};
      && (forall k :: k != ANNOTATIONS ==> (k in kept <==> k in m && !Volatile(k)) && (k in kept ==> kept[k] == m[k]))
      && (ANNOTATIONS in kept <==> !only)
      && (ANNOTATIONS in kept ==> kept[ANNOTATIONS] == Obj(Annotations(m).value - {ACTORS}))
  {
    NamesDiffer();
    MarkedStrips(m, value);
  }

  /** Stripping the raw metadata, field by field. */
  lemma RawMeta(m: Fields, has: bool)
    requires has <==> Annotations(m).Some? && ACTORS in Annotations(m).value
    ensures
      var kept := StrippedMeta(m, has);
      && (forall k :: k != ANNOTATIONS ==> (k in kept <==> k in m && !Volatile(k)) && (k in kept ==> kept[k] == m[k]))
      && (ANNOTATIONS in kept <==> ANNOTATIONS in m && !(has && Annotations(m).value.Keys == {ACTORS}))
      && (ANNOTATIONS in kept ==>
            kept[ANNOTATIONS] == if has then Obj(Annotations(m).value - {ACTORS}) else m[ANNOTATIONS])
  {
    NamesDiffer();
    if has {
      OneKey(Annotations(m).value, ACTORS);
    }
  }

  lemma OneKey(a: Fields, k: string)
    requires k in a
    ensures |a| == 1 <==> a.Keys == {k}
  {
    if a.Keys != {k} {
      var o :| o in a.Keys && o != k;
      SubsetSize({k, o}, a.Keys);
    }
    assert |a| == |a.Keys|;
  }

  lemma SameMeta(m: Fields, value: string, has: bool)
    requires has <==> Annotations(m).Some? && ACTORS in Annotations(m).value
    ensures StrippedMeta(WithActors(m, value) - {MANAGED}, true) == StrippedMeta(m, has) <==> Carried(m)
  {
    MarkedMeta(m, value);
    RawMeta(m, has);
    var marked, raw := StrippedMeta(WithActors(m, value) - {MANAGED}, true), StrippedMeta(m, has);
    if Annotations(m).Some? {
      var a := Annotations(m).value;
      assert a.Keys == {} <==> a == map[];
      assert ACTORS !in a ==> a - {ACTORS} == a;
      assert ACTORS !in a && a.Keys <= {ACTORS} ==> a.Keys == {};
      assert ACTORS in a && a.Keys <= {ACTORS} ==> a.Keys == {ACTORS};
    }
    if Carried(m) {
      assert marked.Keys == raw.Keys;
      assert marked == raw;
    } else {
      assert ANNOTATIONS in raw && ANNOTATIONS !in marked;
    }
  }

  lemma StrippedIs(o: Fields, m: Fields, stripActors: bool)
    requires Metadata(o) == Some(m)
    ensures Stripped(o, stripActors) == (o - {METADATA})[METADATA := Obj(StrippedMeta(m, stripActors))]
  {
  }

  lemma TransformedIs(o: Fields, m: Fields, value: string)
    requires Harvests(o) && Metadata(o) == Some(m) && value == EncodeActors(ListOf(Managers(o)))
    ensures Metadata(Transformed(o)) == Some(WithActors(m, value) - {MANAGED})
    ensures Transformed(o) - {METADATA} == o - {METADATA}
    ensures HasActors(Transformed(o))
  {
    NamesDiffer();
    MarkedStrips(m, value);
    assert Annotations(WithActors(m, value) - {MANAGED}) == Annotations(WithActors(m, value));
  }

  lemma HarvestCommutes(o: Fields)
    requires Harvests(o)
    ensures Content(Transformed(o)) == Content(o) <==> Carried(Metadata(o).value)
  {
    var t, m, value := Transformed(o), Metadata(o).value, EncodeActors(ListOf(Managers(o)));
    var marked := WithActors(m, value) - {MANAGED};
    TransformedIs(o, m, value);
    StrippedIs(t, marked, true);
    StrippedIs(o, m, HasActors(o));
    SameMeta(m, value, HasActors(o));
    SameAt(o - {METADATA}, StrippedMeta(marked, true), StrippedMeta(m, HasActors(o)));
  }

  lemma SameAt(rest: Fields, a: Fields, b: Fields)
    ensures rest[METADATA := Obj(a)] == rest[METADATA := Obj(b)] <==> a == b
  {
    if a != b {
      assert rest[METADATA := Obj(a)][METADATA] != rest[METADATA := Obj(b)][METADATA];
    }
  }

  lemma NoHarvestCommutes(o: Fields)
    requires !Harvests(o)
    ensures Content(Transformed(o)) == Content(o)
  {
    if ManagedFields(o).Some? {
      var m := Metadata(o).value;
      NamesDiffer();
      assert Annotations(m - {MANAGED}) == Annotations(m);
      assert HasActors(Transformed(o)) == HasActors(o);
      assert StrippedMeta(m - {MANAGED}, HasActors(o)) == StrippedMeta(m, HasActors(o));
    }
  }

  /**
  Hashing the transformed object is hashing the raw one exactly when nothing was harvested or
  the accessor could carry the annotations over.
  */
  lemma ContentCommutes(o: Fields)
    ensures Content(Transformed(o)) == Content(o) <==> !Harvests(o) || Carried(Metadata(o).value)
  {
    if Harvests(o) {
      HarvestCommutes(o);
    } else {
      NoHarvestCommutes(o);
    }
  }

  /** The harvested names as the annotation gives them back. */
  ghost function Relisted(o: Fields): seq<string> {
    Decoded(EncodeActors(ListOf(Managers(o))))
  }

  /**
  The actors are the same exactly when the annotation can hold the harvested names; of an object that
  brought the annotation itself, exactly when nothing was harvested or it already listed those names.
  */
  lemma ActorsCommute(o: Fields)
    ensures !HasActors(o) ==>
      (Actors(Transformed(o)) == Actors(o) <==> forall a :: a in Managers(o) ==> ',' !in a)
    ensures HasActors(o) ==> (Actors(Transformed(o)) == Actors(o) <==> !Harvests(o) || Actors(o) == Relisted(o))
    ensures (forall a :: a in Managers(o) ==> ',' !in a) ==> Relisted(o) == ListOf(Managers(o))
  {
    ManagersNamed(o);
    ActorsRoundTrip(ListOf(Managers(o)));
    if Harvests(o) {
      HarvestedActors(o);
    } else {
      UnharvestedActors(o);
    }
  }

  lemma HarvestedActors(o: Fields)
    requires Harvests(o)
    ensures Actors(Transformed(o)) == Relisted(o)
  {
    var m, value := Metadata(o).value, EncodeActors(ListOf(Managers(o)));
    TransformedIs(o, m, value);
    NamesDiffer();
    MarkedStrips(m, value);
    assert Annotations(WithActors(m, value) - {MANAGED}) == Annotations(WithActors(m, value));
  }

  lemma UnharvestedActors(o: Fields)
    requires !Harvests(o)
    ensures Actors(Transformed(o)) == Actors(o)
  {
    if ManagedFields(o).Some? {
      var m := Metadata(o).value;
      NamesDiffer();
      assert Annotations(m - {MANAGED}) == Annotations(m);
      assert Managers(Transformed(o)) == {};
    }
  }

  /**
  Caching transformed objects changes neither the stored document nor the actors: nothing was
  harvested, or the accessor carries the annotations over and the names are read back.
  */
  lemma TransformIsInvisible(o: Fields, policy: Policies.Policy)
    requires Harvests(o) ==> Carried(Metadata(o).value) && Actors(o) == Relisted(o)
    ensures Stored(Transformed(o), policy) == Stored(o, policy) && Actors(Transformed(o)) == Actors(o)
  {
    ContentCommutes(o);
    if Harvests(o) {
      HarvestedActors(o);
    } else {
      UnharvestedActors(o);
    }
  }

  // ---------------------------------------------------------------- where it does show

  /** An object touched by one manager, with the given annotations. */
  function Touched(annotations: Fields, manager: string): Fields {
    map[METADATA := Obj(map[ANNOTATIONS := Obj(annotations),
                            MANAGED := Arr([Obj(map[MANAGER := Str(manager)])])])]
  }

  lemma TouchedHarvests(annotations: Fields, manager: string)
    requires manager != ""
    ensures Metadata(Touched(annotations, manager)) == Some(Touched(annotations, manager)[METADATA].fields)
    ensures Managers(Touched(annotations, manager)) == {manager}
    ensures Metadata(Touched(annotations, manager)).value[ANNOTATIONS] == Obj(annotations)
  {
    var o := Touched(annotations, manager);
    NamesDiffer();
    var items := [Obj(map[MANAGER := Str(manager)])];
    assert ManagedFields(o) == Some(Arr(items));
    assert items[0] in items;
    assert ManagersIn(items) == {manager};
  }

  /** An object whose annotations are present but empty hashes differently once it is transformed. */
  lemma EmptyAnnotationsShow()
    ensures var o := Touched(map[], "kubectl"); Content(Transformed(o)) != Content(o)
  {
    TouchedHarvests(map[], "kubectl");
    ContentCommutes(Touched(map[], "kubectl"));
  }

  /** A manager name with a comma comes back as other names. */
  lemma CommaShows()
    ensures var o := Touched(map["a" := Str("b")], "one,two"); Actors(Transformed(o)) != Actors(o)
  {
    var o := Touched(map["a" := Str("b")], "one,two");
    TouchedHarvests(map["a" := Str("b")], "one,two");
    assert "one,two"[3] == ',';
    assert !HasActors(o) by {
      assert |ACTORS| == 29;
    }
    ActorsCommute(o);
  }

  // ---------------------------------------------------------------- deduplication

  /**
  An update that touches only what the API server keeps for itself writes nothing: a worker that finds
  such an object skips it as a duplicate.
  */
  lemma ServerUpdateIsSkipped(
    o: Fields, p: Fields, policy: Policies.Policy, render: Value -> Json,
    cfg: Protocol.Config, s: Protocol.State, uid: Uid, version: string)
    requires Alike(o, p)
    requires s.worker == Protocol.Retried(Some(Protocol.Obj(uid, render(Stored(p, policy)), version)))
    requires s.entry.Some? && s.entry.value.uid == uid
    requires s.entry.value.hash == cfg.codec.hash(render(Stored(o, policy)))
    ensures Protocol.AfterLoad(cfg, s, true) == s.(worker := Protocol.Idle)
  {
    ContentExactly(o, p);
  }

  /**
  A change confined to redacted positions writes nothing: whatever the rendering of the stored
  document, a worker that finds the changed object skips it as a duplicate.
  */
  lemma RedactedChangeIsSkipped(
    o: Fields, p: Fields, policy: Policies.Policy, render: Value -> Json,
    cfg: Protocol.Config, s: Protocol.State, uid: Uid, version: string)
    requires Agree(Obj(Content(o)), Obj(Content(p)), Policies.Covered(policy))
    requires s.worker == Protocol.Retried(Some(Protocol.Obj(uid, render(Stored(p, policy)), version)))
    requires s.entry.Some? && s.entry.value.uid == uid
    requires s.entry.value.hash == cfg.codec.hash(render(Stored(o, policy)))
    ensures Protocol.AfterLoad(cfg, s, true) == s.(worker := Protocol.Idle)
  {
    Noninterference(Obj(Content(o)), Obj(Content(p)), Policies.Covered(policy));
  }
}
