/**
Redaction: what a set of paths does to an object.

The meaning of a policy is the set of positions its paths match. `Scrub` puts the sentinel at
every outermost matched position; the program's copy-on-write walk over one path after the
other is proved to compute exactly that.
*/
module Redaction {
  import opened Common

  /** An unstructured object's value; numbers are only ever compared. */
  datatype Value =
    | Null
    | Flag(b: bool)
    | Num(n: int)
    | Str(s: string)
    | Arr(items: seq<Value>)
    | Obj(fields: map<string, Value>)

  const SENTINEL := "[REDACTED]"
  const METADATA := "metadata"
  const ANNOTATIONS := "annotations"

  datatype Segment = Segment(name: string, wildcard: bool)

  // ---------------------------------------------------------------- positions

  datatype Hop = Field(name: string) | Index(i: nat)

  type Position = seq<Hop>

  /** The positions one path matches: a name per segment, and any index after a wildcard. */
  predicate Matches(segments: seq<Segment>, pos: Position) {
    if segments == [] then pos == []
    else if segments[0].wildcard then
      |pos| >= 2 && pos[0] == Field(segments[0].name) && pos[1].Index? && Matches(segments[1..], pos[2..])
    else
      |pos| >= 1 && pos[0] == Field(segments[0].name) && Matches(segments[1..], pos[1..])
  }

  ghost function Spots(segments: seq<Segment>): iset<Position> {
    iset pos: Position | Matches(segments, pos)
  }

  /** The path a position lies on: its names, each marked if an index follows. */
  function PathOf(pos: Position): Option<seq<Segment>> {
    if pos == [] then Some([])
    else if pos[0].Index? then None
    else
      var wild := |pos| > 1 && pos[1].Index?;
      var rest := PathOf(if wild then pos[2..] else pos[1..]);
      if rest.None? then None else Some([Segment(pos[0].name, wild)] + rest.value)
  }

  /** A path matches exactly the positions that lie on it; a wildcard takes in every element. */
  lemma {:induction false} MatchesItsPath(segments: seq<Segment>, pos: Position)
    ensures Matches(segments, pos) <==> PathOf(pos) == Some(segments)
    decreases pos
  {
    if pos != [] && pos[0].Field? {
      var wild := |pos| > 1 && pos[1].Index?;
      var below := if wild then pos[2..] else pos[1..];
      if segments != [] {
        MatchesItsPath(segments[1..], below);
        assert segments == [segments[0]] + segments[1..];
        if wild && !segments[0].wildcard {
          MatchesItsPath(segments[1..], pos[1..]);
        }
      }
    }
  }

  /** The positions of `m` below one hop, seen from there. */
  ghost function Under(m: iset<Position>, hop: Hop): iset<Position> {
    iset pos: Position | [hop] + pos in m
  }

  /** Every outermost position of `m` replaced by the sentinel. */
  ghost function Scrub(v: Value, m: iset<Position>): Value
    decreases v
  {
    if [] in m then Str(SENTINEL)
    else match v
      case Obj(fields) => Obj(map k | k in fields :: Scrub(fields[k], Under(m, Field(k))))
      case Arr(items) => Arr(seq(|items|, i requires 0 <= i < |items| => Scrub(items[i], Under(m, Index(i)))))
      case _ => v
  }

  /** What can be seen at a position: a leaf's value, an object's keys, an array's length. */
  datatype Label = Leaf(v: Value) | Keys(names: set<string>) | Length(n: nat)

  function LabelOf(v: Value): Label {
    match v
    case Obj(fields) => Keys(fields.Keys)
    case Arr(items) => Length(|items|)
    case _ => Leaf(v)
  }

  function Child(v: Value, hop: Hop): Option<Value> {
    match hop
    case Field(name) => if v.Obj? && name in v.fields then Some(v.fields[name]) else None
    case Index(i) => if v.Arr? && i < |v.items| then Some(v.items[i]) else None
  }

  function Look(v: Value, pos: Position): Option<Label> {
    if pos == [] then Some(LabelOf(v))
    else match Child(v, pos[0])
      case None => None
      case Some(c) => Look(c, pos[1..])
  }

  /** Neither the position nor anything above it is matched. */
  ghost predicate Visible(m: iset<Position>, pos: Position) {
    forall i :: 0 <= i <= |pos| ==> pos[..i] !in m
  }

  // ---------------------------------------------------------------- laws of Scrub

  lemma VisibleUnder(m: iset<Position>, hop: Hop, pos: Position)
    requires [] !in m
    ensures Visible(m, [hop] + pos) <==> Visible(Under(m, hop), pos)
  {
    var whole := [hop] + pos;
    assert forall i :: 0 <= i <= |pos| ==> whole[..i + 1] == [hop] + pos[..i];
    assert whole[..0] == [];
    if Visible(Under(m, hop), pos) {
      forall i | 0 <= i <= |whole| ensures whole[..i] !in m {
        if i > 0 {
          assert pos[..i - 1] !in Under(m, hop);
        }
      }
    }
    if Visible(m, whole) {
      forall i | 0 <= i <= |pos| ensures pos[..i] !in Under(m, hop) {
        assert whole[..i + 1] !in m;
      }
    }
  }

  lemma ScrubChild(v: Value, m: iset<Position>, hop: Hop)
    requires [] !in m
    ensures Child(Scrub(v, m), hop) ==
      if Child(v, hop).None? then None else Some(Scrub(Child(v, hop).value, Under(m, hop)))
  {
  }

  /**
  Where nothing is matched the object is as before, an outermost match holds the sentinel and
  nothing is left below it.
  */
  lemma {:induction false} ScrubShows(v: Value, m: iset<Position>, pos: Position)
    ensures Visible(m, pos) ==> Look(Scrub(v, m), pos) == Look(v, pos)
    ensures pos in m && (pos == [] || Visible(m, pos[..|pos| - 1])) ==>
      Look(Scrub(v, m), pos) == if Look(v, pos).Some? then Some(Leaf(Str(SENTINEL))) else None
    ensures pos != [] && !Visible(m, pos[..|pos| - 1]) ==> Look(Scrub(v, m), pos) == None
    decreases pos
  {
    if [] in m {
      assert !Visible(m, pos) by {
        assert pos[..0] == [];
      }
      if pos != [] {
        assert pos[..|pos| - 1][..0] == [];
      }
    } else if pos != [] {
      var hop, rest := pos[0], pos[1..];
      assert pos == [hop] + rest;
      VisibleUnder(m, hop, rest);
      ScrubChild(v, m, hop);
      if rest != [] {
        var above := rest[..|rest| - 1];
        assert pos[..|pos| - 1] == [hop] + above;
        VisibleUnder(m, hop, above);
      } else {
        assert Visible(m, pos[..|pos| - 1]) by {
          assert pos[..|pos| - 1] == [];
        }
      }
      if Child(v, hop).Some? {
        ScrubShows(Child(v, hop).value, Under(m, hop), rest);
      }
    } else if v.Obj? {
      assert Scrub(v, m).fields.Keys == v.fields.Keys;
    }
  }

  lemma {:induction false} ScrubNothing(v: Value)
    ensures Scrub(v, iset{}) == v
    decreases v
  {
    assert forall hop :: Under(iset{}, hop) == iset{};
    match v
    case Obj(fields) =>
      forall k | k in fields ensures Scrub(fields[k], iset{}) == fields[k] {
        ScrubNothing(fields[k]);
      }
    case Arr(items) =>
      forall i | 0 <= i < |items| ensures Scrub(items[i], iset{}) == items[i] {
        ScrubNothing(items[i]);
      }
    case _ =>
  }

  lemma UnderUnion(a: iset<Position>, b: iset<Position>, hop: Hop)
    ensures Under(a + b, hop) == Under(a, hop) + Under(b, hop)
  {
  }

  /** Scrubbing by one set after another is scrubbing by their union. */
  lemma {:induction false} ScrubUnion(v: Value, a: iset<Position>, b: iset<Position>)
    ensures Scrub(Scrub(v, a), b) == Scrub(v, a + b)
    decreases v
  {
    if [] !in a && [] !in b {
      match v
      case Obj(fields) =>
        forall k | k in fields
          ensures Scrub(Scrub(fields[k], Under(a, Field(k))), Under(b, Field(k)))
            == Scrub(fields[k], Under(a + b, Field(k)))
        {
          UnderUnion(a, b, Field(k));
          ScrubUnion(fields[k], Under(a, Field(k)), Under(b, Field(k)));
        }
      case Arr(items) =>
        forall i | 0 <= i < |items|
          ensures Scrub(Scrub(items[i], Under(a, Index(i))), Under(b, Index(i)))
            == Scrub(items[i], Under(a + b, Index(i)))
        {
          UnderUnion(a, b, Index(i));
          ScrubUnion(items[i], Under(a, Index(i)), Under(b, Index(i)));
        }
      case _ =>
    }
  }

  /** Two objects that look the same wherever nothing above is matched. */
  ghost predicate Agree(v: Value, w: Value, m: iset<Position>) {
    forall pos :: Visible(m, pos) ==> Look(v, pos) == Look(w, pos)
  }

  lemma AgreeChild(v: Value, w: Value, m: iset<Position>, hop: Hop)
    requires [] !in m && Agree(v, w, m) && Child(v, hop).Some? && Child(w, hop).Some?
    ensures Agree(Child(v, hop).value, Child(w, hop).value, Under(m, hop))
  {
    forall pos | Visible(Under(m, hop), pos)
      ensures Look(Child(v, hop).value, pos) == Look(Child(w, hop).value, pos)
    {
      VisibleUnder(m, hop, pos);
      assert ([hop] + pos)[1..] == pos;
      assert Look(v, [hop] + pos) == Look(w, [hop] + pos);
    }
  }

  lemma AgreeRoot(v: Value, w: Value, m: iset<Position>)
    requires [] !in m && Agree(v, w, m)
    ensures LabelOf(v) == LabelOf(w)
  {
    assert Visible(m, []);
    assert Look(v, []) == Look(w, []);
  }

  lemma {:induction false} AgreeScrubs(v: Value, w: Value, m: iset<Position>)
    requires Agree(v, w, m)
    ensures Scrub(v, m) == Scrub(w, m)
    decreases v
  {
    if [] !in m {
      AgreeRoot(v, w, m);
      match v
      case Obj(fields) =>
        forall k | k in fields ensures Scrub(fields[k], Under(m, Field(k))) == Scrub(w.fields[k], Under(m, Field(k))) {
          assert k in fields.Keys && k in w.fields.Keys;
          AgreeChild(v, w, m, Field(k));
          AgreeScrubs(fields[k], w.fields[k], Under(m, Field(k)));
        }
        assert forall k :: k in fields <==> k in fields.Keys;
        assert forall k :: k in w.fields <==> k in w.fields.Keys;
      case Arr(items) =>
        forall i | 0 <= i < |items|
          ensures Scrub(items[i], Under(m, Index(i))) == Scrub(w.items[i], Under(m, Index(i)))
        {
          AgreeChild(v, w, m, Index(i));
          AgreeScrubs(items[i], w.items[i], Under(m, Index(i)));
        }
      case _ =>
    }
  }

  /**
  Two objects are stored alike exactly when they differ only beneath matched positions: the
  stored form depends on everything else and on nothing below a match.
  */
  lemma Noninterference(v: Value, w: Value, m: iset<Position>)
    ensures Scrub(v, m) == Scrub(w, m) <==> Agree(v, w, m)
  {
    if Agree(v, w, m) {
      AgreeScrubs(v, w, m);
    }
    if Scrub(v, m) == Scrub(w, m) {
      forall pos | Visible(m, pos) ensures Look(v, pos) == Look(w, pos) {
        ScrubShows(v, m, pos);
        ScrubShows(w, m, pos);
      }
    }
  }

  // ---------------------------------------------------------------- the walk

  lemma SpotsUnder(segments: seq<Segment>, hop: Hop)
    requires segments != []
    ensures [] !in Spots(segments)
    ensures hop == Field(segments[0].name) && !segments[0].wildcard ==>
      Under(Spots(segments), hop) == Spots(segments[1..])
    ensures hop != Field(segments[0].name) ==> Under(Spots(segments), hop) == iset{}
    ensures segments[0].wildcard && hop == Field(segments[0].name) ==>
      Under(Spots(segments), hop) == Elements(segments[1..])
  {
    forall pos: Position
      ensures !segments[0].wildcard && hop == Field(segments[0].name) ==>
        (pos in Under(Spots(segments), hop) <==> pos in Spots(segments[1..]))
      ensures hop != Field(segments[0].name) ==> pos !in Under(Spots(segments), hop)
      ensures segments[0].wildcard && hop == Field(segments[0].name) ==>
        (pos in Under(Spots(segments), hop) <==> pos in Elements(segments[1..]))
    {
      var whole := [hop] + pos;
      assert whole[1..] == pos;
      assert |whole| >= 2 ==> whole[2..] == pos[1..];
    }
  }

  /** The positions a path matches in the elements of an array. */
  ghost function Elements(segments: seq<Segment>): iset<Position> {
    iset pos: Position | |pos| >= 1 && pos[0].Index? && Matches(segments, pos[1..])
  }

  lemma ElementsUnder(segments: seq<Segment>, hop: Hop)
    ensures [] !in Elements(segments)
    ensures Under(Elements(segments), hop) == if hop.Index? then Spots(segments) else iset{}
  {
    forall pos: Position ensures pos in Under(Elements(segments), hop) <==> hop.Index? && pos in Spots(segments) {
      assert ([hop] + pos)[1..] == pos;
    }
  }

  lemma ElementsOfObject(fields: map<string, Value>, segments: seq<Segment>)
    ensures Scrub(Obj(fields), Elements(segments)) == Obj(fields)
  {
    forall k | k in fields ensures Scrub(fields[k], Under(Elements(segments), Field(k))) == fields[k] {
      ElementsUnder(segments, Field(k));
      ScrubNothing(fields[k]);
    }
    ElementsUnder(segments, Index(0));
  }

  lemma SpotsOffObject(v: Value, segments: seq<Segment>)
    requires segments != [] && (v.Obj? ==> segments[0].name !in v.fields)
    ensures Scrub(v, Spots(segments)) == v
  {
    SpotsUnder(segments, Index(0));
    match v
    case Obj(fields) =>
      forall k | k in fields ensures Scrub(fields[k], Under(Spots(segments), Field(k))) == fields[k] {
        SpotsUnder(segments, Field(k));
        ScrubNothing(fields[k]);
      }
    case Arr(items) =>
      forall i | 0 <= i < |items| ensures Scrub(items[i], Under(Spots(segments), Index(i))) == items[i] {
        SpotsUnder(segments, Index(i));
        ScrubNothing(items[i]);
      }
    case _ =>
  }

  lemma SpotsOnObject(fields: map<string, Value>, segments: seq<Segment>)
    requires segments != [] && segments[0].name in fields
    ensures
      var name, rest := segments[0].name, segments[1..];
      Scrub(Obj(fields), Spots(segments))
        == Obj(fields[name := Scrub(fields[name], if segments[0].wildcard then Elements(rest) else Spots(rest))])
  {
    var name := segments[0].name;
    SpotsUnder(segments, Field(name));
    forall k | k in fields && k != name ensures Scrub(fields[k], Under(Spots(segments), Field(k))) == fields[k] {
      SpotsUnder(segments, Field(k));
      ScrubNothing(fields[k]);
    }
  }

  /** One path applied to one value: copies only what changes, and says whether anything did. */
  method RedactValue(value: Value, segments: seq<Segment>) returns (r: Value, changed: bool)
    ensures r == Scrub(value, Spots(segments))
    ensures changed == (r != value)
    decreases |segments|, 0
  {
    if segments == [] {
      if value == Str(SENTINEL) {
        return value, false;
      }
      return Str(SENTINEL), true;
    }
    var segment := segments[0];
    if !value.Obj? || segment.name !in value.fields {
      SpotsOffObject(value, segments);
      return value, false;
    }
    var child := value.fields[segment.name];
    SpotsOnObject(value.fields, segments);
    var replacement;
    if segment.wildcard {
      replacement, changed := RedactElements(child, segments[1..]);
    } else {
      replacement, changed := RedactValue(child, segments[1..]);
    }
    if !changed {
      assert value.fields[segment.name := child] == value.fields;
      return value, false;
    }
    r := Obj(value.fields[segment.name := replacement]);
    assert r.fields[segment.name] != value.fields[segment.name];
  }

  method RedactElements(value: Value, segments: seq<Segment>) returns (r: Value, changed: bool)
    ensures r == Scrub(value, Elements(segments))
    ensures changed == (r != value)
    decreases |segments|, 1
  {
    ElementsUnder(segments, Index(0));
    if !value.Arr? {
      if value.Obj? {
        ElementsOfObject(value.fields, segments);
      }
      return value, false;
    }
    var items := value.items;
    var out := items;
    changed := false;
    var i := 0;
    while i < |items|
      invariant i <= |items| == |out|
      invariant forall j :: 0 <= j < i ==> out[j] == Scrub(items[j], Spots(segments))
      invariant forall j :: i <= j < |items| ==> out[j] == items[j]
      invariant changed == (out != items)
    {
      var replacement, itemChanged := RedactValue(items[i], segments);
      if itemChanged {
        out := out[i := replacement];
        assert out[i] != items[i];
        changed := true;
      }
      i := i + 1;
    }
    forall j | 0 <= j < |items| ensures Scrub(items[j], Under(Elements(segments), Index(j))) == out[j] {
      ElementsUnder(segments, Index(j));
    }
    assert Scrub(value, Elements(segments)).items == out;
    r := Arr(out);
  }
}
