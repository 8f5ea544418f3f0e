/** The path grammar: dotted names, `[*]` for every array element, and `["key"]` for other keys. */
module RedactionPaths {
  import opened Common
  import opened Texts
  import opened Redaction

  /** The quoting library, as a parameter. */
  datatype Strconv = Strconv(quote: string -> string, unquote: string -> Option<string>)

  predicate Starts(s: string, c: char) { s != "" && s[0] == c }

  predicate PlainChar(c: char) {
    ' ' <= c <= '~' && c != '"' && c != '\\'
  }

  /** Quoting is undone by unquoting, leaves printable text alone and never writes a line break. */
  ghost predicate Lawful(q: Strconv) {
    && (forall k :: q.unquote(q.quote(k)) == Some(k))
    && (forall k :: Starts(q.quote(k), '"') && '\n' !in q.quote(k))
    && (forall k | (forall c :: c in k ==> PlainChar(c)) :: q.quote(k) == "\"" + k + "\"")
  }

  predicate Letter(c: char) { 'a' <= c <= 'z' || 'A' <= c <= 'Z' }

  predicate Digit(c: char) { '0' <= c <= '9' }

  predicate ValidName(s: string) {
    && s != ""
    && (Letter(s[0]) || s[0] == '_')
    && forall i :: 0 <= i < |s| ==> Letter(s[i]) || Digit(s[i]) || s[i] == '_' || s[i] == '-'
  }

  // ---------------------------------------------------------------- parsing

  /** Where the field name at the front of `s` ends. */
  function NameEnd(s: string): (n: nat)
    ensures n <= |s|
    ensures n < |s| ==> s[n] == '.' || s[n] == '['
  {
    if s == "" || s[0] == '.' || s[0] == '[' then 0 else 1 + NameEnd(s[1..])
  }

  /** One dotted component: the segments it stands for and the text after it. */
  function ParseComponent(q: Strconv, rest: string): (r: Option<(seq<Segment>, string)>)
    ensures r.Some? ==> |r.value.1| < |rest|
  {
    var cut := NameEnd(rest);
    var name, tail := rest[..cut], rest[cut..];
    if !ValidName(name) then None
    else if !Starts(tail, '[') then Some(([Segment(name, false)], tail))
    else
      var end := Find(tail, ']');
      if end == |tail| then None
      else match Subscripted(q, name, tail[1..end])
        case None => None
        case Some(head) => Some((head, tail[end + 1..]))
  }

  /** A name with what its brackets held. */
  function Subscripted(q: Strconv, name: string, subscript: string): Option<seq<Segment>> {
    if subscript == "*" then Some([Segment(name, true)])
    else if !Starts(subscript, '"') then None
    else match q.unquote(subscript)
      case None => None
      case Some(key) => if key == "" then None else Some([Segment(name, false), Segment(key, false)])
  }

  function Prefixed(head: seq<Segment>, r: Option<seq<Segment>>): Option<seq<Segment>> {
    if r.Some? then Some(head + r.value) else None
  }

  function Parse(q: Strconv, rest: string): Option<seq<Segment>>
    decreases |rest|
  {
    match ParseComponent(q, rest)
    case None => None
    case Some((head, after)) =>
      if after == "" then Some(head)
      else if after[0] == '.' then Prefixed(head, Parse(q, after[1..]))
      else None
  }

  method ParseRedactionPath(q: Strconv, raw: string) returns (r: Option<seq<Segment>>)
    ensures r == Parse(q, raw)
  {
    if raw == "" {
      return None;
    }
    var segments: seq<Segment> := [];
    var rest := raw;
    PrefixedNothing(Parse(q, raw));
    while true
      invariant Parse(q, raw) == Prefixed(segments, Parse(q, rest))
      decreases |rest|
    {
      var component := ParseComponent(q, rest);
      if component.None? {
        return None;
      }
      PrefixedTwice(q, segments, rest);
      segments := segments + component.value.0;
      rest := component.value.1;
      if rest == "" {
        return Some(segments);
      } else if rest[0] == '.' {
        rest := rest[1..];
        if rest == "" {
          return None;
        }
      } else {
        return None;
      }
    }
    assert false;
  }

  lemma PrefixedNothing(r: Option<seq<Segment>>)
    ensures Prefixed([], r) == r
  {
    assert r.Some? ==> [] + r.value == r.value;
  }

  /** Parsing one component moves its segments in front of the rest. */
  lemma PrefixedTwice(q: Strconv, done: seq<Segment>, rest: string)
    requires ParseComponent(q, rest).Some?
    ensures
      var (head, after) := ParseComponent(q, rest).value;
      Prefixed(done, Parse(q, rest)) ==
        if after == "" then Some(done + head)
        else if after[0] == '.' then Prefixed(done + head, Parse(q, after[1..]))
        else None
  {
    var (head, after) := ParseComponent(q, rest).value;
    if after != "" && after[0] == '.' {
      var more := Parse(q, after[1..]);
      assert more.Some? ==> done + (head + more.value) == (done + head) + more.value;
    }
  }

  // ---------------------------------------------------------------- printing

  function Shown(s: Segment): string {
    if s.wildcard then s.name + "[*]" else s.name
  }

  function Print(segments: seq<Segment>): string {
    if segments == [] then ""
    else if |segments| == 1 then Shown(segments[0])
    else Shown(segments[0]) + "." + Print(segments[1..])
  }

  /** The spelled-out field paths: valid names, each with or without the array wildcard. */
  predicate Spellable(segments: seq<Segment>) {
    segments != [] && forall i :: 0 <= i < |segments| ==> ValidName(segments[i].name)
  }

  /** Membership in the CRD's field-path pattern. */
  ghost predicate FieldPath(raw: string) {
    exists segments :: Spellable(segments) && raw == Print(segments)
  }

  lemma {:induction false} NameEndAt(name: string, tail: string)
    requires forall i :: 0 <= i < |name| ==> name[i] != '.' && name[i] != '['
    requires tail == "" || tail[0] == '.' || tail[0] == '['
    ensures NameEnd(name + tail) == |name|
  {
    if name == "" {
      assert name + tail == tail;
    } else {
      assert (name + tail)[1..] == name[1..] + tail;
      NameEndAt(name[1..], tail);
    }
  }

  lemma SubscriptComponent(q: Strconv, name: string, subscript: string, after: string)
    requires ValidName(name) && ']' !in subscript
    ensures ParseComponent(q, name + ("[" + subscript + "]" + after)) ==
      match Subscripted(q, name, subscript)
      case None => None
      case Some(head) => Some((head, after))
  {
    var tail := "[" + subscript + "]" + after;
    var n := |subscript| + 1;
    NameEndAt(name, tail);
    assert (name + tail)[..|name|] == name && (name + tail)[|name|..] == tail;
    assert Find(tail, ']') == n by {
      FindIn("[" + subscript, ']', after);
    }
    assert tail[1..n] == subscript && tail[n + 1..] == after;
  }

  lemma ComponentOfShown(q: Strconv, s: Segment, tail: string)
    requires ValidName(s.name) && (tail == "" || tail[0] == '.')
    ensures ParseComponent(q, Shown(s) + tail) == Some(([s], tail))
  {
    if s.wildcard {
      assert Shown(s) + tail == s.name + ("[" + "*" + "]" + tail);
      SubscriptComponent(q, s.name, "*", tail);
    } else {
      NameEndAt(s.name, tail);
      assert (s.name + tail)[..|s.name|] == s.name && (s.name + tail)[|s.name|..] == tail;
    }
  }

  lemma {:induction false} PrintParses(q: Strconv, segments: seq<Segment>)
    requires Spellable(segments)
    ensures Parse(q, Print(segments)) == Some(segments)
    decreases |segments|
  {
    var s, more := segments[0], segments[1..];
    assert segments == [s] + more;
    if more == [] {
      assert segments == [s] && Print(segments) == Shown(s) + "";
      ComponentOfShown(q, s, "");
    } else {
      var tail := "." + Print(more);
      assert Print(segments) == Shown(s) + tail;
      ComponentOfShown(q, s, tail);
      assert tail[1..] == Print(more);
      PrintParses(q, more);
    }
  }

  lemma ComponentIsShown(q: Strconv, rest: string)
    requires '"' !in rest && ParseComponent(q, rest).Some?
    ensures
      var (head, after) := ParseComponent(q, rest).value;
      |head| == 1 && ValidName(head[0].name) && rest == Shown(head[0]) + after && '"' !in after
  {
    var cut := NameEnd(rest);
    var name, tail := rest[..cut], rest[cut..];
    assert rest == name + tail;
    if Starts(tail, '[') {
      var end := Find(tail, ']');
      var subscript, after := tail[1..end], tail[end + 1..];
      assert tail == "[" + subscript + "]" + after;
      assert !Starts(subscript, '"') by {
        assert forall i :: 0 <= i < |subscript| ==> subscript[i] == rest[cut + 1 + i];
      }
      assert subscript == "*";
      assert rest == name + "[*]" + after;
    }
  }

  lemma ParseSplits(q: Strconv, raw: string, segments: seq<Segment>)
    returns (head: seq<Segment>, after: string, more: seq<Segment>)
    requires Parse(q, raw) == Some(segments)
    ensures ParseComponent(q, raw) == Some((head, after)) && |after| < |raw|
    ensures segments == head + more
    ensures if after == "" then more == [] else Starts(after, '.') && Parse(q, after[1..]) == Some(more)
  {
    head, after := ParseComponent(q, raw).value.0, ParseComponent(q, raw).value.1;
    more := if after == "" then [] else Parse(q, after[1..]).value;
  }

  lemma {:induction false} ParsePrints(q: Strconv, raw: string, segments: seq<Segment>)
    requires '"' !in raw && Parse(q, raw) == Some(segments)
    ensures Spellable(segments) && raw == Print(segments)
    decreases |raw|
  {
    var head, after, more := ParseSplits(q, raw, segments);
    ComponentIsShown(q, raw);
    if after != "" {
      ParsePrints(q, after[1..], more);
    }
    PrintCons(head, after, more, raw);
  }

  lemma PrintCons(head: seq<Segment>, after: string, more: seq<Segment>, raw: string)
    requires |head| == 1 && ValidName(head[0].name) && raw == Shown(head[0]) + after
    requires if after == "" then more == [] else Starts(after, '.') && Spellable(more) && after[1..] == Print(more)
    ensures Spellable(head + more) && raw == Print(head + more)
  {
    assert (head + more)[1..] == more;
    assert after != "" ==> after == "." + after[1..];
  }

  /**
  Without a quoted subscript the parser accepts exactly the field-path language, and what it
  returns is exactly what prints as the text it was given.
  */
  lemma GrammarIsFieldPaths(q: Strconv, raw: string, segments: seq<Segment>)
    requires '"' !in raw
    ensures Parse(q, raw) == Some(segments) <==> Spellable(segments) && raw == Print(segments)
    ensures Parse(q, raw).Some? <==> FieldPath(raw)
  {
    if Parse(q, raw).Some? {
      ParsePrints(q, raw, Parse(q, raw).value);
    }
    if Spellable(segments) && raw == Print(segments) {
      PrintParses(q, segments);
    }
    if FieldPath(raw) {
      var spelled :| Spellable(spelled) && raw == Print(spelled);
      PrintParses(q, spelled);
    }
  }

  // ---------------------------------------------------------------- annotations


  function AnnotationPath(q: Strconv, key: string): string {
    METADATA + ("." + (ANNOTATIONS + "[" + q.quote(key) + "]"))
  }

  function AnnotationSegments(key: string): seq<Segment> {
    [Segment(METADATA, false)] + [Segment(ANNOTATIONS, false), Segment(key, false)]
  }

  lemma QuotedParses(q: Strconv, name: string, key: string)
    requires Lawful(q) && ValidName(name)
    ensures Parse(q, name + "[" + q.quote(key) + "]") == Some([Segment(name, false), Segment(key, false)]) <==>
      key != "" && ']' !in q.quote(key)
  {
    if ']' in q.quote(key) {
      EarlyBracket(q, name, q.quote(key));
    } else {
      ClosedSubscript(q, name, q.quote(key));
      assert q.unquote(q.quote(key)) == Some(key);
    }
  }

  lemma ClosedSubscript(q: Strconv, name: string, quoted: string)
    requires ValidName(name) && ']' !in quoted
    ensures Parse(q, name + "[" + quoted + "]") == Subscripted(q, name, quoted)
  {
    assert name + "[" + quoted + "]" == name + ("[" + quoted + "]" + "");
    SubscriptComponent(q, name, quoted, "");
  }

  /** The subscript ends at the first bracket, wherever the quotes do, and then text is left over. */
  lemma EarlyBracket(q: Strconv, name: string, quoted: string)
    requires ValidName(name) && Starts(quoted, '"') && ']' in quoted
    ensures
      var r := Parse(q, name + "[" + quoted + "]");
      r.None? || |r.value| > 2
  {
    var n := Find(quoted, ']');
    assert quoted[..|quoted|] == quoted;
    var first, after := quoted[..n], quoted[n + 1..] + "]";
    assert quoted == first + "]" + quoted[n + 1..];
    var rest := name + ("[" + first + "]" + after);
    assert rest == name + "[" + quoted + "]";
    SubscriptComponent(q, name, first, after);
    assert first[0] == '"';
    if Parse(q, rest).Some? {
      var head, _, _ := ParseSplits(q, rest, Parse(q, rest).value);
      assert |head| == 2;
      ParseNonEmpty(q, after[1..]);
    }
  }

  /** An annotation's path parses to its three keys exactly when the quoted key has no bracket. */
  lemma AnnotationParses(q: Strconv, key: string)
    requires Lawful(q)
    ensures Parse(q, AnnotationPath(q, key)) == Some(AnnotationSegments(key)) <==> key != "" && ']' !in q.quote(key)
  {
    NamesAreValid();
    QuotedParses(q, ANNOTATIONS, key);
    DottedParses(q, Segment(METADATA, false), ANNOTATIONS + "[" + q.quote(key) + "]",
                 [Segment(ANNOTATIONS, false), Segment(key, false)]);
  }

  lemma NamesAreValid()
    ensures ValidName(METADATA) && ValidName(ANNOTATIONS)
  {
  }

  lemma DottedParses(q: Strconv, s: Segment, rest: string, more: seq<Segment>)
    requires ValidName(s.name)
    ensures Parse(q, Shown(s) + ("." + rest)) == Some([s] + more) <==> Parse(q, rest) == Some(more)
  {
    ComponentOfShown(q, s, "." + rest);
    assert ("." + rest)[1..] == rest;
    assert Parse(q, Shown(s) + ("." + rest)) == Prefixed([s], Parse(q, rest));
    if Parse(q, rest).Some? {
      var got := Parse(q, rest).value;
      assert ([s] + got)[1..] == got && ([s] + more)[1..] == more;
    }
  }

  lemma {:induction false} ParseNonEmpty(q: Strconv, rest: string)
    ensures Parse(q, rest).Some? ==> Parse(q, rest).value != []
    decreases |rest|
  {
  }

  predicate AlphaNum(c: char) { Letter(c) || Digit(c) }

  predicate Bounded(s: string, edge: char -> bool, inner: char -> bool) {
    s != "" && edge(s[0]) && edge(s[|s| - 1]) && forall i :: 0 <= i < |s| ==> inner(s[i])
  }

  predicate AnnotationName(s: string) {
    Bounded(s, AlphaNum, c => AlphaNum(c) || c == '-' || c == '_' || c == '.')
  }

  predicate AnnotationPrefix(s: string) {
    Bounded(s, c => 'a' <= c <= 'z' || Digit(c), c => 'a' <= c <= 'z' || Digit(c) || c == '-' || c == '.')
  }

  /** Membership in the CRD's annotation pattern: an optional DNS prefix and a slash, then a name. */
  predicate AnnotationKey(key: string) {
    || AnnotationName(key)
    || exists i :: 0 <= i < |key| && key[i] == '/' && AnnotationPrefix(key[..i]) && AnnotationName(key[i + 1..])
  }

  lemma AnnotationKeyIsPlain(key: string, c: char)
    requires AnnotationKey(key) && c in key
    ensures PlainChar(c) && c != ']'
  {
    if !AnnotationName(key) {
      var i :| 0 <= i < |key| && key[i] == '/' && AnnotationPrefix(key[..i]) && AnnotationName(key[i + 1..]);
      var j :| 0 <= j < |key| && key[j] == c;
      if j < i {
        assert key[..i][j] == c;
      } else if j > i {
        assert key[i + 1..][j - i - 1] == c;
      }
    }
  }

  /** Every key the CRD admits compiles to the path of that key. */
  lemma AnnotationKeyParses(q: Strconv, key: string)
    requires Lawful(q) && AnnotationKey(key)
    ensures Parse(q, AnnotationPath(q, key)) == Some(AnnotationSegments(key))
  {
    forall c | c in key ensures PlainChar(c) && c != ']' {
      AnnotationKeyIsPlain(key, c);
    }
    assert q.quote(key) == "\"" + key + "\"";
    AnnotationParses(q, key);
  }
}
