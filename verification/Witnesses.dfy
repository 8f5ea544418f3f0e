/** The laws asked of libraries and of the resolver can be met, so no theorem that assumes them is empty. */
module Witnesses {
  import opened Common
  import opened Texts
  import HashCaches
  import RedactionPaths
  import Epochs

  // ---------------------------------------------------------------- the codec

  const BASE := 0x110000

  /** A digest that tells all texts apart. */
  function Code(s: string): nat {
    if s == "" then 0 else 1 + s[0] as int + BASE * Code(s[1..])
  }

  lemma {:induction false} CodeIsInjective(a: string, b: string)
    requires Code(a) == Code(b)
    ensures a == b
  {
    if a != "" && b != "" {
      var x, y, m, n := a[0] as int, b[0] as int, Code(a[1..]), Code(b[1..]);
      assert x + BASE * m == y + BASE * n;
      assert x < BASE && y < BASE;
      assert m == n;
      CodeIsInjective(a[1..], b[1..]);
      assert a == [a[0]] + a[1..] && b == [b[0]] + b[1..];
    }
  }

  /** A patch that is the whole target document, and a frame that is the magic and the text. */
  function PlainCodec(): HashCaches.Codec {
    HashCaches.Codec(
      Code,
      (a: Json, b: Json) => Some(b),
      (p: Patch, a: Json) => Some(p),
      (j: Json) => HashCaches.ZSTD_MAGIC + j,
      (f: Blob) => if |f| < 4 then None else Some(f[4..]),
      true)
  }

  lemma PlainCodecIsLawful()
    ensures HashCaches.Lawful(PlainCodec())
  {
    var c := PlainCodec();
    forall a, b | c.hash(a) == c.hash(b) ensures a == b {
      CodeIsInjective(a, b);
    }
    forall j ensures HashCaches.ZSTD_MAGIC <= c.compress(j) && c.decompress(c.compress(j)) == Some(j) {
      assert (HashCaches.ZSTD_MAGIC + j)[4..] == j;
    }
  }

  // ---------------------------------------------------------------- quoting

  /** A quoting that only has to be undone: line breaks and the escape character become two characters. */
  function EscapeChar(c: char): string {
    if c == '\n' then ['\\', 'n'] else if c == '\\' then ['\\', '\\'] else [c]
  }

  function Escape(s: string): string {
    if s == "" then "" else EscapeChar(s[0]) + Escape(s[1..])
  }

  function Unescape(s: string): string {
    if s == "" then ""
    else if s[0] == '\\' && |s| >= 2 then [if s[1] == 'n' then '\n' else s[1]] + Unescape(s[2..])
    else [s[0]] + Unescape(s[1..])
  }

  lemma UnescapeHead(c: char, more: string)
    ensures Unescape(EscapeChar(c) + more) == [c] + Unescape(more)
  {
    var e := EscapeChar(c) + more;
    if c == '\n' || c == '\\' {
      assert e[0] == '\\' && e[2..] == more;
    } else {
      assert e[0] == c && e[1..] == more;
    }
  }

  lemma {:induction false} UnescapeEscape(s: string)
    ensures Unescape(Escape(s)) == s
    ensures '\n' !in Escape(s)
  {
    if s != "" {
      UnescapeEscape(s[1..]);
      UnescapeHead(s[0], Escape(s[1..]));
    }
  }

  lemma {:induction false} PlainIsUnescaped(s: string)
    requires forall c :: c in s ==> RedactionPaths.PlainChar(c)
    ensures Escape(s) == s
  {
    if s != "" {
      PlainIsUnescaped(s[1..]);
      assert s[0] in s;
    }
  }

  function Quote(k: string): string {
    ['"'] + Escape(k) + ['"']
  }

  function Unquote(s: string): Option<string> {
    if |s| < 2 then None else Some(Unescape(s[1..|s| - 1]))
  }

  function PlainQuoting(): RedactionPaths.Strconv {
    RedactionPaths.Strconv(Quote, Unquote)
  }

  lemma QuoteIsLawful(k: string)
    ensures Unquote(Quote(k)) == Some(k)
    ensures RedactionPaths.Starts(Quote(k), '"') && '\n' !in Quote(k)
    ensures (forall c :: c in k ==> RedactionPaths.PlainChar(c)) ==> Quote(k) == "\"" + k + "\""
  {
    UnescapeEscape(k);
    var s := Quote(k);
    assert s[1..|s| - 1] == Escape(k);
    if forall c :: c in k ==> RedactionPaths.PlainChar(c) {
      PlainIsUnescaped(k);
    }
  }

  lemma PlainQuotingIsLawful()
    ensures RedactionPaths.Lawful(PlainQuoting())
  {
    var q := PlainQuoting();
    forall k ensures q.unquote(q.quote(k)) == Some(k) {
      QuoteIsLawful(k);
    }
    forall k ensures RedactionPaths.Starts(q.quote(k), '"') && '\n' !in q.quote(k) {
      QuoteIsLawful(k);
    }
    forall k | forall c :: c in k ==> RedactionPaths.PlainChar(c) ensures q.quote(k) == "\"" + k + "\"" {
      QuoteIsLawful(k);
    }
  }

  // ---------------------------------------------------------------- naming kinds

  function Unary(n: nat): string {
    if n == 0 then "b" else "a" + Unary(n - 1)
  }

  lemma {:induction false} FindUnary(n: nat, rest: string)
    ensures |Unary(n)| == n + 1 && Find(Unary(n) + rest, 'b') == n
  {
    if n == 0 {
      assert (Unary(0) + rest)[0] == 'b';
    } else {
      FindUnary(n - 1, rest);
      assert (Unary(n) + rest)[1..] == Unary(n - 1) + rest;
    }
  }

  /** The first two lengths, then the three names. */
  function NameOf(g: Gvk): string {
    Unary(|g.group|) + (Unary(|g.version|) + (g.group + g.version + g.kind))
  }

  function KindOf(s: string): Gvk {
    var i := Find(s, 'b');
    var t := if i < |s| then s[i + 1..] else "";
    var j := Find(t, 'b');
    var u := if j < |t| then t[j + 1..] else "";
    if i + j <= |u| then Gvk(u[..i], u[i..i + j], u[i + j..]) else Gvk("", "", "")
  }

  lemma KindOfName(g: Gvk)
    ensures KindOf(NameOf(g)) == g
  {
    var u := g.group + g.version + g.kind;
    var t := Unary(|g.version|) + u;
    FindUnary(|g.group|, t);
    FindUnary(|g.version|, u);
    assert NameOf(g)[|g.group| + 1..] == t && t[|g.version| + 1..] == u;
    assert u[..|g.group|] == g.group && u[|g.group|..|g.group| + |g.version|] == g.version;
    assert u[|g.group| + |g.version|..] == g.kind;
  }

  lemma NamesAreOneToOne()
    ensures Epochs.OneToOne(Epochs.Naming(NameOf, KindOf))
  {
    forall g ensures KindOf(NameOf(g)) == g {
      KindOfName(g);
    }
  }
}
