/** Byte-wise text order, sorting by a text key, and the split and join of lists. */
module Texts {
  predicate Leq(a: string, b: string) {
    a == "" || (b != "" && (a[0] < b[0] || (a[0] == b[0] && Leq(a[1..], b[1..]))))
  }

  predicate Less(a: string, b: string) {
    Leq(a, b) && a != b
  }

  lemma {:induction false} LeqTotal(a: string, b: string)
    ensures Leq(a, b) || Leq(b, a)
    ensures Leq(a, b) && Leq(b, a) ==> a == b
    ensures Leq(a, a)
  {
    if a != "" && b != "" {
      LeqTotal(a[1..], b[1..]);
      assert a[0] == b[0] && a[1..] == b[1..] ==> a == b by {
        assert a == [a[0]] + a[1..] && b == [b[0]] + b[1..];
      }
    }
    if a != "" {
      LeqTotal(a[1..], a[1..]);
    }
  }

  /** The order is by the first difference, a shorter text before its extensions. */
  lemma {:induction false} LeqIsLexicographic(a: string, b: string)
    ensures Leq(a, b) <==> a <= b || exists i :: 0 <= i < |a| && i < |b| && a[..i] == b[..i] && a[i] < b[i]
    decreases |a|
  {
    if a != "" && b != "" {
      if a[0] == b[0] {
        LeqIsLexicographic(a[1..], b[1..]);
        assert a == [a[0]] + a[1..] && b == [b[0]] + b[1..];
        if i :| 0 <= i < |a| - 1 && i < |b| - 1 && a[1..][..i] == b[1..][..i] && a[1..][i] < b[1..][i] {
          assert a[..i + 1] == [a[0]] + a[1..][..i] && b[..i + 1] == [b[0]] + b[1..][..i];
        }
        if i :| 0 <= i < |a| && i < |b| && a[..i] == b[..i] && a[i] < b[i] {
          assert i > 0 && a[1..][..i - 1] == a[..i][1..] && b[1..][..i - 1] == b[..i][1..];
        }
      } else {
        assert a[..0] == b[..0];
        if i :| 0 <= i < |a| && i < |b| && a[..i] == b[..i] && a[i] < b[i] {
          assert i > 0 ==> a[..i][0] == b[..i][0];
        }
      }
    }
  }

  lemma {:induction false} LeqTransitive(a: string, b: string, c: string)
    requires Leq(a, b) && Leq(b, c)
    ensures Leq(a, c)
  {
    if a != "" && a[0] == b[0] == c[0] {
      LeqTransitive(a[1..], b[1..], c[1..]);
    }
  }

  lemma LessTransitive(a: string, b: string, c: string)
    requires Leq(a, b) && Less(b, c)
    ensures Less(a, c)
  {
    LeqTransitive(a, b, c);
    LeqTotal(b, c);
  }

  // ---------------------------------------------------------------- sorting

  function Keys<T>(key: T -> string, xs: seq<T>): seq<string> {
    seq(|xs|, i requires 0 <= i < |xs| => key(xs[i]))
  }

  predicate Ascending(xs: seq<string>) {
    forall i, j :: 0 <= i < j < |xs| ==> Leq(xs[i], xs[j])
  }

  predicate Strict(xs: seq<string>) {
    forall i, j :: 0 <= i < j < |xs| ==> Less(xs[i], xs[j])
  }

  function InsertBy<T>(key: T -> string, x: T, xs: seq<T>): (r: seq<T>)
    requires Ascending(Keys(key, xs))
    ensures Ascending(Keys(key, r))
    ensures multiset(r) == multiset(xs) + multiset{x}
  {
    if xs == [] then [x]
    else if Leq(key(x), key(xs[0])) then
      AllAbove(key, x, xs);
      PrependKeeps(key, x, xs);
      [x] + xs
    else
      assert xs == [xs[0]] + xs[1..];
      assert Keys(key, xs[1..]) == Keys(key, xs)[1..];
      var r := InsertBy(key, x, xs[1..]);
      LeqTotal(key(x), key(xs[0]));
      LeqTotal(key(xs[0]), key(xs[0]));
      AllAbove(key, xs[0], xs);
      InsertedMembers(r, x, xs[1..]);
      PrependKeeps(key, xs[0], r);
      [xs[0]] + r
  }

  lemma MembersOf<T>(a: seq<T>, b: seq<T>)
    requires multiset(a) == multiset(b)
    ensures forall x :: x in a <==> x in b
  {
    forall x ensures x in a <==> x in b {
      assert x in multiset(a) <==> x in multiset(b);
    }
  }

  lemma InsertedMembers<T>(r: seq<T>, x: T, xs: seq<T>)
    requires multiset(r) == multiset(xs) + multiset{x}
    ensures forall y :: y in r ==> y in xs || y == x
  {
    forall y | y in r ensures y in xs || y == x {
      assert y in multiset(r);
    }
  }

  lemma AllAbove<T>(key: T -> string, x: T, xs: seq<T>)
    requires xs != [] && Ascending(Keys(key, xs)) && Leq(key(x), key(xs[0]))
    ensures forall y :: y in xs ==> Leq(key(x), key(y))
  {
    forall y | y in xs ensures Leq(key(x), key(y)) {
      var i :| 0 <= i < |xs| && xs[i] == y;
      if i > 0 {
        assert Leq(Keys(key, xs)[0], Keys(key, xs)[i]);
        LeqTransitive(key(x), key(xs[0]), key(y));
      }
    }
  }

  lemma PrependKeeps<T>(key: T -> string, x: T, xs: seq<T>)
    requires Ascending(Keys(key, xs)) && forall y :: y in xs ==> Leq(key(x), key(y))
    ensures Ascending(Keys(key, [x] + xs))
  {
    var ks := Keys(key, [x] + xs);
    forall i, j | 0 <= i < j < |ks| ensures Leq(ks[i], ks[j]) {
      if i > 0 {
        assert Leq(Keys(key, xs)[i - 1], Keys(key, xs)[j - 1]);
      }
    }
  }

  function SortBy<T>(key: T -> string, xs: seq<T>): (r: seq<T>)
    ensures Ascending(Keys(key, r))
    ensures multiset(r) == multiset(xs)
  {
    if xs == [] then []
    else
      assert xs == [xs[0]] + xs[1..];
      InsertBy(key, xs[0], SortBy(key, xs[1..]))
  }

  function Identical(s: string): string { s }

  function Sort(xs: seq<string>): (r: seq<string>)
    ensures Ascending(r)
    ensures multiset(r) == multiset(xs)
  {
    var r := SortBy(Identical, xs);
    assert Keys(Identical, r) == r;
    r
  }

  // ---------------------------------------------------------------- canonical lists

  /** `xs` lists the set `s` in ascending order, each member once. */
  ghost predicate Lists(xs: seq<string>, s: set<string>) {
    Strict(xs) && forall x :: x in xs <==> x in s
  }

  lemma {:induction false} ListsTail(xs: seq<string>, s: set<string>)
    requires Lists(xs, s) && xs != []
    ensures Lists(xs[1..], s - {xs[0]})
    ensures forall x :: x in s ==> Leq(xs[0], x)
  {
    forall x ensures x in xs[1..] <==> x in s - {xs[0]} {
      if x in xs[1..] {
        var i :| 0 <= i < |xs| - 1 && xs[1..][i] == x;
        assert Less(xs[0], xs[i + 1]);
        assert xs[i + 1] in xs;
      }
      if x in s - {xs[0]} {
        var i :| 0 <= i < |xs| && xs[i] == x;
        assert xs[1..][i - 1] == x;
      }
    }
    forall x | x in s ensures Leq(xs[0], x) {
      var i :| 0 <= i < |xs| && xs[i] == x;
      LeqTotal(x, x);
      assert i > 0 ==> Less(xs[0], xs[i]);
    }
  }

  lemma ListsEmpty(xs: seq<string>, s: set<string>)
    requires Lists(xs, s)
    ensures xs == [] <==> s == {}
  {
    if xs != [] {
      assert xs[0] in xs;
    }
  }

  /** A set has only one ascending list. */
  lemma {:induction false} ListsUnique(xs: seq<string>, ys: seq<string>, s: set<string>)
    requires Lists(xs, s) && Lists(ys, s)
    ensures xs == ys
    decreases |xs|
  {
    ListsEmpty(xs, s);
    ListsEmpty(ys, s);
    if xs != [] {
      ListsTail(xs, s);
      ListsTail(ys, s);
      assert xs[0] in xs && ys[0] in ys;
      LeqTotal(xs[0], ys[0]);
      ListsUnique(xs[1..], ys[1..], s - {xs[0]});
      assert xs == [xs[0]] + xs[1..] && ys == [ys[0]] + ys[1..];
    }
  }

  /** Sorting a list without repeats gives the ascending list of its members. */
  lemma SortLists(xs: seq<string>, s: set<string>)
    requires forall x :: x in xs <==> x in s
    requires forall i, j :: 0 <= i < j < |xs| ==> xs[i] != xs[j]
    ensures Lists(Sort(xs), s)
  {
    var r := Sort(xs);
    MembersOf(r, xs);
    DistinctSorted(xs, r);
  }

  lemma DistinctSorted<T>(xs: seq<T>, r: seq<T>)
    requires multiset(r) == multiset(xs)
    requires forall i, j :: 0 <= i < j < |xs| ==> xs[i] != xs[j]
    ensures forall i, j :: 0 <= i < j < |r| ==> r[i] != r[j]
  {
    forall i, j | 0 <= i < j < |r| ensures r[i] != r[j] {
      if r[i] == r[j] {
        TwiceInMultiset(r, i, j);
        OnceInMultiset(xs, r[i]);
        assert false;
      }
    }
  }

  lemma TwiceInMultiset<T>(r: seq<T>, i: nat, j: nat)
    requires i < j < |r| && r[i] == r[j]
    ensures multiset(r)[r[i]] >= 2
  {
    assert r == r[..j] + [r[j]] + r[j + 1..];
    assert r[..j][i] == r[i] && r[i] in r[..j];
    assert multiset(r[..j])[r[i]] >= 1;
  }

  lemma {:induction false} OnceInMultiset<T>(xs: seq<T>, x: T)
    requires forall i, j :: 0 <= i < j < |xs| ==> xs[i] != xs[j]
    ensures multiset(xs)[x] <= 1
  {
    if xs != [] {
      assert xs == [xs[0]] + xs[1..];
      OnceInMultiset(xs[1..], x);
      if x == xs[0] {
        assert x !in xs[1..];
        assert x !in multiset(xs[1..]);
      }
    }
  }

  lemma ListExists(s: set<string>)
    ensures exists xs :: Lists(xs, s)
  {
    var todo := s;
    var out: seq<string> := [];
    while todo != {}
      invariant todo <= s
      invariant forall x :: x in out <==> x in s - todo
      invariant forall i, j :: 0 <= i < j < |out| ==> out[i] != out[j]
      decreases todo
    {
      var x :| x in todo;
      assert forall i :: 0 <= i < |out| ==> out[i] in out;
      out := out + [x];
      todo := todo - {x};
    }
    SortLists(out, s);
  }

  ghost function ListOf(s: set<string>): (xs: seq<string>)
    ensures Lists(xs, s)
  {
    ListExists(s);
    var xs :| Lists(xs, s);
    xs
  }

  /** The members of a set in ascending order. */
  method SortedList(s: set<string>) returns (xs: seq<string>)
    ensures Lists(xs, s) && xs == ListOf(s)
  {
    var todo := s;
    var out: seq<string> := [];
    while todo != {}
      invariant todo <= s
      invariant forall x :: x in out <==> x in s - todo
      invariant forall i, j :: 0 <= i < j < |out| ==> out[i] != out[j]
      decreases todo
    {
      var x :| x in todo;
      assert forall i :: 0 <= i < |out| ==> out[i] in out;
      out := out + [x];
      todo := todo - {x};
    }
    SortLists(out, s);
    xs := Sort(out);
    ListsUnique(xs, ListOf(s), s);
  }

  // ---------------------------------------------------------------- split and join

  function Join(xs: seq<string>, sep: char): string {
    if xs == [] then ""
    else if |xs| == 1 then xs[0]
    else xs[0] + [sep] + Join(xs[1..], sep)
  }

  /** Where `sep` first occurs in `s`, or the length of `s`. */
  function Find(s: string, sep: char): (n: nat)
    ensures n <= |s|
    ensures sep !in s[..n]
    ensures n < |s| ==> s[n] == sep
  {
    if s == "" || s[0] == sep then 0 else 1 + Find(s[1..], sep)
  }

  function Split(s: string, sep: char): (r: seq<string>)
    ensures r != []
    decreases |s|
  {
    var n := Find(s, sep);
    if n == |s| then [s] else [s[..n]] + Split(s[n + 1..], sep)
  }

  lemma {:induction false} FindIn(a: string, sep: char, b: string)
    requires sep !in a
    ensures Find(a, sep) == |a|
    ensures Find(a + [sep] + b, sep) == |a|
  {
    if a != "" {
      FindIn(a[1..], sep, b);
      assert (a + [sep] + b)[1..] == a[1..] + [sep] + b;
    }
  }

  /** Joining and splitting again gives the list back, as long as no member holds the separator. */
  lemma {:induction false} SplitJoin(xs: seq<string>, sep: char)
    requires forall x :: x in xs ==> sep !in x
    ensures Split(Join(xs, sep), sep) == if xs == [] then [""] else xs
  {
    if |xs| == 1 {
      FindIn(xs[0], sep, "");
    } else if xs != [] {
      var tail := Join(xs[1..], sep);
      FindIn(xs[0], sep, tail);
      SplitJoin(xs[1..], sep);
      var whole := xs[0] + [sep] + tail;
      assert whole[..|xs[0]|] == xs[0] && whole[|xs[0]| + 1..] == tail;
      assert xs == [xs[0]] + xs[1..];
    }
  }
}
