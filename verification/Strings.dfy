/** Blank strings, the order in which the source sorts strings, and sorted lists without duplicates. */
module Strings {
  import opened Sequences

  /** Unicode White_Space, the characters `trim` removes. */
  predicate IsWhitespace(c: char) {
    || '\U{0009}' <= c <= '\U{000D}' || c == ' ' || c == '\U{0085}' || c == '\U{00A0}' || c == '\U{1680}'
    || '\U{2000}' <= c <= '\U{200A}' || c == '\U{2028}' || c == '\U{2029}' || c == '\U{202F}'
    || c == '\U{205F}' || c == '\U{3000}'
  }

  /** The characters with the property White_Space. */
  lemma WhitespaceIs(c: char)
    ensures IsWhitespace(c) <==>
      c as int in {0x9, 0xA, 0xB, 0xC, 0xD, 0x20, 0x85, 0xA0, 0x1680, 0x2000, 0x2001, 0x2002, 0x2003, 0x2004, 0x2005,
                   0x2006, 0x2007, 0x2008, 0x2009, 0x200A, 0x2028, 0x2029, 0x202F, 0x205F, 0x3000}
  {}

  /** `text.trim().is_empty()` */
  predicate Blank(text: string) { forall c :: c in text ==> IsWhitespace(c) }

  lemma LetterIsNotBlank(text: string)
    requires text != "" && 'a' <= text[0] <= 'z'
    ensures !Blank(text)
  {
    assert text[0] in text;
  }

  /** Lexicographic order by code point. */
  predicate Leq(a: string, b: string) {
    a == "" || (b != "" && (a[0] < b[0] || (a[0] == b[0] && Leq(a[1..], b[1..]))))
  }

  /** `a` begins `b`, or is smaller at the first character in which they differ. */
  ghost predicate NoLater(a: string, b: string) {
    a <= b || exists i :: 0 <= i < |a| && i < |b| && a[..i] == b[..i] && a[i] < b[i]
  }

  lemma {:induction false} LeqExactly(a: string, b: string)
    ensures Leq(a, b) <==> NoLater(a, b)
  {
    if a != "" && b != "" && a[0] == b[0] {
      LeqExactly(a[1..], b[1..]);
      TailNoLater(a, b);
    } else if a != "" && b != "" {
      assert a[..0] == b[..0];
      forall i | 0 < i < |a| && i < |b| ensures a[..i] != b[..i] { assert a[..i][0] != b[..i][0]; }
    }
  }

  lemma TailNoLater(a: string, b: string)
    requires a != "" && b != "" && a[0] == b[0]
    ensures NoLater(a, b) <==> NoLater(a[1..], b[1..])
  {
    var c, d := a[1..], b[1..];
    assert a == [a[0]] + c && b == [b[0]] + d;
    forall i | 0 < i < |a| && i < |b| ensures a[..i] == b[..i] <==> c[..i-1] == d[..i-1] {
      assert a[..i] == [a[0]] + c[..i-1] && b[..i] == [b[0]] + d[..i-1];
      if a[..i] == b[..i] { assert c[..i-1] == a[..i][1..] && d[..i-1] == b[..i][1..]; }
    }
    if NoLater(c, d) && !(c <= d) {
      var i :| 0 <= i < |c| && i < |d| && c[..i] == d[..i] && c[i] < d[i];
      assert a[..i+1] == b[..i+1] && a[i+1] < b[i+1];
    }
  }

  lemma {:induction false} LeqTotal(a: string, b: string)
    ensures Leq(a, b) || Leq(b, a)
  {
    if a != "" && b != "" && a[0] == b[0] { LeqTotal(a[1..], b[1..]); }
  }

  lemma {:induction false} LeqTransitive(a: string, b: string, c: string)
    requires Leq(a, b) && Leq(b, c)
    ensures Leq(a, c)
  {
    if a != "" && a[0] == b[0] == c[0] { LeqTransitive(a[1..], b[1..], c[1..]); }
  }

  lemma {:induction false} LeqAntisymmetric(a: string, b: string)
    requires Leq(a, b) && Leq(b, a)
    ensures a == b
  {
    if a == "" {
    } else {
      LeqAntisymmetric(a[1..], b[1..]);
      assert a == [a[0]] + a[1..] && b == [b[0]] + b[1..];
    }
  }

  lemma LeqIsOrder()
    ensures TotalOrder(Leq)
  {
    forall a, b ensures Leq(a, b) || Leq(b, a) { LeqTotal(a, b); }
    forall a, b, c | Leq(a, b) && Leq(b, c) ensures Leq(a, c) { LeqTransitive(a, b, c); }
  }

  ghost predicate Distinct<T(!new)>(xs: seq<T>) { forall i, j :: 0 <= i < j < |xs| ==> xs[i] != xs[j] }

  /** `dedup`: of equal neighbours the first stays. */
  function Dedup(xs: seq<string>): (ys: seq<string>)
    ensures forall x :: x in ys <==> x in xs
  {
    if |xs| <= 1 then xs
    else
      assert xs == [xs[0]] + xs[1..];
      if xs[0] == xs[1] then Dedup(xs[1..]) else [xs[0]] + Dedup(xs[1..])
  }

  /** Sorted and free of duplicates. */
  ghost predicate Canonical(xs: seq<string>) { SortedBy(xs, Leq) && Distinct(xs) }

  lemma FirstIsLeast(xs: seq<string>, x: string)
    requires SortedBy(xs, Leq) && x in xs
    ensures Leq(xs[0], x)
  {
    LeqTotal(x, x);
    var i :| 0 <= i < |xs| && xs[i] == x;
  }

  lemma ConsCanonical(x: string, ys: seq<string>)
    requires Canonical(ys) && forall y :: y in ys ==> Leq(x, y) && x != y
    ensures Canonical([x] + ys)
  {}

  lemma {:induction false} DedupCanonical(xs: seq<string>)
    requires SortedBy(xs, Leq)
    ensures Canonical(Dedup(xs))
  {
    if |xs| > 1 {
      var rest := xs[1..];
      DedupCanonical(rest);
      if xs[0] != xs[1] {
        forall y | y in Dedup(rest) ensures Leq(xs[0], y) && xs[0] != y {
          FirstIsLeast(xs, y);
          FirstIsLeast(rest, y);
          if xs[0] == y { LeqAntisymmetric(xs[0], xs[1]); }
        }
        ConsCanonical(xs[0], Dedup(rest));
      }
    }
  }

  /** A canonical list is determined by its elements. */
  lemma {:induction false} CanonicalUnique(xs: seq<string>, ys: seq<string>)
    requires Canonical(xs) && Canonical(ys) && forall x :: x in xs <==> x in ys
    ensures xs == ys
  {
    if xs == [] {
    } else {
      assert xs[0] in xs;
    }
    if ys == [] {
    } else {
      assert ys[0] in ys;
    }
    if xs != [] && ys != [] {
      FirstIsLeast(xs, ys[0]);
      FirstIsLeast(ys, xs[0]);
      LeqAntisymmetric(xs[0], ys[0]);
      forall x ensures x in xs[1..] <==> x in ys[1..] {
        TailMembers(xs, x);
        TailMembers(ys, x);
      }
      CanonicalUnique(xs[1..], ys[1..]);
    }
  }

  lemma TailMembers(xs: seq<string>, x: string)
    requires xs != [] && Distinct(xs)
    ensures x in xs[1..] <==> x in xs && x != xs[0]
  {
    if x in xs && x != xs[0] { var i :| 0 <= i < |xs| && xs[i] == x; assert xs[1..][i-1] == x; }
  }

  /** `sort` then `dedup`. */
  function SortDedup(xs: seq<string>): seq<string> { Dedup(SortBy(xs, Leq)) }

  lemma SortDedupCanonical(xs: seq<string>)
    ensures Canonical(SortDedup(xs)) && forall x :: x in SortDedup(xs) <==> x in xs
  {
    LeqIsOrder();
    SortBySorted(xs, Leq);
    DedupCanonical(SortBy(xs, Leq));
    SameElements(xs, SortBy(xs, Leq));
  }
}
