/**
 * Sequence helpers shared by the pages: the JavaScript `Array.prototype.filter`,
 * the first-occurrence order of a `Set` built from an array, and duplicate freedom.
 */
module Seqs {

  /** No element occurs twice. */
  predicate NoDup<T(==)>(xs: seq<T>) {
    forall i, j :: 0 <= i < j < |xs| ==> xs[i] != xs[j]
  }

  /** `a` is obtained from `b` by deleting elements, keeping the order of the rest. */
  ghost predicate IsSubsequence<T>(a: seq<T>, b: seq<T>)
    decreases |b|
  {
    a == [] || (b != [] && ((a[0] == b[0] && IsSubsequence(a[1..], b[1..])) || IsSubsequence(a, b[1..])))
  }

  /** The elements of `xs` that satisfy `p`, in their original order (`xs.filter(p)`). */
  function Filter<T(!new)>(xs: seq<T>, p: T -> bool): (r: seq<T>)
    ensures |r| <= |xs|
    ensures forall y :: y in r <==> y in xs && p(y)
    ensures IsSubsequence(r, xs)
  {
    if xs == [] then []
    else if p(xs[0]) then
      var rest := Filter(xs[1..], p);
      assert xs == [xs[0]] + xs[1..];
      assert ([xs[0]] + rest)[1..] == rest;
      [xs[0]] + rest
    else
      assert xs == [xs[0]] + xs[1..];
      Filter(xs[1..], p)
  }

  /** Filtering keeps every wanted element as often as it occurs and drops the others. */
  lemma {:induction false} FilterMultiset<T(!new)>(xs: seq<T>, p: T -> bool)
    ensures forall y :: multiset(Filter(xs, p))[y] == if p(y) then multiset(xs)[y] else 0
  {
    if xs != [] {
      FilterMultiset(xs[1..], p);
      assert xs == [xs[0]] + xs[1..];
    }
  }

  lemma {:induction false} FilterAppend<T(!new)>(a: seq<T>, b: seq<T>, p: T -> bool)
    ensures Filter(a + b, p) == Filter(a, p) + Filter(b, p)
  {
    if a == [] {
      assert a + b == b;
    } else {
      assert (a + b)[1..] == a[1..] + b;
      FilterAppend(a[1..], b, p);
    }
  }

  /** Filtering twice is filtering once by the conjunction. */
  lemma {:induction false} FilterTwice<T(!new)>(xs: seq<T>, p: T -> bool, q: T -> bool, both: T -> bool)
    requires forall y :: both(y) == (p(y) && q(y))
    ensures Filter(Filter(xs, p), q) == Filter(xs, both)
  {
    if xs != [] {
      FilterTwice(xs[1..], p, q, both);
      if p(xs[0]) {
        assert ([xs[0]] + Filter(xs[1..], p))[1..] == Filter(xs[1..], p);
      }
    }
  }

  /** Two predicates that agree on the elements of `xs` filter it alike. */
  lemma {:induction false} FilterAgrees<T(!new)>(xs: seq<T>, p: T -> bool, q: T -> bool)
    requires forall y :: y in xs ==> p(y) == q(y)
    ensures Filter(xs, p) == Filter(xs, q)
  {
    if xs != [] {
      assert forall y :: y in xs[1..] ==> y in xs;
      FilterAgrees(xs[1..], p, q);
    }
  }

  /** Filtering with a predicate that holds everywhere gives back the whole sequence. */
  lemma {:induction false} FilterKeepsAll<T(!new)>(xs: seq<T>, p: T -> bool)
    requires forall y :: y in xs ==> p(y)
    ensures Filter(xs, p) == xs
  {
    if xs != [] {
      assert forall y :: y in xs[1..] ==> y in xs;
      FilterKeepsAll(xs[1..], p);
    }
  }

  /** The distinct elements of `xs` in order of first occurrence (`[...new Set(xs)]`). */
  function Distinct<T(==,!new)>(xs: seq<T>): (r: seq<T>)
    ensures NoDup(r)
    ensures forall y :: y in r <==> y in xs
  {
    if xs == [] then []
    else
      var init := xs[..|xs| - 1];
      assert xs == init + [xs[|xs| - 1]];
      var d := Distinct(init);
      if xs[|xs| - 1] in d then d else d + [xs[|xs| - 1]]
  }

  /** Number of positions of `xs` that hold `x`. */
  function Count<T(==)>(xs: seq<T>, x: T): nat {
    if xs == [] then 0 else (if xs[0] == x then 1 else 0) + Count(xs[1..], x)
  }

  /** In a duplicate-free sequence every present element occurs exactly once. */
  lemma {:induction false} NoDupCountOne<T>(xs: seq<T>, x: T)
    requires NoDup(xs) && x in xs
    ensures Count(xs, x) == 1
  {
    if xs[0] == x {
      NotInCountZero(xs[1..], x);
    } else {
      NoDupCountOne(xs[1..], x);
    }
  }

  lemma {:induction false} NotInCountZero<T>(xs: seq<T>, x: T)
    requires x !in xs
    ensures Count(xs, x) == 0
  {
    if xs != [] {
      NotInCountZero(xs[1..], x);
    }
  }

  /** Duplicate freedom is "every multiplicity is at most one". */
  lemma {:induction false} NoDupMultiset<T(!new)>(xs: seq<T>)
    ensures NoDup(xs) <==> forall y :: multiset(xs)[y] <= 1
  {
    if xs != [] {
      var t := xs[1..];
      assert xs == [xs[0]] + t;
      NoDupMultiset(t);
      if NoDup(xs) {
        assert NoDup(t) by {
          forall i, j | 0 <= i < j < |t| ensures t[i] != t[j] {
            assert t[i] == xs[i + 1] && t[j] == xs[j + 1];
          }
        }
        assert xs[0] !in t by {
          forall j | 0 <= j < |t| ensures t[j] != xs[0] {
            assert t[j] == xs[j + 1];
          }
        }
      } else {
        var i, j :| 0 <= i < j < |xs| && xs[i] == xs[j];
        if i == 0 {
          assert xs[0] in t by { assert t[j - 1] == xs[j]; }
          assert multiset(xs)[xs[0]] >= 2;
        } else {
          assert t[i - 1] == t[j - 1];
          assert !NoDup(t);
          var y :| multiset(t)[y] > 1;
          assert multiset(xs)[y] > 1;
        }
      }
    }
  }

  /** The tail of a duplicate-free sequence is duplicate-free and misses the head. */
  lemma NoDupTail<T>(xs: seq<T>)
    requires NoDup(xs) && xs != []
    ensures NoDup(xs[1..]) && xs[0] !in xs[1..]
  {
    var t := xs[1..];
    forall a, b | 0 <= a < b < |t| ensures t[a] != t[b] {
      assert t[a] == xs[a + 1] && t[b] == xs[b + 1];
    }
    forall j | 0 <= j < |t| ensures t[j] != xs[0] {
      assert t[j] == xs[j + 1];
    }
  }

  /** Removing a present element from a duplicate-free sequence removes exactly that position. */
  lemma {:induction false} FilterOutAt<T(!new)>(xs: seq<T>, i: nat, p: T -> bool)
    requires NoDup(xs) && i < |xs|
    requires forall y :: p(y) == (y != xs[i])
    ensures Filter(xs, p) == xs[..i] + xs[i + 1..]
  {
    NoDupTail(xs);
    var t := xs[1..];
    if i == 0 {
      FilterKeepsAll(t, p);
      assert Filter(xs, p) == Filter(t, p);
    } else {
      assert t[i - 1] == xs[i];
      assert Filter(xs, p) == [xs[0]] + Filter(t, p);
      FilterOutAt(t, i - 1, p);
      DropAtTail(xs, i);
    }
  }

  /** Filtering keeps a sequence duplicate-free. */
  lemma {:induction false} FilterNoDup<T(!new)>(xs: seq<T>, p: T -> bool)
    requires NoDup(xs)
    ensures NoDup(Filter(xs, p))
  {
    if xs != [] {
      NoDupTail(xs);
      FilterNoDup(xs[1..], p);
      if p(xs[0]) {
        var rest := Filter(xs[1..], p);
        var r := [xs[0]] + rest;
        assert Filter(xs, p) == r;
        forall i, j | 0 <= i < j < |r| ensures r[i] != r[j] {
          assert r[j] == rest[j - 1] && rest[j - 1] in rest;
          if i > 0 {
            assert r[i] == rest[i - 1];
          }
        }
      }
    }
  }

  /** Two duplicate-free sequences without a common element join into a duplicate-free one. */
  lemma NoDupAppend<T>(a: seq<T>, b: seq<T>)
    requires NoDup(a) && NoDup(b)
    requires forall y :: y in a ==> y !in b
    ensures NoDup(a + b)
  {
    var r := a + b;
    forall i, j | 0 <= i < j < |r| ensures r[i] != r[j] {
      if j < |a| {
        assert r[i] == a[i] && r[j] == a[j];
      } else if i < |a| {
        assert r[i] == a[i] && r[j] == b[j - |a|] && a[i] in a;
      } else {
        assert r[i] == b[i - |a|] && r[j] == b[j - |a|];
      }
    }
  }

  /** A sequence without members is empty. */
  lemma NoMembersEmpty<T>(xs: seq<T>)
    requires forall y :: y !in xs
    ensures xs == []
  {
    forall y ensures multiset(xs)[y] == 0 {
      assert y !in xs;
    }
    assert multiset(xs) == multiset{};
  }

  /** Dropping one position keeps a sequence duplicate-free. */
  lemma NoDupDropAt<T>(xs: seq<T>, i: nat)
    requires NoDup(xs) && i < |xs|
    ensures NoDup(xs[..i] + xs[i + 1..])
  {
    var r := xs[..i] + xs[i + 1..];
    forall a, b | 0 <= a < b < |r| ensures r[a] != r[b] {
      assert r[a] == xs[if a < i then a else a + 1];
      assert r[b] == xs[if b < i then b else b + 1];
    }
  }

  lemma DropAtTail<T>(xs: seq<T>, i: nat)
    requires 0 < i < |xs|
    ensures xs[..i] + xs[i + 1..] == [xs[0]] + (xs[1..][..i - 1] + xs[1..][i..])
  {
    assert xs[..i] == [xs[0]] + xs[1..][..i - 1];
    assert xs[i + 1..] == xs[1..][i..];
  }
}
