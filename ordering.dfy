/**
 * The order JavaScript's `Array.prototype.sort` uses on strings when no comparator
 * is given (character by character, a proper prefix first), and the sorted,
 * duplicate-free list `[...new Set(xs)].sort()`.
 */
module Ordering {
  import opened Seqs

  /** `a` sorts strictly before `b`. */
  predicate LexLess(a: string, b: string)
    decreases |a|
  {
    if |a| == 0 then |b| > 0
    else if |b| == 0 then false
    else if a[0] == b[0] then LexLess(a[1..], b[1..])
    else a[0] < b[0]
  }

  lemma {:induction false} LexLessIrreflexive(a: string)
    ensures !LexLess(a, a)
  {
    if |a| > 0 {
      LexLessIrreflexive(a[1..]);
    }
  }

  lemma {:induction false} LexLessAsymmetric(a: string, b: string)
    requires LexLess(a, b)
    ensures !LexLess(b, a)
  {
    if |a| > 0 && |b| > 0 && a[0] == b[0] {
      LexLessAsymmetric(a[1..], b[1..]);
    }
  }

  lemma {:induction false} LexLessTransitive(a: string, b: string, c: string)
    requires LexLess(a, b) && LexLess(b, c)
    ensures LexLess(a, c)
  {
    if |a| > 0 && a[0] == b[0] && b[0] == c[0] {
      LexLessTransitive(a[1..], b[1..], c[1..]);
    }
  }

  lemma {:induction false} LexLessTotal(a: string, b: string)
    requires a != b
    ensures LexLess(a, b) || LexLess(b, a)
  {
    if |a| > 0 && |b| > 0 && a[0] == b[0] {
      assert a == [a[0]] + a[1..] && b == [b[0]] + b[1..];
      LexLessTotal(a[1..], b[1..]);
    }
  }

  /** Each element sorts no later than the ones after it. */
  predicate Sorted(xs: seq<string>) {
    forall i, j :: 0 <= i < j < |xs| ==> !LexLess(xs[j], xs[i])
  }

  /** Each element sorts strictly before the ones after it. */
  predicate StrictlySorted(xs: seq<string>) {
    forall i, j :: 0 <= i < j < |xs| ==> LexLess(xs[i], xs[j])
  }

  /** Places `x` after every element that sorts before it. */
  function Insert(x: string, xs: seq<string>): (r: seq<string>)
    requires Sorted(xs)
    ensures Sorted(r)
    ensures multiset(r) == multiset(xs) + multiset{x}
  {
    if xs == [] then [x]
    else if LexLess(xs[0], x) then
      var rest := Insert(x, xs[1..]);
      assert xs == [xs[0]] + xs[1..];
      InsertedAfterHead(x, xs, rest);
      ConsSorted(xs[0], rest);
      [xs[0]] + rest
    else
      forall y | y in xs ensures !LexLess(y, x) {
        var j :| 0 <= j < |xs| && xs[j] == y;
        NotBelowHead(xs, j, x);
      }
      ConsSorted(x, xs);
      [x] + xs
  }

  /** Nothing in the tail of a sorted sequence, nor an `x` the head sorts before, sorts before the head. */
  lemma InsertedAfterHead(x: string, xs: seq<string>, rest: seq<string>)
    requires Sorted(xs) && xs != [] && LexLess(xs[0], x)
    requires multiset(rest) == multiset(xs[1..]) + multiset{x}
    ensures forall y :: y in rest ==> !LexLess(y, xs[0])
  {
    forall y | y in rest ensures !LexLess(y, xs[0]) {
      assert y in multiset(rest);
      if y == x {
        LexLessAsymmetric(xs[0], x);
      } else {
        assert y in xs[1..];
        var k :| 0 <= k < |xs[1..]| && xs[1..][k] == y;
        assert xs[k + 1] == y;
      }
    }
  }

  /** Putting in front an element that nothing sorts before keeps a sequence sorted. */
  lemma ConsSorted(h: string, t: seq<string>)
    requires Sorted(t)
    requires forall y :: y in t ==> !LexLess(y, h)
    ensures Sorted([h] + t)
  {
    var r := [h] + t;
    forall i, j | 0 <= i < j < |r| ensures !LexLess(r[j], r[i]) {
      assert r[j] == t[j - 1];
      if i > 0 {
        assert r[i] == t[i - 1];
      } else {
        assert r[j] in t;
      }
    }
  }

  /** In a sorted sequence whose head does not sort before `x`, no element sorts before `x`. */
  lemma NotBelowHead(xs: seq<string>, j: nat, x: string)
    requires Sorted(xs) && j < |xs| && !LexLess(xs[0], x)
    ensures !LexLess(xs[j], x)
  {
    if j > 0 && xs[j] != xs[0] {
      LexLessTotal(xs[j], xs[0]);
      if LexLess(xs[j], x) {
        LexLessTransitive(xs[0], xs[j], x);
      }
    }
  }

  /** Insertion sort under `LexLess`. */
  function Sort(xs: seq<string>): (r: seq<string>)
    ensures Sorted(r)
    ensures multiset(r) == multiset(xs)
  {
    if xs == [] then []
    else
      assert xs == [xs[0]] + xs[1..];
      Insert(xs[0], Sort(xs[1..]))
  }

  /** A sorted sequence without repeated elements is strictly sorted. */
  lemma SortedNoDupIsStrict(xs: seq<string>)
    requires Sorted(xs) && NoDup(xs)
    ensures StrictlySorted(xs)
  {
    forall i, j | 0 <= i < j < |xs| ensures LexLess(xs[i], xs[j]) {
      LexLessTotal(xs[i], xs[j]);
    }
  }

  /**
   * `[...new Set(xs)].sort()`: the distinct values of `xs`, taken in order of
   * first occurrence and then sorted.
   */
  function UniqueSorted(xs: seq<string>): (r: seq<string>)
    ensures StrictlySorted(r)
    ensures NoDup(r)
    ensures forall y :: y in r <==> y in xs
  {
    var d := Distinct(xs);
    var r := Sort(d);
    NoDupMultiset(d);
    NoDupMultiset(r);
    SortedNoDupIsStrict(r);
    assert forall y :: y in r <==> y in multiset(r);
    r
  }

  /**
   * A strictly sorted sequence is determined by its elements: whatever order the
   * `Set` produced, sorting it gives the same list.
   */
  lemma {:induction false} StrictlySortedUnique(a: seq<string>, b: seq<string>)
    requires StrictlySorted(a) && StrictlySorted(b)
    requires forall y :: y in a <==> y in b
    ensures a == b
  {
    if a == [] {
      NoMembersEmpty(b);
    } else {
      HeadsEqual(a, b);
      TailsSameMembers(a, b);
      StrictlySortedUnique(a[1..], b[1..]);
      assert a == [a[0]] + a[1..] && b == [b[0]] + b[1..];
    }
  }

  /** Two strictly sorted sequences with the same members start with the same element. */
  lemma HeadsEqual(a: seq<string>, b: seq<string>)
    requires StrictlySorted(a) && StrictlySorted(b) && a != []
    requires forall y :: y in a <==> y in b
    ensures b != [] && a[0] == b[0]
  {
    assert a[0] in a;
    var k :| 0 <= k < |b| && b[k] == a[0];
    assert b[0] in b;
    var m :| 0 <= m < |a| && a[m] == b[0];
    if k > 0 {
      if m > 0 {
        LexLessAsymmetric(b[0], b[k]);
      } else {
        LexLessIrreflexive(b[0]);
      }
    }
  }

  /** Dropping the common head leaves tails with the same members. */
  lemma TailsSameMembers(a: seq<string>, b: seq<string>)
    requires StrictlySorted(a) && StrictlySorted(b) && a != [] && b != [] && a[0] == b[0]
    requires forall y :: y in a <==> y in b
    ensures forall y :: y in a[1..] <==> y in b[1..]
  {
    forall y | y in a[1..] ensures y in b[1..] {
      InTailOf(a, b, y);
    }
    forall y | y in b[1..] ensures y in a[1..] {
      InTailOf(b, a, y);
    }
  }

  lemma InTailOf(a: seq<string>, b: seq<string>, y: string)
    requires StrictlySorted(a) && StrictlySorted(b) && a != [] && b != [] && a[0] == b[0]
    requires forall y :: y in a <==> y in b
    requires y in a[1..]
    ensures y in b[1..]
  {
    var i :| 0 <= i < |a[1..]| && a[1..][i] == y;
    assert LexLess(a[0], y) by { assert a[i + 1] == y; }
    LexLessIrreflexive(y);
    assert y in a;
    var j :| 0 <= j < |b| && b[j] == y;
    assert j != 0;
    assert b[1..][j - 1] == y;
  }
}
