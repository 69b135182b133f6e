/**
 * The two `reduce` calls that bucket showtimes into a plain object: by movie id
 * (the same code in the booking wizard and on the Showtimes page) and, inside one
 * movie, by date. The object is read back with `Object.values` or `Object.entries`,
 * which list its keys in the order ECMAScript fixes for ordinary objects: keys that
 * are array indices (the decimal text of an integer from 0 to 2^32 - 2) first, in
 * ascending numeric order, then every other key in the order it was added. So
 * movie ids from 0 to 2^32 - 2 come in ascending order and ISO dates such as
 * "2024-05-01" in order of first appearance, while a negative id or a date such as
 * "7" moves to the other group.
 */
module Grouping {
  import opened Wrappers
  import opened Seqs
  import opened Text
  import opened Catalog

  /** One value of the movie-keyed accumulator: `{ movie, showtimes }`. */
  datatype MovieGroup = MovieGroup(movie: Movie, showtimes: seq<Showtime>)

  /** The showtimes of `xs` whose key is `k`, in their original order. */
  function Select<K(==,!new)>(xs: seq<Showtime>, key: Showtime -> K, k: K): (r: seq<Showtime>)
    ensures forall s :: s in r <==> s in xs && key(s) == k
    ensures IsSubsequence(r, xs)
  {
    Filter(xs, s => key(s) == k)
  }

  lemma SelectSnoc<K(!new)>(xs: seq<Showtime>, s: Showtime, key: Showtime -> K, k: K)
    ensures Select(xs + [s], key, k) == Select(xs, key, k) + (if key(s) == k then [s] else [])
  {
    FilterAppend(xs, [s], s' => key(s') == k);
  }

  /** The keys of `xs` in order of first appearance. */
  function KeysInOrder<K(==,!new)>(xs: seq<Showtime>, key: Showtime -> K): (ks: seq<K>)
    ensures NoDup(ks)
    ensures forall k :: k in ks <==> exists s :: s in xs && key(s) == k
  {
    var all := seq(|xs|, i requires 0 <= i < |xs| => key(xs[i]));
    assert forall k :: k in all <==> exists s :: s in xs && key(s) == k by {
      forall k ensures k in all <==> exists s :: s in xs && key(s) == k {
        if exists s :: s in xs && key(s) == k {
          var s :| s in xs && key(s) == k;
          var i :| 0 <= i < |xs| && xs[i] == s;
          assert all[i] == k;
        }
      }
    }
    Distinct(all)
  }

  lemma KeysSnoc<K(!new)>(xs: seq<Showtime>, s: Showtime, key: Showtime -> K)
    ensures KeysInOrder(xs + [s], key) ==
      if key(s) in KeysInOrder(xs, key) then KeysInOrder(xs, key) else KeysInOrder(xs, key) + [key(s)]
  {
    var ys := xs + [s];
    var all := seq(|ys|, i requires 0 <= i < |ys| => key(ys[i]));
    assert all[..|all| - 1] == seq(|xs|, i requires 0 <= i < |xs| => key(xs[i]));
  }

  /** Total size of the buckets named in `ks`. */
  function BucketSizes<K(==,!new)>(xs: seq<Showtime>, key: Showtime -> K, ks: seq<K>): nat {
    if ks == [] then 0 else |Select(xs, key, ks[0])| + BucketSizes(xs, key, ks[1..])
  }

  lemma {:induction false} BucketSizesOfEmpty<K(!new)>(key: Showtime -> K, ks: seq<K>)
    ensures BucketSizes([], key, ks) == 0
  {
    if ks != [] {
      BucketSizesOfEmpty(key, ks[1..]);
    }
  }

  /** Adding one showtime in front adds it to exactly as many buckets as `ks` names its key. */
  lemma {:induction false} BucketSizesCons<K(!new)>(xs: seq<Showtime>, key: Showtime -> K, ks: seq<K>)
    requires xs != []
    ensures BucketSizes(xs, key, ks) == BucketSizes(xs[1..], key, ks) + Count(ks, key(xs[0]))
  {
    if ks != [] {
      assert xs == [xs[0]] + xs[1..];
      FilterAppend([xs[0]], xs[1..], s => key(s) == ks[0]);
      BucketSizesCons(xs, key, ks[1..]);
    }
  }

  lemma {:induction false} BucketSizesCover<K(!new)>(xs: seq<Showtime>, key: Showtime -> K, ks: seq<K>)
    requires NoDup(ks)
    requires forall s :: s in xs ==> key(s) in ks
    ensures BucketSizes(xs, key, ks) == |xs|
  {
    if xs == [] {
      BucketSizesOfEmpty(key, ks);
    } else {
      BucketSizesCons(xs, key, ks);
      NoDupCountOne(ks, key(xs[0]));
      BucketSizesCover(xs[1..], key, ks);
    }
  }

  /**
   * Grouping is a partition: every showtime lies in the bucket of its own key
   * and in no other (`Select`), and the bucket sizes add up to the number of
   * showtimes grouped.
   */
  lemma PartitionSizes<K(!new)>(xs: seq<Showtime>, key: Showtime -> K)
    ensures BucketSizes(xs, key, KeysInOrder(xs, key)) == |xs|
  {
    BucketSizesCover(xs, key, KeysInOrder(xs, key));
  }

  /** The accumulator the bucketing `reduce` builds, stated step by step. */
  ghost function Buckets<K(!new)>(xs: seq<Showtime>, key: Showtime -> K): map<K, seq<Showtime>>
  {
    if xs == [] then map[]
    else
      var m := Buckets(xs[..|xs| - 1], key);
      var k := key(xs[|xs| - 1]);
      m[k := (if k in m then m[k] else []) + [xs[|xs| - 1]]]
  }

  /** The bucket of every key present is exactly the showtimes with that key. */
  lemma {:induction false} BucketsAreSelections<K(!new)>(xs: seq<Showtime>, key: Showtime -> K)
    ensures forall k :: k in Buckets(xs, key) <==> exists s :: s in xs && key(s) == k
    ensures forall k :: k in Buckets(xs, key) ==> Buckets(xs, key)[k] == Select(xs, key, k)
  {
    if xs != [] {
      var init, s := xs[..|xs| - 1], xs[|xs| - 1];
      assert xs == init + [s];
      BucketsAreSelections(init, key);
      var m := Buckets(init, key);
      forall k | k in Buckets(xs, key) ensures Buckets(xs, key)[k] == Select(xs, key, k) {
        SelectSnoc(init, s, key, k);
        if k !in m {
          assert forall t :: t !in Select(init, key, k);
          NoMembersEmpty(Select(init, key, k));
        }
      }
      forall k ensures k in Buckets(xs, key) <==> exists t :: t in xs && key(t) == k {
        if k in m {
          var t :| t in init && key(t) == k;
          assert t in xs;
        }
        if exists t :: t in xs && key(t) == k {
          var t :| t in xs && key(t) == k;
          assert t in init || t == s;
        }
      }
    }
  }

  /** The accumulator's keys are the keys listed in first-appearance order. */
  lemma BucketKeysInOrder<K(!new)>(xs: seq<Showtime>, key: Showtime -> K)
    ensures forall k :: k in Buckets(xs, key) <==> k in KeysInOrder(xs, key)
  {
    BucketsAreSelections(xs, key);
  }

  // ------------------------------------------------------------- key order

  /** The largest array index of ECMAScript, 2^32 - 2. */
  const MAX_ARRAY_INDEX: int := 4294967294

  /** A number key that is an array index: its text is listed before every other key. */
  predicate IsIndexNumber(k: int) { 0 <= k <= MAX_ARRAY_INDEX }

  /** A number key used as a property name stands for itself. */
  function NumberValue(k: int): int { k }

  /** A string key that is an array index: the decimal text, without a leading zero, of an index number. */
  predicate IsIndexString(s: string) {
    s != [] && AllDigits(s) && (|s| > 1 ==> s[0] != '0') && DigitsValue(s) <= MAX_ARRAY_INDEX
  }

  /** The number an array-index string stands for (0 for any other string). */
  function StringValue(s: string): int {
    if AllDigits(s) then DigitsValue(s) else 0
  }

  /** The opposite of a key test, so that `filter` can keep the keys that fail it. */
  function Not<K>(p: K -> bool): K -> bool {
    k => !p(k)
  }

  /** Strictly ascending by `value`. */
  predicate AscendingBy<K>(ks: seq<K>, value: K -> int) {
    forall i, j :: 0 <= i < j < |ks| ==> value(ks[i]) < value(ks[j])
  }

  /** Adds `k` to a list ascending by `value`, unless it is there already. */
  function InsertBy<K(==,!new)>(k: K, ks: seq<K>, value: K -> int): (r: seq<K>)
    requires AscendingBy(ks, value)
    requires forall x :: x in ks && value(x) == value(k) ==> x == k
    ensures AscendingBy(r, value)
    ensures forall x :: x in r <==> x == k || x in ks
  {
    if ks == [] then [k]
    else if value(k) < value(ks[0]) then
      ConsAscending(k, ks, value);
      [k] + ks
    else if value(k) == value(ks[0]) then ks
    else
      assert ks == [ks[0]] + ks[1..];
      assert forall x :: x in ks[1..] ==> value(ks[0]) < value(x);
      var rest := InsertBy(k, ks[1..], value);
      ConsAscending(ks[0], rest, value);
      [ks[0]] + rest
  }

  /** A key below every key of an ascending list can go in front of it. */
  lemma ConsAscending<K>(h: K, t: seq<K>, value: K -> int)
    requires AscendingBy(t, value) && forall x :: x in t ==> value(h) < value(x)
    ensures AscendingBy([h] + t, value)
  {
    var r := [h] + t;
    forall i, j | 0 <= i < j < |r| ensures value(r[i]) < value(r[j]) {
      assert r[j] == t[j - 1] && t[j - 1] in t;
      if i > 0 {
        assert r[i] == t[i - 1];
      }
    }
  }

  /**
   * The keys of `ks` in ascending order of `value`, each once. The keys must have
   * different values, as the array indices of one object do.
   */
  function SortBy<K(==,!new)>(ks: seq<K>, value: K -> int): (r: seq<K>)
    requires forall x, y :: x in ks && y in ks && value(x) == value(y) ==> x == y
    ensures AscendingBy(r, value)
    ensures forall x :: x in r <==> x in ks
  {
    if ks == [] then []
    else
      assert forall x :: x in ks <==> x == ks[0] || x in ks[1..];
      InsertBy(ks[0], SortBy(ks[1..], value), value)
  }

  /** An ascending list is fixed by its members, so the listing order depends only on the key set. */
  lemma {:induction false} AscendingUnique<K>(a: seq<K>, b: seq<K>, value: K -> int)
    requires AscendingBy(a, value) && AscendingBy(b, value)
    requires forall x :: x in a <==> x in b
    ensures a == b
    decreases |a|
  {
    if a == [] {
      NoMembersEmpty(b);
    } else {
      assert a[0] in a && b != [];
      assert a[0] == b[0] by {
        assert a[0] in b && b[0] in a;
      }
      forall x ensures x in a[1..] <==> x in b[1..] {
        assert x in a[1..] ==> value(a[0]) < value(x);
        assert x in b[1..] ==> value(b[0]) < value(x);
        assert x in a <==> x == a[0] || x in a[1..];
        assert x in b <==> x == b[0] || x in b[1..];
      }
      AscendingUnique(a[1..], b[1..], value);
    }
  }

  /**
   * The order of `Object.keys`, `Object.values` and `Object.entries` on an object
   * whose keys were added in the order `ks` (OrdinaryOwnPropertyKeys, section
   * 10.1.11.1 of ECMA-262): the array-index keys first, in ascending numeric order,
   * then every other key in the order it was added.
   */
  function OwnKeysOrder<K(==,!new)>(ks: seq<K>, isIndex: K -> bool, value: K -> int): (r: seq<K>)
    requires NoDup(ks)
    requires forall x, y :: x in ks && y in ks && isIndex(x) && isIndex(y) && value(x) == value(y) ==> x == y
    ensures NoDup(r)
    ensures forall x :: x in r <==> x in ks
    ensures forall i, j :: 0 <= i < j < |r| && isIndex(r[j]) ==> isIndex(r[i]) && value(r[i]) < value(r[j])
    ensures Filter(r, Not(isIndex)) == Filter(ks, Not(isIndex))
  {
    var indices := SortBy(Filter(ks, isIndex), value);
    var others := Filter(ks, Not(isIndex));
    OwnKeysOrderProps(ks, isIndex, value, indices, others);
    indices + others
  }

  lemma OwnKeysOrderProps<K(!new)>(ks: seq<K>, isIndex: K -> bool, value: K -> int, indices: seq<K>, others: seq<K>)
    requires NoDup(ks)
    requires AscendingBy(indices, value) && forall x :: x in indices <==> x in ks && isIndex(x)
    requires others == Filter(ks, Not(isIndex))
    ensures NoDup(indices + others)
    ensures forall i, j :: 0 <= i < j < |indices + others| && isIndex((indices + others)[j]) ==>
      isIndex((indices + others)[i]) && value((indices + others)[i]) < value((indices + others)[j])
    ensures Filter(indices + others, Not(isIndex)) == others
  {
    var r := indices + others;
    FilterNoDup(ks, Not(isIndex));
    assert NoDup(indices) by {
      forall i, j | 0 <= i < j < |indices| ensures indices[i] != indices[j] {
        assert value(indices[i]) < value(indices[j]);
      }
    }
    NoDupAppend(indices, others);
    forall k | |indices| <= k < |r| ensures !isIndex(r[k]) {
      assert r[k] == others[k - |indices|] && r[k] in others;
    }
    forall i, j | 0 <= i < j < |r| && isIndex(r[j]) ensures isIndex(r[i]) && value(r[i]) < value(r[j]) {
      assert r[i] == indices[i] && r[j] == indices[j] && indices[i] in indices;
    }
    FilterAppend(indices, others, Not(isIndex));
    assert forall y :: y !in Filter(indices, Not(isIndex));
    NoMembersEmpty(Filter(indices, Not(isIndex)));
    FilterKeepsAll(others, Not(isIndex));
  }

  /** Two array-index strings with the same value are the same string. */
  lemma IndexStringsInjective(s: string, t: string)
    requires IsIndexString(s) && IsIndexString(t) && StringValue(s) == StringValue(t)
    ensures s == t
  {
    CanonicalDigits(s);
    CanonicalDigits(t);
  }

  /** The movie ids of `xs` in the order `Object.values` lists the movie accumulator. */
  function MovieKeyOrder(xs: seq<Showtime>): (ks: seq<int>)
  {
    OwnKeysOrder(KeysInOrder(xs, MovieIdOf), IsIndexNumber, NumberValue)
  }

  /** The dates of `xs` in the order `Object.entries` lists the date accumulator. */
  function DateKeyOrder(xs: seq<Showtime>): (ks: seq<string>)
  {
    var ks := KeysInOrder(xs, DateOf);
    forall x, y | x in ks && y in ks && IsIndexString(x) && IsIndexString(y) && StringValue(x) == StringValue(y)
      ensures x == y
    {
      IndexStringsInjective(x, y);
    }
    OwnKeysOrder(ks, IsIndexString, StringValue)
  }

  /** The keys in the order a `reduce` adds them to its object, stated step by step. */
  ghost function KeysAdded<K(!new)>(xs: seq<Showtime>, key: Showtime -> K): seq<K>
  {
    if xs == [] then []
    else
      var ks := KeysAdded(xs[..|xs| - 1], key);
      var k := key(xs[|xs| - 1]);
      if k in ks then ks else ks + [k]
  }

  /** The keys an object receives, in order, are the keys in order of first appearance. */
  lemma {:induction false} KeysAddedInOrder<K(!new)>(xs: seq<Showtime>, key: Showtime -> K)
    ensures KeysAdded(xs, key) == KeysInOrder(xs, key)
  {
    if xs != [] {
      var init := xs[..|xs| - 1];
      KeysAddedInOrder(init, key);
      assert xs == init + [xs[|xs| - 1]];
      KeysSnoc(init, xs[|xs| - 1], key);
    }
  }

  /** How the accumulator grows with `xs[i]`. */
  lemma BucketsSnoc<K(!new)>(xs: seq<Showtime>, i: nat, key: Showtime -> K)
    requires i < |xs|
    ensures var m, k := Buckets(xs[..i], key), key(xs[i]);
      Buckets(xs[..i + 1], key) == m[k := (if k in m then m[k] else []) + [xs[i]]]
  {
    assert xs[..i + 1][..i] == xs[..i];
  }

  /** One step of the `reduce`: how the accumulator and its key order grow with `xs[i]`. */
  lemma BucketStep<K(!new)>(xs: seq<Showtime>, i: nat, key: Showtime -> K)
    requires i < |xs|
    ensures var m, k := Buckets(xs[..i], key), key(xs[i]);
      Buckets(xs[..i + 1], key) == m[k := (if k in m then m[k] else []) + [xs[i]]]
    ensures var ks, k := KeysAdded(xs[..i], key), key(xs[i]);
      (k in Buckets(xs[..i], key) <==> k in ks) &&
      KeysAdded(xs[..i + 1], key) == if k in ks then ks else ks + [k]
  {
    BucketsSnoc(xs, i, key);
    assert xs[..i + 1][..i] == xs[..i];
    KeysAddedInOrder(xs[..i], key);
    BucketKeysInOrder(xs[..i], key);
  }

  /** After the whole `reduce` the accumulator has a bucket for each key present, holding its selection. */
  lemma BucketsOfAll<K(!new)>(xs: seq<Showtime>, key: Showtime -> K)
    ensures Buckets(xs, key).Keys == set s | s in xs :: key(s)
    ensures forall k :: k in Buckets(xs, key) ==> Buckets(xs, key)[k] == Select(xs, key, k)
  {
    BucketsAreSelections(xs, key);
  }

  /**
   * `showtimes.reduce((acc, s) => { acc[s.movie.id] ??= { movie: s.movie, showtimes: [] };
   * acc[s.movie.id].showtimes.push(s); return acc; }, {})`.
   */
  method GroupByMovie(xs: seq<Showtime>) returns (acc: map<int, MovieGroup>)
    ensures acc.Keys == set s | s in xs :: MovieIdOf(s)
    ensures forall k :: k in acc ==> acc[k].showtimes == Select(xs, MovieIdOf, k)
    ensures forall k :: k in acc ==> acc[k].showtimes != [] && acc[k].movie == acc[k].showtimes[0].movie
  {
    acc := map[];
    for i := 0 to |xs|
      invariant acc.Keys == Buckets(xs[..i], MovieIdOf).Keys
      invariant forall k :: k in acc ==> acc[k].showtimes == Buckets(xs[..i], MovieIdOf)[k]
      invariant forall k :: k in acc ==> acc[k].showtimes != [] && acc[k].movie == acc[k].showtimes[0].movie
    {
      var s := xs[i];
      BucketsSnoc(xs, i, MovieIdOf);
      var movieId := s.movie.id;
      if movieId !in acc {
        acc := acc[movieId := MovieGroup(s.movie, [])];
      }
      acc := acc[movieId := acc[movieId].(showtimes := acc[movieId].showtimes + [s])];
    }
    assert xs[..|xs|] == xs;
    BucketsOfAll(xs, MovieIdOf);
  }

  /**
   * `Object.values` of the movie accumulator: one group per movie that has a
   * showtime, in the accumulator's key order, each with its movie and showtimes.
   */
  method MovieGroupsInOrder(xs: seq<Showtime>) returns (groups: seq<MovieGroup>)
    ensures |groups| == |MovieKeyOrder(xs)|
    ensures forall i :: 0 <= i < |groups| ==>
      groups[i].movie.id == MovieKeyOrder(xs)[i] &&
      groups[i].showtimes == Select(xs, MovieIdOf, groups[i].movie.id) &&
      groups[i].showtimes != [] && groups[i].movie == groups[i].showtimes[0].movie
  {
    var acc := GroupByMovie(xs);
    var order := MovieKeyOrder(xs);
    assert forall k :: k in order ==> k in acc;
    groups := seq(|order|, i requires 0 <= i < |order| => acc[order[i]]);
    forall i | 0 <= i < |groups| ensures groups[i].movie.id == order[i] {
      assert groups[i].showtimes[0] in Select(xs, MovieIdOf, order[i]);
    }
  }

  /**
   * A movie id that is not an array index (a negative one, say) is listed after an
   * index id even when its showtime comes first.
   */
  lemma OtherIdListedLast(a: Showtime, b: Showtime)
    requires !IsIndexNumber(a.movie.id) && IsIndexNumber(b.movie.id)
    ensures MovieKeyOrder([a, b]) == [b.movie.id, a.movie.id]
  {
    KeysOfPair(a, b, MovieIdOf);
    IndexKeyFirst(a.movie.id, b.movie.id, IsIndexNumber, NumberValue);
  }

  /** Two showtimes with different keys give those keys in order. */
  lemma KeysOfPair<K(!new)>(a: Showtime, b: Showtime, key: Showtime -> K)
    requires key(a) != key(b)
    ensures KeysInOrder([a, b], key) == [key(a), key(b)]
  {
    assert [a, b][..1] == [a] && [a][..0] == [];
    assert KeysAdded([a], key) == [key(a)];
    KeysAddedInOrder([a, b], key);
  }

  /** An index key added after another key is listed before it. */
  lemma IndexKeyFirst<K(!new)>(x: K, y: K, isIndex: K -> bool, value: K -> int)
    requires !isIndex(x) && isIndex(y)
    ensures OwnKeysOrder([x, y], isIndex, value) == [y, x]
  {
    FilterPair([x, y], isIndex);
    FilterPair([x, y], Not(isIndex));
    assert SortBy([y], value) == [y];
  }

  lemma FilterPair<T(!new)>(ks: seq<T>, p: T -> bool)
    requires |ks| == 2
    ensures Filter(ks, p) == (if p(ks[0]) then [ks[0]] else []) + (if p(ks[1]) then [ks[1]] else [])
  {
    assert ks[1..][1..] == [];
  }

  /** When every movie id is an array index, as database ids are, the cards come in ascending id order. */
  lemma IndexIdsAscending(xs: seq<Showtime>)
    requires forall s :: s in xs ==> IsIndexNumber(MovieIdOf(s))
    ensures forall i, j :: 0 <= i < j < |MovieKeyOrder(xs)| ==> MovieKeyOrder(xs)[i] < MovieKeyOrder(xs)[j]
  {
    var r := MovieKeyOrder(xs);
    forall j | 0 <= j < |r| ensures IsIndexNumber(r[j]) {
      assert r[j] in KeysInOrder(xs, MovieIdOf);
    }
  }

  /**
   * The properties every plain object inherits from `Object.prototype`. For such a
   * date `acc[date]` is already truthy, so the date `reduce` skips creating the
   * bucket and calls `push` on the inherited value, which throws a TypeError.
   */
  const INHERITED_NAMES: set<string> := {
    "constructor", "__proto__", "__defineGetter__", "__defineSetter__", "__lookupGetter__",
    "__lookupSetter__", "hasOwnProperty", "isPrototypeOf", "propertyIsEnumerable",
    "toLocaleString", "toString", "valueOf"}

  /** `acc[name]` on a fresh object reaches an inherited property. */
  predicate IsInherited(name: string) { name in INHERITED_NAMES }

  /**
   * `showtimes.reduce((acc, s) => { if (!acc[s.date]) acc[s.date] = []; acc[s.date].push(s);
   * return acc; }, {})`: the buckets and the order their dates were added in, or
   * `None` when the `reduce` throws on an inherited property name.
   */
  method DateAccumulator(xs: seq<Showtime>) returns (r: Option<(map<string, seq<Showtime>>, seq<string>)>)
    ensures r.None? <==> exists s :: s in xs && IsInherited(DateOf(s))
    ensures r.Some? ==> r.value.0 == Buckets(xs, DateOf) && r.value.1 == KeysInOrder(xs, DateOf)
  {
    var acc: map<string, seq<Showtime>> := map[];
    var order: seq<string> := [];
    for i := 0 to |xs|
      invariant acc == Buckets(xs[..i], DateOf)
      invariant order == KeysAdded(xs[..i], DateOf)
      invariant forall j :: 0 <= j < i ==> !IsInherited(DateOf(xs[j]))
    {
      var date := DateOf(xs[i]);
      if IsInherited(date) {
        assert xs[i] in xs;
        return None;
      }
      BucketStep(xs, i, DateOf);
      if date !in acc {
        order := order + [date];
      }
      var bucket := if date in acc then acc[date] else [];
      acc := acc[date := bucket + [xs[i]]];
    }
    assert xs[..|xs|] == xs;
    forall s | s in xs ensures !IsInherited(DateOf(s)) {
      var j :| 0 <= j < |xs| && xs[j] == s;
    }
    KeysAddedInOrder(xs, DateOf);
    r := Some((acc, order));
  }

  /**
   * `Object.entries` of the date accumulator: the dates in the object's key order,
   * each with exactly its showtimes; `None` when the `reduce` throws.
   */
  method GroupByDate(xs: seq<Showtime>) returns (r: Option<seq<(string, seq<Showtime>)>>)
    ensures r.None? <==> exists s :: s in xs && IsInherited(DateOf(s))
    ensures r.Some? ==> |r.value| == |DateKeyOrder(xs)|
    ensures r.Some? ==> forall j :: 0 <= j < |r.value| ==>
      r.value[j].0 == DateKeyOrder(xs)[j] && r.value[j].1 == Select(xs, DateOf, r.value[j].0)
  {
    var accumulated := DateAccumulator(xs);
    if accumulated.None? {
      return None;
    }
    var (acc, _) := accumulated.value;
    var order := DateKeyOrder(xs);
    DateBucketsInKeyOrder(xs);
    r := Some(seq(|order|, j requires 0 <= j < |order| => (order[j], acc[order[j]])));
  }

  /** Every date the key order lists has a bucket, and that bucket is the date's selection. */
  lemma DateBucketsInKeyOrder(xs: seq<Showtime>)
    ensures forall k :: k in DateKeyOrder(xs) ==> k in Buckets(xs, DateOf) && Buckets(xs, DateOf)[k] == Select(xs, DateOf, k)
  {
    BucketsAreSelections(xs, DateOf);
    BucketKeysInOrder(xs, DateOf);
  }

  /**
   * A date that is an array index ("7", "20240501") is listed before an ISO date
   * such as "2024-05-01" even when its showtime comes second.
   */
  lemma IndexDateListedFirst(a: Showtime, b: Showtime)
    requires !IsIndexString(a.date) && IsIndexString(b.date)
    ensures DateKeyOrder([a, b]) == [b.date, a.date]
  {
    KeysOfPair(a, b, DateOf);
    IndexKeyFirst(a.date, b.date, IsIndexString, StringValue);
  }

  /** "7" is an array-index key; "2024-05-01" and "07" are not. */
  lemma IndexDateExamples()
    ensures IsIndexString("7")
    ensures !IsIndexString("2024-05-01") && !IsIndexString("07")
  {
    assert !IsDigit("2024-05-01"[4]);
  }
}
