/** Lists of records that carry a key, as the organizer keeps them: found
    with `next(x for x in xs if key(x) == k)`, replaced or appended, and
    sorted with `sort(key=...)`. */
module Keyed {
  import opened Wrappers
  import opened Text

  /** A sort key: the day's timestamp, or a text column. */
  datatype Key = IntKey(n: int) | TextKey(s: string)

  /** Python's `<` on two keys of the same kind; an int key sorts before a
      text key (the organizer never mixes them in one list). */
  predicate KeyLess(a: Key, b: Key)
  {
    if a.IntKey? && b.IntKey? then a.n < b.n
    else if a.TextKey? && b.TextKey? then StrLess(a.s, b.s)
    else a.IntKey?
  }

  lemma KeyLessIrreflexive(a: Key)
    ensures !KeyLess(a, a)
  {
    if a.TextKey? { StrLessIrreflexive(a.s); }
  }

  lemma KeyLessTransitive(a: Key, b: Key, c: Key)
    requires KeyLess(a, b) && KeyLess(b, c)
    ensures KeyLess(a, c)
  {
    if a.TextKey? && b.TextKey? && c.TextKey? { StrLessTransitive(a.s, b.s, c.s); }
  }

  lemma KeyLessTotal(a: Key, b: Key)
    ensures a == b || KeyLess(a, b) || KeyLess(b, a)
  {
    if a.TextKey? && b.TextKey? { StrLessTotal(a.s, b.s); }
  }

  predicate DistinctKeys<T>(xs: seq<T>, key: T -> Key)
  {
    forall i, j :: 0 <= i < j < |xs| ==> key(xs[i]) != key(xs[j])
  }

  predicate StrictlySorted<T>(xs: seq<T>, key: T -> Key)
  {
    forall i, j :: 0 <= i < j < |xs| ==> KeyLess(key(xs[i]), key(xs[j]))
  }

  lemma SortedKeysAreDistinct<T>(xs: seq<T>, key: T -> Key)
    requires StrictlySorted(xs, key)
    ensures DistinctKeys(xs, key)
  {
    forall i, j | 0 <= i < j < |xs|
      ensures key(xs[i]) != key(xs[j])
    {
      if key(xs[i]) == key(xs[j]) { KeyLessIrreflexive(key(xs[i])); }
    }
  }

  /** `next((x for x in xs if key(x) == k), None)`: the first match. */
  function Named<T>(xs: seq<T>, key: T -> Key, k: Key): (r: Option<T>)
    ensures r.Some? ==> r.value in xs && key(r.value) == k
    ensures r.None? <==> forall x :: x in xs ==> key(x) != k
    decreases |xs|
  {
    if |xs| == 0 then None
    else if key(xs[0]) == k then Some(xs[0])
    else
      var r := Named(xs[1..], key, k);
      assert forall x :: x in xs ==> x == xs[0] || x in xs[1..];
      r
  }

  /** With distinct keys, the search finds the one element with that key. */
  lemma {:induction false} NamedFindsEach<T>(xs: seq<T>, key: T -> Key, x: T)
    requires DistinctKeys(xs, key) && x in xs
    ensures Named(xs, key, key(x)) == Some(x)
    decreases |xs|
  {
    if xs[0] != x {
      assert x in xs[1..];
      var j :| 0 <= j < |xs[1..]| && xs[1..][j] == x;
      assert key(xs[0]) != key(xs[j + 1]);
      NamedFindsEach(xs[1..], key, x);
    }
  }

  /** Replaces the first element with `x`'s key by `x`, or appends `x` when
      there is none: the list after its found (or newly appended) element
      was updated in place. */
  function Put<T>(xs: seq<T>, key: T -> Key, x: T): (r: seq<T>)
    ensures |r| >= 1 && x in r
    ensures forall y :: y in r ==> y == x || y in xs
    decreases |xs|
  {
    if |xs| == 0 then [x]
    else if key(xs[0]) == key(x) then [x] + xs[1..]
    else [xs[0]] + Put(xs[1..], key, x)
  }

  /** After a put, the search finds `x` under its key and what it found
      before under every other key. */
  lemma {:induction false} PutNamed<T>(xs: seq<T>, key: T -> Key, x: T, k: Key)
    ensures Named(Put(xs, key, x), key, k) == if k == key(x) then Some(x) else Named(xs, key, k)
    decreases |xs|
  {
    if |xs| > 0 && key(xs[0]) != key(x) {
      PutNamed(xs[1..], key, x, k);
      var r := Put(xs, key, x);
      assert r[1..] == Put(xs[1..], key, x);
    }
  }

  /** Putting keeps the keys distinct. */
  lemma {:induction false} PutKeepsDistinct<T>(xs: seq<T>, key: T -> Key, x: T)
    requires DistinctKeys(xs, key)
    ensures DistinctKeys(Put(xs, key, x), key)
    decreases |xs|
  {
    if |xs| > 0 && key(xs[0]) != key(x) {
      PutKeepsDistinct(xs[1..], key, x);
      var r := Put(xs, key, x);
      var tail := Put(xs[1..], key, x);
      assert r == [xs[0]] + tail;
      forall j | 0 < j < |r|
        ensures key(r[0]) != key(r[j])
      {
        assert r[j] in tail;
        if r[j] != x {
          assert r[j] in xs[1..];
          var m :| 0 <= m < |xs[1..]| && xs[1..][m] == r[j];
          assert key(xs[0]) != key(xs[m + 1]);
        }
      }
    }
  }

  /** `f` applied to every element; used with functions that keep keys. */
  function MapSeq<T>(xs: seq<T>, f: T -> T): (r: seq<T>)
    ensures |r| == |xs| && forall i :: 0 <= i < |xs| ==> r[i] == f(xs[i])
  {
    seq(|xs|, i requires 0 <= i < |xs| => f(xs[i]))
  }

  /** Mapping a key-keeping function commutes with the search and keeps
      distinct and sorted keys. */
  lemma {:induction false} MapSeqKeepsKeys<T>(xs: seq<T>, key: T -> Key, f: T -> T, k: Key)
    requires forall x :: key(f(x)) == key(x)
    ensures Named(MapSeq(xs, f), key, k) == if Named(xs, key, k).Some? then Some(f(Named(xs, key, k).value)) else None
    ensures DistinctKeys(xs, key) ==> DistinctKeys(MapSeq(xs, f), key)
    ensures StrictlySorted(xs, key) ==> StrictlySorted(MapSeq(xs, f), key)
    decreases |xs|
  {
    if |xs| > 0 {
      MapSeqKeepsKeys(xs[1..], key, f, k);
      assert MapSeq(xs, f)[1..] == MapSeq(xs[1..], f);
    }
  }

  /** Puts `x` before the first element whose key is not smaller. */
  function InsertByKey<T>(x: T, xs: seq<T>, key: T -> Key): (r: seq<T>)
    ensures multiset(r) == multiset(xs) + multiset{x}
    decreases |xs|
  {
    if |xs| == 0 then [x]
    else if !KeyLess(key(xs[0]), key(x)) then [x] + xs
    else
      assert xs == [xs[0]] + xs[1..];
      [xs[0]] + InsertByKey(x, xs[1..], key)
  }

  /** `sorted(xs, key=key)`, as an insertion sort. */
  function SortByKey<T>(xs: seq<T>, key: T -> Key): (r: seq<T>)
    ensures multiset(r) == multiset(xs) && |r| == |xs|
    decreases |xs|
  {
    if |xs| == 0 then []
    else
      assert xs == [xs[0]] + xs[1..];
      InsertByKey(xs[0], SortByKey(xs[1..], key), key)
  }

  lemma {:induction false} InsertByKeySorted<T>(x: T, xs: seq<T>, key: T -> Key)
    requires StrictlySorted(xs, key)
    requires forall y :: y in xs ==> key(y) != key(x)
    ensures StrictlySorted(InsertByKey(x, xs, key), key)
    decreases |xs|
  {
    if |xs| > 0 {
      if !KeyLess(key(xs[0]), key(x)) {
        KeyLessTotal(key(xs[0]), key(x));
        forall j | 0 <= j < |xs|
          ensures KeyLess(key(x), key(xs[j]))
        {
          if j > 0 { KeyLessTransitive(key(x), key(xs[0]), key(xs[j])); }
        }
      } else {
        InsertByKeySorted(x, xs[1..], key);
        var tail := InsertByKey(x, xs[1..], key);
        forall j | 0 <= j < |tail|
          ensures KeyLess(key(xs[0]), key(tail[j]))
        {
          assert tail[j] in multiset(tail);
          assert tail[j] in multiset(xs[1..]) + multiset{x};
          if tail[j] != x {
            assert tail[j] in xs[1..];
            var m :| 0 <= m < |xs[1..]| && xs[1..][m] == tail[j];
            assert xs[m + 1] == tail[j];
          }
        }
      }
    }
  }

  /** Sorting a list with distinct keys gives them strictly ascending, and
      finds the same element for every key. */
  lemma {:induction false} SortByKeyCorrect<T>(xs: seq<T>, key: T -> Key)
    requires DistinctKeys(xs, key)
    ensures StrictlySorted(SortByKey(xs, key), key)
    ensures forall k :: Named(SortByKey(xs, key), key, k) == Named(xs, key, k)
    decreases |xs|
  {
    var r := SortByKey(xs, key);
    if |xs| > 0 {
      assert DistinctKeys(xs[1..], key) by {
        forall i, j | 0 <= i < j < |xs[1..]|
          ensures key(xs[1..][i]) != key(xs[1..][j])
        {
          assert xs[1..][i] == xs[i + 1] && xs[1..][j] == xs[j + 1];
        }
      }
      SortByKeyCorrect(xs[1..], key);
      var rest := SortByKey(xs[1..], key);
      forall y | y in rest
        ensures key(y) != key(xs[0])
      {
        assert y in multiset(rest);
        assert y in xs[1..];
        var m :| 0 <= m < |xs[1..]| && xs[1..][m] == y;
        assert xs[m + 1] == y;
      }
      InsertByKeySorted(xs[0], rest, key);
    }
    SortedKeysAreDistinct(r, key);
    forall k
      ensures Named(r, key, k) == Named(xs, key, k)
    {
      SameElementsSameNamed(xs, r, key, k);
    }
  }

  lemma SameElementsSameNamed<T>(xs: seq<T>, ys: seq<T>, key: T -> Key, k: Key)
    requires DistinctKeys(xs, key) && DistinctKeys(ys, key)
    requires multiset(xs) == multiset(ys)
    ensures Named(xs, key, k) == Named(ys, key, k)
  {
    assert forall y :: y in xs <==> y in multiset(xs);
    assert forall y :: y in ys <==> y in multiset(ys);
    var a := Named(xs, key, k);
    if a.Some? {
      NamedFindsEach(ys, key, a.value);
    }
  }
}
