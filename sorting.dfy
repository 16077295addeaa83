/**
 * Python's `list.sort(key=...)` and `sorted(..., key=..., reverse=...)` on integer keys: a stable
 * sort, written as insertion sort. `reverse=True` keeps equal keys in input order, so it is the
 * same sort on the negated key.
 */
module Sorting {

  predicate SortedBy<T>(s: seq<T>, key: T -> int) {
    forall i, j :: 0 <= i < j < |s| ==> key(s[i]) <= key(s[j])
  }

  /** The elements of `s` whose key is `k`, in order. */
  function WithKey<T>(s: seq<T>, key: T -> int, k: int): (r: seq<T>)
    ensures |r| <= |s|
  {
    if s == [] then [] else (if key(s[0]) == k then [s[0]] else []) + WithKey(s[1..], key, k)
  }

  lemma {:induction false} WithKeyAppend<T>(a: seq<T>, b: seq<T>, key: T -> int, k: int)
    ensures WithKey(a + b, key, k) == WithKey(a, key, k) + WithKey(b, key, k)
    decreases |a|
  {
    if a == [] {
      assert a + b == b;
    } else {
      assert (a + b)[0] == a[0] && (a + b)[1..] == a[1..] + b;
      WithKeyAppend(a[1..], b, key, k);
      var h := if key(a[0]) == k then [a[0]] else [];
      assert WithKey(a + b, key, k) == h + WithKey(a[1..] + b, key, k);
      assert WithKey(a, key, k) == h + WithKey(a[1..], key, k);
    }
  }

  /** Places `x` after every element whose key is not greater than its own. */
  function Insert<T>(x: T, s: seq<T>, key: T -> int): (r: seq<T>)
    ensures |r| == |s| + 1
    ensures multiset(r) == multiset(s) + multiset{x}
  {
    if s == [] then [x]
    else if key(x) < key(s[0]) then [x] + s
    else
      assert s == [s[0]] + s[1..];
      [s[0]] + Insert(x, s[1..], key)
  }

  /** A lower bound of `x` and of every element of `s` bounds every element of the insertion. */
  lemma {:induction false} InsertBounded<T>(x: T, s: seq<T>, key: T -> int, lo: int)
    requires lo <= key(x) && forall i :: 0 <= i < |s| ==> lo <= key(s[i])
    ensures forall i :: 0 <= i < |Insert(x, s, key)| ==> lo <= key(Insert(x, s, key)[i])
    decreases |s|
  {
    if s != [] && key(x) >= key(s[0]) {
      InsertBounded(x, s[1..], key, lo);
    }
  }

  lemma {:induction false} InsertSorted<T>(x: T, s: seq<T>, key: T -> int)
    requires SortedBy(s, key)
    ensures SortedBy(Insert(x, s, key), key)
    decreases |s|
  {
    if s != [] && key(x) >= key(s[0]) {
      InsertSorted(x, s[1..], key);
      InsertBounded(x, s[1..], key, key(s[0]));
    }
  }

  /** Inserting into a sorted sequence puts `x` after every element with its key. */
  lemma {:induction false} InsertWithKey<T>(x: T, s: seq<T>, key: T -> int, k: int)
    requires SortedBy(s, key)
    ensures WithKey(Insert(x, s, key), key, k) == WithKey(s, key, k) + WithKey([x], key, k)
    decreases |s|
  {
    if s == [] {
    } else if key(x) < key(s[0]) {
      InsertFront(x, s, key, k);
    } else {
      InsertWithKey(x, s[1..], key, k);
      InsertLater(x, s, key, k);
    }
  }

  /** `x` goes first: no element of `s` has a key as small as its own. */
  lemma InsertFront<T>(x: T, s: seq<T>, key: T -> int, k: int)
    requires SortedBy(s, key) && s != [] && key(x) < key(s[0])
    ensures WithKey(Insert(x, s, key), key, k) == WithKey(s, key, k) + WithKey([x], key, k)
  {
    assert Insert(x, s, key) == [x] + s;
    WithKeyAppend([x], s, key, k);
    if key(x) == k {
      NoneWithSmallerKey(s, key, k);
    }
  }

  /** `x` goes after the first element: the claim for the rest carries over. */
  lemma InsertLater<T>(x: T, s: seq<T>, key: T -> int, k: int)
    requires s != [] && key(x) >= key(s[0])
    requires WithKey(Insert(x, s[1..], key), key, k) == WithKey(s[1..], key, k) + WithKey([x], key, k)
    ensures WithKey(Insert(x, s, key), key, k) == WithKey(s, key, k) + WithKey([x], key, k)
  {
    var r := Insert(x, s[1..], key);
    var a, b, c := WithKey([s[0]], key, k), WithKey(s[1..], key, k), WithKey([x], key, k);
    InsertLaterShape(x, s, key);
    WithKeyAppend([s[0]], r, key, k);
    WithKeyAppend([s[0]], s[1..], key, k);
    AppendAssoc(a, b, c);
  }

  lemma InsertLaterShape<T>(x: T, s: seq<T>, key: T -> int)
    requires s != [] && key(x) >= key(s[0])
    ensures Insert(x, s, key) == [s[0]] + Insert(x, s[1..], key) && s == [s[0]] + s[1..]
  {
  }

  lemma AppendAssoc<T>(a: seq<T>, b: seq<T>, c: seq<T>)
    ensures a + (b + c) == (a + b) + c
  {
  }

  lemma NoneWithSmallerKey<T>(s: seq<T>, key: T -> int, k: int)
    requires SortedBy(s, key)
    requires s != [] && k < key(s[0])
    ensures WithKey(s, key, k) == []
    decreases |s|
  {
    if |s| > 1 {
      NoneWithSmallerKey(s[1..], key, k);
    }
  }

  /** The stable sort: each element is inserted after the earlier ones with an equal key. */
  function SortBy<T>(s: seq<T>, key: T -> int): (r: seq<T>)
    ensures |r| == |s|
    ensures multiset(r) == multiset(s)
    decreases |s|
  {
    if s == [] then []
    else
      assert s == s[..|s| - 1] + [s[|s| - 1]];
      Insert(s[|s| - 1], SortBy(s[..|s| - 1], key), key)
  }

  /** The result is ordered by key, is a permutation of the input, and keeps the input order among
    * elements with the same key. */
  lemma {:induction false} SortByCorrect<T>(s: seq<T>, key: T -> int)
    ensures SortedBy(SortBy(s, key), key)
    ensures forall k :: WithKey(SortBy(s, key), key, k) == WithKey(s, key, k)
    decreases |s|
  {
    if s != [] {
      var p := s[..|s| - 1];
      var x := s[|s| - 1];
      SortByCorrect(p, key);
      InsertSorted(x, SortBy(p, key), key);
      forall k ensures WithKey(SortBy(s, key), key, k) == WithKey(s, key, k) {
        SortByStep(s, key, k);
      }
    }
  }

  /** The last element is inserted after the earlier ones with its key. */
  lemma SortByStep<T>(s: seq<T>, key: T -> int, k: int)
    requires s != []
    requires SortedBy(SortBy(s[..|s| - 1], key), key)
    requires WithKey(SortBy(s[..|s| - 1], key), key, k) == WithKey(s[..|s| - 1], key, k)
    ensures WithKey(SortBy(s, key), key, k) == WithKey(s, key, k)
  {
    var p, x := s[..|s| - 1], s[|s| - 1];
    InsertWithKey(x, SortBy(p, key), key, k);
    assert s == p + [x];
    WithKeyAppend(p, [x], key, k);
  }

  // ---------------------------------------------------------------------------
  // Sorting tagged elements

  /** The first components of a sequence of pairs. */
  function Firsts<T, U>(s: seq<(T, U)>): (r: seq<T>)
    ensures |r| == |s| && forall i :: 0 <= i < |s| ==> r[i] == s[i].0
  {
    seq(|s|, i requires 0 <= i < |s| => s[i].0)
  }

  /** Every pair's key is the key of its first component. */
  ghost predicate KeyedByFirst<T, U>(s: seq<(T, U)>, pkey: ((T, U)) -> int, key: T -> int) {
    forall p :: p in s ==> pkey(p) == key(p.0)
  }

  lemma {:induction false} InsertFirsts<T, U>(x: (T, U), s: seq<(T, U)>, pkey: ((T, U)) -> int, key: T -> int)
    requires pkey(x) == key(x.0) && KeyedByFirst(s, pkey, key)
    ensures Firsts(Insert(x, s, pkey)) == Insert(x.0, Firsts(s), key)
    decreases |s|
  {
    if s == [] {
    } else if pkey(x) < pkey(s[0]) {
      KeyedByFirstTail(s, pkey, key);
      FirstsCons(x, s);
    } else {
      KeyedByFirstTail(s, pkey, key);
      InsertFirsts(x, s[1..], pkey, key);
      assert s == [s[0]] + s[1..];
      FirstsCons(s[0], s[1..]);
      var f := Firsts(s);
      assert f == [s[0].0] + Firsts(s[1..]);
      assert f[1..] == Firsts(s[1..]);
      assert Insert(x.0, f, key) == [f[0]] + Insert(x.0, f[1..], key);
      FirstsCons(s[0], Insert(x, s[1..], pkey));
    }
  }

  lemma FirstsCons<T, U>(p: (T, U), s: seq<(T, U)>)
    ensures Firsts([p] + s) == [p.0] + Firsts(s)
  {
  }

  lemma KeyedByFirstTail<T, U>(s: seq<(T, U)>, pkey: ((T, U)) -> int, key: T -> int)
    requires s != [] && KeyedByFirst(s, pkey, key)
    ensures pkey(s[0]) == key(s[0].0) && KeyedByFirst(s[1..], pkey, key)
  {
    assert s[0] in s;
    forall p | p in s[1..] ensures p in s { }
  }

  /** Sorting pairs tagged with their key and dropping the tags is sorting by that key: the
    * tagged sort is the same stable sort. */
  lemma {:induction false} SortByFirsts<T, U>(s: seq<(T, U)>, pkey: ((T, U)) -> int, key: T -> int)
    requires KeyedByFirst(s, pkey, key)
    ensures Firsts(SortBy(s, pkey)) == SortBy(Firsts(s), key)
    decreases |s|
  {
    if s != [] {
      var p, x := s[..|s| - 1], s[|s| - 1];
      assert KeyedByFirst(p, pkey, key) by {
        forall q | q in p ensures q in s { }
      }
      assert x in s;
      SortByFirsts(p, pkey, key);
      KeyedBySorted(p, pkey, key);
      InsertFirsts(x, SortBy(p, pkey), pkey, key);
      assert Firsts(s)[..|s| - 1] == Firsts(p);
    }
  }

  lemma KeyedBySorted<T, U>(s: seq<(T, U)>, pkey: ((T, U)) -> int, key: T -> int)
    requires KeyedByFirst(s, pkey, key)
    ensures KeyedByFirst(SortBy(s, pkey), pkey, key)
  {
    forall q | q in SortBy(s, pkey) ensures q in s {
      assert q in multiset(SortBy(s, pkey));
    }
  }

  /** The key in the opposite direction: `reverse=True`. */
  function Negated<T>(key: T -> int): T -> int {
    x => -key(x)
  }

  /** The second component of a pair. */
  function Second<T>(): ((T, int)) -> int {
    (p: (T, int)) => p.1
  }

  /** Each element paired with its key. */
  function Tag<T>(s: seq<T>, key: T -> int): (r: seq<(T, int)>)
    ensures |r| == |s| && forall i :: 0 <= i < |s| ==> r[i] == (s[i], key(s[i]))
  {
    seq(|s|, i requires 0 <= i < |s| => (s[i], key(s[i])))
  }

  lemma TagSnoc<T>(s: seq<T>, key: T -> int, i: nat)
    requires i < |s|
    ensures Tag(s[..i + 1], key) == Tag(s[..i], key) + [(s[i], key(s[i]))]
  {
  }

  /** Sorting the tagged elements by descending tag and dropping the tags is sorting by
    * descending key. */
  lemma TaggedSort<T>(s: seq<T>, key: T -> int)
    ensures Firsts(SortBy(Tag(s, key), Negated(Second()))) == SortBy(s, Negated(key))
  {
    var t := Tag(s, key);
    assert Firsts(t) == s;
    forall p | p in t ensures Negated(Second())(p) == Negated(key)(p.0) {
      var k :| 0 <= k < |t| && t[k] == p;
    }
    SortByFirsts(t, Negated(Second()), Negated(key));
  }
}
