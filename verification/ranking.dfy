/** The "best ranks" rule every normaliser applies to its contest list:
    `.sort((a, b) => a.rank - b.rank).slice(0, n)`. JavaScript's
    `Array.prototype.sort` is stable, so the sort is modelled as a stable
    insertion sort by an integer key, and stability is stated as "the
    elements with any one key keep their relative order". */
module Ranking {

  /** Non-decreasing by key. */
  predicate SortedBy<T>(s: seq<T>, key: T -> int) {
    forall i, j :: 0 <= i < j < |s| ==> key(s[i]) <= key(s[j])
  }

  /** The elements of `s` whose key is `k`, in their order in `s`. */
  function WithKey<T>(s: seq<T>, key: T -> int, k: int): seq<T> {
    if s == [] then []
    else (if key(s[0]) == k then [s[0]] else []) + WithKey(s[1..], key, k)
  }

  lemma {:induction false} WithKeyConcat<T>(a: seq<T>, b: seq<T>, key: T -> int, k: int)
    ensures WithKey(a + b, key, k) == WithKey(a, key, k) + WithKey(b, key, k)
  {
    if a == [] {
      assert a + b == b;
    } else {
      var h := if key(a[0]) == k then [a[0]] else [];
      assert (a + b)[0] == a[0] && (a + b)[1..] == a[1..] + b;
      assert WithKey(a + b, key, k) == h + WithKey(a[1..] + b, key, k);
      WithKeyConcat(a[1..], b, key, k);
      assert WithKey(a, key, k) == h + WithKey(a[1..], key, k);
    }
  }

  /** Places `x` before the first element whose key is at least its own, so
      that `x` precedes every element with an equal key. */
  function Insert<T>(x: T, s: seq<T>, key: T -> int): (r: seq<T>)
    ensures |r| == |s| + 1
    ensures multiset(r) == multiset(s) + multiset{x}
  {
    if s == [] then [x]
    else if key(x) <= key(s[0]) then [x] + s
    else
      assert s == [s[0]] + s[1..];
      [s[0]] + Insert(x, s[1..], key)
  }

  lemma {:induction false} InsertSorted<T>(x: T, s: seq<T>, key: T -> int)
    requires SortedBy(s, key)
    ensures SortedBy(Insert(x, s, key), key)
    ensures s != [] && key(x) > key(s[0]) ==> Insert(x, s, key)[0] == s[0]
  {
    if s != [] && key(x) > key(s[0]) {
      InsertSorted(x, s[1..], key);
      InsertLowerBound(x, s[1..], key, key(s[0]));
    }
  }

  /** A bound below `x` and every element of `s` bounds the insertion too. */
  lemma {:induction false} InsertLowerBound<T>(x: T, s: seq<T>, key: T -> int, b: int)
    requires b <= key(x) && forall i :: 0 <= i < |s| ==> b <= key(s[i])
    ensures forall i :: 0 <= i < |Insert(x, s, key)| ==> b <= key(Insert(x, s, key)[i])
  {
    if s != [] && key(x) > key(s[0]) {
      InsertLowerBound(x, s[1..], key, b);
      var t := Insert(x, s[1..], key);
      assert forall i :: 1 <= i <= |t| ==> ([s[0]] + t)[i] == t[i - 1];
    } else if s != [] {
      assert forall i :: 1 <= i <= |s| ==> ([x] + s)[i] == s[i - 1];
    }
  }

  lemma {:induction false} InsertWithKey<T>(x: T, s: seq<T>, key: T -> int, k: int)
    ensures WithKey(Insert(x, s, key), key, k) == (if key(x) == k then [x] else []) + WithKey(s, key, k)
  {
    if s == [] {
    } else if key(x) <= key(s[0]) {
      WithKeyCons(x, s, key, k);
    } else {
      InsertWithKey(x, s[1..], key, k);
      InsertPastHead(x, s, key, k);
    }
  }

  /** The step of `InsertWithKey` where `x` goes past the head of `s`. */
  lemma InsertPastHead<T>(x: T, s: seq<T>, key: T -> int, k: int)
    requires s != [] && key(x) > key(s[0])
    requires WithKey(Insert(x, s[1..], key), key, k) == (if key(x) == k then [x] else []) + WithKey(s[1..], key, k)
    ensures WithKey(Insert(x, s, key), key, k) == (if key(x) == k then [x] else []) + WithKey(s, key, k)
  {
    var t := Insert(x, s[1..], key);
    assert Insert(x, s, key) == [s[0]] + t;
    WithKeyCons(s[0], t, key, k);
    var hx := if key(x) == k then [x] else [];
    var h0 := if key(s[0]) == k then [s[0]] else [];
    var r := WithKey(s[1..], key, k);
    if hx == [] {
      assert hx + r == r;
    } else {
      assert h0 == [];
      assert h0 + (hx + r) == hx + r && h0 + r == r;
    }
  }

  lemma WithKeyCons<T>(a: T, t: seq<T>, key: T -> int, k: int)
    ensures WithKey([a] + t, key, k) == (if key(a) == k then [a] else []) + WithKey(t, key, k)
  {
    assert ([a] + t)[0] == a && ([a] + t)[1..] == t;
  }

  /** The stable sort: sorted by key, a permutation of the input, and the
      elements sharing a key appear in input order. */
  function SortByKey<T>(s: seq<T>, key: T -> int): (r: seq<T>)
    ensures |r| == |s|
    ensures SortedBy(r, key)
    ensures multiset(r) == multiset(s)
    ensures forall k :: WithKey(r, key, k) == WithKey(s, key, k)
  {
    if s == [] then []
    else
      var t := SortByKey(s[1..], key);
      InsertSorted(s[0], t, key);
      assert s == [s[0]] + s[1..];
      assert forall k :: WithKey(Insert(s[0], t, key), key, k) == WithKey(s, key, k) by {
        forall k ensures WithKey(Insert(s[0], t, key), key, k) == WithKey(s, key, k) {
          InsertWithKey(s[0], t, key, k);
        }
      }
      Insert(s[0], t, key)
  }

  /** `.filter(keep)`: the kept elements, in order. */
  function Filter<T>(s: seq<T>, keep: T -> bool): (r: seq<T>)
    ensures |r| <= |s|
    ensures forall i :: 0 <= i < |r| ==> keep(r[i])
    ensures forall x :: x in r ==> x in s && keep(x)
    ensures forall x :: x in s && keep(x) ==> x in r
    ensures multiset(r) <= multiset(s)
  {
    if s == [] then []
    else
      assert s == [s[0]] + s[1..];
      (if keep(s[0]) then [s[0]] else []) + Filter(s[1..], keep)
  }

  /** Nothing passes the filter exactly when no element passes. */
  lemma {:induction false} FilterEmptyIff<T>(s: seq<T>, keep: T -> bool)
    ensures Filter(s, keep) == [] <==> forall i :: 0 <= i < |s| ==> !keep(s[i])
  {
    if s != [] {
      FilterEmptyIff(s[1..], keep);
      assert forall i :: 1 <= i < |s| ==> s[i] == s[1..][i - 1];
    }
  }

  lemma {:induction false} FilterConcat<T>(a: seq<T>, b: seq<T>, keep: T -> bool)
    ensures Filter(a + b, keep) == Filter(a, keep) + Filter(b, keep)
  {
    if a == [] {
      assert a + b == b;
    } else {
      assert (a + b)[0] == a[0];
      assert (a + b)[1..] == a[1..] + b;
      FilterConcat(a[1..], b, keep);
    }
  }

  /** `.slice(0, n)`. */
  function Take<T>(s: seq<T>, n: nat): (r: seq<T>)
    ensures |r| == if |s| <= n then |s| else n
    ensures r == s[..|r|]
  {
    if |s| <= n then s else s[..n]
  }

  /** `.sort(by key).slice(0, n)`: at most `n` entries, in key order;
      `TopSpec` states what else the cut keeps. */
  function Top<T>(s: seq<T>, key: T -> int, n: nat): (r: seq<T>)
    ensures |r| == if |s| <= n then |s| else n
    ensures SortedBy(r, key)
  {
    Take(SortByKey(s, key), n)
  }

  /** The entries of `Top` are drawn from `s`; nothing left out has a smaller
      key than anything kept; and for every key the kept entries are the
      first ones of `s` with that key. */
  lemma TopSpec<T>(s: seq<T>, key: T -> int, n: nat)
    ensures multiset(Top(s, key, n)) <= multiset(s)
    ensures forall x, y :: x in multiset(s) - multiset(Top(s, key, n)) && y in Top(s, key, n) ==> key(y) <= key(x)
    ensures forall k :: WithKey(Top(s, key, n), key, k) <= WithKey(s, key, k)
  {
    TakeOfSorted(s, SortByKey(s, key), key, n);
  }

  /** The facts `Top` promises, for a stable sort `sorted` of `s`. */
  lemma TakeOfSorted<T>(s: seq<T>, sorted: seq<T>, key: T -> int, n: nat)
    requires |sorted| == |s| && SortedBy(sorted, key) && multiset(sorted) == multiset(s)
    requires forall k :: WithKey(sorted, key, k) == WithKey(s, key, k)
    ensures var r := Take(sorted, n);
            && SortedBy(r, key)
            && multiset(r) <= multiset(s)
            && (forall x, y :: x in multiset(s) - multiset(r) && y in r ==> key(y) <= key(x))
            && (forall k :: WithKey(r, key, k) <= WithKey(s, key, k))
  {
    var r := Take(sorted, n);
    PrefixOfSorted(sorted, |r|, key);
    forall k ensures WithKey(r, key, k) <= WithKey(s, key, k) {
      assert sorted == r + sorted[|r|..];
      WithKeyConcat(r, sorted[|r|..], key, k);
    }
  }

  /** Cutting a sorted sequence: the prefix is a sub-multiset and no element
      cut off has a smaller key than an element kept. */
  lemma PrefixOfSorted<T>(sorted: seq<T>, m: nat, key: T -> int)
    requires SortedBy(sorted, key) && m <= |sorted|
    ensures multiset(sorted[..m]) <= multiset(sorted)
    ensures forall x, y :: x in multiset(sorted) - multiset(sorted[..m]) && y in sorted[..m] ==> key(y) <= key(x)
  {
    var r, rest := sorted[..m], sorted[m..];
    assert sorted == r + rest;
    assert multiset(sorted) == multiset(r) + multiset(rest);
    forall x, y | x in multiset(sorted) - multiset(r) && y in r
      ensures key(y) <= key(x)
    {
      assert x in multiset(rest);
      var j :| 0 <= j < |rest| && rest[j] == x;
      var i :| 0 <= i < |r| && r[i] == y;
      assert sorted[i] == y && sorted[m + j] == x;
    }
  }
}
