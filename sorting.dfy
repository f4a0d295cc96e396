/** Python's `sorted`: a stable sort by an integer key (used for
    `sorted(..., key=lambda ...)`) and the natural sort of strings. Both are
    insertion sorts, specified by order and by permutation. */
module Sorting {
  import opened Strings

  predicate SortedBy<T>(s: seq<T>, key: T -> int) {
    forall i, j :: 0 <= i < j < |s| ==> key(s[i]) <= key(s[j])
  }

  /** The elements of `s` whose key is `k`, in their order in `s`. */
  function WithKey<T>(s: seq<T>, key: T -> int, k: int): seq<T> {
    if s == [] then [] else (if key(s[0]) == k then [s[0]] else []) + WithKey(s[1..], key, k)
  }

  /** Inserts `x` in front of every element whose key is not smaller. */
  function InsertBy<T>(x: T, s: seq<T>, key: T -> int): (r: seq<T>)
    ensures multiset(r) == multiset(s) + multiset{x}
    ensures |r| == |s| + 1
  {
    if s == [] || key(x) <= key(s[0]) then [x] + s
    else
      assert s == [s[0]] + s[1..];
      [s[0]] + InsertBy(x, s[1..], key)
  }

  lemma {:induction false} InsertBySorted<T>(x: T, s: seq<T>, key: T -> int)
    requires SortedBy(s, key)
    ensures SortedBy(InsertBy(x, s, key), key)
  {
    if s != [] && key(x) > key(s[0]) {
      InsertBySorted(x, s[1..], key);
      var r := InsertBy(x, s[1..], key);
      forall y | y in r ensures key(s[0]) <= key(y) {
        assert y in multiset(r);
      }
    }
  }

  /** `sorted(s, key=key)`. */
  function SortBy<T>(s: seq<T>, key: T -> int): (r: seq<T>)
    ensures multiset(r) == multiset(s)
    ensures |r| == |s|
  {
    if s == [] then []
    else
      assert s == [s[0]] + s[1..];
      InsertBy(s[0], SortBy(s[1..], key), key)
  }

  lemma {:induction false} SortBySorted<T>(s: seq<T>, key: T -> int)
    ensures SortedBy(SortBy(s, key), key)
  {
    if s != [] {
      SortBySorted(s[1..], key);
      InsertBySorted(s[0], SortBy(s[1..], key), key);
    }
  }

  /** Sorting neither adds nor loses an element. */
  lemma SortByMembers<T>(s: seq<T>, key: T -> int)
    ensures forall x :: x in SortBy(s, key) <==> x in s
  {
    var r := SortBy(s, key);
    assert forall x :: x in r <==> x in multiset(r);
    assert forall x :: x in s <==> x in multiset(s);
  }

  lemma {:induction false} WithKeyConcat<T>(a: seq<T>, b: seq<T>, key: T -> int, k: int)
    ensures WithKey(a + b, key, k) == WithKey(a, key, k) + WithKey(b, key, k)
  {
    if a != [] {
      assert (a + b)[1..] == a[1..] + b;
      assert (a + b)[0] == a[0];
      WithKeyConcat(a[1..], b, key, k);
    } else {
      assert a + b == b;
    }
  }

  lemma {:induction false} InsertByWithKey<T>(x: T, s: seq<T>, key: T -> int, k: int)
    ensures WithKey(InsertBy(x, s, key), key, k)
         == (if key(x) == k then [x] else []) + WithKey(s, key, k)
  {
    if s == [] || key(x) <= key(s[0]) {
      assert ([x] + s)[1..] == s;
    } else {
      var r := InsertBy(x, s[1..], key);
      InsertByWithKey(x, s[1..], key, k);
      var head := if key(s[0]) == k then [s[0]] else [];
      assert WithKey([s[0]] + r, key, k) == head + WithKey(r, key, k) by {
        assert ([s[0]] + r)[1..] == r;
      }
      assert WithKey(s, key, k) == head + WithKey(s[1..], key, k);
      assert key(x) == k ==> head == [];
    }
  }

  /** The sort is stable: elements with equal keys keep their relative order. */
  lemma {:induction false} SortByStable<T>(s: seq<T>, key: T -> int, k: int)
    ensures WithKey(SortBy(s, key), key, k) == WithKey(s, key, k)
  {
    if s != [] {
      SortByStable(s[1..], key, k);
      InsertByWithKey(s[0], SortBy(s[1..], key), key, k);
    }
  }

  predicate SortedStr(s: seq<string>) {
    forall i, j :: 0 <= i < j < |s| ==> StrLeq(s[i], s[j])
  }

  function InsertStr(x: string, s: seq<string>): (r: seq<string>)
    ensures multiset(r) == multiset(s) + multiset{x}
    ensures |r| == |s| + 1
  {
    if s == [] || StrLeq(x, s[0]) then [x] + s
    else
      assert s == [s[0]] + s[1..];
      [s[0]] + InsertStr(x, s[1..])
  }

  lemma {:induction false} InsertStrSorted(x: string, s: seq<string>)
    requires SortedStr(s)
    ensures SortedStr(InsertStr(x, s))
  {
    if s == [] {
    } else if StrLeq(x, s[0]) {
      forall j | 0 <= j < |s| ensures StrLeq(x, s[j]) {
        if j > 0 { StrLeqTransitive(x, s[0], s[j]); }
      }
    } else {
      StrLeqTotal(x, s[0]);
      InsertStrSorted(x, s[1..]);
      var r := InsertStr(x, s[1..]);
      forall y | y in r ensures StrLeq(s[0], y) {
        assert y in multiset(r);
      }
    }
  }

  /** `sorted(s)` for a list of strings. */
  function SortStrings(s: seq<string>): (r: seq<string>)
    ensures multiset(r) == multiset(s)
    ensures |r| == |s|
  {
    if s == [] then []
    else
      assert s == [s[0]] + s[1..];
      InsertStr(s[0], SortStrings(s[1..]))
  }

  lemma {:induction false} SortStringsSorted(s: seq<string>)
    ensures SortedStr(SortStrings(s))
  {
    if s != [] {
      SortStringsSorted(s[1..]);
      InsertStrSorted(s[0], SortStrings(s[1..]));
    }
  }

  /** How many elements of `s` satisfy `p`. */
  function CountWhere(s: seq<string>, p: string -> bool): nat {
    if s == [] then 0 else (if p(s[0]) then 1 else 0) + CountWhere(s[1..], p)
  }

  lemma {:induction false} CountWhereInsert(x: string, s: seq<string>, p: string -> bool)
    ensures CountWhere(InsertStr(x, s), p) == (if p(x) then 1 else 0) + CountWhere(s, p)
  {
    if s != [] && !StrLeq(x, s[0]) {
      CountWhereInsert(x, s[1..], p);
      assert ([s[0]] + InsertStr(x, s[1..]))[1..] == InsertStr(x, s[1..]);
    } else {
      assert ([x] + s)[1..] == s;
    }
  }

  /** Sorting does not change how many elements satisfy a test. */
  lemma {:induction false} CountWhereSorted(s: seq<string>, p: string -> bool)
    ensures CountWhere(SortStrings(s), p) == CountWhere(s, p)
  {
    if s != [] {
      CountWhereSorted(s[1..], p);
      CountWhereInsert(s[0], SortStrings(s[1..]), p);
    }
  }

  lemma {:induction false} CountWhereSnoc(s: seq<string>, x: string, p: string -> bool)
    ensures CountWhere(s + [x], p) == CountWhere(s, p) + (if p(x) then 1 else 0)
  {
    if s != [] {
      assert (s + [x])[1..] == s[1..] + [x];
      CountWhereSnoc(s[1..], x, p);
    } else {
      assert ([x])[1..] == [];
    }
  }

  /** `a` is `b` with some elements left out. */
  predicate IsSubseq<T(==)>(a: seq<T>, b: seq<T>)
    decreases |b|
  {
    a == [] || (b != [] && if a[0] == b[0] then IsSubseq(a[1..], b[1..]) else IsSubseq(a, b[1..]))
  }

  /** Putting the same element in front of both keeps a subsequence. */
  lemma SubseqBothCons<T>(a: seq<T>, b: seq<T>, x: T)
    requires IsSubseq(a, b)
    ensures IsSubseq([x] + a, [x] + b)
  {
    assert ([x] + a)[1..] == a;
    assert ([x] + b)[1..] == b;
  }

  /** Putting an element in front of the longer sequence keeps a subsequence. */
  lemma {:induction false} SubseqCons<T>(a: seq<T>, b: seq<T>, x: T)
    requires IsSubseq(a, b)
    ensures IsSubseq(a, [x] + b)
    decreases |b|, 1
  {
    assert ([x] + b)[1..] == b;
    if a != [] && a[0] == x {
      assert b != [];
      if a[0] == b[0] {
        SubseqCons(a[1..], b[1..], b[0]);
        assert [b[0]] + b[1..] == b;
      } else {
        SubseqDrop(a, b);
      }
    }
  }

  /** Dropping the head of a subsequence keeps a subsequence. */
  lemma {:induction false} SubseqDrop<T>(a: seq<T>, b: seq<T>)
    requires a != [] && IsSubseq(a, b)
    ensures IsSubseq(a[1..], b)
    decreases |b|, 0
  {
    if a[0] != b[0] {
      SubseqDrop(a, b[1..]);
      SubseqCons(a[1..], b[1..], b[0]);
      assert [b[0]] + b[1..] == b;
    } else if a[1..] != [] {
      SubseqCons(a[1..], b[1..], b[0]);
      assert [b[0]] + b[1..] == b;
    }
  }

  /** A subsequence of a subsequence is a subsequence. */
  lemma {:induction false} SubseqTransitive<T>(a: seq<T>, b: seq<T>, c: seq<T>)
    requires IsSubseq(a, b) && IsSubseq(b, c)
    ensures IsSubseq(a, c)
    decreases |c|
  {
    if a != [] {
      if b[0] == c[0] {
        if a[0] == b[0] {
          SubseqTransitive(a[1..], b[1..], c[1..]);
        } else {
          SubseqTransitive(a, b[1..], c[1..]);
        }
      } else {
        SubseqTransitive(a, b, c[1..]);
        if a[0] == c[0] {
          SubseqDrop(a, c[1..]);
        }
      }
    }
  }

  /** The non-empty strings of a list, in their order, each as often as it
      occurs there: a filter that removes no duplicates. */
  function NonEmpty(xs: seq<string>): (r: seq<string>)
    ensures forall x :: x in r ==> x != []
    ensures forall x :: multiset(r)[x] == if x == [] then 0 else multiset(xs)[x]
  {
    if xs == [] then []
    else
      var rest := NonEmpty(xs[1..]);
      assert xs == [xs[0]] + xs[1..];
      if xs[0] == [] then rest else [xs[0]] + rest
  }

  lemma {:induction false} NonEmptyInOrder(xs: seq<string>)
    ensures IsSubseq(NonEmpty(xs), xs)
  {
    if xs != [] {
      NonEmptyInOrder(xs[1..]);
      assert [xs[0]] + xs[1..] == xs;
      if xs[0] == [] {
        SubseqCons(NonEmpty(xs[1..]), xs[1..], xs[0]);
      } else {
        SubseqBothCons(NonEmpty(xs[1..]), xs[1..], xs[0]);
      }
    }
  }

  predicate IsLeast(m: int, ks: set<int>) {
    m in ks && forall j :: j in ks ==> m <= j
  }

  /** A non-empty finite set of integers has a least element. */
  lemma {:induction false} MinExists(ks: set<int>)
    requires ks != {}
    ensures exists m :: IsLeast(m, ks)
    decreases |ks|
  {
    if forall y :: y !in ks { assert false; }
    var x :| x in ks;
    if ks != {x} {
      MinExists(ks - {x});
      var m :| IsLeast(m, ks - {x});
      if x < m {
        forall j | j in ks ensures x <= j {
          if j != x { assert j in ks - {x}; }
        }
        assert IsLeast(x, ks);
      } else {
        forall j | j in ks ensures m <= j {
          if j != x { assert j in ks - {x}; }
        }
        assert IsLeast(m, ks);
      }
    } else {
      assert IsLeast(x, ks);
    }
  }

  /** The keys of a set of integers in ascending order. */
  function SortedKeys(ks: set<int>): (r: seq<int>)
    ensures forall k :: k in r <==> k in ks
    ensures forall i, j :: 0 <= i < j < |r| ==> r[i] < r[j]
    decreases |ks|
  {
    if ks == {} then []
    else
      MinExists(ks);
      var m :| IsLeast(m, ks);
      var rest := SortedKeys(ks - {m});
      assert forall j :: 0 <= j < |rest| ==> m < rest[j] by {
        forall j | 0 <= j < |rest| ensures m < rest[j] {
          assert rest[j] in rest;
        }
      }
      [m] + rest
  }

  predicate LeastStr(m: string, ss: set<string>) {
    m in ss && forall y :: y in ss ==> StrLeq(m, y)
  }

  /** Adding an element to a set with a least element keeps one. */
  lemma LeastOfAdded(x: string, m: string, rest: set<string>)
    requires LeastStr(m, rest)
    ensures LeastStr(x, rest + {x}) || LeastStr(m, rest + {x})
  {
    StrLeqTotal(x, m);
    if StrLeq(x, m) {
      forall y | y in rest + {x} ensures StrLeq(x, y) {
        if y == x {
          StrLeqReflexive(x);
        } else {
          StrLeqTransitive(x, m, y);
        }
      }
    }
  }

  /** A non-empty set of strings has a least element in lexicographic order. */
  lemma {:induction false} MinStrExists(ss: set<string>)
    requires ss != {}
    ensures exists m :: LeastStr(m, ss)
    decreases |ss|
  {
    if forall y :: y !in ss { assert false; }
    var x :| x in ss;
    if ss == {x} {
      StrLeqReflexive(x);
      assert LeastStr(x, ss);
    } else {
      MinStrExists(ss - {x});
      var m :| LeastStr(m, ss - {x});
      LeastOfAdded(x, m, ss - {x});
      assert ss - {x} + {x} == ss;
    }
  }

  /** `sorted(list(s))` for a set of strings: its elements, each once, in
      ascending order. */
  function SortedSet(ss: set<string>): (r: seq<string>)
    ensures forall x :: x in r <==> x in ss
    ensures |r| == |ss|
    ensures forall i, j :: 0 <= i < j < |r| ==> StrLeq(r[i], r[j]) && r[i] != r[j]
    decreases |ss|
  {
    if ss == {} then []
    else
      MinStrExists(ss);
      forall a, b | LeastStr(a, ss) && LeastStr(b, ss)
        ensures a == b
      {
        StrLeqAntisymmetric(a, b);
      }
      var m :| LeastStr(m, ss);
      [m] + SortedSet(ss - {m})
  }

  /** The sum of a weight over a sequence. */
  function SumBy<T>(s: seq<T>, w: T -> nat): nat {
    if s == [] then 0 else w(s[0]) + SumBy(s[1..], w)
  }

  lemma {:induction false} SumByAppend<T>(s: seq<T>, x: T, w: T -> nat)
    ensures SumBy(s + [x], w) == SumBy(s, w) + w(x)
  {
    if s != [] {
      assert (s + [x])[1..] == s[1..] + [x];
      SumByAppend(s[1..], x, w);
    } else {
      assert ([x])[1..] == [];
    }
  }

  lemma {:induction false} InsertBySum<T>(x: T, s: seq<T>, key: T -> int, w: T -> nat)
    ensures SumBy(InsertBy(x, s, key), w) == w(x) + SumBy(s, w)
  {
    if s != [] && key(x) > key(s[0]) {
      InsertBySum(x, s[1..], key, w);
      assert ([s[0]] + InsertBy(x, s[1..], key))[1..] == InsertBy(x, s[1..], key);
    } else {
      assert ([x] + s)[1..] == s;
    }
  }

  /** Sorting does not change a sum. */
  lemma {:induction false} SortBySum<T>(s: seq<T>, key: T -> int, w: T -> nat)
    ensures SumBy(SortBy(s, key), w) == SumBy(s, w)
  {
    if s != [] {
      SortBySum(s[1..], key, w);
      InsertBySum(s[0], SortBy(s[1..], key), key, w);
    }
  }
}
