/** Sorting as the scripts use it. `Array.prototype.sort()` without a comparator
    orders strings by UTF-16 code units; the comparator `localeCompare` is modelled
    by the same code-unit order. The built-in sort is stable, and so is `SortBy`. */
module Ordering {

  /** Code-unit lexicographic order: a prefix comes first. */
  predicate LexLe(a: string, b: string)
    decreases |a|
  {
    |a| == 0 || (|b| > 0 && (a[0] < b[0] || (a[0] == b[0] && LexLe(a[1..], b[1..]))))
  }

  lemma {:induction false} LexLeRefl(a: string)
    ensures LexLe(a, a)
  {
    if |a| > 0 { LexLeRefl(a[1..]); }
  }

  lemma {:induction false} LexLeTotal(a: string, b: string)
    ensures LexLe(a, b) || LexLe(b, a)
  {
    if |a| > 0 && |b| > 0 && a[0] == b[0] { LexLeTotal(a[1..], b[1..]); }
  }

  lemma {:induction false} LexLeTrans(a: string, b: string, c: string)
    requires LexLe(a, b) && LexLe(b, c)
    ensures LexLe(a, c)
  {
    if |a| > 0 && |b| > 0 && |c| > 0 && a[0] == b[0] == c[0] {
      LexLeTrans(a[1..], b[1..], c[1..]);
    }
  }

  lemma {:induction false} LexLeAntisym(a: string, b: string)
    requires LexLe(a, b) && LexLe(b, a)
    ensures a == b
  {
    if |a| > 0 && |b| > 0 {
      LexLeAntisym(a[1..], b[1..]);
      assert a == [a[0]] + a[1..] && b == [b[0]] + b[1..];
    }
  }

  predicate SortedBy<T(==)>(xs: seq<T>, key: T -> string) {
    forall i, j :: 0 <= i < j < |xs| ==> LexLe(key(xs[i]), key(xs[j]))
  }

  /** A sorted list stays sorted with an element in front that is not above its head. */
  lemma PrependSorted<T>(x: T, ys: seq<T>, key: T -> string)
    requires SortedBy(ys, key)
    requires ys != [] ==> LexLe(key(x), key(ys[0]))
    ensures SortedBy([x] + ys, key)
  {
    var r := [x] + ys;
    forall i, j | 0 <= i < j < |r| ensures LexLe(key(r[i]), key(r[j])) {
      if i == 0 && j > 1 { LexLeTrans(key(x), key(ys[0]), key(ys[j - 1])); }
    }
  }

  /** Insert `x` before the first element whose key is not below it. */
  function InsertBy<T(==)>(x: T, ys: seq<T>, key: T -> string): (r: seq<T>)
    requires SortedBy(ys, key)
    ensures multiset(r) == multiset(ys) + multiset{x}
    ensures SortedBy(r, key)
  {
    if ys == [] then [x]
    else if LexLe(key(x), key(ys[0])) then
      PrependSorted(x, ys, key);
      [x] + ys
    else
      var rest := InsertBy(x, ys[1..], key);
      assert ys == [ys[0]] + ys[1..];
      HeadBelowInsert(x, ys, rest, key);
      PrependSorted(ys[0], rest, key);
      [ys[0]] + rest
  }

  /** The head of a sorted list is not above the first element of the rest with `x`
      inserted, when `x` itself is above it. */
  lemma HeadBelowInsert<T>(x: T, ys: seq<T>, rest: seq<T>, key: T -> string)
    requires ys != [] && SortedBy(ys, key) && !LexLe(key(x), key(ys[0]))
    requires multiset(rest) == multiset(ys[1..]) + multiset{x}
    ensures rest != [] ==> LexLe(key(ys[0]), key(rest[0]))
  {
    if rest != [] {
      assert rest[0] in multiset(rest);
      if rest[0] == x {
        LexLeTotal(key(x), key(ys[0]));
      } else {
        assert rest[0] in multiset(ys[1..]);
        var k :| 0 <= k < |ys[1..]| && ys[1..][k] == rest[0];
        assert ys[k + 1] == rest[0];
      }
    }
  }

  /** The effect of a stable sort by `key`: every element is inserted into the sorted
      rest, ahead of those with an equal key. */
  function SortBy<T(==)>(xs: seq<T>, key: T -> string): (r: seq<T>)
    ensures multiset(r) == multiset(xs)
    ensures |r| == |xs|
    ensures SortedBy(r, key)
  {
    if xs == [] then []
    else
      assert xs == [xs[0]] + xs[1..];
      InsertBy(xs[0], SortBy(xs[1..], key), key)
  }

  /** The elements whose key is `k`, in their order. A sort is stable when it keeps
      this subsequence for every key. */
  function WithKey<T>(xs: seq<T>, key: T -> string, k: string): seq<T> {
    if xs == [] then [] else (if key(xs[0]) == k then [xs[0]] else []) + WithKey(xs[1..], key, k)
  }

  lemma WithKeyCons<T>(x: T, ys: seq<T>, key: T -> string, k: string)
    ensures WithKey([x] + ys, key, k) == (if key(x) == k then [x] else []) + WithKey(ys, key, k)
  {
    assert ([x] + ys)[1..] == ys;
  }

  /** Inserting puts `x` ahead of every element with its key, and moves no other
      element past one with the same key. */
  lemma {:induction false} InsertWithKey<T>(x: T, ys: seq<T>, key: T -> string, k: string)
    requires SortedBy(ys, key)
    ensures WithKey(InsertBy(x, ys, key), key, k)
      == (if key(x) == k then [x] else []) + WithKey(ys, key, k)
  {
    if ys == [] {
      WithKeyCons(x, ys, key, k);
    } else if LexLe(key(x), key(ys[0])) {
      WithKeyCons(x, ys, key, k);
    } else {
      LexLeRefl(key(x));
      var rest := InsertBy(x, ys[1..], key);
      assert InsertBy(x, ys, key) == [ys[0]] + rest;
      InsertWithKey(x, ys[1..], key, k);
      SkipHead(ys[0], rest, ys[1..], x, key, k);
      assert [ys[0]] + ys[1..] == ys;
    }
  }

  /** An element with another key than `x` in front of both sides keeps them equal
      on `k`. */
  lemma SkipHead<T>(h: T, rest: seq<T>, tail: seq<T>, x: T, key: T -> string, k: string)
    requires key(h) != key(x)
    requires WithKey(rest, key, k) == (if key(x) == k then [x] else []) + WithKey(tail, key, k)
    ensures WithKey([h] + rest, key, k) == (if key(x) == k then [x] else []) + WithKey([h] + tail, key, k)
  {
    WithKeyCons(h, rest, key, k);
    WithKeyCons(h, tail, key, k);
  }

  /** `SortBy` is stable: the elements with any one key keep their input order. */
  lemma {:induction false} SortByStable<T>(xs: seq<T>, key: T -> string, k: string)
    ensures WithKey(SortBy(xs, key), key, k) == WithKey(xs, key, k)
  {
    if xs != [] {
      SortByStable(xs[1..], key, k);
      InsertWithKey(xs[0], SortBy(xs[1..], key), key, k);
    }
  }

  predicate Distinct<T(==)>(xs: seq<T>) {
    forall i, j :: 0 <= i < j < |xs| ==> xs[i] != xs[j]
  }

  /** The first occurrence of each value, in order: what spreading a `Set` gives. */
  function Dedup<T(==)>(xs: seq<T>): (r: seq<T>)
    ensures Distinct(r)
    ensures forall i :: 0 <= i < |xs| ==> xs[i] in r
    ensures forall j :: 0 <= j < |r| ==> r[j] in xs
  {
    if xs == [] then []
    else
      var d := Dedup(xs[..|xs| - 1]);
      assert xs == xs[..|xs| - 1] + [xs[|xs| - 1]];
      if xs[|xs| - 1] in d then d else d + [xs[|xs| - 1]]
  }

  lemma {:induction false} DistinctMultiplicity<T>(xs: seq<T>, v: T)
    requires Distinct(xs)
    ensures multiset(xs)[v] <= 1
  {
    if xs != [] {
      var t := xs[1..];
      assert xs == [xs[0]] + t;
      DistinctMultiplicity(t, v);
      if v == xs[0] {
        assert v !in t;
        assert multiset(t)[v] == 0;
      }
    }
  }

  lemma {:induction false} MultiplicityDistinct<T>(xs: seq<T>)
    requires forall v :: multiset(xs)[v] <= 1
    ensures Distinct(xs)
  {
    forall i, j | 0 <= i < j < |xs| ensures xs[i] != xs[j] {
      if xs[i] == xs[j] { TwoCopies(xs, i, j); }
    }
  }

  lemma TwoCopies<T>(xs: seq<T>, i: nat, j: nat)
    requires i < j < |xs| && xs[i] == xs[j]
    ensures multiset(xs)[xs[i]] >= 2
  {
    var v := xs[i];
    assert xs == xs[..i] + [xs[i]] + xs[i + 1..j] + [xs[j]] + xs[j + 1..];
    assert multiset(xs) == multiset(xs[..i]) + multiset{v} + multiset(xs[i + 1..j]) + multiset{v} + multiset(xs[j + 1..]);
  }

  /** A permutation has the same members. */
  lemma SameMembers<T>(xs: seq<T>, ys: seq<T>)
    requires multiset(xs) == multiset(ys)
    ensures forall x :: x in xs <==> x in ys
  {
    forall x ensures x in xs <==> x in ys {
      assert x in multiset(xs) <==> x in multiset(ys);
    }
  }

  /** A permutation of a list without duplicates has none either. */
  lemma DistinctPermutation<T>(xs: seq<T>, ys: seq<T>)
    requires multiset(xs) == multiset(ys)
    requires Distinct(xs)
    ensures Distinct(ys)
  {
    forall v ensures multiset(ys)[v] <= 1 { DistinctMultiplicity(xs, v); }
    MultiplicityDistinct(ys);
  }

  /** Sorted without duplicates is strictly increasing. */
  lemma SortedDistinctStrict(xs: seq<string>)
    requires SortedBy(xs, s => s) && Distinct(xs)
    ensures forall i, j :: 0 <= i < j < |xs| ==> LexLe(xs[i], xs[j]) && !LexLe(xs[j], xs[i])
  {
    forall i, j | 0 <= i < j < |xs| ensures !LexLe(xs[j], xs[i]) {
      if LexLe(xs[j], xs[i]) { LexLeAntisym(xs[i], xs[j]); }
    }
  }
}
