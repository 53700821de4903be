/** Python's `sorted`/`list.sort`: a stable sort under a total preorder, and
    `max(xs, key=...)`, which returns the first element of greatest key. */
module Sorting {

  ghost predicate TotalPreorder<T(!new)>(leq: (T, T) -> bool)
  {
    && (forall a, b :: leq(a, b) || leq(b, a))
    && (forall a, b, c :: leq(a, b) && leq(b, c) ==> leq(a, c))
  }

  ghost predicate SortedBy<T>(s: seq<T>, leq: (T, T) -> bool)
  {
    forall i, j :: 0 <= i < j < |s| ==> leq(s[i], s[j])
  }

  /** Puts `x` ahead of the first element it may precede. The sort below feeds
      elements from the back, so `x` lands before the later elements it ties
      with: the order of equals is kept. */
  function Insert<T>(x: T, s: seq<T>, leq: (T, T) -> bool): (r: seq<T>)
    ensures |r| == |s| + 1
    ensures multiset(r) == multiset(s) + multiset{x}
  {
    if s == [] then [x]
    else if leq(x, s[0]) then [x] + s
    else
      assert s == [s[0]] + s[1..];
      [s[0]] + Insert(x, s[1..], leq)
  }

  function SortBy<T>(s: seq<T>, leq: (T, T) -> bool): (r: seq<T>)
    ensures |r| == |s|
    ensures multiset(r) == multiset(s)
  {
    if s == [] then []
    else
      assert s == [s[0]] + s[1..];
      Insert(s[0], SortBy(s[1..], leq), leq)
  }

  lemma {:induction false} InsertSorted<T(!new)>(x: T, s: seq<T>, leq: (T, T) -> bool)
    requires TotalPreorder(leq)
    requires SortedBy(s, leq)
    ensures SortedBy(Insert(x, s, leq), leq)
  {
    if s != [] && !leq(x, s[0]) {
      var t := Insert(x, s[1..], leq);
      InsertSorted(x, s[1..], leq);
      forall e | e in t ensures leq(s[0], e) {
        assert e in multiset(t);
        if e != x {
          assert e in multiset(s[1..]);
          assert e in s[1..];
        }
      }
      var r := [s[0]] + t;
      forall i, j | 0 <= i < j < |r| ensures leq(r[i], r[j]) {
        if i > 0 {
          assert r[i] == t[i - 1] && r[j] == t[j - 1];
        } else {
          assert r[j] in t;
        }
      }
    }
  }

  lemma {:induction false} SortBySorted<T(!new)>(s: seq<T>, leq: (T, T) -> bool)
    requires TotalPreorder(leq)
    ensures SortedBy(SortBy(s, leq), leq)
  {
    if s != [] {
      SortBySorted(s[1..], leq);
      InsertSorted(s[0], SortBy(s[1..], leq), leq);
    }
  }

  /** Descending order of a real key, ties kept in input order:
      `sorted(s, key=key, reverse=True)`. */
  function SortDesc<T>(s: seq<T>, key: T -> real): (r: seq<T>)
    ensures |r| == |s|
    ensures multiset(r) == multiset(s)
  {
    SortBy(s, (a: T, b: T) => key(a) >= key(b))
  }

  lemma SortDescSorted<T(!new)>(s: seq<T>, key: T -> real)
    ensures forall i, j :: 0 <= i < j < |s| ==> key(SortDesc(s, key)[i]) >= key(SortDesc(s, key)[j])
  {
    var leq := (a: T, b: T) => key(a) >= key(b);
    assert TotalPreorder(leq);
    SortBySorted(s, leq);
  }

  /** Position of the first element of greatest key: what `max(s, key=key)`
      returns, and the head of a stable descending sort. */
  function FirstMaxIndex<T>(s: seq<T>, key: T -> real): (k: nat)
    requires s != []
    ensures k < |s|
    ensures forall j :: 0 <= j < |s| ==> key(s[j]) <= key(s[k])
    ensures forall j :: 0 <= j < k ==> key(s[j]) < key(s[k])
  {
    if |s| == 1 then 0
    else
      var k' := FirstMaxIndex(s[1..], key);
      if key(s[0]) >= key(s[1 + k']) then 0 else 1 + k'
  }

  lemma {:induction false} SortDescHead<T(!new)>(s: seq<T>, key: T -> real)
    requires s != []
    ensures SortDesc(s, key)[0] == s[FirstMaxIndex(s, key)]
  {
    var leq := (a: T, b: T) => key(a) >= key(b);
    if |s| > 1 {
      var t := SortBy(s[1..], leq);
      SortDescHead(s[1..], key);
      SortDescSorted(s[1..], key);
      assert t[0] == s[1..][FirstMaxIndex(s[1..], key)];
      assert SortBy(s, leq) == Insert(s[0], t, leq);
    }
  }

  /** The first maximum is the only position holding a greatest key with
      nothing as great before it. */
  lemma FirstMaxUnique<T>(s: seq<T>, key: T -> real, k: nat)
    requires k < |s|
    requires forall j :: 0 <= j < |s| ==> key(s[j]) <= key(s[k])
    requires forall j :: 0 <= j < k ==> key(s[j]) < key(s[k])
    ensures k == FirstMaxIndex(s, key)
  {
    var m := FirstMaxIndex(s, key);
    assert key(s[m]) <= key(s[k]) && key(s[k]) <= key(s[m]);
  }

  /** The first maximum of a list grown by one element: the new element wins
      only when it is strictly greater. This is what a scan keeping the best so
      far, replaced on `>`, computes. */
  lemma {:induction false} FirstMaxIndexSnoc<T>(s: seq<T>, y: T, key: T -> real)
    requires s != []
    ensures FirstMaxIndex(s + [y], key) ==
      if key(y) > key(s[FirstMaxIndex(s, key)]) then |s| else FirstMaxIndex(s, key)
  {
    var m := FirstMaxIndex(s, key);
    var t := s + [y];
    assert forall j :: 0 <= j < |s| ==> t[j] == s[j];
    assert t[|s|] == y;
    if key(y) > key(s[m]) {
      assert forall j :: 0 <= j < |s| ==> key(t[j]) < key(y);
      FirstMaxUnique(t, key, |s|);
    } else {
      assert forall j :: 0 <= j < |t| ==> key(t[j]) <= key(t[m]);
      FirstMaxUnique(t, key, m);
    }
  }

  /** `f` takes distinct values along `s`. */
  ghost predicate Injective<T, U>(s: seq<T>, f: T -> U)
  {
    forall i, j :: 0 <= i < j < |s| ==> f(s[i]) != f(s[j])
  }

  lemma {:induction false} InsertInjective<T, U>(x: T, s: seq<T>, leq: (T, T) -> bool, f: T -> U)
    requires Injective(s, f)
    requires forall k :: 0 <= k < |s| ==> f(s[k]) != f(x)
    ensures Injective(Insert(x, s, leq), f)
  {
    if s != [] && !leq(x, s[0]) {
      var t := Insert(x, s[1..], leq);
      InsertInjective(x, s[1..], leq, f);
      forall e | e in t ensures f(e) != f(s[0]) {
        assert e in multiset(t);
        if e != x {
          assert e in multiset(s[1..]);
          var j :| 0 <= j < |s[1..]| && s[1..][j] == e;
          assert s[j + 1] == e;
        }
      }
      var r := [s[0]] + t;
      assert forall i :: 1 <= i < |r| ==> r[i] == t[i - 1] && r[i] in t;
    } else if s != [] {
      assert forall i :: 1 <= i < |s| + 1 == |[x] + s| ==> ([x] + s)[i] == s[i - 1];
    }
  }

  /** Sorting a list on which `f` is injective keeps `f` injective (the keys of
      an ordered dictionary stay distinct when its items are sorted). */
  lemma {:induction false} SortByInjective<T, U>(s: seq<T>, leq: (T, T) -> bool, f: T -> U)
    requires Injective(s, f)
    ensures Injective(SortBy(s, leq), f)
  {
    if s != [] {
      var t := SortBy(s[1..], leq);
      SortByInjective(s[1..], leq, f);
      forall k | 0 <= k < |t| ensures f(t[k]) != f(s[0]) {
        assert t[k] in multiset(s[1..]);
        var j :| 0 <= j < |s[1..]| && s[1..][j] == t[k];
        assert s[j + 1] == t[k];
      }
      InsertInjective(s[0], t, leq, f);
    }
  }

  lemma SortDescInjective<T, U>(s: seq<T>, key: T -> real, f: T -> U)
    requires Injective(s, f)
    ensures Injective(SortDesc(s, key), f)
  {
    SortByInjective(s, (a: T, b: T) => key(a) >= key(b), f);
  }

  /** How many elements of `s` have a key strictly above `t`. */
  function Above<T>(s: seq<T>, key: T -> real, t: real): (n: nat)
    ensures n <= |s|
  {
    if s == [] then 0 else (if key(s[0]) > t then 1 else 0) + Above(s[1..], key, t)
  }

  lemma {:induction false} InsertAbove<T>(x: T, s: seq<T>, leq: (T, T) -> bool, key: T -> real, t: real)
    ensures Above(Insert(x, s, leq), key, t) == Above(s, key, t) + (if key(x) > t then 1 else 0)
  {
    if s != [] && !leq(x, s[0]) {
      InsertAbove(x, s[1..], leq, key, t);
      assert Insert(x, s, leq)[1..] == Insert(x, s[1..], leq);
    } else if s != [] {
      assert ([x] + s)[1..] == s;
    }
  }

  /** Sorting neither adds nor loses an element above any threshold. */
  lemma {:induction false} SortByAbove<T>(s: seq<T>, leq: (T, T) -> bool, key: T -> real, t: real)
    ensures Above(SortBy(s, leq), key, t) == Above(s, key, t)
  {
    if s != [] {
      SortByAbove(s[1..], leq, key, t);
      InsertAbove(s[0], SortBy(s[1..], leq), leq, key, t);
    }
  }

  lemma SortDescAbove<T>(s: seq<T>, key: T -> real, t: real)
    ensures Above(SortDesc(s, key), key, t) == Above(s, key, t)
  {
    SortByAbove(s, (a: T, b: T) => key(a) >= key(b), key, t);
  }

  /** The first `n` elements, or all of them when there are fewer (`s[:n]`). */
  function Take<T>(s: seq<T>, n: nat): (r: seq<T>)
    ensures |r| == if n < |s| then n else |s|
    ensures r == s[..|r|]
  {
    if n < |s| then s[..n] else s
  }
}
