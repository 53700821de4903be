/** Shared vocabulary of the conversation game: items, history slots, the
    insertion-ordered dictionaries Python code builds, and small counting helpers. */
module Common {

  type Id = nat
  type Subject = int

  datatype Option<T> = None | Some(value: T)

  /** What a Python call does: raise an exception, or return a value. */
  datatype Outcome<T> = Raises | Returns(value: T)

  /** An optional argument or a missing key replaced by its default. */
  function OrDefault<T>(o: Option<T>, d: T): T
  {
    if o.Some? then o.value else d
  }

  /** An item of a player's memory bank: an opaque id, one or two subject tags,
      an importance weight and the id of the player that owns it. */
  datatype Item = Item(id: Id, subjects: seq<Subject>, importance: real, owner: Id)

  /** One slot of the conversation history: a pause (Python `None`) or an item. */
  datatype Slot = Pause | Said(item: Item)

  type History = seq<Slot>

  /** Number of times `s` is mentioned across the subjects of `items`
      (the count a `Counter` over all their subjects holds for `s`). */
  function Occurrences(items: seq<Item>, s: Subject): (n: nat)
    ensures n == 0 <==> forall k :: 0 <= k < |items| ==> s !in items[k].subjects
  {
    if items == [] then 0
    else
      MultiplicityZero(items[0].subjects, s);
      Multiplicity(items[0].subjects, s) + Occurrences(items[1..], s)
  }

  /** Number of positions of `xs` holding `x`. */
  function Multiplicity<T(==)>(xs: seq<T>, x: T): (n: nat)
    ensures n <= |xs|
  {
    if xs == [] then 0
    else (if xs[0] == x then 1 else 0) + Multiplicity(xs[1..], x)
  }

  /** `x` occurs nowhere exactly when its count is zero. */
  lemma {:induction false} MultiplicityZero<T>(xs: seq<T>, x: T)
    ensures Multiplicity(xs, x) == 0 <==> x !in xs
  {
    if xs != [] {
      MultiplicityZero(xs[1..], x);
      assert xs == [xs[0]] + xs[1..];
    }
  }

  lemma {:induction false} MultiplicityAppend<T>(xs: seq<T>, ys: seq<T>, x: T)
    ensures Multiplicity(xs + ys, x) == Multiplicity(xs, x) + Multiplicity(ys, x)
  {
    if xs != [] {
      assert (xs + ys)[1..] == xs[1..] + ys;
      MultiplicityAppend(xs[1..], ys, x);
    } else {
      assert xs + ys == ys;
    }
  }

  /** Every subject mentioned by some item of `items`. */
  function SubjectsOf(items: seq<Item>): set<Subject>
  {
    set k, s | 0 <= k < |items| && s in items[k].subjects :: s
  }

  /** The items of the slots, pauses dropped, order kept. */
  function ItemsOf(h: History): (r: seq<Item>)
    ensures |r| <= |h|
    ensures forall it :: it in r <==> Said(it) in h
  {
    if h == [] then []
    else (if h[0].Said? then [h[0].item] else []) + ItemsOf(h[1..])
  }

  lemma {:induction false} ItemsOfAppend(h: History, g: History)
    ensures ItemsOf(h + g) == ItemsOf(h) + ItemsOf(g)
  {
    if h != [] {
      assert (h + g)[1..] == h[1..] + g;
      ItemsOfAppend(h[1..], g);
    } else {
      assert h + g == g;
    }
  }

  /** Number of pause slots. */
  function PauseCount(h: History): (n: nat)
    ensures n <= |h|
    ensures n == |h| - |ItemsOf(h)|
  {
    if h == [] then 0
    else (if h[0].Pause? then 1 else 0) + PauseCount(h[1..])
  }

  /** The ids of the items said in `h`. */
  function IdsOf(h: History): (r: set<Id>)
    ensures forall id :: id in r <==> exists k :: 0 <= k < |h| && h[k].Said? && h[k].item.id == id
  {
    set k | 0 <= k < |h| && h[k].Said? :: h[k].item.id
  }

  lemma IdsOfSnoc(h: History, s: Slot)
    ensures IdsOf(h + [s]) == IdsOf(h) + (if s.Said? then {s.item.id} else {})
  {
    var g := h + [s];
    forall id | id in IdsOf(g) ensures id in IdsOf(h) + (if s.Said? then {s.item.id} else {}) {
      var k :| 0 <= k < |g| && g[k].Said? && g[k].item.id == id;
      if k < |h| {
        assert h[k] == g[k];
      }
    }
    forall id | id in IdsOf(h) ensures id in IdsOf(g) {
      var k :| 0 <= k < |h| && h[k].Said? && h[k].item.id == id;
      assert g[k] == h[k];
    }
    if s.Said? {
      assert g[|h|] == s;
    }
  }

  /** Position of the first occurrence of `x` in `xs`, or `|xs|` when absent
      (Python's `list.index`, with absence mapped past the end). */
  function IndexOf<T(==)>(xs: seq<T>, x: T): (k: nat)
    ensures k <= |xs|
    ensures k < |xs| <==> x in xs
    ensures k < |xs| ==> xs[k] == x && x !in xs[..k]
  {
    if xs == [] then 0
    else if xs[0] == x then 0
    else 1 + IndexOf(xs[1..], x)
  }

  /** Preference bonus of one subject: `1 - rank / len(preferences)`, 0 for a
      subject the ranking does not hold. */
  function PrefBonus(prefs: seq<Subject>, s: Subject): (b: real)
    ensures 0.0 <= b <= 1.0
    ensures s in prefs ==> 0.0 < b
    ensures |prefs| > 0 && s == prefs[0] ==> b == 1.0
  {
    if s in prefs then
      var k := IndexOf(prefs, s);
      1.0 - (k as real) / (|prefs| as real)
    else 0.0
  }

  /** The preference bonus of each subject, in order. */
  function Bonuses(prefs: seq<Subject>, ss: seq<Subject>): (r: seq<real>)
    ensures |r| == |ss|
    ensures forall k :: 0 <= k < |ss| ==> r[k] == PrefBonus(prefs, ss[k])
  {
    if ss == [] then [] else [PrefBonus(prefs, ss[0])] + Bonuses(prefs, ss[1..])
  }

  /** Mean preference bonus of an item's subjects, 0 for an item without subjects. */
  function MeanBonus(prefs: seq<Subject>, ss: seq<Subject>): (b: real)
    ensures 0.0 <= b <= 1.0
    ensures ss == [] ==> b == 0.0
  {
    var r := Bonuses(prefs, ss);
    if r == [] then 0.0
    else
      MeanBounds(r, 0.0, 1.0);
      Mean(r)
  }

  /** The subjects of `ss` that the ranking holds, in order. */
  function Known(prefs: seq<Subject>, ss: seq<Subject>): (r: seq<Subject>)
    ensures |r| <= |ss|
    ensures forall s :: s in r <==> s in ss && s in prefs
    ensures (forall k :: 0 <= k < |ss| ==> ss[k] in prefs) ==> r == ss
  {
    if ss == [] then []
    else (if ss[0] in prefs then [ss[0]] else []) + Known(prefs, ss[1..])
  }

  /** Mean preference bonus over the subjects the ranking holds, 0 when it
      holds none of them (the comprehension with an `if s in preferences`
      guard, then `sum / len` behind an emptiness test). */
  function MeanKnownBonus(prefs: seq<Subject>, ss: seq<Subject>): (b: real)
    ensures 0.0 <= b <= 1.0
    ensures (forall k :: 0 <= k < |ss| ==> ss[k] !in prefs) ==> b == 0.0
    ensures (forall k :: 0 <= k < |ss| ==> ss[k] in prefs) ==> b == MeanBonus(prefs, ss)
  {
    var known := Known(prefs, ss);
    assert (forall k :: 0 <= k < |ss| ==> ss[k] !in prefs) ==> known == [] by {
      if known != [] { assert known[0] in known; }
    }
    MeanBonus(prefs, known)
  }

  function Sum(xs: seq<real>): real
  {
    if xs == [] then 0.0 else xs[0] + Sum(xs[1..])
  }

  lemma {:induction false} SumAppend(xs: seq<real>, ys: seq<real>)
    ensures Sum(xs + ys) == Sum(xs) + Sum(ys)
  {
    if xs != [] {
      assert (xs + ys)[1..] == xs[1..] + ys;
      SumAppend(xs[1..], ys);
    } else {
      assert xs + ys == ys;
    }
  }

  /** Arithmetic mean, 0 for an empty list (the guard every caller writes). */
  function Mean(xs: seq<real>): real
  {
    if xs == [] then 0.0 else Sum(xs) / (|xs| as real)
  }

  /** Summing one more element of a prefix. */
  lemma SumPrefix(xs: seq<real>, k: nat)
    requires k < |xs|
    ensures Sum(xs[..k + 1]) == Sum(xs[..k]) + xs[k]
  {
    assert xs[..k + 1] == xs[..k] + [xs[k]];
    SumAppend(xs[..k], [xs[k]]);
    assert Sum([xs[k]]) == xs[k] + Sum([]);
  }

  lemma {:induction false} SumBounds(xs: seq<real>, lo: real, hi: real)
    requires forall k :: 0 <= k < |xs| ==> lo <= xs[k] <= hi
    ensures (|xs| as real) * lo <= Sum(xs) <= (|xs| as real) * hi
  {
    if xs != [] {
      SumBounds(xs[1..], lo, hi);
    }
  }

  lemma MeanBounds(xs: seq<real>, lo: real, hi: real)
    requires xs != []
    requires forall k :: 0 <= k < |xs| ==> lo <= xs[k] <= hi
    ensures lo <= Mean(xs) <= hi
  {
    SumBounds(xs, lo, hi);
    var n := |xs| as real;
    DivideBounds(Sum(xs), n, lo, hi);
  }

  lemma DivideBounds(total: real, n: real, lo: real, hi: real)
    requires n > 0.0
    requires n * lo <= total <= n * hi
    ensures lo <= total / n <= hi
  {
    var q := total / n;
    assert q * n == total;
    assert n * (q - lo) >= 0.0;
    assert n * (hi - q) >= 0.0;
  }

  /** `min(xs)`: the smallest element, the first of them when several tie. */
  function MinOf(xs: seq<real>): (m: real)
    requires xs != []
    ensures m in xs
    ensures forall k :: 0 <= k < |xs| ==> m <= xs[k]
  {
    if |xs| == 1 then xs[0]
    else
      var rest := MinOf(xs[1..]);
      if xs[0] <= rest then xs[0] else rest
  }

  /** `max(xs)`: the largest element. */
  function MaxOf(xs: seq<real>): (m: real)
    requires xs != []
    ensures m in xs
    ensures forall k :: 0 <= k < |xs| ==> xs[k] <= m
  {
    if |xs| == 1 then xs[0]
    else
      var rest := MaxOf(xs[1..]);
      if xs[0] >= rest then xs[0] else rest
  }

  /** Insertion-ordered dictionary, as a Python `dict` keeps it: a list of
      (key, value) pairs with distinct keys. */
  type ODict<K, V> = seq<(K, V)>

  function Keys<K, V>(d: ODict<K, V>): (r: seq<K>)
    ensures |r| == |d|
    ensures forall k :: 0 <= k < |d| ==> r[k] == d[k].0
  {
    if d == [] then [] else [d[0].0] + Keys(d[1..])
  }

  ghost predicate DistinctKeys<K, V>(d: ODict<K, V>)
  {
    forall i, j :: 0 <= i < j < |d| ==> d[i].0 != d[j].0
  }

  predicate HasKey<K(==), V>(d: ODict<K, V>, k: K)
  {
    k in Keys(d)
  }

  /** The value under `k`: that of its first pair. */
  function Get<K(==), V>(d: ODict<K, V>, k: K): (v: V)
    requires HasKey(d, k)
    ensures exists i :: 0 <= i < |d| && d[i] == (k, v)
  {
    if d[0].0 == k then d[0].1 else Get(d[1..], k)
  }

  /** `d[k] = v`: replaces the value in place when `k` is present, appends otherwise. */
  function Put<K(==), V>(d: ODict<K, V>, k: K, v: V): ODict<K, V>
  {
    if d == [] then [(k, v)]
    else if d[0].0 == k then [(k, v)] + d[1..]
    else [d[0]] + Put(d[1..], k, v)
  }

  /** `d[k] = v` keeps every key in its place and every other pair unchanged;
      it grows the dictionary by one pair, at the end, exactly when `k` is new. */
  lemma {:induction false} PutShape<K, V>(d: ODict<K, V>, k: K, v: V)
    ensures HasKey(d, k) ==> |Put(d, k, v)| == |d|
    ensures !HasKey(d, k) ==> Put(d, k, v) == d + [(k, v)]
    ensures forall i :: 0 <= i < |d| ==> Put(d, k, v)[i].0 == d[i].0
    ensures forall i :: 0 <= i < |d| && d[i].0 != k ==> Put(d, k, v)[i] == d[i]
  {
    if d != [] && d[0].0 != k {
      PutShape(d[1..], k, v);
      assert Keys(d) == [d[0].0] + Keys(d[1..]);
    }
  }

  lemma {:induction false} PutThenGet<K, V>(d: ODict<K, V>, k: K, v: V, k': K)
    ensures HasKey(Put(d, k, v), k') <==> HasKey(d, k') || k' == k
    ensures HasKey(Put(d, k, v), k') ==> Get(Put(d, k, v), k') == if k' == k then v else Get(d, k')
  {
    if d != [] && d[0].0 != k {
      PutThenGet(d[1..], k, v, k');
    }
  }

  /** A second `d[k] = w` overwrites the first. */
  lemma {:induction false} PutTwice<K, V>(d: ODict<K, V>, k: K, v: V, w: V)
    ensures Put(Put(d, k, v), k, w) == Put(d, k, w)
  {
    if d != [] && d[0].0 != k {
      PutTwice(d[1..], k, v, w);
    }
  }

  lemma {:induction false} PutKeepsDistinct<K, V>(d: ODict<K, V>, k: K, v: V)
    requires DistinctKeys(d)
    ensures DistinctKeys(Put(d, k, v))
  {
    var r := Put(d, k, v);
    PutShape(d, k, v);
    if !HasKey(d, k) {
      forall i | 0 <= i < |d| ensures d[i].0 != k {
        assert Keys(d)[i] == d[i].0;
      }
    }
  }

  /** `d.get(k, default)`. */
  function GetOr<K(==), V>(d: ODict<K, V>, k: K, default: V): V
  {
    if HasKey(d, k) then Get(d, k) else default
  }

  /** A lookup with a default after `d[k] = v`: `v` under `k`, the old
      answer elsewhere. */
  lemma PutThenGetOr<K, V>(d: ODict<K, V>, k: K, v: V, k': K, default: V)
    ensures GetOr(Put(d, k, v), k', default) == if k' == k then v else GetOr(d, k', default)
  {
    PutThenGet(d, k, v, k');
  }

  /** The counts `counts[x] += 1` over a `defaultdict(int)` builds, key order
      that of first occurrence. */
  function Tally<T(==)>(xs: seq<T>): ODict<T, nat>
  {
    if xs == [] then []
    else
      var d := Tally(xs[..|xs| - 1]);
      Put(d, xs[|xs| - 1], GetOr(d, xs[|xs| - 1], 0) + 1)
  }

  /** The tally holds each element with its multiplicity, and 0 (no entry)
      for an element never seen. */
  lemma {:induction false} TallyCounts<T>(xs: seq<T>, x: T)
    ensures GetOr(Tally(xs), x, 0) == Multiplicity(xs, x)
  {
    if xs != [] {
      var front := xs[..|xs| - 1];
      var y := xs[|xs| - 1];
      var d := Tally(front);
      var v := GetOr(d, y, 0) + 1;
      assert Tally(xs) == Put(d, y, v);
      assert Multiplicity(xs, x) == Multiplicity(front, x) + (if y == x then 1 else 0) by {
        assert xs == front + [y];
        MultiplicityAppend(front, [y], x);
        assert [y][1..] == [];
      }
      TallyCounts(front, x);
      PutThenGet(d, y, v, x);
    }
  }

  lemma TallySnoc<T>(xs: seq<T>, x: T)
    ensures Tally(xs + [x]) == Put(Tally(xs), x, GetOr(Tally(xs), x, 0) + 1)
  {
    var ys := xs + [x];
    var front := ys[..|ys| - 1];
    assert Tally(ys) == Put(Tally(front), ys[|ys| - 1], GetOr(Tally(front), ys[|ys| - 1], 0) + 1);
    assert front == xs;
  }

  lemma {:induction false} TallyKeepsDistinct<T>(xs: seq<T>)
    ensures DistinctKeys(Tally(xs))
  {
    if xs != [] {
      var front := xs[..|xs| - 1];
      TallyKeepsDistinct(front);
      PutKeepsDistinct(Tally(front), xs[|xs| - 1], GetOr(Tally(front), xs[|xs| - 1], 0) + 1);
    }
  }

  /** The list under `k`, or the empty list when `k` is absent. */
  function ListOf<K(==), V>(d: ODict<K, seq<V>>, k: K): seq<V>
  {
    if HasKey(d, k) then Get(d, k) else []
  }

  /** `d.setdefault(k, []).append(v)`. */
  function AppendTo<K(==), V>(d: ODict<K, seq<V>>, k: K, v: V): ODict<K, seq<V>>
  {
    Put(d, k, ListOf(d, k) + [v])
  }

  lemma AppendToListOf<K, V>(d: ODict<K, seq<V>>, k: K, v: V, q: K)
    ensures ListOf(AppendTo(d, k, v), q) == ListOf(d, q) + (if q == k then [v] else [])
    ensures HasKey(AppendTo(d, k, v), q) <==> HasKey(d, q) || q == k
  {
    PutThenGet(d, k, ListOf(d, k) + [v], q);
  }

  /** `del d[k]`: drops the pairs with key `k`, order of the rest kept. */
  function Delete<K(==), V>(d: ODict<K, V>, k: K): (r: ODict<K, V>)
    ensures |r| <= |d|
  {
    if d == [] then []
    else if d[0].0 == k then Delete(d[1..], k)
    else [d[0]] + Delete(d[1..], k)
  }

  lemma {:induction false} DeleteKeys<K, V>(d: ODict<K, V>, k: K, q: K)
    ensures !HasKey(Delete(d, k), k)
    ensures q != k ==> (HasKey(Delete(d, k), q) <==> HasKey(d, q))
    ensures q != k && HasKey(d, q) ==> Get(Delete(d, k), q) == Get(d, q)
  {
    if d != [] {
      DeleteKeys(d[1..], k, q);
      if d[0].0 != k {
        var r := [d[0]] + Delete(d[1..], k);
        assert r[1..] == Delete(d[1..], k);
        assert Keys(r) == [d[0].0] + Keys(r[1..]);
      }
    }
  }

  /** Deleting a key just written is deleting it from the original. */
  lemma {:induction false} DeleteAfterPut<K, V>(d: ODict<K, V>, k: K, v: V)
    ensures Delete(Put(d, k, v), k) == Delete(d, k)
  {
    if d != [] && d[0].0 != k {
      DeleteAfterPut(d[1..], k, v);
      var p := Put(d, k, v);
      assert p == [d[0]] + Put(d[1..], k, v);
      assert p[1..] == Put(d[1..], k, v);
    } else if d != [] {
      var p := Put(d, k, v);
      assert p[1..] == d[1..];
    }
  }

  lemma {:induction false} DeleteKeepsDistinct<K, V>(d: ODict<K, V>, k: K)
    requires DistinctKeys(d)
    ensures DistinctKeys(Delete(d, k))
    ensures forall i :: 0 <= i < |Delete(d, k)| ==> Delete(d, k)[i] in d
  {
    if d != [] {
      DeleteKeepsDistinct(d[1..], k);
      var rest := Delete(d[1..], k);
      assert forall i :: 0 <= i < |rest| ==> rest[i] in d;
      if d[0].0 != k {
        var r := [d[0]] + rest;
        forall i | 0 <= i < |rest| ensures rest[i].0 != d[0].0 {
          var j :| 0 <= j < |d[1..]| && d[1..][j] == rest[i];
          assert d[j + 1] == rest[i];
        }
        assert forall i :: 1 <= i < |r| ==> r[i] == rest[i - 1];
      }
    }
  }

  /** With distinct keys, the value under a key is the one of its unique pair. */
  lemma GetUnique<K, V>(d: ODict<K, V>, i: nat)
    requires DistinctKeys(d) && i < |d|
    ensures HasKey(d, d[i].0) && Get(d, d[i].0) == d[i].1
  {
    assert Keys(d)[i] == d[i].0;
    if i > 0 {
      GetUnique(d[1..], i - 1);
    }
  }

  /** `xs.remove(x)`: drops the first occurrence of `x`. */
  function RemoveFirst<T(==)>(xs: seq<T>, x: T): (r: seq<T>)
    requires x in xs
    ensures |r| == |xs| - 1
  {
    if xs[0] == x then xs[1..]
    else [xs[0]] + RemoveFirst(xs[1..], x)
  }

  /** `remove` takes away exactly one occurrence of `x`. */
  lemma {:induction false} RemoveFirstMultiset<T>(xs: seq<T>, x: T)
    requires x in xs
    ensures multiset(RemoveFirst(xs, x)) == multiset(xs) - multiset{x}
  {
    assert xs == [xs[0]] + xs[1..];
    if xs[0] != x {
      RemoveFirstMultiset(xs[1..], x);
    }
  }

  /** The occurrence `remove` drops is the first one: with `xs[i]` the
      first `x`, the result is `xs` without position `i`. */
  lemma {:induction false} RemoveFirstIsFirst<T>(xs: seq<T>, x: T, i: nat)
    requires i < |xs| && xs[i] == x && x !in xs[..i]
    ensures x in xs && RemoveFirst(xs, x) == xs[..i] + xs[i + 1..]
  {
    if i > 0 {
      assert xs[0] == xs[..i][0];
      var t := xs[1..];
      assert t[..i - 1] == xs[1..i];
      forall j | 0 <= j < i - 1 ensures t[j] != x {
        assert t[j] == xs[..i][j + 1];
      }
      assert x !in t[..i - 1];
      RemoveFirstIsFirst(t, x, i - 1);
      assert RemoveFirst(xs, x) == [xs[0]] + RemoveFirst(t, x);
      assert xs[..i] == [xs[0]] + t[..i - 1];
      assert xs[i + 1..] == t[i..];
    } else {
      assert xs[..0] + xs[1..] == xs[1..];
    }
  }

  lemma HasKeyIndex<K, V>(d: ODict<K, V>, k: K) returns (i: nat)
    requires HasKey(d, k)
    ensures i < |d| && d[i].0 == k
  {
    i :| 0 <= i < |Keys(d)| && Keys(d)[i] == k;
  }

  /** Two dictionaries holding the same pairs, each with distinct keys, agree
      on every key: the order of the pairs does not matter to lookups. */
  lemma SameGetUnderPermutation<K, V>(d: ODict<K, V>, e: ODict<K, V>, k: K)
    requires DistinctKeys(d) && DistinctKeys(e) && multiset(d) == multiset(e)
    ensures HasKey(d, k) <==> HasKey(e, k)
    ensures HasKey(d, k) ==> Get(d, k) == Get(e, k)
  {
    if HasKey(d, k) {
      var i := HasKeyIndex(d, k);
      assert d[i] in multiset(e);
      var j :| 0 <= j < |e| && e[j] == d[i];
      GetUnique(d, i);
      GetUnique(e, j);
    }
    if HasKey(e, k) {
      var j := HasKeyIndex(e, k);
      assert e[j] in multiset(d);
      var i :| 0 <= i < |d| && d[i] == e[j];
      GetUnique(d, i);
    }
  }

  /** The dictionary after `d.setdefault(k, []).append(v)` for each pair, in order. */
  function AppendAll<K(==), V>(d: ODict<K, seq<V>>, kvs: seq<(K, V)>): ODict<K, seq<V>>
  {
    if kvs == [] then d
    else AppendTo(AppendAll(d, kvs[..|kvs| - 1]), kvs[|kvs| - 1].0, kvs[|kvs| - 1].1)
  }

  /** The values paired with `k`, in order. */
  function ValuesFor<K(==), V>(kvs: seq<(K, V)>, k: K): (r: seq<V>)
    ensures |r| <= |kvs|
  {
    if kvs == [] then []
    else ValuesFor(kvs[..|kvs| - 1], k) + (if kvs[|kvs| - 1].0 == k then [kvs[|kvs| - 1].1] else [])
  }

  /** `v` is among the values paired with `k` exactly when the pair is present. */
  lemma {:induction false} ValuesForSpec<K, V>(kvs: seq<(K, V)>, k: K, v: V)
    ensures v in ValuesFor(kvs, k) <==> (k, v) in kvs
  {
    if kvs != [] {
      var front := kvs[..|kvs| - 1];
      ValuesForSpec(front, k, v);
      assert kvs == front + [kvs[|kvs| - 1]];
    }
  }

  /** Appending a list of pairs extends each key's list by exactly its values, in order. */
  lemma {:induction false} AppendAllListOf<K, V>(d: ODict<K, seq<V>>, kvs: seq<(K, V)>, q: K)
    ensures ListOf(AppendAll(d, kvs), q) == ListOf(d, q) + ValuesFor(kvs, q)
    ensures HasKey(AppendAll(d, kvs), q) <==> HasKey(d, q) || ValuesFor(kvs, q) != []
  {
    if kvs != [] {
      var front := kvs[..|kvs| - 1];
      var (k, v) := kvs[|kvs| - 1];
      var tail: seq<V> := if k == q then [v] else [];
      AppendAllListOf(d, front, q);
      AppendToListOf(AppendAll(d, front), k, v, q);
      assert AppendAll(d, kvs) == AppendTo(AppendAll(d, front), k, v);
      assert ValuesFor(kvs, q) == ValuesFor(front, q) + tail;
      assert ListOf(d, q) + ValuesFor(kvs, q) == (ListOf(d, q) + ValuesFor(front, q)) + tail;
    }
  }

  lemma {:induction false} AppendAllKeepsDistinct<K, V>(d: ODict<K, seq<V>>, kvs: seq<(K, V)>)
    requires DistinctKeys(d)
    ensures DistinctKeys(AppendAll(d, kvs))
  {
    if kvs != [] {
      var front := kvs[..|kvs| - 1];
      AppendAllKeepsDistinct(d, front);
      PutKeepsDistinct(AppendAll(d, front), kvs[|kvs| - 1].0, ListOf(AppendAll(d, front), kvs[|kvs| - 1].0) + [kvs[|kvs| - 1].1]);
    }
  }

  lemma AppendAssoc<T>(a: seq<T>, b: seq<T>, c: seq<T>)
    ensures (a + b) + c == a + (b + c)
  {
  }
}
