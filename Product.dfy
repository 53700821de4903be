/** Cartesian products in nested-loop order: the outer list varies slowest,
    as in `for x in xs: for y in ys: ...`. */
module Product {
  /** The pairs `(x, y)` for one `x`, in the order of `ys`. */
  function Row<A, B>(x: A, ys: seq<B>): (r: seq<(A, B)>)
    ensures |r| == |ys|
    ensures forall j :: 0 <= j < |ys| ==> r[j] == (x, ys[j])
  {
    seq(|ys|, j requires 0 <= j < |ys| => (x, ys[j]))
  }

  function Cross<A, B>(xs: seq<A>, ys: seq<B>): seq<(A, B)>
  {
    if xs == [] then [] else Row(xs[0], ys) + Cross(xs[1..], ys)
  }

  /** The product has one pair per combination. */
  lemma {:induction false} CrossLength<A, B>(xs: seq<A>, ys: seq<B>)
    ensures |Cross(xs, ys)| == |xs| * |ys|
  {
    if xs != [] {
      CrossLength(xs[1..], ys);
      assert |xs| * |ys| == |ys| + (|xs| - 1) * |ys|;
    }
  }

  lemma MulSucc(a: nat, n: nat)
    ensures (a + 1) * n == a * n + n
  {
  }

  /** The pair at position `i * |ys| + j` combines `xs[i]` with `ys[j]`. */
  lemma {:induction false} CrossAt<A, B>(xs: seq<A>, ys: seq<B>, i: nat, j: nat)
    requires i < |xs| && j < |ys|
    ensures i * |ys| + j < |Cross(xs, ys)|
    ensures Cross(xs, ys)[i * |ys| + j] == (xs[i], ys[j])
  {
    var n := |ys|;
    CrossLength(xs, ys);
    CrossLength(xs[1..], ys);
    MulSucc(|xs| - 1, n);
    if i == 0 {
      assert i * n == 0;
    } else {
      CrossAt(xs[1..], ys, i - 1, j);
      MulSucc(i - 1, n);
      var rest := Cross(xs[1..], ys);
      assert Cross(xs, ys) == Row(xs[0], ys) + rest;
      assert Cross(xs, ys)[n + ((i - 1) * n + j)] == rest[(i - 1) * n + j];
    }
  }

  /** A pair is in the product exactly when each half is in its list. */
  lemma {:induction false} CrossMember<A, B>(xs: seq<A>, ys: seq<B>, p: (A, B))
    ensures p in Cross(xs, ys) <==> p.0 in xs && p.1 in ys
  {
    if xs != [] {
      CrossMember(xs[1..], ys, p);
      assert p in Row(xs[0], ys) <==> p.0 == xs[0] && p.1 in ys by {
        if p.0 == xs[0] && p.1 in ys {
          var j :| 0 <= j < |ys| && ys[j] == p.1;
          assert Row(xs[0], ys)[j] == p;
        }
      }
      assert p.0 in xs <==> p.0 == xs[0] || p.0 in xs[1..] by {
        assert xs == [xs[0]] + xs[1..];
      }
    }
  }

  /** Extending the outer list by one value appends that value's row. */
  lemma {:induction false} CrossSnoc<A, B>(xs: seq<A>, x: A, ys: seq<B>)
    ensures Cross(xs + [x], ys) == Cross(xs, ys) + Row(x, ys)
  {
    if xs == [] {
      assert Cross([x], ys) == Row(x, ys) + Cross([], ys);
    } else {
      assert (xs + [x])[1..] == xs[1..] + [x];
      CrossSnoc(xs[1..], x, ys);
    }
  }

  /** Two nested loops appending `(x, y)` for every `x` in `xs` and `y` in
      `ys` build the product. */
  method CrossLoop<A, B>(xs: seq<A>, ys: seq<B>) returns (r: seq<(A, B)>)
    ensures r == Cross(xs, ys)
  {
    r := [];
    for i := 0 to |xs|
      invariant r == Cross(xs[..i], ys)
    {
      for j := 0 to |ys|
        invariant r == Cross(xs[..i], ys) + Row(xs[i], ys)[..j]
      {
        assert Row(xs[i], ys)[..j + 1] == Row(xs[i], ys)[..j] + [(xs[i], ys[j])];
        r := r + [(xs[i], ys[j])];
      }
      assert xs[..i + 1] == xs[..i] + [xs[i]];
      CrossSnoc(xs[..i], xs[i], ys);
    }
    assert xs[..|xs|] == xs;
  }
}
