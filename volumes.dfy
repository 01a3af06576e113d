/** Three-dimensional image volumes as nested sequences indexed
    `v[i][j][k]` (numpy's axes 0, 1, 2), with the array operations the
    preprocessing scripts apply to them: totals, the intensity-weighted
    centre of mass of scipy's `ndimage.center_of_mass`, numpy's C-order
    flattening, boolean-mask selection, `amax`, and Python's `round`. */
module Volumes {
  import opened Outcomes
  import Stats

  type Grid<T> = seq<seq<seq<T>>>
  type Vol = Grid<real>
  type Mask = Grid<int>

  datatype Vec3 = Vec3(x: real, y: real, z: real)

  /** `g` is an `nx` by `ny` by `nz` array. */
  predicate Shaped<T>(g: Grid<T>, nx: int, ny: int, nz: int)
  {
    |g| == nx &&
    forall i :: 0 <= i < nx ==> |g[i]| == ny && forall j :: 0 <= j < ny ==> |g[i][j]| == nz
  }

  /** Two arrays of the same shape, as numpy requires of a boolean index. */
  predicate SameShape<A, B>(a: Grid<A>, b: Grid<B>)
  {
    |a| == |b| &&
    forall i :: 0 <= i < |a| ==> |a[i]| == |b[i]| && forall j :: 0 <= j < |a[i]| ==> |a[i][j]| == |b[i][j]|
  }

  /** A grid with one extent per axis, as every numpy array has. */
  predicate Regular<T>(g: Grid<T>)
  {
    |g| == 0 || Shaped(g, |g|, |g[0]|, if |g[0]| == 0 then 0 else |g[0][0]|)
  }

  /** A volume with one extent per axis, as every numpy array has. */
  type Volume = v: Vol | Regular(v) witness []

  /** A mask holding only 0 and 1, as `np.where(..., 1, 0)` builds. */
  predicate Binary(m: Mask)
  {
    forall i, j, k :: 0 <= i < |m| && 0 <= j < |m[i]| && 0 <= k < |m[i][j]| ==> m[i][j][k] == 0 || m[i][j][k] == 1
  }

  /** An array of the same shape as a regular one is regular. */
  lemma RegularLike<A, B>(a: Grid<A>, b: Grid<B>)
    requires Regular(a) && SameShape(b, a)
    ensures Regular(b)
  {
    if |b| > 0 {
      var ny := |a[0]|;
      var nz := if ny == 0 then 0 else |a[0][0]|;
      assert Shaped(a, |a|, ny, nz);
      forall i | 0 <= i < |b| ensures |b[i]| == ny && forall j :: 0 <= j < ny ==> |b[i][j]| == nz {
        assert |b[i]| == |a[i]|;
      }
    }
  }

  lemma SameShapeTrans<A, B, C>(a: Grid<A>, b: Grid<B>, c: Grid<C>)
    requires SameShape(a, b) && SameShape(b, c)
    ensures SameShape(a, c)
  {
  }

  predicate InGrid<T>(g: Grid<T>, i: int, j: int, k: int)
  {
    0 <= i < |g| && 0 <= j < |g[i]| && 0 <= k < |g[i][j]|
  }

  // ---------------------------------------------------------------- totals

  function Sum2(p: seq<seq<real>>): real
  {
    if p == [] then 0.0 else Sum2(p[..|p| - 1]) + Stats.Sum(p[|p| - 1])
  }

  /** The sum of every voxel: Python's `sum(sum(sum(data)))`. */
  function Sum3(v: Vol): real
  {
    if v == [] then 0.0 else Sum3(v[..|v| - 1]) + Sum2(v[|v| - 1])
  }

  /** The voxels, each multiplied by its own index along `axis` (scipy's
      `input * grids[axis]`). */
  function Weighted(v: Vol, axis: int): (w: Vol)
    requires 0 <= axis < 3
    ensures SameShape(w, v)
    ensures forall i, j, k :: InGrid(v, i, j, k) ==> w[i][j][k] == Scaled(v[i][j][k], Coord(axis, i, j, k))
  {
    seq(|v|, i requires 0 <= i < |v| =>
      seq(|v[i]|, j requires 0 <= j < |v[i]| =>
        seq(|v[i][j]|, k requires 0 <= k < |v[i][j]| => Scaled(v[i][j][k], Coord(axis, i, j, k)))))
  }

  /** A voxel value times one of its indices. */
  function Scaled(x: real, n: int): real
  {
    x * n as real
  }

  /** The index of voxel `(i, j, k)` along `axis`. */
  function Coord(axis: int, i: int, j: int, k: int): int
  {
    if axis == 0 then i else if axis == 1 then j else k
  }

  /** scipy's `center_of_mass`: the intensity-weighted mean voxel index
      along each axis. A volume whose voxels sum to zero has no centre
      (scipy divides by zero and returns NaN). */
  function CenterOfMass(v: Vol): Option<Vec3>
  {
    var t := Sum3(v);
    if t == 0.0 then None
    else Some(Vec3(Sum3(Weighted(v, 0)) / t, Sum3(Weighted(v, 1)) / t, Sum3(Weighted(v, 2)) / t))
  }

  /** A row whose only nonzero entry is entry `k` sums to that entry. */
  lemma {:induction false} SumOfOne(s: seq<real>, k: int)
    requires 0 <= k < |s| && forall c :: 0 <= c < |s| && c != k ==> s[c] == 0.0
    ensures Stats.Sum(s) == s[k]
  {
    var n := |s| - 1;
    if k == n {
      Stats.SumOfConstant(s[..n], 0.0);
    } else {
      SumOfOne(s[..n], k);
    }
  }

  lemma {:induction false} Sum2OfZeros(p: seq<seq<real>>)
    requires forall b, c :: 0 <= b < |p| && 0 <= c < |p[b]| ==> p[b][c] == 0.0
    ensures Sum2(p) == 0.0
  {
    if p != [] {
      var n := |p| - 1;
      Sum2OfZeros(p[..n]);
      Stats.SumOfConstant(p[n], 0.0);
    }
  }

  lemma {:induction false} Sum2OfOne(p: seq<seq<real>>, j: int, k: int)
    requires 0 <= j < |p| && 0 <= k < |p[j]|
    requires forall b, c :: 0 <= b < |p| && 0 <= c < |p[b]| && (b != j || c != k) ==> p[b][c] == 0.0
    ensures Sum2(p) == p[j][k]
  {
    var n := |p| - 1;
    if j == n {
      Sum2OfZeros(p[..n]);
      SumOfOne(p[n], k);
    } else {
      Sum2OfOne(p[..n], j, k);
      Stats.SumOfConstant(p[n], 0.0);
    }
  }

  lemma {:induction false} Sum3OfZeros(v: Vol)
    requires forall a, b, c :: InGrid(v, a, b, c) ==> v[a][b][c] == 0.0
    ensures Sum3(v) == 0.0
  {
    if v != [] {
      var n := |v| - 1;
      assert forall a, b, c :: InGrid(v[..n], a, b, c) ==> InGrid(v, a, b, c);
      Sum3OfZeros(v[..n]);
      Sum2OfZeros(v[n]);
    }
  }

  /** A volume whose only nonzero voxel is `(i, j, k)` sums to that voxel. */
  lemma {:induction false} Sum3OfOne(v: Vol, i: int, j: int, k: int)
    requires InGrid(v, i, j, k)
    requires forall a, b, c :: InGrid(v, a, b, c) && (a != i || b != j || c != k) ==> v[a][b][c] == 0.0
    ensures Sum3(v) == v[i][j][k]
  {
    var n := |v| - 1;
    assert forall a, b, c :: InGrid(v[..n], a, b, c) ==> InGrid(v, a, b, c);
    if i == n {
      Sum3OfZeros(v[..n]);
      Sum2OfOne(v[n], j, k);
    } else {
      Sum3OfOne(v[..n], i, j, k);
      Sum2OfZeros(v[n]);
    }
  }

  /** The centre of mass of a volume with a single nonzero voxel is that
      voxel. */
  lemma CenterOfOneVoxel(v: Vol, i: int, j: int, k: int)
    requires InGrid(v, i, j, k) && v[i][j][k] != 0.0
    requires forall a, b, c :: InGrid(v, a, b, c) && (a != i || b != j || c != k) ==> v[a][b][c] == 0.0
    ensures CenterOfMass(v) == Some(Vec3(i as real, j as real, k as real))
  {
    var x := v[i][j][k];
    Sum3OfOne(v, i, j, k);
    WeightedOfOne(v, 0, i, j, k);
    WeightedOfOne(v, 1, i, j, k);
    WeightedOfOne(v, 2, i, j, k);
    assert Coord(0, i, j, k) == i && Coord(1, i, j, k) == j && Coord(2, i, j, k) == k;
    CentreFromSums(v, x, i, j, k);
  }

  /** The centre is `(i, j, k)` when the total is `x` and each weighted sum
      is `x` times that index. */
  lemma CentreFromSums(v: Vol, x: real, i: int, j: int, k: int)
    requires x != 0.0 && Sum3(v) == x
    requires Sum3(Weighted(v, 0)) == Scaled(x, i)
    requires Sum3(Weighted(v, 1)) == Scaled(x, j)
    requires Sum3(Weighted(v, 2)) == Scaled(x, k)
    ensures CenterOfMass(v) == Some(Vec3(i as real, j as real, k as real))
  {
    ScaledRatio(x, i);
    ScaledRatio(x, j);
    ScaledRatio(x, k);
  }

  lemma WeightedOfOne(v: Vol, axis: int, i: int, j: int, k: int)
    requires 0 <= axis < 3 && InGrid(v, i, j, k)
    requires forall a, b, c :: InGrid(v, a, b, c) && (a != i || b != j || c != k) ==> v[a][b][c] == 0.0
    ensures Sum3(Weighted(v, axis)) == Scaled(v[i][j][k], Coord(axis, i, j, k))
  {
    var w := Weighted(v, axis);
    forall a, b, c | InGrid(w, a, b, c) && (a != i || b != j || c != k) ensures w[a][b][c] == 0.0 {
      assert InGrid(v, a, b, c);
    }
    Sum3OfOne(w, i, j, k);
  }

  /** Dividing a scaled voxel value by the value gives back the index. */
  lemma ScaledRatio(x: real, n: int)
    requires x != 0.0
    ensures Scaled(x, n) / x == n as real
  {
  }

  // ---------------------------------------------------- flattening, selection

  function FlattenPlane<T>(p: seq<seq<T>>): seq<T>
  {
    if p == [] then [] else FlattenPlane(p[..|p| - 1]) + p[|p| - 1]
  }

  /** The voxels in C order, as numpy's boolean indexing visits them. */
  function Flatten<T>(g: Grid<T>): seq<T>
  {
    if g == [] then [] else Flatten(g[..|g| - 1]) + FlattenPlane(g[|g| - 1])
  }

  lemma {:induction false} InFlattenPlane<T>(p: seq<seq<T>>, x: T)
    ensures x in FlattenPlane(p) <==> exists j, k :: 0 <= j < |p| && 0 <= k < |p[j]| && p[j][k] == x
  {
    if p != [] {
      var n := |p| - 1;
      InFlattenPlane(p[..n], x);
      if x in FlattenPlane(p) && x !in FlattenPlane(p[..n]) {
        var k :| 0 <= k < |p[n]| && p[n][k] == x;
      }
      if exists j, k :: 0 <= j < |p| && 0 <= k < |p[j]| && p[j][k] == x {
        var j, k :| 0 <= j < |p| && 0 <= k < |p[j]| && p[j][k] == x;
        if j < n {
          assert p[..n][j][k] == x;
        } else {
          assert x in p[n];
        }
      }
    }
  }

  /** A value occurs in the flattened array exactly when some voxel holds it. */
  lemma {:induction false} InFlatten<T>(g: Grid<T>, x: T)
    ensures x in Flatten(g) <==> exists i, j, k :: InGrid(g, i, j, k) && g[i][j][k] == x
  {
    if g != [] {
      var n := |g| - 1;
      var p := g[..n];
      assert Flatten(g) == Flatten(p) + FlattenPlane(g[n]);
      InFlatten(p, x);
      InFlattenPlane(g[n], x);
      if x in Flatten(g) {
        if x in Flatten(p) {
          var i, j, k :| InGrid(p, i, j, k) && p[i][j][k] == x;
          assert p[i] == g[i];
          assert InGrid(g, i, j, k);
        } else {
          var j, k :| 0 <= j < |g[n]| && 0 <= k < |g[n][j]| && g[n][j][k] == x;
          assert InGrid(g, n, j, k);
        }
      }
      if exists i, j, k :: InGrid(g, i, j, k) && g[i][j][k] == x {
        var i, j, k :| InGrid(g, i, j, k) && g[i][j][k] == x;
        if i < n {
          assert p[i] == g[i];
          assert InGrid(p, i, j, k) && p[i][j][k] == x;
        } else {
          assert x in FlattenPlane(g[n]);
        }
      }
    }
  }

  /** Each voxel paired with its tag. */
  function Zip(v: Vol, m: Mask): (z: Grid<(real, int)>)
    requires SameShape(v, m)
    ensures SameShape(z, v)
    ensures forall i, j, k :: InGrid(v, i, j, k) ==> z[i][j][k] == (v[i][j][k], m[i][j][k])
  {
    seq(|v|, i requires 0 <= i < |v| =>
      seq(|v[i]|, j requires 0 <= j < |v[i]| =>
        seq(|v[i][j]|, k requires 0 <= k < |v[i][j]| => (v[i][j][k], m[i][j][k]))))
  }

  function PickLabel(ps: seq<(real, int)>, tag: int): (r: seq<real>)
    ensures forall x :: x in r <==> (x, tag) in ps
  {
    if ps == [] then []
    else
      var last := ps[|ps| - 1];
      PickLabel(ps[..|ps| - 1], tag) + (if last.1 == tag then [last.0] else [])
  }

  /** numpy's `v[m == tag]`: the voxels of `v` whose tag is `tag`, in C order. */
  function Select(v: Vol, m: Mask, tag: int): seq<real>
    requires SameShape(v, m)
  {
    PickLabel(Flatten(Zip(v, m)), tag)
  }

  lemma InSelect(v: Vol, m: Mask, tag: int, x: real)
    requires SameShape(v, m)
    ensures x in Select(v, m, tag) <==>
      exists i, j, k :: InGrid(v, i, j, k) && m[i][j][k] == tag && v[i][j][k] == x
  {
    var z := Zip(v, m);
    InFlatten(z, (x, tag));
    if x in Select(v, m, tag) {
      var i, j, k :| InGrid(z, i, j, k) && z[i][j][k] == (x, tag);
      assert InGrid(v, i, j, k) && m[i][j][k] == tag && v[i][j][k] == x;
    }
    if exists i, j, k :: InGrid(v, i, j, k) && m[i][j][k] == tag && v[i][j][k] == x {
      var i, j, k :| InGrid(v, i, j, k) && m[i][j][k] == tag && v[i][j][k] == x;
      assert InGrid(z, i, j, k) && z[i][j][k] == (x, tag);
    }
  }

  function PickNonZero(s: seq<real>): (r: seq<real>)
    ensures forall x :: x in r <==> x in s && x != 0.0
  {
    if s == [] then []
    else PickNonZero(s[..|s| - 1]) + (if s[|s| - 1] != 0.0 then [s[|s| - 1]] else [])
  }

  /** numpy's `v[np.nonzero(v)]`: the nonzero voxels in C order. */
  function NonZero(v: Vol): seq<real>
  {
    PickNonZero(Flatten(v))
  }

  // --------------------------------------------------------------- maximum

  function MaxOf(s: seq<real>): (m: real)
    requires s != []
    ensures m in s
    ensures forall i :: 0 <= i < |s| ==> s[i] <= m
  {
    if |s| == 1 then s[0]
    else
      var r := MaxOf(s[..|s| - 1]);
      assert forall i :: 0 <= i < |s| - 1 ==> s[i] == s[..|s| - 1][i];
      if s[|s| - 1] > r then s[|s| - 1] else r
  }

  /** numpy's `amax`; it raises on an empty array. */
  function Max3(v: Vol): (m: Option<real>)
    ensures m.None? <==> Flatten(v) == []
    ensures m.Some? ==> (exists i, j, k :: InGrid(v, i, j, k) && v[i][j][k] == m.value)
    ensures m.Some? ==> forall i, j, k :: InGrid(v, i, j, k) ==> v[i][j][k] <= m.value
  {
    var f := Flatten(v);
    if f == [] then None
    else
      var m := MaxOf(f);
      InFlatten(v, m);
      assert forall i, j, k :: InGrid(v, i, j, k) ==> v[i][j][k] <= m by {
        forall i, j, k | InGrid(v, i, j, k) ensures v[i][j][k] <= m {
          InFlatten(v, v[i][j][k]);
          var n :| 0 <= n < |f| && f[n] == v[i][j][k];
        }
      }
      Some(m)
  }

  // -------------------------------------------------------------- rounding

  /** Python's `round` on a float: to the nearest integer, halves to the
      even neighbour. */
  function RoundHalfEven(r: real): (n: int)
    ensures r - 0.5 <= n as real <= r + 0.5
    ensures n as real - r == 0.5 || r - n as real == 0.5 ==> n % 2 == 0
  {
    var f := r.Floor;
    var frac := r - f as real;
    if frac < 0.5 then f
    else if frac > 0.5 then f + 1
    else if f % 2 == 0 then f
    else f + 1
  }
}
