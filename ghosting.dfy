/** The ghost-to-signal ratio of the functional stability script: the
    Nyquist ghost region is the foreground mask rolled by half the field of
    view along the phase-encoding axis (axis 1); voxels are labelled 0
    (foreground), 1 (ghost outside the foreground) or 2 (background), and
    the ratio is (mean of the ghost - mean of the background) / median of
    the foreground. */
module Ghosting {
  import opened Outcomes
  import Stats
  import opened Volumes

  // ----------------------------------------------------------------- roll

  /** numpy's `roll` of a sequence by `s` places, `0 <= s <= n`: the last
      `s` elements come first. */
  function Rotate<T>(p: seq<T>, s: int): (r: seq<T>)
    requires 0 <= s <= |p|
    ensures |r| == |p|
  {
    p[|p| - s..] + p[..|p| - s]
  }

  /** Every element moves `s` places forward, the ones pushed past the end
      wrapping round to the front. */
  lemma RotateMoves<T>(p: seq<T>, s: int)
    requires 0 <= s <= |p|
    ensures forall j :: 0 <= j < |p| - s ==> Rotate(p, s)[j + s] == p[j]
    ensures forall j :: |p| - s <= j < |p| ==> Rotate(p, s)[j + s - |p|] == p[j]
  {
  }

  /** Rolling by the remaining `n - s` places undoes a roll by `s`. */
  lemma RotateBack<T>(p: seq<T>, s: int)
    requires 0 <= s <= |p|
    ensures Rotate(Rotate(p, s), |p| - s) == p
  {
    var n := |p|;
    var q := Rotate(p, s);
    assert q[n - (n - s)..] == p[..n - s];
    assert q[..n - (n - s)] == p[n - s..];
  }

  /** A roll reorders the elements and loses none. */
  lemma RotatePermutes<T>(p: seq<T>, s: int)
    requires 0 <= s <= |p|
    ensures multiset(Rotate(p, s)) == multiset(p)
  {
    assert p == p[..|p| - s] + p[|p| - s..];
  }

  /** `np.roll(g, g.shape[1] // 2, axis=1)`: every plane `g[i]` rolled by
      half its length. */
  function Roll<T>(g: Grid<T>): (r: Grid<T>)
    ensures |r| == |g| && forall i :: 0 <= i < |g| ==> r[i] == Rotate(g[i], |g[i]| / 2)
    ensures Regular(g) ==> SameShape(r, g)
  {
    var r := seq(|g|, i requires 0 <= i < |g| => Rotate(g[i], |g[i]| / 2));
    if Regular(g) then RollShape(g, r); r else r
  }

  lemma RollShape<T>(g: Grid<T>, r: Grid<T>)
    requires Regular(g)
    requires |r| == |g| && forall i :: 0 <= i < |g| ==> r[i] == Rotate(g[i], |g[i]| / 2)
    ensures SameShape(r, g)
  {
    forall i, j | 0 <= i < |g| && 0 <= j < |g[i]| ensures |r[i][j]| == |g[i][j]| {
      var n := |g[i]|;
      var s := n / 2;
      if j < s {
        assert r[i][j] == g[i][n - s + j];
      } else {
        assert r[i][j] == g[i][j - s];
      }
    }
  }

  /** The roll keeps the shape of a regular array, and voxel `(i, j, k)`
      of the result is voxel `(i, j', k)` of the original for some `j'`. */
  lemma RollVoxel<T>(g: Grid<T>)
    requires Regular(g)
    ensures SameShape(Roll(g), g)
    ensures forall i, j, k :: InGrid(g, i, j, k) ==>
      exists j' :: 0 <= j' < |g[i]| && Roll(g)[i][j][k] == g[i][j'][k]
  {
    var r := Roll(g);
    forall i, j | 0 <= i < |g| && 0 <= j < |g[i]|
      ensures exists j' :: 0 <= j' < |g[i]| && r[i][j] == g[i][j']
    {
      var n := |g[i]|;
      var s := n / 2;
      if j < s {
        assert r[i][j] == g[i][n - s + j];
      } else {
        assert r[i][j] == g[i][j - s];
      }
    }
  }

  /** For an even extent the half roll is its own inverse: the ghost of
      the ghost is the original. */
  lemma RollTwice<T>(g: Grid<T>)
    requires forall i :: 0 <= i < |g| ==> |g[i]| % 2 == 0
    ensures Roll(Roll(g)) == g
  {
    forall i | 0 <= i < |g| ensures Roll(Roll(g))[i] == g[i] {
      RotateBack(g[i], |g[i]| / 2);
    }
  }

  lemma {:induction false} FlattenPlaneAppend<T>(a: seq<seq<T>>, b: seq<seq<T>>)
    ensures FlattenPlane(a + b) == FlattenPlane(a) + FlattenPlane(b)
  {
    if b == [] {
      assert a + b == a;
    } else {
      var n := |b| - 1;
      var ab := a + b;
      assert ab[..|ab| - 1] == a + b[..n];
      assert ab[|ab| - 1] == b[n];
      FlattenPlaneAppend(a, b[..n]);
      calc {
        FlattenPlane(ab);
        FlattenPlane(a + b[..n]) + b[n];
        (FlattenPlane(a) + FlattenPlane(b[..n])) + b[n];
        FlattenPlane(a) + (FlattenPlane(b[..n]) + b[n]);
        FlattenPlane(a) + FlattenPlane(b);
      }
    }
  }

  lemma PlanePermutes<T>(p: seq<seq<T>>, s: int)
    requires 0 <= s <= |p|
    ensures multiset(FlattenPlane(Rotate(p, s))) == multiset(FlattenPlane(p))
  {
    var n := |p|;
    FlattenPlaneAppend(p[n - s..], p[..n - s]);
    assert p == p[..n - s] + p[n - s..];
    FlattenPlaneAppend(p[..n - s], p[n - s..]);
  }

  /** Rolling keeps every voxel value and how often it occurs; in
      particular the ghost candidate has as many voxels as the mask. */
  lemma {:induction false} RollPermutes<T>(g: Grid<T>)
    ensures multiset(Flatten(Roll(g))) == multiset(Flatten(g))
  {
    if g != [] {
      var n := |g| - 1;
      assert Roll(g)[..n] == Roll(g[..n]);
      RollPermutes(g[..n]);
      PlanePermutes(g[n], |g[n]| / 2);
    }
  }

  // --------------------------------------------------------------- labels

  /** Steps 3 and 4 of `gsr`, with the same integer arithmetic:
      `n2 = roll(mask) * (1 - mask)`, then `n2 + 2 * (1 - n2 - mask)`. */
  function GhostLabels(mask: Mask): (r: Mask)
    requires Regular(mask)
    ensures SameShape(r, mask)
    ensures forall i, j, k :: InGrid(mask, i, j, k) ==> r[i][j][k] == LabelOf(Roll(mask)[i][j][k], mask[i][j][k])
  {
    var rolled := Roll(mask);
    RollVoxel(mask);
    seq(|mask|, i requires 0 <= i < |mask| =>
      seq(|mask[i]|, j requires 0 <= j < |mask[i]| =>
        seq(|mask[i][j]|, k requires 0 <= k < |mask[i][j]| => LabelOf(rolled[i][j][k], mask[i][j][k]))))
  }

  /** The label of one voxel from its rolled-mask value `r` and mask value
      `m`. */
  function LabelOf(r: int, m: int): int
  {
    var n2 := r * (1 - m);
    n2 + 2 * (1 - n2 - m)
  }

  /** For a 0/1 mask the labels partition the volume: 0 exactly on the
      mask, 1 where the rolled mask covers a voxel outside it, 2 on every
      other voxel. */
  lemma LabelsPartition(mask: Mask)
    requires Regular(mask) && Binary(mask)
    ensures var l, rolled := GhostLabels(mask), Roll(mask);
      forall i, j, k :: InGrid(mask, i, j, k) ==>
        && (l[i][j][k] == 0 || l[i][j][k] == 1 || l[i][j][k] == 2)
        && (l[i][j][k] == 0 <==> mask[i][j][k] == 1)
        && (l[i][j][k] == 1 <==> mask[i][j][k] == 0 && rolled[i][j][k] == 1)
        && (l[i][j][k] == 2 <==> mask[i][j][k] == 0 && rolled[i][j][k] == 0)
  {
    RollBinary(mask);
    var l, rolled := GhostLabels(mask), Roll(mask);
    forall i, j, k | InGrid(mask, i, j, k)
      ensures && (l[i][j][k] == 0 || l[i][j][k] == 1 || l[i][j][k] == 2)
        && (l[i][j][k] == 0 <==> mask[i][j][k] == 1)
        && (l[i][j][k] == 1 <==> mask[i][j][k] == 0 && rolled[i][j][k] == 1)
        && (l[i][j][k] == 2 <==> mask[i][j][k] == 0 && rolled[i][j][k] == 0)
    {
      assert InGrid(rolled, i, j, k);
      LabelArithmetic(rolled[i][j][k], mask[i][j][k]);
      assert l[i][j][k] == LabelOf(rolled[i][j][k], mask[i][j][k]);
    }
  }

  /** The roll of a 0/1 mask is a 0/1 mask. */
  lemma RollBinary(mask: Mask)
    requires Regular(mask) && Binary(mask)
    ensures SameShape(Roll(mask), mask) && Binary(Roll(mask))
  {
    RollVoxel(mask);
    var rolled := Roll(mask);
    forall i, j, k | InGrid(rolled, i, j, k) ensures rolled[i][j][k] == 0 || rolled[i][j][k] == 1 {
      assert InGrid(mask, i, j, k);
      var j' :| 0 <= j' < |mask[i]| && rolled[i][j][k] == mask[i][j'][k];
      assert InGrid(mask, i, j', k);
    }
  }

  /** The label arithmetic on one voxel of a 0/1 mask and its roll. */
  lemma LabelArithmetic(r: int, m: int)
    requires (r == 0 || r == 1) && (m == 0 || m == 1)
    ensures var l := LabelOf(r, m);
      && (l == 0 || l == 1 || l == 2)
      && (l == 0 <==> m == 1)
      && (l == 1 <==> m == 0 && r == 1)
      && (l == 2 <==> m == 0 && r == 0)
  {
  }

  // ------------------------------------------------------------------ gsr

  /** `gsr(epi_data, mask)`: NaN when a label selects no voxel (numpy's
      mean or median of nothing) and when the signal median is 0 (the
      division gives infinity or NaN). */
  function Gsr(epi: Vol, mask: Mask): Option<real>
    requires Regular(mask) && SameShape(epi, mask)
  {
    var l := GhostLabels(mask);
    SameShapeTrans(epi, mask, l);
    Ratio(epi, l)
  }

  /** The ratio of the labelled image: mean of the ghost voxels minus mean
      of the other background voxels, over the median of the signal. */
  function Ratio(epi: Vol, l: Mask): Option<real>
    requires SameShape(epi, l)
  {
    var ghosted := Stats.Mean(Select(epi, l, 1));
    var background := Stats.Mean(Select(epi, l, 2));
    var signal := Stats.Median(Select(epi, l, 0));
    if ghosted.None? || background.None? || signal.None? || signal.value == 0.0 then None
    else Some((ghosted.value - background.value) / signal.value)
  }

  /** Every voxel carrying `tag` holds `c`, and one voxel carries it: the
      selection is a nonempty run of `c`. */
  lemma SelectConstant(v: Vol, l: Mask, tag: int, c: real)
    requires SameShape(v, l)
    requires forall i, j, k :: InGrid(v, i, j, k) && l[i][j][k] == tag ==> v[i][j][k] == c
    requires exists i, j, k :: InGrid(v, i, j, k) && l[i][j][k] == tag
    ensures var s := Select(v, l, tag);
      s != [] && forall n :: 0 <= n < |s| ==> s[n] == c
  {
    var s := Select(v, l, tag);
    var i, j, k :| InGrid(v, i, j, k) && l[i][j][k] == tag;
    InSelect(v, l, tag, v[i][j][k]);
    forall n | 0 <= n < |s| ensures s[n] == c {
      InSelect(v, l, tag, s[n]);
    }
  }

  /** The image is `s` on the mask, `a` on the ghost region (outside the
      mask, inside the rolled mask) and `b` on the rest of the background. */
  ghost predicate PiecewiseConstant(epi: Vol, mask: Mask, rolled: Mask, s: real, a: real, b: real)
    requires SameShape(epi, mask) && SameShape(rolled, mask)
  {
    forall i, j, k :: InGrid(epi, i, j, k) ==>
      if mask[i][j][k] == 1 then epi[i][j][k] == s
      else if rolled[i][j][k] == 1 then epi[i][j][k] == a
      else epi[i][j][k] == b
  }

  /** The signal, the ghost region and the rest of the background each
      hold at least one voxel. */
  ghost predicate RegionsOccupied(mask: Mask, rolled: Mask)
    requires SameShape(rolled, mask)
  {
    && (exists i, j, k :: InGrid(mask, i, j, k) && mask[i][j][k] == 1)
    && (exists i, j, k :: InGrid(mask, i, j, k) && mask[i][j][k] == 0 && rolled[i][j][k] == 1)
    && (exists i, j, k :: InGrid(mask, i, j, k) && mask[i][j][k] == 0 && rolled[i][j][k] == 0)
  }

  /** The voxels labelled 0, 1 and 2 hold `s`, `a` and `b`, and each label
      occurs. */
  ghost predicate ConstantOnLabels(epi: Vol, l: Mask, s: real, a: real, b: real)
  {
    && (forall i, j, k :: InGrid(epi, i, j, k) && InGrid(l, i, j, k) && l[i][j][k] == 0 ==> epi[i][j][k] == s)
    && (forall i, j, k :: InGrid(epi, i, j, k) && InGrid(l, i, j, k) && l[i][j][k] == 1 ==> epi[i][j][k] == a)
    && (forall i, j, k :: InGrid(epi, i, j, k) && InGrid(l, i, j, k) && l[i][j][k] == 2 ==> epi[i][j][k] == b)
    && (exists i, j, k :: InGrid(epi, i, j, k) && InGrid(l, i, j, k) && l[i][j][k] == 0)
    && (exists i, j, k :: InGrid(epi, i, j, k) && InGrid(l, i, j, k) && l[i][j][k] == 1)
    && (exists i, j, k :: InGrid(epi, i, j, k) && InGrid(l, i, j, k) && l[i][j][k] == 2)
  }

  /** The ratio of an image that is `s` on the mask, `a` in the ghost
      region and `b` in the rest of the background is `(a - b) / s`; in
      particular an image without a ghost (`a == b`) has ratio 0. */
  lemma GsrOfPiecewiseConstant(epi: Vol, mask: Mask, s: real, a: real, b: real)
    requires Regular(mask) && SameShape(epi, mask) && Binary(mask)
    requires s != 0.0
    requires PiecewiseConstant(epi, mask, Roll(mask), s, a, b)
    requires RegionsOccupied(mask, Roll(mask))
    ensures Gsr(epi, mask) == Some((a - b) / s)
  {
    var l := GhostLabels(mask);
    SameShapeTrans(epi, mask, l);
    assert Gsr(epi, mask) == Ratio(epi, l);
    LabelValues(epi, mask, s, a, b);
    RatioOfConstantLabels(epi, l, s, a, b);
  }

  /** The voxels of each label hold that label's value, and each label
      occurs. */
  lemma LabelValues(epi: Vol, mask: Mask, s: real, a: real, b: real)
    requires Regular(mask) && SameShape(epi, mask) && Binary(mask)
    requires PiecewiseConstant(epi, mask, Roll(mask), s, a, b)
    requires RegionsOccupied(mask, Roll(mask))
    ensures ConstantOnLabels(epi, GhostLabels(mask), s, a, b)
  {
    LabelsPartition(mask);
    RegionValues(epi, mask, Roll(mask), GhostLabels(mask), s, a, b);
  }

  /** Region by region: where the labels mark the signal, the ghost and the
      rest of the background by 0, 1 and 2, an image constant on each
      region is constant on each label, and each occupied region gives an
      occupied label. */
  lemma RegionValues(epi: Vol, mask: Mask, rolled: Mask, l: Mask, s: real, a: real, b: real)
    requires SameShape(epi, mask) && SameShape(rolled, mask) && SameShape(l, mask)
    requires forall i, j, k :: InGrid(mask, i, j, k) ==>
        && (l[i][j][k] == 0 <==> mask[i][j][k] == 1)
        && (l[i][j][k] == 1 <==> mask[i][j][k] == 0 && rolled[i][j][k] == 1)
        && (l[i][j][k] == 2 <==> mask[i][j][k] == 0 && rolled[i][j][k] == 0)
    requires PiecewiseConstant(epi, mask, rolled, s, a, b)
    requires RegionsOccupied(mask, rolled)
    ensures ConstantOnLabels(epi, l, s, a, b)
  {
    forall i, j, k | InGrid(epi, i, j, k) && InGrid(l, i, j, k) && l[i][j][k] == 0 ensures epi[i][j][k] == s {
      assert InGrid(mask, i, j, k);
    }
    forall i, j, k | InGrid(epi, i, j, k) && InGrid(l, i, j, k) && l[i][j][k] == 1 ensures epi[i][j][k] == a {
      assert InGrid(mask, i, j, k);
    }
    forall i, j, k | InGrid(epi, i, j, k) && InGrid(l, i, j, k) && l[i][j][k] == 2 ensures epi[i][j][k] == b {
      assert InGrid(mask, i, j, k);
    }
    var i0, j0, k0 :| InGrid(mask, i0, j0, k0) && mask[i0][j0][k0] == 1;
    assert InGrid(epi, i0, j0, k0) && InGrid(l, i0, j0, k0) && l[i0][j0][k0] == 0;
    var i1, j1, k1 :| InGrid(mask, i1, j1, k1) && mask[i1][j1][k1] == 0 && rolled[i1][j1][k1] == 1;
    assert InGrid(epi, i1, j1, k1) && InGrid(l, i1, j1, k1) && l[i1][j1][k1] == 1;
    var i2, j2, k2 :| InGrid(mask, i2, j2, k2) && mask[i2][j2][k2] == 0 && rolled[i2][j2][k2] == 0;
    assert InGrid(epi, i2, j2, k2) && InGrid(l, i2, j2, k2) && l[i2][j2][k2] == 2;
  }

  /** An image constant on each of the three labels, each label occurring,
      has ratio `(a - b) / s`. */
  lemma RatioOfConstantLabels(epi: Vol, l: Mask, s: real, a: real, b: real)
    requires SameShape(epi, l)
    requires s != 0.0
    requires ConstantOnLabels(epi, l, s, a, b)
    ensures Ratio(epi, l) == Some((a - b) / s)
  {
    SelectConstant(epi, l, 0, s);
    SelectConstant(epi, l, 1, a);
    SelectConstant(epi, l, 2, b);
    Stats.MedianOfConstant(Select(epi, l, 0), s);
    Stats.MeanOfConstant(Select(epi, l, 1), a);
    Stats.MeanOfConstant(Select(epi, l, 2), b);
  }
}
