/** The per-session measurements of the functional stability script:
    the foreground mask, the region of interest around the tSNR centroid,
    the mean tSNR inside it, the largest head-position (centroid)
    displacement between frames, and the ghost-to-signal ratio. */
module Stability {
  import opened Outcomes
  import Stats
  import opened Volumes
  import opened Ghosting

  // ------------------------------------------------------ foreground mask

  /** `np.where(mean > np.amax(mean) * .25, 1, 0)`, `top` being the
      maximum. */
  function ForegroundMask(mean: Vol, top: real): (m: Mask)
    ensures SameShape(m, mean) && Binary(m)
    ensures forall i, j, k :: InGrid(mean, i, j, k) ==> (m[i][j][k] == 1 <==> mean[i][j][k] > top * 0.25)
  {
    seq(|mean|, i requires 0 <= i < |mean| =>
      seq(|mean[i]|, j requires 0 <= j < |mean[i]| =>
        seq(|mean[i][j]|, k requires 0 <= k < |mean[i][j]| => if mean[i][j][k] > top * 0.25 then 1 else 0)))
  }

  /** With a positive maximum the brightest voxel is in the foreground. */
  lemma BrightestIsForeground(mean: Vol)
    requires Max3(mean).Some? && Max3(mean).value > 0.0
    ensures exists i, j, k :: InGrid(mean, i, j, k) && ForegroundMask(mean, Max3(mean).value)[i][j][k] == 1
  {
    var top := Max3(mean).value;
    var i, j, k :| InGrid(mean, i, j, k) && mean[i][j][k] == top;
    assert mean[i][j][k] > top * 0.25;
  }

  /** With no positive voxel the foreground is empty, so the signal
      median of the ghost-to-signal ratio is NaN. */
  lemma DarkImageHasNoForeground(mean: Vol)
    requires Max3(mean).Some? && Max3(mean).value <= 0.0
    ensures forall i, j, k :: InGrid(mean, i, j, k) ==> ForegroundMask(mean, Max3(mean).value)[i][j][k] == 0
  {
  }

  // ------------------------------------------------- region of interest

  /** The rounded tSNR centroid. */
  datatype Centre = Centre(x: int, y: int, z: int)

  function Clip(b: int, n: int): int
  {
    if b < 0 then 0 else if b > n then n else b
  }

  /** numpy's reading of a slice bound on an axis of `n` elements: a
      negative bound counts from the end, and the result is clipped to
      `[0, n]`. */
  function SliceBound(b: int, n: int): int
  {
    if b < 0 then Clip(b + n, n) else Clip(b, n)
  }

  /** Index `j` lies in numpy's slice `start:stop` of an `n`-element axis. */
  predicate InSlice(j: int, start: int, stop: int, n: int)
  {
    SliceBound(start, n) <= j < SliceBound(stop, n)
  }

  /** The ROI exactly as the slice assignment
      `mask[x-10:x+10, y-10:y+10, z-5:z+5] = 1` writes it. */
  function RoiAsWritten(v: Vol, c: Centre): (m: Mask)
    ensures SameShape(m, v) && SameShape(v, m) && Binary(m)
    ensures forall i, j, k :: InGrid(v, i, j, k) ==>
      (m[i][j][k] == 1 <==>
        InSlice(i, c.x - 10, c.x + 10, |v|) && InSlice(j, c.y - 10, c.y + 10, |v[i]|) && InSlice(k, c.z - 5, c.z + 5, |v[i][j]|))
  {
    seq(|v|, i requires 0 <= i < |v| =>
      seq(|v[i]|, j requires 0 <= j < |v[i]| =>
        seq(|v[i][j]|, k requires 0 <= k < |v[i][j]| =>
          if InSlice(i, c.x - 10, c.x + 10, |v|) && InSlice(j, c.y - 10, c.y + 10, |v[i]|) && InSlice(k, c.z - 5, c.z + 5, |v[i][j]|)
          then 1 else 0)))
  }

  /** Index `j` lies in the half-open interval `[c - r, c + r)`. */
  predicate InBox(j: int, c: int, r: int)
  {
    c - r <= j < c + r
  }

  /** The intended ROI: the half-open box `[x-10, x+10) x [y-10, y+10) x
      [z-5, z+5)` around the centre, cut to the volume. */
  function Roi(v: Vol, c: Centre): (m: Mask)
    ensures SameShape(m, v) && Binary(m)
    ensures forall i, j, k :: InGrid(v, i, j, k) ==>
      (m[i][j][k] == 1 <==> InBox(i, c.x, 10) && InBox(j, c.y, 10) && InBox(k, c.z, 5))
  {
    seq(|v|, i requires 0 <= i < |v| =>
      seq(|v[i]|, j requires 0 <= j < |v[i]| =>
        seq(|v[i][j]|, k requires 0 <= k < |v[i][j]| =>
          if InBox(i, c.x, 10) && InBox(j, c.y, 10) && InBox(k, c.z, 5) then 1 else 0)))
  }

  /** A slice whose bounds lie on the axis selects exactly its indices. */
  lemma SliceOnAxis(j: int, start: int, stop: int, n: int)
    requires 0 <= j < n && 0 <= start && 0 <= stop <= n
    ensures InSlice(j, start, stop, n) <==> start <= j < stop
  {
  }

  /** When the box lies inside the volume, the slice assignment writes the
      intended box. */
  lemma RoiAgreesInside(v: Vol, c: Centre, nx: int, ny: int, nz: int)
    requires Shaped(v, nx, ny, nz)
    requires 10 <= c.x <= nx - 10 && 10 <= c.y <= ny - 10 && 5 <= c.z <= nz - 5
    ensures RoiAsWritten(v, c) == Roi(v, c)
  {
    var a, b := RoiAsWritten(v, c), Roi(v, c);
    forall i, j, k | InGrid(v, i, j, k) ensures a[i][j][k] == b[i][j][k] {
      SliceOnAxis(i, c.x - 10, c.x + 10, nx);
      SliceOnAxis(j, c.y - 10, c.y + 10, ny);
      SliceOnAxis(k, c.z - 5, c.z + 5, nz);
    }
    assert forall i :: 0 <= i < |v| ==> a[i] == b[i] by {
      forall i | 0 <= i < |v| ensures a[i] == b[i] {
        forall j | 0 <= j < |v[i]| ensures a[i][j] == b[i][j] {
          assert forall k :: 0 <= k < |v[i][j]| ==> a[i][j][k] == b[i][j][k] by {
            forall k | 0 <= k < |v[i][j]| ensures a[i][j][k] == b[i][j][k] {
              assert InGrid(v, i, j, k);
            }
          }
        }
      }
    }
  }

  /** A centre closer than 10 voxels to the start of axis 0 (of at least
      20 voxels) makes the first slice bound negative; numpy then counts it
      from the end, past the stop bound, and the slice is empty. */
  lemma RoiNearEdgeIsEmpty(v: Vol, c: Centre)
    requires 0 <= c.x < 10 && 20 <= |v|
    ensures forall i, j, k :: InGrid(v, i, j, k) ==> RoiAsWritten(v, c)[i][j][k] == 0
  {
  }

  /** The intended box, in contrast, keeps the voxels between the volume's
      edge and the centre. */
  lemma BoxNearEdgeIsNotEmpty(v: Vol, c: Centre)
    requires 0 <= c.x < 10 && c.x + 10 <= |v|
    requires 0 <= c.y < |v[c.x]| && 0 <= c.z < |v[c.x][c.y]|
    ensures Roi(v, c)[c.x][c.y][c.z] == 1
  {
    assert InGrid(v, c.x, c.y, c.z);
  }

  /** The concrete case: centre 5 on an axis of 64 voxels. The slice
      `-5:15` reads as `59:15` and selects nothing, while the box
      `[-5, 15)` keeps indices 0 to 14. */
  lemma SliceWrapsAtFive()
    ensures SliceBound(5 - 10, 64) == 59 && SliceBound(5 + 10, 64) == 15
    ensures forall j :: !InSlice(j, -5, 15, 64)
    ensures forall j :: 0 <= j < 15 ==> InBox(j, 5, 10)
  {
  }

  // ----------------------------------------------------------------- tSNR

  /** The voxelwise product `v * mask`. */
  function Masked(v: Vol, m: Mask): (r: Vol)
    requires SameShape(v, m)
    ensures SameShape(r, v)
    ensures forall i, j, k :: InGrid(v, i, j, k) ==> r[i][j][k] == v[i][j][k] * m[i][j][k] as real
  {
    seq(|v|, i requires 0 <= i < |v| =>
      seq(|v[i]|, j requires 0 <= j < |v[i]| =>
        seq(|v[i][j]|, k requires 0 <= k < |v[i][j]| => v[i][j][k] * m[i][j][k] as real)))
  }

  /** `tsnr_masked[np.nonzero(tsnr_masked)].mean()`. */
  function TsnrInRoi(tsnr: Vol, roi: Mask): Option<real>
    requires SameShape(tsnr, roi)
  {
    Stats.Mean(NonZero(Masked(tsnr, roi)))
  }

  /** The values averaged are exactly the nonzero tSNR values inside the
      ROI. */
  lemma InMaskedNonZero(tsnr: Vol, roi: Mask, x: real)
    requires SameShape(tsnr, roi) && Binary(roi)
    ensures x in NonZero(Masked(tsnr, roi)) <==>
      x != 0.0 && exists i, j, k :: InGrid(tsnr, i, j, k) && roi[i][j][k] == 1 && tsnr[i][j][k] == x
  {
    var p := Masked(tsnr, roi);
    InFlatten(p, x);
    if x in NonZero(p) {
      var i, j, k :| InGrid(p, i, j, k) && p[i][j][k] == x;
      MaskedVoxel(tsnr, roi, i, j, k);
    }
    if x != 0.0 && exists i, j, k :: InGrid(tsnr, i, j, k) && roi[i][j][k] == 1 && tsnr[i][j][k] == x {
      var i, j, k :| InGrid(tsnr, i, j, k) && roi[i][j][k] == 1 && tsnr[i][j][k] == x;
      MaskedVoxel(tsnr, roi, i, j, k);
    }
  }

  /** One voxel of the masked map: the tSNR inside the ROI, 0 outside. */
  lemma MaskedVoxel(tsnr: Vol, roi: Mask, i: int, j: int, k: int)
    requires SameShape(tsnr, roi) && Binary(roi) && InGrid(tsnr, i, j, k)
    ensures InGrid(Masked(tsnr, roi), i, j, k)
    ensures Masked(tsnr, roi)[i][j][k] == if roi[i][j][k] == 1 then tsnr[i][j][k] else 0.0
  {
    assert InGrid(roi, i, j, k);
    MaskProduct(tsnr[i][j][k], roi[i][j][k]);
  }

  /** Multiplying by a binary mask value keeps or clears the voxel. */
  lemma MaskProduct(v: real, m: int)
    requires m == 0 || m == 1
    ensures v * m as real == if m == 1 then v else 0.0
  {
  }

  /** The ROI's tSNR is NaN exactly when no voxel of the ROI has a nonzero
      tSNR; otherwise it lies within the range of those values. */
  lemma TsnrAveragesRoi(tsnr: Vol, roi: Mask, lo: real, hi: real)
    requires SameShape(tsnr, roi) && Binary(roi)
    requires forall i, j, k :: InGrid(tsnr, i, j, k) && roi[i][j][k] == 1 && tsnr[i][j][k] != 0.0 ==>
      lo <= tsnr[i][j][k] <= hi
    ensures TsnrInRoi(tsnr, roi).None? <==>
      forall i, j, k :: InGrid(tsnr, i, j, k) && roi[i][j][k] == 1 ==> tsnr[i][j][k] == 0.0
    ensures TsnrInRoi(tsnr, roi).Some? ==> lo <= TsnrInRoi(tsnr, roi).value <= hi
  {
    var s := NonZero(Masked(tsnr, roi));
    forall n | 0 <= n < |s| ensures lo <= s[n] <= hi {
      InMaskedNonZero(tsnr, roi, s[n]);
    }
    if s != [] {
      Stats.MeanBetween(s, lo, hi);
      InMaskedNonZero(tsnr, roi, s[0]);
    }
    if exists i, j, k :: InGrid(tsnr, i, j, k) && roi[i][j][k] == 1 && tsnr[i][j][k] != 0.0 {
      var i, j, k :| InGrid(tsnr, i, j, k) && roi[i][j][k] == 1 && tsnr[i][j][k] != 0.0;
      InMaskedNonZero(tsnr, roi, tsnr[i][j][k]);
    }
  }

  // ---------------------------------------------------------- displacement

  /** The squared Euclidean distance of two centroids. */
  function DistSq(a: Vec3, b: Vec3): (d: real)
    ensures d >= 0.0
  {
    Stats.Square(a.x - b.x); Stats.Square(a.y - b.y); Stats.Square(a.z - b.z);
    (a.x - b.x) * (a.x - b.x) + (a.y - b.y) * (a.y - b.y) + (a.z - b.z) * (a.z - b.z)
  }

  /** `cdist` is symmetric with a zero diagonal. */
  lemma DistSqSymmetric(a: Vec3, b: Vec3)
    ensures DistSq(a, b) == DistSq(b, a)
    ensures DistSq(a, a) == 0.0
  {
  }

  /** Row `i` of the distance matrix. */
  function Distances(cs: seq<Vec3>, i: int): (r: seq<real>)
    requires 0 <= i < |cs|
    ensures |r| == |cs| && forall j :: 0 <= j < |cs| ==> r[j] == DistSq(cs[i], cs[j])
  {
    seq(|cs|, j requires 0 <= j < |cs| => DistSq(cs[i], cs[j]))
  }

  /** `cdist(cs, cs).max()`, squared: the largest distance between two
      frames' centroids, attained by some pair. */
  function MaxDisplacementSq(cs: seq<Vec3>): (r: real)
    requires cs != []
    ensures forall i, j :: 0 <= i < |cs| && 0 <= j < |cs| ==> DistSq(cs[i], cs[j]) <= r
    ensures exists i, j :: 0 <= i < |cs| && 0 <= j < |cs| && DistSq(cs[i], cs[j]) == r
  {
    var rows := seq(|cs|, i requires 0 <= i < |cs| => MaxOf(Distances(cs, i)));
    var r := MaxOf(rows);
    forall i, j | 0 <= i < |cs| && 0 <= j < |cs| ensures DistSq(cs[i], cs[j]) <= r {
      assert Distances(cs, i)[j] <= rows[i];
    }
    var i :| 0 <= i < |rows| && rows[i] == r;
    var j :| 0 <= j < |cs| && Distances(cs, i)[j] == rows[i];
    r
  }

  /** The displacement is never negative, and it is 0 for a single frame
      or for a head that did not move. */
  lemma DisplacementOfStillHead(cs: seq<Vec3>)
    requires cs != []
    ensures MaxDisplacementSq(cs) >= 0.0
    ensures (forall i :: 0 <= i < |cs| ==> cs[i] == cs[0]) ==> MaxDisplacementSq(cs) == 0.0
  {
    DistSqSymmetric(cs[0], cs[0]);
    if forall i :: 0 <= i < |cs| ==> cs[i] == cs[0] {
      var i, j :| 0 <= i < |cs| && 0 <= j < |cs| && DistSq(cs[i], cs[j]) == MaxDisplacementSq(cs);
      assert cs[i] == cs[j];
      DistSqSymmetric(cs[i], cs[i]);
    }
  }

  /** The centroid of every frame of the series. */
  function Centroids(series: seq<Vol>): (cs: seq<Option<Vec3>>)
    ensures |cs| == |series| && forall t :: 0 <= t < |series| ==> cs[t] == CenterOfMass(series[t])
  {
    seq(|series|, t requires 0 <= t < |series| => CenterOfMass(series[t]))
  }

  /** The frame loop: one centroid per frame, in order. */
  method FrameCentroids(series: seq<Vol>) returns (cs: seq<Option<Vec3>>)
    ensures cs == Centroids(series)
  {
    cs := [];
    var t := 0;
    while t < |series|
      invariant 0 <= t <= |series|
      invariant |cs| == t && forall u :: 0 <= u < t ==> cs[u] == CenterOfMass(series[u])
    {
      cs := cs + [CenterOfMass(series[t])];
      t := t + 1;
    }
  }

  /** `max_displacement`, squared: `cdist` of an empty list raises; a
      frame without a centroid makes the maximum NaN. */
  function Displacement(series: seq<Vol>): (r: Result<Option<real>>)
  {
    if series == [] then Err(ExtractionFailure)
    else
      match AllPresent(Centroids(series))
      case None => Ok(None)
      case Some(cs) => Ok(Some(MaxDisplacementSq(cs)))
  }

  /** The displacement fails only when there is no frame; it is NaN exactly
      when some frame has no centroid, and otherwise non-negative. */
  lemma DisplacementCases(series: seq<Vol>)
    ensures Displacement(series).Err? <==> series == []
    ensures Displacement(series).Ok? ==>
      (Displacement(series).value.Some? <==> forall t :: 0 <= t < |series| ==> CenterOfMass(series[t]).Some?)
    ensures Displacement(series).Ok? && Displacement(series).value.Some? ==> Displacement(series).value.value >= 0.0
  {
    if series != [] {
      var cs := Centroids(series);
      var all := AllPresent(cs);
      if all.Some? {
        DisplacementOfStillHead(all.value);
      }
    }
  }
}
