/** The functional stability table: one row per session date holding tSNR,
    GSR (in percent), the transmitter reference amplitude and the maximum
    displacement, rebuilt from every file (reusing stored tSNR and mean
    maps when the session was processed before) or extended with the
    files dated outside the table's range (always recomputed). */
module FuncTable {
  import opened Outcomes
  import Stats
  import opened Volumes
  import opened Ghosting
  import opened Stability
  import opened Sessions

  /** What one acquisition provides: the tSNR and mean maps, the frames of
      the series, the `TxRefAmp` entry of the sidecar (absent when the key
      is missing), and whether the session was processed before (its
      timeseries plot exists). */
  datatype FuncScan = FuncScan(tsnr: Vol, mean: Volume, series: seq<Vol>, refAmp: Option<real>, cached: bool)

  /** A row of the table; `maxDispSq` is the square of `max_displacement`. */
  datatype FuncRecord = FuncRecord(tsnr: Option<real>, gsr: Option<real>, refAmp: real, maxDispSq: Option<real>)

  /** `int(round(c))` of the tSNR centroid; rounding NaN raises. */
  function RoiCentre(tsnr: Vol): (r: Result<Centre>)
    ensures r.Err? <==> CenterOfMass(tsnr).None?
    ensures r.Ok? ==> var c := CenterOfMass(tsnr).value;
      && c.x - 0.5 <= r.value.x as real <= c.x + 0.5
      && c.y - 0.5 <= r.value.y as real <= c.y + 0.5
      && c.z - 0.5 <= r.value.z as real <= c.z + 0.5
  {
    match CenterOfMass(tsnr)
    case None => Err(ExtractionFailure)
    case Some(c) => Ok(Centre(RoundHalfEven(c.x), RoundHalfEven(c.y), RoundHalfEven(c.z)))
  }

  /** `gsr(...) * 100`. */
  function Percent(g: Option<real>): Option<real>
  {
    if g.Some? then Some(g.value * 100.0) else None
  }

  /** The values computed once every step that can raise has passed. */
  function Record(s: FuncScan, c: Centre, top: real, disp: Option<real>, amp: real): FuncRecord
  {
    var mask := ForegroundMask(s.mean, top);
    RegularLike(s.mean, mask);
    FuncRecord(TsnrInRoi(s.tsnr, Roi(s.tsnr, c)), Percent(Gsr(s.mean, mask)), amp, disp)
  }

  /** `create_functional_image_metrics`: the tSNR centroid is rounded
      first, then the mean map's maximum is taken, then the frames'
      centroids are compared, and the sidecar is read last. */
  function FreshMetrics(s: FuncScan): Result<FuncRecord>
  {
    var centre := RoiCentre(s.tsnr);
    var top := Max3(s.mean);
    var disp := Displacement(s.series);
    if centre.Err? then Err(centre.error)
    else if top.None? then Err(ExtractionFailure)
    else if disp.Err? then Err(disp.error)
    else if s.refAmp.None? then Err(MissingMetadataField)
    else Ok(Record(s, centre.value, top.value, disp.value, s.refAmp.value))
  }

  /** The branch of `create_dataframe_scanner` for a session processed
      before: the frames' centroids come first, then the tSNR centroid,
      the mean map's maximum and the sidecar. */
  function CachedMetrics(s: FuncScan): Result<FuncRecord>
  {
    var disp := Displacement(s.series);
    var centre := RoiCentre(s.tsnr);
    var top := Max3(s.mean);
    if disp.Err? then Err(disp.error)
    else if centre.Err? then Err(centre.error)
    else if top.None? then Err(ExtractionFailure)
    else if s.refAmp.None? then Err(MissingMetadataField)
    else Ok(Record(s, centre.value, top.value, disp.value, s.refAmp.value))
  }

  /** Both branches compute the same formulas; although they run the
      failing steps in a different order, every numeric failure is the
      same kind, so they agree on every input, failures included. */
  lemma CachedMatchesFresh(s: FuncScan)
    ensures CachedMetrics(s) == FreshMetrics(s)
  {
  }

  /** A session fails exactly when its tSNR map has no centroid, its mean
      map is empty, it has no frame, or its sidecar lacks `TxRefAmp`; the
      missing key is reported only when every numeric step succeeded. */
  lemma MetricsFailure(s: FuncScan)
    ensures FreshMetrics(s).Err? <==>
      CenterOfMass(s.tsnr).None? || Flatten(s.mean) == [] || s.series == [] || s.refAmp.None?
    ensures FreshMetrics(s) == Err(MissingMetadataField) <==>
      CenterOfMass(s.tsnr).Some? && Flatten(s.mean) != [] && s.series != [] && s.refAmp.None?
  {
    assert Displacement(s.series).Err? <==> s.series == [];
    assert Displacement(s.series).Err? ==> Displacement(s.series).error == ExtractionFailure;
  }

  /** A successful session passed every step that can raise and holds
      the values `Record` computes from them. */
  lemma FreshRecord(s: FuncScan)
    requires FreshMetrics(s).Ok?
    ensures RoiCentre(s.tsnr).Ok? && Max3(s.mean).Some? && Displacement(s.series).Ok? && s.refAmp.Some?
    ensures FreshMetrics(s).value ==
      Record(s, RoiCentre(s.tsnr).value, Max3(s.mean).value, Displacement(s.series).value, s.refAmp.value)
  {
  }

  /** When the 20×20×10 box around the rounded centroid fits inside the
      tSNR map, the stored tSNR is the one the script's slice ROI gives:
      the corrected box changes the result only near the map's edges. */
  lemma FreshAgreesInside(s: FuncScan, c: Centre, nx: int, ny: int, nz: int)
    requires FreshMetrics(s).Ok? && RoiCentre(s.tsnr) == Ok(c) && Shaped(s.tsnr, nx, ny, nz)
    requires 10 <= c.x <= nx - 10 && 10 <= c.y <= ny - 10 && 5 <= c.z <= nz - 5
    ensures FreshMetrics(s).value.tsnr == TsnrInRoi(s.tsnr, RoiAsWritten(s.tsnr, c))
  {
    FreshRecord(s);
    RoiAgreesInside(s.tsnr, c, nx, ny, nz);
  }

  /** A successful session stores the sidecar's amplitude, a non-negative
      displacement that is NaN exactly when a frame has no centroid, and a
      tSNR within the range of the tSNR map inside the ROI. */
  lemma MetricsRecord(s: FuncScan, lo: real, hi: real)
    requires FreshMetrics(s).Ok?
    requires forall i, j, k :: InGrid(s.tsnr, i, j, k) ==> lo <= s.tsnr[i][j][k] <= hi
    ensures var r := FreshMetrics(s).value;
      && r.refAmp == s.refAmp.value
      && (r.maxDispSq.Some? <==> forall t :: 0 <= t < |s.series| ==> CenterOfMass(s.series[t]).Some?)
      && (r.maxDispSq.Some? ==> r.maxDispSq.value >= 0.0)
      && (r.tsnr.Some? ==> lo <= r.tsnr.value <= hi)
  {
    FreshRecord(s);
    var c := RoiCentre(s.tsnr).value;
    var roi := Roi(s.tsnr, c);
    TsnrAveragesRoi(s.tsnr, roi, lo, hi);
    DisplacementCases(s.series);
  }

  // ---------------------------------------------------------------- tables

  /** The metrics of one file during a rebuild: by the branch its
      `cached` flag selects. */
  function Reuse(s: FuncScan): Result<FuncRecord>
  {
    if s.cached then CachedMetrics(s) else FreshMetrics(s)
  }

  /** `create_dataframe_scanner`: the rows of every file, sorted by date. */
  function Rebuild(files: seq<Acq<FuncScan>>): Result<Table<FuncRecord>>
  {
    var r := Gather(files, Reuse);
    if r.Err? then Err(r.error) else Ok(SortIndex(FrameOf(r.value)))
  }

  /** `create_dataframe_scanner` as written: before anything is measured,
      the test for a stored timeseries plot calls `replace` with two
      arguments on the file's `pathlib.Path`, whose `replace` takes one
      (it renames the file), so the first file raises `TypeError`; with no
      file the empty table is sorted and written. */
  function RebuildAsWritten(files: seq<Acq<FuncScan>>): Result<Table<FuncRecord>>
  {
    if files == [] then Ok([]) else Err(WrongArguments)
  }

  /** As written, every rebuild from at least one file fails, even one
      that succeeds once the path is turned into a string first; with no
      file both give the empty table. */
  lemma RebuildAsWrittenFails(files: seq<Acq<FuncScan>>)
    ensures files != [] ==> RebuildAsWritten(files).Err? && RebuildAsWritten(files) != Rebuild(files)
    ensures files == [] ==> RebuildAsWritten(files) == Rebuild(files) == Ok([])
  {
    if files != [] {
      RebuildError(files);
      if Rebuild(files).Err? {
        var i :| FirstFailure(files, Reuse, i) && Reuse(files[i].item) == Err(Rebuild(files).error);
        MetricsNeverWrongArguments(files[i].item);
      }
    } else {
      assert FrameOf<FuncRecord>([]) == map[];
    }
  }

  /** No metric step raises `TypeError`. */
  lemma MetricsNeverWrongArguments(s: FuncScan)
    ensures Reuse(s) != Err(WrongArguments)
  {
    assert Displacement(s.series).Err? ==> Displacement(s.series).error == ExtractionFailure;
  }

  method CreateTable(files: seq<Acq<FuncScan>>) returns (r: Result<Table<FuncRecord>>)
    ensures r == Rebuild(files)
  {
    var m := GatherAll(files, Reuse);
    if m.Err? {
      return Err(m.error);
    }
    r := Ok(SortIndex(m.value));
  }

  /** A rebuilt table has one row per distinct file date, in date order,
      and each row holds the metrics of the last file of its date. */
  lemma RebuildRows(files: seq<Acq<FuncScan>>)
    requires Rebuild(files).Ok?
    ensures var t := Rebuild(files).value;
      && Ascending(t)
      && DatesOf(t) == FileDates(files)
      && forall k :: 0 <= k < |t| ==> Kept(files, Reuse, t[k].date, t[k].rec)
  {
    GatherSorted(files, Reuse);
  }

  /** Rebuilding fails exactly when some file fails, with the error of the
      first failing file. */
  lemma RebuildError(files: seq<Acq<FuncScan>>)
    ensures Rebuild(files).Err? <==> exists i :: 0 <= i < |files| && Reuse(files[i].item).Err?
    ensures Rebuild(files).Err? ==>
      exists i :: FirstFailure(files, Reuse, i) && Reuse(files[i].item) == Err(Rebuild(files).error)
  {
    GatherError(files, Reuse);
  }

  // --------------------------------------------------------------- extend

  /** `update_dataframe_scanner`: the table must have a first row; the
      files dated strictly before it or strictly after its last row are
      measured afresh, appended, and the table is sorted again. */
  function Extend(t: Table<FuncRecord>, files: seq<Acq<FuncScan>>): Result<Table<FuncRecord>>
    requires Ascending(t)
  {
    if t == [] then Err(EmptyTable)
    else
      var r := Gather(Incoming(files, t), FreshMetrics);
      if r.Err? then Err(r.error) else Ok(AppendSort(t, FrameOf(r.value)))
  }

  method UpdateTable(t: Table<FuncRecord>, files: seq<Acq<FuncScan>>) returns (r: Result<Table<FuncRecord>>)
    requires Ascending(t)
    ensures r == Extend(t, files)
  {
    if t == [] {
      return Err(EmptyTable);
    }
    var before := Filter(files, Before(t[0].date));
    var after := Filter(files, After(t[|t| - 1].date));
    var m := GatherAll(before + after, FreshMetrics);
    if m.Err? {
      return Err(m.error);
    }
    r := Ok(AppendSort(t, m.value));
  }

  /** A successful extension keeps every existing row, adds one row per
      distinct date of the files read, all outside the table's range, and
      leaves the table sorted with one row per date; each new row holds
      the fresh metrics of the last file read on its date. */
  lemma ExtendKeeps(t: Table<FuncRecord>, files: seq<Acq<FuncScan>>)
    requires Ascending(t) && t != []
    requires Extend(t, files).Ok?
    ensures Extended(t, Extend(t, files).value, files)
    ensures var r := Extend(t, files).value;
      forall i :: 0 <= i < |r| && r[i] !in t ==> Kept(Incoming(files, t), FreshMetrics, r[i].date, r[i].rec)
  {
    var inc := Incoming(files, t);
    GatherDates(inc, FreshMetrics);
    MergeIncoming(t, files, FrameOf(Gather(inc, FreshMetrics).value));
    NewRows(t, files);
  }

  lemma NewRows(t: Table<FuncRecord>, files: seq<Acq<FuncScan>>)
    requires Ascending(t) && t != []
    requires Extend(t, files).Ok?
    ensures var r := Extend(t, files).value;
      forall i :: 0 <= i < |r| && r[i] !in t ==> Kept(Incoming(files, t), FreshMetrics, r[i].date, r[i].rec)
  {
    var inc := Incoming(files, t);
    var m := FrameOf(Gather(inc, FreshMetrics).value);
    var r := AppendSort(t, m);
    GatherDates(inc, FreshMetrics);
    IncomingDatesOutside(t, files, m);
    AppendSortKeeps(t, m);
    forall i | 0 <= i < |r| && r[i] !in t ensures Kept(inc, FreshMetrics, r[i].date, r[i].rec) {
      GatherLast(inc, FreshMetrics, r[i].date);
    }
  }

  /** Extending fails on an empty table, and otherwise exactly when one of
      the files read fails, with the error of the first of them. */
  lemma ExtendError(t: Table<FuncRecord>, files: seq<Acq<FuncScan>>)
    requires Ascending(t)
    ensures t == [] ==> Extend(t, files) == Err(EmptyTable)
    ensures t != [] ==> var inc := Incoming(files, t);
      && (Extend(t, files).Err? <==> exists i :: 0 <= i < |inc| && FreshMetrics(inc[i].item).Err?)
      && (Extend(t, files).Err? ==>
            exists i :: FirstFailure(inc, FreshMetrics, i) && FreshMetrics(inc[i].item) == Err(Extend(t, files).error))
  {
    if t != [] {
      GatherError(Incoming(files, t), FreshMetrics);
    }
  }

  /** Extending a rebuilt table with files dated outside its range fails
      exactly when rebuilding from all the files fails, and otherwise
      gives the same table. */
  lemma ExtendAgreesWithRebuild(seen: seq<Acq<FuncScan>>, later: seq<Acq<FuncScan>>)
    requires Rebuild(seen).Ok? && Rebuild(seen).value != []
    requires var t := Rebuild(seen).value;
      forall i :: 0 <= i < |later| ==> later[i].date < t[0].date || later[i].date > Last(t).date
    ensures Extend(Rebuild(seen).value, seen + later).Ok? <==> Rebuild(seen + later).Ok?
    ensures Rebuild(seen + later).Ok? ==> Extend(Rebuild(seen).value, seen + later) == Rebuild(seen + later)
  {
    var t := Rebuild(seen).value;
    RebuildRows(seen);
    CoversDates(t, seen);
    forall s ensures Reuse(s) == FreshMetrics(s) {
      CachedMatchesFresh(s);
    }
    GatherMergeFails(t, seen, later, Reuse, FreshMetrics);
    if Rebuild(seen + later).Ok? {
      GatherMerge(t, seen, later, Reuse, FreshMetrics);
      FrameOfSortIndex(FrameOf(Gather(seen, Reuse).value));
    }
  }

  /** An update that finds no file outside the table's range returns the
      table unchanged. */
  lemma ExtendNothingNew(t: Table<FuncRecord>, files: seq<Acq<FuncScan>>)
    requires Ascending(t)
    requires Covers(t, files)
    ensures Extend(t, files) == Ok(t)
  {
    IncomingEmpty(files, t);
    assert FrameOf<FuncRecord>([]) == map[];
    AppendNothing(t);
  }

  /** After one successful update with these files, a second one changes
      nothing. */
  lemma ExtendTwice(t: Table<FuncRecord>, files: seq<Acq<FuncScan>>)
    requires Ascending(t) && t != []
    requires Extend(t, files).Ok?
    ensures var r := Extend(t, files).value;
      Ascending(r) && Extend(r, files) == Ok(r)
  {
    ExtendKeeps(t, files);
    ExtendNothingNew(Extend(t, files).value, files);
  }
}
