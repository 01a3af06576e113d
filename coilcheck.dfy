/** The coil-check table of the T1 script: one row per session date, and
    for each of the 32 receive coils four columns (`center_of_mass_x_C01`,
    `..._y_C01`, `..._z_C01`, `signal_proportion_C01`, ...) holding the
    centre of mass of that coil's image and its share of the session's
    total signal. */
module CoilCheck {
  import opened Outcomes
  import opened Volumes
  import opened Sessions
  import Stats

  // ------------------------------------------------------------ coil labels

  function DigitValue(c: char): int
  {
    c as int - '0' as int
  }

  function DigitChar(n: int): char
    requires 0 <= n < 10
  {
    (n + '0' as int) as char
  }

  /** The coil number as the file name writes it: one or two decimal
      digits (the `\d{1,2}` group of the name pattern). */
  predicate IsTag(s: string)
  {
    1 <= |s| <= 2 && forall i :: 0 <= i < |s| ==> '0' <= s[i] <= '9'
  }

  type Tag = s: string | IsTag(s) witness "01"

  /** Python's `int` of the tag. */
  function TagValue(s: Tag): (n: nat)
    ensures n < 100
  {
    if |s| == 1 then DigitValue(s[0]) else 10 * DigitValue(s[0]) + DigitValue(s[1])
  }

  /** Python's `'%02i' % n` (and `"%.2d" % n`) for `0 <= n < 100`. */
  function TwoDigits(n: nat): (s: Tag)
    requires n < 100
    ensures |s| == 2
  {
    [DigitChar(n / 10), DigitChar(n % 10)]
  }

  /** Reading back a two-digit label gives the number written. */
  lemma TwoDigitsRoundTrip(n: nat)
    requires n < 100
    ensures TagValue(TwoDigits(n)) == n
  {
  }

  /** A two-digit label is the label of its own number. */
  lemma TwoDigitsOfValue(s: Tag)
    requires |s| == 2
    ensures TwoDigits(TagValue(s)) == s
  {
    var t := TwoDigits(TagValue(s));
    assert t[0] == s[0] && t[1] == s[1];
  }

  /** `'%02i' % int(tag)`: the tag written with two digits. */
  function Pad2(s: Tag): Tag
  {
    TwoDigits(TagValue(s))
  }

  /** Padding keeps the coil number, leaves two-digit tags alone and is
      idempotent. */
  lemma PadProperties(s: Tag)
    ensures TagValue(Pad2(s)) == TagValue(s)
    ensures |s| == 2 ==> Pad2(s) == s
    ensures Pad2(Pad2(s)) == Pad2(s)
  {
    TwoDigitsRoundTrip(TagValue(s));
    if |s| == 2 {
      TwoDigitsOfValue(s);
    }
  }

  /** The 32 column suffixes `"%.2d" % i` for `i` in `range(1, 33)`. */
  function Coils(): (c: seq<string>)
    ensures |c| == 32
  {
    seq(32, i requires 0 <= i < 32 => TwoDigits(i + 1))
  }

  /** Each coil has its own column suffix. */
  lemma CoilsDistinct()
    ensures forall i, j :: 0 <= i < j < 32 ==> Coils()[i] != Coils()[j]
  {
    forall i, j | 0 <= i < j < 32 ensures Coils()[i] != Coils()[j] {
      TwoDigitsRoundTrip(i + 1);
      TwoDigitsRoundTrip(j + 1);
    }
  }

  /** A tag naming a coil from 1 to 32, once padded, is the standard
      column suffix of that coil. */
  lemma PaddedTagIsStandard(s: Tag)
    requires 1 <= TagValue(s) <= 32
    ensures Pad2(s) == Coils()[TagValue(s) - 1]
    ensures Pad2(s) in Coils()
  {
  }

  // --------------------------------------------------------------- cells

  /** The four cells of one coil in a row: the centre of mass (all three
      coordinates NaN when the image sums to zero) and the signal, first
      the raw sum and after normalisation the proportion. */
  datatype Cell = Cell(com: Option<Vec3>, signal: Option<real>)

  /** A row maps column suffixes to cells; a suffix that is absent has
      NaN in all four of its columns. */
  type CoilRow = map<string, Cell>

  datatype CoilFile = CoilFile(tag: Tag, image: Vol)

  type CoilScan = Acq<CoilFile>

  /** `data_array`: the centre of mass of the image and the sum of its
      voxels, as written into the row. */
  function DataArray(v: Vol): (c: Cell)
    ensures c.signal == Some(Sum3(v))
    ensures c.com.None? <==> Sum3(v) == 0.0
  {
    Cell(CenterOfMass(v), Some(Sum3(v)))
  }

  /** The column suffix a file writes to: its tag as parsed, or padded to
      two digits. */
  function Column(f: CoilFile, pad: bool): string
  {
    if pad then Pad2(f.tag) else f.tag
  }

  /** The row of date `d` after the fill loop has visited `files`: each
      file of that date writes its four cells, a later file overwriting an
      earlier one with the same column. */
  function RowOf(files: seq<CoilScan>, d: Date, pad: bool): CoilRow
  {
    if files == [] then map[]
    else
      var n := |files| - 1;
      var r := RowOf(files[..n], d, pad);
      if files[n].date == d then r[Column(files[n].item, pad) := DataArray(files[n].item.image)] else r
  }


  /** A column of a row holds a value exactly when some file of that date
      writes it. */
  lemma {:induction false} InRowOf(files: seq<CoilScan>, d: Date, pad: bool, c: string)
    ensures c in RowOf(files, d, pad) <==>
      exists i :: 0 <= i < |files| && files[i].date == d && Column(files[i].item, pad) == c
  {
    if files != [] {
      var n := |files| - 1;
      InRowOf(files[..n], d, pad, c);
      if exists i :: 0 <= i < |files| && files[i].date == d && Column(files[i].item, pad) == c {
        var i :| 0 <= i < |files| && files[i].date == d && Column(files[i].item, pad) == c;
        if i < n {
          assert files[..n][i] == files[i];
        }
      }
      if c in RowOf(files[..n], d, pad) {
        var i :| 0 <= i < n && files[..n][i].date == d && Column(files[..n][i].item, pad) == c;
        assert files[i] == files[..n][i];
      }
    }
  }

  /** For one date and column, the last file writing it decides the cell. */
  lemma {:induction false} LastFileWins(files: seq<CoilScan>, i: int, pad: bool)
    requires 0 <= i < |files|
    requires forall j :: i < j < |files| && files[j].date == files[i].date ==>
      Column(files[j].item, pad) != Column(files[i].item, pad)
    ensures var c := Column(files[i].item, pad);
      var row := RowOf(files, files[i].date, pad);
      c in row && row[c] == DataArray(files[i].item.image)
  {
    var n := |files| - 1;
    if i < n {
      forall j | i < j < n && files[..n][j].date == files[..n][i].date
        ensures Column(files[..n][j].item, pad) != Column(files[..n][i].item, pad)
      {
        assert files[..n][j] == files[j];
      }
      assert files[..n][i] == files[i];
      LastFileWins(files[..n], i, pad);
    }
  }

  lemma RowOfStep(files: seq<CoilScan>, i: int, d: Date, pad: bool)
    requires 0 <= i < |files|
    ensures RowOf(files[..i + 1], d, pad) ==
      if files[i].date == d then RowOf(files[..i], d, pad)[Column(files[i].item, pad) := DataArray(files[i].item.image)]
      else RowOf(files[..i], d, pad)
  {
    assert files[..i + 1][..i] == files[..i];
  }

  /** The DataFrame once the fill loop has visited the first `i` files. */
  function PartialFrame(files: seq<CoilScan>, i: int, pad: bool): (m: map<Date, CoilRow>)
    requires 0 <= i <= |files|
    ensures m.Keys == FileDates(files)
  {
    if i == 0 then map d | d in FileDates(files) :: map[]
    else
      var m := PartialFrame(files, i - 1, pad);
      var a := files[i - 1];
      assert a.date in FileDates(files);
      m[a.date := m[a.date][Column(a.item, pad) := DataArray(a.item.image)]]
  }

  lemma PartialFrameNext(files: seq<CoilScan>, i: int, pad: bool)
    requires 0 <= i < |files|
    ensures files[i].date in PartialFrame(files, i, pad)
    ensures var m := PartialFrame(files, i, pad); var a := files[i];
      PartialFrame(files, i + 1, pad) == m[a.date := m[a.date][Column(a.item, pad) := DataArray(a.item.image)]]
  {
  }

  /** Each row of the partial frame is the row the first `i` files write. */
  lemma {:induction false} PartialFrameRows(files: seq<CoilScan>, i: int, pad: bool, d: Date)
    requires 0 <= i <= |files| && d in FileDates(files)
    ensures PartialFrame(files, i, pad)[d] == RowOf(files[..i], d, pad)
  {
    if i > 0 {
      PartialFrameRows(files, i - 1, pad, d);
      RowOfStep(files, i - 1, d, pad);
    }
  }

  /** Once every file is visited, each row is the one `RowOf` describes. */
  lemma {:induction false} CompleteRows(files: seq<CoilScan>, pad: bool)
    ensures forall d :: d in FileDates(files) ==> PartialFrame(files, |files|, pad)[d] == RowOf(files, d, pad)
  {
    forall d | d in FileDates(files) ensures PartialFrame(files, |files|, pad)[d] == RowOf(files, d, pad) {
      PartialFrameRows(files, |files|, pad, d);
      assert files[..|files|] == files;
    }
  }

  /** The DataFrame after the fill loop: one row per distinct file date
      (`sorted`, `set`, `list` of the dates), holding the cells the files
      of that date write. */
  function RawFrame(files: seq<CoilScan>, pad: bool): (m: map<Date, CoilRow>)
    ensures m.Keys == FileDates(files)
    ensures forall d :: d in m ==> m[d] == RowOf(files, d, pad)
  {
    CompleteRows(files, pad);
    PartialFrame(files, |files|, pad)
  }

  /** The fill loop of `create_dataframe_scanner` (`pad` false) and of
      `update_dataframe_scanner` (`pad` true): the DataFrame starts with an
      all-NaN row per distinct date and each file writes its cells. */
  method BuildFrame(files: seq<CoilScan>, pad: bool) returns (m: map<Date, CoilRow>)
    ensures m == RawFrame(files, pad)
  {
    m := map d | d in FileDates(files) :: map[];
    var i := 0;
    while i < |files|
      invariant 0 <= i <= |files|
      invariant m == PartialFrame(files, i, pad)
    {
      var a := files[i];
      PartialFrameNext(files, i, pad);
      m := m[a.date := m[a.date][Column(a.item, pad) := DataArray(a.item.image)]];
      i := i + 1;
    }
  }

  // --------------------------------------------------------- normalisation

  /** `signal_coils` after the first coil loop has visited `k` coils: the
      sum of the non-NaN signals among them. */
  function PresentTotal(row: CoilRow, k: int): real
    requires 0 <= k <= 32
  {
    if k == 0 then 0.0
    else
      var c := Coils()[k - 1];
      PresentTotal(row, k - 1) + (if c in row && row[c].signal.Some? then row[c].signal.value else 0.0)
  }

  /** A signal divided by the session total; the division by a zero total
      has no finite value. */
  function Share(x: real, total: real): Option<real>
  {
    if total == 0.0 then None else Some(x / total)
  }

  /** One cell as the second coil loop leaves it. */
  function NormalizedCell(cell: Cell, total: real): Cell
  {
    if cell.signal.Some? then cell.(signal := Share(cell.signal.value, total)) else cell
  }

  /** Every cell of the 32 coils divided by `total`; other columns kept. */
  function SharesOf(row: CoilRow, total: real): (r: CoilRow)
    ensures r.Keys == row.Keys
  {
    map c | c in row :: if c in Coils() then NormalizedCell(row[c], total) else row[c]
  }

  /** A row after both coil loops: each of the 32 coils with a signal gets
      its share of the total; NaN coils, coordinates and any other column
      are left as they are. */
  function NormalizedRow(row: CoilRow): CoilRow
  {
    SharesOf(row, PresentTotal(row, 32))
  }

  /** The first coil loop: the session's total signal. */
  method TotalSignal(row: CoilRow) returns (total: real)
    ensures total == PresentTotal(row, 32)
  {
    var coils := Coils();
    total := 0.0;
    var k := 0;
    while k < 32
      invariant 0 <= k <= 32
      invariant total == PresentTotal(row, k)
    {
      var c := coils[k];
      if c in row && row[c].signal.Some? {
        total := total + row[c].signal.value;
      }
      k := k + 1;
    }
  }

  /** The second coil loop: each coil's signal divided by the total. */
  method DivideSignals(row: CoilRow, total: real) returns (r: CoilRow)
    ensures r == SharesOf(row, total)
  {
    var coils := Coils();
    r := row;
    var k := 0;
    while k < 32
      invariant 0 <= k <= 32
      invariant r.Keys == row.Keys
      invariant forall c :: c in row ==> r[c] == if c in coils[..k] then NormalizedCell(row[c], total) else row[c]
    {
      var c := coils[k];
      if c in row {
        r := r[c := NormalizedCell(row[c], total)];
      }
      assert coils[..k + 1] == coils[..k] + [c];
      k := k + 1;
    }
    assert coils[..32] == coils;
  }

  /** The two coil loops of `create_dataframe_scanner` and
      `update_dataframe_scanner`, on one row. */
  method NormalizeRow(row: CoilRow) returns (r: CoilRow)
    ensures r == NormalizedRow(row)
  {
    var total := TotalSignal(row);
    r := DivideSignals(row, total);
  }

  function NormalizeFrame(m: map<Date, CoilRow>): (r: map<Date, CoilRow>)
    ensures r.Keys == m.Keys
  {
    map d | d in m :: NormalizedRow(m[d])
  }

  /** The `iterrows` loop: every row of the frame normalised. */
  method NormalizeAll(frame: map<Date, CoilRow>) returns (out: map<Date, CoilRow>)
    ensures out == NormalizeFrame(frame)
  {
    out := frame;
    var todo := frame.Keys;
    while todo != {}
      invariant todo <= frame.Keys && out.Keys == frame.Keys
      invariant forall d :: d in frame ==> out[d] == if d in todo then frame[d] else NormalizedRow(frame[d])
      decreases |todo|
    {
      Inhabited(todo);
      var d :| d in todo;
      var r := NormalizeRow(frame[d]);
      out := out[d := r];
      todo := todo - {d};
    }
    assert forall d :: d in frame ==> out[d] == NormalizeFrame(frame)[d];
  }

  lemma DivideSum(s: real, x: real, total: real)
    requires total != 0.0
    ensures s / total + x / total == (s + x) / total
  {
  }

  lemma DivideSelf(x: real)
    requires x != 0.0
    ensures x / x == 1.0
  {
  }

  lemma {:induction false} TotalOfShares(row: CoilRow, k: int, total: real)
    requires 0 <= k <= 32 && total != 0.0
    ensures PresentTotal(SharesOf(row, total), k) == PresentTotal(row, k) / total
  {
    if k > 0 {
      TotalOfShares(row, k - 1, total);
      var c := Coils()[k - 1];
      var r := SharesOf(row, total);
      var s := PresentTotal(row, k - 1);
      assert PresentTotal(r, k) == PresentTotal(r, k - 1) +
        (if c in r && r[c].signal.Some? then r[c].signal.value else 0.0);
      if c in row && row[c].signal.Some? {
        var x := row[c].signal.value;
        assert r[c] == NormalizedCell(row[c], total);
        DivideSum(s, x, total);
      } else if c in row {
        assert r[c] == row[c];
      }
    }
  }

  /** Normalisation keeps the columns and the coordinates of a row; a coil
      of the 32 with a signal gets that signal divided by the sum of the
      signals present; a NaN signal, and any column outside the 32, stays
      as it was. */
  lemma NormalizedCells(row: CoilRow, c: string)
    requires c in row
    ensures var r := NormalizedRow(row); var total := PresentTotal(row, 32);
      && r.Keys == row.Keys
      && r[c].com == row[c].com
      && (row[c].signal.None? ==> r[c].signal.None?)
      && (c in Coils() && row[c].signal.Some? && total != 0.0 ==> r[c].signal == Some(row[c].signal.value / total))
      && (c !in Coils() ==> r[c] == row[c])
  {
  }

  /** When the session's total signal is nonzero, the proportions of the
      coils present add up to one. */
  lemma SharesSumToOne(row: CoilRow)
    requires PresentTotal(row, 32) != 0.0
    ensures PresentTotal(NormalizedRow(row), 32) == 1.0
  {
    var total := PresentTotal(row, 32);
    TotalOfShares(row, 32, total);
    DivideSelf(total);
  }

  /** Normalising a row whose total is nonzero a second time changes
      nothing: its proportions already add up to one. */
  lemma NormalizeIdempotent(row: CoilRow)
    requires PresentTotal(row, 32) != 0.0
    ensures NormalizedRow(NormalizedRow(row)) == NormalizedRow(row)
  {
    var r := NormalizedRow(row);
    SharesSumToOne(row);
    forall c | c in r ensures NormalizedRow(r)[c] == r[c] {
      if c in Coils() && r[c].signal.Some? {
        assert r[c].signal.value / 1.0 == r[c].signal.value;
      }
    }
  }

  // ---------------------------------------------------------------- tables

  /** The table `create_dataframe_scanner` writes, with the coil label
      padded to two digits before choosing the column. */
  function Rebuild(files: seq<CoilScan>): Table<CoilRow>
  {
    SortIndex(NormalizeFrame(RawFrame(files, true)))
  }

  /** The table as `create_dataframe_scanner` writes it: the coil label is
      used as parsed, so a one-digit label selects a column outside the 32
      standard ones. */
  function RebuildAsWritten(files: seq<CoilScan>): Table<CoilRow>
  {
    SortIndex(NormalizeFrame(RawFrame(files, false)))
  }

  /** `create_dataframe_scanner`, with padded labels. */
  method CreateTable(files: seq<CoilScan>) returns (t: Table<CoilRow>)
    ensures t == Rebuild(files)
  {
    var frame := BuildFrame(files, true);
    var out := NormalizeAll(frame);
    t := SortIndex(out);
  }

  /** The rebuilt table has one row per distinct session date, in date
      order, each holding the normalised cells of the files of that date. */
  lemma RebuildRows(files: seq<CoilScan>)
    ensures var t := Rebuild(files);
      && Ascending(t)
      && |t| == |FileDates(files)|
      && DatesOf(t) == FileDates(files)
      && forall i :: 0 <= i < |t| ==> t[i].rec == NormalizedRow(RowOf(files, t[i].date, true))
  {
    var raw := RawFrame(files, true);
    DatesOfSortIndex(NormalizeFrame(raw));
    SortedRows(raw);
  }

  /** Each row of the sorted, normalised frame is the normalised row of
      its date. */
  lemma SortedRows(raw: map<Date, CoilRow>)
    ensures var t := SortIndex(NormalizeFrame(raw));
      forall i :: 0 <= i < |t| ==> t[i].date in raw && t[i].rec == NormalizedRow(raw[t[i].date])
  {
  }

  /** `update_dataframe_scanner`: read the files strictly before the first
      and strictly after the last date of the persisted table, build and
      normalise their rows, append and sort. An empty table has no first
      date. */
  function Extend(t: Table<CoilRow>, files: seq<CoilScan>): Result<Table<CoilRow>>
    requires Ascending(t)
  {
    if t == [] then Err(EmptyTable)
    else Ok(AppendSort(t, NormalizeFrame(RawFrame(Incoming(files, t), true))))
  }

  method UpdateTable(t: Table<CoilRow>, files: seq<CoilScan>) returns (r: Result<Table<CoilRow>>)
    requires Ascending(t)
    ensures r == Extend(t, files)
  {
    if t == [] {
      return Err(EmptyTable);
    }
    var before := Filter(files, Before(t[0].date));
    var after := Filter(files, After(t[|t| - 1].date));
    var frame := BuildFrame(before + after, true);
    var out := NormalizeAll(frame);
    r := Ok(AppendSort(t, out));
  }

  /** Extending keeps every existing row, adds one row per distinct date of
      the files read, all outside the table's date range, and leaves the
      table sorted with one row per date; each new row is the normalised
      row of the files read on its date. */
  lemma ExtendKeeps(t: Table<CoilRow>, files: seq<CoilScan>)
    requires Ascending(t) && t != []
    ensures Extend(t, files).Ok?
    ensures Extended(t, Extend(t, files).value, files)
    ensures var r := Extend(t, files).value;
      forall i :: 0 <= i < |r| && r[i] !in t ==>
        r[i].rec == NormalizedRow(RowOf(Incoming(files, t), r[i].date, true))
  {
    var m := NormalizeFrame(RawFrame(Incoming(files, t), true));
    MergeIncoming(t, files, m);
    NewRows(t, files);
  }

  lemma NewRows(t: Table<CoilRow>, files: seq<CoilScan>)
    requires Ascending(t) && t != []
    ensures var r := AppendSort(t, NormalizeFrame(RawFrame(Incoming(files, t), true)));
      forall i :: 0 <= i < |r| && r[i] !in t ==>
        r[i].rec == NormalizedRow(RowOf(Incoming(files, t), r[i].date, true))
  {
    var inc := Incoming(files, t);
    var raw := RawFrame(inc, true);
    var m := NormalizeFrame(raw);
    var r := AppendSort(t, m);
    IncomingDatesOutside(t, files, m);
    AppendSortKeeps(t, m);
    forall i | 0 <= i < |r| && r[i] !in t ensures r[i].rec == NormalizedRow(RowOf(inc, r[i].date, true)) {
      var d := r[i].date;
      assert d in m && r[i].rec == m[d];
      assert m[d] == NormalizedRow(raw[d]);
    }
  }

  /** A session row depends only on the files of its date, in order. */
  lemma {:induction false} RowOfDate(files: seq<CoilScan>, d: Date, pad: bool)
    ensures RowOf(files, d, pad) == RowOf(OfDate(files, d), d, pad)
  {
    if files != [] {
      var n := |files| - 1;
      RowOfDate(files[..n], d, pad);
      var o := OfDate(files[..n], d);
      if files[n].date == d {
        assert (o + [files[n]])[..|o|] == o;
      } else {
        assert o + [] == o;
      }
    }
  }

  /** Extending a rebuilt table with files dated outside its range gives
      the table that rebuilding from all the files gives. */
  lemma ExtendAgreesWithRebuild(seen: seq<CoilScan>, later: seq<CoilScan>)
    requires Rebuild(seen) != []
    requires var t := Rebuild(seen);
      forall i :: 0 <= i < |later| ==> later[i].date < t[0].date || later[i].date > Last(t).date
    ensures Extend(Rebuild(seen), seen + later) == Ok(Rebuild(seen + later))
  {
    var t := Rebuild(seen);
    RebuildRows(seen);
    CoversDates(t, seen);
    MergedFrames(t, seen, later);
    FrameOfSortIndex(NormalizeFrame(RawFrame(seen, true)));
  }

  /** The frame of the earlier files merged with the frame of the files an
      update reads is the frame of all the files. */
  lemma MergedFrames(t: Table<CoilRow>, seen: seq<CoilScan>, later: seq<CoilScan>)
    requires Ascending(t) && Covers(t, seen)
    requires forall i :: 0 <= i < |later| ==> later[i].date < t[0].date || later[i].date > Last(t).date
    ensures NormalizeFrame(RawFrame(seen, true)) + NormalizeFrame(RawFrame(Incoming(seen + later, t), true))
      == NormalizeFrame(RawFrame(seen + later, true))
  {
    var all := seen + later;
    var inc := Incoming(all, t);
    IncomingOfLater(t, seen, later);
    FileDatesAppend(seen, later);
    var r0 := RawFrame(seen, true);
    var r1 := RawFrame(inc, true);
    var rb := RawFrame(all, true);
    var m0 := NormalizeFrame(r0);
    var m1 := NormalizeFrame(r1);
    var big := NormalizeFrame(rb);
    assert (m0 + m1).Keys == big.Keys;
    forall d | d in big ensures (m0 + m1)[d] == big[d] {
      MergedRow(t, seen, later, d);
      assert big[d] == NormalizedRow(rb[d]);
      if d in m1 {
        assert m1[d] == NormalizedRow(r1[d]);
      } else {
        assert m0[d] == NormalizedRow(r0[d]);
      }
    }
    SameEntries(m0 + m1, big);
  }

  /** Each date's row of all the files is the row of the files read on it
      by the update, or else the row of the earlier files. */
  lemma MergedRow(t: Table<CoilRow>, seen: seq<CoilScan>, later: seq<CoilScan>, d: Date)
    requires Ascending(t) && Covers(t, seen)
    requires forall i :: 0 <= i < |later| ==> later[i].date < t[0].date || later[i].date > Last(t).date
    ensures d in FileDates(later) ==> RowOf(Incoming(seen + later, t), d, true) == RowOf(seen + later, d, true)
    ensures d !in FileDates(later) ==> RowOf(seen, d, true) == RowOf(seen + later, d, true)
  {
    SeenLaterDisjoint(t, seen, later);
    OfDateOfLater(t, seen, later, d);
    RowOfDate(seen + later, d, true);
    RowOfDate(Incoming(seen + later, t), d, true);
    RowOfDate(seen, d, true);
  }

  /** An update that finds no file outside the table's range returns the
      table unchanged. */
  lemma ExtendNothingNew(t: Table<CoilRow>, files: seq<CoilScan>)
    requires Ascending(t)
    requires Covers(t, files)
    ensures Extend(t, files) == Ok(t)
  {
    IncomingEmpty(files, t);
    var m := NormalizeFrame(RawFrame([], true));
    assert m.Keys == {};
    assert m == map[];
    AppendNothing(t);
  }

  /** Running the update twice reads nothing the second time: after one
      update with these files, a second one changes nothing. */
  lemma ExtendTwice(t: Table<CoilRow>, files: seq<CoilScan>)
    requires Ascending(t) && t != []
    ensures Extend(t, files).Ok?
    ensures var r := Extend(t, files).value;
      Ascending(r) && Extend(r, files) == Ok(r)
  {
    ExtendKeeps(t, files);
    ExtendNothingNew(Extend(t, files).value, files);
  }

  // ------------------------------------------- one-digit labels at creation

  /** The session total of a row holding one standard coil is that coil's
      signal. */
  lemma {:induction false} TotalOfOneCoil(row: CoilRow, j: int, x: real, k: int)
    requires 0 <= j < 32 && 0 <= k <= 32
    requires row.Keys == {Coils()[j]} && row[Coils()[j]].signal == Some(x)
    ensures PresentTotal(row, k) == if k > j then x else 0.0
  {
    if k > 0 {
      TotalOfOneCoil(row, j, x, k - 1);
      CoilsDistinct();
    }
  }

  /** With padding, every file naming a coil from 1 to 32 fills that coil's
      standard columns in the row of its date. */
  lemma PaddedFileFillsItsCoil(files: seq<CoilScan>, i: int)
    requires 0 <= i < |files|
    requires 1 <= TagValue(files[i].item.tag) <= 32
    ensures var t := Rebuild(files);
      exists k :: 0 <= k < |t| && t[k].date == files[i].date && Coils()[TagValue(files[i].item.tag) - 1] in t[k].rec
  {
    var t := Rebuild(files);
    var d := files[i].date;
    var c := Coils()[TagValue(files[i].item.tag) - 1];
    PaddedTagIsStandard(files[i].item.tag);
    InRowOf(files, d, true, c);
    RebuildRows(files);
    assert d in FileDates(files);
    assert d in DatesOf(t);
    var k :| 0 <= k < |t| && t[k].date == d;
    assert c in SharesOf(RowOf(files, d, true), PresentTotal(RowOf(files, d, true), 32));
  }

  /** The table built from a single file: one row, holding that file's
      cells. */
  lemma SingleFile(files: seq<CoilScan>, pad: bool)
    requires |files| == 1
    ensures var t := SortIndex(NormalizeFrame(RawFrame(files, pad)));
      && |t| == 1 && t[0].date == files[0].date
      && t[0].rec == NormalizedRow(map[Column(files[0].item, pad) := DataArray(files[0].item.image)])
  {
    var d := files[0].date;
    var f := files[0].item;
    assert FileDates(files) == {d};
    assert files[..0] == [];
    assert RowOf(files[..0], d, pad) == map[];
    var row := RowOf(files, d, pad);
    assert row == map[Column(f, pad) := DataArray(f.image)];
    var raw := RawFrame(files, pad);
    var m := NormalizeFrame(raw);
    assert raw[d] == row;
    assert m[d] == NormalizedRow(row);
    assert m.Keys == {d};
    DatesOfSortIndex(m);
    var t := SortIndex(m);
    assert t[0].date in m;
  }

  /** A one-digit label as `create_dataframe_scanner` writes it: the file of
      coil 1 lands in a column `C1` that the normalisation and the summary
      never read, its coil's `C01` columns stay NaN and its raw signal is
      left unnormalised. */
  lemma UnpaddedLabelMissesColumn(files: seq<CoilScan>)
    requires |files| == 1 && files[0].item.tag == "1"
    ensures var t := RebuildAsWritten(files);
      && |t| == 1 && "01" !in t[0].rec
      && "1" in t[0].rec && t[0].rec["1"].signal == Some(Sum3(files[0].item.image))
  {
    SingleFile(files, false);
    UnpaddedRow(files[0].item.image);
  }

  lemma UnpaddedRow(v: Vol)
    ensures var r := NormalizedRow(map["1" := DataArray(v)]);
      "01" !in r && "1" in r && r["1"].signal == Some(Sum3(v))
  {
    var row := map["1" := DataArray(v)];
    OneDigitIsNoCoil("1");
    OtherColumnKept(row, PresentTotal(row, 32), "1");
  }

  /** Every standard suffix has two digits, so a one-digit label is none. */
  lemma OneDigitIsNoCoil(c: string)
    requires |c| == 1
    ensures c !in Coils()
  {
  }

  /** Normalisation leaves a column outside the 32 standard ones as it is. */
  lemma OtherColumnKept(row: CoilRow, total: real, c: string)
    requires c in row && c !in Coils()
    ensures c in SharesOf(row, total) && SharesOf(row, total)[c] == row[c]
  {
  }

  lemma OneCoilShare(row: CoilRow, x: real)
    requires x != 0.0
    requires row.Keys == {"01"} && row["01"].signal == Some(x)
    ensures "01" in NormalizedRow(row) && NormalizedRow(row)["01"].signal == Some(1.0)
  {
    assert Coils()[0] == "01";
    TotalOfOneCoil(row, 0, x, 32);
    DivideSelf(x);
  }

  lemma PadOne()
    ensures Pad2("1") == "01"
  {
  }

  /** The same file with its label padded gives coil 1's `C01` column a
      proportion of one, the whole signal of the session, whenever its
      image has any signal. */
  lemma PaddedLabelFillsColumn(files: seq<CoilScan>)
    requires |files| == 1 && files[0].item.tag == "1" && Sum3(files[0].item.image) != 0.0
    ensures var t := Rebuild(files);
      |t| == 1 && "01" in t[0].rec && t[0].rec["01"].signal == Some(1.0)
  {
    var v := files[0].item.image;
    SingleFile(files, true);
    assert Column(files[0].item, true) == "01" by {
      PadOne();
    }
    PaddedRow(v);
  }

  lemma PaddedRow(v: Vol)
    requires Sum3(v) != 0.0
    ensures var r := NormalizedRow(map["01" := DataArray(v)]);
      "01" in r && r["01"].signal == Some(1.0)
  {
    OneCoilShare(map["01" := DataArray(v)], Sum3(v));
  }
}
