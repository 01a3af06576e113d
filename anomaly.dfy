/** The short anomaly table of the T1 script: for every session, the
    largest deviation of a coil's centre of mass from its rolling median
    over the last five sessions, the largest deviation of a coil's signal
    proportion, and the coil with the largest centre-of-mass deviation. */
module Anomaly {
  import opened Outcomes
  import Stats
  import opened Sessions
  import opened CoilCheck

  /** The four columns kept for each coil, in table order. */
  datatype Measure = X | Y | Z | P

  /** A cell of the table; NaN where the coil has no value. */
  function Value(row: CoilRow, c: string, q: Measure): Option<real>
  {
    if c !in row then None
    else
      var cell := row[c];
      match q
      case X => if cell.com.Some? then Some(cell.com.value.x) else None
      case Y => if cell.com.Some? then Some(cell.com.value.y) else None
      case Z => if cell.com.Some? then Some(cell.com.value.z) else None
      case P => cell.signal
  }

  /** The column's values in rows `i - 4 .. i`, the window of
      `rolling(5)`. */
  function WindowCells(t: Table<CoilRow>, i: int, c: string, q: Measure): (w: seq<Option<real>>)
    requires 4 <= i < |t|
    ensures |w| == 5 && forall k :: 0 <= k < 5 ==> w[k] == Value(t[i - 4 + k].rec, c, q)
  {
    seq(5, k requires 0 <= k < 5 => Value(t[i - 4 + k].rec, c, q))
  }

  /** pandas' `rolling(5).median()` at row `i`: NaN in the first four rows
      and whenever a value of the window is NaN (the window needs all five
      values), else the median of the five. */
  function RollingMedian(t: Table<CoilRow>, i: int, c: string, q: Measure): Option<real>
    requires 0 <= i < |t|
  {
    if i < 4 then None
    else
      match AllPresent(WindowCells(t, i, c, q))
      case None => None
      case Some(w) => Stats.Median(w)
  }

  /** `df_full - df_median` at one cell. */
  function Deviation(t: Table<CoilRow>, i: int, c: string, q: Measure): (d: Option<real>)
    requires 0 <= i < |t|
  {
    var v := Value(t[i].rec, c, q);
    var m := RollingMedian(t, i, c, q);
    if v.Some? && m.Some? then Some(v.value - m.value) else None
  }

  /** `dx * dx + dy * dy + dz * dz`, NaN when any term is NaN. */
  function SquaredNorm(dx: Option<real>, dy: Option<real>, dz: Option<real>): (r: Option<real>)
    ensures r.Some? <==> dx.Some? && dy.Some? && dz.Some?
    ensures r.Some? ==> r.value >= 0.0
  {
    if dx.Some? && dy.Some? && dz.Some? then
      Stats.Square(dx.value); Stats.Square(dy.value); Stats.Square(dz.value);
      Some(dx.value * dx.value + dy.value * dy.value + dz.value * dz.value)
    else None
  }

  /** The argument of the square root in `max_dev`: the squared distance
      of the coil's centre of mass from its rolling median. */
  function SpatialDevSq(t: Table<CoilRow>, i: int, c: string): Option<real>
    requires 0 <= i < |t|
  {
    SquaredNorm(Deviation(t, i, c, X), Deviation(t, i, c, Y), Deviation(t, i, c, Z))
  }

  function Abs(x: real): real
  {
    if x < 0.0 then -x else x
  }

  /** `max_prop`: `sqrt(d * d) * 100`, that is `|d| * 100`, for the
      proportion deviation `d`. */
  function PropDev(t: Table<CoilRow>, i: int, c: string): (r: Option<real>)
    requires 0 <= i < |t|
    ensures r.Some? ==> r.value >= 0.0
  {
    var d := Deviation(t, i, c, P);
    if d.Some? then Some(Abs(d.value) * 100.0) else None
  }

  // ------------------------------------------------------- running maxima

  /** The three running values of the coil loop: `max_dev_coils` (kept
      squared: the square root is monotone, so comparing squares picks the
      same coil), `max_prop_coils`, and the index of `max_coil` in the coil
      list. */
  datatype Pick = Pick(devSq: real, prop: real, coil: int)

  predicate Present(s: seq<Option<real>>)
  {
    exists k :: 0 <= k < |s| && s[k].Some?
  }

  /** The coil loop over candidates `devs` and `props`: both running maxima
      start at 0 and the coil at the first one; a candidate at least as
      large as the running maximum replaces it (`>=`), and a NaN candidate
      compares false. */
  function Best(devs: seq<Option<real>>, props: seq<Option<real>>): (p: Pick)
    requires |devs| == |props|
    ensures 0 <= p.coil && (devs != [] ==> p.coil < |devs|)
  {
    if devs == [] then Pick(0.0, 0.0, 0)
    else
      var n := |devs| - 1;
      var p := Best(devs[..n], props[..n]);
      var p1 := if devs[n].Some? && devs[n].value >= p.devSq then Pick(devs[n].value, p.prop, n) else p;
      if props[n].Some? && props[n].value >= p1.prop then p1.(prop := props[n].value) else p1
  }

  /** `max_dev` is the largest spatial deviation and `max_coil` the LAST
      coil attaining it; a NaN deviation never wins; with no deviation at
      all the maximum stays 0 and the coil the first one. */
  lemma {:induction false} BestDeviation(devs: seq<Option<real>>, props: seq<Option<real>>)
    requires |devs| == |props|
    requires forall k :: 0 <= k < |devs| && devs[k].Some? ==> devs[k].value >= 0.0
    ensures var p := Best(devs, props);
      && p.devSq >= 0.0
      && (forall k :: 0 <= k < |devs| && devs[k].Some? ==> devs[k].value <= p.devSq)
      && (Present(devs) ==>
            devs[p.coil] == Some(p.devSq) &&
            forall k :: p.coil < k < |devs| ==> devs[k] != Some(p.devSq))
      && (!Present(devs) ==> p.devSq == 0.0 && p.coil == 0)
  {
    if devs != [] {
      var n := |devs| - 1;
      var d', p' := devs[..n], props[..n];
      forall k | 0 <= k < n ensures d'[k] == devs[k] {
      }
      BestDeviation(d', p');
      var q := Best(d', p');
      if devs[n].Some? && devs[n].value >= q.devSq {
      } else {
        if devs[n].Some? {
          assert devs[n].value < q.devSq;
          assert Present(d');
          var k :| 0 <= k < n && d'[k].Some?;
          assert devs[k].Some?;
        }
        assert Present(devs) ==> Present(d') by {
          if Present(devs) {
            var k :| 0 <= k < |devs| && devs[k].Some?;
            if k < n {
              assert d'[k].Some?;
            }
          }
        }
      }
    }
  }

  /** `max_prop_dev` is the largest proportion deviation, 0 when there is
      none. */
  lemma {:induction false} BestProportion(devs: seq<Option<real>>, props: seq<Option<real>>)
    requires |devs| == |props|
    requires forall k :: 0 <= k < |props| && props[k].Some? ==> props[k].value >= 0.0
    ensures var p := Best(devs, props);
      && p.prop >= 0.0
      && (forall k :: 0 <= k < |props| && props[k].Some? ==> props[k].value <= p.prop)
      && (Present(props) ==> exists k :: 0 <= k < |props| && props[k] == Some(p.prop))
      && (!Present(props) ==> p.prop == 0.0)
  {
    if devs != [] {
      var n := |devs| - 1;
      var d', p' := devs[..n], props[..n];
      forall k | 0 <= k < n ensures p'[k] == props[k] {
      }
      BestProportion(d', p');
      var q := Best(d', p');
      assert Best(devs, props).prop == if props[n].Some? && props[n].value >= q.prop then props[n].value else q.prop;
      if Present(props) && !(props[n].Some? && props[n].value >= q.prop) {
        if props[n].Some? {
          assert Present(p');
        } else {
          var k :| 0 <= k < |props| && props[k].Some?;
          assert k < n && p'[k].Some?;
        }
        var k :| 0 <= k < n && p'[k] == Some(q.prop);
        assert props[k] == Some(q.prop);
      }
      if !Present(props) {
        assert forall k :: 0 <= k < n ==> p'[k].None?;
      }
    }
  }

  /** The proportion candidates never change the chosen coil or `max_dev`. */
  lemma {:induction false} CoilIgnoresProportions(devs: seq<Option<real>>, props: seq<Option<real>>, props': seq<Option<real>>)
    requires |devs| == |props| == |props'|
    ensures Best(devs, props).devSq == Best(devs, props').devSq
    ensures Best(devs, props).coil == Best(devs, props').coil
  {
    if devs != [] {
      var n := |devs| - 1;
      CoilIgnoresProportions(devs[..n], props[..n], props'[..n]);
    }
  }

  // -------------------------------------------------------------- summary

  /** One row of the short table: `max_dev`, kept squared, `max_prop_dev`
      and `coil`. */
  datatype Summary = Summary(maxDevSq: real, maxPropDev: real, coil: string)

  function Devs(t: Table<CoilRow>, i: int): (s: seq<Option<real>>)
    requires 0 <= i < |t|
    ensures |s| == 32 && forall k :: 0 <= k < 32 ==> s[k] == SpatialDevSq(t, i, Coils()[k])
  {
    seq(32, k requires 0 <= k < 32 => SpatialDevSq(t, i, Coils()[k]))
  }

  function Props(t: Table<CoilRow>, i: int): (s: seq<Option<real>>)
    requires 0 <= i < |t|
    ensures |s| == 32 && forall k :: 0 <= k < 32 ==> s[k] == PropDev(t, i, Coils()[k])
  {
    seq(32, k requires 0 <= k < 32 => PropDev(t, i, Coils()[k]))
  }

  /** The summary of row `i`, before the first rows are dropped. */
  function SummaryAt(t: Table<CoilRow>, i: int): Row<Summary>
    requires 0 <= i < |t|
  {
    var p := Best(Devs(t, i), Props(t, i));
    Row(t[i].date, Summary(p.devSq, p.prop, Coils()[p.coil]))
  }

  /** The summaries of the first `n` sessions, in table order. */
  function SummariesUpTo(t: Table<CoilRow>, n: int): (s: Table<Summary>)
    requires 0 <= n <= |t|
    ensures |s| == n
  {
    if n == 0 then [] else SummariesUpTo(t, n - 1) + [SummaryAt(t, n - 1)]
  }

  lemma {:induction false} SummariesUpToAt(t: Table<CoilRow>, n: int)
    requires 0 <= n <= |t|
    ensures forall i :: 0 <= i < n ==> SummariesUpTo(t, n)[i] == SummaryAt(t, i)
  {
    if n > 0 {
      SummariesUpToAt(t, n - 1);
    }
  }

  /** The summary rows of every session, in table order. */
  function AllSummaries(t: Table<CoilRow>): (s: Table<Summary>)
    ensures |s| == |t| && forall i :: 0 <= i < |t| ==> s[i] == SummaryAt(t, i)
  {
    SummariesUpToAt(t, |t|);
    SummariesUpTo(t, |t|)
  }

  /** The rows whose date is not among `labels`, in order. */
  function Without<R>(rows: Table<R>, labels: set<Date>): Table<R>
  {
    if rows == [] then []
    else
      var n := |rows| - 1;
      Without(rows[..n], labels) + (if rows[n].date in labels then [] else [rows[n]])
  }

  /** `df_short.drop(df_short.index[0:4])`: every row whose date is one of
      the first four dates is dropped. */
  function DropWarmUp<R>(rows: Table<R>): Table<R>
  {
    Without(rows, set k | 0 <= k < |rows| && k < 4 :: rows[k].date)
  }

  /** `create_dataframe_scanner_short`. */
  function SummaryTable(t: Table<CoilRow>): Table<Summary>
  {
    DropWarmUp(AllSummaries(t))
  }

  /** The coil loop of `create_dataframe_scanner_short` for one session,
      over the candidates of its 32 coils. */
  method PickCoil(devs: seq<Option<real>>, props: seq<Option<real>>) returns (p: Pick)
    requires |devs| == |props|
    ensures p == Best(devs, props)
  {
    var maxDev, maxProp, maxCoil := 0.0, 0.0, 0;
    var k := 0;
    while k < |devs|
      invariant 0 <= k <= |devs|
      invariant Pick(maxDev, maxProp, maxCoil) == Best(devs[..k], props[..k])
    {
      assert devs[..k + 1][..k] == devs[..k] && props[..k + 1][..k] == props[..k];
      if devs[k].Some? && devs[k].value >= maxDev {
        maxDev, maxCoil := devs[k].value, k;
      }
      if props[k].Some? && props[k].value >= maxProp {
        maxProp := props[k].value;
      }
      k := k + 1;
    }
    assert devs[..k] == devs && props[..k] == props;
    p := Pick(maxDev, maxProp, maxCoil);
  }

  /** One pass of the row loop: the coil loop over session `i`. */
  method SummariseSession(t: Table<CoilRow>, i: int, coils: seq<string>) returns (row: Row<Summary>)
    requires 0 <= i < |t| && coils == Coils()
    ensures row == SummaryAt(t, i)
  {
    var p := PickCoil(Devs(t, i), Props(t, i));
    row := Row(t[i].date, Summary(p.devSq, p.prop, coils[p.coil]));
  }

  /** The row loop of `create_dataframe_scanner_short`, running the coil
      loop for every session. */
  method SummariseAll(t: Table<CoilRow>) returns (rows: Table<Summary>)
    ensures rows == AllSummaries(t)
  {
    var coils := Coils();
    rows := [];
    var i := 0;
    while i < |t|
      invariant 0 <= i <= |t|
      invariant rows == SummariesUpTo(t, i)
    {
      var row := SummariseSession(t, i, coils);
      rows := rows + [row];
      i := i + 1;
    }
  }

  /** `create_dataframe_scanner_short`: the row loop followed by the drop
      of the first four rows. */
  method Summarise(t: Table<CoilRow>) returns (out: Table<Summary>)
    ensures out == SummaryTable(t)
  {
    var rows := SummariseAll(t);
    out := DropWarmUp(rows);
  }

  // ------------------------------------------------------- shape of table

  lemma {:induction false} WithoutPrefix<R>(rows: Table<R>, labels: set<Date>, m: int)
    requires Ascending(rows) && 0 <= m <= |rows|
    requires labels == set k | 0 <= k < |rows| && k < 4 :: rows[k].date
    ensures Without(rows[..m], labels) == if m <= 4 then [] else rows[4..m]
  {
    if m > 0 {
      var n := m - 1;
      assert rows[..m][..n] == rows[..n];
      WithoutPrefix(rows, labels, n);
      if n < 4 {
        assert rows[n].date in labels;
      } else {
        assert rows[n].date !in labels by {
          forall k | 0 <= k < |rows| && k < 4 ensures rows[k].date != rows[n].date {
          }
        }
        if n == 4 {
          assert rows[4..m] == [rows[n]];
        } else {
          assert rows[4..m] == rows[4..n] + [rows[n]];
        }
      }
    }
  }

  /** For a table with one row per date, the short table has `n - 4` rows
      (none when `n <= 4`), and its row `k` summarises input row `k + 4`. */
  lemma SummaryShape(t: Table<CoilRow>)
    requires Ascending(t)
    ensures var s := SummaryTable(t);
      && |s| == (if |t| <= 4 then 0 else |t| - 4)
      && forall k :: 0 <= k < |s| ==> s[k] == SummaryAt(t, k + 4)
  {
    var all := AllSummaries(t);
    AscendingSameDates(t, all);
    DropWarmUpShape(all);
  }

  /** Dropping the warm-up from a table with one row per date removes
      exactly its first four rows. */
  lemma DropWarmUpShape<R>(rows: Table<R>)
    requires Ascending(rows)
    ensures DropWarmUp(rows) == if |rows| <= 4 then [] else rows[4..]
  {
    WithoutPrefix(rows, set k | 0 <= k < |rows| && k < 4 :: rows[k].date, |rows|);
    assert rows[..|rows|] == rows;
  }

  // ------------------------------------------------------- rolling window

  /** The first four rows have no rolling median. */
  lemma WarmUpHasNoMedian(t: Table<CoilRow>, i: int, c: string, q: Measure)
    requires 0 <= i < 4 && i < |t|
    ensures RollingMedian(t, i, c, q).None?
    ensures Deviation(t, i, c, q).None?
  {
  }

  /** From the fifth row on, the rolling median is the median of the
      column's five values in rows `i - 4 .. i`, when all five are present. */
  lemma WindowMedian(t: Table<CoilRow>, i: int, c: string, q: Measure, w: seq<real>)
    requires 4 <= i < |t| && |w| == 5
    requires forall j :: i - 4 <= j <= i ==> Value(t[j].rec, c, q) == Some(w[j - i + 4])
    ensures RollingMedian(t, i, c, q) == Stats.Median(w)
  {
    var cells := WindowCells(t, i, c, q);
    forall k | 0 <= k < 5 ensures cells[k] == Some(w[k]) {
      assert Value(t[i - 4 + k].rec, c, q) == Some(w[(i - 4 + k) - i + 4]);
    }
    var r := AllPresent(cells);
    assert r.value == w;
  }

  /** A column whose value in rows `i - 4 .. i` equals the one in row `i`. */
  predicate SteadyColumn(t: Table<CoilRow>, i: int, c: string, q: Measure)
    requires 4 <= i < |t|
  {
    Value(t[i].rec, c, q).Some? &&
    forall j :: i - 4 <= j <= i ==> Value(t[j].rec, c, q) == Value(t[i].rec, c, q)
  }

  /** A column that held the same value over the last five sessions has no
      deviation. */
  lemma SteadyHasNoDeviation(t: Table<CoilRow>, i: int, c: string, q: Measure)
    requires 4 <= i < |t| && SteadyColumn(t, i, c, q)
    ensures Deviation(t, i, c, q) == Some(0.0)
  {
    var v := Value(t[i].rec, c, q).value;
    var w := seq(5, k requires 0 <= k < 5 => v);
    WindowMedian(t, i, c, q, w);
    Stats.MedianOfConstant(w, v);
  }

  /** A coil whose four values held steady over the window. */
  predicate Steady(t: Table<CoilRow>, i: int, c: string)
    requires 4 <= i < |t|
  {
    SteadyColumn(t, i, c, X) && SteadyColumn(t, i, c, Y) && SteadyColumn(t, i, c, Z) && SteadyColumn(t, i, c, P)
  }

  lemma SteadyCoil(t: Table<CoilRow>, i: int, c: string)
    requires 4 <= i < |t| && Steady(t, i, c)
    ensures SpatialDevSq(t, i, c) == Some(0.0) && PropDev(t, i, c) == Some(0.0)
  {
    SteadyPosition(t, i, c);
    SteadyHasNoDeviation(t, i, c, P);
  }

  lemma SteadyPosition(t: Table<CoilRow>, i: int, c: string)
    requires 4 <= i < |t|
    requires SteadyColumn(t, i, c, X) && SteadyColumn(t, i, c, Y) && SteadyColumn(t, i, c, Z)
    ensures SpatialDevSq(t, i, c) == Some(0.0)
  {
    SteadyHasNoDeviation(t, i, c, X);
    SteadyHasNoDeviation(t, i, c, Y);
    SteadyHasNoDeviation(t, i, c, Z);
    NormOfNoDeviation(t, i, c);
  }

  lemma NormOfNoDeviation(t: Table<CoilRow>, i: int, c: string)
    requires 0 <= i < |t|
    requires Deviation(t, i, c, X) == Some(0.0) && Deviation(t, i, c, Y) == Some(0.0) && Deviation(t, i, c, Z) == Some(0.0)
    ensures SpatialDevSq(t, i, c) == Some(0.0)
  {
    ZeroNorm();
  }

  lemma ZeroNorm()
    ensures SquaredNorm(Some(0.0), Some(0.0), Some(0.0)) == Some(0.0)
  {
  }

  /** When all 32 coils held steady, every deviation is 0 and, because
      ties go to the later coil, the summary names coil 32. */
  lemma SteadySessionNamesLastCoil(t: Table<CoilRow>, i: int)
    requires 4 <= i < |t|
    requires forall k :: 0 <= k < 32 ==> Steady(t, i, Coils()[k])
    ensures SummaryAt(t, i).rec == Summary(0.0, 0.0, "32")
  {
    var devs, props := Devs(t, i), Props(t, i);
    forall k | 0 <= k < 32 ensures devs[k] == Some(0.0) && props[k] == Some(0.0) {
      SteadyCoil(t, i, Coils()[k]);
    }
    BestOfZeros(devs, props);
    LastCoilName();
  }

  /** With no deviation anywhere both maxima stay 0 and, every coil tying,
      the `>=` comparison hands the session to the last coil. */
  lemma {:induction false} BestOfZeros(devs: seq<Option<real>>, props: seq<Option<real>>)
    requires |devs| == |props| > 0
    requires forall k :: 0 <= k < |devs| ==> devs[k] == Some(0.0) && props[k] == Some(0.0)
    ensures Best(devs, props) == Pick(0.0, 0.0, |devs| - 1)
  {
    var n := |devs| - 1;
    if n > 0 {
      assert forall k :: 0 <= k < n ==> devs[..n][k] == devs[k] && props[..n][k] == props[k];
      BestOfZeros(devs[..n], props[..n]);
    }
  }

  /** A deviation larger than every other one wins, whatever its position:
      `max_dev` is that deviation and the coil is its coil. */
  lemma BestUniqueMax(devs: seq<Option<real>>, props: seq<Option<real>>, j: int)
    requires |devs| == |props| && 0 <= j < |devs| && devs[j].Some?
    requires forall k :: 0 <= k < |devs| && devs[k].Some? ==> devs[k].value >= 0.0
    requires forall k :: 0 <= k < |devs| && k != j && devs[k].Some? ==> devs[k].value < devs[j].value
    ensures Best(devs, props).coil == j && Best(devs, props).devSq == devs[j].value
  {
    BestDeviation(devs, props);
    assert Present(devs);
  }

  /** A session whose coil `j` moved further than every other coil is
      summarised by that coil and its deviation. */
  lemma OutlierNamesItsCoil(t: Table<CoilRow>, i: int, j: int)
    requires 0 <= i < |t| && 0 <= j < 32 && SpatialDevSq(t, i, Coils()[j]).Some?
    requires forall k :: 0 <= k < 32 && k != j && SpatialDevSq(t, i, Coils()[k]).Some? ==>
               SpatialDevSq(t, i, Coils()[k]).value < SpatialDevSq(t, i, Coils()[j]).value
    ensures SummaryAt(t, i).rec.coil == Coils()[j]
    ensures SummaryAt(t, i).rec.maxDevSq == SpatialDevSq(t, i, Coils()[j]).value
  {
    var devs := Devs(t, i);
    BestUniqueMax(devs, Props(t, i), j);
  }

  lemma LastCoilName()
    ensures Coils()[31] == "32"
  {
    assert Coils()[31] == TwoDigits(32);
  }
}
