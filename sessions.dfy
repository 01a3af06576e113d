/** Date-indexed acquisitions and tables, shared by both preprocessing
    scripts: the strict before/after date filters, the DataFrame that
    keeps one row per distinct session date, pandas' `sort_index`, and the
    append-then-sort merge of new sessions into the persisted table. */
module Sessions {
  import opened Outcomes

  /** A session date `yyyymmdd` read as an integer, so integer order is
      calendar order. */
  type Date = int

  /** One acquisition file: the date read from its name and what the file
      holds. */
  datatype Acq<P> = Acq(date: Date, item: P)

  /** The comparison a date filter applies to each file's date. */
  datatype Bound = Before(limit: Date) | After(limit: Date)

  predicate Passes(b: Bound, d: Date)
  {
    match b
    case Before(limit) => d < limit
    case After(limit) => d > limit
  }

  /** The files a date filter keeps, in their original order. */
  function Keep<P(!new)>(files: seq<Acq<P>>, b: Bound): (r: seq<Acq<P>>)
    ensures |r| <= |files|
  {
    if files == [] then []
    else
      var n := |files| - 1;
      Keep(files[..n], b) + (if Passes(b, files[n].date) then [files[n]] else [])
  }

  /** A filter keeps exactly the files whose date passes it. */
  lemma {:induction false} KeepMembers<P(!new)>(files: seq<Acq<P>>, b: Bound)
    ensures forall a :: a in Keep(files, b) <==> a in files && Passes(b, a.date)
  {
    if files != [] {
      var n := |files| - 1;
      KeepMembers(files[..n], b);
      assert files == files[..n] + [files[n]];
    }
  }

  /** A filter that every file passes keeps the list as it is. */
  lemma {:induction false} KeepAll<P(!new)>(files: seq<Acq<P>>, b: Bound)
    requires forall i :: 0 <= i < |files| ==> Passes(b, files[i].date)
    ensures Keep(files, b) == files
  {
    if files != [] {
      var n := |files| - 1;
      var p := files[..n];
      forall i | 0 <= i < |p| ensures Passes(b, p[i].date) {
        assert p[i] == files[i];
      }
      KeepAll(p, b);
      assert Passes(b, files[n].date);
      assert Keep(files, b) == Keep(p, b) + [files[n]];
      assert files == p + [files[n]];
    }
  }

  /** A filter that no file passes keeps nothing. */
  lemma {:induction false} KeepNone<P(!new)>(files: seq<Acq<P>>, b: Bound)
    requires forall i :: 0 <= i < |files| ==> !Passes(b, files[i].date)
    ensures Keep(files, b) == []
  {
    if files != [] {
      KeepNone(files[..|files| - 1], b);
    }
  }

  /** The distinct dates of a list of files. */
  function FileDates<P>(files: seq<Acq<P>>): set<Date>
  {
    set i | 0 <= i < |files| :: files[i].date
  }

  /** The loop of `filter_file_list_scanner_before` (with `Before`) and of
      `filter_file_list_scanner_after` (with `After`). */
  method Filter<P(!new)>(files: seq<Acq<P>>, b: Bound) returns (r: seq<Acq<P>>)
    ensures r == Keep(files, b)
    ensures forall a :: a in r <==> a in files && Passes(b, a.date)
  {
    r := [];
    var i := 0;
    while i < |files|
      invariant 0 <= i <= |files|
      invariant r == Keep(files[..i], b)
    {
      assert files[..i + 1][..i] == files[..i];
      if Passes(b, files[i].date) {
        r := r + [files[i]];
      }
      i := i + 1;
    }
    assert files[..i] == files;
    KeepMembers(files, b);
  }

  // ------------------------------------------------------------------ tables

  /** A table row: its date index and the record stored under it. */
  datatype Row<R> = Row(date: Date, rec: R)

  type Table<R> = seq<Row<R>>

  /** Sorted by date with one row per date, as every table the scripts
      write is. */
  predicate Ascending<R>(t: Table<R>)
  {
    forall i, j :: 0 <= i < j < |t| ==> t[i].date < t[j].date
  }

  function DatesOf<R>(t: Table<R>): set<Date>
  {
    set i | 0 <= i < |t| :: t[i].date
  }

  /** The table as a map from date to record; a later row with the same
      date replaces an earlier one. */
  function FrameOf<R>(t: Table<R>): (m: map<Date, R>)
    ensures m.Keys == DatesOf(t)
  {
    if t == [] then map[]
    else
      var n := |t| - 1;
      var m := FrameOf(t[..n]);
      assert DatesOf(t) == DatesOf(t[..n]) + {t[n].date} by {
        forall d | d in DatesOf(t) ensures d in DatesOf(t[..n]) + {t[n].date} {
          var i :| 0 <= i < |t| && t[i].date == d;
          if i < n {
            assert t[..n][i].date == d;
          }
        }
      }
      m[t[n].date := t[n].rec]
  }

  /** No row after row `i` has its date. */
  predicate LastWith<R>(t: Table<R>, i: int)
    requires 0 <= i < |t|
  {
    forall j :: i < j < |t| ==> t[j].date != t[i].date
  }

  /** The map holds, for each date, the record of the LAST row with that
      date. */
  lemma {:induction false} FrameOfLast<R>(t: Table<R>, d: Date)
    requires d in DatesOf(t)
    ensures exists i :: 0 <= i < |t| && t[i].date == d && FrameOf(t)[d] == t[i].rec && LastWith(t, i)
  {
    var n := |t| - 1;
    if t[n].date != d {
      var i :| 0 <= i < |t| && t[i].date == d;
      assert t[..n][i].date == d;
      FrameOfLast(t[..n], d);
      var i' :| 0 <= i' < n && t[..n][i'].date == d && FrameOf(t[..n])[d] == t[..n][i'].rec && LastWith(t[..n], i');
      assert t[i'].date == d && FrameOf(t)[d] == t[i'].rec;
      assert LastWith(t, i') by {
        forall j | i' < j < |t| ensures t[j].date != d {
          if j < n {
            assert t[..n][j].date != d;
          }
        }
      }
    }
  }

  /** A table with one row per date is exactly its map: no row is lost. */
  lemma {:induction false} FrameOfAscending<R>(t: Table<R>)
    requires Ascending(t)
    ensures |FrameOf(t)| == |t|
    ensures forall i :: 0 <= i < |t| ==> FrameOf(t)[t[i].date] == t[i].rec
  {
    FrameOfAscendingSize(t);
    forall i | 0 <= i < |t| ensures FrameOf(t)[t[i].date] == t[i].rec {
      var d := t[i].date;
      assert d in DatesOf(t);
      FrameOfLast(t, d);
      var j :| 0 <= j < |t| && t[j].date == d && FrameOf(t)[d] == t[j].rec && LastWith(t, j);
      AscendingDistinct(t, i, j);
    }
  }

  /** Ordering depends on the dates only. */
  lemma AscendingSameDates<R, S>(t: Table<R>, u: Table<S>)
    requires Ascending(t) && |t| == |u|
    requires forall i :: 0 <= i < |t| ==> t[i].date == u[i].date
    ensures Ascending(u)
  {
  }

  /** A sorted table has distinct dates. */
  lemma AscendingDistinct<R>(t: Table<R>, i: int, j: int)
    requires Ascending(t) && 0 <= i < |t| && 0 <= j < |t| && t[i].date == t[j].date
    ensures i == j
  {
  }

  lemma {:induction false} FrameOfAscendingSize<R>(t: Table<R>)
    requires Ascending(t)
    ensures |FrameOf(t)| == |t|
  {
    if t != [] {
      var n := |t| - 1;
      AscendingInit(t);
      FrameOfAscendingSize(t[..n]);
    }
  }


  /** Dropping the last row of a sorted table leaves it sorted, without
      the last row's date. */
  lemma AscendingInit<R>(t: Table<R>)
    requires Ascending(t) && t != []
    ensures Ascending(t[..|t| - 1])
    ensures t[|t| - 1].date !in DatesOf(t[..|t| - 1])
  {
    var p := t[..|t| - 1];
    forall i | 0 <= i < |p| ensures p[i] == t[i] {
    }
  }



  /** A nonempty set has an element to pick. */
  lemma Inhabited(s: set<Date>)
    requires s != {}
    ensures exists x :: x in s
  {
    if forall x :: x !in s {
      assert false;
    }
  }

  predicate IsMin(s: set<Date>, d: Date)
  {
    d in s && forall e :: e in s ==> d <= e
  }

  lemma MinExists(s: set<Date>)
    requires s != {}
    ensures exists d :: IsMin(s, d)
    decreases |s|
  {
    Inhabited(s);
    var x :| x in s;
    if s == {x} {
      assert IsMin(s, x);
    } else {
      var s' := s - {x};
      MinExists(s');
      var d :| IsMin(s', d);
      var m := if x < d then x else d;
      forall e | e in s ensures m <= e {
        if e != x {
          assert e in s';
        }
      }
      assert IsMin(s, m);
    }
  }

  /** pandas' `sort_index` applied to a DataFrame indexed by date: the rows
      of the map in ascending date order. */
  function SortIndex<R>(m: map<Date, R>): (t: Table<R>)
    ensures Ascending(t)
    ensures |t| == |m|
    ensures forall i :: 0 <= i < |t| ==> t[i].date in m && m[t[i].date] == t[i].rec
    ensures forall d :: d in m ==> exists i :: 0 <= i < |t| && t[i].date == d
    decreases |m|
  {
    if |m| == 0 then []
    else
      MinExists(m.Keys);
      var d :| IsMin(m.Keys, d);
      var rest := m - {d};
      assert rest.Keys == m.Keys - {d};
      var t := SortIndex(rest);
      PrependMin(m, d, t);
      [Row(d, m[d])] + t
  }

  lemma PrependMin<R>(m: map<Date, R>, d: Date, t: Table<R>)
    requires IsMin(m.Keys, d)
    requires Ascending(t) && |t| == |m - {d}|
    requires forall i :: 0 <= i < |t| ==> t[i].date in m - {d} && (m - {d})[t[i].date] == t[i].rec
    requires forall e :: e in m - {d} ==> exists i :: 0 <= i < |t| && t[i].date == e
    ensures var u := [Row(d, m[d])] + t;
      && Ascending(u)
      && |u| == |m|
      && (forall i :: 0 <= i < |u| ==> u[i].date in m && m[u[i].date] == u[i].rec)
      && (forall e :: e in m ==> exists i :: 0 <= i < |u| && u[i].date == e)
  {
    var rest := m - {d};
    assert rest.Keys == m.Keys - {d};
    PrependOrdered(m.Keys, d, m[d], t);
    PrependCovers(m, d, t);
    PrependRows(m, d, t);
  }

  lemma PrependRows<R>(m: map<Date, R>, d: Date, t: Table<R>)
    requires d in m
    requires forall i :: 0 <= i < |t| ==> t[i].date in m - {d} && (m - {d})[t[i].date] == t[i].rec
    ensures var u := [Row(d, m[d])] + t;
      forall i :: 0 <= i < |u| ==> u[i].date in m && m[u[i].date] == u[i].rec
  {
    var u := [Row(d, m[d])] + t;
    forall i | 0 <= i < |u| ensures u[i].date in m && m[u[i].date] == u[i].rec {
      if i > 0 {
        assert u[i] == t[i - 1];
      }
    }
  }

  lemma PrependOrdered<R>(keys: set<Date>, d: Date, r: R, t: Table<R>)
    requires IsMin(keys, d)
    requires Ascending(t)
    requires forall i :: 0 <= i < |t| ==> t[i].date in keys - {d}
    ensures Ascending([Row(d, r)] + t)
  {
    forall i | 0 <= i < |t| ensures d < t[i].date {
      assert t[i].date in keys && t[i].date != d;
    }
  }

  lemma PrependCovers<R>(m: map<Date, R>, d: Date, t: Table<R>)
    requires d in m
    requires forall e :: e in m - {d} ==> exists i :: 0 <= i < |t| && t[i].date == e
    ensures forall e :: e in m ==> exists i :: 0 <= i < |t| + 1 && ([Row(d, m[d])] + t)[i].date == e
  {
    var u := [Row(d, m[d])] + t;
    forall e | e in m ensures exists i :: 0 <= i < |u| && u[i].date == e {
      if e == d {
        assert u[0].date == e;
      } else {
        assert e in m - {d};
        var i :| 0 <= i < |t| && t[i].date == e;
        assert u[i + 1].date == e;
      }
    }
  }

  lemma MapCard<R>(m: map<Date, R>)
    ensures |m| == |m.Keys|
  {
  }

  lemma SortIndexSize<R>(m: map<Date, R>)
    ensures |SortIndex(m)| == |m.Keys|
  {
    MapCard(m);
  }

  /** `sort_index` has a row for each date of the map and no other. */
  lemma DatesOfSortIndex<R>(m: map<Date, R>)
    ensures DatesOf(SortIndex(m)) == m.Keys
    ensures |SortIndex(m)| == |m.Keys|
  {
    SortIndexSize(m);
    var t := SortIndex(m);
    forall d | d in m.Keys ensures d in DatesOf(t) {
      var i :| 0 <= i < |t| && t[i].date == d;
    }
  }

  /** Two tables with one row per date, holding the same rows, are equal:
      a table is determined by its rows. */
  lemma {:induction false} AscendingUnique<R>(t: Table<R>, u: Table<R>)
    requires Ascending(t) && Ascending(u)
    requires forall r :: r in t <==> r in u
    ensures t == u
    decreases |t|
  {
    assert t == [] <==> u == [] by {
      if t != [] {
        assert t[0] in u;
      }
      if u != [] {
        assert u[0] in t;
      }
    }
    if t != [] {
      SameHead(t, u);
      SameTail(t, u);
      AscendingUnique(t[1..], u[1..]);
      assert t == [t[0]] + t[1..] && u == [u[0]] + u[1..];
    }
  }

  lemma SameHead<R>(t: Table<R>, u: Table<R>)
    requires Ascending(t) && Ascending(u) && t != [] && u != []
    requires forall r :: r in t <==> r in u
    ensures t[0] == u[0]
  {
    assert t[0] in t && u[0] in u;
    var k :| 0 <= k < |u| && u[k] == t[0];
    var l :| 0 <= l < |t| && t[l] == u[0];
    assert u[0].date <= u[k].date && t[0].date <= t[l].date;
  }

  lemma SameTail<R>(t: Table<R>, u: Table<R>)
    requires Ascending(t) && Ascending(u) && t != [] && u != []
    requires forall r :: r in t <==> r in u
    requires t[0] == u[0]
    ensures Ascending(t[1..]) && Ascending(u[1..])
    ensures forall r :: r in t[1..] <==> r in u[1..]
  {
    forall r | r in t[1..] ensures r in u[1..] {
      TailMember(t, u, r);
    }
    forall r | r in u[1..] ensures r in t[1..] {
      TailMember(u, t, r);
    }
  }

  lemma TailMember<R>(t: Table<R>, u: Table<R>, r: Row<R>)
    requires Ascending(t) && Ascending(u) && t != [] && u != []
    requires forall r :: r in t ==> r in u
    requires t[0] == u[0]
    requires r in t[1..]
    ensures r in u[1..]
  {
    var i :| 0 <= i < |t[1..]| && t[1..][i] == r;
    assert t[i + 1] == r;
    assert r in t;
    var j :| 0 <= j < |u| && u[j] == r;
    assert j != 0;
    assert u[1..][j - 1] == r;
  }

  /** The rows of `sort_index` are exactly the entries of the map. */
  lemma InSortIndex<R>(m: map<Date, R>, r: Row<R>)
    ensures r in SortIndex(m) <==> r.date in m && m[r.date] == r.rec
  {
    var s := SortIndex(m);
    if r.date in m && m[r.date] == r.rec {
      var i :| 0 <= i < |s| && s[i].date == r.date;
      assert s[i] == r;
    }
  }

  /** The rows of a table with one row per date are exactly the entries of
      its map. */
  lemma InFrame<R>(t: Table<R>, r: Row<R>)
    requires Ascending(t)
    ensures r in t <==> r.date in FrameOf(t) && FrameOf(t)[r.date] == r.rec
  {
    FrameOfAscending(t);
    if r.date in FrameOf(t) && FrameOf(t)[r.date] == r.rec {
      var j :| 0 <= j < |t| && t[j].date == r.date;
      assert t[j] == r;
    }
  }

  /** The map of a sorted map is the map itself. */
  lemma FrameOfSortIndex<R>(m: map<Date, R>)
    ensures FrameOf(SortIndex(m)) == m
  {
    var t := SortIndex(m);
    DatesOfSortIndex(m);
    forall d | d in m ensures FrameOf(t)[d] == m[d] {
      var i :| 0 <= i < |t| && t[i].date == d;
      InFrame(t, t[i]);
    }
    SameEntries(FrameOf(t), m);
  }

  lemma SameEntries<R>(a: map<Date, R>, b: map<Date, R>)
    requires a.Keys == b.Keys && forall d :: d in a ==> a[d] == b[d]
    ensures a == b
  {
    forall d | d in a ensures d in b && a[d] == b[d] {
    }
    assert forall d :: d in a <==> d in b;
  }

  /** Re-sorting a sorted table changes nothing. */
  lemma SortIndexOfFrame<R>(t: Table<R>)
    requires Ascending(t)
    ensures SortIndex(FrameOf(t)) == t
  {
    var s := SortIndex(FrameOf(t));
    forall r ensures r in s <==> r in t {
      InSortIndex(FrameOf(t), r);
      InFrame(t, r);
    }
    AscendingUnique(s, t);
  }

  // ------------------------------------------------------------- extension

  function Last<R>(t: Table<R>): Row<R>
    requires t != []
  {
    t[|t| - 1]
  }

  /** The files an update reads: those strictly before the table's first
      date, then those strictly after its last date. */
  function Incoming<P(!new), R>(files: seq<Acq<P>>, t: Table<R>): seq<Acq<P>>
    requires t != []
  {
    Keep(files, Before(t[0].date)) + Keep(files, After(Last(t).date))
  }

  /** A file is read by an update exactly when its date lies outside the
      closed range of the table's dates; files on the first or last date
      themselves are not read. */
  lemma IncomingOutside<P(!new), R>(files: seq<Acq<P>>, t: Table<R>)
    requires t != []
    ensures forall a :: a in Incoming(files, t) <==>
      a in files && (a.date < t[0].date || a.date > Last(t).date)
  {
    KeepMembers(files, Before(t[0].date));
    KeepMembers(files, After(Last(t).date));
  }

  /** pandas' `append` of the new rows followed by `sort_index`. */
  function AppendSort<R>(t: Table<R>, m: map<Date, R>): Table<R>
  {
    SortIndex(FrameOf(t) + m)
  }

  lemma DisjointUnionSize<R>(a: map<Date, R>, b: map<Date, R>)
    requires a.Keys !! b.Keys
    ensures |a + b| == |a| + |b|
  {
    assert (a + b).Keys == a.Keys + b.Keys;
    assert |(a + b).Keys| == |a.Keys| + |b.Keys|;
  }

  /** Merging new rows whose dates all lie outside the table's range keeps
      every existing row, adds one row per new date, and leaves the table
      sorted with one row per date. */
  lemma AppendSortKeeps<R>(t: Table<R>, m: map<Date, R>)
    requires Ascending(t) && t != []
    requires forall d :: d in m ==> d < t[0].date || d > Last(t).date
    ensures var r := AppendSort(t, m);
      && Ascending(r)
      && |r| == |t| + |m|
      && (forall i :: 0 <= i < |t| ==> t[i] in r)
      && (forall d :: d in m ==> exists i :: 0 <= i < |r| && r[i].date == d)
      && (forall i :: 0 <= i < |r| ==>
            r[i] in t ||
            (r[i].date in m && r[i].rec == m[r[i].date] &&
             (r[i].date < t[0].date || r[i].date > Last(t).date)))
  {
    var f := FrameOf(t);
    FrameOfAscending(t);
    OutsideIsNew(t, m);
    DisjointUnionSize(f, m);
    AppendSortRows(t, m);
  }

  /** Dates outside a sorted table's range are not among its dates. */
  lemma OutsideIsNew<R>(t: Table<R>, m: map<Date, R>)
    requires Ascending(t) && t != []
    requires forall d :: d in m ==> d < t[0].date || d > Last(t).date
    ensures FrameOf(t).Keys !! m.Keys
  {
    forall d | d in FrameOf(t).Keys ensures d !in m {
      var i :| 0 <= i < |t| && t[i].date == d;
      AscendingRange(t, i);
    }
  }

  /** Every row of a sorted table lies within its first and last dates. */
  lemma AscendingRange<R>(t: Table<R>, i: int)
    requires Ascending(t) && 0 <= i < |t|
    ensures t[0].date <= t[i].date <= Last(t).date
  {
  }

  /** The rows of the merged table are the old rows and the new entries. */
  lemma AppendSortRows<R>(t: Table<R>, m: map<Date, R>)
    requires Ascending(t)
    requires FrameOf(t).Keys !! m.Keys
    ensures var r := AppendSort(t, m);
      && (forall i :: 0 <= i < |t| ==> t[i] in r)
      && (forall i :: 0 <= i < |r| ==> r[i] in t || (r[i].date in m && r[i].rec == m[r[i].date]))
  {
    var f := FrameOf(t);
    var r := AppendSort(t, m);
    forall i | 0 <= i < |t| ensures t[i] in r {
      InFrame(t, t[i]);
      InSortIndex(f + m, t[i]);
    }
    forall i | 0 <= i < |r|
      ensures r[i] in t || (r[i].date in m && r[i].rec == m[r[i].date])
    {
      assert r[i] in r;
      InSortIndex(f + m, r[i]);
      if r[i].date !in m {
        InFrame(t, r[i]);
      }
    }
  }

  /** Merging no new rows gives back the table. */
  lemma AppendNothing<R>(t: Table<R>)
    requires Ascending(t)
    ensures AppendSort(t, map[]) == t
  {
    assert FrameOf(t) + map[] == FrameOf(t);
    SortIndexOfFrame(t);
  }

  /** Every file's date lies within the table's closed date range. */
  predicate Covers<P, R>(t: Table<R>, files: seq<Acq<P>>)
  {
    t != [] && forall i :: 0 <= i < |files| ==> t[0].date <= files[i].date <= Last(t).date
  }

  /** When the table's range covers every file, an update reads none. */
  lemma IncomingEmpty<P(!new), R>(files: seq<Acq<P>>, t: Table<R>)
    requires Covers(t, files)
    ensures Incoming(files, t) == []
  {
    KeepNone(files, Before(t[0].date));
    KeepNone(files, After(Last(t).date));
  }

  /** `r` is `t` after an update that read `files`: sorted with one row
      per date, every old row kept, its dates exactly the old dates and
      the dates of the files read, every row that is not an old one dated
      outside the old range, and the new range covering every file. */
  ghost predicate Extended<P(!new), R>(t: Table<R>, r: Table<R>, files: seq<Acq<P>>)
    requires t != []
  {
    && Ascending(r)
    && DatesOf(r) == DatesOf(t) + FileDates(Incoming(files, t))
    && |r| == |t| + |FileDates(Incoming(files, t))|
    && (forall i :: 0 <= i < |t| ==> t[i] in r)
    && (forall i :: 0 <= i < |r| ==> r[i] in t || r[i].date < t[0].date || r[i].date > Last(t).date)
    && Covers(r, files)
  }

  /** Merging one row per date of the files an update reads extends the
      table. */
  lemma MergeIncoming<P(!new), R>(t: Table<R>, files: seq<Acq<P>>, m: map<Date, R>)
    requires Ascending(t) && t != []
    requires m.Keys == FileDates(Incoming(files, t))
    ensures Extended(t, AppendSort(t, m), files)
  {
    IncomingDatesOutside(t, files, m);
    AppendSortKeeps(t, m);
    MapCard(m);
    MergeCovers(t, files, m);
    DatesOfSortIndex(FrameOf(t) + m);
    assert (FrameOf(t) + m).Keys == DatesOf(t) + m.Keys;
  }

  lemma IncomingDatesOutside<P(!new), R>(t: Table<R>, files: seq<Acq<P>>, m: map<Date, R>)
    requires t != []
    requires m.Keys == FileDates(Incoming(files, t))
    ensures forall d :: d in m ==> d < t[0].date || d > Last(t).date
  {
    var inc := Incoming(files, t);
    IncomingOutside(files, t);
    forall d | d in m ensures d < t[0].date || d > Last(t).date {
      var i :| 0 <= i < |inc| && inc[i].date == d;
      assert inc[i] in inc;
    }
  }

  lemma MergeCovers<P(!new), R>(t: Table<R>, files: seq<Acq<P>>, m: map<Date, R>)
    requires Ascending(t) && t != []
    requires m.Keys == FileDates(Incoming(files, t))
    ensures Covers(AppendSort(t, m), files)
  {
    var inc := Incoming(files, t);
    var keys := (FrameOf(t) + m).Keys;
    var r := SortIndex(FrameOf(t) + m);
    assert t[0].date in keys;
    RowForKey(r, keys, t[0].date);
    RowForKey(r, keys, Last(t).date);
    IncomingOutside(files, t);
    forall i | 0 <= i < |files| ensures r[0].date <= files[i].date <= Last(r).date {
      var a := files[i];
      if a.date < t[0].date || a.date > Last(t).date {
        assert a in inc;
        var j :| 0 <= j < |inc| && inc[j] == a;
        assert a.date in keys;
        RowForKey(r, keys, a.date);
      }
    }
  }

  /** In a sorted table that has a row for every key, each key lies within
      the table's date range. */
  lemma RowForKey<R>(r: Table<R>, keys: set<Date>, d: Date)
    requires Ascending(r)
    requires forall e :: e in keys ==> exists i :: 0 <= i < |r| && r[i].date == e
    requires d in keys
    ensures r != [] && r[0].date <= d <= Last(r).date
  {
    var k :| 0 <= k < |r| && r[k].date == d;
  }

  // ------------------------------------------------- loops that can raise

  /** The file loop of a table build whose per-file step `f` can raise:
      one row per file, in file order, or the error of the first file that
      fails (the loop stops there). */
  function Gather<P, R>(files: seq<Acq<P>>, f: P -> Result<R>): (r: Result<Table<R>>)
    ensures r.Ok? ==> |r.value| == |files| && forall i :: 0 <= i < |files| ==>
      f(files[i].item).Ok? && r.value[i] == Row(files[i].date, f(files[i].item).value)
  {
    if files == [] then Ok([])
    else
      var n := |files| - 1;
      var r := Gather(files[..n], f);
      if r.Err? then r
      else if f(files[n].item).Err? then Err(f(files[n].item).error)
      else
        assert forall i :: 0 <= i < n ==> files[..n][i] == files[i];
        Ok(r.value + [Row(files[n].date, f(files[n].item).value)])
  }

  /** File `i` fails and every file before it succeeds. */
  predicate FirstFailure<P, R>(files: seq<Acq<P>>, f: P -> Result<R>, i: int)
  {
    0 <= i < |files| && f(files[i].item).Err? && forall j :: 0 <= j < i ==> f(files[j].item).Ok?
  }

  /** The loop fails exactly when some file fails, and then with the error
      of the first failing file. */
  lemma {:induction false} GatherError<P, R>(files: seq<Acq<P>>, f: P -> Result<R>)
    ensures Gather(files, f).Err? <==> exists i :: 0 <= i < |files| && f(files[i].item).Err?
    ensures Gather(files, f).Err? ==>
      exists i :: FirstFailure(files, f, i) && f(files[i].item) == Err(Gather(files, f).error)
  {
    if files != [] {
      var n := |files| - 1;
      var p := files[..n];
      GatherError(p, f);
      var r := Gather(p, f);
      assert forall j :: 0 <= j < n ==> p[j] == files[j];
      if r.Err? {
        var i :| FirstFailure(p, f, i) && f(p[i].item) == Err(r.error);
        assert FirstFailure(files, f, i);
      } else if f(files[n].item).Err? {
        assert FirstFailure(files, f, n);
      }
    }
  }

  /** Once the first `k` files contain a failure, the later files do not
      change the outcome. */
  lemma {:induction false} GatherStops<P, R>(files: seq<Acq<P>>, f: P -> Result<R>, k: int)
    requires 0 <= k <= |files| && Gather(files[..k], f).Err?
    ensures Gather(files, f) == Gather(files[..k], f)
    decreases |files| - k
  {
    if k < |files| {
      assert files[..k + 1][..k] == files[..k];
      GatherStops(files, f, k + 1);
    } else {
      assert files[..k] == files;
    }
  }

  /** A successful loop has a row for every file date and no other. */
  lemma GatherDates<P, R>(files: seq<Acq<P>>, f: P -> Result<R>)
    requires Gather(files, f).Ok?
    ensures DatesOf(Gather(files, f).value) == FileDates(files)
  {
    var rows := Gather(files, f).value;
    forall d | d in FileDates(files) ensures d in DatesOf(rows) {
      var i :| 0 <= i < |files| && files[i].date == d;
      assert rows[i].date == d;
    }
  }

  /** No later file has the date of file `i`. */
  predicate LastAcq<P>(files: seq<Acq<P>>, i: int)
    requires 0 <= i < |files|
  {
    forall j :: i < j < |files| ==> files[j].date != files[i].date
  }

  /** Two files that are each the last of their date, with the same date,
      are the same file. */
  lemma LastUnique<P>(files: seq<Acq<P>>, a: int, b: int)
    requires 0 <= a < |files| && 0 <= b < |files|
    requires LastAcq(files, a) && LastAcq(files, b) && files[a].date == files[b].date
    ensures a == b
  {
  }

  /** The position of the last file dated `d`, or -1 when there is none. */
  function LastIndex<P>(files: seq<Acq<P>>, d: Date): (i: int)
    ensures -1 <= i < |files|
    ensures i >= 0 ==> files[i].date == d && LastAcq(files, i)
    ensures i < 0 ==> d !in FileDates(files)
  {
    if files == [] then -1
    else
      var n := |files| - 1;
      if files[n].date == d then n
      else
        var i := LastIndex(files[..n], d);
        assert forall j :: 0 <= j < n ==> files[..n][j] == files[j];
        i
  }

  /** The last file dated `d` exists and its step yields `rec`. */
  ghost predicate Kept<P, R>(files: seq<Acq<P>>, f: P -> Result<R>, d: Date, rec: R)
  {
    var i := LastIndex(files, d);
    0 <= i && f(files[i].item) == Ok(rec)
  }

  /** The map built from a successful loop holds, for each date, the
      result of the last file of that date. */
  lemma GatherLast<P, R>(files: seq<Acq<P>>, f: P -> Result<R>, d: Date)
    requires Gather(files, f).Ok? && d in FileDates(files)
    ensures d in FrameOf(Gather(files, f).value)
    ensures Kept(files, f, d, FrameOf(Gather(files, f).value)[d])
  {
    var rows := Gather(files, f).value;
    GatherDates(files, f);
    FrameOfLast(rows, d);
    var i :| 0 <= i < |rows| && rows[i].date == d && FrameOf(rows)[d] == rows[i].rec && LastWith(rows, i);
    assert LastAcq(files, i) by {
      forall j | i < j < |files| ensures files[j].date != files[i].date {
        assert rows[j].date == files[j].date;
      }
    }
    LastUnique(files, i, LastIndex(files, d));
  }

  /** The table a successful loop is sorted into has one row per distinct
      file date, in date order, each holding the result of the last file
      of its date. */
  lemma GatherSorted<P, R>(files: seq<Acq<P>>, f: P -> Result<R>)
    requires Gather(files, f).Ok?
    ensures var t := SortIndex(FrameOf(Gather(files, f).value));
      && Ascending(t)
      && DatesOf(t) == FileDates(files)
      && forall k :: 0 <= k < |t| ==> Kept(files, f, t[k].date, t[k].rec)
  {
    var m := FrameOf(Gather(files, f).value);
    GatherDates(files, f);
    DatesOfSortIndex(m);
    var t := SortIndex(m);
    forall k | 0 <= k < |t| ensures Kept(files, f, t[k].date, t[k].rec) {
      GatherLast(files, f, t[k].date);
    }
  }

  /** The loop as the scripts run it: it fills a map date by date (a later
      file of a date replaces the earlier one) and returns at the first
      file whose step raises. */
  method GatherAll<P, R>(files: seq<Acq<P>>, f: P -> Result<R>) returns (r: Result<map<Date, R>>)
    ensures var g := Gather(files, f);
      && (r.Ok? <==> g.Ok?)
      && (r.Ok? ==> r.value == FrameOf(g.value))
      && (r.Err? ==> r.error == g.error)
  {
    var m: map<Date, R> := map[];
    ghost var rows: Table<R> := [];
    var i := 0;
    while i < |files|
      invariant 0 <= i <= |files|
      invariant Gather(files[..i], f) == Ok(rows)
      invariant m == FrameOf(rows)
    {
      var rec := f(files[i].item);
      assert files[..i + 1][..i] == files[..i];
      if rec.Err? {
        GatherStops(files, f, i + 1);
        return Err(rec.error);
      }
      assert (rows + [Row(files[i].date, rec.value)])[..|rows|] == rows;
      m := m[files[i].date := rec.value];
      rows := rows + [Row(files[i].date, rec.value)];
      i := i + 1;
    }
    assert files[..i] == files;
    r := Ok(m);
  }

  // ---------------------------------------------------- files of one date

  /** The files dated `d`, in their original order. */
  function OfDate<P>(files: seq<Acq<P>>, d: Date): seq<Acq<P>>
  {
    if files == [] then []
    else
      var n := |files| - 1;
      OfDate(files[..n], d) + (if files[n].date == d then [files[n]] else [])
  }

  lemma {:induction false} OfDateAppend<P>(a: seq<Acq<P>>, b: seq<Acq<P>>, d: Date)
    ensures OfDate(a + b, d) == OfDate(a, d) + OfDate(b, d)
    decreases |b|
  {
    if b == [] {
      assert a + b == a;
    } else {
      var n := |b| - 1;
      assert (a + b)[..|a| + n] == a + b[..n];
      OfDateAppend(a, b[..n], d);
    }
  }

  /** No file is dated `d` when `d` is not among the file dates. */
  lemma {:induction false} OfDateAbsent<P>(files: seq<Acq<P>>, d: Date)
    requires d !in FileDates(files)
    ensures OfDate(files, d) == []
  {
    if files != [] {
      var n := |files| - 1;
      assert files[n].date in FileDates(files);
      assert FileDates(files[..n]) <= FileDates(files) by {
        forall e | e in FileDates(files[..n]) ensures e in FileDates(files) {
          var i :| 0 <= i < n && files[..n][i].date == e;
          assert files[i].date == e;
        }
      }
      OfDateAbsent(files[..n], d);
    }
  }

  /** A date filter keeps all files of a date that passes it and none of
      any other date. */
  lemma {:induction false} OfDateKeep<P(!new)>(files: seq<Acq<P>>, b: Bound, d: Date)
    ensures OfDate(Keep(files, b), d) == if Passes(b, d) then OfDate(files, d) else []
  {
    if files != [] {
      var n := |files| - 1;
      OfDateKeep(files[..n], b, d);
      var tail := if Passes(b, files[n].date) then [files[n]] else [];
      OfDateAppend(Keep(files[..n], b), tail, d);
      assert OfDate(tail, d) == (if files[n].date == d && Passes(b, d) then [files[n]] else []) by {
        if tail != [] {
          assert tail[..0] == [];
        }
      }
    }
  }

  /** Of each date outside the range of a sorted table, an update reads
      every file of that date, in order; of every other date, none. */
  lemma OfDateIncoming<P(!new), R>(files: seq<Acq<P>>, t: Table<R>, d: Date)
    requires Ascending(t) && t != []
    ensures OfDate(Incoming(files, t), d) == if d < t[0].date || d > Last(t).date then OfDate(files, d) else []
  {
    AscendingRange(t, |t| - 1);
    OfDateAppend(Keep(files, Before(t[0].date)), Keep(files, After(Last(t).date)), d);
    OfDateKeep(files, Before(t[0].date), d);
    OfDateKeep(files, After(Last(t).date), d);
  }

  /** The last file of a date is the last of the files of that date. */
  lemma {:induction false} LastIndexOfDate<P>(files: seq<Acq<P>>, d: Date)
    requires d in FileDates(files)
    ensures OfDate(files, d) != []
    ensures files[LastIndex(files, d)] == OfDate(files, d)[|OfDate(files, d)| - 1]
  {
    var n := |files| - 1;
    if files[n].date != d {
      var i :| 0 <= i < |files| && files[i].date == d;
      assert files[..n][i].date == d;
      LastIndexOfDate(files[..n], d);
    }
  }

  /** The record a successful loop keeps for a date depends only on the
      files of that date: it is the step's result for the last of them. */
  lemma GatherOfDate<P, R>(files: seq<Acq<P>>, f: P -> Result<R>, d: Date)
    requires Gather(files, f).Ok? && d in FileDates(files)
    ensures OfDate(files, d) != []
    ensures var a := OfDate(files, d)[|OfDate(files, d)| - 1];
      d in FrameOf(Gather(files, f).value) && f(a.item) == Ok(FrameOf(Gather(files, f).value)[d])
  {
    GatherLast(files, f, d);
    LastIndexOfDate(files, d);
  }

  lemma FileDatesAppend<P>(a: seq<Acq<P>>, b: seq<Acq<P>>)
    ensures FileDates(a + b) == FileDates(a) + FileDates(b)
  {
    forall d | d in FileDates(a) + FileDates(b) ensures d in FileDates(a + b) {
      if d in FileDates(a) {
        var i :| 0 <= i < |a| && a[i].date == d;
        assert (a + b)[i].date == d;
      } else {
        var i :| 0 <= i < |b| && b[i].date == d;
        assert (a + b)[|a| + i].date == d;
      }
    }
  }

  /** A sorted table whose dates are the file dates covers the files. */
  lemma CoversDates<P, R>(t: Table<R>, files: seq<Acq<P>>)
    requires Ascending(t) && t != [] && DatesOf(t) == FileDates(files)
    ensures Covers(t, files)
  {
    forall i | 0 <= i < |files| ensures t[0].date <= files[i].date <= Last(t).date {
      assert files[i].date in DatesOf(t);
      var k :| 0 <= k < |t| && t[k].date == files[i].date;
      AscendingRange(t, k);
    }
  }

  /** An update of a table that covers the files `seen`, given those files
      followed by files `later` all dated outside its range, reads exactly
      the later files. */
  lemma IncomingOfLater<P(!new), R>(t: Table<R>, seen: seq<Acq<P>>, later: seq<Acq<P>>)
    requires Ascending(t) && Covers(t, seen)
    requires forall i :: 0 <= i < |later| ==> later[i].date < t[0].date || later[i].date > Last(t).date
    ensures forall a :: a in Incoming(seen + later, t) <==> a in later
    ensures FileDates(Incoming(seen + later, t)) == FileDates(later)
  {
    var inc := Incoming(seen + later, t);
    IncomingOutside(seen + later, t);
    forall a ensures a in inc <==> a in later {
      if a in seen {
        var i :| 0 <= i < |seen| && seen[i] == a;
      }
      if a in later {
        var i :| 0 <= i < |later| && later[i] == a;
      }
    }
    forall d | d in FileDates(inc) ensures d in FileDates(later) {
      var i :| 0 <= i < |inc| && inc[i].date == d;
      assert inc[i] in later;
    }
    forall d | d in FileDates(later) ensures d in FileDates(inc) {
      var i :| 0 <= i < |later| && later[i].date == d;
      assert later[i] in inc;
    }
  }

  /** Files inside a table's range and files outside it share no date. */
  lemma SeenLaterDisjoint<P, R>(t: Table<R>, seen: seq<Acq<P>>, later: seq<Acq<P>>)
    requires Covers(t, seen)
    requires forall i :: 0 <= i < |later| ==> later[i].date < t[0].date || later[i].date > Last(t).date
    ensures FileDates(seen) !! FileDates(later)
  {
    forall d | d in FileDates(seen) ensures d !in FileDates(later) {
      var i :| 0 <= i < |seen| && seen[i].date == d;
    }
  }

  /** In that situation the update reads, of every date, the same files in
      the same order as the later files hold, and the files of a date are
      those of the part of the list that has the date. */
  lemma OfDateOfLater<P(!new), R>(t: Table<R>, seen: seq<Acq<P>>, later: seq<Acq<P>>, d: Date)
    requires Ascending(t) && Covers(t, seen)
    requires forall i :: 0 <= i < |later| ==> later[i].date < t[0].date || later[i].date > Last(t).date
    ensures OfDate(Incoming(seen + later, t), d) == OfDate(later, d)
    ensures d !in FileDates(later) ==> OfDate(seen + later, d) == OfDate(seen, d)
    ensures d !in FileDates(seen) ==> OfDate(seen + later, d) == OfDate(later, d)
  {
    OfDateAppend(seen, later, d);
    OfDateIncoming(seen + later, t, d);
    if d !in FileDates(later) {
      OfDateAbsent(later, d);
      assert OfDate(seen, d) + [] == OfDate(seen, d);
    }
    if d !in FileDates(seen) {
      OfDateAbsent(seen, d);
      assert [] + OfDate(later, d) == OfDate(later, d);
    }
    if t[0].date <= d <= Last(t).date {
      assert d !in FileDates(later);
    } else {
      assert d !in FileDates(seen);
    }
  }

  /** An update of a table covering the files `seen`, given those files
      followed by files `later` dated outside its range and run with a
      step `g` that agrees with the rebuild's step `f`, fails exactly when
      the rebuild from all the files fails, once the earlier files have
      all succeeded. */
  lemma GatherMergeFails<P(!new), R, S>(t: Table<S>, seen: seq<Acq<P>>, later: seq<Acq<P>>,
                                        f: P -> Result<R>, g: P -> Result<R>)
    requires Ascending(t) && Covers(t, seen) && Gather(seen, f).Ok?
    requires forall i :: 0 <= i < |later| ==> later[i].date < t[0].date || later[i].date > Last(t).date
    requires forall p :: f(p) == g(p)
    ensures Gather(Incoming(seen + later, t), g).Ok? <==> Gather(seen + later, f).Ok?
  {
    var all := seen + later;
    var inc := Incoming(all, t);
    IncomingOfLater(t, seen, later);
    GatherError(seen, f);
    GatherError(all, f);
    GatherError(inc, g);
    if Gather(all, f).Err? {
      var i :| 0 <= i < |all| && f(all[i].item).Err?;
      assert forall j :: 0 <= j < |seen| ==> all[j] == seen[j];
      assert all[i] == later[i - |seen|];
      assert all[i] in inc;
      var j :| 0 <= j < |inc| && inc[j] == all[i];
      assert g(inc[j].item).Err?;
    }
    if Gather(inc, g).Err? {
      var j :| 0 <= j < |inc| && g(inc[j].item).Err?;
      assert inc[j] in later;
      var k :| 0 <= k < |later| && later[k] == inc[j];
      assert all[|seen| + k] == inc[j];
      assert f(all[|seen| + k].item).Err?;
    }
  }

  /** When all three loops succeed, the frame of the earlier files merged
      with the frame the update builds is the frame of all the files. */
  lemma GatherMerge<P(!new), R, S>(t: Table<S>, seen: seq<Acq<P>>, later: seq<Acq<P>>,
                                   f: P -> Result<R>, g: P -> Result<R>)
    requires Ascending(t) && Covers(t, seen)
    requires forall i :: 0 <= i < |later| ==> later[i].date < t[0].date || later[i].date > Last(t).date
    requires forall p :: f(p) == g(p)
    requires Gather(seen, f).Ok? && Gather(Incoming(seen + later, t), g).Ok? && Gather(seen + later, f).Ok?
    ensures FrameOf(Gather(seen, f).value) + FrameOf(Gather(Incoming(seen + later, t), g).value)
      == FrameOf(Gather(seen + later, f).value)
  {
    var all := seen + later;
    var inc := Incoming(all, t);
    var m0 := FrameOf(Gather(seen, f).value);
    var m1 := FrameOf(Gather(inc, g).value);
    var big := FrameOf(Gather(all, f).value);
    IncomingOfLater(t, seen, later);
    FileDatesAppend(seen, later);
    GatherDates(seen, f);
    GatherDates(inc, g);
    GatherDates(all, f);
    assert (m0 + m1).Keys == big.Keys;
    forall d | d in big ensures (m0 + m1)[d] == big[d] {
      GatherMergeAt(t, seen, later, f, g, d);
    }
    SameEntries(m0 + m1, big);
  }

  /** Each date's record from all the files is the record the update
      builds from the files it reads on that date, or else the record of
      the earlier files. */
  lemma GatherMergeAt<P(!new), R, S>(t: Table<S>, seen: seq<Acq<P>>, later: seq<Acq<P>>,
                                     f: P -> Result<R>, g: P -> Result<R>, d: Date)
    requires Ascending(t) && Covers(t, seen)
    requires forall i :: 0 <= i < |later| ==> later[i].date < t[0].date || later[i].date > Last(t).date
    requires forall p :: f(p) == g(p)
    requires Gather(seen, f).Ok? && Gather(Incoming(seen + later, t), g).Ok? && Gather(seen + later, f).Ok?
    requires d in FileDates(seen + later)
    ensures var m1 := FrameOf(Gather(Incoming(seen + later, t), g).value);
      d in m1 ==> m1[d] == FrameOf(Gather(seen + later, f).value)[d]
    ensures var m0 := FrameOf(Gather(seen, f).value);
      d !in FileDates(later) ==> d in m0 && m0[d] == FrameOf(Gather(seen + later, f).value)[d]
  {
    IncomingOfLater(t, seen, later);
    if d in FileDates(later) {
      GatherMergeNew(t, seen, later, f, g, d);
    } else {
      FileDatesAppend(seen, later);
      GatherMergeOld(t, seen, later, f, d);
    }
  }

  lemma GatherMergeNew<P(!new), R, S>(t: Table<S>, seen: seq<Acq<P>>, later: seq<Acq<P>>,
                                      f: P -> Result<R>, g: P -> Result<R>, d: Date)
    requires Ascending(t) && Covers(t, seen)
    requires forall i :: 0 <= i < |later| ==> later[i].date < t[0].date || later[i].date > Last(t).date
    requires forall p :: f(p) == g(p)
    requires Gather(Incoming(seen + later, t), g).Ok? && Gather(seen + later, f).Ok?
    requires d in FileDates(later) && FileDates(Incoming(seen + later, t)) == FileDates(later)
    ensures var m1 := FrameOf(Gather(Incoming(seen + later, t), g).value);
      d in FrameOf(Gather(seen + later, f).value) && d in m1 && m1[d] == FrameOf(Gather(seen + later, f).value)[d]
  {
    var inc := Incoming(seen + later, t);
    SeenLaterDisjoint(t, seen, later);
    FileDatesAppend(seen, later);
    OfDateOfLater(t, seen, later, d);
    assert OfDate(inc, d) == OfDate(seen + later, d);
    GatherOfDate(seen + later, f, d);
    GatherOfDate(inc, g, d);
    var o := OfDate(inc, d);
    assert f(o[|o| - 1].item) == g(o[|o| - 1].item);
  }

  lemma GatherMergeOld<P(!new), R, S>(t: Table<S>, seen: seq<Acq<P>>, later: seq<Acq<P>>,
                                      f: P -> Result<R>, d: Date)
    requires Ascending(t) && Covers(t, seen)
    requires forall i :: 0 <= i < |later| ==> later[i].date < t[0].date || later[i].date > Last(t).date
    requires Gather(seen, f).Ok? && Gather(seen + later, f).Ok?
    requires d in FileDates(seen) && d !in FileDates(later)
    ensures var m0 := FrameOf(Gather(seen, f).value);
      d in FrameOf(Gather(seen + later, f).value) && d in m0 && m0[d] == FrameOf(Gather(seen + later, f).value)[d]
  {
    FileDatesAppend(seen, later);
    OfDateOfLater(t, seen, later, d);
    GatherOfDate(seen + later, f, d);
    GatherOfDate(seen, f, d);
  }
}
