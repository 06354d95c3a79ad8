/** What Storage holds, in terms of the items it was sent: one row per date, one
    cell per column, and in each cell the last value delivered to that column
    under that date. */
module OutputTable {
  import opened Common
  import opened OutputPlugins

  // The trace -----------------------------------------------------------------------------

  /** The date of the last of the first m items that carry one to Storage. */
  function LastDate<V>(es: seq<Item<V>>, m: nat): (t: Option<real>)
    requires m <= |es|
  {
    if m == 0 then None else if es[m-1].NewColumn? then LastDate(es, m - 1) else Some(es[m-1].time)
  }

  /** How often the date has changed within the first m items. */
  function Dates<V>(es: seq<Item<V>>, m: nat): (n: nat)
    requires m <= |es|
    ensures LastDate(es, m).Some? ==> n > 0
  {
    if m == 0 then 0
    else if es[m-1].NewColumn? || LastDate(es, m - 1) == Some(es[m-1].time) then Dates(es, m - 1)
    else Dates(es, m - 1) + 1
  }

  /** The columns announced by the first m items, in order. */
  function Keys<V>(es: seq<Item<V>>, m: nat): (keys: seq<string>)
    requires m <= |es|
  {
    if m == 0 then [] else Keys(es, m - 1) + (if es[m-1].NewColumn? then [es[m-1].key] else [])
  }

  /** Item j delivers a value to a known column under the r-th date. */
  ghost predicate Delivers<V>(es: seq<Item<V>>, j: nat, r: nat, key: string)
    requires j < |es|
  {
    && es[j].Val? && es[j].key == key && Dates(es, j + 1) == r + 1
    && exists i :: 0 <= i < j && es[i].NewColumn? && es[i].key == key
  }

  /** The cell shows the last of the first m items that deliver to it, if any. */
  ghost predicate Shows<V>(es: seq<Item<V>>, m: nat, r: nat, key: string, cell: Option<V>)
    requires m <= |es|
  {
    match cell
    case None => forall j :: 0 <= j < m ==> !Delivers(es, j, r, key)
    case Some(v) => exists j: nat :: LastDelivery(es, m, r, key, j) && es[j].value == v
  }

  ghost predicate LastDelivery<V>(es: seq<Item<V>>, m: nat, r: nat, key: string, j: nat)
    requires m <= |es|
  {
    j < m && Delivers(es, j, r, key) && forall i :: j < i < m ==> !Delivers(es, i, r, key)
  }

  lemma {:induction false} KeyListed<V>(es: seq<Item<V>>, m: nat, key: string)
    requires m <= |es|
    ensures key in Keys(es, m) <==> exists i :: 0 <= i < m && es[i].NewColumn? && es[i].key == key
  {
    if m > 0 {
      KeyListed(es, m - 1, key);
      if key in Keys(es, m) && key !in Keys(es, m - 1) {
        assert es[m-1].NewColumn? && es[m-1].key == key;
      }
    }
  }

  lemma {:induction false} DatesGrow<V>(es: seq<Item<V>>, i: nat, m: nat)
    requires i <= m <= |es|
    ensures Dates(es, i) <= Dates(es, m)
    decreases m
  {
    if i < m {
      DatesGrow(es, i, m - 1);
    }
  }

  /** Nothing has been delivered under a date still to come. */
  lemma NotYet<V>(es: seq<Item<V>>, m: nat, r: nat, key: string)
    requires m <= |es| && Dates(es, m) <= r
    ensures Shows(es, m, r, key, None)
  {
    forall j | 0 <= j < m ensures !Delivers(es, j, r, key) {
      DatesGrow(es, j + 1, m);
    }
  }

  lemma ShowsOn<V>(es: seq<Item<V>>, m: nat, r: nat, key: string, cell: Option<V>)
    requires m < |es| && Shows(es, m, r, key, cell) && !Delivers(es, m, r, key)
    ensures Shows(es, m + 1, r, key, cell)
  {
    if cell.Some? {
      var j: nat :| LastDelivery(es, m, r, key, j) && es[j].value == cell.value;
      assert LastDelivery(es, m + 1, r, key, j);
    }
  }

  lemma ShowsNew<V>(es: seq<Item<V>>, m: nat, r: nat, key: string)
    requires m < |es| && Delivers(es, m, r, key)
    ensures Shows(es, m + 1, r, key, Some(es[m].value))
  {
    assert LastDelivery(es, m + 1, r, key, m);
  }

  // The table ------------------------------------------------------------------------------

  /** A row: its date, and in the first column of each name what Storage was last
      told for it under that date. A column announced again stays empty. */
  ghost predicate RowOk<V>(es: seq<Item<V>>, m: nat, columns: seq<string>, r: nat, row: Row<V>)
    requires m <= |es|
  {
    && |row.cells| == |columns|
    && forall k :: 0 <= k < |columns| ==>
         if Position(columns, columns[k]) == k then Shows(es, m, r, columns[k], row.cells[k]) else row.cells[k] == None
  }

  ghost predicate RowsOk<V>(es: seq<Item<V>>, m: nat, columns: seq<string>, rows: seq<Row<V>>)
    requires m <= |es|
  {
    forall r :: 0 <= r < |rows| ==> RowOk(es, m, columns, r, rows[r])
  }

  /** Every item with a date has a row of that date. */
  ghost predicate RowsDated<V>(es: seq<Item<V>>, m: nat, rows: seq<Row<V>>)
    requires m <= |es|
  {
    forall j :: 0 <= j < m && !es[j].NewColumn? ==>
      1 <= Dates(es, j + 1) <= |rows| && rows[Dates(es, j + 1) - 1].time == es[j].time
  }

  ghost predicate Table<V>(es: seq<Item<V>>, m: nat, s: StorageState<V>)
    requires m <= |es|
  {
    && s.columns == Keys(es, m) && s.time == LastDate(es, m) && |s.rows| == Dates(es, m)
    && RowsOk(es, m, s.columns, s.rows) && RowsDated(es, m, s.rows)
  }

  lemma PositionMore(columns: seq<string>, key: string, more: string)
    requires key in columns
    ensures Position(columns + [more], key) == Position(columns, key)
  {
    var k := Position(columns, key);
    forall i | 0 <= i < k ensures (columns + [more])[i] != key {
      PositionFirst(columns, key, i);
    }
    PositionIs(columns + [more], key, k);
  }

  lemma {:induction false} PositionFirst(columns: seq<string>, key: string, k: nat)
    requires k < Position(columns, key)
    ensures columns[k] != key
  {
    if k > 0 {
      PositionFirst(columns[1..], key, k - 1);
    }
  }

  lemma PositionIs(columns: seq<string>, key: string, k: nat)
    requires k < |columns| && columns[k] == key && forall i :: 0 <= i < k ==> columns[i] != key
    ensures Position(columns, key) == k
  {
    if Position(columns, key) > k {
      PositionFirst(columns, key, k);
    }
  }

  /** A row when a column is announced. */
  lemma RowWidens<V>(es: seq<Item<V>>, m: nat, columns: seq<string>, r: nat, row: Row<V>)
    requires m < |es| && es[m].NewColumn? && columns == Keys(es, m) && RowOk(es, m, columns, r, row)
    ensures RowOk(es, m + 1, columns + [es[m].key], r, Row(row.time, row.cells + [None]))
  {
    var (all, cells) := (columns + [es[m].key], row.cells + [None]);
    forall k | 0 <= k < |all|
      ensures if Position(all, all[k]) == k then Shows(es, m + 1, r, all[k], cells[k]) else cells[k] == None
    {
      if k < |columns| {
        PositionMore(columns, columns[k], es[m].key);
        if Position(columns, columns[k]) == k {
          ShowsOn(es, m, r, columns[k], cells[k]);
        }
      } else if Position(all, all[k]) == k {
        NoKeyYet(es, m, r, columns, es[m].key);
      }
    }
  }

  lemma NoKeyYet<V>(es: seq<Item<V>>, m: nat, r: nat, columns: seq<string>, key: string)
    requires m < |es| && es[m].NewColumn? && columns == Keys(es, m)
    requires Position(columns + [key], key) == |columns|
    ensures Shows(es, m + 1, r, key, None)
  {
    if key in columns {
      PositionMore(columns, key, key);
    }
    KeyListed(es, m, key);
  }

  /** A row when something else comes that does not concern it. */
  lemma RowStays<V>(es: seq<Item<V>>, m: nat, columns: seq<string>, r: nat, row: Row<V>)
    requires m < |es| && !es[m].NewColumn? && RowOk(es, m, columns, r, row)
    requires forall key :: key in columns ==> !Delivers(es, m, r, key)
    ensures RowOk(es, m + 1, columns, r, row)
  {
    forall k | 0 <= k < |columns| && Position(columns, columns[k]) == k
      ensures Shows(es, m + 1, r, columns[k], row.cells[k])
    {
      ShowsOn(es, m, r, columns[k], row.cells[k]);
    }
  }

  /** A new row, before anything is put in it. */
  lemma RowOpens<V>(es: seq<Item<V>>, m: nat, columns: seq<string>, time: real)
    requires m <= |es|
    ensures RowOk(es, m, columns, Dates(es, m), Row(time, Nothings(|columns|)))
  {
    forall k | 0 <= k < |columns| ensures Shows(es, m, Dates(es, m), columns[k], None) {
      NotYet(es, m, Dates(es, m), columns[k]);
    }
  }

  /** The row of the current date, when a value comes. */
  lemma RowTakes<V>(es: seq<Item<V>>, m: nat, columns: seq<string>, r: nat, row: Row<V>)
    requires m < |es| && es[m].Val? && columns == Keys(es, m) && Dates(es, m + 1) == r + 1
    requires RowOk(es, m, columns, r, row)
    ensures var k := Position(columns, es[m].key);
            RowOk(es, m + 1, columns, r,
                  if k < |row.cells| then Row(row.time, row.cells[k := Some(es[m].value)]) else row)
  {
    var (p, key) := (Position(columns, es[m].key), es[m].key);
    KeyListed(es, m, key);
    if p == |columns| {
      RowStays(es, m, columns, r, row);
    } else {
      var cells := row.cells[p := Some(es[m].value)];
      forall k | 0 <= k < |columns|
        ensures if Position(columns, columns[k]) == k then Shows(es, m + 1, r, columns[k], cells[k])
                else cells[k] == None
      {
        if k == p {
          ShowsNew(es, m, r, key);
        } else if Position(columns, columns[k]) == k {
          assert columns[k] != key;
          ShowsOn(es, m, r, columns[k], cells[k]);
        }
      }
    }
  }

  lemma DatedMore<V>(es: seq<Item<V>>, m: nat, rows: seq<Row<V>>, row: Row<V>)
    requires m < |es| && RowsDated(es, m, rows)
    requires es[m].NewColumn? || (Dates(es, m + 1) == |rows| + 1 && row.time == es[m].time)
    ensures RowsDated(es, m + 1, rows + [row])
  {
  }

  lemma DatedSame<V>(es: seq<Item<V>>, m: nat, rows: seq<Row<V>>)
    requires m < |es| && RowsDated(es, m, rows)
    requires es[m].NewColumn? || (1 <= Dates(es, m + 1) == |rows| && rows[|rows|-1].time == es[m].time)
    ensures RowsDated(es, m + 1, rows)
  {
  }

  /** Rows of the same dates. */
  lemma DatedAlike<V>(es: seq<Item<V>>, m: nat, rows: seq<Row<V>>, more: seq<Row<V>>)
    requires m <= |es| && RowsDated(es, m, rows)
    requires |more| == |rows| && forall r :: 0 <= r < |rows| ==> more[r].time == rows[r].time
    ensures RowsDated(es, m, more)
  {
  }

  lemma OkMore<V>(es: seq<Item<V>>, m: nat, columns: seq<string>, rows: seq<Row<V>>, row: Row<V>)
    requires m <= |es| && RowsOk(es, m, columns, rows) && RowOk(es, m, columns, |rows|, row)
    ensures RowsOk(es, m, columns, rows + [row])
  {
  }

  /** One date, old or new: the row count and the dates of the rows. */
  lemma DateRows<V>(es: seq<Item<V>>, m: nat, s: StorageState<V>, t: StorageState<V>)
    requires m < |es| && !es[m].NewColumn? && Table(es, m, s) && t == NextTime(s, es[m].time)
    ensures |t.rows| == Dates(es, m + 1) && t.time == LastDate(es, m + 1) && t.columns == Keys(es, m + 1) == s.columns
    ensures RowsDated(es, m + 1, t.rows) && RowsOk(es, m, t.columns, t.rows)
  {
    assert Keys(es, m) + [] == Keys(es, m);
    if s.time == Some(es[m].time) {
      DateHeld(es, m, s);
      DatedSame(es, m, s.rows);
    } else {
      var row := Row(es[m].time, Nothings(|s.columns|));
      RowOpens(es, m, s.columns, es[m].time);
      OkMore(es, m, s.columns, s.rows, row);
      DatedMore(es, m, s.rows, row);
    }
  }

  /** The last row has the last date. */
  lemma {:induction false} DateHeld<V>(es: seq<Item<V>>, m: nat, s: StorageState<V>)
    requires m <= |es| && Table(es, m, s) && s.time.Some?
    ensures s.rows != [] && s.rows[|s.rows|-1].time == s.time.value
  {
    var j := LastDated(es, m);
    assert Dates(es, j + 1) == |s.rows|;
  }

  lemma {:induction false} LastDated<V>(es: seq<Item<V>>, m: nat) returns (j: nat)
    requires m <= |es| && LastDate(es, m).Some?
    ensures j < m && !es[j].NewColumn? && es[j].time == LastDate(es, m).value && Dates(es, j + 1) == Dates(es, m)
  {
    if es[m-1].NewColumn? {
      j := LastDated(es, m - 1);
    } else {
      j := m - 1;
    }
  }

  lemma TableColumn<V>(es: seq<Item<V>>, m: nat, s: StorageState<V>)
    requires m < |es| && es[m].NewColumn? && Table(es, m, s)
    ensures Table(es, m + 1, StorageStep(s, es[m]))
  {
    RowsWiden(es, m, s.columns, s.rows);
    DatedAlike(es, m, s.rows, Widen(s.rows));
    DatedSame(es, m, Widen(s.rows));
  }

  lemma RowsWiden<V>(es: seq<Item<V>>, m: nat, columns: seq<string>, rows: seq<Row<V>>)
    requires m < |es| && es[m].NewColumn? && columns == Keys(es, m) && RowsOk(es, m, columns, rows)
    ensures RowsOk(es, m + 1, columns + [es[m].key], Widen(rows))
    ensures forall r :: 0 <= r < |rows| ==> Widen(rows)[r].time == rows[r].time
  {
    forall r | 0 <= r < |rows| ensures RowOk(es, m + 1, columns + [es[m].key], r, Widen(rows)[r]) {
      RowWidens(es, m, columns, r, rows[r]);
    }
  }

  /** The last row takes the value, if its column is known. */
  lemma CellSet<V>(rows: seq<Row<V>>, k: nat, value: V, r: nat)
    requires r < |rows|
    ensures SetCell(rows, k, value)[r].time == rows[r].time
    ensures r < |rows| - 1 ==> SetCell(rows, k, value)[r] == rows[r]
    ensures r == |rows| - 1 ==>
              SetCell(rows, k, value)[r] ==
                (if k < |rows[r].cells| then Row(rows[r].time, rows[r].cells[k := Some(value)]) else rows[r])
  {
  }

  /** Only the last row is concerned by the item to come. */
  lemma OtherRows<V>(es: seq<Item<V>>, m: nat, r: nat, key: string)
    requires m < |es| && r + 1 < Dates(es, m + 1)
    ensures !Delivers(es, m, r, key)
  {
  }

  lemma RowAfter<V>(es: seq<Item<V>>, m: nat, n: StorageState<V>, r: nat)
    requires m < |es| && es[m].Val? && n.columns == Keys(es, m) && |n.rows| == Dates(es, m + 1) && r < |n.rows|
    requires RowOk(es, m, n.columns, r, n.rows[r])
    ensures RowOk(es, m + 1, n.columns, r, SetCell(n.rows, Position(n.columns, es[m].key), es[m].value)[r])
  {
    CellSet(n.rows, Position(n.columns, es[m].key), es[m].value, r);
    if r == |n.rows| - 1 {
      RowTakes(es, m, n.columns, r, n.rows[r]);
    } else {
      forall key | key in n.columns ensures !Delivers(es, m, r, key) {
        OtherRows(es, m, r, key);
      }
      RowStays(es, m, n.columns, r, n.rows[r]);
    }
  }

  lemma TableVal<V>(es: seq<Item<V>>, m: nat, s: StorageState<V>)
    requires m < |es| && es[m].Val? && Table(es, m, s)
    ensures Table(es, m + 1, StorageStep(s, es[m]))
  {
    var n := NextTime(s, es[m].time);
    DateRows(es, m, s, n);
    var rows := SetCell(n.rows, Position(n.columns, es[m].key), es[m].value);
    forall r | 0 <= r < |rows| ensures RowOk(es, m + 1, n.columns, r, rows[r]) && rows[r].time == n.rows[r].time {
      RowAfter(es, m, n, r);
      CellSet(n.rows, Position(n.columns, es[m].key), es[m].value, r);
    }
    DatedAlike(es, m + 1, n.rows, rows);
  }

  lemma TableQuiet<V>(es: seq<Item<V>>, m: nat, s: StorageState<V>)
    requires m < |es| && es[m].Quiet? && Table(es, m, s)
    ensures Table(es, m + 1, StorageStep(s, es[m]))
  {
    var t := StorageStep(s, es[m]);
    DateRows(es, m, s, t);
    forall r | 0 <= r < |t.rows| ensures RowOk(es, m + 1, t.columns, r, t.rows[r]) {
      RowStays(es, m, t.columns, r, t.rows[r]);
    }
  }

  lemma TableStep<V>(es: seq<Item<V>>, m: nat, s: StorageState<V>)
    requires m < |es| && Table(es, m, s)
    ensures Table(es, m + 1, StorageStep(s, es[m]))
  {
    match es[m] {
      case NewColumn(_, _) => TableColumn(es, m, s);
      case Val(_, _, _) => TableVal(es, m, s);
      case Quiet(_) => TableQuiet(es, m, s);
    }
  }

  lemma RunSnoc<V>(es: seq<Item<V>>, m: nat)
    requires m < |es|
    ensures StorageRun(NewStorage(), es[..m+1]) == StorageStep(StorageRun(NewStorage(), es[..m]), es[m])
  {
    assert es[..m+1][..m] == es[..m];
  }

  lemma {:induction false} RunTable<V>(es: seq<Item<V>>, m: nat)
    requires m <= |es|
    ensures Table(es, m, StorageRun(NewStorage(), es[..m]))
  {
    if m > 0 {
      RunTable(es, m - 1);
      TableStep(es, m - 1, StorageRun(NewStorage(), es[..m-1]));
      RunSnoc(es, m - 1);
    }
  }

  /** Over every trace, with columns announced at any moment: Storage has one
      column per announcement, in order, one row per change of date, under that
      date, and in the cell of a row and a column the last value delivered to the
      column under the date of the row, after it was announced. */
  lemma StorageTable<V>(es: seq<Item<V>>)
    ensures Table(es, |es|, StorageRun(NewStorage(), es))
  {
    RunTable(es, |es|);
    assert es[..|es|] == es;
  }
}
