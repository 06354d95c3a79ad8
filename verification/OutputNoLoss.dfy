/** With flush-by-bag, File loses nothing: whatever is delivered for a column is
    on some line under its own date. */
module OutputNoLoss {
  import opened Common
  import opened OutputPlugins

  ghost predicate Sound<V>(s: FileState<V>)
  {
    && |s.buffer| == |s.valid| == |s.columns|
    && (s.columns != [] || s.started ==> s.first)
    && (forall i, j :: 0 <= i < j < |s.columns| ==> s.columns[i] != s.columns[j])
    && (forall k :: 0 <= k < |s.columns| ==> s.columns[k] in s.watcher)
    && (forall k :: 0 <= k < |s.columns| && s.valid[k] ==> s.watcher[s.columns[k]] == s.time)
  }

  /** A value on a written line, under its date. */
  ghost predicate OnLine<V>(rows: seq<Row<V>>, k: nat, time: real, value: V)
  {
    exists i :: 0 <= i < |rows| && rows[i].time == time && k < |rows[i].cells| && rows[i].cells[k] == Some(value)
  }

  /** A value still in the buffer, which will be written under its date. */
  ghost predicate InBuffer<V>(s: FileState<V>, k: nat, time: real, value: V)
  {
    k < |s.buffer| && k < |s.valid| && s.valid[k] && s.buffer[k] == Some(value) && s.time == time
  }

  ghost predicate Kept<V>(s: FileState<V>, k: nat, time: real, value: V)
  {
    OnLine(s.rows, k, time, value) || InBuffer(s, k, time, value)
  }

  lemma OnLineMore<V>(rows: seq<Row<V>>, more: seq<Row<V>>, k: nat, time: real, value: V)
    requires OnLine(rows, k, time, value)
    ensures OnLine(rows + more, k, time, value)
  {
    var i :| 0 <= i < |rows| && rows[i].time == time && k < |rows[i].cells| && rows[i].cells[k] == Some(value);
    assert (rows + more)[i] == rows[i];
  }

  /** A flush writes whatever was waiting. */
  lemma FlushKeeps<V>(s: FileState<V>, k: nat, time: real, value: V)
    requires Sound(s) && Kept(s, k, time, value)
    ensures Sound(Flush(s)) && OnLine(Flush(s).rows, k, time, value)
  {
    var r := Flush(s);
    if OnLine(s.rows, k, time, value) {
      if r.rows != s.rows {
        OnLineMore(s.rows, [Row(s.time, s.buffer)], k, time, value);
      }
    } else {
      assert s.valid[k];
      assert r.rows[|s.rows|] == Row(s.time, s.buffer);
    }
  }

  lemma FlushSound<V>(s: FileState<V>)
    requires Sound(s)
    ensures Sound(Flush(s)) && Flush(s).columns == s.columns
  {
  }

  lemma ColumnKeeps<V>(s: FileState<V>, key: string, t: real, k: nat, time: real, value: V)
    requires Sound(s) && FileColumn(s, key, t).Some?
    ensures Sound(FileColumn(s, key, t).value)
    ensures Kept(s, k, time, value) ==> Kept(FileColumn(s, key, t).value, k, time, value)
  {
    FlushSound(s);
    if Kept(s, k, time, value) {
      FlushKeeps(s, k, time, value);
      var r := FileColumn(s, key, t).value;
      if !s.started && !s.first {
        assert |s.buffer| == 0 && r.rows == s.rows;
        assert !InBuffer(s, k, time, value);
        assert OnLine(r.rows, k, time, value);
      } else {
        assert r.rows == Flush(s).rows;
      }
    }
  }

  lemma TurnSound<V>(s: FileState<V>, key: string, t: real)
    requires Sound(s) && s.byBag && key in s.columns
    ensures Sound(FileTurn(s, key, t))
    ensures var r := FileTurn(s, key, t);
            r.columns == s.columns && r.watcher == s.watcher && r.time == s.time && r.first && r.byBag
    ensures forall k :: 0 <= k < |s.columns| && FileTurn(s, key, t).valid[k] ==> t == s.time && s.columns[k] != key
  {
    FlushSound(s);
    var r := FileTurn(s, key, t);
    forall k | 0 <= k < |s.columns| && r.valid[k] ensures t == s.time && s.columns[k] != key {
      assert r == s && s.valid[k];
    }
  }

  /** Before a cell is overwritten, what was in it has been written. */
  lemma TurnKeeps<V>(s: FileState<V>, key: string, t: real, k: nat, time: real, value: V)
    requires Sound(s) && s.byBag && key in s.columns && Kept(s, k, time, value)
    ensures Kept(FileTurn(s, key, t), k, time, value)
    ensures InBuffer(FileTurn(s, key, t), k, time, value) ==> t == time && s.columns[k] != key
  {
    TurnSound(s, key, t);
    FlushKeeps(s, k, time, value);
    FlushSound(s);
  }

  lemma ValueKeeps<V>(s: FileState<V>, key: string, t: real, v: V)
    requires Sound(s) && s.byBag && FileValue(s, key, t, v).Some?
    ensures Sound(FileValue(s, key, t, v).value)
    ensures Kept(FileValue(s, key, t, v).value, Position(s.columns, key), t, v)
  {
    TurnSound(s, key, t);
    var s1, r := FileTurn(s, key, t), FileValue(s, key, t, v).value;
    var p := Position(s.columns, key);
    forall j | 0 <= j < |r.columns| && r.valid[j] ensures r.watcher[r.columns[j]] == r.time {
      if j != p {
        assert s1.valid[j];
      }
    }
  }

  lemma ValueKeepsOthers<V>(s: FileState<V>, key: string, t: real, v: V, k: nat, time: real, value: V)
    requires Sound(s) && s.byBag && FileValue(s, key, t, v).Some? && Kept(s, k, time, value)
    ensures Kept(FileValue(s, key, t, v).value, k, time, value)
  {
    TurnSound(s, key, t);
    TurnKeeps(s, key, t, k, time, value);
    var s1 := FileTurn(s, key, t);
    if InBuffer(s1, k, time, value) {
      assert Position(s.columns, key) != k;
    }
  }

  /** A bare date that changes nothing for what is waiting: the date of the
      line, or an empty line. */
  ghost predicate Harmless<V>(s: FileState<V>, e: Item<V>)
  {
    e.Quiet? ==> s.time == e.time || true !in s.valid
  }

  /** The last item before m that is not a bare date is a value: something has
      arrived since the last new column. */
  predicate Waiting<V>(es: seq<Item<V>>, m: nat)
    requires m <= |es|
  {
    m > 0 && (es[m-1].Val? || (es[m-1].Quiet? && Waiting(es, m - 1)))
  }

  /** What a caller can check on the trace: a bare date that comes while values
      are waiting repeats the date before it. */
  ghost predicate Calm<V>(es: seq<Item<V>>)
  {
    forall i :: 1 <= i < |es| && es[i].Quiet? && Waiting(es, i) ==> es[i].time == es[i-1].time
  }

  lemma {:induction false} WaitingPrefix<V>(es: seq<Item<V>>, n: nat, m: nat)
    requires m <= n <= |es|
    ensures Waiting(es[..n], m) <==> Waiting(es, m)
  {
    if m > 0 {
      WaitingPrefix(es, n, m - 1);
    }
  }

  lemma CalmPrefix<V>(es: seq<Item<V>>, m: nat)
    requires Calm(es) && m <= |es|
    ensures Calm(es[..m])
  {
    forall i | 1 <= i < m && es[..m][i].Quiet? && Waiting(es[..m], i) ensures es[..m][i].time == es[..m][i-1].time {
      WaitingPrefix(es, m, i);
    }
  }

  /** The marks of the line say just that: some cell is new exactly when values
      are waiting, and then the line has the date of the last item. */
  lemma {:induction false} WaitingIs<V>(byBag: bool, es: seq<Item<V>>)
    requires FileRun(NewFile(byBag), es).Some?
    ensures var s := FileRun(NewFile(byBag), es).value;
            && (s.valid != [] || s.started ==> s.first) && (true in s.valid <==> Waiting(es, |es|))
            && (Waiting(es, |es|) ==> s.time == es[|es|-1].time)
    decreases |es|
  {
    if es != [] {
      var n := |es| - 1;
      WaitingIs(byBag, es[..n]);
      WaitingPrefix(es, n, n);
      var s, e := FileRun(NewFile(byBag), es[..n]).value, es[n];
      WaitingStep(s, e);
    }
  }

  lemma WaitingStep<V>(s: FileState<V>, e: Item<V>)
    requires FileStep(s, e).Some? && (s.valid != [] || s.started ==> s.first)
    ensures var r := FileStep(s, e).value;
            && (r.valid != [] || r.started ==> r.first)
            && (true in r.valid <==> e.Val? || (e.Quiet? && true in s.valid))
            && (!e.NewColumn? ==> r.time == e.time)
  {
    var r := FileStep(s, e).value;
    match e {
      case NewColumn(key, t) =>
        assert true !in Flush(s).valid || (s.valid == [] && Flush(s).valid == []);
      case Val(key, t, v) =>
        var k := Position(s.columns, key);
        assert r.valid[k];
      case Quiet(t) =>
    }
  }

  /** On a calm trace every bare date is harmless. */
  lemma CalmHarmless<V>(es: seq<Item<V>>, i: nat)
    requires Calm(es) && i < |es| && FileRun(NewFile(true), es[..i]).Some?
    ensures Harmless(FileRun(NewFile(true), es[..i]).value, es[i])
  {
    WaitingIs(true, es[..i]);
    WaitingPrefix(es, i, i);
  }

  lemma QuietKeeps<V>(s: FileState<V>, e: Item<V>, k: nat, time: real, value: V)
    requires Sound(s) && e.Quiet? && Harmless(s, e)
    ensures Sound(FileStep(s, e).value)
    ensures Kept(s, k, time, value) ==> Kept(FileStep(s, e).value, k, time, value)
  {
    var r := FileStep(s, e).value;
    if s.time != e.time {
      assert forall j :: 0 <= j < |s.valid| ==> !s.valid[j];
    }
    if OnLine(s.rows, k, time, value) {
      assert OnLine(r.rows, k, time, value);
    }
  }

  /** Any other bare date takes the waiting values over to the new date: what
      was not yet on a line under its own date no longer will be. */
  lemma QuietRelabels<V>(s: FileState<V>, e: Item<V>, k: nat, value: V)
    requires Sound(s) && e.Quiet? && !Harmless(s, e) && InBuffer(s, k, s.time, value)
    ensures var rows := FileRows(FileStep(s, e).value);
            && rows == s.rows + [Row(e.time, s.buffer)] && OnLine(rows, k, e.time, value)
            && (OnLine(rows, k, s.time, value) <==> OnLine(s.rows, k, s.time, value))
  {
    var rows := FileRows(FileStep(s, e).value);
    assert rows[|s.rows|] == Row(e.time, s.buffer);
    if OnLine(s.rows, k, s.time, value) {
      OnLineMore(s.rows, [Row(e.time, s.buffer)], k, s.time, value);
    }
    if OnLine(rows, k, s.time, value) {
      var i :| 0 <= i < |rows| && rows[i].time == s.time && k < |rows[i].cells| && rows[i].cells[k] == Some(value);
      assert i < |s.rows| && s.rows[i] == rows[i];
    }
  }

  lemma StepSound<V>(s: FileState<V>, e: Item<V>)
    requires Sound(s) && s.byBag && Harmless(s, e) && FileStep(s, e).Some?
    ensures Sound(FileStep(s, e).value) && FileStep(s, e).value.byBag
  {
    match e {
      case Val(key, t, v) => ValueKeeps(s, key, t, v);
      case NewColumn(_, _) => FlushSound(s);
      case Quiet(t) =>
        if s.time != t {
          assert forall j :: 0 <= j < |s.valid| ==> !s.valid[j];
        }
    }
  }

  lemma {:induction false} RunSound<V>(es: seq<Item<V>>)
    requires Calm(es) && FileRun(NewFile(true), es).Some?
    ensures Sound(FileRun(NewFile(true), es).value) && FileRun(NewFile(true), es).value.byBag
    decreases |es|
  {
    if es != [] {
      var n := |es| - 1;
      CalmPrefix(es, n);
      RunSound(es[..n]);
      var s, e := FileRun(NewFile(true), es[..n]).value, es[n];
      CalmHarmless(es, n);
      StepSound(s, e);
    }
  }

  /** The column a delivered value belongs to. */
  ghost function ColumnOf<V>(es: seq<Item<V>>, i: nat): nat
    requires i < |es| && es[i].Val? && FileRun(NewFile(true), es[..i]).Some?
  {
    Position(FileRun(NewFile(true), es[..i]).value.columns, es[i].key)
  }

  lemma StepKeeps<V>(s: FileState<V>, e: Item<V>, k: nat, time: real, value: V)
    requires Sound(s) && s.byBag && Harmless(s, e) && FileStep(s, e).Some? && Kept(s, k, time, value)
    ensures Kept(FileStep(s, e).value, k, time, value)
  {
    if e.Val? {
      ValueKeepsOthers(s, e.key, e.time, e.value, k, time, value);
    } else if e.Quiet? {
      QuietKeeps(s, e, k, time, value);
    } else {
      ColumnKeeps(s, e.key, e.time, k, time, value);
    }
  }

  lemma {:induction false} RunKeeps<V>(es: seq<Item<V>>, i: nat, m: nat)
    requires Calm(es) && i < m <= |es| && es[i].Val?
    requires FileRun(NewFile(true), es[..m]).Some?
    ensures FileRun(NewFile(true), es[..i]).Some?
    ensures Kept(FileRun(NewFile(true), es[..m]).value, ColumnOf(es, i), es[i].time, es[i].value)
    decreases m
  {
    assert es[..m][..m-1] == es[..m-1] && es[..m][m-1] == es[m-1];
    CalmPrefix(es, m - 1);
    RunSound(es[..m-1]);
    CalmHarmless(es, m - 1);
    var s, e := FileRun(NewFile(true), es[..m-1]).value, es[m-1];
    if i == m - 1 {
      ValueKeeps(s, e.key, e.time, e.value);
    } else {
      RunKeeps(es, i, m - 1);
      StepKeeps(s, e, ColumnOf(es, i), es[i].time, es[i].value);
    }
  }

  /** With flush-by-bag on, every value delivered for a registered column, with
      columns registered at any moment, is on a line of the final file, in its
      column and under its own date, provided the trace is calm. */
  lemma NothingLost<V>(es: seq<Item<V>>, i: nat)
    requires Calm(es) && i < |es| && es[i].Val? && FileRun(NewFile(true), es).Some?
    ensures FileRun(NewFile(true), es[..i]).Some?
    ensures OnLine(FileRows(FileRun(NewFile(true), es).value), ColumnOf(es, i), es[i].time, es[i].value)
  {
    assert es[..|es|] == es;
    RunKeeps(es, i, |es|);
    RunSound(es);
    FlushKeeps(FileRun(NewFile(true), es).value, ColumnOf(es, i), es[i].time, es[i].value);
  }

  // The converse -------------------------------------------------------------------------------

  /** Dates do not go back. */
  ghost predicate Monotone<V>(es: seq<Item<V>>)
  {
    forall i, j :: 0 <= i < j < |es| ==> es[i].time <= es[j].time
  }

  /** No value is delivered twice. */
  ghost predicate DistinctValues<V>(es: seq<Item<V>>)
  {
    forall i, j :: 0 <= i < j < |es| && es[i].Val? && es[j].Val? ==> es[i].value != es[j].value
  }

  ghost predicate Delivered<V>(es: seq<Item<V>>, m: int, v: V)
  {
    exists i :: 0 <= i < m && i < |es| && es[i].Val? && es[i].value == v
  }

  ghost predicate FromTrace<V>(es: seq<Item<V>>, m: int, cells: seq<Option<V>>)
  {
    forall k :: 0 <= k < |cells| && cells[k].Some? ==> Delivered(es, m, cells[k].value)
  }

  /** Lines and buffer hold only what has been delivered. */
  ghost predicate OnlyDelivered<V>(es: seq<Item<V>>, m: int, s: FileState<V>)
  {
    FromTrace(es, m, s.buffer) && forall i :: 0 <= i < |s.rows| ==> FromTrace(es, m, s.rows[i].cells)
  }

  lemma FlushDelivered<V>(es: seq<Item<V>>, m: int, s: FileState<V>)
    requires OnlyDelivered(es, m, s)
    ensures OnlyDelivered(es, m, Flush(s))
  {
  }

  lemma DeliveredLater<V>(es: seq<Item<V>>, m: int, n: int, s: FileState<V>)
    requires OnlyDelivered(es, m, s) && m <= n
    ensures OnlyDelivered(es, n, s)
  {
  }

  lemma StepDelivered<V>(es: seq<Item<V>>, m: nat, s: FileState<V>)
    requires m < |es| && OnlyDelivered(es, m, s) && FileStep(s, es[m]).Some?
    ensures OnlyDelivered(es, m + 1, FileStep(s, es[m]).value)
  {
    FlushDelivered(es, m, s);
    DeliveredLater(es, m, m + 1, s);
    DeliveredLater(es, m, m + 1, Flush(s));
    if es[m].Val? {
      assert Delivered(es, m + 1, es[m].value);
    }
  }

  lemma {:induction false} RunDelivered<V>(es: seq<Item<V>>, m: nat)
    requires m <= |es| && FileRun(NewFile(true), es[..m]).Some?
    ensures OnlyDelivered(es, m, FileRun(NewFile(true), es[..m]).value)
    decreases m
  {
    if m > 0 {
      assert es[..m][..m-1] == es[..m-1];
      RunDelivered(es, m - 1);
      StepDelivered(es, m - 1, FileRun(NewFile(true), es[..m-1]).value);
    }
  }

  /** Once the first item has come, the date of the line is one that has been
      seen. */
  lemma {:induction false} TimeSeen<V>(es: seq<Item<V>>, m: nat, t: real)
    requires m <= |es| && FileRun(NewFile(true), es[..m]).Some? && m > 0
    requires forall i :: 0 <= i < m ==> es[i].time <= t
    ensures FileRun(NewFile(true), es[..m]).value.time <= t
    decreases m
  {
    assert es[..m][..m-1] == es[..m-1];
    var s, e := FileRun(NewFile(true), es[..m-1]).value, es[m-1];
    if m == 1 {
      assert s == NewFile(true);
    } else {
      TimeSeen(es, m - 1, t);
    }
    assert e.time <= t;
  }

  /** A value that is on no line under its date, while the line has a later one. */
  ghost predicate Missed<V>(s: FileState<V>, k: nat, time: real, value: V)
  {
    s.time > time && s.first && !OnLine(s.rows, k, time, value)
  }

  lemma FlushMisses<V>(s: FileState<V>, k: nat, time: real, value: V)
    requires Missed(s, k, time, value)
    ensures Missed(Flush(s), k, time, value)
  {
    var rows := Flush(s).rows;
    forall i | 0 <= i < |rows| && rows[i].time == time && k < |rows[i].cells| ensures rows[i].cells[k] != Some(value) {
      assert rows[i] == s.rows[i];
    }
  }

  /** It stays missed. */
  lemma StepMisses<V>(s: FileState<V>, e: Item<V>, k: nat, time: real, value: V)
    requires Missed(s, k, time, value) && FileStep(s, e).Some? && e.time >= s.time
    ensures Missed(FileStep(s, e).value, k, time, value)
  {
    FlushMisses(s, k, time, value);
  }

  lemma {:induction false} RunMisses<V>(es: seq<Item<V>>, m: nat, n: nat, k: nat, time: real, value: V)
    requires 0 < m <= n <= |es| && Monotone(es) && FileRun(NewFile(true), es[..n]).Some?
    requires FileRun(NewFile(true), es[..m]).Some? && Missed(FileRun(NewFile(true), es[..m]).value, k, time, value)
    ensures Missed(FileRun(NewFile(true), es[..n]).value, k, time, value)
    decreases n - m
  {
    if m < n {
      RunSome(es, m + 1, n);
      assert es[..m+1][..m] == es[..m];
      TimeSeen(es, m, es[m].time);
      StepMisses(FileRun(NewFile(true), es[..m]).value, es[m], k, time, value);
      RunMisses(es, m + 1, n, k, time, value);
    }
  }

  lemma {:induction false} RunSome<V>(es: seq<Item<V>>, m: nat, n: nat)
    requires m <= n <= |es| && FileRun(NewFile(true), es[..n]).Some?
    ensures FileRun(NewFile(true), es[..m]).Some?
    decreases n
  {
    if m < n {
      assert es[..n][..n-1] == es[..n-1];
      RunSome(es, m, n - 1);
    }
  }

  /** The last value before a bare date that comes while values are waiting. */
  lemma {:induction false} LastValue<V>(es: seq<Item<V>>, i: nat) returns (j: nat)
    requires i <= |es| && Waiting(es, i)
    ensures j < i && es[j].Val? && forall m :: j < m < i ==> es[m].Quiet? && Waiting(es, m)
  {
    if es[i-1].Val? {
      j := i - 1;
    } else {
      j := LastValue(es, i - 1);
    }
  }

  /** Bare dates that repeat the date change nothing. */
  lemma {:induction false} QuietStays<V>(es: seq<Item<V>>, j: nat, i: nat)
    requires j < i <= |es| && es[j].Val? && FileRun(NewFile(true), es[..i]).Some?
    requires forall m :: j < m < i ==> es[m].Quiet? && es[m].time == es[m-1].time
    ensures FileRun(NewFile(true), es[..j+1]).Some?
    ensures FileRun(NewFile(true), es[..i]) == FileRun(NewFile(true), es[..j+1])
    ensures es[i-1].time == es[j].time
    decreases i
  {
    if j + 1 < i {
      assert es[..i][..i-1] == es[..i-1];
      QuietStays(es, j, i - 1);
      assert es[..j+1][..j] == es[..j];
      var s := FileRun(NewFile(true), es[..j+1]).value;
      assert s.time == es[j].time;
    } else {
      assert es[..i] == es[..j+1];
    }
  }

  /** Right after its delivery a value is on no line yet, if it was never
      delivered before. */
  lemma JustDelivered<V>(es: seq<Item<V>>, j: nat)
    requires j < |es| && es[j].Val? && DistinctValues(es) && FileRun(NewFile(true), es[..j+1]).Some?
    ensures FileRun(NewFile(true), es[..j]).Some?
    ensures var s := FileRun(NewFile(true), es[..j+1]).value;
            s.time == es[j].time && s.first && !OnLine(s.rows, ColumnOf(es, j), es[j].time, es[j].value)
  {
    RunSome(es, j, j + 1);
    assert es[..j+1][..j] == es[..j];
    var s, r := FileRun(NewFile(true), es[..j]).value, FileRun(NewFile(true), es[..j+1]).value;
    RunDelivered(es, j);
    FlushDelivered(es, j, s);
    WaitingIs(true, es[..j]);
    WaitingIs(true, es[..j+1]);
    var k := ColumnOf(es, j);
    assert !Delivered(es, j, es[j].value);
    forall i | 0 <= i < |r.rows| && k < |r.rows[i].cells| ensures r.rows[i].cells[k] != Some(es[j].value) {
      assert FromTrace(es, j, r.rows[i].cells);
    }
  }

  /** Every delivered value is on a line, in its column and under its date. */
  ghost predicate NoneLost<V>(es: seq<Item<V>>)
    requires FileRun(NewFile(true), es).Some?
  {
    forall i :: 0 <= i < |es| && es[i].Val? ==> Kept1(es, i)
  }

  ghost predicate Kept1<V>(es: seq<Item<V>>, i: nat)
    requires i < |es| && es[i].Val? && FileRun(NewFile(true), es).Some?
  {
    FileRun(NewFile(true), es[..i]).Some?
    && OnLine(FileRows(FileRun(NewFile(true), es).value), ColumnOf(es, i), es[i].time, es[i].value)
  }

  /** A bare date with another date, behind a value. */
  ghost predicate Relabels<V>(es: seq<Item<V>>, j: nat, i: nat)
  {
    && j < i < |es| && es[j].Val? && es[i].Quiet? && es[i].time != es[i-1].time
    && forall m :: j < m < i ==> es[m].Quiet? && es[m].time == es[m-1].time
  }

  /** A value that waits when a bare date arrives is written under that date. */
  lemma MissedAt<V>(es: seq<Item<V>>, j: nat, i: nat)
    requires Monotone(es) && DistinctValues(es) && Relabels(es, j, i) && FileRun(NewFile(true), es[..i+1]).Some?
    ensures FileRun(NewFile(true), es[..j]).Some?
    ensures Missed(FileRun(NewFile(true), es[..i+1]).value, ColumnOf(es, j), es[j].time, es[j].value)
  {
    RunSome(es, i, i + 1);
    RunSome(es, j + 1, i + 1);
    QuietStays(es, j, i);
    JustDelivered(es, j);
    OneMoreQuiet(es, i);
    var s := FileRun(NewFile(true), es[..i]).value;
    assert FileRun(NewFile(true), es[..i+1]).value == s.(time := es[i].time);
    assert es[j].time == es[i-1].time < es[i].time;
  }

  lemma OneMoreQuiet<V>(es: seq<Item<V>>, i: nat)
    requires i < |es| && es[i].Quiet? && FileRun(NewFile(true), es[..i]).Some?
    ensures FileRun(NewFile(true), es[..i+1]) == FileStep(FileRun(NewFile(true), es[..i]).value, es[i])
  {
    assert es[..i+1][..i] == es[..i];
  }

  lemma RunPrefix<V>(es: seq<Item<V>>, m: nat)
    requires m <= |es| && FileRun(NewFile(true), es).Some?
    ensures FileRun(NewFile(true), es[..m]).Some?
  {
    assert es[..|es|] == es;
    RunSome(es, m, |es|);
  }

  lemma DateMissed<V>(es: seq<Item<V>>, j: nat, i: nat)
    requires Monotone(es) && DistinctValues(es) && Relabels(es, j, i) && FileRun(NewFile(true), es).Some?
    ensures !Kept1(es, j)
  {
    RunPrefix(es, i + 1);
    MissedAt(es, j, i);
    MissedAtEnd(es, j, i, ColumnOf(es, j));
  }

  lemma MissedAtEnd<V>(es: seq<Item<V>>, j: nat, i: nat, k: nat)
    requires j < i < |es| && es[j].Val? && Monotone(es) && FileRun(NewFile(true), es).Some?
    requires FileRun(NewFile(true), es[..i+1]).Some?
    requires Missed(FileRun(NewFile(true), es[..i+1]).value, k, es[j].time, es[j].value)
    ensures !OnLine(FileRows(FileRun(NewFile(true), es).value), k, es[j].time, es[j].value)
  {
    assert es[..|es|] == es;
    RunMisses(es, i + 1, |es|, k, es[j].time, es[j].value);
    FlushMisses(FileRun(NewFile(true), es).value, k, es[j].time, es[j].value);
  }

  /** The earliest bare date that is not calm. */
  lemma {:induction false} FirstUncalm<V>(es: seq<Item<V>>, i: nat) returns (f: nat)
    requires 1 <= i < |es| && es[i].Quiet? && Waiting(es, i) && es[i].time != es[i-1].time
    ensures 1 <= f <= i && es[f].Quiet? && Waiting(es, f) && es[f].time != es[f-1].time
    ensures forall m :: 1 <= m < f && es[m].Quiet? && Waiting(es, m) ==> es[m].time == es[m-1].time
    decreases i
  {
    if m :| 1 <= m < i && es[m].Quiet? && Waiting(es, m) && es[m].time != es[m-1].time {
      f := FirstUncalm(es, m);
    } else {
      f := i;
    }
  }

  /** The exact condition: with flush-by-bag on, over every trace whose dates do
      not go back and whose values are all different, no value is lost if and
      only if the trace is calm. */
  lemma NoLossExact<V>(es: seq<Item<V>>)
    requires Monotone(es) && DistinctValues(es) && FileRun(NewFile(true), es).Some?
    ensures NoneLost(es) <==> Calm(es)
  {
    if Calm(es) {
      forall i | 0 <= i < |es| && es[i].Val? ensures Kept1(es, i) {
        NothingLost(es, i);
      }
    } else {
      var i :| 1 <= i < |es| && es[i].Quiet? && Waiting(es, i) && es[i].time != es[i-1].time;
      var f := FirstUncalm(es, i);
      var j := LastValue(es, f);
      DateMissed(es, j, f);
    }
  }
}
