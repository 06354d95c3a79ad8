/** File against Storage on the same trace: File writes the forward fill of what
    Storage holds, exactly when every date is opened by a value. */
module OutputFill {
  import opened Common
  import opened OutputPlugins

  // Traces --------------------------------------------------------------------------------------

  ghost predicate DistinctKeys(keys: seq<string>)
  {
    forall i, j :: 0 <= i < j < |keys| ==> keys[i] != keys[j]
  }

  /** After registration: values for known columns, and bare dates. */
  ghost predicate Plain<V>(keys: seq<string>, es: seq<Item<V>>)
  {
    forall i :: 0 <= i < |es| ==> !es[i].NewColumn? && (es[i].Val? ==> es[i].key in keys)
  }

  ghost predicate HasVal<V>(es: seq<Item<V>>)
  {
    exists i :: 0 <= i < |es| && es[i].Val?
  }

  ghost predicate OneDate<V>(es: seq<Item<V>>)
  {
    forall i :: 0 <= i < |es| ==> es[i].time == es[0].time
  }

  /** Every later date starts with a value, and the first date has one. A view
      with at least one observable only sends such traces. */
  ghost predicate Steady<V>(es: seq<Item<V>>)
  {
    es != [] ==>
      && (exists i :: 0 <= i < |es| && es[i].Val? && forall j :: 0 <= j <= i ==> es[j].time == es[0].time)
      && (forall i :: 1 <= i < |es| && es[i].time != es[i-1].time ==> es[i].Val?)
  }

  lemma HasValSnoc<V>(es: seq<Item<V>>, e: Item<V>)
    ensures HasVal(es + [e]) <==> HasVal(es) || e.Val?
  {
    var all := es + [e];
    if HasVal(es) {
      var i :| 0 <= i < |es| && es[i].Val?;
      assert all[i].Val?;
    }
    if e.Val? {
      assert all[|es|].Val?;
    }
  }

  lemma SteadySnoc<V>(es: seq<Item<V>>, e: Item<V>)
    requires es != []
    ensures HasVal(es) ==>
              (Steady(es + [e]) <==> Steady(es) && (e.time == es[|es|-1].time || e.Val?))
    ensures !HasVal(es) ==> !Steady(es)
    ensures !HasVal(es) ==> (Steady(es + [e]) <==> e.Val? && OneDate(es) && e.time == es[0].time)
  {
    var all := es + [e];
    assert all[|es|] == e && all[|es|-1] == es[|es|-1] && all[0] == es[0];
    if HasVal(es) {
      if Steady(es) && (e.time == es[|es|-1].time || e.Val?) {
        var i :| 0 <= i < |es| && es[i].Val? && forall j :: 0 <= j <= i ==> es[j].time == es[0].time;
        assert all[i].Val? && forall j :: 0 <= j <= i ==> all[j].time == all[0].time;
        assert Steady(all);
      }
      if Steady(all) {
        SteadyPrefix(es, e);
      }
    } else {
      if Steady(all) {
        var i :| 0 <= i < |all| && all[i].Val? && forall j :: 0 <= j <= i ==> all[j].time == all[0].time;
        assert forall j :: 0 <= j < |es| ==> all[j] == es[j] && !es[j].Val?;
        assert i == |es|;
        assert forall j :: 0 <= j < |es| ==> es[j].time == all[j].time;
      }
      if e.Val? && OneDate(es) && e.time == es[0].time {
        assert all[|es|].Val? && forall j :: 0 <= j <= |es| ==> all[j].time == all[0].time;
      }
    }
  }

  lemma SteadyPrefix<V>(es: seq<Item<V>>, e: Item<V>)
    requires es != [] && HasVal(es) && Steady(es + [e])
    ensures Steady(es) && (e.time == es[|es|-1].time || e.Val?)
  {
    var all := es + [e];
    assert all[|es|] == e && all[|es|-1] == es[|es|-1];
    assert forall j :: 0 <= j < |es| ==> all[j] == es[j];
    var i :| 0 <= i < |all| && all[i].Val? && forall j :: 0 <= j <= i ==> all[j].time == all[0].time;
    if i == |es| {
      var k :| 0 <= k < |es| && es[k].Val?;
      assert forall j :: 0 <= j <= k ==> es[j].time == es[0].time;
    } else {
      assert es[i].Val? && forall j :: 0 <= j <= i ==> es[j].time == es[0].time;
    }
    forall k | 1 <= k < |es| && es[k].time != es[k-1].time ensures es[k].Val? {
      assert all[k].time != all[k-1].time;
    }
  }

  // Registration ------------------------------------------------------------------------------------

  /** Both plug-ins once their columns are known and nothing has been sent. */
  ghost predicate Registered<V>(f: FileState<V>, s: StorageState<V>, keys: seq<string>)
  {
    && f.columns == keys && f.buffer == Nothings(|keys|) && f.valid == Falses(|keys|)
    && f.first && !f.byBag && f.rows == []
    && s == StorageState(keys, [], None)
  }

  function Columns<V>(keys: seq<string>, t: real): (es: seq<Item<V>>)
    ensures |es| == |keys|
  {
    seq(|keys|, i requires 0 <= i < |keys| => NewColumn(keys[i], t))
  }

  lemma {:induction false} RegistrationDone<V>(keys: seq<string>, t: real)
    requires keys != [] && DistinctKeys(keys)
    ensures FileRun<V>(NewFile(false), Columns(keys, t)).Some?
    ensures var es := Columns(keys, t);
            Registered<V>(FileRun(NewFile(false), es).value, StorageRun(NewStorage(), es), keys)
  {
    var n := |keys| - 1;
    var es := Columns<V>(keys, t);
    var init := keys[..n];
    assert es[..n] == Columns<V>(init, t);
    if n == 0 {
      assert keys == [keys[0]];
      assert es[..0] == [];
      assert Nothings<V>(1) == [None] && Falses(1) == [false];
    } else {
      RegistrationDone<V>(init, t);
      var f := FileRun<V>(NewFile(false), es[..n]).value;
      assert keys[n] !in init;
      assert Flush(f) == f;
      assert init + [keys[n]] == keys;
      assert Nothings<V>(n) + [None] == Nothings<V>(n + 1) && Falses(n) + [false] == Falses(n + 1);
    }
  }

  function Then<V>(t: Option<FileState<V>>, e: Item<V>): (r: Option<FileState<V>>)
  {
    if t.None? then None else FileStep(t.value, e)
  }

  lemma FileSnoc<V>(f: FileState<V>, es: seq<Item<V>>, e: Item<V>, all: seq<Item<V>>)
    requires all == es + [e]
    ensures FileRun(f, all) == Then(FileRun(f, es), e)
  {
    assert all[..|all|-1] == es && all[|all|-1] == e;
  }

  lemma StorageSnoc<V>(s: StorageState<V>, es: seq<Item<V>>, e: Item<V>, all: seq<Item<V>>)
    requires all == es + [e]
    ensures StorageRun(s, all) == StorageStep(StorageRun(s, es), e)
  {
    assert all[..|all|-1] == es && all[|all|-1] == e;
  }

  lemma {:induction false} RunAppend<V>(f: FileState<V>, s: StorageState<V>, a: seq<Item<V>>, b: seq<Item<V>>)
    requires FileRun(f, a).Some?
    ensures FileRun(f, a + b) == FileRun(FileRun(f, a).value, b)
    ensures StorageRun(s, a + b) == StorageRun(StorageRun(s, a), b)
    decreases |b|
  {
    if b == [] {
      assert a + b == a;
    } else {
      var n := |b| - 1;
      RunAppend(f, s, a, b[..n]);
      assert b == b[..n] + [b[n]] && a + b == (a + b[..n]) + [b[n]];
      FileSnoc(f, a + b[..n], b[n], a + b);
      FileSnoc(FileRun(f, a).value, b[..n], b[n], b);
      StorageSnoc(s, a + b[..n], b[n], a + b);
      StorageSnoc(StorageRun(s, a), b[..n], b[n], b);
    }
  }

  // Counting ------------------------------------------------------------------------------------------

  /** What both machines look like after a plain trace; the last line says by
      how much File is behind. */
  ghost predicate Counted<V>(keys: seq<string>, es: seq<Item<V>>, f: FileState<V>, s: StorageState<V>)
  {
    && f.columns == s.columns == keys && |f.buffer| == |f.valid| == |keys| && f.first && !f.byBag
    && (if es == [] then s.rows == [] && s.time == None
        else f.time == es[|es|-1].time && s.time == Some(f.time) && s.rows != [])
    && (true in f.valid <==> HasVal(es))
    && (HasVal(es) ==> f.started)
    && (!HasVal(es) ==> f.rows == [])
    && (es != [] ==> (|s.rows| == 1 <==> OneDate(es)))
    && Written(f) <= |s.rows|
    && (Written(f) == |s.rows| <==> Steady(es))
  }

  ghost function Written<V>(f: FileState<V>): nat
  {
    |f.rows| + if true in f.valid then 1 else 0
  }

  lemma OneDateSnoc<V>(es: seq<Item<V>>, e: Item<V>)
    requires es != []
    ensures OneDate(es + [e]) <==> OneDate(es) && e.time == es[|es|-1].time
  {
    var all := es + [e];
    assert all[|es|] == e && forall i :: 0 <= i < |es| ==> all[i] == es[i];
  }

  lemma FirstItem<V>(keys: seq<string>, e: Item<V>, f: FileState<V>, s: StorageState<V>, f': FileState<V>)
    requires keys != [] && Counted(keys, [], f, s) && f.rows == [] && Plain(keys, [e]) && FileStep(f, e) == Some(f')
    ensures Counted(keys, [e], f', StorageStep(s, e))
  {
    var es := [e];
    assert es[0] == e;
    assert HasVal(es) <==> e.Val?;
    if e.Val? {
      assert es[0].Val? && forall j :: 0 <= j <= 0 ==> es[j].time == es[0].time;
      assert Steady(es);
      assert f'.valid[Position(keys, e.key)];
    }
  }

  lemma MoreItem<V>(keys: seq<string>, es: seq<Item<V>>, e: Item<V>, f: FileState<V>, s: StorageState<V>,
                    f': FileState<V>)
    requires keys != [] && es != [] && Counted(keys, es, f, s) && Plain(keys, es + [e]) && FileStep(f, e) == Some(f')
    ensures Counted(keys, es + [e], f', StorageStep(s, e))
  {
    var all := es + [e];
    assert all[|es|] == e;
    HasValSnoc(es, e);
    SteadySnoc(es, e);
    OneDateSnoc(es, e);
    if e.Val? {
      assert f'.valid[Position(keys, e.key)];
    }
  }

  /** One item more, after the runs on the items before. */
  lemma CountedSnoc<V>(keys: seq<string>, init: seq<Item<V>>, e: Item<V>, g: FileState<V>, t: StorageState<V>)
    requires keys != [] && Plain(keys, init + [e])
    requires Counted(keys, init, g, t) && (init == [] ==> g.rows == [])
    ensures FileStep(g, e).Some? && Counted(keys, init + [e], FileStep(g, e).value, StorageStep(t, e))
  {
    assert (init + [e])[|init|] == e;
    if init == [] {
      assert init + [e] == [e];
      FirstItem(keys, e, g, t, FileStep(g, e).value);
    } else {
      MoreItem(keys, init, e, g, t, FileStep(g, e).value);
    }
  }

  lemma {:induction false} CountedRun<V>(keys: seq<string>, f: FileState<V>, s: StorageState<V>, es: seq<Item<V>>)
    requires keys != [] && Registered(f, s, keys) && Plain(keys, es)
    ensures FileRun(f, es).Some? && Counted(keys, es, FileRun(f, es).value, StorageRun(s, es))
    ensures es == [] ==> FileRun(f, es).value.rows == []
    decreases |es|
  {
    if es == [] {
      assert !HasVal(es);
    } else {
      var n := |es| - 1;
      assert es == es[..n] + [es[n]];
      CountedRun(keys, f, s, es[..n]);
      CountedSnoc(keys, es[..n], es[n], FileRun(f, es[..n]).value, StorageRun(s, es[..n]));
    }
  }

  // Forward fill ----------------------------------------------------------------------------------------

  function Over<V>(a: seq<Option<V>>, b: seq<Option<V>>): (r: seq<Option<V>>)
    requires |a| == |b|
    ensures |r| == |a|
    ensures forall k :: 0 <= k < |a| ==> r[k] == if b[k].Some? then b[k] else a[k]
  {
    seq(|a|, k requires 0 <= k < |a| => if b[k].Some? then b[k] else a[k])
  }

  ghost predicate Wide<V>(rows: seq<Row<V>>, n: nat)
  {
    forall i :: 0 <= i < |rows| ==> |rows[i].cells| == n
  }

  /** The latest known value of every column. */
  function Fill<V>(rows: seq<Row<V>>, n: nat): (r: seq<Option<V>>)
    requires Wide(rows, n)
    ensures |r| == n
  {
    if rows == [] then Nothings(n) else Over(Fill(rows[..|rows|-1], n), rows[|rows|-1].cells)
  }

  /** The lines written so far are the filled rows of closed dates, and the
      buffer is the filled row of the open date. */
  ghost predicate Filled<V>(f: FileState<V>, s: StorageState<V>, n: nat)
  {
    && s.rows != [] && Wide(s.rows, n)
    && |f.rows| == |s.rows| - 1
    && (forall i :: 0 <= i < |f.rows| ==> f.rows[i].time == s.rows[i].time && f.rows[i].cells == Fill(s.rows[..i+1], n))
    && f.time == s.rows[|s.rows|-1].time
    && f.buffer == Fill(s.rows, n)
  }

  /** Steady, or on the way to be: only bare dates so far, all the same. */
  ghost predicate NearSteady<V>(es: seq<Item<V>>)
  {
    Steady(es) || (!HasVal(es) && OneDate(es))
  }

  lemma FillSet<V>(rows: seq<Row<V>>, n: nat, k: nat, v: V)
    requires Wide(rows, n) && rows != [] && k < n
    ensures Wide(SetCell(rows, k, v), n)
    ensures Fill(SetCell(rows, k, v), n) == Fill(rows, n)[k := Some(v)]
  {
    var m := |rows| - 1;
    var r := SetCell(rows, k, v);
    assert r[..m] == rows[..m];
    assert Fill(r, n) == Over(Fill(rows[..m], n), rows[m].cells[k := Some(v)]);
  }

  lemma SetCellPrefix<V>(rows: seq<Row<V>>, k: nat, v: V, i: nat)
    requires i + 1 < |rows|
    ensures SetCell(rows, k, v)[..i+1] == rows[..i+1]
  {
  }

  lemma FillAdd<V>(rows: seq<Row<V>>, n: nat, t: real)
    requires Wide(rows, n)
    ensures Wide(rows + [Row(t, Nothings(n))], n)
    ensures Fill(rows + [Row(t, Nothings(n))], n) == Fill(rows, n)
  {
    var all := rows + [Row(t, Nothings(n))];
    assert all[..|rows|] == rows;
    assert Fill(all, n) == Over(Fill(rows, n), Nothings(n));
  }

  /** A new date opened by a value. */
  lemma FillNewDate<V>(f: FileState<V>, s: StorageState<V>, n: nat, e: Item<V>, k: nat)
    requires Filled(f, s, n) && e.Val? && k == Position(f.columns, e.key) < n == |f.columns|
    requires |f.buffer| == |f.valid| == n && f.columns == s.columns && true in f.valid && f.started
    requires e.time != f.time && s.time == Some(f.time) && !f.byBag
    ensures FileStep(f, e).Some? && Filled(FileStep(f, e).value, StorageStep(s, e), n)
  {
    var s1 := NextTime(s, e.time);
    FillAdd(s.rows, n, e.time);
    FillSet(s1.rows, n, k, e.value);
    var g, t := FileStep(f, e).value, StorageStep(s, e);
    assert g.rows == f.rows + [Row(f.time, f.buffer)];
    forall i | 0 <= i < |g.rows| ensures g.rows[i].time == t.rows[i].time && g.rows[i].cells == Fill(t.rows[..i+1], n) {
      SetCellPrefix(s1.rows, k, e.value, i);
      assert t.rows[..i+1] == s1.rows[..i+1] == s.rows[..i+1];
      if i == |f.rows| {
        assert s.rows[..i+1] == s.rows;
      }
    }
  }

  lemma FillSameDate<V>(f: FileState<V>, s: StorageState<V>, n: nat, e: Item<V>, k: nat)
    requires Filled(f, s, n) && e.Val? && k == Position(f.columns, e.key) < n == |f.columns|
    requires |f.buffer| == |f.valid| == n && f.columns == s.columns && f.first && (true in f.valid ==> f.started)
    requires e.time == f.time && s.time == Some(f.time) && !f.byBag
    ensures FileStep(f, e).Some? && Filled(FileStep(f, e).value, StorageStep(s, e), n)
  {
    FillSet(s.rows, n, k, e.value);
    var g, t := FileStep(f, e).value, StorageStep(s, e);
    assert g.rows == f.rows;
    forall i | 0 <= i < |g.rows| ensures g.rows[i].time == t.rows[i].time && g.rows[i].cells == Fill(t.rows[..i+1], n) {
      SetCellPrefix(s.rows, k, e.value, i);
    }
  }

  /** Nothing to write yet: a turn of File changes nothing but its flags. */
  lemma NothingWritten<V>(keys: seq<string>, f: FileState<V>, e: Item<V>)
    requires keys != [] && e.Val? && e.key in keys
    requires f.columns == keys && |f.buffer| == |keys| && f.valid == Falses(|keys|) && f.first && !f.byBag
    ensures FileStep(f, e) == FileStep(f.(time := e.time), e)
  {
  }

  lemma DateOpened<V>(keys: seq<string>, f: FileState<V>, s: StorageState<V>, t: real)
    requires Registered(f, s, keys)
    ensures Filled(f.(time := t), NextTime(s, t), |keys|)
  {
    var rows := NextTime(s, t).rows;
    assert rows == [] + [Row(t, Nothings(|keys|))];
    FillAdd<V>([], |keys|, t);
  }

  lemma FirstFilled<V>(keys: seq<string>, f: FileState<V>, s: StorageState<V>, e: Item<V>)
    requires keys != [] && Registered(f, s, keys) && Plain(keys, [e])
    ensures FileStep(f, e).Some? && Filled(FileStep(f, e).value, StorageStep(s, e), |keys|)
  {
    assert [e][0] == e;
    DateOpened(keys, f, s, e.time);
    if e.Val? {
      NothingWritten(keys, f, e);
      FillSameDate(f.(time := e.time), NextTime(s, e.time), |keys|, e, Position(keys, e.key));
    }
  }

  lemma FilledVal<V>(keys: seq<string>, es: seq<Item<V>>, f: FileState<V>, s: StorageState<V>, e: Item<V>)
    requires es != [] && Counted(keys, es, f, s) && Filled(f, s, |keys|) && e.Val? && e.key in keys
    requires e.time == f.time || HasVal(es)
    ensures FileStep(f, e).Some? && Filled(FileStep(f, e).value, StorageStep(s, e), |keys|)
  {
    if e.time == f.time {
      FillSameDate(f, s, |keys|, e, Position(keys, e.key));
    } else {
      FillNewDate(f, s, |keys|, e, Position(keys, e.key));
    }
  }

  lemma NearSteadyPrefix<V>(es: seq<Item<V>>, e: Item<V>)
    requires es != [] && NearSteady(es + [e])
    ensures NearSteady(es)
    ensures e.time == es[|es|-1].time || (HasVal(es) && e.Val?)
  {
    HasValSnoc(es, e);
    SteadySnoc(es, e);
    OneDateSnoc(es, e);
  }

  lemma FilledStep<V>(keys: seq<string>, es: seq<Item<V>>, f: FileState<V>, s: StorageState<V>, e: Item<V>)
    requires es != [] && Counted(keys, es, f, s) && Filled(f, s, |keys|)
    requires !e.NewColumn? && (e.Val? ==> e.key in keys)
    requires e.time == es[|es|-1].time || (HasVal(es) && e.Val?)
    ensures FileStep(f, e).Some? && Filled(FileStep(f, e).value, StorageStep(s, e), |keys|)
  {
    if e.Val? {
      FilledVal(keys, es, f, s, e);
    } else {
      assert FileStep(f, e).value == f && StorageStep(s, e) == s;
    }
  }

  /** The step, seen from the run. */
  lemma FilledSnoc<V>(keys: seq<string>, f: FileState<V>, s: StorageState<V>, init: seq<Item<V>>, e: Item<V>,
                      es: seq<Item<V>>, g: FileState<V>, t: StorageState<V>)
    requires es == init + [e] && init != [] && FileRun(f, init) == Some(g) && StorageRun(s, init) == t
    requires Counted(keys, init, g, t) && Filled(g, t, |keys|)
    requires !e.NewColumn? && (e.Val? ==> e.key in keys)
    requires e.time == init[|init|-1].time || (HasVal(init) && e.Val?)
    ensures FileRun(f, es).Some? && Filled(FileRun(f, es).value, StorageRun(s, es), |keys|)
  {
    FilledStep(keys, init, g, t, e);
    FileSnoc(f, init, e, es);
    StorageSnoc(s, init, e, es);
  }

  lemma {:induction false} FilledRun<V>(keys: seq<string>, f: FileState<V>, s: StorageState<V>, es: seq<Item<V>>)
    requires keys != [] && Registered(f, s, keys) && Plain(keys, es) && es != [] && NearSteady(es)
    ensures FileRun(f, es).Some? && Filled(FileRun(f, es).value, StorageRun(s, es), |keys|)
    decreases |es|
  {
    var n := |es| - 1;
    var init, e := es[..n], es[n];
    assert es == init + [e];
    if init == [] {
      assert es == [e];
      FirstFilled(keys, f, s, e);
    } else {
      NearSteadyPrefix(init, e);
      FilledRun(keys, f, s, init);
      FilledMore(keys, f, s, init, e, es);
    }
  }

  lemma FilledMore<V>(keys: seq<string>, f: FileState<V>, s: StorageState<V>, init: seq<Item<V>>, e: Item<V>,
                      es: seq<Item<V>>)
    requires keys != [] && Registered(f, s, keys) && Plain(keys, es) && NearSteady(es) && init != [] && es == init + [e]
    requires FileRun(f, init).Some? && Filled(FileRun(f, init).value, StorageRun(s, init), |keys|)
    ensures FileRun(f, es).Some? && Filled(FileRun(f, es).value, StorageRun(s, es), |keys|)
  {
    assert es[..|es|-1] == init && es[|es|-1] == e;
    CountedRun(keys, f, s, init);
    FilledSnoc(keys, f, s, init, e, es, FileRun(f, init).value, StorageRun(s, init));
  }

  // The comparison -------------------------------------------------------------------------------------

  ghost predicate ForwardFills<V>(file: seq<Row<V>>, storage: seq<Row<V>>, n: nat)
  {
    && Wide(storage, n)
    && |file| == |storage|
    && forall i :: 0 <= i < |file| ==> file[i].time == storage[i].time && file[i].cells == Fill(storage[..i+1], n)
  }

  /** On the same trace, after the same registration: File writes as many lines
      as Storage has rows if and only if the trace is steady, and then every
      line is the forward fill of the rows up to it, with the same date. */
  lemma FileIsForwardFill<V>(keys: seq<string>, t: real, es: seq<Item<V>>)
    requires keys != [] && DistinctKeys(keys) && Plain(keys, es)
    ensures FileRun(NewFile(false), Columns(keys, t) + es).Some?
    ensures var file := FileRows(FileRun(NewFile(false), Columns(keys, t) + es).value);
            var storage := StorageRun(NewStorage(), Columns(keys, t) + es).rows;
            && (|file| == |storage| <==> Steady(es))
            && (Steady(es) ==> ForwardFills(file, storage, |keys|))
  {
    RegistrationDone<V>(keys, t);
    var f0 := FileRun<V>(NewFile(false), Columns(keys, t)).value;
    var s0 := StorageRun<V>(NewStorage(), Columns(keys, t));
    RunAppend<V>(NewFile(false), NewStorage(), Columns(keys, t), es);
    CountedRun(keys, f0, s0, es);
    var f, s := FileRun(f0, es).value, StorageRun(s0, es);
    assert |FileRows(f)| == Written(f);
    if Steady(es) && es != [] {
      FilledRun(keys, f0, s0, es);
      FinishFills(f, s, |keys|);
    }
  }

  lemma FinishFills<V>(f: FileState<V>, s: StorageState<V>, n: nat)
    requires Filled(f, s, n) && true in f.valid
    ensures ForwardFills(FileRows(f), s.rows, n)
  {
    var file := FileRows(f);
    forall i | 0 <= i < |file|
      ensures file[i].time == s.rows[i].time && file[i].cells == Fill(s.rows[..i+1], n)
    {
      if i == |f.rows| {
        assert s.rows[..i+1] == s.rows;
      }
    }
  }

  lemma RunSnoc<V>(s: FileState<V>, es: seq<Item<V>>, e: Item<V>, t: FileState<V>)
    requires FileRun(s, es) == Some(t)
    ensures FileRun(s, es + [e]) == FileStep(t, e)
  {
    assert (es + [e])[..|es|] == es;
  }

  /** A bare date after a value: with or without flush-by-bag, File puts the value
      on a line under that date, where Storage has a row for each date. */
  lemma QuietMislabels(byBag: bool)
    ensures var es := [NewColumn("a", 0.0), Val("a", 1.0, 10), Quiet(2.0)];
            && FileRun(NewFile(byBag), es).Some?
            && FileRows(FileRun(NewFile(byBag), es).value) == [Row(2.0, [Some(10)])]
            && StorageRun(NewStorage(), es).rows == [Row(1.0, [Some(10)]), Row(2.0, [None])]
  {
    var e1, e2, e3: Item<int> := NewColumn("a", 0.0), Val("a", 1.0, 10), Quiet(2.0);
    var f0: FileState<int> := NewFile(byBag);
    var f1 := FileStep(f0, e1).value;
    assert f1.columns == ["a"] && f1.buffer == [None] && f1.valid == [false] && f1.first && !f1.started
        && f1.rows == [];
    assert Position(["a"], "a") == 0;
    var f2 := FileStep(f1, e2).value;
    assert f2.buffer == [Some(10)] && f2.valid == [true] && f2.rows == [];
    assert f2.valid[0];
    RunSnoc(f0, [], e1, f0);
    RunSnoc(f0, [] + [e1], e2, f1);
    RunSnoc(f0, [] + [e1] + [e2], e3, f2);
    assert [e1, e2, e3] == [] + [e1] + [e2] + [e3];
    StorageSide();
  }

  lemma StorageSide()
    ensures StorageRun(NewStorage(), [NewColumn("a", 0.0), Val("a", 1.0, 10), Quiet(2.0)]).rows
         == [Row(1.0, [Some(10)]), Row(2.0, [None])]
  {
    var e1, e2, e3: Item<int> := NewColumn("a", 0.0), Val("a", 1.0, 10), Quiet(2.0);
    var s0: StorageState<int> := NewStorage();
    StorageSnoc(s0, [], e1, [e1]);
    StorageSnoc(s0, [e1], e2, [e1, e2]);
    StorageSnoc(s0, [e1, e2], e3, [e1, e2, e3]);
    var s1 := StorageStep(s0, e1);
    assert s1.columns == ["a"] && s1.rows == [];
    assert Position(["a"], "a") == 0;
    assert Nothings<int>(1) == [None];
    var dated := NextTime(s1, 1.0);
    assert dated.rows == [Row(1.0, [None])];
    var cells: seq<Option<int>> := [None];
    assert cells[0 := Some(10)] == [Some(10)];
    assert dated.rows[0 := Row(1.0, [Some(10)])] == [Row(1.0, [Some(10)])];
    assert SetCell(dated.rows, 0, 10) == [Row(1.0, [Some(10)])];
    var s2 := StorageStep(s1, e2);
    assert s2.rows == [Row(1.0, [Some(10)])];
    var s3 := StorageStep(s2, e3);
    assert s3.rows == [Row(1.0, [Some(10)]), Row(2.0, [None])];
  }
}
