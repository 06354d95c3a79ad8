/** The two output plug-ins as event-driven state machines: File buffers one
    line and writes it when the date changes; Storage grows a matrix with one
    row per date. */
module OutputPlugins {
  import opened Common

  /** A written line, or a row of the matrix: its date and one cell per column. */
  datatype Row<V> = Row(time: real, cells: seq<Option<V>>)

  /** What a view sends: a new column, a value for a column, or a bare date (an
      empty simulator name, sent by a view that observes nothing). */
  datatype Item<V> = NewColumn(key: string, time: real) | Val(key: string, time: real, value: V) | Quiet(time: real)

  // File --------------------------------------------------------------------------------------

  datatype FileState<V> = FileState(columns: seq<string>, buffer: seq<Option<V>>, valid: seq<bool>,
                                    watcher: map<string, real>, time: real, started: bool, first: bool,
                                    byBag: bool, rows: seq<Row<V>>)

  function NewFile<V>(byBag: bool): (s: FileState<V>)
  {
    FileState([], [], [], map[], -1.0, false, false, byBag, [])
  }

  function Falses(n: nat): (r: seq<bool>)
    ensures |r| == n && true !in r
  {
    seq(n, _ => false)
  }

  /** The buffered line is written if something in it is new, or if there is no
      column at all; the values stay in the buffer. */
  function Flush<V>(s: FileState<V>): (r: FileState<V>)
  {
    if s.valid == [] || true in s.valid then
      s.(rows := s.rows + [Row(s.time, s.buffer)], valid := Falses(|s.valid|))
    else s
  }

  function Position(columns: seq<string>, key: string): (k: nat)
    ensures k <= |columns|
    ensures k < |columns| ==> columns[k] == key
    ensures k == |columns| <==> key !in columns
  {
    if columns == [] || columns[0] == key then 0 else 1 + Position(columns[1..], key)
  }

  /** File::onNewObservable; None when the column exists. */
  function FileColumn<V>(s: FileState<V>, key: string, time: real): (r: Option<FileState<V>>)
  {
    var s1 := if s.started then Flush(s)
              else if !s.first then s.(time := time, first := true)
              else Flush(s).(started := true);
    if key in s1.columns then None
    else Some(s1.(columns := s1.columns + [key], buffer := s1.buffer + [None], valid := s1.valid + [false],
                  watcher := s1.watcher[key := -1.0]))
  }

  /** File::onValue for a column, before the cell is written. */
  function FileTurn<V>(s: FileState<V>, key: string, time: real): (r: FileState<V>)
  {
    if s.started then
      if time != s.time || (s.byBag && key in s.watcher && s.watcher[key] == time) then Flush(s) else s
    else if !s.first then s.(first := true)
    else Flush(s).(started := true)
  }

  function FileValue<V>(s: FileState<V>, key: string, time: real, value: V): (r: Option<FileState<V>>)
  {
    var k := Position(s.columns, key);
    if k == |s.columns| then None
    else
      var s1 := FileTurn(s, key, time);
      if k < |s1.buffer| && k < |s1.valid| then
        Some(s1.(buffer := s1.buffer[k := Some(value)], valid := s1.valid[k := true],
                 watcher := s1.watcher[key := time], time := time))
      else None
  }

  function FileStep<V>(s: FileState<V>, e: Item<V>): (r: Option<FileState<V>>)
  {
    match e
    case NewColumn(key, time) => FileColumn(s, key, time)
    case Val(key, time, value) => FileValue(s, key, time, value)
    case Quiet(time) => Some(s.(time := time))
  }

  function FileRun<V>(s: FileState<V>, es: seq<Item<V>>): (r: Option<FileState<V>>)
  {
    if es == [] then Some(s)
    else match FileRun(s, es[..|es|-1])
      case None => None
      case Some(t) => FileStep(t, es[|es|-1])
  }

  /** finish: the second half of finalFlush never finds anything to write. */
  function FileRows<V>(s: FileState<V>): (rows: seq<Row<V>>)
  {
    Flush(s).rows
  }

  // Storage -----------------------------------------------------------------------------------

  datatype StorageState<V> = StorageState(columns: seq<string>, rows: seq<Row<V>>, time: Option<real>)

  function NewStorage<V>(): (s: StorageState<V>)
  {
    StorageState([], [], None)
  }

  function Widen<V>(rows: seq<Row<V>>): (r: seq<Row<V>>)
    ensures |r| == |rows|
  {
    seq(|rows|, i requires 0 <= i < |rows| => Row(rows[i].time, rows[i].cells + [None]))
  }

  function Nothings<V>(n: nat): (r: seq<Option<V>>)
    ensures |r| == n
    ensures forall i :: 0 <= i < n ==> r[i] == None
  {
    seq(n, _ => None)
  }

  /** nextTime: a row is added when the date is not the last one. */
  function NextTime<V>(s: StorageState<V>, time: real): (r: StorageState<V>)
  {
    if s.time == Some(time) then s
    else s.(time := Some(time), rows := s.rows + [Row(time, Nothings(|s.columns|))])
  }

  function SetCell<V>(rows: seq<Row<V>>, k: nat, value: V): (r: seq<Row<V>>)
    ensures |r| == |rows|
  {
    if rows == [] then rows
    else
      var n := |rows| - 1;
      if k < |rows[n].cells| then rows[n := Row(rows[n].time, rows[n].cells[k := Some(value)])] else rows
  }

  function StorageStep<V>(s: StorageState<V>, e: Item<V>): (r: StorageState<V>)
  {
    match e
    case NewColumn(key, _) => s.(columns := s.columns + [key], rows := Widen(s.rows))
    case Val(key, time, value) =>
      var s1 := NextTime(s, time);
      s1.(rows := SetCell(s1.rows, Position(s1.columns, key), value))
    case Quiet(time) => NextTime(s, time)
  }

  function StorageRun<V>(s: StorageState<V>, es: seq<Item<V>>): (r: StorageState<V>)
  {
    if es == [] then s else StorageStep(StorageRun(s, es[..|es|-1]), es[|es|-1])
  }

  // The plug-in objects -------------------------------------------------------------------------

  class File<V> {
    var s: FileState<V>

    constructor (byBag: bool)
      ensures s == NewFile(byBag)
    {
      s := NewFile(byBag);
    }

    /** Writing out the line: one pass over the cells, clearing their marks. */
    method FlushLine()
      requires |s.buffer| == |s.valid|
      modifies this`s
      ensures s == Flush(old(s))
    {
      if s.valid == [] || true in s.valid {
        var line: seq<Option<V>> := [];
        var valid := s.valid;
        for i := 0 to |s.buffer|
          invariant line == s.buffer[..i] && |valid| == |s.valid| && s == old(s)
          invariant forall k :: 0 <= k < i ==> !valid[k]
        {
          line := line + [s.buffer[i]];
          valid := valid[i := false];
        }
        assert line == s.buffer && valid == Falses(|s.valid|);
        s := s.(rows := s.rows + [Row(s.time, line)], valid := valid);
      }
    }

    method OnValue(key: string, time: real, value: V) returns (ok: bool)
      requires |s.buffer| == |s.valid| == |s.columns|
      modifies this`s
      ensures ok <==> FileValue(old(s), key, time, value).Some?
      ensures ok ==> s == FileValue(old(s), key, time, value).value
    {
      var k := Position(s.columns, key);
      if k == |s.columns| {
        return false;
      }
      if s.started {
        if time != s.time || (s.byBag && key in s.watcher && s.watcher[key] == time) {
          FlushLine();
        }
      } else {
        if !s.first {
          s := s.(first := true);
        } else {
          FlushLine();
          s := s.(started := true);
        }
      }
      s := s.(buffer := s.buffer[k := Some(value)], valid := s.valid[k := true]);
      s := s.(watcher := s.watcher[key := time], time := time);
      ok := true;
    }

    method OnNewObservable(key: string, time: real) returns (ok: bool)
      requires |s.buffer| == |s.valid| == |s.columns|
      modifies this`s
      ensures ok <==> FileColumn(old(s), key, time).Some?
      ensures ok ==> s == FileColumn(old(s), key, time).value
    {
      if s.started {
        FlushLine();
      } else if !s.first {
        s := s.(time := time, first := true);
      } else {
        FlushLine();
        s := s.(started := true);
      }
      if key in s.columns {
        return false;
      }
      s := s.(watcher := s.watcher[key := -1.0], columns := s.columns + [key]);
      s := s.(buffer := s.buffer + [None], valid := s.valid + [false]);
      ok := true;
    }
  }

  class Storage<V> {
    var s: StorageState<V>

    constructor ()
      ensures s == NewStorage()
    {
      s := NewStorage();
    }

    /** addColumn widens the matrix row by row. */
    method OnNewObservable(key: string, time: real)
      modifies this`s
      ensures s == StorageStep(old(s), NewColumn(key, time))
    {
      var rows := s.rows;
      for i := 0 to |rows|
        invariant |rows| == |s.rows| && s == old(s)
        invariant forall k :: 0 <= k < |rows| ==> rows[k] == if k < i then Widen(s.rows)[k] else s.rows[k]
      {
        rows := rows[i := Row(rows[i].time, rows[i].cells + [None])];
      }
      assert rows == Widen(s.rows);
      s := s.(columns := s.columns + [key], rows := rows);
    }

    /** A date that is not the last one opens a row; the value goes to the last
        row. A bare date has no column. */
    method OnValue(key: Option<string>, time: real, value: Option<V>)
      requires key.Some? <==> value.Some?
      modifies this`s
      ensures s == StorageStep(old(s), if key.Some? then Val(key.value, time, value.value) else Quiet(time))
    {
      if s.time != Some(time) {
        s := s.(time := Some(time));
        s := s.(rows := s.rows + [Row(time, Nothings(|s.columns|))]);
      }
      if key.Some? {
        s := s.(rows := SetCell(s.rows, Position(s.columns, key.value), value.value));
      }
    }
  }
}
