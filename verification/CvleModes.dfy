/** The two ways a worker interprets the header and the rows, as machines of the
    protocol, and what the protocol's outcome says about each. */
module CvleModes {
  import opened Common
  import opened CvleInput
  import opened CvlePlan
  import opened CvleWorker
  import opened CvleProtocol
  import opened CvleOutcome
  import opened CvleColumns
  import opened CvleBackup

  /** The header by which a worker is told to read complex values. */
  const COMPLEX_HEADER := "_cvle_complex_values"

  lemma ComplexWord()
    ensures Free(COMPLEX_HEADER, ',') && Free(COMPLEX_HEADER, '.')
  {
  }

  // Column mode ----------------------------------------------------------------

  /** An experiment as column mode sees it: its cells, the cell a dotted name
      denotes, and the simulation as a function of the cells and the row id. */
  datatype Experiment = Experiment(conv: Conv, vpz: map<nat, Scalar>, find: string -> Option<nat>,
                                   simulate: (map<nat, Scalar>, int) -> string, details: bool)

  /** A header token without a port is a label to repeat in the output. */
  predicate IsLabel(token: string)
  {
    var parts := Split(token, '.');
    |parts| == 1 || parts[1] == ""
  }

  /** None where Access asserts a condition name or finds no value. */
  function OpenColumn(e: Experiment, token: string): (r: Option<Column>)
  {
    if Split(token, '.')[0] == "" then None
    else if IsLabel(token) then Some(Keep(Split(token, '.')[0]))
    else match e.find(token)
      case None => None
      case Some(cell) => if cell in e.vpz then Some(Value(cell, e.vpz[cell])) else None
  }

  function OpenColumns(e: Experiment, tokens: seq<string>): (r: Option<seq<Column>>)
    ensures r.Some? ==> |r.value| == |tokens|
    ensures r.Some? ==> forall j :: 0 <= j < |r.value| && r.value[j].Value? ==>
                          r.value[j].cell in e.vpz && r.value[j].default == e.vpz[r.value[j].cell]
  {
    if tokens == [] then Some([])
    else match OpenColumn(e, Cleanup(tokens[0]))
      case None => None
      case Some(col) =>
        match OpenColumns(e, tokens[1..])
        case None => None
        case Some(cols) => Some([col] + cols)
  }

  function Labels(cols: seq<Column>, details: bool): (text: string)
  {
    if cols == [] then ""
    else (if cols[0].Keep? then cols[0].str + (if details then " " else ",") else "") + Labels(cols[1..], details)
  }

  /** Any header but that of complex mode names the columns. */
  function OpenHeader(e: Experiment, header: string): (r: Option<Memory>)
  {
    if header == COMPLEX_HEADER then None
    else match OpenColumns(e, Split(header, ','))
    case None => None
    case Some(cols) => Some(Memory(cols, e.vpz))
  }

  function RunRow(e: Experiment, m: Memory, line: string, id: int): (r: Option<(Memory, string)>)
  {
    match UpdateRow(e.conv, m, line)
    case None => None
    case Some(m1) => Some((m1, Labels(m1.cols, e.details) + e.simulate(m1.vpz, id)))
  }

  function ColumnMachine(e: Experiment): (mach: Machine<Memory>)
  {
    Machine((header: string) => OpenHeader(e, header), (m: Memory, line: string, id: int) => RunRow(e, m, line, id))
  }

  lemma SelfAlike(m: Memory)
    ensures Alike(m, m)
  {
  }

  /** Rows never take a memory out of its class. */
  lemma {:induction false} RowStaysAlike(conv: Conv, m0: Memory, m: Memory, fields: seq<string>, i: nat)
    requires Bound(m0) && Bound(m) && Alike(m0, m) && i <= |fields|
    requires UpdateFrom(conv, m, fields, i).Some?
    ensures Alike(m0, UpdateFrom(conv, m, fields, i).value) && Bound(UpdateFrom(conv, m, fields, i).value)
    decreases |fields| - i
  {
    if i < |fields| {
      var m1 := Update(conv, m, i, Cleanup(fields[i])).value;
      FieldStaysAlike(conv, m0, m, i, Cleanup(fields[i]));
      RowStaysAlike(conv, m0, m1, fields, i + 1);
    }
  }

  lemma FieldStaysAlike(conv: Conv, m0: Memory, m: Memory, i: nat, str: string)
    requires Bound(m0) && Bound(m) && Alike(m0, m) && Update(conv, m, i, str).Some?
    ensures Alike(m0, Update(conv, m, i, str).value) && Bound(Update(conv, m, i, str).value)
  {
    if m.cols[i].Updatable() {
      assert m0.cols[i] == m.cols[i];
      var v := Field(conv, m.cols[i].default, str).value;
      WriteBound(m, i, v);
      assert WrittenBy(m0.cols, |m0.cols|, m.cols[i].cell);
    }
  }

  /** A row the worker accepts and that fills every column. */
  ghost predicate FullRow(e: Experiment, m0: Memory, line: string)
  {
    && UpdateRow(e.conv, m0, line).Some?
    && Covered(m0.cols, |Split(line, ',')|)
  }

  lemma ColumnsHistoryFree(e: Experiment, m0: Memory, lines: seq<string>)
    requires Bound(m0)
    requires forall l :: l in lines ==> FullRow(e, m0, l)
    ensures HistoryFree(ColumnMachine(e), m0, m => Alike(m0, m) && Bound(m), lines)
  {
    SelfAlike(m0);
    var mach := ColumnMachine(e);
    forall m, l, id | Alike(m0, m) && Bound(m) && l in lines
      ensures mach.row(m, l, id).Some? && mach.row(m0, l, id).Some?
      ensures Alike(m0, mach.row(m, l, id).value.0) && Bound(mach.row(m, l, id).value.0)
      ensures mach.row(m, l, id).value.1 == mach.row(m0, l, id).value.1
    {
      assert FullRow(e, m0, l);
      HistoryIndependence(e.conv, m0, l);
      assert UpdateRow(e.conv, m, l) == UpdateRow(e.conv, m0, l);
      RowStaysAlike(e.conv, m0, m, Split(l, ','), 0);
    }
  }

  lemma OpenIsBound(e: Experiment, header: string)
    ensures OpenHeader(e, header).Some? ==> Bound(OpenHeader(e, header).value)
  {
  }

  /** Column mode end to end: on rows that fill the columns, every complete run
      of the distributed program either is blocked because the input has no
      row, no final newline or no block size, or has written exactly the
      sequential output, cut at block ends and reordered. */
  lemma ColumnRunsAreSequential(e: Experiment, c: Config<Memory>, rows: seq<string>, tail: string,
                                states: seq<State<Memory>>, steps: seq<Step>)
    requires c.mach == ColumnMachine(e) && c.n >= 1
    requires Rows(rows) && Free(tail, NL) && c.input == TextOf(rows, tail)
    requires OpenHeader(e, c.header).Some?
    requires forall l :: l in rows || (l == tail && tail != "") ==> FullRow(e, OpenHeader(e, c.header).value, l)
    requires IsRun(c, states, steps) && Halted(c, states[|steps|])
    ensures Final(c, states[|steps|]) <==> c.bs >= 1 && rows != [] && tail == ""
    ensures var m0 := OpenHeader(e, c.header).value;
            Final(c, states[|steps|]) ==>
              && multiset(states[|steps|].out) == multiset(Texts(c, m0, Plan(c)))
              && Flatten(Texts(c, m0, Plan(c))) == Sequential(c.mach, m0, rows, 0)
  {
    var m0 := OpenHeader(e, c.header).value;
    OpenIsBound(e, c.header);
    forall l | l in AllLines(Plan(c)) ensures FullRow(e, m0, l) {
      PlannedLines(rows, tail, c.n, c.bs, l);
    }
    ColumnsHistoryFree(e, m0, AllLines(Plan(c)));
    DistributedIsSequential(c, m0, m => Alike(m0, m) && Bound(m), rows, tail, states, steps);
  }

  /** What a header of column mode gives: a label for a token without a port, the
      cell that the dotted name denotes, with its value, for any other. */
  ghost predicate Binds(e: Experiment, token: string, col: Column)
  {
    var parts := Split(token, '.');
    && parts[0] != ""
    && if |parts| == 1 || parts[1] == "" then col == Keep(parts[0])
       else col.Value? && e.find(token) == Some(col.cell) && col.cell in e.vpz && col.default == e.vpz[col.cell]
  }

  ghost predicate Unbound(e: Experiment, token: string)
  {
    forall col :: !Binds(e, token, col)
  }

  lemma {:induction false} ColumnsBind(e: Experiment, tokens: seq<string>)
    ensures OpenColumns(e, tokens).Some? ==> forall j :: 0 <= j < |tokens| ==>
              Binds(e, Cleanup(tokens[j]), OpenColumns(e, tokens).value[j])
    ensures OpenColumns(e, tokens).None? ==> exists j :: 0 <= j < |tokens| && Unbound(e, Cleanup(tokens[j]))
  {
    if tokens != [] {
      var rest := tokens[1..];
      ColumnsBind(e, rest);
      if OpenColumn(e, Cleanup(tokens[0])).None? {
        assert Unbound(e, Cleanup(tokens[0]));
      } else if OpenColumns(e, rest).None? {
        var j :| 0 <= j < |rest| && Unbound(e, Cleanup(rest[j]));
        assert tokens[j+1] == rest[j];
      }
    }
  }

  lemma TokensExact(e: Experiment, tokens: seq<string>)
    ensures OpenColumns(e, tokens).None? <==> exists j :: 0 <= j < |tokens| && Unbound(e, Cleanup(tokens[j]))
  {
    ColumnsBind(e, tokens);
    if OpenColumns(e, tokens).Some? {
      forall j | 0 <= j < |tokens| ensures !Unbound(e, Cleanup(tokens[j])) {
        assert Binds(e, Cleanup(tokens[j]), OpenColumns(e, tokens).value[j]);
      }
    }
  }

  /** The header is accepted exactly when it is not that of complex mode and every
      token is a label or denotes a cell; the experiment is as it was. */
  lemma HeaderBinds(e: Experiment, header: string, tokens: seq<string>)
    requires tokens == Split(header, ',')
    ensures OpenHeader(e, header).None? <==>
              header == COMPLEX_HEADER || exists j :: 0 <= j < |tokens| && Unbound(e, Cleanup(tokens[j]))
    ensures OpenHeader(e, header).Some? ==>
              var m := OpenHeader(e, header).value;
              && m.vpz == e.vpz && |m.cols| == |tokens|
              && forall j :: 0 <= j < |tokens| ==> Binds(e, Cleanup(tokens[j]), m.cols[j])
  {
    TokensExact(e, tokens);
    ColumnsBind(e, tokens);
  }

  /** The labels of a row, each followed by a separator. */
  function LabelParts(cols: seq<Column>, details: bool): (parts: seq<string>)
    ensures |parts| == |cols|
    ensures forall j :: 0 <= j < |cols| ==>
              parts[j] == if cols[j].Value? then "" else cols[j].str + (if details then " " else ",")
  {
    seq(|cols|, j requires 0 <= j < |cols| =>
          if cols[j].Value? then "" else cols[j].str + (if details then " " else ","))
  }

  /** The text of one row: its labels and the simulation of its cells under its
      number. */
  function ColumnText(e: Experiment, m: Memory, id: int): (text: string)
  {
    Flatten(LabelParts(m.cols, e.details)) + e.simulate(m.vpz, id)
  }

  lemma {:induction false} LabelsInOrder(cols: seq<Column>, details: bool)
    ensures Labels(cols, details) == Flatten(LabelParts(cols, details))
  {
    if cols != [] {
      LabelsInOrder(cols[1..], details);
      assert LabelParts(cols, details)[1..] == LabelParts(cols[1..], details);
    }
  }

  /** A row of column mode, done: the memory holds what the row says, and the text
      is that of the memory under the row's number. */
  ghost predicate Played(e: Experiment, m0: Memory, line: string, id: int, m: Memory, text: string)
  {
    Leaves(e.conv, m0, Split(line, ','), 0, m) && text == ColumnText(e, m, id)
  }

  function After(e: Experiment, m0: Memory, line: string): (m: Memory)
  {
    var r := UpdateRow(e.conv, m0, line);
    if r.Some? then r.value else m0
  }

  lemma RowPlayed(e: Experiment, m0: Memory, line: string, id: int)
    requires FullRow(e, m0, line)
    ensures Played(e, m0, line, id, After(e, m0, line), RowText(ColumnMachine(e), m0, line, id))
  {
    RowLeaves(e.conv, m0, line);
    LabelsInOrder(After(e, m0, line).cols, e.details);
  }

  /** The rows, one by one: the memory each leaves and the text it writes. */
  lemma RowsPlayed(e: Experiment, m0: Memory, rows: seq<string>) returns (after: seq<Memory>, parts: seq<string>)
    requires forall l :: l in rows ==> FullRow(e, m0, l)
    ensures |after| == |parts| == |rows|
    ensures forall k :: 0 <= k < |rows| ==> Played(e, m0, rows[k], k, after[k], parts[k])
    ensures Sequential(ColumnMachine(e), m0, rows, 0) == Flatten(parts)
  {
    after := seq(|rows|, k requires 0 <= k < |rows| => After(e, m0, rows[k]));
    parts := seq(|rows|, k requires 0 <= k < |rows| => RowText(ColumnMachine(e), m0, rows[k], k));
    forall k | 0 <= k < |rows| ensures Played(e, m0, rows[k], k, after[k], parts[k]) {
      assert rows[k] in rows;
      RowPlayed(e, m0, rows[k], k);
    }
    SequentialRows(ColumnMachine(e), m0, rows, 0, parts);
  }

  /** What a finished run of column mode has written, in terms of the rows: each
      row once, as the simulation, under the row's own number, of the experiment
      in which every cell holds what the row says, behind the row's labels; the
      texts of consecutive rows are written together in blocks. */
  lemma ColumnOutput(e: Experiment, c: Config<Memory>, m0: Memory, rows: seq<string>, tail: string,
                     states: seq<State<Memory>>, steps: seq<Step>)
    returns (texts: seq<string>, after: seq<Memory>, parts: seq<string>)
    requires c.mach == ColumnMachine(e) && c.n >= 1
    requires Rows(rows) && Free(tail, NL) && c.input == TextOf(rows, tail)
    requires OpenHeader(e, c.header) == Some(m0)
    requires forall l :: l in rows || (l == tail && tail != "") ==> FullRow(e, m0, l)
    requires IsRun(c, states, steps) && Final(c, states[|steps|])
    ensures multiset(states[|steps|].out) == multiset(texts) && Flatten(texts) == Flatten(parts)
    ensures |after| == |parts| == |rows|
    ensures forall k :: 0 <= k < |rows| ==> Played(e, m0, rows[k], k, after[k], parts[k])
  {
    texts := ColumnTexts(e, c, m0, rows, tail, states, steps);
    after, parts := RowsPlayed(e, m0, rows);
  }

  lemma ColumnTexts(e: Experiment, c: Config<Memory>, m0: Memory, rows: seq<string>, tail: string,
                    states: seq<State<Memory>>, steps: seq<Step>) returns (texts: seq<string>)
    requires c.mach == ColumnMachine(e) && c.n >= 1
    requires Rows(rows) && Free(tail, NL) && c.input == TextOf(rows, tail)
    requires OpenHeader(e, c.header) == Some(m0)
    requires forall l :: l in rows || (l == tail && tail != "") ==> FullRow(e, m0, l)
    requires IsRun(c, states, steps) && Final(c, states[|steps|])
    ensures multiset(states[|steps|].out) == multiset(texts) && Flatten(texts) == Sequential(c.mach, m0, rows, 0)
  {
    FinalHalts(c, states[|steps|]);
    ColumnRunsAreSequential(e, c, rows, tail, states, steps);
    texts := Texts(c, m0, Plan(c));
  }

  /** When every process has returned, none can move. */
  lemma FinalHalts<M(!new)>(c: Config<M>, s: State<M>)
    requires Shaped(c, s) && Final(c, s)
    ensures Halted(c, s)
  {
  }

  /** A short row is not free of history: its missing label repeats the label of
      whatever row the same worker ran before. */
  lemma ShortRowRemembers(e: Experiment)
    ensures var m0 := Memory([Keep("a"), Keep("b")], map[]);
            var used := Memory([Keep("a"), Keep("old")], map[]);
            && Alike(m0, used) && !Covered(m0.cols, |Split("x", ',')|)
            && UpdateRow(e.conv, used, "x") == Some(Memory([Keep("x"), Keep("old")], map[]))
            && UpdateRow(e.conv, m0, "x") == Some(Memory([Keep("x"), Keep("b")], map[]))
  {
    SplitFree("x", ',');
    var m0 := Memory([Keep("a"), Keep("b")], map[]);
    var used := Memory([Keep("a"), Keep("old")], map[]);
    assert Update(e.conv, used, 0, "x").value.cols == [Keep("x"), Keep("old")];
    assert Update(e.conv, m0, 0, "x").value.cols == [Keep("x"), Keep("b")];
    assert m0.cols[1].Keep?;
  }

  // Complex mode ---------------------------------------------------------------

  /** An experiment as complex mode sees it. `parse` gives the conditions of a
      row with the order in which they are visited. */
  datatype Complex<!V> = Complex(backup: Conds<V>, isTrue: V -> bool,
                                 parse: string -> Option<(RowConds<V>, seq<string>)>,
                                 name: RowConds<V> -> string, simulate: (Conds<V>, int) -> string)

  function RunComplex<V>(x: Complex<V>, m: Conds<V>, line: string, id: int): (r: Option<(Conds<V>, string)>)
  {
    match x.parse(line)
    case None => None
    case Some(p) =>
      match Modify(x.isTrue, x.backup, m, p.0)
      case None => None
      case Some(m1) =>
        match Restored(x.backup, m1, p.1)
        case None => None
        case Some(m2) => Some((m2, x.name(p.0) + "\n" + x.simulate(m1, id) + "\n"))
  }

  function ComplexMachine<V>(x: Complex<V>): (mach: Machine<Conds<V>>)
  {
    Machine((header: string) => if header == COMPLEX_HEADER then Some(x.backup) else None,
            (m: Conds<V>, line: string, id: int) => RunComplex(x, m, line, id))
  }

  /** A row that parses, is accepted, and keeps the simulation engine. */
  ghost predicate QuietRow<V>(x: Complex<V>, line: string)
  {
    && x.parse(line).Some?
    && Lists(x.parse(line).value.1, x.parse(line).value.0.Keys)
    && RunComplex(x, x.backup, line, 0).Some?
    && KeepsEngine(x.isTrue, x.backup, x.parse(line).value.0)
  }

  lemma ComplexHistoryFree<V(!new)>(x: Complex<V>, lines: seq<string>)
    requires forall l :: l in lines ==> QuietRow(x, l)
    ensures HistoryFree(ComplexMachine(x), x.backup, m => m == x.backup, lines)
  {
    var mach := ComplexMachine(x);
    forall m, l, id | m == x.backup && l in lines
      ensures mach.row(m, l, id).Some?
      ensures mach.row(m, l, id).value.0 == x.backup
    {
      assert QuietRow(x, l);
      var p := x.parse(l).value;
      ModifyRestore(x.isTrue, x.backup, p.0, p.1);
    }
  }

  /** Complex mode end to end, for rows that keep the simulation engine. */
  lemma ComplexRunsAreSequential<V(!new)>(x: Complex<V>, c: Config<Conds<V>>, rows: seq<string>, tail: string,
                                          states: seq<State<Conds<V>>>, steps: seq<Step>)
    requires c.mach == ComplexMachine(x) && c.n >= 1 && c.header == COMPLEX_HEADER
    requires Rows(rows) && Free(tail, NL) && c.input == TextOf(rows, tail)
    requires forall l :: l in rows || (l == tail && tail != "") ==> QuietRow(x, l)
    requires IsRun(c, states, steps) && Halted(c, states[|steps|])
    ensures Final(c, states[|steps|]) <==> c.bs >= 1 && rows != [] && tail == ""
    ensures Final(c, states[|steps|]) ==>
              && multiset(states[|steps|].out) == multiset(Texts(c, x.backup, Plan(c)))
              && Flatten(Texts(c, x.backup, Plan(c))) == Sequential(c.mach, x.backup, rows, 0)
  {
    forall l | l in AllLines(Plan(c)) ensures QuietRow(x, l) {
      PlannedLines(rows, tail, c.n, c.bs, l);
    }
    ComplexHistoryFree(x, AllLines(Plan(c)));
    DistributedIsSequential(c, x.backup, m => m == x.backup, rows, tail, states, steps);
  }

  /** A row of complex mode, done: it was simulated with the original conditions
      and those of the row in place. */
  ghost predicate Simulated<V(!new)>(x: Complex<V>, line: string, id: int, during: Conds<V>, text: string)
  {
    && x.parse(line).Some?
    && Between(x.isTrue, x.backup, x.parse(line).value.0, during)
    && text == x.name(x.parse(line).value.0) + "\n" + x.simulate(during, id) + "\n"
  }

  lemma ComplexRow<V(!new)>(x: Complex<V>, line: string, id: int) returns (during: Conds<V>, text: string)
    requires QuietRow(x, line)
    ensures Simulated(x, line, id, during, text)
    ensures RunComplex(x, x.backup, line, id) == Some((x.backup, text))
  {
    var p := x.parse(line).value;
    ModifyWrites(x.isTrue, x.backup, x.backup, p.0);
    ModifyRestore(x.isTrue, x.backup, p.0, p.1);
    during := Modify(x.isTrue, x.backup, x.backup, p.0).value;
    text := x.name(p.0) + "\n" + x.simulate(during, id) + "\n";
  }

  lemma {:induction false} ComplexRows<V(!new)>(x: Complex<V>, rows: seq<string>)
    returns (during: seq<Conds<V>>, parts: seq<string>)
    requires forall k :: 0 <= k < |rows| ==> QuietRow(x, rows[k])
    ensures |during| == |parts| == |rows|
    ensures forall k :: 0 <= k < |rows| ==> Simulated(x, rows[k], k, during[k], parts[k])
    ensures forall k :: 0 <= k < |rows| ==> parts[k] == RowText(ComplexMachine(x), x.backup, rows[k], 0 + k)
  {
    if rows == [] {
      during, parts := [], [];
    } else {
      var n := |rows| - 1;
      during, parts := ComplexRows(x, rows[..n]);
      var last, text := ComplexRow(x, rows[n], n);
      during, parts := during + [last], parts + [text];
    }
  }

  /** What a finished run of complex mode has written: for each row, its name and
      the simulation, under the row's own number, of the original conditions with
      those of the row in place. */
  lemma ComplexOutput<V(!new)>(x: Complex<V>, c: Config<Conds<V>>, rows: seq<string>, tail: string,
                               states: seq<State<Conds<V>>>, steps: seq<Step>)
    returns (texts: seq<string>, during: seq<Conds<V>>, parts: seq<string>)
    requires c.mach == ComplexMachine(x) && c.n >= 1 && c.header == COMPLEX_HEADER
    requires Rows(rows) && Free(tail, NL) && c.input == TextOf(rows, tail)
    requires forall l :: l in rows || (l == tail && tail != "") ==> QuietRow(x, l)
    requires IsRun(c, states, steps) && Final(c, states[|steps|])
    ensures multiset(states[|steps|].out) == multiset(texts) && Flatten(texts) == Flatten(parts)
    ensures |during| == |parts| == |rows|
    ensures forall k :: 0 <= k < |rows| ==> Simulated(x, rows[k], k, during[k], parts[k])
  {
    texts := ComplexTexts(x, c, rows, tail, states, steps);
    during, parts := ComplexSequence(x, rows);
  }

  lemma ComplexSequence<V(!new)>(x: Complex<V>, rows: seq<string>) returns (during: seq<Conds<V>>, parts: seq<string>)
    requires forall l :: l in rows ==> QuietRow(x, l)
    ensures |during| == |parts| == |rows|
    ensures forall k :: 0 <= k < |rows| ==> Simulated(x, rows[k], k, during[k], parts[k])
    ensures Sequential(ComplexMachine(x), x.backup, rows, 0) == Flatten(parts)
  {
    AllQuiet(x, rows);
    during, parts := ComplexRows(x, rows);
    SequentialRows(ComplexMachine(x), x.backup, rows, 0, parts);
  }

  lemma AllQuiet<V(!new)>(x: Complex<V>, rows: seq<string>)
    requires forall l :: l in rows ==> QuietRow(x, l)
    ensures forall k :: 0 <= k < |rows| ==> QuietRow(x, rows[k])
  {
  }

  lemma ComplexTexts<V(!new)>(x: Complex<V>, c: Config<Conds<V>>, rows: seq<string>, tail: string,
                              states: seq<State<Conds<V>>>, steps: seq<Step>) returns (texts: seq<string>)
    requires c.mach == ComplexMachine(x) && c.n >= 1 && c.header == COMPLEX_HEADER
    requires Rows(rows) && Free(tail, NL) && c.input == TextOf(rows, tail)
    requires forall l :: l in rows || (l == tail && tail != "") ==> QuietRow(x, l)
    requires IsRun(c, states, steps) && Final(c, states[|steps|])
    ensures multiset(states[|steps|].out) == multiset(texts) && Flatten(texts) == Sequential(c.mach, x.backup, rows, 0)
  {
    FinalHalts(c, states[|steps|]);
    ComplexRunsAreSequential(x, c, rows, tail, states, steps);
    texts := Texts(c, x.backup, Plan(c));
  }
}
