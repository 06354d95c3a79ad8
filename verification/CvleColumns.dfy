/** Column mode of a worker: the header binds each column to a cell of the
    experiment or to a label to repeat, and each row writes its fields through
    those bindings. The point is what one row leaves behind for the next. */
module CvleColumns {
  import opened Common

  /** A value of the experiment. Only the four scalar kinds are ever written;
      containers are left alone. */
  datatype Scalar = BoolV(b: bool) | IntV(i: int) | DoubleV(d: real) | StringV(s: string) | Opaque(kind: nat)

  predicate SameKind(a: Scalar, b: Scalar)
  {
    match a
    case BoolV(_) => b.BoolV?
    case IntV(_) => b.IntV?
    case DoubleV(_) => b.DoubleV?
    case StringV(_) => b.StringV?
    case Opaque(_) => a == b
  }

  /** A label column keeps the last text read; a value column points at a cell
      (columns may point at the same one) and remembers its original value. */
  datatype Column = Keep(str: string) | Value(cell: nat, default: Scalar)
  {
    predicate Updatable() { Value? && !default.Opaque? }
  }

  datatype Memory = Memory(cols: seq<Column>, vpz: map<nat, Scalar>)

  /** Text to value, as vle::utils::to does it; None where it throws. */
  datatype Conv = Conv(toBool: string -> Option<bool>, toInt: string -> Option<int>, toDouble: string -> Option<real>)

  /** Surrounding quotes are dropped when both are there. */
  function Cleanup(str: string): (r: string)
    ensures if |str| >= 2 && str[0] == str[|str|-1] == '"' then str == "\"" + r + "\"" else r == str
  {
    if |str| >= 2 && str[0] == '"' && str[|str|-1] == '"' then str[1..|str|-1] else str
  }

  /** The value a field gives to a cell; an empty field asks for the default. */
  function Field(conv: Conv, default: Scalar, str: string): (v: Option<Scalar>)
    ensures str == "" ==> v == Some(default)
    ensures v.Some? ==> SameKind(default, v.value)
  {
    if str == "" then Some(default)
    else match default
      case BoolV(_) => if conv.toBool(str).Some? then Some(BoolV(conv.toBool(str).value)) else None
      case IntV(_) => if conv.toInt(str).Some? then Some(IntV(conv.toInt(str).value)) else None
      case DoubleV(_) => if conv.toDouble(str).Some? then Some(DoubleV(conv.toDouble(str).value)) else None
      case StringV(_) => Some(StringV(str))
      case Opaque(_) => Some(default)
  }

  /** Columns::update on one field; None on a conversion failure or when the row
      has more fields than there are columns. */
  function Update(conv: Conv, m: Memory, i: nat, str: string): (r: Option<Memory>)
  {
    if i >= |m.cols| then None
    else match m.cols[i]
      case Keep(_) => Some(m.(cols := m.cols[i := Keep(str)]))
      case Value(cell, default) =>
        if default.Opaque? then Some(m)
        else match Field(conv, default, str)
          case None => None
          case Some(v) => Some(m.(vpz := m.vpz[cell := v]))
  }

  /** The fields of a row, from the i-th on, in order. */
  function UpdateFrom(conv: Conv, m: Memory, fields: seq<string>, i: nat): (r: Option<Memory>)
    requires i <= |fields|
    decreases |fields| - i
  {
    if i == |fields| then Some(m)
    else match Update(conv, m, i, Cleanup(fields[i]))
      case None => None
      case Some(m1) => UpdateFrom(conv, m1, fields, i + 1)
  }

  function UpdateRow(conv: Conv, m: Memory, row: string): (r: Option<Memory>)
  {
    UpdateFrom(conv, m, Split(row, ','), 0)
  }

  /** The columns of a worker, updated in place. */
  class Columns {
    var memory: Memory
    const conv: Conv

    constructor (conv: Conv, m0: Memory)
      ensures this.conv == conv && memory == m0
    {
      this.conv := conv;
      memory := m0;
    }

    method UpdateFields(row: string) returns (ok: bool)
      modifies this`memory
      ensures ok <==> UpdateRow(conv, old(memory), row).Some?
      ensures ok ==> memory == UpdateRow(conv, old(memory), row).value
      ensures ok <==> AllReadable(conv, old(memory).cols, Split(row, ','), 0)
      ensures ok ==> Leaves(conv, old(memory), Split(row, ','), 0, memory)
    {
      RowLeaves(conv, memory, row);
      var fields := Split(row, ',');
      ghost var goal := UpdateRow(conv, memory, row);
      var i := 0;
      while i != |fields|
        invariant 0 <= i <= |fields|
        invariant goal == UpdateFrom(conv, memory, fields, i)
        decreases |fields| - i
      {
        var r := Update(conv, memory, i, Cleanup(fields[i]));
        if r == None {
          return false;
        }
        memory := r.value;
        i := i + 1;
      }
      ok := true;
    }
  }

  // What a row can see of the rows before it ----------------------------------

  ghost predicate SameShape(a: seq<Column>, b: seq<Column>)
  {
    && |a| == |b|
    && forall j :: 0 <= j < |a| ==> if a[j].Keep? then b[j].Keep? else a[j] == b[j]
  }

  /** One of the first w columns writes the cell. */
  ghost predicate WrittenBy(cols: seq<Column>, w: nat, cell: nat)
  {
    exists j :: 0 <= j < w && j < |cols| && cols[j].Updatable() && cols[j].cell == cell
  }

  /** The two memories have the same columns and experiment, except for labels
      and for cells that some column writes; of those, the ones belonging to
      the first w columns agree as well. */
  ghost predicate EqualUpTo(a: Memory, b: Memory, w: nat)
  {
    && SameShape(a.cols, b.cols)
    && a.vpz.Keys == b.vpz.Keys
    && (forall cell :: cell in a.vpz ==> SameKind(a.vpz[cell], b.vpz[cell]))
    && (forall j :: 0 <= j < w && j < |a.cols| ==> a.cols[j] == b.cols[j])
    && forall cell :: cell in a.vpz && (WrittenBy(a.cols, |a.cols|, cell) ==> WrittenBy(a.cols, w, cell)) ==>
         a.vpz[cell] == b.vpz[cell]
  }

  /** Two memories that differ at most by the rows they have seen. */
  ghost predicate Alike(a: Memory, b: Memory)
  {
    EqualUpTo(a, b, 0)
  }

  /** Value columns point at cells of the experiment, of the kind they had when
      the header was read. */
  ghost predicate Bound(m: Memory)
  {
    forall j :: 0 <= j < |m.cols| && m.cols[j].Value? ==>
      m.cols[j].cell in m.vpz && SameKind(m.cols[j].default, m.vpz[m.cols[j].cell])
  }

  lemma KeepAlike(a: Memory, b: Memory, i: nat, str: string)
    requires Bound(a) && Bound(b) && EqualUpTo(a, b, i) && i < |a.cols| && a.cols[i].Keep?
    ensures var (a', b') := (a.(cols := a.cols[i := Keep(str)]), b.(cols := b.cols[i := Keep(str)]));
            EqualUpTo(a', b', i + 1) && Bound(a') && Bound(b')
  {
    var a', b' := a.(cols := a.cols[i := Keep(str)]), b.(cols := b.cols[i := Keep(str)]);
    assert SameShape(a.cols, a'.cols);
    forall cell | cell in a'.vpz && (WrittenBy(a'.cols, |a'.cols|, cell) ==> WrittenBy(a'.cols, i + 1, cell))
      ensures a'.vpz[cell] == b'.vpz[cell]
    {
      WrittenShape(a.cols, a'.cols, |a.cols|, cell);
      WrittenShape(a.cols, a'.cols, i + 1, cell);
      assert WrittenBy(a.cols, i + 1, cell) ==> WrittenBy(a.cols, i, cell);
    }
  }

  lemma WriteBound(m: Memory, i: nat, v: Scalar)
    requires Bound(m) && i < |m.cols| && m.cols[i].Updatable() && SameKind(m.cols[i].default, v)
    ensures Bound(m.(vpz := m.vpz[m.cols[i].cell := v]))
  {
  }

  lemma WriteAlike(a: Memory, b: Memory, i: nat, v: Scalar)
    requires Bound(a) && Bound(b) && EqualUpTo(a, b, i) && i < |a.cols| && a.cols[i].Updatable()
    ensures var cell := a.cols[i].cell;
            EqualUpTo(a.(vpz := a.vpz[cell := v]), b.(vpz := b.vpz[cell := v]), i + 1)
  {
    assert a.cols[i] == b.cols[i];
    forall cell | cell in a.vpz && cell != a.cols[i].cell && WrittenBy(a.cols, i + 1, cell)
      ensures WrittenBy(a.cols, i, cell)
    {
      var j :| 0 <= j < i + 1 && j < |a.cols| && a.cols[j].Updatable() && a.cols[j].cell == cell;
      assert j < i;
    }
  }

  lemma UpdateAlike(conv: Conv, a: Memory, b: Memory, i: nat, str: string)
    requires Bound(a) && Bound(b) && EqualUpTo(a, b, i) && i < |a.cols|
    ensures Update(conv, a, i, str).Some? <==> Update(conv, b, i, str).Some?
    ensures Update(conv, a, i, str).Some? ==>
              var (a', b') := (Update(conv, a, i, str).value, Update(conv, b, i, str).value);
              EqualUpTo(a', b', i + 1) && Bound(a') && Bound(b') && |a'.cols| == |a.cols|
  {
    if a.cols[i].Keep? {
      KeepAlike(a, b, i, str);
    } else {
      assert a.cols[i] == b.cols[i];
      if a.cols[i].Updatable() {
        var v := Field(conv, a.cols[i].default, str);
        if v.Some? {
          WriteBound(a, i, v.value);
          WriteBound(b, i, v.value);
          WriteAlike(a, b, i, v.value);
        }
      } else {
        SkipAlike(a, b, i);
      }
    }
  }

  lemma SkipAlike(a: Memory, b: Memory, i: nat)
    requires EqualUpTo(a, b, i) && i < |a.cols| && a.cols[i].Value? && !a.cols[i].Updatable()
    ensures EqualUpTo(a, b, i + 1)
  {
    forall cell | cell in a.vpz && WrittenBy(a.cols, i + 1, cell) ensures WrittenBy(a.cols, i, cell) {
      var j :| 0 <= j < i + 1 && j < |a.cols| && a.cols[j].Updatable() && a.cols[j].cell == cell;
      assert j < i;
    }
  }

  lemma WrittenShape(a: seq<Column>, b: seq<Column>, w: nat, cell: nat)
    requires SameShape(a, b)
    ensures WrittenBy(a, w, cell) <==> WrittenBy(b, w, cell)
  {
    if WrittenBy(a, w, cell) {
      var j :| 0 <= j < w && j < |a| && a[j].Updatable() && a[j].cell == cell;
      assert b[j].Updatable() && b[j].cell == cell;
    }
    if WrittenBy(b, w, cell) {
      var j :| 0 <= j < w && j < |b| && b[j].Updatable() && b[j].cell == cell;
      assert a[j].Updatable() && a[j].cell == cell;
    }
  }

  lemma {:induction false} RowAlike(conv: Conv, a: Memory, b: Memory, fields: seq<string>, i: nat)
    requires Bound(a) && Bound(b) && EqualUpTo(a, b, i) && i <= |fields|
    ensures UpdateFrom(conv, a, fields, i).Some? <==> UpdateFrom(conv, b, fields, i).Some?
    ensures UpdateFrom(conv, a, fields, i).Some? ==>
              EqualUpTo(UpdateFrom(conv, a, fields, i).value, UpdateFrom(conv, b, fields, i).value, |fields|)
    decreases |fields| - i
  {
    if i < |fields| && i < |a.cols| {
      UpdateAlike(conv, a, b, i, Cleanup(fields[i]));
      if Update(conv, a, i, Cleanup(fields[i])).Some? {
        RowAlike(conv, Update(conv, a, i, Cleanup(fields[i])).value, Update(conv, b, i, Cleanup(fields[i])).value,
                 fields, i + 1);
      }
    }
  }

  /** A row of w fields overwrites everything earlier rows may have left: there
      is no label column and no value column behind the w-th, unless an earlier
      column writes the same cell. */
  ghost predicate Covered(cols: seq<Column>, w: nat)
  {
    forall j :: w <= j < |cols| ==>
      cols[j].Value? && (cols[j].Updatable() ==> WrittenBy(cols, w, cols[j].cell))
  }

  lemma CoveredAgrees(a: Memory, b: Memory, w: nat)
    requires EqualUpTo(a, b, w) && Covered(a.cols, w)
    ensures a == b
  {
    forall j | 0 <= j < |a.cols| ensures a.cols[j] == b.cols[j] {
    }
    assert a.cols == b.cols;
    forall cell | cell in a.vpz ensures a.vpz[cell] == b.vpz[cell] {
      if WrittenBy(a.cols, |a.cols|, cell) {
        var j :| 0 <= j < |a.cols| && a.cols[j].Updatable() && a.cols[j].cell == cell;
        assert WrittenBy(a.cols, w, cell);
      }
    }
  }

  lemma {:induction false} UpdateKeepsShape(conv: Conv, m: Memory, fields: seq<string>, i: nat)
    requires i <= |fields| && UpdateFrom(conv, m, fields, i).Some?
    ensures SameShape(m.cols, UpdateFrom(conv, m, fields, i).value.cols)
    ensures forall j :: |fields| <= j < |m.cols| ==> UpdateFrom(conv, m, fields, i).value.cols[j] == m.cols[j]
    decreases |fields| - i
  {
    if i < |fields| {
      UpdateKeepsShape(conv, Update(conv, m, i, Cleanup(fields[i])).value, fields, i + 1);
    }
  }

  lemma {:induction false} UpdateKeepsCell(conv: Conv, m: Memory, fields: seq<string>, i: nat, cell: nat)
    requires i <= |fields| && UpdateFrom(conv, m, fields, i).Some?
    requires !WrittenBy(m.cols, |fields|, cell) && cell in m.vpz
    ensures cell in UpdateFrom(conv, m, fields, i).value.vpz
    ensures UpdateFrom(conv, m, fields, i).value.vpz[cell] == m.vpz[cell]
    decreases |fields| - i
  {
    if i < |fields| {
      var m1 := Update(conv, m, i, Cleanup(fields[i])).value;
      WrittenShape(m.cols, m1.cols, |fields|, cell);
      UpdateKeepsCell(conv, m1, fields, i + 1, cell);
    }
  }

  /** Another value of the same kind. */
  function Other(v: Scalar): (r: Scalar)
    ensures SameKind(v, r)
    ensures !v.Opaque? ==> r != v
  {
    match v
    case BoolV(b) => BoolV(!b)
    case IntV(i) => IntV(i + 1)
    case DoubleV(d) => DoubleV(d + 1.0)
    case StringV(s) => StringV(s + "x")
    case Opaque(_) => v
  }

  /** A memory alike that differs at an uncovered column. */
  function Disturbed(m: Memory, j: nat): (r: Memory)
    requires Bound(m) && j < |m.cols|
  {
    match m.cols[j]
    case Keep(s) => m.(cols := m.cols[j := Keep(s + "x")])
    case Value(cell, _) => m.(vpz := m.vpz[cell := Other(m.vpz[cell])])
  }

  lemma DisturbedAlike(m: Memory, j: nat)
    requires Bound(m) && j < |m.cols| && (m.cols[j].Keep? || m.cols[j].Updatable())
    ensures Alike(m, Disturbed(m, j)) && Bound(Disturbed(m, j))
  {
    if m.cols[j].Value? {
      assert WrittenBy(m.cols, |m.cols|, m.cols[j].cell);
    }
  }

  lemma UncoveredDiffers(conv: Conv, m: Memory, row: string, j: nat)
    requires Bound(m) && UpdateRow(conv, m, row).Some?
    requires |Split(row, ',')| <= j < |m.cols|
    requires m.cols[j].Keep? || (m.cols[j].Updatable() && !WrittenBy(m.cols, |Split(row, ',')|, m.cols[j].cell))
    ensures Alike(m, Disturbed(m, j)) && Bound(Disturbed(m, j))
    ensures UpdateRow(conv, Disturbed(m, j), row) != UpdateRow(conv, m, row)
  {
    var fields := Split(row, ',');
    var d := Disturbed(m, j);
    DisturbedAlike(m, j);
    RowAlike(conv, m, d, fields, 0);
    UpdateKeepsShape(conv, m, fields, 0);
    UpdateKeepsShape(conv, d, fields, 0);
    if m.cols[j].Value? {
      WrittenShape(m.cols, d.cols, |fields|, m.cols[j].cell);
      UpdateKeepsCell(conv, m, fields, 0, m.cols[j].cell);
      UpdateKeepsCell(conv, d, fields, 0, m.cols[j].cell);
    }
  }

  /** The exact condition for a row to be free of history, aliased columns
      included: a successful row leaves the same memory from every memory alike
      if and only if the row covers the columns. */
  lemma HistoryIndependence(conv: Conv, m: Memory, row: string)
    requires Bound(m) && UpdateRow(conv, m, row).Some?
    ensures (forall m' :: Alike(m, m') && Bound(m') ==> UpdateRow(conv, m', row) == UpdateRow(conv, m, row)) <==>
            Covered(m.cols, |Split(row, ',')|)
  {
    var fields := Split(row, ',');
    var w := |fields|;
    UpdateKeepsShape(conv, m, fields, 0);
    if Covered(m.cols, w) {
      forall m' | Alike(m, m') && Bound(m') ensures UpdateRow(conv, m', row) == UpdateRow(conv, m, row) {
        RowAlike(conv, m, m', fields, 0);
        CoveredShape(m.cols, UpdateRow(conv, m, row).value.cols, w);
        CoveredAgrees(UpdateRow(conv, m, row).value, UpdateRow(conv, m', row).value, w);
      }
    } else {
      var j :| w <= j < |m.cols| &&
        !(m.cols[j].Value? && (m.cols[j].Updatable() ==> WrittenBy(m.cols, w, m.cols[j].cell)));
      UncoveredDiffers(conv, m, row, j);
    }
  }

  lemma CoveredShape(a: seq<Column>, b: seq<Column>, w: nat)
    requires SameShape(a, b) && Covered(a, w)
    ensures Covered(b, w)
  {
    forall j | w <= j < |b|
      ensures b[j].Value? && (b[j].Updatable() ==> WrittenBy(b, w, b[j].cell))
    {
      assert a[j] == b[j];
      WrittenShape(a, b, w, a[j].cell);
    }
  }

  // What a row leaves in the experiment -----------------------------------------

  /** The cell holds what the text says, read by the kind of the original value;
      an empty text stands for that value. */
  ghost predicate Says(conv: Conv, default: Scalar, str: string, v: Scalar)
  {
    if str == "" then v == default
    else match default
      case BoolV(_) => v.BoolV? && conv.toBool(str) == Some(v.b)
      case IntV(_) => v.IntV? && conv.toInt(str) == Some(v.i)
      case DoubleV(_) => v.DoubleV? && conv.toDouble(str) == Some(v.d)
      case StringV(_) => v == StringV(str)
      case Opaque(_) => v == default
  }

  /** Some text makes sense for a value of this kind. */
  ghost predicate Readable(conv: Conv, default: Scalar, str: string)
  {
    exists v :: Says(conv, default, str, v)
  }

  /** One of the columns from the i-th to before the n-th writes the cell. */
  ghost predicate WrittenIn(cols: seq<Column>, i: nat, n: nat, cell: nat)
  {
    exists j :: i <= j < n && j < |cols| && cols[j].Updatable() && cols[j].cell == cell
  }

  /** What a row of fields, from the i-th on, makes of a memory: labels hold their
      unquoted fields, every cell holds the text of the last field bound to it,
      and everything else is as before. */
  ghost predicate Leaves(conv: Conv, m: Memory, fields: seq<string>, i: nat, r: Memory)
  {
    && |fields| <= |m.cols| == |r.cols|
    && (forall j :: 0 <= j < |m.cols| ==>
          r.cols[j] == if m.cols[j].Keep? && i <= j < |fields| then Keep(Cleanup(fields[j])) else m.cols[j])
    && (forall j :: i <= j < |fields| && m.cols[j].Updatable() ==>
          m.cols[j].cell in r.vpz &&
          (!WrittenIn(m.cols, j + 1, |fields|, m.cols[j].cell) ==>
             Says(conv, m.cols[j].default, Cleanup(fields[j]), r.vpz[m.cols[j].cell])))
    && (forall cell :: !WrittenIn(m.cols, i, |fields|, cell) ==>
          (cell in r.vpz <==> cell in m.vpz) && (cell in m.vpz ==> r.vpz[cell] == m.vpz[cell]))
  }

  lemma FieldSays(conv: Conv, default: Scalar, str: string)
    ensures Field(conv, default, str).Some? <==> Readable(conv, default, str)
    ensures Field(conv, default, str).Some? ==> Says(conv, default, str, Field(conv, default, str).value)
  {
    if Readable(conv, default, str) {
      var v :| Says(conv, default, str, v);
    }
    if Field(conv, default, str).Some? {
      assert Says(conv, default, str, Field(conv, default, str).value);
    }
  }

  lemma LaterOnly(cols: seq<Column>, i: nat, n: nat, cell: nat)
    requires i < n <= |cols|
    ensures WrittenIn(cols, i, n, cell) <==>
              (cols[i].Updatable() && cols[i].cell == cell) || WrittenIn(cols, i + 1, n, cell)
  {
  }

  lemma SameWriters(a: seq<Column>, b: seq<Column>, i: nat, n: nat, cell: nat)
    requires SameShape(a, b)
    ensures WrittenIn(a, i, n, cell) <==> WrittenIn(b, i, n, cell)
  {
    if WrittenIn(a, i, n, cell) {
      var j :| i <= j < n && j < |a| && a[j].Updatable() && a[j].cell == cell;
      assert b[j].Updatable() && b[j].cell == cell;
    }
    if WrittenIn(b, i, n, cell) {
      var j :| i <= j < n && j < |b| && b[j].Updatable() && b[j].cell == cell;
      assert a[j].Updatable() && a[j].cell == cell;
    }
  }

  /** One field, then the rest. */
  lemma LeavesStep(conv: Conv, m: Memory, fields: seq<string>, i: nat, m1: Memory, r: Memory)
    requires i < |fields| <= |m.cols| && Update(conv, m, i, Cleanup(fields[i])) == Some(m1)
    requires Leaves(conv, m1, fields, i + 1, r)
    ensures Leaves(conv, m, fields, i, r)
  {
    assert SameShape(m.cols, m1.cols);
    FieldSays(conv, if m.cols[i].Value? then m.cols[i].default else Opaque(0), Cleanup(fields[i]));
    forall cell ensures WrittenIn(m.cols, i, |fields|, cell) <==>
                        (m.cols[i].Updatable() && m.cols[i].cell == cell) || WrittenIn(m1.cols, i + 1, |fields|, cell)
    {
      LaterOnly(m.cols, i, |fields|, cell);
      SameWriters(m.cols, m1.cols, i + 1, |fields|, cell);
    }
    forall j | i <= j < |fields| && m.cols[j].Updatable()
      ensures m.cols[j].cell in r.vpz
      ensures !WrittenIn(m.cols, j + 1, |fields|, m.cols[j].cell) ==>
                Says(conv, m.cols[j].default, Cleanup(fields[j]), r.vpz[m.cols[j].cell])
    {
      SameWriters(m.cols, m1.cols, j + 1, |fields|, m.cols[j].cell);
      if j > i {
        assert m1.cols[j] == m.cols[j];
      } else if WrittenIn(m1.cols, i + 1, |fields|, m.cols[i].cell) {
        var k :| i + 1 <= k < |fields| && k < |m1.cols| && m1.cols[k].Updatable() && m1.cols[k].cell == m.cols[i].cell;
        assert m1.cols[k].cell in r.vpz;
      }
    }
  }

  lemma {:induction false} LeavesFrom(conv: Conv, m: Memory, fields: seq<string>, i: nat)
    requires i <= |fields| <= |m.cols| && UpdateFrom(conv, m, fields, i).Some?
    ensures Leaves(conv, m, fields, i, UpdateFrom(conv, m, fields, i).value)
    decreases |fields| - i
  {
    if i < |fields| {
      var m1 := Update(conv, m, i, Cleanup(fields[i])).value;
      LeavesFrom(conv, m1, fields, i + 1);
      LeavesStep(conv, m, fields, i, m1, UpdateFrom(conv, m, fields, i).value);
    }
  }

  /** Every field from the i-th on has a column and is readable for it. */
  ghost predicate AllReadable(conv: Conv, cols: seq<Column>, fields: seq<string>, i: nat)
  {
    && |fields| <= |cols|
    && forall j :: i <= j < |fields| && cols[j].Updatable() ==> Readable(conv, cols[j].default, Cleanup(fields[j]))
  }

  lemma {:induction false} AcceptedFrom(conv: Conv, m: Memory, fields: seq<string>, i: nat)
    requires i <= |fields| && i <= |m.cols|
    ensures UpdateFrom(conv, m, fields, i).Some? <==> AllReadable(conv, m.cols, fields, i)
    decreases |fields| - i
  {
    if i < |fields| && i < |m.cols| {
      if m.cols[i].Updatable() {
        FieldSays(conv, m.cols[i].default, Cleanup(fields[i]));
      }
      var r := Update(conv, m, i, Cleanup(fields[i]));
      if r.Some? {
        AcceptedFrom(conv, r.value, fields, i + 1);
        assert SameShape(m.cols, r.value.cols);
        assert forall j :: i < j < |m.cols| ==> r.value.cols[j] == m.cols[j];
      }
    }
  }

  /** A row is accepted if and only if there is a column for every field and every
      field bound to a scalar can be read as its kind; then it leaves exactly what
      it says. */
  lemma RowLeaves(conv: Conv, m: Memory, row: string)
    ensures UpdateRow(conv, m, row).Some? <==> AllReadable(conv, m.cols, Split(row, ','), 0)
    ensures UpdateRow(conv, m, row).Some? ==>
              Leaves(conv, m, Split(row, ','), 0, UpdateRow(conv, m, row).value)
  {
    AcceptedFrom(conv, m, Split(row, ','), 0);
    if UpdateRow(conv, m, row).Some? {
      LeavesFrom(conv, m, Split(row, ','), 0);
    }
  }
}
