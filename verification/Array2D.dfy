/** The two-dimensional array kept in one row-major vector, and the table of
    cells it stands for. */
module Array2D {
  import opened Common

  // Slots -----------------------------------------------------------------------------

  function Slot(columns: nat, column: nat, row: nat): (k: nat)
  {
    row * columns + column
  }

  lemma SlotInRange(columns: nat, rows: nat, column: nat, row: nat)
    requires column < columns && row < rows
    ensures Slot(columns, column, row) < rows * columns
  {
    assert (row + 1) * columns <= rows * columns;
  }

  /** Distinct cells never share a slot. */
  lemma SlotInjective(columns: nat, c1: nat, r1: nat, c2: nat, r2: nat)
    requires c1 < columns && c2 < columns && Slot(columns, c1, r1) == Slot(columns, c2, r2)
    ensures c1 == c2 && r1 == r2
  {
    if r1 < r2 {
      SlotInRange(columns, r2, c1, r1);
    } else if r2 < r1 {
      SlotInRange(columns, r1, c2, r2);
    }
  }

  /** Every slot belongs to a cell. */
  lemma SlotOnto(columns: nat, rows: nat, k: nat)
    requires k < rows * columns
    ensures columns > 0 && k % columns < columns && k / columns < rows && Slot(columns, k % columns, k / columns) == k
  {
    assert columns > 0;
    var r := k / columns;
    assert r * columns + k % columns == k;
    Below(columns, rows, r, k);
  }

  lemma Below(columns: nat, rows: nat, r: nat, k: nat)
    requires r * columns <= k < rows * columns
    ensures r < rows
  {
  }

  // Tables ----------------------------------------------------------------------------

  /** What the array stands for: a value for every cell of a rectangle. */
  datatype Table<T> = Table(columns: nat, rows: nat, cell: (nat, nat) -> T)

  ghost predicate Inside<T>(t: Table<T>, column: nat, row: nat)
  {
    column < t.columns && row < t.rows
  }

  /** The same rectangle with the same values. */
  ghost predicate Same<T(!new)>(a: Table<T>, b: Table<T>)
  {
    a.columns == b.columns && a.rows == b.rows
    && forall c: nat, r: nat :: c < a.columns && r < a.rows ==> SameCell(a, b, c, r)
  }

  ghost predicate SameCell<T>(a: Table<T>, b: Table<T>, column: nat, row: nat)
  {
    a.cell(column, row) == b.cell(column, row)
  }

  lemma SameThen<T(!new)>(a: Table<T>, b: Table<T>, c: Table<T>)
    requires (Same(a, b) || Same(b, a)) && (Same(b, c) || Same(c, b))
    ensures Same(a, c)
  {
    forall x: nat, y: nat | x < a.columns && y < a.rows ensures SameCell(a, c, x, y) {
      assert SameCell(a, b, x, y) || SameCell(b, a, x, y);
      assert SameCell(b, c, x, y) || SameCell(c, b, x, y);
    }
  }

  function Resized<T>(t: Table<T>, columns: nat, rows: nat, zero: T): (u: Table<T>)
  {
    Table(columns, rows, (c: nat, r: nat) => if c < t.columns && r < t.rows then t.cell(c, r) else zero)
  }

  function Filled<T>(columns: nat, rows: nat, value: T): (u: Table<T>)
  {
    Table(columns, rows, (c: nat, r: nat) => value)
  }

  function Assigned<T>(t: Table<T>, column: nat, row: nat, x: T): (u: Table<T>)
  {
    t.(cell := (c: nat, r: nat) => if c == column && r == row then x else t.cell(c, r))
  }

  /** A detour through an intermediate size loses nothing if and only if every
      cell it cuts off held the default value or lies outside the final size. */
  lemma ResizeDetour<T(!new)>(t: Table<T>, c1: nat, r1: nat, c2: nat, r2: nat, zero: T)
    ensures Same(Resized(Resized(t, c1, r1, zero), c2, r2, zero), Resized(t, c2, r2, zero))
       <==> forall c: nat, r: nat :: Inside(t, c, r) && c < c2 && r < r2 && !(c < c1 && r < r1) ==> t.cell(c, r) == zero
  {
    var a, b := Resized(Resized(t, c1, r1, zero), c2, r2, zero), Resized(t, c2, r2, zero);
    forall c: nat, r: nat | c < c2 && r < r2
      ensures SameCell(a, b, c, r) <==> (Inside(t, c, r) && !(c < c1 && r < r1) ==> t.cell(c, r) == zero)
    {
    }
  }

  // Storage ---------------------------------------------------------------------------

  /** The table read out of a row-major vector. */
  ghost function Read<T>(columns: nat, rows: nat, cells: seq<T>, zero: T): (t: Table<T>)
  {
    Table(columns, rows, (c: nat, r: nat) => if Slot(columns, c, r) < |cells| then cells[Slot(columns, c, r)] else zero)
  }

  /** Storage and table determine each other. */
  lemma ReadInjective<T(!new)>(columns: nat, rows: nat, a: seq<T>, b: seq<T>, zero: T)
    requires |a| == |b| == rows * columns
    ensures Same(Read(columns, rows, a, zero), Read(columns, rows, b, zero)) <==> a == b
  {
    if Same(Read(columns, rows, a, zero), Read(columns, rows, b, zero)) {
      forall k | 0 <= k < |a| ensures a[k] == b[k] {
        SlotOnto(columns, rows, k);
        var c, r := k % columns, k / columns;
        assert SameCell(Read(columns, rows, a, zero), Read(columns, rows, b, zero), c, r);
      }
    }
  }

  /** Writing one slot writes one cell. */
  lemma WriteCell<T(!new)>(columns: nat, rows: nat, cells: seq<T>, column: nat, row: nat, x: T, zero: T)
    requires |cells| == rows * columns && column < columns && row < rows
    ensures Slot(columns, column, row) < |cells|
    ensures Same(Read(columns, rows, cells[Slot(columns, column, row) := x], zero),
                 Assigned(Read(columns, rows, cells, zero), column, row, x))
  {
    SlotInRange(columns, rows, column, row);
    var a := Read(columns, rows, cells[Slot(columns, column, row) := x], zero);
    var b := Assigned(Read(columns, rows, cells, zero), column, row, x);
    forall c: nat, r: nat | c < columns && r < rows ensures SameCell(a, b, c, r) {
      SlotInRange(columns, rows, c, r);
      if Slot(columns, c, r) == Slot(columns, column, row) {
        SlotInjective(columns, c, r, column, row);
      }
    }
  }

  /** The moving form of set, which inserts instead of assigning. */
  function Inserted<T>(cells: seq<T>, k: nat, x: T): (r: seq<T>)
    requires k <= |cells|
  {
    cells[..k] + [x] + cells[k..]
  }

  /** The moving set is a set if and only if the cell and all that follow it in
      row-major order already hold one value; the vector is then still one
      slot too long. */
  lemma InsertExact<T(!new)>(columns: nat, rows: nat, cells: seq<T>, column: nat, row: nat, x: T, zero: T)
    requires |cells| == rows * columns && column < columns && row < rows
    ensures var k := Slot(columns, column, row);
            && k < |cells| && |Inserted(cells, k, x)| == rows * columns + 1
            && (Same(Read(columns, rows, Inserted(cells, k, x), zero),
                     Assigned(Read(columns, rows, cells, zero), column, row, x))
                <==> forall j :: k <= j < |cells| ==> cells[j] == cells[k])
  {
    var k := Slot(columns, column, row);
    SlotInRange(columns, rows, column, row);
    var shifted, written := Inserted(cells, k, x), cells[k := x];
    WriteCell(columns, rows, cells, column, row, x, zero);
    var cut := shifted[..|cells|];
    assert Same(Read(columns, rows, shifted, zero), Read(columns, rows, cut, zero)) by {
      forall c: nat, r: nat | c < columns && r < rows
        ensures SameCell(Read(columns, rows, shifted, zero), Read(columns, rows, cut, zero), c, r)
      {
        SlotInRange(columns, rows, c, r);
      }
    }
    ReadInjective(columns, rows, cut, written, zero);
    var t1, t2 := Read(columns, rows, shifted, zero), Read(columns, rows, cut, zero);
    var t3, t4 := Read(columns, rows, written, zero), Assigned(Read(columns, rows, cells, zero), column, row, x);
    if Same(t1, t4) {
      SameThen(t2, t1, t4);
      SameThen(t2, t4, t3);
    } else if Same(t2, t3) {
      SameThen(t1, t2, t3);
      SameThen(t1, t3, t4);
      assert false;
    }
    ShiftIsAssign(cells, k, x);
  }

  lemma ShiftIsAssign<T>(cells: seq<T>, k: nat, x: T)
    requires k < |cells|
    ensures Inserted(cells, k, x)[..|cells|] == cells[k := x] <==> forall j :: k <= j < |cells| ==> cells[j] == cells[k]
  {
    var cut := Inserted(cells, k, x)[..|cells|];
    assert forall j :: 0 <= j < k ==> cut[j] == cells[j];
    assert cut[k] == x;
    assert forall j :: k < j < |cells| ==> cut[j] == cells[j-1];
    if cut == cells[k := x] {
      forall j | k < j < |cells| ensures cells[j-1] == cells[j] {
        assert cut[j] == cells[j];
      }
      AllEqual(cells, k);
    }
  }

  lemma {:induction false} AllEqual<T>(cells: seq<T>, k: nat)
    requires k < |cells| && forall j :: k < j < |cells| ==> cells[j-1] == cells[j]
    ensures forall j :: k <= j < |cells| ==> cells[j] == cells[k]
    decreases |cells| - k
  {
    if k + 1 < |cells| {
      AllEqual(cells, k + 1);
      assert cells[k+1-1] == cells[k+1];
    }
  }

  /** The nested copy loops of the plain resize. */
  method CopyOverlap<T(!new)>(cells: seq<T>, columns: nat, rows: nat, cols: nat, rws: nat, zero: T)
      returns (copy: seq<T>)
    requires |cells| == rows * columns
    ensures |copy| == rws * cols
    ensures Same(Read(cols, rws, copy, zero), Resized(Read(columns, rows, cells, zero), cols, rws, zero))
  {
    copy := seq(rws * cols, _ => zero);
    var rmin := if rws < rows then rws else rows;
    var cmin := if cols < columns then cols else columns;
    CopyNone(copy, cols, rws, cells, columns, rows, zero);
    var r := 0;
    while r != rmin
      invariant 0 <= r <= rmin && Copied(copy, cols, rws, cells, columns, rows, zero, r, 0)
    {
      var c := 0;
      while c != cmin
        invariant 0 <= c <= cmin && Copied(copy, cols, rws, cells, columns, rows, zero, r, c)
      {
        CopyOne(copy, cols, rws, cells, columns, rows, zero, r, c);
        copy := copy[Slot(cols, c, r) := cells[Slot(columns, c, r)]];
        c := c + 1;
      }
      CopyRow(copy, cols, rws, cells, columns, rows, zero, r, c);
      r := r + 1;
    }
    CopyDone(copy, cols, rws, cells, columns, rows, zero, r);
  }

  // The class ---------------------------------------------------------------------------

  datatype Op<T> = Resize(columns: nat, rows: nat) | Refill(columns: nat, rows: nat, value: T)
    | Put(column: nat, row: nat, x: T)

  /** One operation on tables; a set outside the rectangle throws and changes
      nothing. */
  function Step<T>(t: Table<T>, op: Op<T>, zero: T): (u: Table<T>)
  {
    match op
    case Resize(c, r) => Resized(t, c, r, zero)
    case Refill(c, r, v) => Filled(c, r, v)
    case Put(c, r, x) => if c < t.columns && r < t.rows then Assigned(t, c, r, x) else t
  }

  function Steps<T>(t: Table<T>, ops: seq<Op<T>>, zero: T): (u: Table<T>)
  {
    if ops == [] then t else Step(Steps(t, ops[..|ops|-1], zero), ops[|ops|-1], zero)
  }

  lemma StepSame<T(!new)>(a: Table<T>, b: Table<T>, op: Op<T>, zero: T)
    requires Same(a, b)
    ensures Same(Step(a, op, zero), Step(b, op, zero))
  {
    var u, v := Step(a, op, zero), Step(b, op, zero);
    forall x: nat, y: nat | x < u.columns && y < u.rows ensures SameCell(u, v, x, y) {
      assert x < a.columns && y < a.rows ==> SameCell(a, b, x, y);
    }
  }

  class Array<T(!new)> {
    var cells: seq<T>
    var columns: nat
    var rows: nat
    const zero: T

    ghost predicate Valid()
      reads this
    {
      |cells| == rows * columns
    }

    ghost function View(): (t: Table<T>)
      reads this
    {
      Read(columns, rows, cells, zero)
    }

    constructor (columns: nat, rows: nat, value: T, zero: T)
      ensures Valid() && Same(View(), Filled(columns, rows, value)) && this.zero == zero
    {
      this.cells := seq(rows * columns, _ => value);
      this.columns := columns;
      this.rows := rows;
      this.zero := zero;
      new;
      FilledCells(columns, rows, value, zero);
    }

    /** The plain resize keeps exactly the overlapping rectangle. */
    method ResizeTo(cols: nat, rws: nat)
      requires Valid()
      modifies this
      ensures Valid() && Same(View(), Resized(old(View()), cols, rws, zero))
    {
      var copy := CopyOverlap(cells, columns, rows, cols, rws, zero);
      columns := cols;
      rows := rws;
      cells := copy;
    }

    /** The filling resize forgets everything. */
    method ResizeAndFill(cols: nat, rws: nat, value: T)
      requires Valid()
      modifies this
      ensures Valid() && Same(View(), Filled(cols, rws, value))
    {
      rows := rws;
      columns := cols;
      cells := seq(rws * cols, _ => value);
      FilledCells(cols, rws, value, zero);
    }

    method Set(column: nat, row: nat, x: T) returns (ok: bool)
      requires Valid()
      modifies this
      ensures Valid() && ok == (column < old(columns) && row < old(rows))
      ensures Same(View(), if ok then Assigned(old(View()), column, row, x) else old(View()))
    {
      ok := column < columns && row < rows;
      if ok {
        WriteCell(columns, rows, cells, column, row, x, zero);
        cells := cells[row * columns + column := x];
      }
    }

    method Get(column: nat, row: nat) returns (x: Option<T>)
      requires Valid()
      ensures x == if column < columns && row < rows then Some(View().cell(column, row)) else None
    {
      if column < columns && row < rows {
        SlotInRange(columns, rows, column, row);
        x := Some(cells[row * columns + column]);
      } else {
        x := None;
      }
    }

    /** After any run of operations the vector has exactly one slot per cell and
        the array stands for the table the same run gives. */
    method Run(ops: seq<Op<T>>)
      requires Valid()
      modifies this
      ensures Valid() && Same(View(), Steps(old(View()), ops, zero))
    {
      for i := 0 to |ops|
        invariant Valid() && Same(View(), Steps(old(View()), ops[..i], zero))
      {
        ghost var before, spec := View(), Steps(old(View()), ops[..i], zero);
        match ops[i] {
          case Resize(c, r) => ResizeTo(c, r);
          case Refill(c, r, v) => ResizeAndFill(c, r, v);
          case Put(c, r, x) => var _ := Set(c, r, x);
        }
        assert Same(View(), Step(before, ops[i], zero));
        StepSame(before, spec, ops[i], zero);
        SameThen(View(), Step(before, ops[i], zero), Step(spec, ops[i], zero));
        assert ops[..i+1][..i] == ops[..i];
      }
      assert ops[..|ops|] == ops;
    }
  }

  lemma FilledCells<T(!new)>(columns: nat, rows: nat, value: T, zero: T)
    ensures Same(Read(columns, rows, seq(rows * columns, _ => value), zero), Filled(columns, rows, value))
  {
    var a, b := Read(columns, rows, seq(rows * columns, _ => value), zero), Filled(columns, rows, value);
    forall c: nat, r: nat | c < columns && r < rows ensures SameCell(a, b, c, r) {
      SlotInRange(columns, rows, c, r);
    }
  }

  /** The copy has reached column c of row r of the overlap. */
  ghost predicate Copied<T>(copy: seq<T>, cols: nat, rws: nat, cells: seq<T>, columns: nat, rows: nat, zero: T,
                            r: nat, c: nat)
  {
    && |copy| == rws * cols && |cells| == rows * columns
    && forall x: nat, y: nat :: x < cols && y < rws ==> CellDone(copy, cols, cells, columns, rows, zero, r, c, x, y)
  }

  ghost predicate CellDone<T>(copy: seq<T>, cols: nat, cells: seq<T>, columns: nat, rows: nat, zero: T, r: nat,
                              c: nat, x: nat, y: nat)
  {
    var here, there := Slot(cols, x, y), Slot(columns, x, y);
    && here < |copy|
    && (if x < columns && y < rows && (y < r || (y == r && x < c)) then there < |cells| && copy[here] == cells[there]
        else copy[here] == zero)
  }

  lemma CopyNone<T>(copy: seq<T>, cols: nat, rws: nat, cells: seq<T>, columns: nat, rows: nat, zero: T)
    requires |copy| == rws * cols && |cells| == rows * columns && forall i :: 0 <= i < |copy| ==> copy[i] == zero
    ensures Copied(copy, cols, rws, cells, columns, rows, zero, 0, 0)
  {
    forall x: nat, y: nat | x < cols && y < rws
      ensures CellDone(copy, cols, cells, columns, rows, zero, 0, 0, x, y)
    {
      SlotInRange(cols, rws, x, y);
    }
  }

  lemma CopyOne<T>(copy: seq<T>, cols: nat, rws: nat, cells: seq<T>, columns: nat, rows: nat, zero: T, r: nat, c: nat)
    requires Copied(copy, cols, rws, cells, columns, rows, zero, r, c)
    requires c < cols && r < rws && c < columns && r < rows
    ensures Slot(cols, c, r) < |copy| && Slot(columns, c, r) < |cells|
    ensures Copied(copy[Slot(cols, c, r) := cells[Slot(columns, c, r)]], cols, rws, cells, columns, rows, zero, r,
            c + 1)
  {
    SlotInRange(cols, rws, c, r);
    SlotInRange(columns, rows, c, r);
    var after := copy[Slot(cols, c, r) := cells[Slot(columns, c, r)]];
    var next := c + 1;
    forall x: nat, y: nat | x < cols && y < rws
      ensures CellDone(after, cols, cells, columns, rows, zero, r, next, x, y)
    {
      assert CellDone(copy, cols, cells, columns, rows, zero, r, c, x, y);
      if Slot(cols, x, y) == Slot(cols, c, r) {
        SlotInjective(cols, x, y, c, r);
      }
    }
  }

  lemma CopyRow<T>(copy: seq<T>, cols: nat, rws: nat, cells: seq<T>, columns: nat, rows: nat, zero: T, r: nat, c: nat)
    requires Copied(copy, cols, rws, cells, columns, rows, zero, r, c) && r < rws && r < rows
    requires c == cols || c == columns
    ensures Copied(copy, cols, rws, cells, columns, rows, zero, r + 1, 0)
  {
    var next := r + 1;
    forall x: nat, y: nat | x < cols && y < rws
      ensures CellDone(copy, cols, cells, columns, rows, zero, next, 0, x, y)
    {
      assert CellDone(copy, cols, cells, columns, rows, zero, r, c, x, y);
    }
  }

  lemma CopyDone<T(!new)>(copy: seq<T>, cols: nat, rws: nat, cells: seq<T>, columns: nat, rows: nat, zero: T, r: nat)
    requires Copied(copy, cols, rws, cells, columns, rows, zero, r, 0) && (r == rws || r == rows)
    ensures Same(Read(cols, rws, copy, zero), Resized(Read(columns, rows, cells, zero), cols, rws, zero))
  {
    var a, b := Read(cols, rws, copy, zero), Resized(Read(columns, rows, cells, zero), cols, rws, zero);
    forall x: nat, y: nat | x < cols && y < rws ensures SameCell(a, b, x, y) {
      assert CellDone(copy, cols, cells, columns, rows, zero, r, 0, x, y);
    }
  }
}
