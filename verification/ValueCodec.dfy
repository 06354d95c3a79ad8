/** Values written into the document and read back: which of them survive, and
    what becomes of the others. */
module ValueCodec {
  import opened Common
  import opened Dom
  import N = Names

  /** A floating point number, by its bit pattern. */
  datatype Double = Double(bits: nat)

  const ZERO := Double(0)

  /** The value tree. `Nothing` is a null pointer; the cells of a matrix are in
      row-major order. Keys of a map are unique. */
  datatype Value =
    | Nothing
    | BoolV(b: bool)
    | IntV(i: int)
    | DoubleV(d: Double)
    | StringV(s: string)
    | SetV(elems: seq<Value>)
    | MapV(keys: seq<string>, vals: seq<Value>)
    | TupleV(items: seq<Double>)
    | MatrixV(dims: Dims, cells: seq<Value>)

  datatype Dims = Dims(columns: nat, rows: nat, columnMax: nat, rowMax: nat, columnStep: nat, rowStep: nat)

  /** Scalars to text and back. */
  datatype Scalars = Scalars(ofBool: bool -> string, toBool: string -> bool, ofInt: int -> string, toInt: string -> int,
                             ofDouble: Double -> string, toDouble: string -> Double)

  /** Every scalar is read back from its text, no number's text holds a space,
      and an empty text reads as zero. */
  ghost predicate Invertible(t: Scalars)
  {
    && (forall b :: t.toBool(t.ofBool(b)) == b)
    && (forall i :: t.toInt(t.ofInt(i)) == i)
    && (forall d :: DoubleText(t, d))
    && t.toDouble("") == ZERO
  }

  ghost predicate DoubleText(t: Scalars, d: Double)
  {
    t.toDouble(t.ofDouble(d)) == d && Free(t.ofDouble(d), ' ')
  }

  function TagOf(v: Value): (tag: string)
  {
    match v
    case Nothing => "none"
    case BoolV(_) => "boolean"
    case IntV(_) => "integer"
    case DoubleV(_) => "double"
    case StringV(_) => "string"
    case SetV(_) => "set"
    case MapV(_, _) => "map"
    case TupleV(_) => "tuple"
    case MatrixV(_, _) => "matrix"
  }

  ghost predicate DimsOk(d: Dims, n: nat)
  {
    && d.columnMax * d.rowMax > 0 && d.columns <= d.columnMax && d.rows <= d.rowMax
    && n == d.columns * d.rows
  }

  ghost predicate UniqueKeys(keys: seq<string>)
  {
    forall i, j :: 0 <= i < j < |keys| ==> keys[i] != keys[j]
  }

  /** The values a program can hold: no null inside, unique keys, and matrices
      whose constructor accepts their dimensions. */
  ghost predicate Proper(v: Value)
  {
    match v
    case Nothing => false
    case SetV(es) => forall i :: 0 <= i < |es| ==> Proper(es[i])
    case MapV(ks, vs) => |ks| == |vs| && UniqueKeys(ks) && forall i :: 0 <= i < |vs| ==> Proper(vs[i])
    case MatrixV(d, cs) => DimsOk(d, |cs|) && forall i :: 0 <= i < |cs| ==> Proper(cs[i])
    case _ => true
  }

  // Writing ---------------------------------------------------------------------------------

  function Printed(t: Scalars, items: seq<Double>): (r: seq<string>)
    ensures |r| == |items|
    ensures forall i :: 0 <= i < |items| ==> r[i] == t.ofDouble(items[i])
  {
    seq(|items|, i requires 0 <= i < |items| => t.ofDouble(items[i]))
  }

  function Joined(t: Scalars, items: seq<Double>): (text: string)
  {
    Join(Printed(t, items), ' ')
  }

  /** A text node receives the text; other content is refused. */
  function WithText(n: Node, text: string): (r: Node)
  {
    if n.Elem? && (n.kids == [] || (|n.kids| == 1 && n.kids[0].Text?)) then n.(kids := [Text(text)]) else n
  }

  function Attributes(attrs: map<string, string>, d: Dims): (r: map<string, string>)
  {
    attrs["columns" := N.ToDec(d.columns)]["rows" := N.ToDec(d.rows)]["columnmax" := N.ToDec(d.columnMax)]
         ["rowmax" := N.ToDec(d.rowMax)]["columnstep" := N.ToDec(d.columnStep)]["rowsstep" := N.ToDec(d.rowStep)]
  }

  /** fillWithValue: the node after the call. A node of another tag is left as
      it is. */
  function Fill(t: Scalars, n: Node, v: Value): (r: Node)
    decreases v, 1
  {
    if !n.Elem? || n.tag != TagOf(v) then n
    else match v
      case Nothing => n
      case BoolV(b) => WithText(n, t.ofBool(b))
      case IntV(i) => WithText(n, t.ofInt(i))
      case DoubleV(d) => WithText(n, t.ofDouble(d))
      case StringV(s) => WithText(n, s)
      case TupleV(items) => WithText(n, Joined(t, items))
      case SetV(es) => n.(kids := FillAll(t, es))
      case MapV(ks, vs) => n.(kids := Keyed(ks, FillAll(t, vs)))
      case MatrixV(d, cs) => n.(attrs := Attributes(n.attrs, d), kids := FillAll(t, cs))
  }

  function FillAll(t: Scalars, vs: seq<Value>): (r: seq<Node>)
    ensures |r| == |vs|
    decreases vs, 0
  {
    if vs == [] then [] else [Fill(t, Elem(TagOf(vs[0]), map[], []), vs[0])] + FillAll(t, vs[1..])
  }

  function Keyed(keys: seq<string>, nodes: seq<Node>): (r: seq<Node>)
  {
    if keys == [] || nodes == [] then []
    else [Elem("key", map["name" := keys[0]], [nodes[0]])] + Keyed(keys[1..], nodes[1..])
  }

  // Reading -----------------------------------------------------------------------------------

  function TextOf(n: Node): (s: string)
  {
    if n.Text? then n.data else ""
  }

  function NonText(kids: seq<Node>): (r: seq<Node>)
    ensures forall i :: 0 <= i < |r| ==> r[i] in kids
  {
    if kids == [] then [] else (if kids[0].Text? then [] else [kids[0]]) + NonText(kids[1..])
  }

  function Attr(n: Node, name: string): (s: string)
  {
    if n.Elem? && name in n.attrs then n.attrs[name] else ""
  }

  function ReadDims(n: Node): (d: Dims)
  {
    Dims(N.FromDec(Attr(n, "columns")), N.FromDec(Attr(n, "rows")), N.FromDec(Attr(n, "columnmax")),
         N.FromDec(Attr(n, "rowmax")), N.FromDec(Attr(n, "columnstep")), N.FromDec(Attr(n, "rowstep")))
  }

  function Doubles(t: Scalars, fields: seq<string>): (r: seq<Double>)
    ensures |r| == |fields|
  {
    seq(|fields|, i requires 0 <= i < |fields| => t.toDouble(fields[i]))
  }

  /** Map::add: the value of an existing key is replaced. */
  function MapPut(m: Value, key: string, v: Value): (r: Value)
    requires m.MapV? && |m.keys| == |m.vals|
    ensures r.MapV? && |r.keys| == |r.vals|
  {
    if exists i :: 0 <= i < |m.keys| && m.keys[i] == key then
      MapV(m.keys, seq(|m.vals|, i requires 0 <= i < |m.vals| => if m.keys[i] == key then v else m.vals[i]))
    else MapV(m.keys + [key], m.vals + [v])
  }

  function FirstElement(kids: seq<Node>): (r: Option<Node>)
    ensures r.Some? ==> r.value in kids
  {
    if kids == [] then None else if kids[0].Text? then FirstElement(kids[1..]) else Some(kids[0])
  }

  /** buildValue; None when an unknown element makes it throw. */
  function Build(t: Scalars, n: Node): (r: Option<Value>)
    decreases n, 1
  {
    if n.Text? then Some(Nothing)
    else
      var kids := n.kids;
      if n.tag == "boolean" then Some(if |kids| == 1 then BoolV(t.toBool(TextOf(kids[0]))) else Nothing)
      else if n.tag == "integer" then Some(if |kids| == 1 then IntV(t.toInt(TextOf(kids[0]))) else Nothing)
      else if n.tag == "double" then Some(if |kids| == 1 then DoubleV(t.toDouble(TextOf(kids[0]))) else Nothing)
      else if n.tag == "string" then
        Some(if kids == [] then StringV("") else if |kids| == 1 then StringV(TextOf(kids[0])) else Nothing)
      else if n.tag == "tuple" then
        Some(if |kids| > 1 then Nothing
             else if kids == [] then TupleV([])
             else TupleV(Doubles(t, Split(TextOf(kids[0]), ' '))))
      else if n.tag == "set" then
        match BuildAll(t, n, kids)
        case None => None
        case Some(vs) => Some(SetV(vs))
      else if n.tag == "map" then BuildMap(t, n, kids, MapV([], []))
      else if n.tag == "matrix" then
        var d := ReadDims(n);
        if d.columnMax * d.rowMax <= 0 || d.columns > d.columnMax || d.rows > d.rowMax then None
        else if |NonText(kids)| != d.columns * d.rows then Some(Nothing)
        else match BuildAll(t, n, kids)
          case None => None
          case Some(vs) => Some(MatrixV(d, vs))
      else None
  }

  /** The elements among the children of n, built in order. */
  function BuildAll(t: Scalars, n: Node, kids: seq<Node>): (r: Option<seq<Value>>)
    requires forall i :: 0 <= i < |kids| ==> kids[i] < n
    decreases n, 0, |kids|
  {
    if kids == [] then Some([])
    else if kids[0].Text? then BuildAll(t, n, kids[1..])
    else match Build(t, kids[0])
      case None => None
      case Some(v) =>
        match BuildAll(t, n, kids[1..])
        case None => None
        case Some(vs) => Some([v] + vs)
  }

  function BuildMap(t: Scalars, n: Node, kids: seq<Node>, acc: Value): (r: Option<Value>)
    requires forall i :: 0 <= i < |kids| ==> kids[i] < n
    requires acc.MapV? && |acc.keys| == |acc.vals|
    decreases n, 0, |kids|
  {
    if kids == [] then Some(acc)
    else if kids[0].Text? then BuildMap(t, n, kids[1..], acc)
    else if kids[0].tag != "key" || "name" !in kids[0].attrs then Some(acc)
    else match FirstElement(kids[0].kids)
      case None => None
      case Some(x) =>
        match Build(t, x)
        case None => None
        case Some(v) => BuildMap(t, n, kids[1..], MapPut(acc, kids[0].attrs["name"], v))
  }

  // When reading throws ----------------------------------------------------------------------------

  predicate IsKey(n: Node)
  {
    n.Elem? && n.tag == "key" && "name" in n.attrs
  }

  /** A key whose value can be read; a key without a value cannot. */
  ghost predicate GoodKey(n: Node)
    decreases n, 0
  {
    IsKey(n) && match FirstElement(n.kids) case None => false case Some(x) => !Throws(x)
  }

  /** What in a document makes reading it throw: an element of no value, a matrix
      whose dimensions its constructor refuses, or either of them, or a key
      without a value, where it is read. Text never does, nor do the children of
      scalars, of a matrix with too many or too few cells, or what follows the
      first child of a map that is no key. */
  ghost predicate Throws(n: Node)
    decreases n, 1
  {
    && n.Elem?
    && if n.tag == "set" then exists i :: 0 <= i < |n.kids| && Throws(n.kids[i])
       else if n.tag == "map" then
         exists i :: 0 <= i < |n.kids| && IsKey(n.kids[i]) && !GoodKey(n.kids[i])
                     && forall j :: 0 <= j < i ==> n.kids[j].Text? || GoodKey(n.kids[j])
       else if n.tag == "matrix" then
         var d := ReadDims(n);
         || d.columnMax * d.rowMax <= 0 || d.columns > d.columnMax || d.rows > d.rowMax
         || (|NonText(n.kids)| == d.columns * d.rows && exists i :: 0 <= i < |n.kids| && Throws(n.kids[i]))
       else n.tag !in {"boolean", "integer", "double", "string", "tuple"}
  }

  lemma {:induction false} BuildThrows(t: Scalars, n: Node)
    ensures Build(t, n).None? <==> Throws(n)
    decreases n, 1
  {
    if n.Elem? {
      if n.tag == "set" || n.tag == "matrix" {
        BuildAllThrows(t, n, n.kids);
      } else if n.tag == "map" {
        BuildMapThrows(t, n, n.kids, MapV([], []));
      }
    }
  }

  lemma {:induction false} BuildAllThrows(t: Scalars, n: Node, kids: seq<Node>)
    requires forall i :: 0 <= i < |kids| ==> kids[i] < n
    ensures BuildAll(t, n, kids).None? <==> exists i :: 0 <= i < |kids| && Throws(kids[i])
    decreases n, 0, |kids|
  {
    if kids != [] {
      var rest := kids[1..];
      BuildThrows(t, kids[0]);
      BuildAllThrows(t, n, rest);
      assert forall i :: 0 <= i < |rest| ==> rest[i] == kids[i+1];
      if i :| 0 <= i < |rest| && Throws(rest[i]) {
        assert Throws(kids[i+1]);
      }
      if i :| 0 <= i < |kids| && Throws(kids[i]) && i > 0 {
        assert Throws(rest[i-1]);
      }
    }
  }

  /** A map stops being read at its first key without a readable value, unless it
      was left before at a child that is no key. */
  ghost predicate MapThrows(kids: seq<Node>)
  {
    exists i :: 0 <= i < |kids| && IsKey(kids[i]) && !GoodKey(kids[i])
                && forall j :: 0 <= j < i ==> kids[j].Text? || GoodKey(kids[j])
  }

  lemma MapThrowsStep(kids: seq<Node>)
    requires kids != []
    ensures MapThrows(kids) <==>
              (IsKey(kids[0]) && !GoodKey(kids[0])) || ((kids[0].Text? || GoodKey(kids[0])) && MapThrows(kids[1..]))
  {
    var rest := kids[1..];
    assert forall i :: 0 <= i < |rest| ==> rest[i] == kids[i+1];
    if MapThrows(kids) && !(IsKey(kids[0]) && !GoodKey(kids[0])) {
      var i :| 0 <= i < |kids| && IsKey(kids[i]) && !GoodKey(kids[i])
               && forall j :: 0 <= j < i ==> kids[j].Text? || GoodKey(kids[j]);
      assert IsKey(rest[i-1]) && !GoodKey(rest[i-1]);
      assert forall j :: 0 <= j < i - 1 ==> rest[j].Text? || GoodKey(rest[j]);
    }
    if (kids[0].Text? || GoodKey(kids[0])) && MapThrows(rest) {
      var i :| 0 <= i < |rest| && IsKey(rest[i]) && !GoodKey(rest[i])
               && forall j :: 0 <= j < i ==> rest[j].Text? || GoodKey(rest[j]);
      assert IsKey(kids[i+1]) && !GoodKey(kids[i+1]);
      assert forall j :: 0 <= j < i + 1 ==> kids[j].Text? || GoodKey(kids[j]) by {
        forall j | 0 < j < i + 1 ensures kids[j].Text? || GoodKey(kids[j]) {
          assert kids[j] == rest[j-1];
        }
      }
    }
  }

  lemma {:induction false} BuildMapThrows(t: Scalars, n: Node, kids: seq<Node>, acc: Value)
    requires (forall i :: 0 <= i < |kids| ==> kids[i] < n) && acc.MapV? && |acc.keys| == |acc.vals|
    ensures BuildMap(t, n, kids, acc).None? <==> MapThrows(kids)
    decreases n, 0, |kids|
  {
    if kids != [] {
      MapThrowsStep(kids);
      if kids[0].Text? {
        BuildMapThrows(t, n, kids[1..], acc);
      } else if IsKey(kids[0]) && FirstElement(kids[0].kids).Some? {
        var x := FirstElement(kids[0].kids).value;
        BuildThrows(t, x);
        if Build(t, x).Some? {
          BuildMapThrows(t, n, kids[1..], MapPut(acc, kids[0].attrs["name"], Build(t, x).value));
        }
      }
    }
  }

  // What comes back -------------------------------------------------------------------------------

  /** The row step a matrix node already carries; zero when it has none. */
  function StepOf(n: Node): (k: nat)
  {
    N.FromDec(Attr(n, "rowstep"))
  }

  /** The value read back from a node that carried this row step: an empty tuple
      comes back with one zero, and a matrix with the step of the node, because
      the new step is written under another name than it is read from. */
  function Norm(v: Value, step: nat): (r: Value)
    decreases v, 1
  {
    match v
    case SetV(es) => SetV(NormAll(es))
    case MapV(ks, vs) => MapV(ks, NormAll(vs))
    case TupleV(items) => if items == [] then TupleV([ZERO]) else v
    case MatrixV(d, cs) => MatrixV(d.(rowStep := step), NormAll(cs))
    case _ => v
  }

  function NormAll(vs: seq<Value>): (r: seq<Value>)
    ensures |r| == |vs|
    decreases vs, 0
  {
    if vs == [] then [] else [Norm(vs[0], 0)] + NormAll(vs[1..])
  }

  /** What a caller can check: no empty tuple inside, the row step of a matrix is
      the one its node carries, and those inside, whose nodes are new, have none. */
  ghost predicate Survives(v: Value, step: nat)
  {
    match v
    case SetV(es) => forall i :: 0 <= i < |es| ==> Survives(es[i], 0)
    case MapV(_, vs) => forall i :: 0 <= i < |vs| ==> Survives(vs[i], 0)
    case TupleV(items) => items != []
    case MatrixV(d, cs) => d.rowStep == step && forall i :: 0 <= i < |cs| ==> Survives(cs[i], 0)
    case _ => true
  }

  lemma {:induction false} NormIdentity(v: Value, step: nat)
    ensures Norm(v, step) == v <==> Survives(v, step)
    decreases v, 1
  {
    match v {
      case SetV(es) => NormAllIdentity(es);
      case MapV(_, vs) => NormAllIdentity(vs);
      case MatrixV(_, cs) => NormAllIdentity(cs);
      case _ =>
    }
  }

  lemma {:induction false} NormAllIdentity(vs: seq<Value>)
    ensures NormAll(vs) == vs <==> forall i :: 0 <= i < |vs| ==> Survives(vs[i], 0)
    decreases vs, 0
  {
    if vs != [] {
      NormIdentity(vs[0], 0);
      NormAllIdentity(vs[1..]);
      assert vs == [vs[0]] + vs[1..];
      assert NormAll(vs) == vs <==> Norm(vs[0], 0) == vs[0] && NormAll(vs[1..]) == vs[1..];
      assert forall i :: 1 <= i < |vs| ==> vs[i] == vs[1..][i-1];
      assert (forall i :: 0 <= i < |vs[1..]| ==> Survives(vs[1..][i], 0))
          <==> forall i :: 1 <= i < |vs| ==> Survives(vs[i], 0);
    }
  }

  // The round trip --------------------------------------------------------------------------------

  /** A node a value can be written into: an element of its tag, empty or with a
      single text for the values kept as text. A matrix node may carry a row
      step, which is then a number. */
  ghost predicate Blank(n: Node, v: Value)
  {
    && n.Elem? && n.tag == TagOf(v)
    && (!v.SetV? && !v.MapV? && !v.MatrixV? ==> n.kids == [] || (|n.kids| == 1 && n.kids[0].Text?))
    && StepText(n)
  }

  ghost predicate StepText(n: Node)
  {
    n.Elem? && ("rowstep" in n.attrs ==> exists k: nat :: n.attrs["rowstep"] == N.ToDec(k))
  }

  lemma TupleText(t: Scalars, items: seq<Double>)
    requires Invertible(t)
    ensures Doubles(t, Split(Joined(t, items), ' ')) == if items == [] then [ZERO] else items
  {
    var parts := Printed(t, items);
    if items == [] {
      assert Joined(t, items) == "";
      assert Split("", ' ') == [""];
    } else {
      forall i | 0 <= i < |parts| ensures Free(parts[i], ' ') && t.toDouble(parts[i]) == items[i] {
        assert DoubleText(t, items[i]) && parts[i] == t.ofDouble(items[i]);
      }
      SplitJoin(parts, ' ');
      assert Doubles(t, parts) == items;
    }
  }

  lemma DimsBack(n: Node, d: Dims)
    requires n.Elem?
    ensures ReadDims(n.(attrs := Attributes(n.attrs, d))) == d.(rowStep := StepOf(n))
  {
    N.DecRoundTrip(d.columns);
    N.DecRoundTrip(d.rows);
    N.DecRoundTrip(d.columnMax);
    N.DecRoundTrip(d.rowMax);
    N.DecRoundTrip(d.columnStep);
    var a := Attributes(n.attrs, d);
    assert a["columns"] == N.ToDec(d.columns) && a["rows"] == N.ToDec(d.rows);
    assert a["columnmax"] == N.ToDec(d.columnMax) && a["rowmax"] == N.ToDec(d.rowMax);
    assert a["columnstep"] == N.ToDec(d.columnStep);
    assert "rowstep" in a <==> "rowstep" in n.attrs;
    assert "rowstep" in a ==> a["rowstep"] == n.attrs["rowstep"];
  }

  lemma {:induction false} NoTexts(kids: seq<Node>)
    requires forall i :: 0 <= i < |kids| ==> kids[i].Elem?
    ensures NonText(kids) == kids
  {
    if kids != [] {
      var rest := kids[1..];
      NoTexts(rest);
      assert kids[0].Elem? && NonText(kids) == [kids[0]] + rest;
    }
  }

  lemma FillStays(t: Scalars, n: Node, v: Value)
    requires n.Elem?
    ensures Fill(t, n, v).Elem?
  {
  }

  lemma {:induction false} FillAllElems(t: Scalars, vs: seq<Value>)
    ensures forall i :: 0 <= i < |vs| ==> FillAll(t, vs)[i].Elem?
  {
    if vs != [] {
      FillStays(t, Elem(TagOf(vs[0]), map[], []), vs[0]);
      FillAllElems(t, vs[1..]);
    }
  }

  // Reading by tag: one unfolding each.

  lemma BuildText(t: Scalars, n: Node, text: string)
    requires n.Elem? && n.kids == [Text(text)]
    ensures n.tag == "boolean" ==> Build(t, n) == Some(BoolV(t.toBool(text)))
    ensures n.tag == "integer" ==> Build(t, n) == Some(IntV(t.toInt(text)))
    ensures n.tag == "double" ==> Build(t, n) == Some(DoubleV(t.toDouble(text)))
    ensures n.tag == "string" ==> Build(t, n) == Some(StringV(text))
  {
  }

  lemma BuildTuple(t: Scalars, n: Node, text: string)
    requires n.Elem? && n.kids == [Text(text)] && n.tag == "tuple"
    ensures Build(t, n) == Some(TupleV(Doubles(t, Split(text, ' '))))
  {
  }

  lemma BuildSet(t: Scalars, n: Node)
    requires n.Elem? && n.tag == "set"
    ensures BuildAll(t, n, n.kids).Some? ==> Build(t, n) == Some(SetV(BuildAll(t, n, n.kids).value))
  {
  }

  lemma BuildMapTag(t: Scalars, n: Node)
    requires n.Elem? && n.tag == "map"
    ensures Build(t, n) == BuildMap(t, n, n.kids, MapV([], []))
  {
  }

  lemma BuildMatrix(t: Scalars, n: Node)
    requires n.Elem? && n.tag == "matrix" && DimsOk(ReadDims(n), |NonText(n.kids)|)
    ensures BuildAll(t, n, n.kids).Some? ==> Build(t, n) == Some(MatrixV(ReadDims(n), BuildAll(t, n, n.kids).value))
  {
  }

  lemma ScalarFill(t: Scalars, n: Node, v: Value)
    requires Invertible(t) && Blank(n, v) && (v.BoolV? || v.IntV? || v.DoubleV? || v.StringV?)
    ensures Build(t, Fill(t, n, v)) == Some(v)
  {
    var text := if v.BoolV? then t.ofBool(v.b) else if v.IntV? then t.ofInt(v.i)
                else if v.DoubleV? then t.ofDouble(v.d) else v.s;
    assert v.DoubleV? ==> DoubleText(t, v.d);
    assert Fill(t, n, v) == n.(kids := [Text(text)]);
    BuildText(t, Fill(t, n, v), text);
  }

  lemma {:induction false} BuildFill(t: Scalars, n: Node, v: Value)
    requires Invertible(t) && Proper(v) && Blank(n, v)
    ensures Build(t, Fill(t, n, v)) == Some(Norm(v, StepOf(n)))
    decreases v, 2
  {
    var r := Fill(t, n, v);
    match v {
      case TupleV(items) =>
        TupleText(t, items);
        assert r == n.(kids := [Text(Joined(t, items))]);
        BuildTuple(t, r, Joined(t, items));
      case SetV(es) =>
        assert r == n.(kids := FillAll(t, es));
        BuildAllFill(t, r, es);
        BuildSet(t, r);
      case MapV(ks, vs) =>
        assert r == n.(kids := Keyed(ks, FillAll(t, vs)));
        BuildMapFill(t, r, ks, vs);
        BuildMapTag(t, r);
      case MatrixV(d, cs) =>
        assert r == n.(attrs := Attributes(n.attrs, d), kids := FillAll(t, cs));
        DimsBack(n.(kids := FillAll(t, cs)), d);
        FillAllElems(t, cs);
        NoTexts(FillAll(t, cs));
        BuildAllFill(t, r, cs);
        BuildMatrix(t, r);
      case _ => ScalarFill(t, n, v);
    }
  }

  lemma {:induction false} BuildAllFill(t: Scalars, n: Node, vs: seq<Value>)
    requires Invertible(t) && (forall i :: 0 <= i < |vs| ==> Proper(vs[i]))
    requires forall i :: 0 <= i < |vs| ==> FillAll(t, vs)[i] < n
    ensures BuildAll(t, n, FillAll(t, vs)) == Some(NormAll(vs))
    decreases vs, 1
  {
    if vs != [] {
      var x := Elem(TagOf(vs[0]), map[], []);
      BuildFill(t, x, vs[0]);
      FillStays(t, x, vs[0]);
      var rest := FillAll(t, vs[1..]);
      assert FillAll(t, vs)[1..] == rest;
      forall i | 0 <= i < |rest| ensures rest[i] < n {
        assert rest[i] == FillAll(t, vs)[i+1];
      }
      BuildAllFill(t, n, vs[1..]);
    }
  }

  lemma BuildMapFill(t: Scalars, n: Node, ks: seq<string>, vs: seq<Value>)
    requires Invertible(t) && (forall i :: 0 <= i < |vs| ==> Proper(vs[i])) && |ks| == |vs| && UniqueKeys(ks)
    requires n.Elem? && n.kids == Keyed(ks, FillAll(t, vs))
    ensures BuildMap(t, n, n.kids, MapV([], [])) == Some(MapV(ks, NormAll(vs)))
    decreases vs, 1
  {
    BuildMapFrom(t, n, [], [], ks, vs);
    assert [] + ks == ks && [] + NormAll(vs) == NormAll(vs);
  }

  lemma {:induction false} BuildMapFrom(t: Scalars, n: Node, ks0: seq<string>, vs0: seq<Value>, ks: seq<string>,
                                        vs: seq<Value>)
    requires Invertible(t) && (forall i :: 0 <= i < |vs| ==> Proper(vs[i])) && |ks| == |vs| && |ks0| == |vs0|
    requires UniqueKeys(ks0 + ks) && Below(Keyed(ks, FillAll(t, vs)), n)
    ensures BuildMap(t, n, Keyed(ks, FillAll(t, vs)), MapV(ks0, vs0)) == Some(MapV(ks0 + ks, vs0 + NormAll(vs)))
    decreases vs, 0
  {
    if vs == [] {
      assert ks0 + ks == ks0 && vs0 + NormAll(vs) == vs0;
    } else {
      var k, v := ks[0], Norm(vs[0], 0);
      BuildFill(t, Elem(TagOf(vs[0]), map[], []), vs[0]);
      NewKey(ks0, ks);
      BuildKeyed(t, n, ks0, vs0, ks, vs, v);
      BuildMapFrom(t, n, ks0 + [k], vs0 + [v], ks[1..], vs[1..]);
      Regroup(ks0, ks);
      Regroup(vs0, NormAll(vs));
    }
  }

  lemma Regroup<T>(a: seq<T>, b: seq<T>)
    requires b != []
    ensures (a + [b[0]]) + b[1..] == a + b
  {
  }

  ghost predicate Below(kids: seq<Node>, n: Node)
  {
    forall i :: 0 <= i < |kids| ==> kids[i] < n
  }

  /** One key of the map, read back. */
  lemma BuildKeyed(t: Scalars, n: Node, ks0: seq<string>, vs0: seq<Value>, ks: seq<string>, vs: seq<Value>, v: Value)
    requires |ks| == |vs| && |ks0| == |vs0| && vs != [] && Below(Keyed(ks, FillAll(t, vs)), n)
    requires Build(t, Fill(t, Elem(TagOf(vs[0]), map[], []), vs[0])) == Some(v)
    requires forall i :: 0 <= i < |ks0| ==> ks0[i] != ks[0]
    ensures Below(Keyed(ks[1..], FillAll(t, vs[1..])), n) && (ks0 + [ks[0]]) + ks[1..] == ks0 + ks
    ensures BuildMap(t, n, Keyed(ks, FillAll(t, vs)), MapV(ks0, vs0))
         == BuildMap(t, n, Keyed(ks[1..], FillAll(t, vs[1..])), MapV(ks0 + [ks[0]], vs0 + [v]))
  {
    var x := Fill(t, Elem(TagOf(vs[0]), map[], []), vs[0]);
    FillStays(t, Elem(TagOf(vs[0]), map[], []), vs[0]);
    var kids, rest := Keyed(ks, FillAll(t, vs)), Keyed(ks[1..], FillAll(t, vs[1..]));
    KeyedStep(t, ks, vs);
    forall i | 0 <= i < |rest| ensures rest[i] < n {
      assert rest[i] == kids[i+1];
    }
    assert kids[1..] == rest;
    BuildMapStep(t, n, kids, MapV(ks0, vs0), ks[0], x, v);
  }

  lemma KeyedStep(t: Scalars, ks: seq<string>, vs: seq<Value>)
    requires |ks| == |vs| && vs != []
    ensures var x := Fill(t, Elem(TagOf(vs[0]), map[], []), vs[0]);
            Keyed(ks, FillAll(t, vs)) == [Elem("key", map["name" := ks[0]], [x])] + Keyed(ks[1..], FillAll(t, vs[1..]))
  {
    assert FillAll(t, vs)[1..] == FillAll(t, vs[1..]);
  }

  lemma BuildMapStep(t: Scalars, n: Node, kids: seq<Node>, acc: Value, key: string, x: Node, v: Value)
    requires acc.MapV? && |acc.keys| == |acc.vals| && kids != [] && (forall i :: 0 <= i < |kids| ==> kids[i] < n)
    requires kids[0] == Elem("key", map["name" := key], [x]) && x.Elem? && Build(t, x) == Some(v)
    requires forall i :: 0 <= i < |acc.keys| ==> acc.keys[i] != key
    ensures BuildMap(t, n, kids, acc) == BuildMap(t, n, kids[1..], MapV(acc.keys + [key], acc.vals + [v]))
  {
    assert FirstElement([x]) == Some(x);
    assert kids[0].attrs["name"] == key;
    assert MapPut(acc, key, v) == MapV(acc.keys + [key], acc.vals + [v]);
  }

  lemma NewKey(ks0: seq<string>, ks: seq<string>)
    requires UniqueKeys(ks0 + ks) && ks != []
    ensures forall i :: 0 <= i < |ks0| ==> ks0[i] != ks[0]
  {
    var all := ks0 + ks;
    assert all[|ks0|] == ks[0];
    assert forall i :: 0 <= i < |ks0| ==> all[i] == ks0[i];
  }

  /** The exact round trip: a value written into a node of its tag is read back
      unchanged if and only if it holds no empty tuple, no matrix inside it has a
      row step, and its own row step, if it is a matrix, is the one the node
      carried before; in every case what is read back is its normal form. */
  lemma RoundTripExact(t: Scalars, n: Node, v: Value)
    requires Invertible(t) && Proper(v) && Blank(n, v)
    ensures Build(t, Fill(t, n, v)) == Some(Norm(v, StepOf(n)))
    ensures Build(t, Fill(t, n, v)) == Some(v) <==> Survives(v, StepOf(n))
  {
    BuildFill(t, n, v);
    NormIdentity(v, StepOf(n));
  }
}
