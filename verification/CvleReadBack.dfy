/** The template read back by a worker: every column finds its scalar, and the
    first row changes nothing. */
module CvleReadBack {
  import opened Common
  import opened CvleInput
  import opened CvlePlan
  import opened CvleWorker
  import opened CvleProtocol
  import opened CvleOutcome
  import C = CvleColumns
  import opened CvleModes
  import opened CvleTemplate
  import opened CvleAccess

  // The columns of a whole experiment ------------------------------------------------------

  function Root(c: Condition, p: Port): (e: Entry)
  {
    Entry(c.name + "." + p.name, p.value)
  }

  lemma RootSplit(c: Condition, p: Port)
    requires Plain(c.name) && Plain(p.name)
    ensures Split(Root(c, p).name, '.') == [c.name, p.name]
  {
    SplitFree(c.name, '.');
    SplitAtEnd(c.name, p.name, '.');
  }

  lemma RootNamed(conds: seq<Condition>, i: nat, j: nat)
    requires ConditionsOk(conds) && i < |conds| && j < |conds[i].ports|
    ensures Named(conds, Root(conds[i], conds[i].ports[j]))
  {
    assert ConditionOk(conds[i]);
    var c, p := conds[i], conds[i].ports[j];
    RootSplit(c, p);
    ConditionFound(conds, i);
    PortFound(c.ports, j);
    assert Split(Root(c, p).name, '.')[2..] == [];
  }

  /** The scalars among the columns. */
  function Scalars(cols: seq<Col>): (r: seq<Entry>)
  {
    if cols == [] then []
    else Scalars(cols[..|cols|-1]) + if cols[|cols|-1].Cell? then [cols[|cols|-1].entry] else []
  }

  lemma {:induction false} ScalarsMember(cols: seq<Col>, l: Entry)
    ensures l in Scalars(cols) <==> Cell(l) in cols
  {
    if cols != [] {
      var front, last := cols[..|cols|-1], cols[|cols|-1];
      ScalarsMember(front, l);
      assert cols == front + [last];
    }
  }

  lemma {:induction false} ScalarsAppend(a: seq<Col>, b: seq<Col>)
    ensures Scalars(a + b) == Scalars(a) + Scalars(b)
  {
    if b == [] {
      assert a + b == a;
    } else {
      ScalarsAppend(a, b[..|b|-1]);
      assert (a + b)[..|a + b|-1] == a + b[..|b|-1];
    }
  }

  lemma {:induction false} ScalarsCells(es: seq<Entry>)
    ensures Scalars(Cells(es)) == es
  {
    if es != [] {
      ScalarsCells(es[..|es|-1]);
      assert Cells(es)[..|es|-1] == Cells(es[..|es|-1]);
    }
  }

  lemma ScalarsLine(name: string, value: Tree)
    ensures Scalars(Line(name, value)) == Leaves(Entry(name, value))
  {
    var stack := [Entry(name, value)];
    assert stack[..0] == [];
    assert LeavesOf(stack) == Leaves(stack[0]) + [];
    ScalarsCells(LeavesOf(stack));
    var cells := Cells(LeavesOf(stack));
    if !Tidy(value) {
      assert Line(name, value) == cells + [Blank];
      assert (cells + [Blank])[..|cells|] == cells;
    } else {
      assert Line(name, value) == cells;
    }
  }

  ghost predicate InPorts(c: Condition, n: nat, l: Entry)
  {
    exists j :: 0 <= j < n && j < |c.ports| && l in Leaves(Root(c, c.ports[j]))
  }

  lemma InPortsStep(c: Condition, n: nat, l: Entry)
    requires n < |c.ports|
    ensures InPorts(c, n + 1, l) <==> InPorts(c, n, l) || l in Leaves(Root(c, c.ports[n]))
  {
  }

  /** One more port. */
  lemma PortStep(c: Condition, n: nat)
    requires n < |c.ports|
    ensures Scalars(PortColumns(c.name, c.ports[..n+1]))
         == Scalars(PortColumns(c.name, c.ports[..n])) + Leaves(Root(c, c.ports[n]))
  {
    assert c.ports[..n+1][..n] == c.ports[..n];
    var e := Root(c, c.ports[n]);
    ScalarsAppend(PortColumns(c.name, c.ports[..n]), Line(e.name, e.value));
    ScalarsLine(e.name, e.value);
  }

  lemma {:induction false} PortScalars(c: Condition, n: nat, l: Entry)
    requires n <= |c.ports|
    ensures l in Scalars(PortColumns(c.name, c.ports[..n])) <==> InPorts(c, n, l)
  {
    if n == 0 {
      NoPorts(c, l);
    } else {
      PortScalars(c, n - 1, l);
      PortListed(c, n - 1, l);
    }
  }

  lemma NoPorts(c: Condition, l: Entry)
    ensures l !in Scalars(PortColumns(c.name, c.ports[..0])) && !InPorts(c, 0, l)
  {
    assert c.ports[..0] == [];
  }

  lemma PortListed(c: Condition, n: nat, l: Entry)
    requires n < |c.ports| && (l in Scalars(PortColumns(c.name, c.ports[..n])) <==> InPorts(c, n, l))
    ensures l in Scalars(PortColumns(c.name, c.ports[..n+1])) <==> InPorts(c, n + 1, l)
  {
    PortStep(c, n);
    InPortsStep(c, n, l);
  }

  lemma ConditionScalars(c: Condition, l: Entry)
    ensures l in Scalars(ConditionColumns(c)) <==> InPorts(c, |c.ports|, l)
  {
    PortScalars(c, |c.ports|, l);
    assert c.ports[..|c.ports|] == c.ports;
    assert c.ports == [] ==> Scalars([Blank]) == [];
  }

  ghost predicate Belongs(conds: seq<Condition>, i: int, l: Entry)
  {
    0 <= i < |conds| && InPorts(conds[i], |conds[i].ports|, l)
  }

  /** One more condition. */
  lemma ConditionStep(conds: seq<Condition>, n: nat)
    requires n < |conds|
    ensures Scalars(AllColumns(conds[..n+1])) == Scalars(AllColumns(conds[..n])) + Scalars(ConditionColumns(conds[n]))
  {
    assert conds[..n+1][..n] == conds[..n];
    ScalarsAppend(AllColumns(conds[..n]), ConditionColumns(conds[n]));
  }

  ghost predicate BelongsBefore(conds: seq<Condition>, n: nat, l: Entry)
  {
    exists i :: 0 <= i < n && Belongs(conds, i, l)
  }

  lemma BelongsStep(conds: seq<Condition>, n: nat, l: Entry)
    requires n < |conds|
    ensures BelongsBefore(conds, n + 1, l) <==> BelongsBefore(conds, n, l) || InPorts(conds[n], |conds[n].ports|, l)
  {
    assert Belongs(conds, n, l) <==> InPorts(conds[n], |conds[n].ports|, l);
  }

  lemma AllScalarsStep(conds: seq<Condition>, n: nat, l: Entry)
    requires n < |conds| && (l in Scalars(AllColumns(conds[..n])) <==> BelongsBefore(conds, n, l))
    ensures l in Scalars(AllColumns(conds[..n+1])) <==> BelongsBefore(conds, n + 1, l)
  {
    ConditionStep(conds, n);
    ConditionScalars(conds[n], l);
    BelongsStep(conds, n, l);
    var all := Scalars(AllColumns(conds[..n+1]));
    var a, b := Scalars(AllColumns(conds[..n])), Scalars(ConditionColumns(conds[n]));
    assert all == a + b;
  }

  lemma {:induction false} AllScalars(conds: seq<Condition>, n: nat, l: Entry)
    requires n <= |conds|
    ensures l in Scalars(AllColumns(conds[..n])) <==> BelongsBefore(conds, n, l)
  {
    if n > 0 {
      var m := n - 1;
      AllScalars(conds, m, l);
      AllScalarsStep(conds, m, l);
    }
  }

  lemma ColumnScalars(conds: seq<Condition>, l: Entry)
    ensures Cell(l) in Columns(conds) <==> BelongsBefore(conds, |conds|, l)
  {
    AllScalars(conds, |conds|, l);
    ScalarsMember(AllColumns(conds), l);
    assert conds[..|conds|] == conds;
  }

  /** Soundness: every scalar column carries the name of its node. */
  lemma ColumnsNamed(conds: seq<Condition>)
    requires ConditionsOk(conds)
    ensures forall k :: 0 <= k < |Columns(conds)| && Columns(conds)[k].Cell? ==>
              Named(conds, Columns(conds)[k].entry) && Columns(conds)[k].entry.value.Leaf?
  {
    var cols := Columns(conds);
    forall k | 0 <= k < |cols| && cols[k].Cell? ensures Named(conds, cols[k].entry) && cols[k].entry.value.Leaf? {
      var l := cols[k].entry;
      assert cols[k] == Cell(l);
      ColumnScalars(conds, l);
      var i :| 0 <= i < |conds| && Belongs(conds, i, l);
      var j :| 0 <= j < |conds[i].ports| && l in Leaves(Root(conds[i], conds[i].ports[j]));
      RootNamed(conds, i, j);
      LeavesNamed(conds, Root(conds[i], conds[i].ports[j]));
    }
  }

  // Distinct names ------------------------------------------------------------------------------

  lemma LeafRoot(c: Condition, p: Port, l: Entry)
    requires Plain(c.name) && Plain(p.name) && TreeOk(p.value) && l in Leaves(Root(c, p))
    ensures Prefix([c.name, p.name], Split(l.name, '.'))
  {
    LeavesUnder(Root(c, p));
    RootSplit(c, p);
  }

  lemma OtherPort(c: Condition, n: nat, l: Entry, k: Entry)
    requires ConditionOk(c) && n < |c.ports| && InPorts(c, n, l) && k in Leaves(Root(c, c.ports[n]))
    ensures l.name != k.name
  {
    var j :| 0 <= j < n && j < |c.ports| && l in Leaves(Root(c, c.ports[j]));
    LeafRoot(c, c.ports[j], l);
    LeafRoot(c, c.ports[n], k);
    assert Split(l.name, '.')[..2][1] == c.ports[j].name && Split(k.name, '.')[..2][1] == c.ports[n].name;
  }

  lemma CrossPorts(c: Condition, n: nat)
    requires ConditionOk(c) && n < |c.ports|
    ensures Across(Scalars(PortColumns(c.name, c.ports[..n])), Leaves(Root(c, c.ports[n])))
  {
    var before, after := Scalars(PortColumns(c.name, c.ports[..n])), Leaves(Root(c, c.ports[n]));
    forall l, k | l in before && k in after ensures l.name != k.name {
      PortScalars(c, n, l);
      OtherPort(c, n, l, k);
    }
  }

  ghost predicate Across(a: seq<Entry>, b: seq<Entry>)
  {
    forall l, k :: l in a && k in b ==> l.name != k.name
  }

  lemma Together(all: seq<Entry>, a: seq<Entry>, b: seq<Entry>)
    requires all == a + b && Distinct(a) && Distinct(b) && Across(a, b)
    ensures Distinct(all)
  {
    DistinctAppend(a, b);
  }

  lemma {:induction false} PortsDistinct(c: Condition, n: nat)
    requires ConditionOk(c) && n <= |c.ports|
    ensures Distinct(Scalars(PortColumns(c.name, c.ports[..n])))
  {
    if n > 0 {
      PortsDistinct(c, n - 1);
      OnePortMore(c, n - 1);
    }
  }

  lemma OnePortMore(c: Condition, m: nat)
    requires ConditionOk(c) && m < |c.ports| && Distinct(Scalars(PortColumns(c.name, c.ports[..m])))
    ensures Distinct(Scalars(PortColumns(c.name, c.ports[..m+1])))
  {
    LeavesDistinct(Root(c, c.ports[m]));
    PortStep(c, m);
    CrossPorts(c, m);
    Together(Scalars(PortColumns(c.name, c.ports[..m+1])), Scalars(PortColumns(c.name, c.ports[..m])),
             Leaves(Root(c, c.ports[m])));
  }

  lemma ConditionDistinct(c: Condition)
    requires ConditionOk(c)
    ensures Distinct(Scalars(ConditionColumns(c)))
  {
    PortsDistinct(c, |c.ports|);
    assert c.ports[..|c.ports|] == c.ports;
  }

  lemma BelongsTo(conds: seq<Condition>, i: int, l: Entry)
    requires ConditionsOk(conds) && Belongs(conds, i, l)
    ensures |Split(l.name, '.')| >= 2 && Split(l.name, '.')[0] == conds[i].name
  {
    var c := conds[i];
    var j :| 0 <= j < |c.ports| && l in Leaves(Root(c, c.ports[j]));
    assert ConditionOk(c);
    LeafRoot(c, c.ports[j], l);
    assert Split(l.name, '.')[..2][0] == c.name;
  }

  lemma OtherCondition(conds: seq<Condition>, i: int, n: int, l: Entry, k: Entry)
    requires ConditionsOk(conds) && i < n && Belongs(conds, i, l) && Belongs(conds, n, k)
    ensures l.name != k.name
  {
    BelongsTo(conds, i, l);
    BelongsTo(conds, n, k);
  }

  lemma CrossConditions(conds: seq<Condition>, n: nat)
    requires ConditionsOk(conds) && n < |conds|
    ensures Across(Scalars(AllColumns(conds[..n])), Scalars(ConditionColumns(conds[n])))
  {
    var before, after := Scalars(AllColumns(conds[..n])), Scalars(ConditionColumns(conds[n]));
    forall l, k | l in before && k in after ensures l.name != k.name {
      AllScalars(conds, n, l);
      ConditionScalars(conds[n], k);
      var i :| 0 <= i < n && Belongs(conds, i, l);
      OtherCondition(conds, i, n, l, k);
    }
  }

  lemma {:induction false} AllDistinct(conds: seq<Condition>, n: nat)
    requires ConditionsOk(conds) && n <= |conds|
    ensures Distinct(Scalars(AllColumns(conds[..n])))
  {
    if n > 0 {
      var m := n - 1;
      AllDistinct(conds, m);
      ConditionStep(conds, m);
      ConditionDistinct(conds[m]);
      CrossConditions(conds, m);
      Together(Scalars(AllColumns(conds[..n])), Scalars(AllColumns(conds[..m])), Scalars(ConditionColumns(conds[m])));
    }
  }

  // The two lines, field by field ------------------------------------------------------------------

  /** The text of no cell holds a comma. */
  ghost predicate NoComma(show: nat -> string)
  {
    forall cell :: Free(show(cell), ',')
  }

  lemma FieldsBack(conds: seq<Condition>, show: nat -> string)
    requires ConditionsOk(conds) && NoComma(show)
    ensures Split(HeadText(Columns(conds)), ',') == Heads(Columns(conds))
    ensures Split(BodyText(show, Columns(conds)), ',') == Bodies(show, Columns(conds))
  {
    var cols := Columns(conds);
    ColumnsNamed(conds);
    ColumnsExist(conds);
    var hs, bs := Heads(cols), Bodies(show, cols);
    forall p | p in hs ensures Free(p, ',') {
      var k :| 0 <= k < |hs| && hs[k] == p;
      assert cols[k].Cell? ==> Named(conds, cols[k].entry);
    }
    forall p | p in bs ensures Free(p, ',') {
      var k :| 0 <= k < |bs| && bs[k] == p;
      assert cols[k].Cell? ==> Free(show(cols[k].entry.value.cell), ',');
    }
    SplitJoin(hs, ',');
    SplitJoin(bs, ',');
  }

  lemma ColumnsExist(conds: seq<Condition>)
    ensures Columns(conds) != []
  {
  }

  /** The template is read back faithfully. Token k of the header and field k of
      the first line belong together: either both are empty, or the token
      denotes, through Access, the scalar whose text the field is. No two
      tokens denote the same place, every scalar of the experiment has its
      token, and there is no empty token exactly when the experiment is tidy. */
  lemma TemplateReadBack(conds: seq<Condition>, show: nat -> string)
    requires ConditionsOk(conds) && NoComma(show)
    ensures var cols := Columns(conds);
            var h, f := Split(HeadText(cols), ','), Split(BodyText(show, cols), ',');
            && |h| == |f| == |cols|
            && (forall k :: 0 <= k < |cols| ==>
                  if cols[k].Blank? then h[k] == f[k] == ""
                  else Value(conds, h[k]) == Some(cols[k].entry.value) && cols[k].entry.value.Leaf?
                       && f[k] == show(cols[k].entry.value.cell))
            && Distinct(Scalars(cols))
            && (Blank !in cols <==> TidyConditions(conds))
    ensures forall i, j, path ::
              0 <= i < |conds| && 0 <= j < |conds[i].ports| && Reaches(Root(conds[i], conds[i].ports[j]), path)
              && EntryAt(Root(conds[i], conds[i].ports[j]), path).value.Leaf? ==>
              Cell(EntryAt(Root(conds[i], conds[i].ports[j]), path)) in Columns(conds)
  {
    FieldsBack(conds, show);
    ColumnsNamed(conds);
    AllDistinct(conds, |conds|);
    assert conds[..|conds|] == conds;
    assert Scalars([Blank]) == [];
    NoBlankExactly(conds);
    forall i, j, path |
      0 <= i < |conds| && 0 <= j < |conds[i].ports| && Reaches(Root(conds[i], conds[i].ports[j]), path)
      && EntryAt(Root(conds[i], conds[i].ports[j]), path).value.Leaf?
      ensures Cell(EntryAt(Root(conds[i], conds[i].ports[j]), path)) in Columns(conds)
    {
      var l := EntryAt(Root(conds[i], conds[i].ports[j]), path);
      LeafListed(Root(conds[i], conds[i].ports[j]), path);
      assert Belongs(conds, i, l);
      ColumnScalars(conds, l);
    }
  }

  // The worker on its own template -----------------------------------------------------------------------

  /** The worker's experiment holds these conditions: names are resolved by
      Access, and every scalar is a cell. */
  ghost predicate Holds(e: Experiment, conds: seq<Condition>)
  {
    && (forall token :: e.find(token) == match Value(conds, token) case None => None case Some(t) => Some(t.cell))
    && (forall k :: 0 <= k < |Columns(conds)| && Columns(conds)[k].Cell? ==>
          ScalarCell(e, Columns(conds)[k].entry.value.cell))
  }

  ghost predicate ScalarCell(e: Experiment, cell: nat)
  {
    cell in e.vpz && !e.vpz[cell].Opaque?
  }

  /** The text of a scalar cell is a field that reads back as its value. */
  ghost predicate Legible(e: Experiment, show: nat -> string)
  {
    && NoComma(show)
    && forall cell :: ScalarCell(e, cell) ==>
         Free(show(cell), NL) && C.Cleanup(show(cell)) == show(cell)
         && C.Field(e.conv, e.vpz[cell], show(cell)) == Some(e.vpz[cell])
  }

  ghost predicate ColOk(e: Experiment, conds: seq<Condition>, c: Col)
  {
    c.Cell? ==> Named(conds, c.entry) && ScalarCell(e, c.entry.value.cell)
  }

  function Bind(e: Experiment, c: Col): (r: C.Column)
  {
    if c.Cell? && c.entry.value.cell in e.vpz then C.Value(c.entry.value.cell, e.vpz[c.entry.value.cell])
    else C.Keep("")
  }

  function Binds(e: Experiment, cols: seq<Col>): (r: seq<C.Column>)
    ensures |r| == |cols| && forall i :: 0 <= i < |cols| ==> r[i] == Bind(e, cols[i])
  {
    seq(|cols|, i requires 0 <= i < |cols| => Bind(e, cols[i]))
  }

  lemma OpenOne(e: Experiment, conds: seq<Condition>, c: Col)
    requires Holds(e, conds) && ColOk(e, conds, c)
    ensures OpenColumn(e, C.Cleanup(Head(c))) == if c.Blank? then None else Some(Bind(e, c))
  {
    if c.Blank? {
      assert Split("", '.') == [""];
    } else {
      var name := c.entry.name;
      assert name != "" ==> name[0] in name;
      assert C.Cleanup(name) == name;
      assert e.find(name) == Some(c.entry.value.cell);
    }
  }

  /** One more column, in front. */
  lemma OpenMore(e: Experiment, cols: seq<Col>)
    requires cols != []
    requires OpenColumn(e, C.Cleanup(Head(cols[0]))) == if cols[0].Blank? then None else Some(Bind(e, cols[0]))
    requires OpenColumns(e, Heads(cols[1..])) == if Blank in cols[1..] then None else Some(Binds(e, cols[1..]))
    ensures OpenColumns(e, Heads(cols)) == if Blank in cols then None else Some(Binds(e, cols))
  {
    var (rest, heads) := (cols[1..], Heads(cols));
    assert heads[1..] == Heads(rest) && heads[0] == Head(cols[0]);
    assert [Bind(e, cols[0])] + Binds(e, rest) == Binds(e, cols);
    assert Blank in cols <==> cols[0] == Blank || Blank in rest;
  }

  lemma {:induction false} OpenAll(e: Experiment, conds: seq<Condition>, cols: seq<Col>)
    requires Holds(e, conds) && forall k :: 0 <= k < |cols| ==> ColOk(e, conds, cols[k])
    ensures OpenColumns(e, Heads(cols)) == if Blank in cols then None else Some(Binds(e, cols))
  {
    if cols != [] {
      assert ColOk(e, conds, cols[0]);
      OpenOne(e, conds, cols[0]);
      OpenAll(e, conds, cols[1..]);
      OpenMore(e, cols);
    }
  }

  lemma ColumnsOk(e: Experiment, conds: seq<Condition>)
    requires ConditionsOk(conds) && Holds(e, conds)
    ensures forall k :: 0 <= k < |Columns(conds)| ==> ColOk(e, conds, Columns(conds)[k])
  {
    ColumnsNamed(conds);
  }

  /** A header of dotted names is not a word without a dot. */
  lemma HeaderDotted(conds: seq<Condition>, cols: seq<Col>, header: string, word: string)
    requires cols != [] && cols[0].Cell? && Named(conds, cols[0].entry) && Split(header, ',') == Heads(cols)
    requires Free(word, ',') && Free(word, '.')
    ensures header != word
  {
    SplitFree(word, ',');
    SplitFree(word, '.');
    assert Heads(cols)[0] == cols[0].entry.name;
  }

  lemma FirstNamed(conds: seq<Condition>)
    requires ConditionsOk(conds) && TidyConditions(conds)
    ensures Columns(conds) != [] && Columns(conds)[0].Cell? && Named(conds, Columns(conds)[0].entry)
  {
    NoBlankExactly(conds);
    ColumnsExist(conds);
    ColumnsNamed(conds);
    assert Columns(conds)[0] in Columns(conds);
  }

  lemma NotWord(conds: seq<Condition>, show: nat -> string, word: string)
    requires ConditionsOk(conds) && NoComma(show) && TidyConditions(conds)
    requires Free(word, ',') && Free(word, '.')
    ensures HeadText(Columns(conds)) != word
  {
    FirstNamed(conds);
    FieldsBack(conds, show);
    HeaderDotted(conds, Columns(conds), HeadText(Columns(conds)), word);
  }

  lemma TemplateColumns(e: Experiment, conds: seq<Condition>, show: nat -> string)
    requires ConditionsOk(conds) && Holds(e, conds) && NoComma(show)
    ensures OpenColumns(e, Split(HeadText(Columns(conds)), ','))
         == if TidyConditions(conds) then Some(Binds(e, Columns(conds))) else None
  {
    FieldsBack(conds, show);
    ColumnsOk(e, conds);
    OpenAll(e, conds, Columns(conds));
    NoBlankExactly(conds);
  }

  /** The worker opens its own template, on the original values, if and only if
      the experiment is tidy: an empty token is not a name. */
  lemma TemplateOpens(e: Experiment, conds: seq<Condition>, show: nat -> string)
    requires ConditionsOk(conds) && Holds(e, conds) && NoComma(show)
    ensures OpenHeader(e, HeadText(Columns(conds)))
         == if TidyConditions(conds) then Some(C.Memory(Binds(e, Columns(conds)), e.vpz)) else None
  {
    TemplateColumns(e, conds, show);
    if TidyConditions(conds) {
      ComplexWord();
      NotWord(conds, show, COMPLEX_HEADER);
    }
  }

  lemma {:induction false} NeutralFrom(e: Experiment, conds: seq<Condition>, show: nat -> string, cols: seq<Col>,
                                       i: nat)
    requires Legible(e, show) && i <= |cols| && forall k :: 0 <= k < |cols| ==> ColOk(e, conds, cols[k])
    ensures C.UpdateFrom(e.conv, C.Memory(Binds(e, cols), e.vpz), Bodies(show, cols), i)
            == Some(C.Memory(Binds(e, cols), e.vpz))
    decreases |cols| - i
  {
    if i < |cols| {
      var m, f := C.Memory(Binds(e, cols), e.vpz), Bodies(show, cols);
      assert ColOk(e, conds, cols[i]);
      assert C.Update(e.conv, m, i, C.Cleanup(f[i])) == Some(m) by {
        if cols[i].Blank? {
          assert m.cols[i := C.Keep("")] == m.cols;
        } else {
          var cell := cols[i].entry.value.cell;
          assert ScalarCell(e, cell);
          assert m.vpz[cell := m.vpz[cell]] == m.vpz;
        }
      }
      NeutralFrom(e, conds, show, cols, i + 1);
    }
  }

  /** The template of an experiment is accepted by its worker exactly when the
      experiment is tidy, and its first row then changes nothing. */
  lemma TemplateIsNeutral(e: Experiment, conds: seq<Condition>, show: nat -> string)
    requires ConditionsOk(conds) && Holds(e, conds) && Legible(e, show)
    ensures var m0 := OpenHeader(e, HeadText(Columns(conds)));
            && (m0.Some? <==> TidyConditions(conds))
            && (m0.Some? ==>
                  m0.value.vpz == e.vpz && C.UpdateRow(e.conv, m0.value, BodyText(show, Columns(conds))) == m0)
  {
    TemplateOpens(e, conds, show);
    FieldsBack(conds, show);
    ColumnsOk(e, conds);
    NeutralFrom(e, conds, show, Columns(conds), 0);
  }

  // End to end ----------------------------------------------------------------------------------------------

  lemma {:induction false} JoinFree(parts: seq<string>, c: char)
    requires c != ',' && forall p :: p in parts ==> Free(p, c)
    ensures Free(Join(parts, ','), c)
  {
    if |parts| > 1 {
      JoinFree(parts[1..], c);
      assert parts[0] in parts;
      var rest := Join(parts[1..], ',');
      assert Join(parts, ',') == parts[0] + [','] + rest;
    }
  }

  lemma LinesFree(e: Experiment, conds: seq<Condition>, show: nat -> string)
    requires ConditionsOk(conds) && Holds(e, conds) && Legible(e, show)
    ensures Free(HeadText(Columns(conds)), NL) && Free(BodyText(show, Columns(conds)), NL)
  {
    var cols := Columns(conds);
    ColumnsOk(e, conds);
    var hs, bs := Heads(cols), Bodies(show, cols);
    forall p | p in hs ensures Free(p, NL) {
      var k :| 0 <= k < |hs| && hs[k] == p;
      assert ColOk(e, conds, cols[k]);
    }
    forall p | p in bs ensures Free(p, NL) {
      var k :| 0 <= k < |bs| && bs[k] == p;
      assert ColOk(e, conds, cols[k]);
      assert cols[k].Cell? ==> ScalarCell(e, cols[k].entry.value.cell);
    }
    JoinFree(hs, NL);
    JoinFree(bs, NL);
  }

  lemma FirstLine(header: string, rest: string)
    requires Free(header, NL)
    ensures GetLine(Opened(header + [NL] + rest)) == (header, Opened(rest))
  {
    var text := header + [NL] + rest;
    var k := FindFrom(text, NL, 0);
    assert text[|header|] == NL;
    assert forall i :: 0 <= i < |header| ==> text[i] == header[i];
    assert forall i :: 0 <= i < |header| ==> header[i] in header;
    assert k == |header| && text[..k] == header && text[k+1..] == rest;
  }

  /** Running the tool on the unedited template of a tidy experiment, with any
      number of workers, any block size and any interleaving, always completes,
      and writes one text: that of the original experiment, numbered zero. */
  lemma TemplateRun(e: Experiment, conds: seq<Condition>, show: nat -> string, c: Config<C.Memory>,
                    states: seq<State<C.Memory>>, steps: seq<Step>)
    requires ConditionsOk(conds) && TidyConditions(conds) && Holds(e, conds)
    requires Legible(e, show) && BodyText(show, Columns(conds)) != ""
    requires c.mach == ColumnMachine(e) && c.n >= 1 && c.bs >= 1
    requires GetLine(Opened(HeadText(Columns(conds)) + [NL] + (BodyText(show, Columns(conds)) + [NL])))
          == (c.header, c.input)
    requires IsRun(c, states, steps) && Halted(c, states[|steps|])
    ensures Final(c, states[|steps|])
    ensures states[|steps|].out == [e.simulate(e.vpz, 0)]
  {
    var header, row := HeadText(Columns(conds)), BodyText(show, Columns(conds));
    LinesFree(e, conds, show);
    OneRow(header, row);
    OwnRow(e, conds, show);
    ColumnRunsAreSequential(e, c, [row], "", states, steps);
    OneJob(row, c.n, c.bs);
    var texts := Texts(c, OpenHeader(e, header).value, Plan(c));
    assert texts == [texts[0]];
    OneText(states[|steps|].out, texts[0]);
  }

  lemma OneText(out: seq<string>, text: string)
    requires multiset(out) == multiset([text])
    ensures out == [text] && Flatten([text]) == text
  {
    assert |out| == |multiset(out)| == 1;
    assert out[0] in multiset(out);
    assert [text][1..] == [] && text + [] == text;
  }

  /** One row is one block, whatever the number of workers. */
  lemma OneJob(row: string, n: nat, bs: int)
    requires row != "" && Free(row, NL) && n >= 1 && bs >= 1
    ensures PrimeJobs(TextOf([row], ""), 0, n, bs) == [Job([row], 0)]
  {
    ReadOfText([row], "", bs);
    var b := ReadBlock(TextOf([row], ""), bs);
    assert b.lines == [row];
    NothingLeft(b.after, n - 1, bs, row);
  }

  lemma NothingLeft(s: Stream, n: nat, bs: int, row: string)
    requires bs >= 1 && s == TakenText([row], "", bs).after
    ensures PrimeJobs(s, 1, n, bs) == []
  {
    if bs == 1 {
      assert s == TextOf([], "");
      ReadOfText([], "", bs);
    }
    var b := ReadBlock(s, bs);
    assert !b.ok && b.after.fail;
  }

  lemma OneRow(header: string, row: string)
    requires Free(header, NL)
    ensures GetLine(Opened(header + [NL] + (row + [NL]))) == (header, TextOf([row], ""))
  {
    FirstLine(header, row + [NL]);
    assert [row][1..] == [];
    assert Frame([row]) + "" == row + [NL];
  }

  lemma {:induction false} NoLabels(cols: seq<C.Column>, details: bool)
    requires forall i :: 0 <= i < |cols| ==> cols[i].Value?
    ensures Labels(cols, details) == ""
  {
    if cols != [] {
      NoLabels(cols[1..], details);
    }
  }

  /** A row that changes nothing, under columns without labels, runs the original. */
  lemma NeutralText(e: Experiment, m0: C.Memory, row: string)
    requires m0.vpz == e.vpz && C.UpdateRow(e.conv, m0, row) == Some(m0) && Labels(m0.cols, e.details) == ""
    ensures RowText(ColumnMachine(e), m0, row, 0) == e.simulate(e.vpz, 0)
  {
    assert RowText(ColumnMachine(e), m0, row, 0) == "" + e.simulate(e.vpz, 0);
  }

  lemma OneRowText<M>(mach: Machine<M>, m0: M, row: string)
    ensures Sequential(mach, m0, [row], 0) == RowText(mach, m0, row, 0)
  {
    assert [row][1..] == [];
  }

  lemma AllBound(e: Experiment, conds: seq<Condition>)
    requires ConditionsOk(conds) && TidyConditions(conds) && Holds(e, conds)
    ensures forall i :: 0 <= i < |Columns(conds)| ==> Binds(e, Columns(conds))[i].Value?
  {
    NoBlankExactly(conds);
    ColumnsOk(e, conds);
    forall i | 0 <= i < |Columns(conds)| ensures Binds(e, Columns(conds))[i].Value? {
      assert ColOk(e, conds, Columns(conds)[i]) && Columns(conds)[i] != Blank;
    }
  }

  /** The template's own row fills the columns and runs the original. */
  lemma OwnRow(e: Experiment, conds: seq<Condition>, show: nat -> string)
    requires ConditionsOk(conds) && TidyConditions(conds) && Holds(e, conds) && Legible(e, show)
    ensures var header, row := HeadText(Columns(conds)), BodyText(show, Columns(conds));
            && OpenHeader(e, header).Some? && FullRow(e, OpenHeader(e, header).value, row)
            && Sequential(ColumnMachine(e), OpenHeader(e, header).value, [row], 0) == e.simulate(e.vpz, 0)
  {
    TemplateIsNeutral(e, conds, show);
    TemplateOpens(e, conds, show);
    FieldsBack(conds, show);
    AllBound(e, conds);
    var m0 := C.Memory(Binds(e, Columns(conds)), e.vpz);
    NoLabels(m0.cols, e.details);
    NeutralText(e, m0, BodyText(show, Columns(conds)));
    OneRowText(ColumnMachine(e), m0, BodyText(show, Columns(conds)));
  }
}
