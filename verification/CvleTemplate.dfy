/** The template generator: a header naming every scalar of the experiment and
    a first row with their current texts, written by a walk on an explicit
    stack. */
module CvleTemplate {
  import opened Common
  import N = Names

  /** A value of a condition port. `cell` identifies the node; `Other` is any
      type that is neither a scalar, a set nor a map. */
  datatype Tree = Leaf(cell: nat) | Other(cell: nat) | SetNode(cell: nat, elems: seq<Tree>)
    | MapNode(cell: nat, items: seq<Item>)

  datatype Item = Item(key: string, value: Tree)

  datatype Port = Port(name: string, value: Tree)

  datatype Condition = Condition(name: string, ports: seq<Port>)

  // Sizes ---------------------------------------------------------------------------

  function Size(t: Tree): (n: nat)
    ensures n >= 1
    decreases t, 1
  {
    match t
    case SetNode(_, es) => 1 + SizeElems(es)
    case MapNode(_, its) => 1 + SizeItems(its)
    case _ => 1
  }

  function SizeElems(es: seq<Tree>): (n: nat)
    decreases es, 0
  {
    if es == [] then 0 else SizeElems(es[..|es|-1]) + Size(es[|es|-1])
  }

  function SizeItems(its: seq<Item>): (n: nat)
    decreases its, 0
  {
    if its == [] then 0 else SizeItems(its[..|its|-1]) + Size(its[|its|-1].value)
  }

  // The walk ---------------------------------------------------------------------------

  /** A node waiting on the stack, with the dotted name that leads to it. */
  datatype Entry = Entry(name: string, value: Tree)

  function Stacked(stack: seq<Entry>): (n: nat)
  {
    if stack == [] then 0 else Stacked(stack[..|stack|-1]) + Size(stack[|stack|-1].value)
  }

  /** What a container pushes, in order. */
  function Children(e: Entry): (r: seq<Entry>)
    ensures e.value.SetNode? ==> |r| == |e.value.elems|
    ensures e.value.MapNode? ==> |r| == |e.value.items|
  {
    match e.value
    case SetNode(_, es) => SetChildren(e.name, es)
    case MapNode(_, its) => MapChildren(e.name, its)
    case _ => []
  }

  function SetChildren(name: string, es: seq<Tree>): (r: seq<Entry>)
    ensures |r| == |es|
    ensures forall i :: 0 <= i < |es| ==> r[i] == Entry(name + "." + N.ToDec(i), es[i])
  {
    seq(|es|, i requires 0 <= i < |es| => Entry(name + "." + N.ToDec(i), es[i]))
  }

  function MapChildren(name: string, its: seq<Item>): (r: seq<Entry>)
    ensures |r| == |its|
    ensures forall i :: 0 <= i < |its| ==> r[i] == Entry(name + "." + its[i].key, its[i].value)
  {
    seq(|its|, i requires 0 <= i < |its| => Entry(name + "." + its[i].key, its[i].value))
  }

  lemma {:induction false} SetSize(name: string, es: seq<Tree>)
    ensures Stacked(SetChildren(name, es)) == SizeElems(es)
  {
    if es != [] {
      SetSize(name, es[..|es|-1]);
      var r := SetChildren(name, es);
      assert r[..|r|-1] == SetChildren(name, es[..|es|-1]);
    }
  }

  lemma {:induction false} MapSize(name: string, its: seq<Item>)
    ensures Stacked(MapChildren(name, its)) == SizeItems(its)
  {
    if its != [] {
      MapSize(name, its[..|its|-1]);
      var r := MapChildren(name, its);
      assert r[..|r|-1] == MapChildren(name, its[..|its|-1]);
    }
  }

  lemma ChildrenShrink(e: Entry)
    ensures Stacked(Children(e)) < Size(e.value)
  {
    match e.value
    case SetNode(_, es) => SetSize(e.name, es);
    case MapNode(_, its) => MapSize(e.name, its);
    case _ =>
  }

  /** The scalars below an entry, by recursion on the tree: the children of a
      container from the last to the first. */
  function Leaves(e: Entry): (r: seq<Entry>)
    decreases Size(e.value), 0
  {
    if e.value.Leaf? then [e]
    else
      ChildrenShrink(e);
      LeavesOf(Children(e))
  }

  function LeavesOf(es: seq<Entry>): (r: seq<Entry>)
    decreases Stacked(es), 1
  {
    if es == [] then [] else Leaves(es[|es|-1]) + LeavesOf(es[..|es|-1])
  }

  lemma {:induction false} LeavesAppend(a: seq<Entry>, b: seq<Entry>)
    ensures LeavesOf(a + b) == LeavesOf(b) + LeavesOf(a)
  {
    if b == [] {
      assert a + b == a;
    } else {
      var front, last := b[..|b|-1], b[|b|-1];
      LeavesAppend(a, front);
      assert (a + b)[..|a + b|-1] == a + front && (a + b)[|a + b|-1] == last;
      assert LeavesOf(a + b) == Leaves(last) + (LeavesOf(front) + LeavesOf(a));
      assert LeavesOf(b) == Leaves(last) + LeavesOf(front);
    }
  }

  lemma {:induction false} StackedAppend(a: seq<Entry>, b: seq<Entry>)
    ensures Stacked(a + b) == Stacked(a) + Stacked(b)
  {
    if b == [] {
      assert a + b == a;
    } else {
      StackedAppend(a, b[..|b|-1]);
      assert (a + b)[..|a + b|-1] == a + b[..|b|-1];
    }
  }

  // Columns ------------------------------------------------------------------------------

  /** A column of the template: a scalar, or an empty token. */
  datatype Col = Cell(entry: Entry) | Blank

  /** The last node popped prints something: following the first child of every
      container ends in a scalar. */
  predicate Tidy(t: Tree)
  {
    match t
    case Leaf(_) => true
    case Other(_) => false
    case SetNode(_, es) => es != [] && Tidy(es[0])
    case MapNode(_, its) => its != [] && Tidy(its[0].value)
  }

  function Cells(es: seq<Entry>): (r: seq<Col>)
    ensures |r| == |es| && forall i :: 0 <= i < |es| ==> r[i] == Cell(es[i])
  {
    seq(|es|, i requires 0 <= i < |es| => Cell(es[i]))
  }

  /** The columns a stack will print: its scalars, and an empty token after the
      last comma when the bottom entry does not end in a scalar. */
  function Pending(stack: seq<Entry>): (r: seq<Col>)
  {
    Cells(LeavesOf(stack)) + if stack != [] && Tidy(stack[0].value) then [] else [Blank]
  }

  function Head(c: Col): (s: string)
  {
    if c.Cell? then c.entry.name else ""
  }

  function Body(show: nat -> string, c: Col): (s: string)
  {
    if c.Cell? then show(c.entry.value.cell) else ""
  }

  function Heads(cols: seq<Col>): (r: seq<string>)
    ensures |r| == |cols| && forall i :: 0 <= i < |cols| ==> r[i] == Head(cols[i])
  {
    seq(|cols|, i requires 0 <= i < |cols| => Head(cols[i]))
  }

  function Bodies(show: nat -> string, cols: seq<Col>): (r: seq<string>)
    ensures |r| == |cols| && forall i :: 0 <= i < |cols| ==> r[i] == Body(show, cols[i])
  {
    seq(|cols|, i requires 0 <= i < |cols| => Body(show, cols[i]))
  }

  function HeadText(cols: seq<Col>): (s: string) { Join(Heads(cols), ',') }

  function BodyText(show: nat -> string, cols: seq<Col>): (s: string) { Join(Bodies(show, cols), ',') }

  lemma {:induction false} JoinAppend(a: seq<string>, b: seq<string>)
    requires a != [] && b != []
    ensures Join(a + b, ',') == Join(a, ',') + "," + Join(b, ',')
  {
    assert (a + b)[1..] == a[1..] + b;
    if |a| > 1 {
      JoinAppend(a[1..], b);
    }
  }

  lemma TextAppend(show: nat -> string, a: seq<Col>, b: seq<Col>)
    requires a != [] && b != []
    ensures HeadText(a + b) == HeadText(a) + "," + HeadText(b)
    ensures BodyText(show, a + b) == BodyText(show, a) + "," + BodyText(show, b)
  {
    assert Heads(a + b) == Heads(a) + Heads(b);
    assert Bodies(show, a + b) == Bodies(show, a) + Bodies(show, b);
    JoinAppend(Heads(a), Heads(b));
    JoinAppend(Bodies(show, a), Bodies(show, b));
  }

  lemma TidyPrints(stack: seq<Entry>)
    ensures Pending(stack) != []
  {
    if stack != [] && Tidy(stack[0].value) {
      TidyHasLeaf(stack);
    }
  }

  lemma {:induction false} TidyHasLeaf(stack: seq<Entry>)
    requires stack != [] && Tidy(stack[0].value)
    ensures LeavesOf(stack) != []
    decreases Stacked(stack), |stack|
  {
    if |stack| > 1 {
      TidyHasLeaf(stack[..|stack|-1]);
    } else if !stack[0].value.Leaf? {
      ChildrenShrink(stack[0]);
      TidyHasLeaf(Children(stack[0]));
    }
  }

  /** A popped scalar is the next column; a comma follows while anything is
      still stacked. */
  lemma PopLeaf(show: nat -> string, rest: seq<Entry>, top: Entry)
    requires top.value.Leaf?
    ensures var sep := if rest == [] then "" else ",";
            && HeadText(Pending(rest + [top])) == top.name + sep + (if rest == [] then "" else HeadText(Pending(rest)))
            && BodyText(show, Pending(rest + [top]))
               == show(top.value.cell) + sep + (if rest == [] then "" else BodyText(show, Pending(rest)))
  {
    var stack := rest + [top];
    assert stack[..|stack|-1] == rest;
    assert LeavesOf(stack) == [top] + LeavesOf(rest);
    var one := [Cell(top)];
    assert Heads(one) == [top.name] && Bodies(show, one) == [show(top.value.cell)];
    if rest == [] {
      assert Pending(stack) == one;
    } else {
      TidyPrints(rest);
      assert stack[0] == rest[0];
      assert Pending(stack) == one + Pending(rest);
      TextAppend(show, one, Pending(rest));
    }
  }

  /** Replacing a container by its children prints the same columns. */
  lemma PopContainer(rest: seq<Entry>, top: Entry)
    requires !top.value.Leaf?
    ensures Pending(rest + Children(top)) == Pending(rest + [top])
    ensures Stacked(rest + Children(top)) < Stacked(rest + [top])
  {
    var stack := rest + [top];
    assert stack[..|stack|-1] == rest;
    LeavesAppend(rest, Children(top));
    ChildrenShrink(top);
    StackedAppend(rest, Children(top));
    assert LeavesOf(rest + Children(top)) == LeavesOf(stack);
    assert rest != [] ==> (rest + Children(top))[0] == rest[0] && stack[0] == rest[0];
    assert rest == [] ==> rest + Children(top) == Children(top);
  }

  /** The columns of one port. */
  function Line(name: string, value: Tree): (r: seq<Col>)
  {
    Pending([Entry(name, value)])
  }

  /** What has been printed, followed by what the stack will print, is the goal. */
  ghost predicate Remaining(show: nat -> string, goal: seq<Col>, header: string, firstline: string, stack: seq<Entry>)
  {
    && HeadText(goal) == header + (if stack == [] then "" else HeadText(Pending(stack)))
    && BodyText(show, goal) == firstline + (if stack == [] then "" else BodyText(show, Pending(stack)))
  }

  lemma StepLeaf(show: nat -> string, goal: seq<Col>, header: string, firstline: string, rest: seq<Entry>, top: Entry)
    requires top.value.Leaf? && Remaining(show, goal, header, firstline, rest + [top])
    ensures var sep := if rest == [] then "" else ",";
            Remaining(show, goal, header + top.name + sep, firstline + show(top.value.cell) + sep, rest)
  {
    PopLeaf(show, rest, top);
    var sep := if rest == [] then "" else ",";
    Shift(header, top.name, sep, if rest == [] then "" else HeadText(Pending(rest)));
    Shift(firstline, show(top.value.cell), sep, if rest == [] then "" else BodyText(show, Pending(rest)));
  }

  lemma Shift(a: string, b: string, c: string, d: string)
    ensures a + (b + c + d) == (a + b + c) + d
  {
  }

  lemma StepContainer(show: nat -> string, goal: seq<Col>, header: string, firstline: string, rest: seq<Entry>,
                      top: Entry)
    requires !top.value.Leaf? && Remaining(show, goal, header, firstline, rest + [top])
    ensures Remaining(show, goal, header, firstline, rest + Children(top))
    ensures Stacked(rest + Children(top)) < Stacked(rest + [top])
  {
    PopContainer(rest, top);
    BlankIsSilent(show, rest + Children(top));
  }

  /** generate_template_line: the loop on the explicit stack prints the columns
      that the recursion on the tree gives. */
  method TemplateLine(name: string, value: Tree, show: nat -> string) returns (header: string, firstline: string)
    ensures header == HeadText(Line(name, value)) && firstline == BodyText(show, Line(name, value))
  {
    header, firstline := "", "";
    var stack := [Entry(name, value)];
    while stack != []
      invariant Remaining(show, Line(name, value), header, firstline, stack)
      decreases Stacked(stack)
    {
      var top, rest := stack[|stack|-1], stack[..|stack|-1];
      assert stack == rest + [top];
      if top.value.Leaf? {
        StepLeaf(show, Line(name, value), header, firstline, rest, top);
        header, firstline := header + top.name, firstline + show(top.value.cell);
        if rest != [] {
          header, firstline := header + ",", firstline + ",";
        }
        stack := rest;
      } else {
        StepContainer(show, Line(name, value), header, firstline, rest, top);
        stack := Push(rest, top);
      }
    }
  }

  method Push(rest: seq<Entry>, top: Entry) returns (stack: seq<Entry>)
    requires !top.value.Leaf?
    ensures stack == rest + Children(top)
  {
    match top.value {
      case SetNode(_, es) => stack := PushSet(rest, top.name, es);
      case MapNode(_, its) => stack := PushMap(rest, top.name, its);
      case _ => stack := rest;
    }
  }

  /** With nothing stacked the pending columns print as nothing. */
  lemma BlankIsSilent(show: nat -> string, stack: seq<Entry>)
    ensures stack == [] ==> HeadText(Pending(stack)) == "" && BodyText(show, Pending(stack)) == ""
  {
    if stack == [] {
      assert Pending(stack) == [Blank];
      assert Heads([Blank]) == [""] && Bodies(show, [Blank]) == [""];
    }
  }

  method PushSet(rest: seq<Entry>, name: string, es: seq<Tree>) returns (stack: seq<Entry>)
    ensures stack == rest + SetChildren(name, es)
  {
    stack := rest;
    for i := 0 to |es|
      invariant stack == rest + SetChildren(name, es)[..i]
    {
      stack := stack + [Entry(name + "." + N.ToDec(i), es[i])];
    }
  }

  method PushMap(rest: seq<Entry>, name: string, its: seq<Item>) returns (stack: seq<Entry>)
    ensures stack == rest + MapChildren(name, its)
  {
    stack := rest;
    for i := 0 to |its|
      invariant stack == rest + MapChildren(name, its)[..i]
    {
      stack := stack + [Entry(name + "." + its[i].key, its[i].value)];
    }
  }

  // The whole template ----------------------------------------------------------------------

  function PortColumns(condition: string, ports: seq<Port>): (r: seq<Col>)
  {
    if ports == [] then []
    else PortColumns(condition, ports[..|ports|-1])
         + Line(condition + "." + ports[|ports|-1].name, ports[|ports|-1].value)
  }

  /** A condition without ports still occupies a column, an empty one. */
  function ConditionColumns(c: Condition): (r: seq<Col>)
    ensures r != []
  {
    if c.ports == [] then [Blank]
    else
      TidyPrints([Entry(c.name + "." + c.ports[|c.ports|-1].name, c.ports[|c.ports|-1].value)]);
      PortColumns(c.name, c.ports)
  }

  function AllColumns(conds: seq<Condition>): (r: seq<Col>)
  {
    if conds == [] then [] else AllColumns(conds[..|conds|-1]) + ConditionColumns(conds[|conds|-1])
  }

  function Columns(conds: seq<Condition>): (r: seq<Col>)
  {
    if conds == [] then [Blank] else AllColumns(conds)
  }

  /** The columns done so far are printed, with a comma if more follow. */
  ghost predicate Sofar(show: nat -> string, header: string, firstline: string, done: seq<Col>, more: bool)
  {
    if done == [] then header == "" && firstline == ""
    else
      && header == HeadText(done) + (if more then "," else "")
      && firstline == BodyText(show, done) + (if more then "," else "")
  }

  lemma Extend(show: nat -> string, header: string, firstline: string, done: seq<Col>, next: seq<Col>, more: bool)
    requires Sofar(show, header, firstline, done, true) && next != []
    ensures var sep := if more then "," else "";
            Sofar(show, header + HeadText(next) + sep, firstline + BodyText(show, next) + sep, done + next, more)
  {
    if done == [] {
      assert done + next == next;
    } else {
      TextAppend(show, done, next);
    }
  }

  lemma SilentBlank(show: nat -> string)
    ensures HeadText([Blank]) == "" && BodyText(show, [Blank]) == ""
  {
    assert Heads([Blank]) == [""] && Bodies(show, [Blank]) == [""];
  }

  lemma {:induction false} PortsPrint(condition: string, ports: seq<Port>)
    ensures PortColumns(condition, ports) == [] <==> ports == []
  {
    if ports != [] {
      var last := ports[|ports|-1];
      TidyPrints([Entry(condition + "." + last.name, last.value)]);
    }
  }

  /** The inner loop of generate_template. */
  method TemplateCondition(c: Condition, show: nat -> string) returns (header: string, firstline: string)
    ensures header == HeadText(ConditionColumns(c)) && firstline == BodyText(show, ConditionColumns(c))
  {
    header, firstline := "", "";
    var j := 0;
    while j != |c.ports|
      invariant 0 <= j <= |c.ports|
      invariant Sofar(show, header, firstline, PortColumns(c.name, c.ports[..j]), j < |c.ports|)
    {
      var name := c.name + "." + c.ports[j].name;
      var h, f := TemplateLine(name, c.ports[j].value, show);
      TidyPrints([Entry(name, c.ports[j].value)]);
      assert c.ports[..j+1][..j] == c.ports[..j];
      Extend(show, header, firstline, PortColumns(c.name, c.ports[..j]), Line(name, c.ports[j].value),
          j + 1 < |c.ports|);
      header, firstline := header + h, firstline + f;
      j := j + 1;
      if j != |c.ports| {
        header, firstline := header + ",", firstline + ",";
      }
    }
    assert c.ports[..j] == c.ports;
    PortsPrint(c.name, c.ports);
    SilentBlank(show);
  }

  /** generate_template: the two lines of the file, for every experiment. */
  method Template(conds: seq<Condition>, show: nat -> string) returns (header: string, firstline: string)
    ensures header == HeadText(Columns(conds)) && firstline == BodyText(show, Columns(conds))
  {
    header, firstline := "", "";
    var i := 0;
    while i != |conds|
      invariant 0 <= i <= |conds|
      invariant Sofar(show, header, firstline, AllColumns(conds[..i]), i < |conds|)
    {
      var h, f := TemplateCondition(conds[i], show);
      assert conds[..i+1][..i] == conds[..i];
      Extend(show, header, firstline, AllColumns(conds[..i]), ConditionColumns(conds[i]), i + 1 < |conds|);
      header, firstline := header + h, firstline + f;
      i := i + 1;
      if i != |conds| {
        header, firstline := header + ",", firstline + ",";
      }
    }
    assert conds[..i] == conds;
    SilentBlank(show);
  }

  // When the columns are exactly the scalars ----------------------------------------------------

  /** What a user can check: there is a condition, every condition has a port,
      and every port's value ends in a scalar along its first children. */
  predicate TidyConditions(conds: seq<Condition>)
  {
    && conds != []
    && forall i :: 0 <= i < |conds| ==> TidyCondition(conds[i])
  }

  predicate TidyCondition(c: Condition)
  {
    c.ports != [] && forall j :: 0 <= j < |c.ports| ==> Tidy(c.ports[j].value)
  }

  lemma LineBlank(name: string, value: Tree)
    ensures Blank in Line(name, value) <==> !Tidy(value)
  {
    var stack := [Entry(name, value)];
    var cells := Cells(LeavesOf(stack));
    assert Blank !in cells;
    if !Tidy(value) {
      assert Line(name, value) == cells + [Blank];
      assert (cells + [Blank])[|cells|] == Blank;
    } else {
      assert Line(name, value) == cells;
    }
  }

  lemma {:induction false} PortsBlank(condition: string, ports: seq<Port>)
    ensures Blank in PortColumns(condition, ports) <==> exists j :: 0 <= j < |ports| && !Tidy(ports[j].value)
  {
    if ports != [] {
      var last := ports[|ports|-1];
      PortsBlank(condition, ports[..|ports|-1]);
      LineBlank(condition + "." + last.name, last.value);
      var front := ports[..|ports|-1];
      assert forall j :: 0 <= j < |front| ==> front[j] == ports[j];
      if j :| 0 <= j < |ports| && !Tidy(ports[j].value) {
        assert j < |front| ==> !Tidy(front[j].value);
      }
    }
  }

  lemma {:induction false} AllBlank(conds: seq<Condition>)
    ensures Blank !in AllColumns(conds) <==> conds == [] || TidyConditions(conds)
  {
    if conds != [] {
      var front, last := conds[..|conds|-1], conds[|conds|-1];
      AllBlank(front);
      PortsBlank(last.name, last.ports);
      assert forall i :: 0 <= i < |front| ==> front[i] == conds[i];
      assert Blank !in ConditionColumns(last) <==> TidyCondition(last);
      assert AllColumns(conds) == AllColumns(front) + ConditionColumns(last);
      assert TidyConditions(conds) <==> (front == [] || TidyConditions(front)) && TidyCondition(last);
    }
  }

  /** The template has no empty token if and only if the experiment is tidy. */
  lemma NoBlankExactly(conds: seq<Condition>)
    ensures Blank !in Columns(conds) <==> TidyConditions(conds)
  {
    AllBlank(conds);
  }
}
