/** Dotted names: from a header token to a value of the experiment, and the
    names of the template read back. */
module CvleAccess {
  import opened Common
  import opened CvleTemplate
  import N = Names

  // strtol, base 10 -------------------------------------------------------------------

  predicate IsDigit(c: char)
  {
    '0' <= c <= '9'
  }

  function SkipSpaces(s: string): (r: string)
  {
    if s != "" && (s[0] == ' ' || '\t' <= s[0] <= '\r') then SkipSpaces(s[1..]) else s
  }

  function DigitPrefix(s: string): (r: string)
  {
    if s != "" && IsDigit(s[0]) then [s[0]] + DigitPrefix(s[1..]) else ""
  }

  /** Text that is not a number reads as zero. */
  function Strtol(s: string): (k: int)
  {
    var t := SkipSpaces(s);
    if t != "" && t[0] == '-' then 0 - N.FromDec(DigitPrefix(t[1..]))
    else if t != "" && t[0] == '+' then N.FromDec(DigitPrefix(t[1..]))
    else N.FromDec(DigitPrefix(t))
  }

  lemma {:induction false} AllDigits(s: string)
    requires forall i :: 0 <= i < |s| ==> IsDigit(s[i])
    ensures DigitPrefix(s) == s
  {
    if s != "" {
      AllDigits(s[1..]);
    }
  }

  lemma StrtolDec(k: nat)
    ensures Strtol(N.ToDec(k)) == k
  {
    N.DecDigits(k);
    N.DecRoundTrip(k);
    AllDigits(N.ToDec(k));
    assert IsDigit(N.ToDec(k)[0]);
  }

  // Access ------------------------------------------------------------------------------

  function FindItem(items: seq<Item>, key: string): (r: Option<Tree>)
  {
    if items == [] then None else if items[0].key == key then Some(items[0].value) else FindItem(items[1..], key)
  }

  function FindPort(ports: seq<Port>, name: string): (r: Option<Tree>)
  {
    if ports == [] then None else if ports[0].name == name then Some(ports[0].value) else FindPort(ports[1..], name)
  }

  function FindCondition(conds: seq<Condition>, name: string): (r: Option<Condition>)
  {
    if conds == [] then None else if conds[0].name == name then Some(conds[0]) else FindCondition(conds[1..], name)
  }

  /** One parameter of the name: an index into a set, a key of a map. */
  function Enter(t: Tree, param: string): (r: Option<Tree>)
  {
    match t
    case SetNode(_, es) => if 0 <= Strtol(param) < |es| then Some(es[Strtol(param)]) else None
    case MapNode(_, its) => FindItem(its, param)
    case _ => None
  }

  function Descend(t: Tree, params: seq<string>): (r: Option<Tree>)
    decreases |params|
  {
    if params == [] then Some(t)
    else match Enter(t, params[0])
      case None => None
      case Some(u) => Descend(u, params[1..])
  }

  /** Access::value; None where it throws, the name has no port, or the
      constructor asserts that it has a condition. */
  function Value(conds: seq<Condition>, token: string): (r: Option<Tree>)
  {
    var parts := Split(token, '.');
    if |parts| < 2 || parts[0] == "" then None
    else match FindCondition(conds, parts[0])
      case None => None
      case Some(c) =>
        match FindPort(c.ports, parts[1])
        case None => None
        case Some(t) => Descend(t, parts[2..])
  }

  /** A parameter leads into a set by the number its text reads as, if that is a
      place of the set, into a map by the first item with that key, and nowhere
      else. */
  lemma {:induction false} EnterExact(t: Tree, param: string, u: Tree)
    ensures Enter(t, param) == Some(u) <==>
              || (t.SetNode? && exists k :: 0 <= k < |t.elems| && Strtol(param) == k && t.elems[k] == u)
              || (t.MapNode? && exists k: nat :: FirstItem(t.items, param, k) && t.items[k].value == u)
  {
    if t.MapNode? {
      FindItemExact(t.items, param, u);
    }
  }

  ghost predicate FirstItem(items: seq<Item>, key: string, k: nat)
  {
    k < |items| && items[k].key == key && forall j :: 0 <= j < k ==> items[j].key != key
  }

  lemma {:induction false} FindItemExact(items: seq<Item>, key: string, u: Tree)
    ensures FindItem(items, key) == Some(u) <==> exists k: nat :: FirstItem(items, key, k) && items[k].value == u
  {
    if items != [] {
      if items[0].key == key {
        assert FirstItem(items, key, 0);
      } else {
        var rest := items[1..];
        FindItemExact(rest, key, u);
        if FindItem(rest, key) == Some(u) {
          var k: nat :| FirstItem(rest, key, k) && rest[k].value == u;
          assert FirstItem(items, key, k + 1);
        }
        if k: nat :| FirstItem(items, key, k) && items[k].value == u {
          assert FirstItem(rest, key, k - 1);
        }
      }
    }
  }

  /** Text that is no number is not refused: it leads to the first element. */
  lemma WordIsFirst(t: Tree, word: string)
    requires t.SetNode? && t.elems != []
    requires word != "" && word[0] != ' ' && !('\t' <= word[0] <= '\r') && word[0] != '-' && word[0] != '+'
    requires !IsDigit(word[0])
    ensures Enter(t, word) == Some(t.elems[0])
  {
  }

  lemma {:induction false} DescendOne(t: Tree, params: seq<string>, key: string)
    requires Descend(t, params).Some?
    ensures Descend(t, params + [key]) == Enter(Descend(t, params).value, key)
    decreases |params|
  {
    if params == [] {
      assert params + [key] == [key] && [key][1..] == [];
    } else {
      assert (params + [key])[0] == params[0] && (params + [key])[1..] == params[1..] + [key];
      DescendOne(Enter(t, params[0]).value, params[1..], key);
    }
  }

  lemma {:induction false} SplitAtEnd(s: string, key: string, sep: char)
    requires Free(key, sep)
    ensures Split(s + [sep] + key, sep) == Split(s, sep) + [key]
  {
    var parts := Split(s, sep);
    JoinSplit(s, sep);
    SplitFieldsFree(s, sep);
    JoinEnd(parts, key, sep);
    SplitJoin(parts + [key], sep);
  }

  lemma {:induction false} JoinEnd(parts: seq<string>, key: string, sep: char)
    requires parts != []
    ensures Join(parts + [key], sep) == Join(parts, sep) + [sep] + key
  {
    assert (parts + [key])[1..] == parts[1..] + [key];
    if |parts| > 1 {
      JoinEnd(parts[1..], key, sep);
    }
  }

  /** A longer name goes one step further. */
  lemma ValueExtend(conds: seq<Condition>, name: string, key: string)
    requires Free(key, '.') && Value(conds, name).Some?
    ensures Value(conds, name + "." + key) == Enter(Value(conds, name).value, key)
  {
    SplitAtEnd(name, key, '.');
    var parts := Split(name, '.');
    assert (parts + [key])[2..] == parts[2..] + [key];
    var t := FindPort(FindCondition(conds, parts[0]).value.ports, parts[1]).value;
    DescendOne(t, parts[2..], key);
  }

  // Experiments whose names can be told apart ------------------------------------------------

  /** A name without the separators of the header. */
  ghost predicate Plain(s: string)
  {
    Free(s, '.') && Free(s, ',') && Free(s, '"') && Free(s, '\n')
  }

  ghost predicate TreeOk(t: Tree)
  {
    match t
    case SetNode(_, es) => forall i :: 0 <= i < |es| ==> TreeOk(es[i])
    case MapNode(_, its) =>
      && (forall i :: 0 <= i < |its| ==> Plain(its[i].key) && TreeOk(its[i].value))
      && (forall i, j :: 0 <= i < j < |its| ==> its[i].key != its[j].key)
    case _ => true
  }

  ghost predicate ConditionOk(c: Condition)
  {
    && c.name != "" && Plain(c.name)
    && (forall i :: 0 <= i < |c.ports| ==> c.ports[i].name != "" && Plain(c.ports[i].name) && TreeOk(c.ports[i].value))
    && (forall i, j :: 0 <= i < j < |c.ports| ==> c.ports[i].name != c.ports[j].name)
  }

  ghost predicate ConditionsOk(conds: seq<Condition>)
  {
    && (forall i :: 0 <= i < |conds| ==> ConditionOk(conds[i]))
    && (forall i, j :: 0 <= i < j < |conds| ==> conds[i].name != conds[j].name)
  }

  lemma {:induction false} ItemFound(items: seq<Item>, k: nat)
    requires k < |items| && forall i, j :: 0 <= i < j < |items| ==> items[i].key != items[j].key
    ensures FindItem(items, items[k].key) == Some(items[k].value)
  {
    if k > 0 {
      ItemFound(items[1..], k - 1);
    }
  }

  lemma {:induction false} PortFound(ports: seq<Port>, k: nat)
    requires k < |ports| && forall i, j :: 0 <= i < j < |ports| ==> ports[i].name != ports[j].name
    ensures FindPort(ports, ports[k].name) == Some(ports[k].value)
  {
    if k > 0 {
      PortFound(ports[1..], k - 1);
    }
  }

  lemma {:induction false} ConditionFound(conds: seq<Condition>, k: nat)
    requires k < |conds| && forall i, j :: 0 <= i < j < |conds| ==> conds[i].name != conds[j].name
    ensures FindCondition(conds, conds[k].name) == Some(conds[k])
  {
    if k > 0 {
      ConditionFound(conds[1..], k - 1);
    }
  }

  // Every name leads back to its node -----------------------------------------------------------

  /** A header token that survives the reading of the header and denotes the
      node it stands for. */
  ghost predicate Token(name: string)
  {
    && Free(name, ',') && Free(name, '"') && Free(name, '\n')
    && |Split(name, '.')| >= 2 && Split(name, '.')[0] != "" && Split(name, '.')[1] != ""
  }

  ghost predicate Named(conds: seq<Condition>, e: Entry)
  {
    Token(e.name) && TreeOk(e.value) && Value(conds, e.name) == Some(e.value)
  }

  lemma TokenExtend(name: string, key: string)
    requires Token(name) && Plain(key)
    ensures Token(name + "." + key)
  {
    SplitAtEnd(name, key, '.');
    assert name + "." + key == name + ['.'] + key;
  }

  /** The key by which the i-th child is entered. */
  function ChildKey(t: Tree, i: nat): (key: string)
  {
    if t.MapNode? && i < |t.items| then t.items[i].key else N.ToDec(i)
  }

  lemma DecPlain(k: nat)
    ensures Plain(N.ToDec(k))
  {
    N.DecFree(k, '.');
    N.DecFree(k, ',');
    N.DecFree(k, '"');
    N.DecFree(k, '\n');
  }

  lemma ChildEntered(e: Entry, i: nat)
    requires TreeOk(e.value) && i < |Children(e)|
    ensures Children(e)[i].name == e.name + "." + ChildKey(e.value, i) && Plain(ChildKey(e.value, i))
    ensures Enter(e.value, ChildKey(e.value, i)) == Some(Children(e)[i].value) && TreeOk(Children(e)[i].value)
  {
    DecPlain(i);
    StrtolDec(i);
    if e.value.MapNode? {
      ItemFound(e.value.items, i);
    }
  }

  lemma ChildNamed(conds: seq<Condition>, e: Entry, i: nat)
    requires Named(conds, e) && i < |Children(e)|
    ensures Named(conds, Children(e)[i])
  {
    ChildEntered(e, i);
    TokenExtend(e.name, ChildKey(e.value, i));
    ValueExtend(conds, e.name, ChildKey(e.value, i));
  }

  lemma {:induction false} LeavesNamed(conds: seq<Condition>, e: Entry)
    requires Named(conds, e)
    ensures forall l :: l in Leaves(e) ==> Named(conds, l) && l.value.Leaf?
    decreases Size(e.value), 0
  {
    if !e.value.Leaf? {
      ChildrenShrink(e);
      var cs := Children(e);
      forall i | 0 <= i < |cs| ensures Named(conds, cs[i]) {
        ChildNamed(conds, e, i);
      }
      AllLeavesNamed(conds, cs);
    }
  }

  lemma {:induction false} AllLeavesNamed(conds: seq<Condition>, es: seq<Entry>)
    requires forall i :: 0 <= i < |es| ==> Named(conds, es[i])
    ensures forall l :: l in LeavesOf(es) ==> Named(conds, l) && l.value.Leaf?
    decreases Stacked(es), 1
  {
    if es != [] {
      LeavesNamed(conds, es[|es|-1]);
      AllLeavesNamed(conds, es[..|es|-1]);
    }
  }

  // Every scalar has its column --------------------------------------------------------------------

  /** The node found by following positions of children. */
  ghost predicate Reaches(e: Entry, path: seq<nat>)
    decreases |path|
  {
    path == [] || (path[0] < |Children(e)| && Reaches(Children(e)[path[0]], path[1..]))
  }

  ghost function EntryAt(e: Entry, path: seq<nat>): (r: Entry)
    requires Reaches(e, path)
    decreases |path|
  {
    if path == [] then e else EntryAt(Children(e)[path[0]], path[1..])
  }

  lemma {:induction false} LeafListed(e: Entry, path: seq<nat>)
    requires Reaches(e, path) && EntryAt(e, path).value.Leaf?
    ensures EntryAt(e, path) in Leaves(e)
    decreases |path|
  {
    if path != [] {
      var cs := Children(e);
      LeafListed(cs[path[0]], path[1..]);
      MemberListed(cs, path[0], EntryAt(e, path));
    }
  }

  lemma {:induction false} MemberListed(es: seq<Entry>, i: nat, l: Entry)
    requires i < |es| && l in Leaves(es[i])
    ensures l in LeavesOf(es)
  {
    if i < |es| - 1 {
      MemberListed(es[..|es|-1], i, l);
    }
  }

  // No scalar has two ----------------------------------------------------------------------------------

  ghost predicate Prefix(a: seq<string>, b: seq<string>)
  {
    |a| <= |b| && b[..|a|] == a
  }

  ghost predicate Under(name: string, l: Entry)
  {
    Prefix(Split(name, '.'), Split(l.name, '.'))
  }

  lemma {:induction false} LeavesUnder(e: Entry)
    requires TreeOk(e.value)
    ensures forall l :: l in Leaves(e) ==> Under(e.name, l)
    decreases Size(e.value), 0
  {
    if !e.value.Leaf? {
      ChildrenShrink(e);
      var cs := Children(e);
      forall i | 0 <= i < |cs|
        ensures TreeOk(cs[i].value) && Split(cs[i].name, '.') == Split(e.name, '.') + [ChildKey(e.value, i)]
      {
        ChildEntered(e, i);
        SplitAtEnd(e.name, ChildKey(e.value, i), '.');
      }
      LeavesUnderSome(cs);
      forall l | l in Leaves(e) ensures Under(e.name, l) {
        var i :| 0 <= i < |cs| && Under(cs[i].name, l);
        PrefixTrans(Split(e.name, '.'), Split(cs[i].name, '.'), Split(l.name, '.'));
      }
    }
  }

  lemma PrefixTrans(a: seq<string>, b: seq<string>, c: seq<string>)
    requires Prefix(a, b) && Prefix(b, c)
    ensures Prefix(a, c)
  {
  }

  lemma {:induction false} LeavesUnderSome(es: seq<Entry>)
    requires forall i :: 0 <= i < |es| ==> TreeOk(es[i].value)
    ensures forall l :: l in LeavesOf(es) ==> exists i :: 0 <= i < |es| && Under(es[i].name, l)
    decreases Stacked(es), 1
  {
    if es != [] {
      var front, last := es[..|es|-1], es[|es|-1];
      LeavesUnder(last);
      LeavesUnderSome(front);
      forall l | l in LeavesOf(es) ensures exists i :: 0 <= i < |es| && Under(es[i].name, l) {
        if l in Leaves(last) {
          assert Under(es[|es|-1].name, l);
        } else {
          assert LeavesOf(es) == Leaves(last) + LeavesOf(front) && l in LeavesOf(front);
          var i :| 0 <= i < |front| && Under(front[i].name, l);
          assert Under(es[i].name, l);
        }
      }
    }
  }

  ghost predicate Distinct(es: seq<Entry>)
  {
    forall i, j :: 0 <= i < j < |es| ==> es[i].name != es[j].name
  }

  /** Names of equal length that differ. */
  ghost predicate Apart(es: seq<Entry>)
  {
    forall i, j :: 0 <= i < j < |es| ==> ApartNames(es[i].name, es[j].name)
  }

  ghost predicate ApartNames(a: string, b: string)
  {
    |Split(a, '.')| == |Split(b, '.')| && Split(a, '.') != Split(b, '.')
  }

  lemma ApartLeaves(a: string, b: string, l: Entry, k: Entry)
    requires ApartNames(a, b) && Under(a, l) && Under(b, k)
    ensures l.name != k.name
  {
  }

  lemma {:induction false} LeavesDistinct(e: Entry)
    requires TreeOk(e.value)
    ensures Distinct(Leaves(e))
    decreases Size(e.value), 0
  {
    if !e.value.Leaf? {
      ChildrenShrink(e);
      var cs := Children(e);
      forall i | 0 <= i < |cs| ensures TreeOk(cs[i].value) {
        ChildEntered(e, i);
      }
      ChildrenApart(e);
      AllLeavesDistinct(cs);
    }
  }

  lemma ChildrenApart(e: Entry)
    requires TreeOk(e.value)
    ensures Apart(Children(e))
  {
    var cs := Children(e);
    forall i, j | 0 <= i < j < |cs| ensures ApartNames(cs[i].name, cs[j].name) {
      ChildEntered(e, i);
      ChildEntered(e, j);
      var a, b := ChildKey(e.value, i), ChildKey(e.value, j);
      SplitAtEnd(e.name, a, '.');
      SplitAtEnd(e.name, b, '.');
      if a == b {
        KeysDiffer(e, i, j);
      }
      var s := Split(e.name, '.');
      assert (s + [a])[|s|] != (s + [b])[|s|];
    }
  }

  lemma KeysDiffer(e: Entry, i: nat, j: nat)
    requires TreeOk(e.value) && i < j < |Children(e)|
    ensures ChildKey(e.value, i) != ChildKey(e.value, j)
  {
    if N.ToDec(i) == N.ToDec(j) {
      N.DecInjective(i, j);
    }
  }

  lemma {:induction false} AllLeavesDistinct(es: seq<Entry>)
    requires (forall i :: 0 <= i < |es| ==> TreeOk(es[i].value)) && Apart(es)
    ensures Distinct(LeavesOf(es))
    decreases Stacked(es), 1
  {
    if es != [] {
      var front, last := es[..|es|-1], es[|es|-1];
      LeavesDistinct(last);
      AllLeavesDistinct(front);
      LeavesUnder(last);
      LeavesUnderSome(front);
      forall l, k | l in Leaves(last) && k in LeavesOf(front) ensures l.name != k.name {
        var i :| 0 <= i < |front| && Under(front[i].name, k);
        assert ApartNames(es[i].name, es[|es|-1].name);
        ApartLeaves(front[i].name, last.name, k, l);
      }
      DistinctAppend(Leaves(last), LeavesOf(front));
    }
  }

  lemma DistinctAppend(a: seq<Entry>, b: seq<Entry>)
    requires Distinct(a) && Distinct(b) && forall l, k :: l in a && k in b ==> l.name != k.name
    ensures Distinct(a + b)
  {
    var s := a + b;
    forall i, j | 0 <= i < j < |s| ensures s[i].name != s[j].name {
      if i < |a| && j >= |a| {
        assert s[i] in a && s[j] in b;
      }
    }
  }
}
