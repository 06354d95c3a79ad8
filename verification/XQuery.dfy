/** The textual addresses of the undo machinery: printing the query of a node,
    resolving a query to a node, and exactly when the two are inverse. */
module XQuery {
  import opened Common
  import opened Dom

  /** The tags a query may go through: those unique among siblings, and those
      told apart by their name. The same code serves the experiment document
      and its metadata document with different tags. */
  datatype Grammar = Grammar(root: string, uniq: seq<string>, named: seq<string>)

  const VPZ := Grammar("vle_project",
                       ["structures", "submodels", "in", "out", "connections", "classes", "dynamics", "conditions",
                        "experiment", "views", "observables"],
                       ["model", "port", "class", "dynamic", "condition", "observable"])

  const VPM := Grammar("vle_project_metadata", ["condPlugins", "outputGUIplugins"], ["condPlugin", "outputGUIplugin"])

  ghost predicate PlainTag(t: string)
  {
    t != "" && t != "." && Free(t, '/') && Free(t, '"') && Free(t, '[')
  }

  /** What the two tag lists have to satisfy for addresses to be unambiguous. */
  ghost predicate GrammarOk(g: Grammar)
  {
    && PlainTag(g.root) && g.root !in g.uniq && g.root !in g.named
    && (forall i :: 0 <= i < |g.uniq| ==> PlainTag(g.uniq[i]) && g.uniq[i] !in g.named)
    && (forall i :: 0 <= i < |g.named| ==> PlainTag(g.named[i]))
    && (forall i, j :: 0 <= i < |g.named| && 0 <= j < |g.named| && i != j ==> !(g.named[i] <= g.named[j]))
  }

  function NamedToken(tag: string, name: string): (t: string)
  {
    tag + "[@name=\"" + name + "\"]"
  }

  predicate Listed(g: Grammar, n: Node)
  {
    n.Tag() in g.uniq || n.Tag() in g.named
  }

  function Token(g: Grammar, n: Node): (t: string)
    requires Listed(g, n)
  {
    if n.Tag() in g.uniq then n.Tag() else NamedToken(n.Tag(), n.Name())
  }

  /** getXQuery: the query of the node at p, built through its ancestors. */
  function Print(g: Grammar, doc: Node, p: Path): (q: string)
    requires Valid(doc, p)
    decreases |p|
  {
    var n := At(doc, p);
    if Listed(g, n) then
      (if p == [] then "" else (ValidPrefix(doc, p, |p| - 1); Print(g, doc, p[..|p|-1]))) + "/" + Token(g, n)
    else if n.Tag() == g.root then "./" + g.root
    else ""
  }

  // Resolving --------------------------------------------------------------------------

  predicate Matches(n: Node, tag: string, name: Option<string>)
  {
    n.Tag() == tag && (name.Some? ==> n.Elem? && n.Name() == name.value)
  }

  /** The first child with the tag and, if given, the name. */
  function FirstMatch(kids: seq<Node>, tag: string, name: Option<string>): (i: nat)
    ensures i <= |kids|
    ensures i < |kids| ==> Matches(kids[i], tag, name)
    ensures forall j :: 0 <= j < i ==> !Matches(kids[j], tag, name)
  {
    if kids == [] || Matches(kids[0], tag, name) then 0 else 1 + FirstMatch(kids[1..], tag, name)
  }

  /** obtainChild with a document: a missing child is created at the end. */
  function Obtain(n: Node, tag: string): (r: Node)
    requires n.Elem?
  {
    if FirstMatch(n.kids, tag, None) < |n.kids| then n else n.(kids := n.kids + [Elem(tag, map[], [])])
  }

  /** Among the named tags, the last one that starts the token. */
  function Selected(named: seq<string>, token: string): (t: Option<string>)
    ensures t.Some? ==> t.value in named && t.value <= token
  {
    if named == [] then None
    else
      var n := |named| - 1;
      if named[n] <= token then Some(named[n]) else Selected(named[..n], token)
  }

  /** The outcome of a resolution: the document, possibly with created nodes,
      and the node found; or an out of range access. */
  datatype Found = Found(doc: Node, at: Option<Path>) | Crash

  function Rest(list: seq<string>): (q: string)
    requires |list| >= 1
  {
    if list[0] == "." && |list| >= 2 then Join(list[2..], '/') else Join(list[1..], '/')
  }

  lemma RestShorter(q: string)
    requires q != ""
    ensures |Rest(Split(q, '/'))| < |q|
  {
    var list := Split(q, '/');
    JoinSplit(q, '/');
    if |list| >= 2 && list[0] == "." && |list| >= 3 {
      assert list[1..][1..] == list[2..];
    }
  }

  /** getNodeFromXQuery. `d` is the node reached so far, None at the start. */
  function Resolve(g: Grammar, doc: Node, q: string, d: Option<Path>): (r: Found)
    requires d.Some? ==> Valid(doc, d.value)
    decreases |q|
  {
    if q == "" then Found(doc, d)
    else
      var list := Split(q, '/');
      if list[0] == "." && |list| == 1 then Crash
      else
        var curr := if list[0] == "." then list[1] else list[0];
        RestShorter(q);
        var rest := Rest(list);
        match d
        case None => if curr != g.root || list[0] != "." then Found(doc, None) else Resolve(g, doc, rest, Some([]))
        case Some(p) =>
          if curr in g.uniq then
            if At(doc, p).Text? then Found(doc, None)
            else
              var i := FirstMatch(At(doc, p).kids, curr, None);
              var doc' := Put(doc, p, Obtain(At(doc, p), curr));
              AtPut(doc, p, Obtain(At(doc, p), curr));
              ValidExtend(doc', p, i);
              Resolve(g, doc', rest, Some(p + [i]))
          else match Selected(g.named, curr)
            case None => Found(doc, None)
            case Some(tag) =>
              var parts := Split(curr, '"');
              if |parts| == 1 then Crash
              else
                var kids := At(doc, p).Kids();
                var i := FirstMatch(kids, tag, Some(parts[1]));
                if i == |kids| then Resolve(g, doc, rest, None)
                else
                  ValidExtend(doc, p, i);
                  Resolve(g, doc, rest, Some(p + [i]))
  }

  // Addressable nodes --------------------------------------------------------------------

  /** The k-th step of a path can be named: the child is the first one with its
      unique tag, or the first one with its tag and name, and the name holds no
      separator. */
  ghost predicate ProperStep(g: Grammar, doc: Node, p: Path, k: nat)
    requires Valid(doc, p) && k < |p|
  {
    ValidPrefix(doc, p, k);
    ProperChild(g, At(doc, p[..k]), p[k])
  }

  ghost predicate ProperChild(g: Grammar, parent: Node, i: nat)
    requires i < |parent.Kids()|
  {
    var n := parent.Kids()[i];
    || (n.Tag() in g.uniq && FirstMatch(parent.Kids(), n.Tag(), None) == i)
    || (n.Tag() in g.named && n.Elem? && FirstMatch(parent.Kids(), n.Tag(), Some(n.Name())) == i &&
        Free(n.Name(), '/') && Free(n.Name(), '"'))
  }

  ghost predicate Proper(g: Grammar, doc: Node, p: Path)
    requires Valid(doc, p)
  {
    forall k :: 0 <= k < |p| ==> ProperStep(g, doc, p, k)
  }

  /** The document element is the expected one and every step down is proper. */
  ghost predicate Addressable(g: Grammar, doc: Node, p: Path)
    requires Valid(doc, p)
  {
    doc.Tag() == g.root && Proper(g, doc, p)
  }

  lemma ProperPrefix(g: Grammar, doc: Node, p: Path, k: nat)
    requires Valid(doc, p) && Proper(g, doc, p) && k <= |p|
    ensures Valid(doc, p[..k]) && Proper(g, doc, p[..k])
  {
    ValidPrefix(doc, p, k);
    forall j | 0 <= j < k ensures ProperStep(g, doc, p[..k], j) {
      assert ProperStep(g, doc, p, j);
      assert p[..k][..j] == p[..j];
    }
  }

  lemma ProperSnoc(g: Grammar, doc: Node, p: Path, i: nat)
    requires Valid(doc, p) && i < |At(doc, p).Kids()|
    ensures Valid(doc, p + [i])
    ensures Proper(g, doc, p + [i]) <==> Proper(g, doc, p) && ProperChild(g, At(doc, p), i)
  {
    ValidExtend(doc, p, i);
    var e := p + [i];
    assert e[..|p|] == p;
    if Proper(g, doc, e) {
      ProperPrefix(g, doc, e, |p|);
      assert ProperStep(g, doc, e, |p|);
    }
    if Proper(g, doc, p) && ProperChild(g, At(doc, p), i) {
      forall k | 0 <= k < |e| ensures ProperStep(g, doc, e, k) {
        if k < |p| {
          assert ProperStep(g, doc, p, k);
          assert e[..k] == p[..k];
        }
      }
    }
  }
}
