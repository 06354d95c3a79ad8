/** XML documents as values. A node is addressed by the positions of the
    children on the way down from the document element. */
module Dom {
  datatype Node = Elem(tag: string, attrs: map<string, string>, kids: seq<Node>) | Text(data: string)
  {
    function Kids(): (r: seq<Node>) { if Elem? then kids else [] }

    /** QDomNode::nodeName. */
    function Tag(): (r: string) { if Elem? then tag else "#text" }

    /** DomFunctions::attributeValue for the attribute "name". */
    function Name(): (r: string) { if Elem? && "name" in attrs then attrs["name"] else "" }
  }

  type Path = seq<nat>

  predicate Valid(n: Node, p: Path)
  {
    p == [] || (p[0] < |n.Kids()| && Valid(n.Kids()[p[0]], p[1..]))
  }

  function At(n: Node, p: Path): (r: Node)
    requires Valid(n, p)
  {
    if p == [] then n else At(n.Kids()[p[0]], p[1..])
  }

  /** replaceChild: the node at p becomes x. */
  function Put(n: Node, p: Path, x: Node): (r: Node)
    requires Valid(n, p)
  {
    if p == [] then x
    else n.(kids := n.kids[p[0] := Put(n.kids[p[0]], p[1..], x)])
  }

  lemma {:induction false} AtPut(n: Node, p: Path, x: Node)
    requires Valid(n, p)
    ensures Valid(Put(n, p, x), p) && At(Put(n, p, x), p) == x
  {
    if p != [] {
      AtPut(n.kids[p[0]], p[1..], x);
    }
  }

  lemma {:induction false} PutAt(n: Node, p: Path)
    requires Valid(n, p)
    ensures Put(n, p, At(n, p)) == n
  {
    if p != [] {
      PutAt(n.kids[p[0]], p[1..]);
    }
  }

  lemma {:induction false} PutPut(n: Node, p: Path, x: Node, y: Node)
    requires Valid(n, p)
    ensures Valid(Put(n, p, x), p) && Put(Put(n, p, x), p, y) == Put(n, p, y)
  {
    if p != [] {
      PutPut(n.kids[p[0]], p[1..], x, y);
      var k := p[0];
      var a := Put(n.kids[k], p[1..], x);
      assert n.kids[k := a][k := Put(a, p[1..], y)] == n.kids[k := Put(n.kids[k], p[1..], y)];
    }
  }

  /** A path is valid step by step. */
  lemma {:induction false} ValidPrefix(n: Node, p: Path, k: nat)
    requires Valid(n, p) && k <= |p|
    ensures Valid(n, p[..k])
    ensures k < |p| ==> p[k] < |At(n, p[..k]).Kids()| && Valid(n, p[..k+1])
    ensures k < |p| ==> At(n, p[..k+1]) == At(n, p[..k]).Kids()[p[k]]
  {
    if k > 0 {
      ValidPrefix(n.Kids()[p[0]], p[1..], k - 1);
      assert p[..k][1..] == p[1..][..k-1];
      if k < |p| {
        assert p[..k+1][1..] == p[1..][..k];
      }
    } else if k < |p| {
      assert p[..1][1..] == [];
    }
  }

  lemma {:induction false} ValidExtend(n: Node, p: Path, i: nat)
    requires Valid(n, p) && i < |At(n, p).Kids()|
    ensures Valid(n, p + [i]) && At(n, p + [i]) == At(n, p).Kids()[i]
  {
    if p != [] {
      ValidExtend(n.Kids()[p[0]], p[1..], i);
      assert (p + [i])[1..] == p[1..] + [i];
    } else {
      assert (p + [i])[1..] == [];
    }
  }
}
