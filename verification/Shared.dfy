/** Documents whose nodes are shared with the undo stack. A node object that the
    stack still refers to carries the number of that reference; replacing a node
    moves objects, it does not copy them. */
module Shared {
  import opened Common
  import opened Dom

  datatype SNode = SElem(tag: string, attrs: map<string, string>, kids: seq<SNode>, mark: Option<nat>)
    | SText(data: string)
  {
    function Kids(): (r: seq<SNode>) { if SElem? then kids else [] }
    function Mark(): (r: Option<nat>) { if SElem? then mark else None }
  }

  /** What the document says, without who refers to it. */
  function Erase(n: SNode): (r: Node)
    ensures r.Elem? <==> n.SElem?
    ensures |r.Kids()| == |n.Kids()|
  {
    if n.SText? then Text(n.data)
    else Elem(n.tag, n.attrs, seq(|n.kids|, i requires 0 <= i < |n.kids| => Erase(n.kids[i])))
  }

  /** A fresh copy, which nobody refers to yet. */
  function Copy(n: Node): (r: SNode)
  {
    if n.Text? then SText(n.data)
    else SElem(n.tag, n.attrs, seq(|n.kids|, i requires 0 <= i < |n.kids| => Copy(n.kids[i])), None)
  }

  function Marked(n: SNode, id: nat): (r: SNode)
    ensures Erase(r) == Erase(n)
  {
    if n.SElem? then n.(mark := Some(id)) else n
  }

  predicate SValid(n: SNode, p: Path)
  {
    p == [] || (p[0] < |n.Kids()| && SValid(n.Kids()[p[0]], p[1..]))
  }

  function SAt(n: SNode, p: Path): (r: SNode)
    requires SValid(n, p)
  {
    if p == [] then n else SAt(n.Kids()[p[0]], p[1..])
  }

  function SPut(n: SNode, p: Path, x: SNode): (r: SNode)
    requires SValid(n, p)
  {
    if p == [] then x else n.(kids := n.kids[p[0] := SPut(n.kids[p[0]], p[1..], x)])
  }

  /** An edit in place: the objects stay, what they say becomes x. */
  function Overlay(n: SNode, x: Node): (r: SNode)
    decreases x
  {
    if x.Text? then SText(x.data)
    else SElem(x.tag, x.attrs,
               seq(|x.kids|, i requires 0 <= i < |x.kids| =>
                 if i < |n.Kids()| then Overlay(n.Kids()[i], x.kids[i]) else Copy(x.kids[i])), n.Mark())
  }

  // Erasing commutes ------------------------------------------------------------------

  lemma {:induction false} EraseAt(n: SNode, p: Path)
    ensures SValid(n, p) <==> Valid(Erase(n), p)
    ensures SValid(n, p) ==> Erase(SAt(n, p)) == At(Erase(n), p)
  {
    if p != [] && p[0] < |n.Kids()| {
      EraseAt(n.Kids()[p[0]], p[1..]);
    }
  }

  lemma {:induction false} ErasePut(n: SNode, p: Path, x: SNode)
    requires SValid(n, p)
    ensures Valid(Erase(n), p) && Erase(SPut(n, p, x)) == Put(Erase(n), p, Erase(x))
  {
    EraseAt(n, p);
    if p != [] {
      ErasePut(n.kids[p[0]], p[1..], x);
      assert Erase(SPut(n, p, x)).kids == Put(Erase(n), p, Erase(x)).kids;
    }
  }

  lemma {:induction false} EraseCopy(n: Node)
    ensures Erase(Copy(n)) == n
  {
    if n.Elem? {
      forall i | 0 <= i < |n.kids| ensures Erase(Copy(n.kids[i])) == n.kids[i] {
        EraseCopy(n.kids[i]);
      }
      assert Erase(Copy(n)).kids == n.kids;
    }
  }

  lemma {:induction false} EraseOverlay(n: SNode, x: Node)
    ensures Erase(Overlay(n, x)) == x
    decreases x
  {
    if x.Elem? {
      forall i | 0 <= i < |x.kids| ensures Erase(Overlay(n, x)).kids[i] == x.kids[i] {
        if i < |n.Kids()| {
          EraseOverlay(n.Kids()[i], x.kids[i]);
        } else {
          EraseCopy(x.kids[i]);
        }
      }
      assert Erase(Overlay(n, x)).kids == x.kids;
    }
  }

  lemma {:induction false} OverlaySame(n: SNode)
    ensures Overlay(n, Erase(n)) == n
  {
    if n.SElem? {
      forall i | 0 <= i < |n.kids| ensures Overlay(n.kids[i], Erase(n.kids[i])) == n.kids[i] {
        OverlaySame(n.kids[i]);
      }
      assert Overlay(n, Erase(n)).kids == n.kids;
    }
  }

  // Where a reference sits --------------------------------------------------------------

  ghost predicate MarkAt(n: SNode, p: Path, id: nat)
  {
    SValid(n, p) && SAt(n, p).Mark() == Some(id)
  }

  ghost predicate Absent(n: SNode, id: nat)
  {
    forall p :: !MarkAt(n, p, id)
  }

  /** The node is at p and nowhere else. */
  ghost predicate Only(n: SNode, id: nat, p: Path)
  {
    MarkAt(n, p, id) && forall q :: MarkAt(n, q, id) ==> q == p
  }

  /** What is found at q after a replacement at p. */
  lemma {:induction false} PutMark(n: SNode, p: Path, x: SNode, q: Path, id: nat)
    requires SValid(n, p)
    ensures MarkAt(SPut(n, p, x), q, id) <==> if p <= q then MarkAt(x, q[|p|..], id) else MarkAt(n, q, id)
  {
    if p == [] {
      assert q[0..] == q;
    } else if q != [] {
      var m := SPut(n, p, x);
      if q[0] < |n.kids| {
        PutMark(n.kids[p[0]], p[1..], x, q[1..], id);
        assert MarkAt(m, q, id) <==> MarkAt(m.kids[q[0]], q[1..], id);
        assert MarkAt(n, q, id) <==> MarkAt(n.kids[q[0]], q[1..], id);
        if q[0] == p[0] {
          assert p <= q <==> p[1..] <= q[1..];
          assert p <= q ==> q[1..][|p[1..]|..] == q[|p|..];
        }
      }
    }
  }

  lemma {:induction false} SubMark(n: SNode, p: Path, q: Path, id: nat)
    requires SValid(n, p)
    ensures MarkAt(SAt(n, p), q, id) <==> MarkAt(n, p + q, id)
  {
    if p == [] {
      assert p + q == q;
    } else {
      SubMark(n.Kids()[p[0]], p[1..], q, id);
      assert (p + q)[1..] == p[1..] + q;
    }
  }

  lemma CopyAbsent(n: Node, id: nat)
    ensures Absent(Copy(n), id)
  {
    forall p ensures !MarkAt(Copy(n), p, id) {
      CopyMark(n, p, id);
    }
  }

  lemma {:induction false} CopyMark(n: Node, p: Path, id: nat)
    ensures !MarkAt(Copy(n), p, id)
  {
    if p != [] && n.Elem? && p[0] < |n.kids| {
      CopyMark(n.kids[p[0]], p[1..], id);
    }
  }

  /** An edit in place brings in no reference. */
  lemma {:induction false} OverlayMark(n: SNode, x: Node, p: Path, id: nat)
    requires MarkAt(Overlay(n, x), p, id)
    ensures MarkAt(n, p, id)
    decreases x
  {
    if p != [] {
      if p[0] < |n.Kids()| {
        OverlayMark(n.Kids()[p[0]], x.kids[p[0]], p[1..], id);
      } else {
        CopyMark(x.kids[p[0]], p[1..], id);
      }
    }
  }

  lemma MarkedMark(n: SNode, id: nat, p: Path, other: nat)
    requires n.SElem?
    ensures MarkAt(Marked(n, id), p, other) <==> if p == [] then other == id else MarkAt(n, p, other)
  {
  }

  // Taking a node out of the tree that holds it ---------------------------------------------

  function Remove(n: SNode, id: nat): (r: SNode)
    ensures r.SElem? == n.SElem? && r.Mark() == n.Mark()
    decreases n, 1
  {
    if n.SText? then n else n.(kids := RemoveAll(n.kids, id))
  }

  function RemoveAll(kids: seq<SNode>, id: nat): (r: seq<SNode>)
    decreases kids, 0
  {
    if kids == [] then []
    else (if kids[0].Mark() == Some(id) then [] else [Remove(kids[0], id)]) + RemoveAll(kids[1..], id)
  }

  function Find(n: SNode, id: nat): (r: Option<SNode>)
    decreases n, 1
  {
    if n.SText? then None else if n.mark == Some(id) then Some(n) else FindAll(n.kids, id)
  }

  function FindAll(kids: seq<SNode>, id: nat): (r: Option<SNode>)
    decreases kids, 0
  {
    if kids == [] then None else if Find(kids[0], id).Some? then Find(kids[0], id) else FindAll(kids[1..], id)
  }

  /** The objects still referred to in a subtree that has left its tree: the
      outermost ones, each with what is inside it. */
  function Pieces(n: SNode, held: set<nat>): (r: map<nat, SNode>)
    decreases n, 1
  {
    if n.SText? then map[]
    else if n.mark.Some? && n.mark.value in held then map[n.mark.value := n]
    else PiecesAll(n.kids, held)
  }

  function PiecesAll(kids: seq<SNode>, held: set<nat>): (r: map<nat, SNode>)
    decreases kids, 0
  {
    if kids == [] then map[] else Pieces(kids[0], held) + PiecesAll(kids[1..], held)
  }

  lemma {:induction false} KidMark(n: SNode, i: nat, p: Path, id: nat)
    requires i < |n.Kids()|
    ensures MarkAt(n, [i] + p, id) <==> MarkAt(n.Kids()[i], p, id)
  {
    assert ([i] + p)[1..] == p;
  }

  lemma {:induction false} RemoveAbsent(n: SNode, id: nat)
    requires Absent(n, id)
    ensures Remove(n, id) == n
    decreases n, 1
  {
    if n.SElem? {
      forall i | 0 <= i < |n.kids| ensures Absent(n.kids[i], id) {
        forall p ensures !MarkAt(n.kids[i], p, id) {
          KidMark(n, i, p, id);
        }
      }
      RemoveAllAbsent(n.kids, id);
    }
  }

  lemma {:induction false} RemoveAllAbsent(kids: seq<SNode>, id: nat)
    requires forall i :: 0 <= i < |kids| ==> Absent(kids[i], id)
    ensures RemoveAll(kids, id) == kids
    decreases kids, 0
  {
    if kids != [] {
      assert !MarkAt(kids[0], [], id);
      RemoveAbsent(kids[0], id);
      RemoveAllAbsent(kids[1..], id);
      assert kids == [kids[0]] + kids[1..];
    }
  }

  lemma {:induction false} FindAbsent(n: SNode, id: nat)
    requires Absent(n, id)
    ensures Find(n, id) == None
    decreases n, 1
  {
    if n.SElem? {
      assert !MarkAt(n, [], id);
      forall i | 0 <= i < |n.kids| ensures Absent(n.kids[i], id) {
        forall p ensures !MarkAt(n.kids[i], p, id) {
          KidMark(n, i, p, id);
        }
      }
      FindAllAbsent(n.kids, id);
    }
  }

  lemma {:induction false} FindAllAbsent(kids: seq<SNode>, id: nat)
    requires forall i :: 0 <= i < |kids| ==> Absent(kids[i], id)
    ensures FindAll(kids, id) == None
    decreases kids, 0
  {
    if kids != [] {
      FindAbsent(kids[0], id);
      FindAllAbsent(kids[1..], id);
    }
  }

  /** A node that is in one place only is found there. */
  lemma {:induction false} FindOnly(n: SNode, id: nat, p: Path)
    requires Only(n, id, p)
    ensures Find(n, id) == Some(SAt(n, p))
    decreases n, 1
  {
    if p != [] {
      assert !MarkAt(n, [], id);
      OnlyKid(n, id, p);
      FindAllOnly(n.Kids(), id, p[0], p[1..]);
    }
  }

  lemma OnlyKid(n: SNode, id: nat, p: Path)
    requires Only(n, id, p) && p != []
    ensures p[0] < |n.Kids()| && Only(n.Kids()[p[0]], id, p[1..])
    ensures forall i :: 0 <= i < |n.Kids()| && i != p[0] ==> Absent(n.Kids()[i], id)
  {
    assert SValid(n, p);
    forall i, q | 0 <= i < |n.Kids()| && MarkAt(n.Kids()[i], q, id) ensures i == p[0] && q == p[1..] {
      KidMark(n, i, q, id);
      assert [i] + q == p;
    }
  }

  lemma {:induction false} FindAllOnly(kids: seq<SNode>, id: nat, i: nat, p: Path)
    requires i < |kids| && Only(kids[i], id, p) && forall k :: 0 <= k < |kids| && k != i ==> Absent(kids[k], id)
    ensures FindAll(kids, id) == Some(SAt(kids[i], p))
    decreases kids, 0
  {
    if i == 0 {
      FindOnly(kids[0], id, p);
    } else {
      FindAbsent(kids[0], id);
      FindAllOnly(kids[1..], id, i - 1, p);
    }
  }

  // Sizes ------------------------------------------------------------------------------------

  function Size(n: SNode): (k: nat)
    ensures k >= 1
    decreases n, 1
  {
    if n.SText? then 1 else 1 + SizeAll(n.kids)
  }

  function SizeAll(kids: seq<SNode>): (k: nat)
    decreases kids, 0
  {
    if kids == [] then 0 else Size(kids[0]) + SizeAll(kids[1..])
  }

  lemma {:induction false} SameSize(a: SNode, b: SNode)
    requires Erase(a) == Erase(b)
    ensures Size(a) == Size(b)
    decreases a, 1
  {
    if a.SElem? {
      forall i | 0 <= i < |a.kids| ensures Erase(a.kids[i]) == Erase(b.kids[i]) {
        assert Erase(a).kids[i] == Erase(b).kids[i];
      }
      SameSizes(a.kids, b.kids);
    }
  }

  lemma {:induction false} SameSizes(a: seq<SNode>, b: seq<SNode>)
    requires |a| == |b| && forall i :: 0 <= i < |a| ==> Erase(a[i]) == Erase(b[i])
    ensures SizeAll(a) == SizeAll(b)
    decreases a, 0
  {
    if a != [] {
      SameSize(a[0], b[0]);
      SameSizes(a[1..], b[1..]);
    }
  }

  /** Taking a node out of a tree makes the tree smaller. */
  lemma {:induction false} RemoveShrinks(n: SNode, id: nat)
    ensures Size(Remove(n, id)) <= Size(n)
    decreases n, 1
  {
    if n.SElem? {
      RemoveAllShrinks(n.kids, id);
    }
  }

  lemma {:induction false} RemoveAllShrinks(kids: seq<SNode>, id: nat)
    ensures SizeAll(RemoveAll(kids, id)) <= SizeAll(kids)
    decreases kids, 0
  {
    if kids != [] {
      RemoveShrinks(kids[0], id);
      RemoveAllShrinks(kids[1..], id);
      var r := RemoveAll(kids[1..], id);
      assert ([] + r) == r;
      assert ([Remove(kids[0], id)] + r)[1..] == r;
    }
  }

  lemma {:induction false} RemoveInside(n: SNode, id: nat, p: Path)
    requires MarkAt(n, p, id) && p != []
    ensures Size(Remove(n, id)) < Size(n)
    decreases n, 1
  {
    RemoveAllInside(n.kids, id, p[0], p[1..]);
  }

  lemma {:induction false} RemoveAllInside(kids: seq<SNode>, id: nat, i: nat, p: Path)
    requires i < |kids| && MarkAt(kids[i], p, id)
    ensures SizeAll(RemoveAll(kids, id)) < SizeAll(kids)
    decreases kids, 0
  {
    var r := RemoveAll(kids[1..], id);
    assert ([] + r) == r;
    assert ([Remove(kids[0], id)] + r)[1..] == r;
    if i == 0 {
      RemoveAllShrinks(kids[1..], id);
      if p != [] && kids[0].Mark() != Some(id) {
        RemoveInside(kids[0], id, p);
      }
    } else {
      RemoveShrinks(kids[0], id);
      RemoveAllInside(kids[1..], id, i - 1, p);
    }
  }

  // Pieces -------------------------------------------------------------------------------------

  ghost predicate IsPiece(n: SNode, held: set<nat>, id: nat, x: SNode, p: Path)
  {
    MarkAt(n, p, id) && SAt(n, p) == x && id in held
  }

  /** No reference that counts sits strictly above p. */
  ghost predicate Outermost(n: SNode, held: set<nat>, p: Path)
  {
    forall q, id :: q < p && MarkAt(n, q, id) ==> id !in held
  }

  lemma {:induction false} PieceOf(n: SNode, held: set<nat>, id: nat) returns (p: Path)
    requires id in Pieces(n, held)
    ensures IsPiece(n, held, id, Pieces(n, held)[id], p) && Outermost(n, held, p)
    decreases n, 1
  {
    if n.Mark().Some? && n.Mark().value in held {
      p := [];
    } else {
      var i, q := PieceOfAll(n.Kids(), held, id);
      p := [i] + q;
      KidMark(n, i, q, id);
      assert p[1..] == q;
      forall r, other | r < p && MarkAt(n, r, other) ensures other !in held {
        if r != [] {
          KidMark(n, i, r[1..], other);
          assert [i] + r[1..] == r && r[1..] < q;
        }
      }
    }
  }

  lemma {:induction false} PieceOfAll(kids: seq<SNode>, held: set<nat>, id: nat) returns (i: nat, p: Path)
    requires id in PiecesAll(kids, held)
    ensures i < |kids| && IsPiece(kids[i], held, id, PiecesAll(kids, held)[id], p) && Outermost(kids[i], held, p)
    decreases kids, 0
  {
    if id in PiecesAll(kids[1..], held) {
      i, p := PieceOfAll(kids[1..], held, id);
      i := i + 1;
    } else {
      i := 0;
      p := PieceOf(kids[0], held, id);
    }
  }

  lemma {:induction false} PieceIn(n: SNode, held: set<nat>, id: nat, p: Path)
    requires MarkAt(n, p, id) && id in held && Outermost(n, held, p)
    ensures id in Pieces(n, held)
    decreases n, 1
  {
    if p != [] {
      if n.Mark().Some? {
        assert [] < p && MarkAt(n, [], n.Mark().value);
      }
      var i := p[0];
      forall q, other | q < p[1..] && MarkAt(n.Kids()[i], q, other) ensures other !in held {
        KidMark(n, i, q, other);
        assert [i] + q < p;
      }
      PieceInAll(n.Kids(), held, id, i, p[1..]);
    }
  }

  lemma {:induction false} PieceInAll(kids: seq<SNode>, held: set<nat>, id: nat, i: nat, p: Path)
    requires i < |kids| && MarkAt(kids[i], p, id) && id in held && Outermost(kids[i], held, p)
    ensures id in PiecesAll(kids, held)
    decreases kids, 0
  {
    if i == 0 {
      PieceIn(kids[0], held, id, p);
    } else {
      PieceInAll(kids[1..], held, id, i - 1, p);
    }
  }
}
