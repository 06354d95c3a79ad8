/** What looking for a node does to the document: it only ever adds empty
    elements of unique tags, and once it has been done, doing it again, on this
    document or on any that has only grown since, adds nothing and leads to the
    same node. */
module XQueryGrowth {
  import opened Common
  import opened Dom
  import opened XQuery

  /** An element with a unique tag and no attribute, and nothing else below. */
  ghost predicate Created(g: Grammar, n: Node)
  {
    && n.Elem? && n.tag in g.uniq && n.attrs == map[]
    && forall i :: 0 <= i < |n.kids| ==> Created(g, n.kids[i])
  }

  /** Everything of a is in b, at its place, and what is new was created. */
  ghost predicate Grows(g: Grammar, a: Node, b: Node)
    decreases a
  {
    if a.Text? then b == a
    else
      && b.Elem? && b.tag == a.tag && b.attrs == a.attrs && |a.kids| <= |b.kids|
      && (forall i :: 0 <= i < |a.kids| ==> Grows(g, a.kids[i], b.kids[i]))
      && forall i :: |a.kids| <= i < |b.kids| ==> Created(g, b.kids[i])
  }

  lemma {:induction false} GrowsReflexive(g: Grammar, n: Node)
    ensures Grows(g, n, n)
  {
    if n.Elem? {
      forall i | 0 <= i < |n.kids| ensures Grows(g, n.kids[i], n.kids[i]) {
        GrowsReflexive(g, n.kids[i]);
      }
    }
  }

  lemma {:induction false} CreatedGrows(g: Grammar, a: Node, b: Node)
    requires Created(g, a) && Grows(g, a, b)
    ensures Created(g, b)
  {
    forall i | 0 <= i < |b.kids| ensures Created(g, b.kids[i]) {
      if i < |a.kids| {
        CreatedGrows(g, a.kids[i], b.kids[i]);
      }
    }
  }

  lemma {:induction false} GrowsTransitive(g: Grammar, a: Node, b: Node, c: Node)
    requires Grows(g, a, b) && Grows(g, b, c)
    ensures Grows(g, a, c)
    decreases a
  {
    if a.Elem? {
      forall i | 0 <= i < |a.kids| ensures Grows(g, a.kids[i], c.kids[i]) {
        GrowsTransitive(g, a.kids[i], b.kids[i], c.kids[i]);
      }
      forall i | |a.kids| <= i < |c.kids| ensures Created(g, c.kids[i]) {
        if i < |b.kids| {
          CreatedGrows(g, b.kids[i], c.kids[i]);
        }
      }
    }
  }

  lemma {:induction false} PutGrows(g: Grammar, doc: Node, p: Path, x: Node)
    requires Valid(doc, p) && Grows(g, At(doc, p), x)
    ensures Grows(g, doc, Put(doc, p, x))
  {
    if p != [] {
      var k := p[0];
      PutGrows(g, doc.kids[k], p[1..], x);
      forall i | 0 <= i < |doc.kids| ensures Grows(g, doc.kids[i], Put(doc, p, x).kids[i]) {
        if i != k {
          GrowsReflexive(g, doc.kids[i]);
        }
      }
    }
  }

  lemma ObtainGrows(g: Grammar, n: Node, tag: string)
    requires n.Elem? && tag in g.uniq
    ensures Grows(g, n, Obtain(n, tag))
  {
    GrowsReflexive(g, n);
  }

  // One step of the resolution ------------------------------------------------------------------

  /** A query that is neither empty nor a lone dot: its next token and the rest. */
  ghost predicate Steps(q: string, curr: string, rest: string)
  {
    && q != "" && !(Split(q, '/')[0] == "." && |Split(q, '/')| == 1)
    && curr == (if Split(q, '/')[0] == "." then Split(q, '/')[1] else Split(q, '/')[0])
    && rest == Rest(Split(q, '/')) && |rest| < |q|
  }

  lemma NextStep(q: string) returns (curr: string, rest: string)
    requires q != "" && !(Split(q, '/')[0] == "." && |Split(q, '/')| == 1)
    ensures Steps(q, curr, rest)
  {
    RestShorter(q);
    curr := if Split(q, '/')[0] == "." then Split(q, '/')[1] else Split(q, '/')[0];
    rest := Rest(Split(q, '/'));
  }

  lemma StepNone(g: Grammar, doc: Node, q: string, curr: string, rest: string)
    requires Steps(q, curr, rest)
    ensures Resolve(g, doc, q, None) ==
              if curr != g.root || Split(q, '/')[0] != "." then Found(doc, None) else Resolve(g, doc, rest, Some([]))
  {
  }

  lemma StepUnique(g: Grammar, doc: Node, q: string, p: Path, curr: string, rest: string)
    requires Steps(q, curr, rest) && Valid(doc, p) && curr in g.uniq && At(doc, p).Elem?
    ensures var doc1 := Put(doc, p, Obtain(At(doc, p), curr));
            var e := p + [FirstMatch(At(doc, p).kids, curr, None)];
            Valid(doc1, e) && Resolve(g, doc, q, Some(p)) == Resolve(g, doc1, rest, Some(e))
  {
    AtPut(doc, p, Obtain(At(doc, p), curr));
    ValidExtend(Put(doc, p, Obtain(At(doc, p), curr)), p, FirstMatch(At(doc, p).kids, curr, None));
  }

  /** Where a named step leads. */
  ghost function Named(doc: Node, p: Path, tag: string, name: string): (d: Option<Path>)
    requires Valid(doc, p)
  {
    var i := FirstMatch(At(doc, p).Kids(), tag, Some(name));
    if i == |At(doc, p).Kids()| then None else Some(p + [i])
  }

  lemma StepNamed(g: Grammar, doc: Node, q: string, p: Path, curr: string, rest: string)
    requires Steps(q, curr, rest) && Valid(doc, p) && curr !in g.uniq
    requires Selected(g.named, curr).Some? && |Split(curr, '"')| > 1
    ensures var d := Named(doc, p, Selected(g.named, curr).value, Split(curr, '"')[1]);
            (d.Some? ==> Valid(doc, d.value)) && Resolve(g, doc, q, Some(p)) == Resolve(g, doc, rest, d)
  {
    var i := FirstMatch(At(doc, p).Kids(), Selected(g.named, curr).value, Some(Split(curr, '"')[1]));
    if i < |At(doc, p).Kids()| {
      ValidExtend(doc, p, i);
    }
  }

  /** Every other token ends the search. */
  lemma StepNowhere(g: Grammar, doc: Node, q: string, p: Path, curr: string, rest: string)
    requires Steps(q, curr, rest) && Valid(doc, p)
    requires if curr in g.uniq then At(doc, p).Text? else Selected(g.named, curr).None? || |Split(curr, '"')| == 1
    ensures Resolve(g, doc, q, Some(p)) == Found(doc, None) || Resolve(g, doc, q, Some(p)) == Crash
    ensures Resolve(g, doc, q, Some(p)).Crash? <==> curr !in g.uniq && Selected(g.named, curr).Some?
  {
  }

  /** Looking for a node changes nothing that was there. */
  lemma {:induction false} ResolveGrows(g: Grammar, doc: Node, q: string, d: Option<Path>)
    requires d.Some? ==> Valid(doc, d.value)
    ensures Resolve(g, doc, q, d).Found? ==> Grows(g, doc, Resolve(g, doc, q, d).doc)
    decreases |q|
  {
    GrowsReflexive(g, doc);
    if q != "" && !(Split(q, '/')[0] == "." && |Split(q, '/')| == 1) {
      var curr, rest := NextStep(q);
      match d {
        case None =>
          StepNone(g, doc, q, curr, rest);
          ResolveGrows(g, doc, rest, Some([]));
        case Some(p) =>
          if curr in g.uniq && At(doc, p).Elem? {
            var doc1 := Put(doc, p, Obtain(At(doc, p), curr));
            StepUnique(g, doc, q, p, curr, rest);
            ObtainGrows(g, At(doc, p), curr);
            PutGrows(g, doc, p, Obtain(At(doc, p), curr));
            ResolveGrows(g, doc1, rest, Some(p + [FirstMatch(At(doc, p).kids, curr, None)]));
            GrowsOn(g, doc, doc1, Resolve(g, doc, q, d));
          } else if curr !in g.uniq && Selected(g.named, curr).Some? && |Split(curr, '"')| > 1 {
            StepNamed(g, doc, q, p, curr, rest);
            ResolveGrows(g, doc, rest, Named(doc, p, Selected(g.named, curr).value, Split(curr, '"')[1]));
          } else {
            StepNowhere(g, doc, q, p, curr, rest);
          }
      }
    }
  }

  lemma GrowsOn(g: Grammar, a: Node, b: Node, r: Found)
    requires Grows(g, a, b) && (r.Found? ==> Grows(g, b, r.doc))
    ensures r.Found? ==> Grows(g, a, r.doc)
  {
    if r.Found? {
      GrowsTransitive(g, a, b, r.doc);
    }
  }

  // Doing it again ----------------------------------------------------------------------------

  lemma {:induction false} GrowsAt(g: Grammar, a: Node, b: Node, p: Path)
    requires Grows(g, a, b) && Valid(a, p)
    ensures Valid(b, p) && Grows(g, At(a, p), At(b, p))
  {
    if p != [] {
      GrowsAt(g, a.kids[p[0]], b.kids[p[0]], p[1..]);
    }
  }

  /** The first match among the children stays the first when they only grow, and
      no named child ever appears. */
  lemma MatchStays(g: Grammar, a: Node, b: Node, tag: string, name: Option<string>)
    requires GrammarOk(g) && Grows(g, a, b) && a.Elem?
    requires FirstMatch(a.kids, tag, name) < |a.kids| || tag in g.named
    ensures FirstMatch(a.kids, tag, name) < |a.kids| ==> FirstMatch(b.kids, tag, name) == FirstMatch(a.kids, tag, name)
    ensures FirstMatch(a.kids, tag, name) == |a.kids| ==> FirstMatch(b.kids, tag, name) == |b.kids|
  {
    var (i, j) := (FirstMatch(a.kids, tag, name), FirstMatch(b.kids, tag, name));
    forall k | 0 <= k < |a.kids| ensures Matches(b.kids[k], tag, name) <==> Matches(a.kids[k], tag, name) {
      assert Grows(g, a.kids[k], b.kids[k]);
    }
    forall k | |a.kids| <= k < |b.kids| ensures tag in g.named ==> !Matches(b.kids[k], tag, name) {
      assert Created(g, b.kids[k]);
    }
  }

  /** Of a document, everything obtained is there. */
  lemma ObtainAgain(g: Grammar, doc: Node, p: Path, tag: string, later: Node)
    requires GrammarOk(g) && Valid(doc, p) && At(doc, p).Elem? && tag in g.uniq
    requires Grows(g, Put(doc, p, Obtain(At(doc, p), tag)), later)
    ensures Valid(later, p) && At(later, p).Elem? && Put(later, p, Obtain(At(later, p), tag)) == later
    ensures FirstMatch(At(later, p).kids, tag, None) == FirstMatch(At(doc, p).kids, tag, None)
  {
    var x := Obtain(At(doc, p), tag);
    AtPut(doc, p, x);
    GrowsAt(g, Put(doc, p, x), later, p);
    ObtainedFirst(At(doc, p), tag);
    MatchStays(g, x, At(later, p), tag, None);
    PutAt(later, p);
  }

  lemma NamedAgain(g: Grammar, doc: Node, p: Path, tag: string, name: string, later: Node)
    requires GrammarOk(g) && Valid(doc, p) && Valid(later, p) && Grows(g, At(doc, p), At(later, p)) && tag in g.named
    ensures Named(later, p, tag, name) == Named(doc, p, tag, name)
  {
    if At(doc, p).Elem? {
      MatchStays(g, At(doc, p), At(later, p), tag, Some(name));
    }
  }

  /** The node reached by a query, on any document that has grown from the one the
      query led to: the same, and nothing is created. */
  lemma {:induction false} ResolveStays(g: Grammar, doc: Node, q: string, d: Option<Path>, later: Node)
    requires GrammarOk(g) && (d.Some? ==> Valid(doc, d.value) && Valid(later, d.value))
    requires Resolve(g, doc, q, d).Found? && Grows(g, Resolve(g, doc, q, d).doc, later)
    ensures Resolve(g, later, q, d) == Found(later, Resolve(g, doc, q, d).at)
    decreases |q|
  {
    if q != "" {
      var curr, rest := NextStep(q);
      match d {
        case None =>
          StepNone(g, doc, q, curr, rest);
          StepNone(g, later, q, curr, rest);
          if curr == g.root && Split(q, '/')[0] == "." {
            ResolveStays(g, doc, rest, Some([]), later);
          }
        case Some(p) =>
          PlaceStays(g, doc, q, p, later);
          if curr in g.uniq && At(doc, p).Elem? {
            var doc1 := Put(doc, p, Obtain(At(doc, p), curr));
            var e := p + [FirstMatch(At(doc, p).kids, curr, None)];
            StepUnique(g, doc, q, p, curr, rest);
            UniqueAgain(g, doc1, rest, e, later);
            ObtainAgain(g, doc, p, curr, later);
            StepUnique(g, later, q, p, curr, rest);
            ResolveStays(g, doc1, rest, Some(e), later);
          } else if curr !in g.uniq && Selected(g.named, curr).Some? && |Split(curr, '"')| > 1 {
            var (tag, name) := (Selected(g.named, curr).value, Split(curr, '"')[1]);
            StepNamed(g, doc, q, p, curr, rest);
            NamedAgain(g, doc, p, tag, name, later);
            StepNamed(g, later, q, p, curr, rest);
            ResolveStays(g, doc, rest, Named(doc, p, tag, name), later);
          } else {
            StepNowhere(g, doc, q, p, curr, rest);
            StepNowhere(g, later, q, p, curr, rest);
          }
      }
    }
  }

  /** A place of the document is a place of any later one, which has grown there. */
  lemma PlaceStays(g: Grammar, doc: Node, q: string, p: Path, later: Node)
    requires Valid(doc, p) && Resolve(g, doc, q, Some(p)).Found? && Grows(g, Resolve(g, doc, q, Some(p)).doc, later)
    ensures Valid(later, p) && Grows(g, At(doc, p), At(later, p))
  {
    ResolveGrows(g, doc, q, Some(p));
    GrowsTransitive(g, doc, Resolve(g, doc, q, Some(p)).doc, later);
    GrowsAt(g, doc, later, p);
  }

  lemma UniqueAgain(g: Grammar, doc1: Node, rest: string, e: Path, later: Node)
    requires Valid(doc1, e) && Resolve(g, doc1, rest, Some(e)).Found?
    requires Grows(g, Resolve(g, doc1, rest, Some(e)).doc, later)
    ensures Grows(g, doc1, later) && Valid(later, e)
  {
    ResolveGrows(g, doc1, rest, Some(e));
    GrowsTransitive(g, doc1, Resolve(g, doc1, rest, Some(e)).doc, later);
    GrowsAt(g, doc1, later, e);
  }

  lemma ObtainedFirst(n: Node, tag: string)
    requires n.Elem?
    ensures FirstMatch(Obtain(n, tag).kids, tag, None) == FirstMatch(n.kids, tag, None) < |Obtain(n, tag).kids|
  {
    var (i, x) := (FirstMatch(n.kids, tag, None), Obtain(n, tag));
    assert Matches(x.kids[i], tag, None);
    assert forall k :: 0 <= k < i ==> x.kids[k] == n.kids[k];
  }

  /** In particular, looking twice is looking once. */
  lemma ResolveTwice(g: Grammar, doc: Node, q: string)
    requires GrammarOk(g) && Resolve(g, doc, q, None).Found?
    ensures Grows(g, doc, Resolve(g, doc, q, None).doc)
    ensures Resolve(g, Resolve(g, doc, q, None).doc, q, None) == Resolve(g, doc, q, None)
  {
    var r := Resolve(g, doc, q, None);
    ResolveGrows(g, doc, q, None);
    GrowsReflexive(g, r.doc);
    ResolveStays(g, doc, q, None, r.doc);
  }
}
