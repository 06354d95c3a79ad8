/** Printing and resolving are inverse on exactly the addressable nodes. */
module XQueryRoundTrip {
  import opened Common
  import opened Dom
  import opened XQuery

  // The two grammars --------------------------------------------------------------------

  ghost predicate AllPlain(tags: seq<string>)
  {
    forall i :: 0 <= i < |tags| ==> PlainTag(tags[i])
  }

  lemma PlainStructureTags()
    ensures PlainTag("structures") && PlainTag("submodels") && PlainTag("in") && PlainTag("out")
  {
  }

  lemma PlainListTags()
    ensures PlainTag("connections") && PlainTag("classes") && PlainTag("dynamics")
  {
  }

  lemma PlainExperimentTags()
    ensures PlainTag("conditions") && PlainTag("experiment") && PlainTag("views") && PlainTag("observables")
  {
  }

  lemma VpzUniqPlain()
    ensures AllPlain(VPZ.uniq)
  {
    PlainStructureTags();
    PlainListTags();
    PlainExperimentTags();
  }

  lemma PlainNamedTags()
    ensures PlainTag("model") && PlainTag("port") && PlainTag("class") && PlainTag("dynamic")
  {
  }

  lemma PlainConditionTags()
    ensures PlainTag("condition") && PlainTag("observable") && PlainTag("vle_project")
  {
  }

  lemma VpzNamedPlain()
    ensures AllPlain(VPZ.named) && PlainTag(VPZ.root)
  {
    PlainNamedTags();
    PlainConditionTags();
  }

  /** Tags that already differ within their first two letters. */
  ghost predicate Apart(a: string, b: string)
  {
    |a| >= 2 && |b| >= 2 && (a[0] != b[0] || a[1] != b[1])
  }

  lemma ApartNoPrefix(a: string, b: string)
    requires Apart(a, b)
    ensures !(a <= b) && a != b
  {
  }

  lemma VpzPrefixFree(i: nat, j: nat)
    requires i < |VPZ.named| && j < |VPZ.named| && i != j
    ensures !(VPZ.named[i] <= VPZ.named[j])
  {
    assert Apart(VPZ.named[i], VPZ.named[j]);
    ApartNoPrefix(VPZ.named[i], VPZ.named[j]);
  }

  lemma VpzUniqNotNamed(i: nat)
    requires i < |VPZ.uniq|
    ensures VPZ.uniq[i] !in VPZ.named
  {
    forall j | 0 <= j < |VPZ.named| ensures VPZ.uniq[i] != VPZ.named[j] {
      assert |VPZ.uniq[i]| != |VPZ.named[j]| || VPZ.uniq[i][0] != VPZ.named[j][0];
    }
  }

  lemma VpzGrammarOk()
    ensures GrammarOk(VPZ)
  {
    VpzUniqPlain();
    VpzNamedPlain();
    forall i, j | 0 <= i < |VPZ.named| && 0 <= j < |VPZ.named| && i != j ensures !(VPZ.named[i] <= VPZ.named[j]) {
      VpzPrefixFree(i, j);
    }
    forall i | 0 <= i < |VPZ.uniq| ensures VPZ.uniq[i] !in VPZ.named {
      VpzUniqNotNamed(i);
    }
  }

  lemma PlainMetadataTag()
    ensures PlainTag("vle_project_metadata")
  {
  }

  lemma PlainPluginsTags()
    ensures PlainTag("condPlugins") && PlainTag("outputGUIplugins")
  {
  }

  lemma PlainPluginTags()
    ensures PlainTag("condPlugin") && PlainTag("outputGUIplugin")
  {
  }

  lemma VpmGrammarOk()
    ensures GrammarOk(VPM)
  {
    PlainMetadataTag();
    PlainPluginsTags();
    PlainPluginTags();
    ApartNoPrefix("condPlugin", "outputGUIplugin");
    ApartNoPrefix("outputGUIplugin", "condPlugin");
  }

  // Tokens -----------------------------------------------------------------------------

  lemma NamedTokenSplits(tag: string, name: string)
    requires Free(tag, '"') && Free(name, '"')
    ensures |Split(NamedToken(tag, name), '"')| >= 2 && Split(NamedToken(tag, name), '"')[1] == name
  {
    var head := tag + "[@name=";
    assert NamedToken(tag, name) == head + ['"'] + (name + ['"'] + "]");
    SplitAtSeparator(head, name + ['"'] + "]", '"');
    SplitAtSeparator(name, "]", '"');
  }

  lemma NamedTokenFree(tag: string, name: string)
    requires Free(tag, '/') && Free(name, '/')
    ensures Free(NamedToken(tag, name), '/')
  {
  }

  /** Only its own tag starts a token. */
  lemma PrefixOfToken(t: string, tag: string, name: string)
    requires Free(t, '[') && t <= NamedToken(tag, name)
    ensures t <= tag
  {
    var token := NamedToken(tag, name);
    assert token[|tag|] == '[';
    assert forall k :: 0 <= k < |t| ==> t[k] == token[k];
    if |t| > |tag| {
      assert false;
    }
    assert t == tag[..|t|];
  }

  lemma {:induction false} SelectedIs(named: seq<string>, i: nat, name: string)
    requires i < |named|
    requires forall j :: 0 <= j < |named| ==> Free(named[j], '[')
    requires forall j :: 0 <= j < |named| && j != i ==> !(named[j] <= named[i])
    ensures Selected(named, NamedToken(named[i], name)) == Some(named[i])
  {
    var token := NamedToken(named[i], name);
    var n := |named| - 1;
    if n == i {
      assert named[i] == token[..|named[i]|];
    } else {
      if named[n] <= token {
        PrefixOfToken(named[n], named[i], name);
      }
      assert named[..n][i] == named[i];
      SelectedIs(named[..n], i, name);
    }
  }

  /** The token of a properly named child: no slash, not a dot, and read back as
      the tag and name it was made of. */
  lemma TokenFacts(g: Grammar, n: Node)
    requires GrammarOk(g) && Listed(g, n)
    requires n.Tag() in g.named ==> Free(n.Name(), '/') && Free(n.Name(), '"')
    ensures Free(Token(g, n), '/') && Token(g, n) != "" && Token(g, n) != "."
    ensures n.Tag() in g.named ==>
              && Token(g, n) !in g.uniq
              && Selected(g.named, Token(g, n)) == Some(n.Tag())
              && |Split(Token(g, n), '"')| >= 2 && Split(Token(g, n), '"')[1] == n.Name()
  {
    if n.Tag() in g.named {
      var i :| 0 <= i < |g.named| && g.named[i] == n.Tag();
      assert n.Tag() !in g.uniq;
      var token := NamedToken(n.Tag(), n.Name());
      NamedTokenFree(n.Tag(), n.Name());
      NamedTokenSplits(n.Tag(), n.Name());
      SelectedIs(g.named, i, n.Name());
      assert token[|n.Tag()|] == '[';
      forall j | 0 <= j < |g.uniq| ensures g.uniq[j] != token {
        assert PlainTag(g.uniq[j]);
      }
    } else {
      var i :| 0 <= i < |g.uniq| && g.uniq[i] == n.Tag();
    }
  }

  // Printing as a joined list of tokens ---------------------------------------------------

  lemma ProperListed(g: Grammar, doc: Node, p: Path, k: nat)
    requires GrammarOk(g) && Valid(doc, p) && Proper(g, doc, p) && k < |p|
    ensures Valid(doc, p[..k+1])
    ensures var n := At(doc, p[..k+1]);
            Listed(g, n) && (n.Tag() in g.named ==> Free(n.Name(), '/') && Free(n.Name(), '"'))
  {
    assert ProperStep(g, doc, p, k);
    ValidPrefix(doc, p, k);
    var n := At(doc, p[..k+1]);
    if n.Tag() in g.uniq {
      var i :| 0 <= i < |g.uniq| && g.uniq[i] == n.Tag();
    }
  }

  function Tokens(g: Grammar, doc: Node, p: Path): (ts: seq<string>)
    requires GrammarOk(g) && Valid(doc, p) && Proper(g, doc, p)
    ensures |ts| == |p|
    decreases |p|
  {
    if p == [] then []
    else
      ProperPrefix(g, doc, p, |p| - 1);
      ProperListed(g, doc, p, |p| - 1);
      assert p[..|p|] == p;
      Tokens(g, doc, p[..|p|-1]) + [Token(g, At(doc, p))]
  }

  lemma {:induction false} TokenAt(g: Grammar, doc: Node, p: Path, k: nat)
    requires GrammarOk(g) && Valid(doc, p) && Proper(g, doc, p) && k < |p|
    ensures Valid(doc, p[..k+1]) && Listed(g, At(doc, p[..k+1]))
    ensures Tokens(g, doc, p)[k] == Token(g, At(doc, p[..k+1]))
    decreases |p|
  {
    ProperListed(g, doc, p, k);
    if k == |p| - 1 {
      assert p[..k+1] == p;
    } else {
      ProperPrefix(g, doc, p, |p| - 1);
      TokenAt(g, doc, p[..|p|-1], k);
      assert p[..|p|-1][..k+1] == p[..k+1];
    }
  }

  lemma TokensFree(g: Grammar, doc: Node, p: Path)
    requires GrammarOk(g) && Valid(doc, p) && Proper(g, doc, p)
    ensures forall k :: 0 <= k < |p| ==> var t := Tokens(g, doc, p)[k]; Free(t, '/') && t != "" && t != "."
  {
    forall k | 0 <= k < |p|
      ensures var t := Tokens(g, doc, p)[k]; Free(t, '/') && t != "" && t != "."
    {
      TokenAt(g, doc, p, k);
      ProperListed(g, doc, p, k);
      TokenFacts(g, At(doc, p[..k+1]));
    }
  }

  lemma {:induction false} JoinSnoc(a: seq<string>, x: string, sep: char)
    requires a != []
    ensures Join(a + [x], sep) == Join(a, sep) + [sep] + x
  {
    if |a| == 1 {
      assert (a + [x])[1..] == [x];
    } else {
      JoinSnoc(a[1..], x, sep);
      assert (a + [x])[1..] == a[1..] + [x];
    }
  }

  lemma {:induction false} PrintIsJoin(g: Grammar, doc: Node, p: Path)
    requires GrammarOk(g) && Valid(doc, p) && Addressable(g, doc, p)
    ensures Print(g, doc, p) == Join([".", g.root] + Tokens(g, doc, p), '/')
    decreases |p|
  {
    if p == [] {
      assert [".", g.root] + [] == [".", g.root];
      assert [".", g.root][1..] == [g.root];
    } else {
      var q := p[..|p|-1];
      ProperPrefix(g, doc, p, |p| - 1);
      ProperListed(g, doc, p, |p| - 1);
      assert p[..|p|] == p;
      PrintIsJoin(g, doc, q);
      var list := [".", g.root] + Tokens(g, doc, q);
      assert [".", g.root] + Tokens(g, doc, p) == list + [Token(g, At(doc, p))];
      JoinSnoc(list, Token(g, At(doc, p)), '/');
    }
  }

  // Resolving a joined list of tokens ------------------------------------------------------

  /** One step of the resolution, on the token of a proper child. */
  lemma ResolveStep(g: Grammar, doc: Node, p: Path, i: nat, ts: seq<string>)
    requires GrammarOk(g) && Valid(doc, p) && i < |At(doc, p).Kids()| && ProperChild(g, At(doc, p), i)
    requires ts != [] && Listed(g, At(doc, p).Kids()[i]) && ts[0] == Token(g, At(doc, p).Kids()[i])
    requires forall k :: 0 <= k < |ts| ==> Free(ts[k], '/')
    ensures Valid(doc, p + [i])
    ensures Resolve(g, doc, Join(ts, '/'), Some(p)) == Resolve(g, doc, Join(ts[1..], '/'), Some(p + [i]))
  {
    var n := At(doc, p).Kids()[i];
    var q := Join(ts, '/');
    ValidExtend(doc, p, i);
    TokenFacts(g, n);
    SplitJoin(ts, '/');
    assert q != "";
    var list := Split(q, '/');
    assert list == ts;
    if n.Tag() in g.uniq {
      var x := Obtain(At(doc, p), ts[0]);
      assert x == At(doc, p);
      PutAt(doc, p);
    }
  }

  /** What a step needs to know, with the slices named. */
  lemma WalkFacts(g: Grammar, doc: Node, p: Path, k: nat)
    requires GrammarOk(g) && Valid(doc, p) && Proper(g, doc, p) && k < |p|
    ensures Valid(doc, p[..k]) && p[k] < |At(doc, p[..k]).Kids()|
    ensures ProperChild(g, At(doc, p[..k]), p[k])
    ensures Listed(g, At(doc, p[..k]).Kids()[p[k]])
    ensures var ts := Tokens(g, doc, p);
            ts[k..] != [] && ts[k..][0] == Token(g, At(doc, p[..k]).Kids()[p[k]]) && ts[k..][1..] == ts[k+1..]
    ensures forall j :: 0 <= j < |p| - k ==> Free(Tokens(g, doc, p)[k..][j], '/')
    ensures p[..k] + [p[k]] == p[..k+1]
  {
    ValidPrefix(doc, p, k);
    TokensFree(g, doc, p);
    TokenAt(g, doc, p, k);
    assert ProperStep(g, doc, p, k);
  }

  lemma {:induction false} Walk(g: Grammar, doc: Node, p: Path, k: nat)
    requires GrammarOk(g) && Valid(doc, p) && Proper(g, doc, p) && k <= |p|
    ensures Valid(doc, p[..k])
    ensures Resolve(g, doc, Join(Tokens(g, doc, p)[k..], '/'), Some(p[..k])) == Found(doc, Some(p))
    decreases |p| - k
  {
    if k == |p| {
      assert p[..k] == p;
      assert Tokens(g, doc, p)[k..] == [];
    } else {
      WalkFacts(g, doc, p, k);
      ResolveStep(g, doc, p[..k], p[k], Tokens(g, doc, p)[k..]);
      Walk(g, doc, p, k + 1);
    }
  }

  lemma RoundTrip(g: Grammar, doc: Node, p: Path)
    requires GrammarOk(g) && Valid(doc, p) && Addressable(g, doc, p)
    ensures Resolve(g, doc, Print(g, doc, p), None) == Found(doc, Some(p))
  {
    PrintIsJoin(g, doc, p);
    TokensFree(g, doc, p);
    var ts := Tokens(g, doc, p);
    var list := [".", g.root] + ts;
    SplitJoin(list, '/');
    assert list[2..] == ts[0..];
    assert list[0] == "." && list[1] == g.root;
    var q := Join(list, '/');
    assert q != "";
    assert Rest(list) == Join(ts[0..], '/');
    assert p[..0] == [];
    Walk(g, doc, p, 0);
  }

  // Whatever a query resolves to is properly placed -------------------------------------------

  lemma {:induction false} PutKeepsStep(g: Grammar, doc: Node, p: Path, x: Node, k: nat)
    requires Valid(doc, p) && k < |p| && x.Tag() == At(doc, p).Tag() && x.Name() == At(doc, p).Name()
    requires x.Elem? && At(doc, p).Elem?
    ensures Valid(Put(doc, p, x), p)
    ensures ProperStep(g, Put(doc, p, x), p, k) <==> ProperStep(g, doc, p, k)
    decreases |p|
  {
    AtPut(doc, p, x);
    var i := p[0];
    var y := Put(doc.kids[i], p[1..], x);
    PutFace(doc.kids[i], p[1..], x);
    if k == 0 {
      assert p[..0] == [];
      assert FaceEqual(doc.kids, doc.kids[i := y]);
      FaceMatch(doc.kids, doc.kids[i := y], y.Tag(), None);
      FaceMatch(doc.kids, doc.kids[i := y], y.Tag(), Some(y.Name()));
    } else {
      PutKeepsStep(g, doc.kids[i], p[1..], x, k - 1);
      assert p[..k][1..] == p[1..][..k-1];
      ValidPrefix(doc, p, k);
      ValidPrefix(Put(doc, p, x), p, k);
    }
  }

  lemma PutFace(n: Node, p: Path, x: Node)
    requires Valid(n, p) && n.Elem? && x.Elem?
    requires x.Tag() == At(n, p).Tag() && x.Name() == At(n, p).Name()
    ensures Put(n, p, x).Elem? && Put(n, p, x).Tag() == n.Tag() && Put(n, p, x).Name() == n.Name()
  {
  }

  ghost predicate FaceEqual(a: seq<Node>, b: seq<Node>)
  {
    && |a| == |b|
    && forall i :: 0 <= i < |a| ==> a[i].Elem? == b[i].Elem? && a[i].Tag() == b[i].Tag() && a[i].Name() == b[i].Name()
  }

  lemma FaceMatch(a: seq<Node>, b: seq<Node>, tag: string, name: Option<string>)
    requires FaceEqual(a, b)
    ensures FirstMatch(a, tag, name) == FirstMatch(b, tag, name)
  {
    assert forall k :: 0 <= k < |a| ==> (Matches(a[k], tag, name) <==> Matches(b[k], tag, name));
  }

  /** Replacing a node by one with the same tag and name moves no address. */
  lemma PutKeepsProper(g: Grammar, doc: Node, p: Path, x: Node)
    requires Valid(doc, p) && Proper(g, doc, p) && x.Elem? && At(doc, p).Elem?
    requires x.Tag() == At(doc, p).Tag() && x.Name() == At(doc, p).Name()
    ensures Valid(Put(doc, p, x), p) && Proper(g, Put(doc, p, x), p)
  {
    AtPut(doc, p, x);
    forall k | 0 <= k < |p| ensures ProperStep(g, Put(doc, p, x), p, k) {
      assert ProperStep(g, doc, p, k);
      PutKeepsStep(g, doc, p, x, k);
    }
  }

  lemma ObtainStep(g: Grammar, doc: Node, p: Path, tag: string)
    requires Valid(doc, p) && Proper(g, doc, p) && At(doc, p).Elem? && tag in g.uniq
    ensures var x := Obtain(At(doc, p), tag);
            var i := FirstMatch(At(doc, p).kids, tag, None);
            && Valid(Put(doc, p, x), p + [i]) && Proper(g, Put(doc, p, x), p + [i])
  {
    var n := At(doc, p);
    var x := Obtain(n, tag);
    var i := FirstMatch(n.kids, tag, None);
    PutKeepsProper(g, doc, p, x);
    AtPut(doc, p, x);
    assert Matches(x.kids[i], tag, None);
    assert forall k :: 0 <= k < i ==> x.kids[k] == n.kids[k];
    assert FirstMatch(x.kids, tag, None) == i;
    ProperSnoc(g, Put(doc, p, x), p, i);
  }

  /** Any query at all: if it resolves to a node, every step to it is proper. */
  lemma {:induction false} ResolvedIsProper(g: Grammar, doc: Node, q: string, d: Option<Path>)
    requires GrammarOk(g)
    requires d.Some? ==> Valid(doc, d.value) && Proper(g, doc, d.value)
    ensures var r := Resolve(g, doc, q, d);
            r.Found? && r.at.Some? ==> Valid(r.doc, r.at.value) && Proper(g, r.doc, r.at.value)
    decreases |q|
  {
    if q != "" {
      var list := Split(q, '/');
      if !(list[0] == "." && |list| == 1) {
        var curr := if list[0] == "." then list[1] else list[0];
        RestShorter(q);
        var rest := Rest(list);
        match d {
          case None =>
            ResolvedIsProper(g, doc, rest, Some([]));
          case Some(p) =>
            if curr in g.uniq {
              if At(doc, p).Elem? {
                ObtainStep(g, doc, p, curr);
                ResolvedIsProper(g, Put(doc, p, Obtain(At(doc, p), curr)), rest,
                                 Some(p + [FirstMatch(At(doc, p).kids, curr, None)]));
              }
            } else if Selected(g.named, curr).Some? && |Split(curr, '"')| > 1 {
              NamedStep(g, doc, p, curr, list);
              var kids := At(doc, p).Kids();
              var i := FirstMatch(kids, Selected(g.named, curr).value, Some(Split(curr, '"')[1]));
              ResolvedIsProper(g, doc, rest, if i == |kids| then None else Some(p + [i]));
            }
        }
      }
    }
  }

  lemma {:induction false} SplitFreeOfOther(s: string, sep: char, c: char)
    requires Free(s, c)
    ensures forall k :: 0 <= k < |Split(s, sep)| ==> Free(Split(s, sep)[k], c)
  {
    if s != "" {
      SplitFreeOfOther(s[1..], sep, c);
    }
  }

  /** A name read from a query holds neither separator. */
  lemma NamedStep(g: Grammar, doc: Node, p: Path, curr: string, list: seq<string>)
    requires Valid(doc, p) && Proper(g, doc, p) && curr in list && exists q :: list == Split(q, '/')
    requires Selected(g.named, curr).Some? && |Split(curr, '"')| > 1
    ensures var kids := At(doc, p).Kids();
            var i := FirstMatch(kids, Selected(g.named, curr).value, Some(Split(curr, '"')[1]));
            i < |kids| ==> Valid(doc, p + [i]) && Proper(g, doc, p + [i])
  {
    var q :| list == Split(q, '/');
    SplitFieldsFree(q, '/');
    SplitFieldsFree(curr, '"');
    SplitFreeOfOther(curr, '"', '/');
    var name := Split(curr, '"')[1];
    assert name in Split(curr, '"');
    var kids := At(doc, p).Kids();
    var i := FirstMatch(kids, Selected(g.named, curr).value, Some(name));
    if i < |kids| {
      ProperSnoc(g, doc, p, i);
    }
  }

  /** The query of a node whose document element is not the expected one, or of
      a node under an unlisted one, does not start at the root. */
  lemma {:induction false} PrintStart(g: Grammar, doc: Node, p: Path)
    requires GrammarOk(g) && Valid(doc, p) && Proper(g, doc, p) && doc.Tag() != g.root
    ensures Print(g, doc, p) == "" || Print(g, doc, p)[0] == '/'
    decreases |p|
  {
    if p != [] {
      ProperPrefix(g, doc, p, |p| - 1);
      PrintStart(g, doc, p[..|p|-1]);
      ProperListed(g, doc, p, |p| - 1);
      assert p[..|p|] == p;
    }
  }

  lemma SlashFails(g: Grammar, doc: Node, q: string)
    requires q != "" && q[0] == '/'
    ensures Resolve(g, doc, q, None) == Found(doc, None)
  {
    assert Split(q, '/')[0] == "";
  }

  /** The exact round trip: resolving the query of a node gives back that node,
      and creates nothing, if and only if the node is addressable. */
  lemma RoundTripExact(g: Grammar, doc: Node, p: Path)
    requires GrammarOk(g) && Valid(doc, p)
    ensures Resolve(g, doc, Print(g, doc, p), None) == Found(doc, Some(p)) <==> Addressable(g, doc, p)
  {
    if Addressable(g, doc, p) {
      RoundTrip(g, doc, p);
    } else if Resolve(g, doc, Print(g, doc, p), None) == Found(doc, Some(p)) {
      ResolvedIsProper(g, doc, Print(g, doc, p), None);
      PrintStart(g, doc, p);
      if Print(g, doc, p) != "" {
        SlashFails(g, doc, Print(g, doc, p));
      }
      assert false;
    }
  }

  /** Different addressable nodes have different queries. */
  lemma QueriesDiffer(g: Grammar, doc: Node, p: Path, q: Path)
    requires GrammarOk(g) && Valid(doc, p) && Valid(doc, q)
    requires Addressable(g, doc, p) && Addressable(g, doc, q) && Print(g, doc, p) == Print(g, doc, q)
    ensures p == q
  {
    RoundTrip(g, doc, p);
    RoundTrip(g, doc, q);
  }

  /** A query survives any edit inside the node it denotes that keeps the tag
      and the name of that node. */
  lemma QuerySurvivesEdit(g: Grammar, doc: Node, p: Path, x: Node)
    requires GrammarOk(g) && Valid(doc, p) && Addressable(g, doc, p) && x.Elem? && At(doc, p).Elem?
    requires x.Tag() == At(doc, p).Tag() && x.Name() == At(doc, p).Name()
    ensures Valid(Put(doc, p, x), p) && Addressable(g, Put(doc, p, x), p)
    ensures Print(g, Put(doc, p, x), p) == Print(g, doc, p)
    ensures Resolve(g, Put(doc, p, x), Print(g, doc, p), None) == Found(Put(doc, p, x), Some(p))
  {
    var after := Put(doc, p, x);
    PutKeepsProper(g, doc, p, x);
    TokensStay(g, doc, p, x);
    RootStays(doc, p, x);
    PrintIsJoin(g, doc, p);
    PrintIsJoin(g, after, p);
    RoundTrip(g, after, p);
  }

  lemma TokensStay(g: Grammar, doc: Node, p: Path, x: Node)
    requires GrammarOk(g) && Valid(doc, p) && Proper(g, doc, p) && x.Elem? && At(doc, p).Elem?
    requires Valid(Put(doc, p, x), p) && Proper(g, Put(doc, p, x), p)
    requires x.Tag() == At(doc, p).Tag() && x.Name() == At(doc, p).Name()
    ensures Tokens(g, Put(doc, p, x), p) == Tokens(g, doc, p)
  {
    var after := Put(doc, p, x);
    forall k | 0 <= k < |p| ensures Tokens(g, doc, p)[k] == Tokens(g, after, p)[k] {
      TokenAt(g, doc, p, k);
      TokenAt(g, after, p, k);
      PrefixFace(doc, p, x, k + 1);
    }
  }

  lemma RootStays(doc: Node, p: Path, x: Node)
    requires Valid(doc, p) && x.Elem? && At(doc, p).Elem? && x.Tag() == At(doc, p).Tag()
    ensures Put(doc, p, x).Tag() == doc.Tag()
  {
  }

  lemma {:induction false} PrefixFace(doc: Node, p: Path, x: Node, k: nat)
    requires Valid(doc, p) && k <= |p| && x.Elem? && At(doc, p).Elem?
    requires x.Tag() == At(doc, p).Tag() && x.Name() == At(doc, p).Name()
    ensures Valid(doc, p[..k]) && Valid(Put(doc, p, x), p[..k])
    ensures At(Put(doc, p, x), p[..k]).Tag() == At(doc, p[..k]).Tag()
    ensures At(Put(doc, p, x), p[..k]).Name() == At(doc, p[..k]).Name()
    decreases |p|
  {
    if p == [] {
      assert p[..k] == [];
    } else if k == 0 {
      assert p[..0] == [];
    } else {
      PrefixFace(doc.kids[p[0]], p[1..], x, k - 1);
      assert p[..k][1..] == p[1..][..k-1];
    }
  }
}
