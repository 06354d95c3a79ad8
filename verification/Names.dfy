/** Fresh names. Both name providers of the editor try the prefix itself, then
    the prefix with numeric suffixes, until a name is free; that they stop at
    all rests on distinct numbers giving distinct suffixes. */
module Names {
  import opened Common

  function Digit(d: nat): (c: char)
    requires d < 10
    ensures '0' <= c <= '9'
  {
    "0123456789"[d]
  }

  function DigitValue(c: char): (d: nat)
  {
    if '0' <= c <= '9' then (c as int) - ('0' as int) else 0
  }

  /** Decimal notation without leading zeros. */
  function ToDec(n: nat): (s: string)
    ensures |s| >= 1
  {
    if n < 10 then [Digit(n)] else ToDec(n / 10) + [Digit(n % 10)]
  }

  function FromDec(s: string): (n: nat)
  {
    if s == "" then 0 else 10 * FromDec(s[..|s|-1]) + DigitValue(s[|s|-1])
  }

  lemma {:induction false} DecRoundTrip(n: nat)
    ensures FromDec(ToDec(n)) == n
  {
    if n < 10 {
      assert ToDec(n)[..0] == "";
    } else {
      DecRoundTrip(n / 10);
      var s := ToDec(n);
      assert s[..|s|-1] == ToDec(n / 10) && s[|s|-1] == Digit(n % 10);
    }
  }

  lemma DecInjective(m: nat, n: nat)
    requires ToDec(m) == ToDec(n)
    ensures m == n
  {
    DecRoundTrip(m);
    DecRoundTrip(n);
  }

  lemma {:induction false} DecDigits(n: nat)
    ensures forall i :: 0 <= i < |ToDec(n)| ==> '0' <= ToDec(n)[i] <= '9'
  {
    if n >= 10 {
      DecDigits(n / 10);
    }
  }

  lemma DecFree(n: nat, c: char)
    requires !('0' <= c <= '9')
    ensures Free(ToDec(n), c)
  {
    DecDigits(n);
  }

  /** The k-th name tried. */
  function Candidate(prefix: string, k: nat): (name: string)
  {
    if k == 0 then prefix else prefix + "_" + ToDec(k)
  }

  lemma CandidateInjective(prefix: string, j: nat, k: nat)
    requires Candidate(prefix, j) == Candidate(prefix, k)
    ensures j == k
  {
    if j > 0 && k > 0 {
      assert Candidate(prefix, j)[|prefix|+1..] == ToDec(j);
      assert Candidate(prefix, k)[|prefix|+1..] == ToDec(k);
      DecInjective(j, k);
    } else {
      assert |Candidate(prefix, j)| == |Candidate(prefix, k)|;
    }
  }

  ghost predicate Later(prefix: string, k: nat, name: string)
  {
    exists j: nat :: j >= k && name == Candidate(prefix, j)
  }

  /** The names in the way from the k-th try on; each failed try uses one up. */
  ghost function InTheWay(prefix: string, names: seq<string>, k: nat): set<string>
  {
    set name | name in names && Later(prefix, k, name)
  }

  lemma TryUsesOneUp(prefix: string, names: seq<string>, k: nat)
    requires Candidate(prefix, k) in names
    ensures InTheWay(prefix, names, k + 1) < InTheWay(prefix, names, k)
  {
    var used := Candidate(prefix, k);
    assert Later(prefix, k, used);
    assert used in InTheWay(prefix, names, k);
    if Later(prefix, k + 1, used) {
      var j: nat :| j >= k + 1 && used == Candidate(prefix, j);
      CandidateInjective(prefix, j, k);
    }
    forall name | name in InTheWay(prefix, names, k + 1) ensures name in InTheWay(prefix, names, k) {
      var j: nat :| j >= k + 1 && name == Candidate(prefix, j);
      assert j >= k;
    }
  }

  /** The smallest number at or above k whose candidate is free. */
  function FirstFree(prefix: string, names: seq<string>, k: nat): (r: nat)
    ensures r >= k && Candidate(prefix, r) !in names
    ensures forall j :: k <= j < r ==> Candidate(prefix, j) in names
    decreases InTheWay(prefix, names, k)
  {
    if Candidate(prefix, k) !in names then k
    else
      TryUsesOneUp(prefix, names, k);
      FirstFree(prefix, names, k + 1)
  }

  /** The name both providers agree on when nothing is excluded. */
  function FreshName(prefix: string, names: seq<string>): (name: string)
    ensures name !in names
  {
    Candidate(prefix, FirstFree(prefix, names, 0))
  }

  /** childNameProvider without exclusions: the two nested loops. */
  method ProvideName(children: seq<string>, prefix: string) returns (name: string)
    ensures name == FreshName(prefix, children)
    ensures name !in children
  {
    name := prefix;
    var id := 0;
    var found := false;
    while !found
      invariant name == Candidate(prefix, id)
      invariant !found ==> FirstFree(prefix, children, 0) == FirstFree(prefix, children, id)
      invariant found ==> FirstFree(prefix, children, 0) == id
      decreases !found, InTheWay(prefix, children, id)
    {
      var taken := false;
      for j := 0 to |children|
        invariant taken <==> name in children[..j]
      {
        assert children[..j+1] == children[..j] + [children[j]];
        taken := taken || children[j] == name;
      }
      assert children[..|children|] == children;
      if taken {
        TryUsesOneUp(prefix, children, id);
        id := id + 1;
        name := prefix;
        name := name + "_";
        name := name + ToDec(id);
      } else {
        found := true;
      }
    }
  }

  // With exclusions ---------------------------------------------------------

  /** The name obtained from the k-th numbered prefix. */
  function Offer(prefix: string, children: seq<string>, k: nat): (name: string)
    ensures name !in children
  {
    FreshName(Candidate(prefix, k), children)
  }

  lemma OfferField(prefix: string, children: seq<string>, k: nat)
    requires k >= 1
    ensures var name := Offer(prefix, children, k);
            |name| > |prefix| && Split(name[|prefix|+1..], '_')[0] == ToDec(k)
  {
    var name := Offer(prefix, children, k);
    var j := FirstFree(Candidate(prefix, k), children, 0);
    DecFree(k, '_');
    if j == 0 {
      assert name[|prefix|+1..] == ToDec(k);
      SplitFree(ToDec(k), '_');
    } else {
      assert name == prefix + "_" + ToDec(k) + "_" + ToDec(j);
      assert name[|prefix|+1..] == ToDec(k) + ['_'] + ToDec(j);
      SplitAtSeparator(ToDec(k), ToDec(j), '_');
    }
  }

  /** Different numbered prefixes never offer the same name. */
  lemma OffersDiffer(prefix: string, children: seq<string>, j: nat, k: nat)
    requires j >= 1 && k >= 1 && Offer(prefix, children, j) == Offer(prefix, children, k)
    ensures j == k
  {
    OfferField(prefix, children, j);
    OfferField(prefix, children, k);
    DecInjective(j, k);
  }

  ghost predicate LaterOffer(prefix: string, children: seq<string>, k: nat, name: string)
  {
    exists j: nat :: j >= 1 && j >= k && name == Offer(prefix, children, j)
  }

  ghost function Barred(prefix: string, children: seq<string>, exclude: set<string>, k: nat): set<string>
  {
    set name | name in exclude && LaterOffer(prefix, children, k, name)
  }

  lemma OfferUsesOneUp(prefix: string, children: seq<string>, exclude: set<string>, k: nat)
    requires k >= 1 && Offer(prefix, children, k) in exclude
    ensures Barred(prefix, children, exclude, k + 1) < Barred(prefix, children, exclude, k)
  {
    var used := Offer(prefix, children, k);
    assert LaterOffer(prefix, children, k, used);
    assert used in Barred(prefix, children, exclude, k);
    if LaterOffer(prefix, children, k + 1, used) {
      var j: nat :| j >= 1 && j >= k + 1 && used == Offer(prefix, children, j);
      OffersDiffer(prefix, children, j, k);
    }
    forall name | name in Barred(prefix, children, exclude, k + 1)
      ensures name in Barred(prefix, children, exclude, k)
    {
      var j: nat :| j >= 1 && j >= k + 1 && name == Offer(prefix, children, j);
      assert j >= k;
    }
  }

  ghost predicate AllBarred(prefix: string, children: seq<string>, exclude: set<string>, k: nat)
  {
    forall j: nat :: j < k ==> Offer(prefix, children, j) in exclude
  }

  ghost predicate FirstOffer(prefix: string, children: seq<string>, exclude: set<string>, k: nat, name: string)
  {
    name == Offer(prefix, children, k) && AllBarred(prefix, children, exclude, k)
  }

  /** childNameProvider with exclusions: terminates for every finite set of
      children and exclusions, and returns the first offer not excluded. */
  method ProvideNameExcluding(children: seq<string>, prefix: string, exclude: set<string>) returns (name: string)
    ensures name !in children && name !in exclude
    ensures exists k: nat :: FirstOffer(prefix, children, exclude, k, name)
  {
    var newName := prefix;
    var id: nat := 0;
    while true
      invariant id == 0 ==> newName == prefix
      invariant AllBarred(prefix, children, exclude, id)
      decreases if id == 0 then 1 else 0, Barred(prefix, children, exclude, id)
    {
      if id > 0 {
        newName := prefix;
        newName := newName + "_";
        newName := newName + ToDec(id);
      }
      name := ProvideName(children, newName);
      assert newName == Candidate(prefix, id);
      if name !in exclude {
        assert FirstOffer(prefix, children, exclude, id, name);
        return;
      }
      if id >= 1 {
        OfferUsesOneUp(prefix, children, exclude, id);
      }
      id := id + 1;
    }
  }
}
