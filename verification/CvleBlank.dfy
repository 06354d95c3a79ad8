/** Inputs with blank lines: exactly which of them end a run, and which rows are
    then left unread. */
module CvleBlank {
  import opened Common
  import opened CvleInput
  import opened CvlePlan

  ghost predicate Lines(lines: seq<string>)
  {
    forall i :: 0 <= i < |lines| ==> Free(lines[i], NL)
  }

  function NonBlank(lines: seq<string>): (r: seq<string>)
  {
    if lines == [] then [] else (if lines[0] == "" then [] else [lines[0]]) + NonBlank(lines[1..])
  }

  function TailRow(tail: string): (r: seq<string>)
  {
    if tail == "" then [] else [tail]
  }

  // Which blank lines stop a read -----------------------------------------------------------

  /** How many rows stand directly before position i. */
  function RunBefore(lines: seq<string>, i: nat): (r: nat)
    requires i <= |lines|
  {
    if i == 0 || lines[i-1] == "" then 0 else 1 + RunBefore(lines, i - 1)
  }

  /** A blank line that is read with nothing in the block: the rows directly
      before it fill whole blocks. */
  predicate Stopper(lines: seq<string>, bs: nat, i: nat)
    requires bs >= 1 && i < |lines|
  {
    lines[i] == "" && RunBefore(lines, i) % bs == 0
  }

  function Shift(k: nat, e: Option<nat>): (r: Option<nat>)
  {
    if e.None? then None else Some(k + e.value)
  }

  /** The number of rows in the block being cut, after one more. */
  function Grown(r: nat, bs: nat): (s: nat)
    requires r < bs
    ensures s < bs
  {
    if r + 1 == bs then 0 else r + 1
  }

  function Fewer(n: nat): (r: nat)
  {
    if n == 0 then 0 else n - 1
  }

  /** The blank line that ends the run, when the block being cut already holds r
      rows and n workers are still to be primed. A read that fails during the
      priming only ends the priming, so the first stopper met then is passed. */
  function EndStop(lines: seq<string>, bs: nat, r: nat, n: nat): (e: Option<nat>)
    requires r < bs
    ensures e.Some? ==> e.value < |lines| && lines[e.value] == ""
  {
    if lines == [] then None
    else if lines[0] != "" then
      Shift(1, EndStop(lines[1..], bs, Grown(r, bs), if r + 1 == bs then Fewer(n) else n))
    else if r > 0 then Shift(1, EndStop(lines[1..], bs, 0, Fewer(n)))
    else if n > 0 then Shift(1, EndStop(lines[1..], bs, 0, 0))
    else Some(0)
  }

  /** With no worker to prime it is the first stopper. */
  lemma {:induction false} FirstStopIs(lines: seq<string>, bs: nat, k: nat)
    requires bs >= 1 && k <= |lines|
    ensures var e := EndStop(lines[k..], bs, RunBefore(lines, k) % bs, 0);
            if e.Some? then Stopper(lines, bs, k + e.value) && NoStopper(lines, bs, k, k + e.value)
            else NoStopper(lines, bs, k, |lines|)
    decreases |lines| - k
  {
    if k < |lines| {
      assert lines[k..][0] == lines[k] && lines[k..][1..] == lines[k+1..];
      ModStep(RunBefore(lines, k), bs);
      if !Stopper(lines, bs, k) {
        var r := RunBefore(lines, k) % bs;
        FirstStopIs(lines, bs, k + 1);
        EndStopStep(lines[k..], bs, r, 0, RunBefore(lines, k + 1) % bs, lines[k] == "" || r + 1 == bs);
      }
    }
  }

  ghost predicate NoStopper(lines: seq<string>, bs: nat, k: nat, m: nat)
    requires bs >= 1 && m <= |lines|
  {
    forall i :: k <= i < m ==> !Stopper(lines, bs, i)
  }

  lemma ModStep(r: nat, bs: nat)
    requires bs >= 1
    ensures 0 % bs == 0 && (r + 1) % bs == Grown(r % bs, bs)
  {
    var q := r / bs;
    assert r == q * bs + r % bs;
    ModUnique(0, bs, 0, 0);
    if r % bs + 1 == bs {
      ModUnique(r + 1, bs, q + 1, 0);
    } else {
      ModUnique(r + 1, bs, q, r % bs + 1);
    }
  }

  lemma ModUnique(a: int, bs: nat, q: int, m: nat)
    requires m < bs && a == q * bs + m
    ensures a % bs == m
  {
    var (d, x) := (q - a / bs, a % bs);
    assert a == (a / bs) * bs + x;
    assert d * bs == x - m;
    MulBound(d, bs);
  }

  lemma MulBound(d: int, bs: nat)
    ensures d >= 1 ==> d * bs >= bs
    ensures d <= -1 ==> d * bs + bs <= 0
  {
    if d >= 1 {
      assert d * bs == (d - 1) * bs + bs;
    } else if d <= -1 {
      assert d * bs + bs == (d + 1) * bs;
    }
  }

  /** How many blocks are cut from a list, a block never going over a blank
      line, when the block being cut already holds r rows. */
  function Blocks(lines: seq<string>, bs: nat, r: nat): (n: nat)
    requires r < bs
  {
    if lines == [] then (if r == 0 then 0 else 1)
    else if lines[0] != "" then (if r + 1 == bs then 1 else 0) + Blocks(lines[1..], bs, Grown(r, bs))
    else (if r == 0 then 0 else 1) + Blocks(lines[1..], bs, 0)
  }

  ghost function Passed(lines: seq<string>, bs: nat, r: nat, n: nat, e: Option<nat>): (d: Option<nat>)
    requires r < bs && (e.Some? ==> e.value < |lines|)
  {
    if e.Some? && Blocks(lines[..e.value], bs, r) < n
    then Shift(e.value + 1, EndStop(lines[e.value + 1..], bs, 0, 0)) else e
  }

  /** In general it is the first stopper, or the next one when fewer than n blocks
      stand before the first. */
  lemma {:induction false} EndStopIs(lines: seq<string>, bs: nat, r: nat, n: nat)
    requires r < bs
    ensures EndStop(lines, bs, r, n) == Passed(lines, bs, r, n, EndStop(lines, bs, r, 0))
  {
    if lines != [] && (lines[0] != "" || r > 0) {
      var (full, r1) := (lines[0] == "" || r + 1 == bs, if lines[0] == "" then 0 else Grown(r, bs));
      var n1 := if full then Fewer(n) else n;
      EndStopIs(lines[1..], bs, r1, n1);
      EndStopStep(lines, bs, r, n, r1, full);
      EndStopStep(lines, bs, r, 0, r1, full);
      PassedStep(lines, bs, r, n, r1, full, EndStop(lines[1..], bs, r1, 0));
    }
  }

  lemma EndStopStep(lines: seq<string>, bs: nat, r: nat, n: nat, r1: nat, full: bool)
    requires r < bs && lines != [] && (lines[0] != "" || r > 0)
    requires r1 == (if lines[0] == "" then 0 else Grown(r, bs)) && full == (lines[0] == "" || r + 1 == bs)
    ensures EndStop(lines, bs, r, n) == Shift(1, EndStop(lines[1..], bs, r1, if full then Fewer(n) else n))
  {
  }

  lemma PassedStep(lines: seq<string>, bs: nat, r: nat, n: nat, r1: nat, full: bool, e: Option<nat>)
    requires r < bs && lines != [] && (lines[0] != "" || r > 0)
    requires r1 == (if lines[0] == "" then 0 else Grown(r, bs)) && full == (lines[0] == "" || r + 1 == bs)
    requires e.Some? ==> e.value < |lines| - 1
    ensures Passed(lines, bs, r, n, Shift(1, e))
         == Shift(1, Passed(lines[1..], bs, r1, if full then Fewer(n) else n, e))
  {
    if e.Some? {
      BlocksStep(lines, bs, r, r1, full, e.value);
    }
  }

  lemma BlocksStep(lines: seq<string>, bs: nat, r: nat, r1: nat, full: bool, e: nat)
    requires r < bs && lines != [] && (lines[0] != "" || r > 0) && e < |lines| - 1
    requires r1 == (if lines[0] == "" then 0 else Grown(r, bs)) && full == (lines[0] == "" || r + 1 == bs)
    ensures lines[e+2..] == lines[1..][e+1..]
    ensures Blocks(lines[..e+1], bs, r) == (if full then 1 else 0) + Blocks(lines[1..][..e], bs, r1)
  {
    assert lines[..e+1][0] == lines[0] && lines[..e+1][1..] == lines[1..][..e];
  }

  // One read ---------------------------------------------------------------------------------

  /** The rows at the start of a list, at most n. */
  function Lead(lines: seq<string>, n: nat): (p: nat)
    ensures p <= n && p <= |lines|
    ensures forall i :: 0 <= i < p ==> lines[i] != ""
    ensures p < n && p < |lines| ==> lines[p] == ""
  {
    if n == 0 || lines == [] || lines[0] == "" then 0 else 1 + Lead(lines[1..], n - 1)
  }

  function TakenLines(lines: seq<string>, tail: string, n: nat): (t: Taken)
  {
    var p := Lead(lines, n);
    if p == n then Taken(lines[..p], TextOf(lines[p..], tail), false)
    else if p < |lines| then Taken(lines[..p], TextOf(lines[p+1..], tail), true)
    else if tail == "" then Taken(lines, Stream("", true, true), true)
    else Taken(lines + [tail], Stream("", true, false), false)
  }

  lemma FirstLine(lines: seq<string>, tail: string)
    requires lines != [] && Free(lines[0], NL)
    ensures GetLine(TextOf(lines, tail)) == (lines[0], TextOf(lines[1..], tail))
  {
    var rest := Frame(lines[1..]) + tail;
    assert Frame(lines) + tail == lines[0] + [NL] + rest;
    GetLineOfRow(lines[0], rest);
  }

  lemma TakeStep(s: Stream, n: nat, l: string, s1: Stream)
    requires s.Good() && n > 0 && GetLine(s) == (l, s1)
    ensures l == "" ==> Take(s, n) == Taken([], s1, true)
    ensures l != "" ==> var t := Take(s1, n - 1); Take(s, n) == Taken([l] + t.lines, t.after, t.blank)
  {
  }

  lemma {:induction false} TakeOfLines(lines: seq<string>, tail: string, n: nat)
    requires Lines(lines) && Free(tail, NL)
    ensures Take(TextOf(lines, tail), n) == TakenLines(lines, tail, n)
    decreases n
  {
    if n > 0 {
      if lines == [] {
        TakeOfTail(tail, n);
      } else {
        FirstLine(lines, tail);
        TakeStep(TextOf(lines, tail), n, lines[0], TextOf(lines[1..], tail));
        if lines[0] != "" {
          TakeOfLines(lines[1..], tail, n - 1);
          TakenLinesStep(lines, tail, n);
        }
      }
    }
  }

  lemma TakenLinesStep(lines: seq<string>, tail: string, n: nat)
    requires lines != [] && n > 0 && lines[0] != ""
    ensures var t := TakenLines(lines[1..], tail, n - 1);
            TakenLines(lines, tail, n) == Taken([lines[0]] + t.lines, t.after, t.blank)
  {
    var (rest, p) := (lines[1..], Lead(lines[1..], n - 1));
    assert [lines[0]] + rest[..p] == lines[..p+1];
    assert rest[p..] == lines[p+1..];
    assert p < |rest| ==> rest[p+1..] == lines[p+2..];
    assert [lines[0]] + rest == lines;
    assert [lines[0]] + (rest + [tail]) == lines + [tail];
  }

  lemma OverRow(lines: seq<string>, bs: nat, r: nat, n: nat)
    requires r < bs && lines != [] && lines[0] != ""
    ensures EndStop(lines, bs, r, n)
         == Shift(1, EndStop(lines[1..], bs, Grown(r, bs), if r + 1 == bs then Fewer(n) else n))
  {
  }

  /** Rows that do not fill the block being cut do not stop the scan. */
  lemma {:induction false} OverRows(lines: seq<string>, bs: nat, r: nat, n: nat, p: nat)
    requires r + p < bs && p <= |lines| && forall i :: 0 <= i < p ==> lines[i] != ""
    ensures EndStop(lines, bs, r, n) == Shift(p, EndStop(lines[p..], bs, r + p, n))
    decreases p
  {
    if p == 0 {
      assert lines[0..] == lines;
    } else {
      var rest := lines[1..];
      OverRow(lines, bs, r, n);
      OverRows(rest, bs, r + 1, n, p - 1);
      assert rest[p-1..] == lines[p..];
      ShiftTwice(p, EndStop(rest, bs, r + 1, n), EndStop(lines[p..], bs, r + p, n));
    }
  }

  lemma ShiftTwice(p: nat, d: Option<nat>, e: Option<nat>)
    requires p > 0 && d == Shift(p - 1, e)
    ensures Shift(1, d) == Shift(p, e)
  {
  }

  /** What a read does, in terms of the list: how many lines it uses up. */
  function Used(lines: seq<string>, bs: nat): (k: nat)
    ensures k <= |lines|
  {
    var p := Lead(lines, bs);
    if p < bs && p < |lines| then p + 1 else p
  }

  /** A read of complete lines that succeeds. */
  ghost predicate Successful(lines: seq<string>, bs: nat)
  {
    Lead(lines, bs) > 0 && (Lead(lines, bs) == bs || Lead(lines, bs) < |lines|)
  }

  lemma OverFull(lines: seq<string>, bs: nat, n: nat, p: nat)
    requires p + 1 == bs <= |lines| && forall i :: 0 <= i <= p ==> lines[i] != ""
    ensures EndStop(lines, bs, 0, n) == Shift(bs, EndStop(lines[bs..], bs, 0, Fewer(n)))
  {
    var last := lines[p..];
    OverRows(lines, bs, 0, n, p);
    assert last[0] == lines[p] && last[1..] == lines[bs..];
    EndStopStep(last, bs, p, n, 0, true);
  }

  lemma OverShort(lines: seq<string>, bs: nat, n: nat, p: nat)
    requires 0 < p < bs && p < |lines| && lines[p] == "" && forall i :: 0 <= i < p ==> lines[i] != ""
    ensures EndStop(lines, bs, 0, n) == Shift(p + 1, EndStop(lines[p+1..], bs, 0, Fewer(n)))
  {
    var last := lines[p..];
    OverRows(lines, bs, 0, n, p);
    assert last[0] == "" && last[1..] == lines[p+1..];
    EndStopStep(last, bs, p, n, 0, true);
  }

  /** It moves the stopper that ends the run up and primes one worker. */
  lemma ReadMoves(lines: seq<string>, bs: nat, n: nat)
    requires Successful(lines, bs)
    ensures EndStop(lines, bs, 0, n) == Shift(Used(lines, bs), EndStop(lines[Used(lines, bs)..], bs, 0, Fewer(n)))
  {
    var p := Lead(lines, bs);
    if p < bs {
      OverShort(lines, bs, n, p);
    } else {
      OverFull(lines, bs, n, bs - 1);
    }
  }

  // The collecting loop ------------------------------------------------------------------------

  function Upto(lines: seq<string>, tail: string, e: Option<nat>): (rows: seq<string>)
    requires e.Some? ==> e.value <= |lines|
  {
    if e.Some? then NonBlank(lines[..e.value]) else NonBlank(lines) + TailRow(tail)
  }

  lemma NonBlankStep(lines: seq<string>)
    requires lines != []
    ensures NonBlank(lines) == (if lines[0] == "" then [] else [lines[0]]) + NonBlank(lines[1..])
  {
  }

  lemma {:induction false} NonBlankAppend(a: seq<string>, b: seq<string>)
    ensures NonBlank(a + b) == NonBlank(a) + NonBlank(b)
  {
    if a == [] {
      assert a + b == b;
    } else {
      assert (a + b)[0] == a[0] && (a + b)[1..] == a[1..] + b;
      NonBlankAppend(a[1..], b);
      NonBlankStep(a);
      NonBlankStep(a + b);
      var first := if a[0] == "" then [] else [a[0]];
      assert first + (NonBlank(a[1..]) + NonBlank(b)) == (first + NonBlank(a[1..])) + NonBlank(b);
    }
  }

  lemma {:induction false} NonBlankRows(rows: seq<string>)
    requires forall i :: 0 <= i < |rows| ==> rows[i] != ""
    ensures NonBlank(rows) == rows
  {
    if rows != [] {
      NonBlankRows(rows[1..]);
    }
  }

  /** The lines a read uses up hold the rows it takes. */
  lemma UsedRows(lines: seq<string>, bs: nat)
    ensures NonBlank(lines[..Used(lines, bs)]) == lines[..Lead(lines, bs)]
  {
    var (p, k) := (Lead(lines, bs), Used(lines, bs));
    NonBlankRows(lines[..p]);
    if k == p + 1 {
      assert lines[..k] == lines[..p] + [""];
      NonBlankAppend(lines[..p], [""]);
      assert NonBlank([""]) == [];
    }
  }

  /** What has been read, and what is still to come. */
  lemma UptoFrom(lines: seq<string>, tail: string, k: nat, e: Option<nat>, rows: seq<string>)
    requires k <= |lines| && (e.Some? ==> e.value <= |lines| - k) && NonBlank(lines[..k]) == rows
    ensures Upto(lines, tail, Shift(k, e)) == rows + Upto(lines[k..], tail, e)
  {
    var rest := lines[k..];
    if e.Some? {
      assert lines[..k + e.value] == lines[..k] + rest[..e.value];
      NonBlankAppend(lines[..k], rest[..e.value]);
    } else {
      assert lines == lines[..k] + rest;
      NonBlankAppend(lines[..k], rest);
      assert (rows + NonBlank(rest)) + TailRow(tail) == rows + (NonBlank(rest) + TailRow(tail));
    }
  }

  /** A read, in terms of the list. */
  lemma ReadOfLines(lines: seq<string>, tail: string, bs: nat)
    requires Lines(lines) && Free(tail, NL) && bs >= 1
    ensures var (b, p) := (ReadBlock(TextOf(lines, tail), bs), Lead(lines, bs));
            if p == bs || p < |lines| then
              b == Block(p > 0, lines[..p], TextOf(lines[Used(lines, bs)..], tail))
            else b == Block(p > 0 || tail != "", lines + TailRow(tail), Stream("", true, tail == ""))
  {
    TakeOfLines(lines, tail, bs);
    assert lines + [] == lines;
  }

  /** A successful read of the first k lines, while n workers are to be primed. */
  ghost predicate ReadAs(lines: seq<string>, tail: string, bs: nat, n: nat, k: nat, b: Block)
  {
    && 0 < k <= |lines| && bs >= 1
    && b == ReadBlock(TextOf(lines, tail), bs) && b.ok && b.lines != []
    && b.after == TextOf(lines[k..], tail) && b.lines == NonBlank(lines[..k])
    && EndStop(lines, bs, 0, n) == Shift(k, EndStop(lines[k..], bs, 0, Fewer(n)))
  }

  lemma ReadSucceeds(lines: seq<string>, tail: string, bs: nat, n: nat) returns (k: nat, b: Block)
    requires Lines(lines) && Free(tail, NL) && Successful(lines, bs)
    ensures ReadAs(lines, tail, bs, n, k, b) && Lines(lines[k..])
  {
    k, b := Used(lines, bs), ReadBlock(TextOf(lines, tail), bs);
    ReadOfLines(lines, tail, bs);
    UsedRows(lines, bs);
    ReadMoves(lines, bs, n);
  }

  /** Everything is read in one go: nothing stops it. */
  lemma AllAtOnce(lines: seq<string>, bs: nat, n: nat)
    requires bs >= 1 && Lead(lines, bs) == |lines| < bs
    ensures EndStop(lines, bs, 0, n) == None && NonBlank(lines) == lines
  {
    OverRows(lines, bs, 0, n, |lines|);
    NonBlankRows(lines);
  }

  /** What the collecting loop does with a list. */
  ghost predicate MainIs(lines: seq<string>, tail: string, id: int, bs: nat)
    requires bs >= 1
  {
    && AllLines(MainJobs(TextOf(lines, tail), id, bs)) == Upto(lines, tail, EndStop(lines, bs, 0, 0))
    && (Ends(TextOf(lines, tail), bs) <==> tail == "" || EndStop(lines, bs, 0, 0).Some?)
  }

  lemma MainBlank(lines: seq<string>, tail: string, id: int, bs: nat)
    requires Lines(lines) && Free(tail, NL) && bs >= 1 && lines != [] && lines[0] == ""
    ensures MainIs(lines, tail, id, bs)
  {
    ReadOfLines(lines, tail, bs);
    assert lines[..0] == [];
  }

  lemma MainMore(lines: seq<string>, tail: string, id: int, bs: nat, k: nat, b: Block)
    requires ReadAs(lines, tail, bs, 0, k, b) && MainIs(lines[k..], tail, id + |b.lines|, bs)
    ensures MainIs(lines, tail, id, bs)
  {
    UptoFrom(lines, tail, k, EndStop(lines[k..], bs, 0, 0), b.lines);
    MainStep(TextOf(lines, tail), id, bs);
  }

  lemma MainLast(lines: seq<string>, tail: string, id: int, bs: nat)
    requires Lines(lines) && Free(tail, NL) && bs >= 1 && Lead(lines, bs) == |lines| < bs
    ensures MainIs(lines, tail, id, bs)
  {
    ReadOfLines(lines, tail, bs);
    AllAtOnce(lines, bs, 0);
    MainEnds(TextOf(lines, tail), id, bs);
  }

  /** The collecting loop reads up to the first stopper, and only there or at a
      final newline does it see the end. */
  lemma {:induction false} MainOfLines(lines: seq<string>, tail: string, id: int, bs: nat)
    requires Lines(lines) && Free(tail, NL) && bs >= 1
    ensures MainIs(lines, tail, id, bs)
    decreases |lines|
  {
    if lines != [] && lines[0] == "" {
      MainBlank(lines, tail, id, bs);
    } else if Successful(lines, bs) {
      var k, b := ReadSucceeds(lines, tail, bs, 0);
      MainOfLines(lines[k..], tail, id + |b.lines|, bs);
      MainMore(lines, tail, id, bs, k, b);
    } else {
      MainLast(lines, tail, id, bs);
    }
  }

  lemma MainStep(s: Stream, id: int, bs: int)
    ensures var b := ReadBlock(s, bs);
            b.lines != [] ==>
              AllLines(MainJobs(s, id, bs)) == b.lines + AllLines(MainJobs(b.after, id + |b.lines|, bs))
              && (Ends(s, bs) <==> Ends(b.after, bs))
  {
    var b := ReadBlock(s, bs);
    if b.lines != [] {
      assert MainJobs(s, id, bs)[1..] == MainJobs(b.after, id + |b.lines|, bs);
    }
  }

  lemma MainEnds(s: Stream, id: int, bs: int)
    requires ReadBlock(s, bs).after.eof
    ensures AllLines(MainJobs(s, id, bs)) == ReadBlock(s, bs).lines
    ensures Ends(s, bs) <==> !ReadBlock(s, bs).ok || (ReadBlock(s, bs).lines != [] && ReadBlock(s, bs).after.fail)
  {
    var b := ReadBlock(s, bs);
    EndedStays(b.after, 0, bs);
    EndedJobs(b.after, id + |b.lines|, bs);
    MainStep(s, id, bs);
    assert b.lines + [] == b.lines;
  }

  lemma EndedJobs(s: Stream, id: int, bs: int)
    requires s.eof
    ensures MainJobs(s, id, bs) == []
  {
  }

  // Priming --------------------------------------------------------------------------------------

  ghost predicate PrimeIs(lines: seq<string>, tail: string, id: int, n: nat, bs: nat)
    requires bs >= 1
  {
    && AllLines(PrimeJobs(TextOf(lines, tail), id, n, bs)) == Upto(lines, tail, EndStop(lines, bs, 0, n))
    && (Ends(AfterPrime(TextOf(lines, tail), n, bs), bs) <==> tail == "" || EndStop(lines, bs, 0, n).Some?)
  }

  lemma PrimeNone(lines: seq<string>, tail: string, id: int, bs: nat)
    requires Lines(lines) && Free(tail, NL) && bs >= 1
    ensures PrimeIs(lines, tail, id, 0, bs)
  {
    MainOfLines(lines, tail, id, bs);
  }

  lemma PrimeBlank(lines: seq<string>, tail: string, id: int, n: nat, bs: nat)
    requires Lines(lines) && Free(tail, NL) && bs >= 1 && n > 0 && lines != [] && lines[0] == ""
    ensures PrimeIs(lines, tail, id, n, bs)
  {
    ReadOfLines(lines, tail, bs);
    assert lines[..0] == [];
    assert Lines(lines[1..]);
    MainOfLines(lines[1..], tail, id, bs);
    UptoFrom(lines, tail, 1, EndStop(lines[1..], bs, 0, 0), []);
  }

  lemma PrimeMore(lines: seq<string>, tail: string, id: int, n: nat, bs: nat, k: nat, b: Block)
    requires n > 0 && ReadAs(lines, tail, bs, n, k, b) && PrimeIs(lines[k..], tail, id + |b.lines|, n - 1, bs)
    ensures PrimeIs(lines, tail, id, n, bs)
  {
    UptoFrom(lines, tail, k, EndStop(lines[k..], bs, 0, n - 1), b.lines);
    PrimeStep(TextOf(lines, tail), id, n, bs);
  }

  lemma PrimeStep(s: Stream, id: int, n: nat, bs: int)
    requires n > 0 && ReadBlock(s, bs).ok
    ensures var b := ReadBlock(s, bs);
            && AllLines(PrimeJobs(s, id, n, bs)) == b.lines + AllLines(PrimeJobs(b.after, id + |b.lines|, n - 1, bs))
            && AfterPrime(s, n, bs) == AfterPrime(b.after, n - 1, bs)
  {
    var b := ReadBlock(s, bs);
    assert PrimeJobs(s, id, n, bs)[1..] == PrimeJobs(b.after, id + |b.lines|, n - 1, bs);
  }

  lemma {:induction false} EndedPrime(s: Stream, id: int, n: nat, bs: int)
    requires s.eof
    ensures AllLines(PrimeJobs(s, id, n, bs)) == []
    decreases n
  {
    EndedJobs(s, id, bs);
    if n > 0 && !s.fail {
      EndedPrime(s, id, n - 1, bs);
      PrimeStep(s, id, n, bs);
    }
  }

  lemma PrimeEnds(s: Stream, id: int, n: nat, bs: int)
    requires n > 0 && ReadBlock(s, bs).after.eof
    ensures AllLines(PrimeJobs(s, id, n, bs)) == ReadBlock(s, bs).lines
    ensures AfterPrime(s, n, bs) == ReadBlock(s, bs).after
    ensures Ends(AfterPrime(s, n, bs), bs) <==> ReadBlock(s, bs).after.fail
  {
    var b := ReadBlock(s, bs);
    EndedStays(b.after, n - 1, bs);
    if b.ok {
      EndedPrime(b.after, id + |b.lines|, n - 1, bs);
      PrimeStep(s, id, n, bs);
      assert b.lines + [] == b.lines;
    } else {
      EndedJobs(b.after, id, bs);
    }
  }

  lemma PrimeLast(lines: seq<string>, tail: string, id: int, n: nat, bs: nat)
    requires Lines(lines) && Free(tail, NL) && bs >= 1 && n > 0 && Lead(lines, bs) == |lines| < bs
    ensures PrimeIs(lines, tail, id, n, bs)
  {
    ReadOfLines(lines, tail, bs);
    AllAtOnce(lines, bs, n);
    PrimeEnds(TextOf(lines, tail), id, n, bs);
  }

  lemma {:induction false} PrimeOfLines(lines: seq<string>, tail: string, id: int, n: nat, bs: nat)
    requires Lines(lines) && Free(tail, NL) && bs >= 1
    ensures PrimeIs(lines, tail, id, n, bs)
    decreases n
  {
    if n == 0 {
      PrimeNone(lines, tail, id, bs);
    } else if lines != [] && lines[0] == "" {
      PrimeBlank(lines, tail, id, n, bs);
    } else if Successful(lines, bs) {
      var k, b := ReadSucceeds(lines, tail, bs, n);
      PrimeOfLines(lines[k..], tail, id + |b.lines|, n - 1, bs);
      PrimeMore(lines, tail, id, n, bs, k, b);
    } else {
      PrimeLast(lines, tail, id, n, bs);
    }
  }

  // The exact condition ---------------------------------------------------------------------------

  /** What a user can check: no row comes after the stopper that ends the run. */
  ghost predicate NothingBehind(lines: seq<string>, tail: string, n: nat, bs: nat)
    requires bs >= 1
  {
    var e := EndStop(lines, bs, 0, n);
    e.Some? ==> tail == "" && forall i :: e.value < i < |lines| ==> lines[i] == ""
  }

  lemma {:induction false} NoRows(lines: seq<string>)
    ensures NonBlank(lines) == [] <==> forall i :: 0 <= i < |lines| ==> lines[i] == ""
  {
    if lines != [] {
      NoRows(lines[1..]);
      assert forall i :: 1 <= i < |lines| ==> lines[i] == lines[1..][i-1];
    }
  }

  /** For every list of lines, blank or not: every row is handed out if and only
      if no row comes after the stopper that ends the run. */
  lemma BlankLinesExact(lines: seq<string>, tail: string, n: nat, bs: nat)
    requires Lines(lines) && Free(tail, NL) && bs >= 1
    ensures AllLines(PrimeJobs(TextOf(lines, tail), 0, n, bs)) == NonBlank(lines) + TailRow(tail)
       <==> NothingBehind(lines, tail, n, bs)
  {
    PrimeOfLines(lines, tail, 0, n, bs);
    var e := EndStop(lines, bs, 0, n);
    if e.Some? {
      var (a, b) := (lines[..e.value], lines[e.value..]);
      assert lines == a + b;
      NonBlankAppend(a, b);
      NoRows(b);
      assert forall i :: 0 <= i < |b| ==> b[i] == lines[e.value + i];
      assert NonBlank(a) == (NonBlank(a) + NonBlank(b)) + TailRow(tail) <==> NonBlank(b) + TailRow(tail) == [] by {
        Longer(NonBlank(a), NonBlank(b), TailRow(tail));
      }
      assert b[0] == "";
      BehindStop(lines, e.value);
    }
  }

  lemma Longer(a: seq<string>, b: seq<string>, c: seq<string>)
    ensures a == (a + b) + c <==> b + c == []
  {
    assert |(a + b) + c| == |a| + |b| + |c|;
    if b + c == [] {
      assert b == [] && c == [];
    }
  }

  lemma BehindStop(lines: seq<string>, e: nat)
    requires e < |lines| && lines[e] == ""
    ensures (forall i :: 0 <= i < |lines[e..]| ==> lines[e..][i] == "")
            <==> forall i :: e < i < |lines| ==> lines[i] == ""
  {
    assert forall i :: e <= i < |lines| ==> lines[i] == lines[e..][i-e];
  }

  lemma {:induction false} NoBlockSizeNoEnd(s: Stream, n: nat, bs: int)
    requires bs <= 0 && !s.fail
    ensures AfterPrime(s, n, bs) == s && !Ends(s, bs)
    decreases n
  {
    if n > 0 {
      NoBlockSizeNoEnd(s, n - 1, bs);
    }
  }

  /** And the master sees both a first block and the end of the input if and only
      if the block size is positive, the first line is a row, and a newline ends
      the last line or a stopper ends the run before. */
  lemma BlankLinesHalt(lines: seq<string>, tail: string, n: nat, bs: int)
    requires Lines(lines) && Free(tail, NL)
    ensures Halts(TextOf(lines, tail), n, bs)
       <==> && bs >= 1 && (if lines == [] then tail != "" else lines[0] != "")
            && (tail == "" || EndStop(lines, bs, 0, n).Some?)
  {
    if bs >= 1 {
      PrimeOfLines(lines, tail, 0, n, bs);
      ReadOfLines(lines, tail, bs);
    } else {
      NoBlockSizeNoEnd(TextOf(lines, tail), n, bs);
    }
  }
}
