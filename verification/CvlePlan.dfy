/** The deterministic part of the master: which blocks it cuts, in which order
    and with which identifiers, whatever the interleaving of replies; and for
    which inputs its two reading loops ever see the end of the input. */
module CvlePlan {
  import opened Common
  import opened CvleInput

  /** A block handed to a worker: its rows and the identifier of its first row. */
  datatype Job = Job(lines: seq<string>, first: int)
  {
    function Last(): (r: int) { first + |lines| }
  }

  /** The blocks the collecting loop hands out from this point of the stream. */
  function MainJobs(s: Stream, id: int, bs: int): (jobs: seq<Job>)
    decreases |s.rest|
  {
    var b := ReadBlock(s, bs);
    if b.lines == [] then [] else [Job(b.lines, id)] + MainJobs(b.after, id + |b.lines|, bs)
  }

  /** The blocks handed out while `n` ranks still have to be primed, followed by
      those of the collecting loop. Priming sends a block even when it is empty
      and stops at the first failing read. */
  function PrimeJobs(s: Stream, id: int, n: nat, bs: int): (jobs: seq<Job>)
    decreases n
  {
    if n == 0 then MainJobs(s, id, bs)
    else
      var b := ReadBlock(s, bs);
      if b.ok then [Job(b.lines, id)] + PrimeJobs(b.after, id + |b.lines|, n - 1, bs)
      else MainJobs(b.after, id, bs)
  }

  /** The stream when priming stops. */
  function AfterPrime(s: Stream, n: nat, bs: int): (r: Stream)
    decreases n
  {
    if n == 0 then s
    else
      var b := ReadBlock(s, bs);
      if b.ok then AfterPrime(b.after, n - 1, bs) else b.after
  }

  /** The collecting loop reaches a read that reports the end. A successful read
      of an empty block leaves the stream as it was, so it repeats for ever. */
  predicate Ends(s: Stream, bs: int)
    decreases |s.rest|
  {
    var b := ReadBlock(s, bs);
    !b.ok || (b.lines != [] && Ends(b.after, bs))
  }

  /** The input on which the master, with `n` workers, both hands out a block
      and later sees the end of the input. */
  predicate Halts(s: Stream, n: nat, bs: int)
  {
    ReadBlock(s, bs).ok && Ends(AfterPrime(s, n, bs), bs)
  }

  /** Identifiers are consecutive: each block starts where the previous stops. */
  ghost predicate Numbered(jobs: seq<Job>, id: int)
  {
    jobs == [] || (jobs[0].first == id && Numbered(jobs[1..], jobs[0].Last()))
  }

  function AllLines(jobs: seq<Job>): (lines: seq<string>)
  {
    if jobs == [] then [] else jobs[0].lines + AllLines(jobs[1..])
  }

  lemma {:induction false} MainJobsNumbered(s: Stream, id: int, bs: int)
    ensures Numbered(MainJobs(s, id, bs), id)
    decreases |s.rest|
  {
    var b := ReadBlock(s, bs);
    if b.lines != [] {
      MainJobsNumbered(b.after, id + |b.lines|, bs);
      assert MainJobs(s, id, bs)[1..] == MainJobs(b.after, id + |b.lines|, bs);
    }
  }

  lemma {:induction false} PrimeJobsNumbered(s: Stream, id: int, n: nat, bs: int)
    ensures Numbered(PrimeJobs(s, id, n, bs), id)
    decreases n
  {
    var b := ReadBlock(s, bs);
    if n == 0 {
      MainJobsNumbered(s, id, bs);
    } else if b.ok {
      PrimeJobsNumbered(b.after, id + |b.lines|, n - 1, bs);
      assert PrimeJobs(s, id, n, bs)[1..] == PrimeJobs(b.after, id + |b.lines|, n - 1, bs);
    } else {
      MainJobsNumbered(b.after, id, bs);
    }
  }

  /** In a numbered list, the identifier of a row is its position in the input. */
  lemma {:induction false} NumberedOffset(jobs: seq<Job>, id: int, i: nat, k: nat)
    requires Numbered(jobs, id)
    requires i < |jobs| && k < |jobs[i].lines|
    ensures 0 <= jobs[i].first + k - id < |AllLines(jobs)|
    ensures AllLines(jobs)[jobs[i].first + k - id] == jobs[i].lines[k]
  {
    if i > 0 {
      NumberedOffset(jobs[1..], jobs[0].Last(), i - 1, k);
    }
  }

  // ---------------------------------------------------------------------
  // Inputs without blank lines: rows, each ended by a newline, and a last
  // line `tail` that no newline ends.

  function TextOf(rows: seq<string>, tail: string): (s: Stream)
  {
    Opened(Frame(rows) + tail)
  }

  function WithTail(rows: seq<string>, tail: string): (r: seq<string>)
  {
    if tail == "" then rows else rows + [tail]
  }

  lemma GetLineOfRow(l: string, rest: string)
    requires Free(l, NL)
    ensures GetLine(Opened(l + [NL] + rest)) == (l, Opened(rest))
  {
    var s := l + [NL] + rest;
    var k := FindFrom(s, NL, 0);
    assert s[|l|] == NL;
    assert forall i :: 0 <= i < |l| ==> s[i] == l[i];
    assert k == |l|;
    assert s[..k] == l && s[k+1..] == rest;
  }

  lemma GetLineOfTail(tail: string)
    requires Free(tail, NL)
    ensures GetLine(Opened(tail)) == (tail, Stream("", true, tail == ""))
  {
  }

  function TakenText(rows: seq<string>, tail: string, n: int): (t: Taken)
  {
    if n <= 0 then Taken([], TextOf(rows, tail), false)
    else if n <= |rows| then Taken(rows[..n], TextOf(rows[n..], tail), false)
    else if tail == "" then Taken(rows, Stream("", true, true), true)
    else Taken(rows + [tail], Stream("", true, false), false)
  }

  /** The reading loop on a text of rows, in closed form. */
  lemma {:induction false} TakeOfText(rows: seq<string>, tail: string, n: int)
    requires Rows(rows) && Free(tail, NL)
    ensures Take(TextOf(rows, tail), n) == TakenText(rows, tail, n)
    decreases |rows|
  {
    if n > 0 {
      if rows == [] {
        TakeOfTail(tail, n);
      } else {
        var rest := Frame(rows[1..]) + tail;
        assert Frame(rows) + tail == rows[0] + [NL] + rest;
        GetLineOfRow(rows[0], rest);
        TakeOfText(rows[1..], tail, n - 1);
        TakenTextStep(rows, tail, n);
      }
    }
  }

  lemma TakeOfTail(tail: string, n: int)
    requires Free(tail, NL) && n > 0
    ensures Take(TextOf([], tail), n) == TakenText([], tail, n)
  {
    assert Frame([]) + tail == tail;
    GetLineOfTail(tail);
    assert [tail] + [] == [] + [tail];
  }

  lemma TakenTextStep(rows: seq<string>, tail: string, n: int)
    requires rows != [] && n > 0
    ensures var t := TakenText(rows[1..], tail, n - 1);
            TakenText(rows, tail, n) == Taken([rows[0]] + t.lines, t.after, t.blank)
  {
    if n == 1 {
      assert [rows[0]] + [] == rows[..1];
    } else if n <= |rows| {
      assert [rows[0]] + rows[1..][..n-1] == rows[..n];
      assert rows[1..][n-1..] == rows[n..];
    } else {
      assert [rows[0]] + rows[1..] == rows;
      assert [rows[0]] + (rows[1..] + [tail]) == rows + [tail];
    }
  }

  lemma ReadOfText(rows: seq<string>, tail: string, bs: int)
    requires Rows(rows) && Free(tail, NL)
    ensures var t := TakenText(rows, tail, bs);
            ReadBlock(TextOf(rows, tail), bs) == Block(t.blank ==> t.lines != [], t.lines, t.after)
  {
    TakeOfText(rows, tail, bs);
  }

  lemma {:induction false} EndsOfText(rows: seq<string>, tail: string, bs: int)
    requires Rows(rows) && Free(tail, NL)
    ensures Ends(TextOf(rows, tail), bs) <==> bs >= 1 && tail == ""
    decreases |rows|
  {
    ReadOfText(rows, tail, bs);
    if 1 <= bs <= |rows| {
      EndsOfText(rows[bs..], tail, bs);
    }
  }

  lemma AfterPrimeStep(s: Stream, n: nat, bs: int)
    requires n > 0
    ensures AfterPrime(s, n, bs) == var b := ReadBlock(s, bs); if b.ok then AfterPrime(b.after, n - 1, bs) else b.after
  {
  }

  lemma {:induction false} EndsAfterPrime(rows: seq<string>, tail: string, n: nat, bs: int)
    requires Rows(rows) && Free(tail, NL)
    ensures Ends(AfterPrime(TextOf(rows, tail), n, bs), bs) <==> bs >= 1 && tail == ""
    decreases n
  {
    var s := TextOf(rows, tail);
    if n == 0 {
      assert AfterPrime(s, n, bs) == s;
      EndsOfText(rows, tail, bs);
    } else {
      AfterPrimeStep(s, n, bs);
      ReadOfText(rows, tail, bs);
      if bs <= 0 {
        EndsAfterPrime(rows, tail, n - 1, bs);
      } else if bs <= |rows| {
        EndsAfterPrime(rows[bs..], tail, n - 1, bs);
      } else {
        EndedStays(Stream("", true, tail == ""), n - 1, bs);
        EndedStays(Stream("", true, tail == ""), 0, bs);
      }
    }
  }

  /** Once the end bit is set the stream never moves again. */
  lemma {:induction false} EndedStays(s: Stream, n: nat, bs: int)
    requires s.eof
    ensures AfterPrime(s, n, bs) == s
    ensures Ends(s, bs) <==> s.fail
    ensures MainJobs(s, 0, bs) == []
    decreases n
  {
    if n > 0 && !s.fail {
      EndedStays(s, n - 1, bs);
    }
  }

  /** The exact condition a user can check before starting a run on an input
      without blank lines: the block size is positive, there is at least one
      row, and a newline ends the last row. */
  lemma HaltsExactly(rows: seq<string>, tail: string, n: nat, bs: int)
    requires Rows(rows) && Free(tail, NL) && n >= 1
    ensures Halts(TextOf(rows, tail), n, bs) <==> bs >= 1 && rows != [] && tail == ""
  {
    ReadOfText(rows, tail, bs);
    EndsAfterPrime(rows, tail, n, bs);
  }

  lemma {:induction false} MainCovers(rows: seq<string>, tail: string, id: int, bs: int)
    requires Rows(rows) && Free(tail, NL) && bs >= 1
    ensures AllLines(MainJobs(TextOf(rows, tail), id, bs)) == WithTail(rows, tail)
    decreases |rows|
  {
    ReadOfText(rows, tail, bs);
    var b := ReadBlock(TextOf(rows, tail), bs);
    if bs <= |rows| {
      MainCovers(rows[bs..], tail, id + bs, bs);
      AppendTail(rows, bs, tail);
    } else if b.lines != [] {
      MainOfEnded(b.after, id + |b.lines|, bs);
      assert b.lines + [] == b.lines;
    }
  }

  lemma MainOfEnded(s: Stream, id: int, bs: int)
    requires s.eof
    ensures MainJobs(s, id, bs) == [] && AllLines(MainJobs(s, id, bs)) == []
  {
  }

  lemma {:induction false} PrimeOfEnded(s: Stream, id: int, n: nat, bs: int)
    requires s.eof
    ensures AllLines(PrimeJobs(s, id, n, bs)) == []
    decreases n
  {
    if n == 0 || s.fail {
      MainOfEnded(s, id, bs);
    } else {
      PrimeOfEnded(s, id, n - 1, bs);
      assert PrimeJobs(s, id, n, bs)[1..] == PrimeJobs(s, id, n - 1, bs);
    }
  }

  lemma PrimeCoversLast(rows: seq<string>, tail: string, id: int, n: nat, bs: int)
    requires Rows(rows) && Free(tail, NL) && bs > |rows| && n > 0
    ensures AllLines(PrimeJobs(TextOf(rows, tail), id, n, bs)) == WithTail(rows, tail)
  {
    ReadOfText(rows, tail, bs);
    var b := ReadBlock(TextOf(rows, tail), bs);
    PrimeUnfold(TextOf(rows, tail), id, n, bs);
    assert b.lines == WithTail(rows, tail) && b.after.eof;
    if b.ok {
      PrimeOfEnded(b.after, id + |b.lines|, n - 1, bs);
      assert b.lines + [] == b.lines;
    } else {
      MainOfEnded(b.after, id, bs);
    }
  }

  /** Without blank lines nothing is skipped: the blocks, end to end, are the
      rows of the input in order, for any number of workers. */
  lemma {:induction false} PlanCovers(rows: seq<string>, tail: string, id: int, n: nat, bs: int)
    requires Rows(rows) && Free(tail, NL) && bs >= 1
    ensures AllLines(PrimeJobs(TextOf(rows, tail), id, n, bs)) == WithTail(rows, tail)
    decreases n
  {
    if n == 0 {
      MainCovers(rows, tail, id, bs);
    } else if bs <= |rows| {
      ReadOfText(rows, tail, bs);
      PrimeUnfold(TextOf(rows, tail), id, n, bs);
      PlanCovers(rows[bs..], tail, id + bs, n - 1, bs);
      AppendTail(rows, bs, tail);
    } else {
      PrimeCoversLast(rows, tail, id, n, bs);
    }
  }

  lemma AppendTail(rows: seq<string>, k: nat, tail: string)
    requires k <= |rows|
    ensures rows[..k] + WithTail(rows[k..], tail) == WithTail(rows, tail)
  {
    assert rows[..k] + rows[k..] == rows;
    assert rows[..k] + (rows[k..] + [tail]) == rows + [tail];
  }

  lemma PrimeUnfold(s: Stream, id: int, n: nat, bs: int)
    requires n > 0
    ensures var b := ReadBlock(s, bs);
            AllLines(PrimeJobs(s, id, n, bs)) ==
              if b.ok then b.lines + AllLines(PrimeJobs(b.after, id + |b.lines|, n - 1, bs))
              else AllLines(MainJobs(b.after, id, bs))
  {
    var b := ReadBlock(s, bs);
    if b.ok {
      assert PrimeJobs(s, id, n, bs)[1..] == PrimeJobs(b.after, id + |b.lines|, n - 1, bs);
    }
  }

  lemma {:induction false} NoBlockSizeNoLines(s: Stream, id: int, n: nat, bs: int)
    requires bs <= 0 && !s.fail
    ensures AllLines(PrimeJobs(s, id, n, bs)) == []
    decreases n
  {
    if n > 0 {
      PrimeUnfold(s, id, n, bs);
      NoBlockSizeNoLines(s, id, n - 1, bs);
    }
  }

  /** Whatever the block size, only lines of the input are handed out. */
  lemma PlannedLines(rows: seq<string>, tail: string, n: nat, bs: int, l: string)
    requires Rows(rows) && Free(tail, NL)
    requires l in AllLines(PrimeJobs(TextOf(rows, tail), 0, n, bs))
    ensures l in rows || (l == tail && tail != "")
  {
    if bs >= 1 {
      PlanCovers(rows, tail, 0, n, bs);
    } else {
      NoBlockSizeNoLines(TextOf(rows, tail), 0, n, bs);
    }
  }

  /** A blank line is not always skipped: read first in a block of the
      collecting loop, it ends the run and the rows behind it are lost. */
  lemma BlankLineLosesRows()
    ensures var s := Opened("a\n\nb\n");
            Halts(s, 1, 1) && AllLines(PrimeJobs(s, 0, 1, 1)) == ["a"]
  {
    var s := Opened("a\n\nb\n");
    assert "a\n\nb\n" == "a" + [NL] + "\nb\n";
    GetLineOfRow("a", "\nb\n");
    var s1 := Opened("\nb\n");
    assert "\nb\n" == "" + [NL] + "b\n";
    GetLineOfRow("", "b\n");
    assert Take(s1, 1) == Taken([], Opened("b\n"), true);
    assert ReadBlock(s1, 1) == Block(false, [], Opened("b\n"));
    assert Take(s, 1).lines == ["a"];
    assert ReadBlock(s, 1) == Block(true, ["a"], s1);
    assert PrimeJobs(s, 0, 1, 1)[1..] == PrimeJobs(s1, 1, 0, 1) == [];
    assert ["a"] + [] == ["a"];
  }
}
