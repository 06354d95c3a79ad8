/** A worker of the distributed runner: unframing a block and running its rows
    one after the other on the same, mutable, memory. */
module CvleWorker {
  import opened Common
  import opened CvleInput

  /** What a worker does with the header and with one row. `open` fails when the
      header names something the experiment does not have; `row` fails when a
      field cannot be converted. Both failures abort the whole program. */
  datatype Machine<!M> = Machine(open: string -> Option<M>, row: (M, string, int) -> Option<(M, string)>)

  ghost predicate Framed(text: string)
  {
    text == "" || text[|text|-1] == NL
  }

  /** Worker::run's cutting of a block at its newlines, from a position on. */
  function UnframeFrom(text: string, begin: nat): (lines: seq<string>)
    requires Framed(text) && begin <= |text|
    decreases |text| - begin
  {
    if begin == |text| then []
    else
      var k := FindFrom(text, NL, begin);
      assert k < |text|;
      [text[begin..k]] + UnframeFrom(text, k + 1)
  }

  function Unframe(text: string): (lines: seq<string>)
    requires Framed(text)
  {
    UnframeFrom(text, 0)
  }

  lemma {:induction false} FrameIsFramed(lines: seq<string>)
    ensures Framed(Frame(lines))
  {
    if lines != [] {
      FrameIsFramed(lines[1..]);
    }
  }

  lemma RowEnd(text: string, begin: nat, l: string)
    requires Free(l, NL) && begin + |l| < |text| && text[begin..begin+|l|] == l && text[begin+|l|] == NL
    ensures FindFrom(text, NL, begin) == begin + |l|
  {
    assert forall i :: begin <= i < begin + |l| ==> text[i] == l[i-begin];
  }

  lemma Slices(text: string, begin: nat, l: string, after: string)
    requires begin <= |text| && text[begin..] == l + [NL] + after
    ensures begin + |l| < |text|
    ensures text[begin..begin+|l|] == l && text[begin+|l|] == NL && text[begin+|l|+1..] == after
  {
    var rest := text[begin..];
    assert text[begin..begin+|l|] == rest[..|l|];
    assert text[begin+|l|] == rest[|l|];
    assert text[begin+|l|+1..] == rest[|l|+1..];
  }

  lemma {:induction false} UnframeSuffix(text: string, begin: nat, lines: seq<string>)
    requires Framed(text) && begin <= |text| && text[begin..] == Frame(lines)
    requires forall i :: 0 <= i < |lines| ==> Free(lines[i], NL)
    ensures UnframeFrom(text, begin) == lines
    decreases |lines|
  {
    if lines != [] {
      Slices(text, begin, lines[0], Frame(lines[1..]));
      RowEnd(text, begin, lines[0]);
      UnframeSuffix(text, begin + |lines[0]| + 1, lines[1..]);
    }
  }

  /** Framing and unframing are inverse on rows that hold no newline, empty rows
      included. */
  lemma UnframeFrame(lines: seq<string>)
    requires forall i :: 0 <= i < |lines| ==> Free(lines[i], NL)
    ensures Framed(Frame(lines)) && Unframe(Frame(lines)) == lines
  {
    FrameIsFramed(lines);
    var text := Frame(lines);
    assert text[0..] == text;
    UnframeSuffix(text, 0, lines);
  }

  /** The rows of a block, run in order with consecutive identifiers. */
  function RunRows<M>(mach: Machine<M>, m: M, lines: seq<string>, first: int): (r: Option<(M, string)>)
    decreases |lines|
  {
    if lines == [] then Some((m, ""))
    else
      match mach.row(m, lines[0], first)
      case None => None
      case Some(p) =>
        match RunRows(mach, p.0, lines[1..], first + 1)
        case None => None
        case Some(q) => Some((q.0, p.1 + q.1))
  }

  /** The memory is harmless for the rows of `lines`: from every memory in `ok`,
      a row succeeds, stays in `ok`, and writes what it would have written from
      the memory `m0` the header gave. */
  ghost predicate HistoryFree<M(!new)>(mach: Machine<M>, m0: M, ok: M -> bool, lines: seq<string>)
  {
    && ok(m0)
    && forall m, l, id ::
         ok(m) && l in lines ==>
         && mach.row(m, l, id).Some?
         && ok(mach.row(m, l, id).value.0)
         && mach.row(m0, l, id).Some?
         && mach.row(m, l, id).value.1 == mach.row(m0, l, id).value.1
  }

  /** One row run alone, on the memory the header gave. */
  function RowText<M>(mach: Machine<M>, m0: M, l: string, id: int): (text: string)
  {
    match mach.row(m0, l, id)
    case None => ""
    case Some(p) => p.1
  }

  /** The sequential reference: every row on a fresh memory, in input order. */
  function Sequential<M>(mach: Machine<M>, m0: M, lines: seq<string>, first: int): (text: string)
  {
    if lines == [] then "" else RowText(mach, m0, lines[0], first) + Sequential(mach, m0, lines[1..], first + 1)
  }

  /** Running a block on a used memory writes the sequential text of its rows. */
  lemma {:induction false} RunRowsIsSequential<M(!new)>(mach: Machine<M>, m0: M, ok: M -> bool, all: seq<string>,
                                                        m: M, lines: seq<string>, first: int)
    requires HistoryFree(mach, m0, ok, all) && ok(m)
    requires forall i :: 0 <= i < |lines| ==> lines[i] in all
    ensures RunRows(mach, m, lines, first).Some?
    ensures ok(RunRows(mach, m, lines, first).value.0)
    ensures RunRows(mach, m, lines, first).value.1 == Sequential(mach, m0, lines, first)
    decreases |lines|
  {
    if lines != [] {
      assert lines[0] in all;
      var p := mach.row(m, lines[0], first).value;
      RunRowsIsSequential(mach, m0, ok, all, p.0, lines[1..], first + 1);
    }
  }

  lemma {:induction false} SequentialAppend<M>(mach: Machine<M>, m0: M, a: seq<string>, b: seq<string>, first: int)
    ensures Sequential(mach, m0, a + b, first) ==
            Sequential(mach, m0, a, first) + Sequential(mach, m0, b, first + |a|)
    decreases |a|
  {
    if a == [] {
      assert a + b == b;
    } else {
      SequentialAppend(mach, m0, a[1..], b, first + 1);
      assert (a + b)[1..] == a[1..] + b;
    }
  }

  /** The sequential reference, row by row: the k-th row runs alone under the
      k-th number. */
  lemma {:induction false} SequentialRows<M>(mach: Machine<M>, m0: M, lines: seq<string>, first: int,
                                              parts: seq<string>)
    requires |parts| == |lines| && forall k :: 0 <= k < |lines| ==> parts[k] == RowText(mach, m0, lines[k], first + k)
    ensures Sequential(mach, m0, lines, first) == Flatten(parts)
    decreases |lines|
  {
    if lines != [] {
      SequentialRows(mach, m0, lines[1..], first + 1, parts[1..]);
    }
  }

  /** The worker process, once the header has opened its memory. */
  class Worker<M(0)> {
    var memory: M
    const mach: Machine<M>

    constructor (mach: Machine<M>, m0: M)
      ensures this.mach == mach && memory == m0
    {
      this.mach := mach;
      memory := m0;
    }

    /** Worker::run: scans the block with two indices and runs every row it
        delimits, threading the memory and accumulating the result text. */
    method Run(block: string, first0: int) returns (result: Option<string>)
      requires Framed(block)
      modifies this`memory
      ensures var r := RunRows(mach, old(memory), Unframe(block), first0);
              if r.Some? then result == Some(r.value.1) && memory == r.value.0 else result == None
    {
      var text, first, begin := "", first0, 0;
      var end := FindFrom(block, NL, 0);
      ghost var rest := Unframe(block);
      ghost var goal := RunRows(mach, memory, rest, first0);
      ResumeLaws("", "", goal);
      while begin < |block|
        invariant 0 <= begin <= |block| && rest == UnframeFrom(block, begin)
        invariant begin < |block| ==> end == FindFrom(block, NL, begin)
        invariant goal == Resume(text, RunRows(mach, memory, rest, first))
        decreases |block| - begin
      {
        UnframeStep(block, begin, end);
        RunStep(mach, memory, rest, first, text);
        var r := mach.row(memory, block[begin..end], first);
        if r == None {
          return None;
        }
        memory, text := r.value.0, text + r.value.1;
        first, begin := first + 1, end + 1;
        end := FindFrom(block, NL, begin);
        rest := rest[1..];
      }
      assert rest == [];
      ResumeDone(mach, memory, first, text);
      result := Some(text);
    }
  }

  lemma UnframeStep(block: string, begin: nat, end: nat)
    requires Framed(block) && begin < |block| && end == FindFrom(block, NL, begin)
    ensures end < |block| && UnframeFrom(block, begin) != []
    ensures UnframeFrom(block, begin)[0] == block[begin..end]
    ensures UnframeFrom(block, begin)[1..] == UnframeFrom(block, end + 1)
  {
  }

  lemma ResumeDone<M>(mach: Machine<M>, m: M, first: int, text: string)
    ensures Resume(text, RunRows(mach, m, [], first)) == Some((m, text))
  {
    assert text + "" == text;
  }

  lemma RunStep<M>(mach: Machine<M>, m: M, lines: seq<string>, first: int, text: string)
    requires lines != []
    ensures var r := mach.row(m, lines[0], first);
            Resume(text, RunRows(mach, m, lines, first)) ==
              if r == None then None
              else Resume(text + r.value.1, RunRows(mach, r.value.0, lines[1..], first + 1))
  {
    var r := mach.row(m, lines[0], first);
    if r.Some? {
      ResumeLaws(text, r.value.1, RunRows(mach, r.value.0, lines[1..], first + 1));
    }
  }

  ghost function Resume<M>(text: string, r: Option<(M, string)>): Option<(M, string)>
  {
    match r
    case None => None
    case Some(p) => Some((p.0, text + p.1))
  }

  lemma ResumeLaws<M>(t: string, u: string, r: Option<(M, string)>)
    ensures Resume("", r) == r
    ensures Resume(t, Resume(u, r)) == Resume(t + u, r)
  {
    if r.Some? {
      assert "" + r.value.1 == r.value.1;
      assert t + (u + r.value.1) == (t + u) + r.value.1;
    }
  }
}
