/** The input side of the distributed runner: the character stream the master
    reads, std::getline, and the cutting of the stream into framed blocks of
    rows (class Root). */
module CvleInput {
  import opened Common

  const NL := '\n'

  /** A std::istream: the characters not yet extracted and its two state bits. */
  datatype Stream = Stream(rest: string, eof: bool, fail: bool)
  {
    predicate Good() { !eof && !fail }
  }

  function Opened(text: string): (s: Stream)
  {
    Stream(text, false, false)
  }

  /** std::getline on a good stream. Reaching the end sets eofbit; reaching it
      without extracting anything also sets failbit. */
  function GetLine(s: Stream): (r: (string, Stream))
    requires s.Good()
    ensures |r.1.rest| + |r.0| <= |s.rest|
    ensures r.0 != "" ==> !r.1.fail
  {
    var k := FindFrom(s.rest, NL, 0);
    if k < |s.rest| then (s.rest[..k], Stream(s.rest[k+1..], false, false))
    else (s.rest, Stream("", true, s.rest == ""))
  }

  lemma GetLineFree(s: Stream)
    requires s.Good()
    ensures Free(GetLine(s).0, NL)
  {
  }

  /** The lines one call of Root::read collects, the stream it leaves, and
      whether it stopped on an empty line. */
  datatype Taken = Taken(lines: seq<string>, after: Stream, blank: bool)

  function Take(s: Stream, n: int): (t: Taken)
    ensures |t.after.rest| + |t.lines| <= |s.rest|
    ensures !t.blank && !s.fail ==> !t.after.fail
    ensures t.lines == [] && !t.blank ==> t.after == s
    decreases if n < 0 then 0 else n
  {
    if !s.Good() || n <= 0 then Taken([], s, false)
    else
      var (l, s1) := GetLine(s);
      if l == "" then Taken([], s1, true)
      else
        var t := Take(s1, n - 1);
        Taken([l] + t.lines, t.after, t.blank)
  }

  ghost predicate Rows(lines: seq<string>)
  {
    forall i :: 0 <= i < |lines| ==> lines[i] != "" && Free(lines[i], NL)
  }

  lemma {:induction false} TakeRows(s: Stream, n: int)
    ensures Rows(Take(s, n).lines)
    decreases if n < 0 then 0 else n
  {
    if s.Good() && n > 0 {
      GetLineFree(s);
      TakeRows(GetLine(s).1, n - 1);
    }
  }

  /** What Root::read returns: the success flag, the rows of the block and the
      stream afterwards. */
  datatype Block = Block(ok: bool, lines: seq<string>, after: Stream)

  function ReadBlock(s: Stream, blocksize: int): (b: Block)
    ensures |b.after.rest| + |b.lines| <= |s.rest|
    ensures !b.ok ==> b.lines == []
    ensures b.ok && b.lines == [] ==> b.after == s
  {
    if s.fail then Block(false, [], s)
    else
      var t := Take(s, blocksize);
      Block(t.blank ==> t.lines != [], t.lines, t.after)
  }

  /** A block as it travels: every row followed by a newline. */
  function Frame(lines: seq<string>): (text: string)
  {
    if lines == [] then "" else lines[0] + [NL] + Frame(lines[1..])
  }

  lemma {:induction false} FrameAppend(a: seq<string>, b: seq<string>)
    ensures Frame(a + b) == Frame(a) + Frame(b)
  {
    if a == [] {
      assert a + b == b;
    } else {
      FrameAppend(a[1..], b);
      assert (a + b)[1..] == a[1..] + b;
    }
  }

  lemma {:induction false} FrameEmpty(lines: seq<string>)
    ensures Frame(lines) == "" <==> lines == []
  {
  }

  /** The master's reader. `read` hands back its ids through references, so an
      unset id keeps the caller's value. */
  class Root {
    var stream: Stream
    var firstId: int
    var lastId: int
    const blocksize: int

    constructor (input: string, blocksize: int)
      ensures stream == Opened(input) && firstId == 0 && lastId == 0
      ensures this.blocksize == blocksize
    {
      stream := Opened(input);
      firstId, lastId := 0, 0;
      this.blocksize := blocksize;
    }

    /** Reads the header line; the flag is the stream's state afterwards. */
    method Header() returns (header: string, ok: bool)
      requires stream.Good()
      modifies this`stream
      ensures (header, stream) == GetLine(old(stream))
      ensures ok == stream.Good()
    {
      var r := GetLine(stream);
      header, stream := r.0, r.1;
      ok := stream.Good();
    }

    /** Root::read: the block is exactly the framed rows of ReadBlock, and the
        ids delimit the half-open range of the rows it holds. */
    method Read(first0: int, last0: int) returns (ok: bool, block: string, first: int, last: int)
      modifies this`stream, this`firstId, this`lastId
      ensures ok == ReadBlock(old(stream), blocksize).ok
      ensures stream == ReadBlock(old(stream), blocksize).after
      ensures block == Frame(ReadBlock(old(stream), blocksize).lines)
      ensures firstId == old(lastId)
      ensures lastId == old(lastId) + |ReadBlock(old(stream), blocksize).lines|
      ensures if old(stream).fail then first == first0 && last == last0
              else first == firstId && last == lastId
    {
      firstId := lastId;
      var i := 0;
      block := "";
      first, last := first0, last0;
      if stream.fail {
        return false, block, first, last;
      }
      ghost var lines: seq<string> := [];
      ghost var goal := Take(stream, blocksize);
      while stream.Good() && i < blocksize
        invariant i == |lines|
        invariant block == Frame(lines)
        invariant lastId == firstId + i && firstId == old(lastId)
        invariant goal == Prepend(lines, Take(stream, blocksize - i))
        decreases blocksize - i
      {
        TakeUnfold(stream, blocksize - i, lines);
        var r := GetLine(stream);
        var tmp := r.0;
        stream := r.1;
        if tmp != "" {
          lastId := lastId + 1;
          FrameSnoc(lines, tmp);
          block := block + tmp;
          block := block + [NL];
          lines := lines + [tmp];
          i := i + 1;
        } else {
          first, last := firstId, lastId;
          FrameEmpty(lines);
          return block != "", block, first, last;
        }
      }
      assert goal.lines == lines + [];
      assert goal.lines == lines;
      first, last := firstId, lastId;
      ok := true;
    }
  }

  ghost function Prepend(lines: seq<string>, t: Taken): Taken
  {
    Taken(lines + t.lines, t.after, t.blank)
  }

  /** One iteration of the reading loop. */
  lemma TakeUnfold(s: Stream, n: int, lines: seq<string>)
    requires s.Good() && n > 0
    ensures var (l, s1) := GetLine(s);
            Prepend(lines, Take(s, n)) ==
              if l == "" then Taken(lines, s1, true) else Prepend(lines + [l], Take(s1, n - 1))
  {
    var (l, s1) := GetLine(s);
    var t := Take(s1, n - 1);
    assert lines + ([l] + t.lines) == (lines + [l]) + t.lines;
    assert lines + [] == lines;
  }

  lemma FrameSnoc(lines: seq<string>, l: string)
    ensures Frame(lines + [l]) == Frame(lines) + l + [NL]
  {
    FrameAppend(lines, [l]);
    assert Frame([l]) == l + [NL] + Frame([]);
  }
}
