/** The writer that turns a stream of bytes, written in any pieces, into one log entry per line. */
module LineWriter {
  import opened Bytes
  import opened Text

  /** `buf` is the tail still without a line break, `logged` the entries so far. */
  datatype State = State(buf: string, logged: seq<string>)

  function Write(s: State, p: string): State {
    var lines := Split(s.buf + p, '\n');
    State(Last(lines), s.logged + ButLast(lines))
  }

  function Flush(s: State): State {
    if s.buf == "" then s else State("", s.logged + [s.buf])
  }

  function WriteAll(s: State, chunks: seq<string>): State
    decreases |chunks|
  {
    if chunks == [] then s else WriteAll(Write(s, chunks[0]), chunks[1..])
  }

  lemma WriteTwice(s: State, a: string, b: string)
    ensures Write(Write(s, a), b) == Write(s, a + b)
  {
    var x, y := Split(s.buf + a, '\n'), Split(b, '\n');
    SplitAppend(s.buf + a, b, '\n');
    assert s.buf + (a + b) == (s.buf + a) + b;
    SplitFree(Last(x), '\n');
    SplitAppend(Last(x), b, '\n');
    SeamLast(x, y);
    Associates(s.logged, ButLast(x), ButLast(Seam([Last(x)], y)));
  }

  lemma Associates(a: seq<string>, b: seq<string>, c: seq<string>)
    ensures (a + b) + c == a + (b + c)
  {
  }

  lemma SeamLast(x: seq<string>, y: seq<string>)
    requires |x| >= 1 && |y| >= 1
    ensures Last(Seam(x, y)) == Last(Seam([Last(x)], y))
    ensures ButLast(Seam(x, y)) == ButLast(x) + ButLast(Seam([Last(x)], y))
  {
    var z := [Last(x) + y[0]] + y[1..];
    assert Seam([Last(x)], y) == z;
    assert Seam(x, y) == ButLast(x) + z;
  }

  /** However the stream is cut into writes, the entries are its complete lines and the tail waits:
      the same as one write of the whole stream. */
  lemma {:induction false} ChunksDoNotMatter(s: State, chunks: seq<string>)
    requires '\n' !in s.buf
    ensures WriteAll(s, chunks) == Write(s, Concat(chunks))
    decreases |chunks|
  {
    if chunks == [] {
      assert s.buf + "" == s.buf;
      SplitFree(s.buf, '\n');
    } else {
      ChunksDoNotMatter(Write(s, chunks[0]), chunks[1..]);
      WriteTwice(s, chunks[0], Concat(chunks[1..]));
    }
  }

  /** The lines of a text; a line break at its end starts no further line. */
  function LinesOf(text: string): seq<string> {
    var lines := Split(text, '\n');
    if Last(lines) == "" then ButLast(lines) else lines
  }

  /** Flushed at the end, every line of the stream has been logged once, in order, an empty last
      line excepted, and nothing waits any more. */
  lemma FlushedLinesAreTheSplit(chunks: seq<string>)
    ensures Flush(WriteAll(State("", []), chunks)) == State("", LinesOf(Concat(chunks)))
  {
    var start := State("", []);
    var all := Concat(chunks);
    ChunksDoNotMatter(start, chunks);
    WriteFresh(all);
    Whole(Split(all, '\n'));
  }

  lemma WriteFresh(p: string)
    ensures Write(State("", []), p) == State(Last(Split(p, '\n')), ButLast(Split(p, '\n')))
  {
    assert "" + p == p;
    var lines := ButLast(Split(p, '\n'));
    assert [] + lines == lines;
  }

  lemma Whole(lines: seq<string>)
    requires |lines| >= 1
    ensures ButLast(lines) + [Last(lines)] == lines
  {
  }

  /** The bytes up to and including the first line break; without one, all of them. */
  method ReadString(buf: string) returns (line: string, rest: string, found: bool)
    ensures buf == line + rest
    ensures found ==> line != "" && line[|line| - 1] == '\n' && '\n' !in line[..|line| - 1]
    ensures !found ==> '\n' !in line && rest == ""
  {
    var i := 0;
    while i < |buf| && buf[i] != '\n'
      invariant 0 <= i <= |buf| && '\n' !in buf[..i]
    {
      i := i + 1;
    }
    found := i < |buf|;
    line, rest := if found then buf[..i + 1] else buf, if found then buf[i + 1..] else "";
    if found {
      assert line[..|line| - 1] == buf[..i];
    } else {
      assert buf == buf[..i] && line + rest == buf;
    }
  }

  class Writer {
    var buf: string
    var logged: seq<string>

    constructor ()
      ensures Value() == State("", [])
    {
      buf, logged := "", [];
    }

    function Value(): State
      reads this
    {
      State(buf, logged)
    }

    method WriteChunk(p: string) returns (n: nat)
      modifies this
      ensures Value() == Write(old(Value()), p)
      ensures n == |p| && '\n' !in buf
    {
      buf := buf + p;
      assert buf + "" == buf;
      var more := true;
      while more
        invariant more ==> Write(old(Value()), p) == Write(Value(), "")
        invariant !more ==> '\n' !in buf && Value() == Write(old(Value()), p)
        decreases more, |buf|
      {
        assert buf + "" == buf;
        ghost var before := Value();
        var line, rest, found := ReadString(buf);
        if found {
          var text := line[..|line| - 1];
          assert before.buf == text + ['\n'] + rest;
          SplitFirst(text, rest, '\n');
          logged := logged + [text];
          buf := rest;
          assert rest + "" == rest;
          FirstLineOut(before, text, rest);
        } else {
          buf := rest + line;
          assert buf == line == before.buf;
          SplitFree(line, '\n');
          more := false;
        }
      }
      n := |p|;
    }

    /** After writes of any chunks, every line of the whole stream has now been logged once. */
    method FlushTail()
      modifies this
      ensures Value() == Flush(old(Value()))
      ensures forall chunks :: old(Value()) == WriteAll(State("", []), chunks) ==>
              buf == "" && logged == LinesOf(Concat(chunks))
    {
      forall chunks | Value() == WriteAll(State("", []), chunks)
        ensures Flush(Value()) == State("", LinesOf(Concat(chunks)))
      {
        FlushedLinesAreTheSplit(chunks);
      }
      if |buf| == 0 {
        return;
      }
      logged := logged + [buf];
      buf := "";
    }
  }

  lemma FirstLineOut(s: State, line: string, rest: string)
    requires Split(s.buf, '\n') == [line] + Split(rest, '\n')
    ensures Write(s, "") == Write(State(rest, s.logged + [line]), "")
  {
    assert s.buf + "" == s.buf && rest + "" == rest;
    var y := Split(rest, '\n');
    assert ButLast([line] + y) == [line] + ButLast(y) && Last([line] + y) == Last(y);
  }
}
