/** Cutting text at a separator and putting it together again. */
module Text {

  function Attach(c: char, pieces: seq<string>): seq<string>
    requires |pieces| >= 1
  {
    [[c] + pieces[0]] + pieces[1..]
  }

  /** The pieces between separators; text without one is a single piece. */
  function Split(s: string, sep: char): (pieces: seq<string>)
    ensures |pieces| >= 1
    ensures forall i :: 0 <= i < |pieces| ==> sep !in pieces[i]
  {
    if s == "" then [""]
    else
      var rest := Split(s[1..], sep);
      if s[0] == sep then [""] + rest else Attach(s[0], rest)
  }

  function Join(pieces: seq<string>, glue: string): string {
    if pieces == [] then ""
    else if |pieces| == 1 then pieces[0]
    else pieces[0] + glue + Join(pieces[1..], glue)
  }

  predicate AllFree(pieces: seq<string>, c: char) {
    forall i :: 0 <= i < |pieces| ==> c !in pieces[i]
  }

  function Last(pieces: seq<string>): string
    requires |pieces| >= 1
  {
    pieces[|pieces| - 1]
  }

  function ButLast(pieces: seq<string>): seq<string>
    requires |pieces| >= 1
  {
    pieces[..|pieces| - 1]
  }

  /** The pieces of two texts put side by side: the ones at the seam become one. */
  function Seam(x: seq<string>, y: seq<string>): seq<string>
    requires |x| >= 1 && |y| >= 1
  {
    ButLast(x) + [Last(x) + y[0]] + y[1..]
  }

  lemma SeamEmpty(y: seq<string>)
    requires |y| >= 1
    ensures Seam([""], y) == y
  {
    assert "" + y[0] == y[0];
    assert y == [y[0]] + y[1..];
  }

  lemma SeamPush(x: seq<string>, y: seq<string>)
    requires |x| >= 1 && |y| >= 1
    ensures Seam([""] + x, y) == [""] + Seam(x, y)
  {
    assert ButLast([""] + x) == [""] + ButLast(x);
  }

  lemma SeamAttach(c: char, x: seq<string>, y: seq<string>)
    requires |x| >= 1 && |y| >= 1
    ensures Seam(Attach(c, x), y) == Attach(c, Seam(x, y))
  {
    if |x| == 1 {
      assert ([c] + x[0]) + y[0] == [c] + (x[0] + y[0]);
    } else {
      assert ButLast(Attach(c, x)) == Attach(c, ButLast(x));
    }
  }

  lemma {:induction false} SplitAppend(a: string, b: string, sep: char)
    ensures Split(a + b, sep) == Seam(Split(a, sep), Split(b, sep))
  {
    var y := Split(b, sep);
    if a == "" {
      assert a + b == b;
      SeamEmpty(y);
    } else {
      SplitAppend(a[1..], b, sep);
      assert (a + b)[0] == a[0] && (a + b)[1..] == a[1..] + b;
      SeamPush(Split(a[1..], sep), y);
      SeamAttach(a[0], Split(a[1..], sep), y);
    }
  }

  lemma SplitLone(sep: char)
    ensures Split([sep], sep) == ["", ""]
  {
    var rest: string := [sep][1..];
    assert rest == "" && Split(rest, sep) == [""];
  }

  lemma SeamLone(x: seq<string>)
    requires |x| >= 1
    ensures Seam(x, ["", ""]) == x + [""]
  {
    var y := ["", ""];
    assert Last(x) + y[0] == Last(x) && y[1..] == [""];
    assert ButLast(x) + [Last(x)] == x;
  }

  lemma {:induction false} SplitFree(s: string, sep: char)
    requires sep !in s
    ensures Split(s, sep) == [s]
  {
    if s != "" {
      SplitFree(s[1..], sep);
      assert [s[0]] + s[1..] == s;
    }
  }

  /** Cutting off the first line. */
  lemma SplitFirst(line: string, rest: string, sep: char)
    requires sep !in line
    ensures Split(line + [sep] + rest, sep) == [line] + Split(rest, sep)
  {
    SplitAppend(line, [sep] + rest, sep);
    SplitFree(line, sep);
    assert line + [sep] + rest == line + ([sep] + rest);
    assert ([sep] + rest)[0] == sep && ([sep] + rest)[1..] == rest;
    assert Split([sep] + rest, sep) == [""] + Split(rest, sep);
    assert line + "" == line;
  }

  /** Joining pieces and cutting the result again gives the pieces back. */
  lemma {:induction false} SplitJoin(pieces: seq<string>, sep: char)
    requires |pieces| >= 1 && AllFree(pieces, sep)
    ensures Split(Join(pieces, [sep]), sep) == pieces
  {
    if |pieces| == 1 {
      SplitFree(pieces[0], sep);
    } else {
      SplitJoin(pieces[1..], sep);
      SplitFirst(pieces[0], Join(pieces[1..], [sep]), sep);
      assert pieces == [pieces[0]] + pieces[1..];
    }
  }
}
