/** Keeping marked blocks in files the user also edits. */
module StringMerge {

  predicate At(s: string, m: string, k: int) {
    0 <= k && k + |m| <= |s| && s[k..k + |m|] == m
  }

  predicate Contains(s: string, m: string) {
    Index(s, m) >= 0
  }

  function IndexFrom(s: string, m: string, from: nat): (r: int)
    requires from <= |s|
    requires forall k :: 0 <= k < from ==> !At(s, m, k)
    ensures -1 <= r
    ensures r >= 0 ==> At(s, m, r) && forall k :: 0 <= k < r ==> !At(s, m, k)
    ensures r < 0 ==> forall k :: !At(s, m, k)
    decreases |s| - from
  {
    if from + |m| > |s| then -1
    else if s[from..from + |m|] == m then from
    else if from == |s| then -1
    else IndexFrom(s, m, from + 1)
  }

  /** The first position of `m` in `s`, or -1. */
  function Index(s: string, m: string): (r: int)
    ensures -1 <= r
    ensures r >= 0 ==> At(s, m, r) && forall k :: 0 <= k < r ==> !At(s, m, k)
    ensures r < 0 ==> forall k :: !At(s, m, k)
  {
    IndexFrom(s, m, 0)
  }

  datatype Markers = Markers(start: string, end: string)

  predicate NewlineFree(s: string) {
    '\n' !in s
  }

  /** What the callers' markers have in common. */
  predicate Proper(m: Markers) {
    NewlineFree(m.start) && NewlineFree(m.end) && !Contains(m.start, m.end)
  }

  predicate Present(s: string, m: Markers) {
    Index(s, m.start) > -1 && Index(s, m.end) > -1 && Index(s, m.start) < Index(s, m.end)
  }

  function FullBlock(m: Markers, c: string): string {
    m.start + "\n" + c + "\n" + m.end + "\n"
  }

  function ChangeContentInBlock(s: string, m: Markers, c: string): string {
    if |s| < 1 then FullBlock(m, c)
    else if Present(s, m) then
      assert At(s, m.start, Index(s, m.start));
      s[..Index(s, m.start)] + m.start + "\n" + c + "\n" + s[Index(s, m.end)..]
    else s + "\n" + FullBlock(m, c)
  }

  // ----- occurrences in text with a newline in it --------------------------------------------

  lemma NoNewlineInside(s: string, m: string, k: int, p: int)
    requires NewlineFree(m) && At(s, m, k) && k <= p < k + |m|
    ensures s[p] != '\n'
  {
    assert s[k..k + |m|][p - k] == s[p];
  }

  lemma AcrossNewline(a: string, b: string, m: string, k: int)
    requires NewlineFree(m) && m != ""
    ensures At(a + "\n" + b, m, k) <==> At(a, m, k) || At(b, m, k - |a| - 1)
  {
    var s := a + "\n" + b;
    assert s[|a|] == '\n';
    if At(s, m, k) {
      if k > |a| {
        assert s[k..k + |m|] == b[k - |a| - 1..k - |a| - 1 + |m|];
      } else if k + |m| <= |a| {
        assert s[k..k + |m|] == a[k..k + |m|];
      } else {
        NoNewlineInside(s, m, k, |a|);
      }
    }
    if At(a, m, k) {
      assert s[k..k + |m|] == a[k..k + |m|];
    }
    if At(b, m, k - |a| - 1) {
      assert s[k..k + |m|] == b[k - |a| - 1..k - |a| - 1 + |m|];
    }
  }

  /** Text, a line break, a block's content, a line break, and the rest. */
  function Around(p: string, c: string, q: string): string {
    p + "\n" + c + "\n" + q
  }

  lemma InAround(p: string, c: string, q: string, m: string, k: int)
    requires NewlineFree(m) && m != ""
    ensures At(Around(p, c, q), m, k) <==> At(p, m, k) || At(c, m, k - |p| - 1) || At(q, m, k - |p| - |c| - 2)
  {
    AcrossNewline(p + "\n" + c, q, m, k);
    AcrossNewline(p, c, m, k);
  }

  lemma InPrefix(s: string, n: nat, m: string, k: int)
    requires n <= |s|
    ensures At(s[..n], m, k) <==> At(s, m, k) && k + |m| <= n
  {
    if 0 <= k && k + |m| <= n {
      assert s[..n][k..k + |m|] == s[k..k + |m|];
    }
  }

  lemma InSuffix(s: string, n: nat, m: string, k: int)
    requires n <= |s|
    ensures At(s[n..], m, k) <==> 0 <= k && At(s, m, k + n)
  {
    if 0 <= k && k + n + |m| <= |s| {
      assert s[n..][k..k + |m|] == s[k + n..k + n + |m|];
    }
  }

  // ----- one block ---------------------------------------------------------------------------

  /** All that comes before the content of the block, the start marker included. */
  function Before(s: string, m: Markers): string {
    if |s| < 1 then m.start
    else if Present(s, m) then
      assert At(s, m.start, Index(s, m.start));
      s[..Index(s, m.start) + |m.start|]
    else s + "\n" + m.start
  }

  /** All that comes after the content, from the end marker on. */
  function After(s: string, m: Markers): string {
    if |s| >= 1 && Present(s, m) then s[Index(s, m.end)..] else m.end + "\n"
  }

  lemma MergeIsAround(s: string, m: Markers, c: string)
    ensures ChangeContentInBlock(s, m, c) == Around(Before(s, m), c, After(s, m))
  {
    if |s| >= 1 && Present(s, m) {
      var i, j := Index(s, m.start), Index(s, m.end);
      assert At(s, m.start, i);
      assert s[..i + |m.start|] == s[..i] + m.start;
      assert ChangeContentInBlock(s, m, c) == Around(s[..i] + m.start, c, s[j..]);
    } else if |s| >= 1 {
      assert ChangeContentInBlock(s, m, c) == Around(s + "\n" + m.start, c, m.end + "\n");
    } else {
      assert ChangeContentInBlock(s, m, c) == Around(m.start, c, m.end + "\n");
    }
  }

  /** The file holds the block in order, or nothing of it at all. */
  predicate Settled(s: string, m: Markers) {
    |s| < 1 || Present(s, m) || (!Contains(s, m.start) && !Contains(s, m.end))
  }

  lemma AroundParts(p: string, c: string, q: string)
    ensures var r := Around(p, c, q);
            |r| == |p| + |c| + |q| + 2 && r[..|p|] == p && r[|p| + |c| + 2..] == q
  {
  }

  lemma IndexIs(s: string, m: string, at: nat)
    requires At(s, m, at) && forall k :: 0 <= k < at ==> !At(s, m, k)
    ensures Index(s, m) == at
  {
  }

  lemma FirstInside(s: string, t: string, x: string)
    requires NewlineFree(x)
    ensures Contains(s, x) ==> Index(s + "\n" + t, x) == Index(s, x)
    ensures !Contains(s, x) ==> Index(s + "\n" + t, x) < 0 || Index(s + "\n" + t, x) > |s|
  {
    var r := s + "\n" + t;
    if x == "" {
      assert At(s, x, 0) && At(r, x, 0);
    } else {
      AcrossNewline(s, t, x, Index(r, x));
      AcrossNewline(s, t, x, Index(s, x));
    }
  }

  lemma SamePrefixSameIndex(s: string, r: string, n: nat, m: string)
    requires n <= |s| && n <= |r| && s[..n] == r[..n]
    requires 0 <= Index(s, m) && Index(s, m) + |m| <= n
    ensures Index(r, m) == Index(s, m)
  {
    InPrefix(s, n, m, Index(s, m));
    InPrefix(r, n, m, Index(s, m));
    forall k | 0 <= k < Index(s, m)
      ensures !At(r, m, k)
    {
      InPrefix(s, n, m, k);
      InPrefix(r, n, m, k);
    }
    IndexIs(r, m, Index(s, m));
  }

  lemma FirstStart(s: string, m: Markers, c: string)
    requires Proper(m) && Settled(s, m)
    ensures Index(ChangeContentInBlock(s, m, c), m.start) == |Before(s, m)| - |m.start|
  {
    var r := ChangeContentInBlock(s, m, c);
    MergeIsAround(s, m, c);
    AroundParts(Before(s, m), c, After(s, m));
    if |s| < 1 {
      assert At(r, m.start, 0);
    } else if Present(s, m) {
      SamePrefixSameIndex(s, r, |Before(s, m)|, m.start);
    } else {
      FirstInside(s, FullBlock(m, c), m.start);
      InPrefix(r, |s| + 1 + |m.start|, m.start, |s| + 1);
      assert Before(s, m)[|s| + 1..] == m.start;
    }
  }

  lemma EndIsNotEmpty(m: Markers)
    requires Proper(m)
    ensures m.end != ""
  {
    assert m.end == "" ==> At(m.start, m.end, 0);
  }

  lemma EndOpensAfter(s: string, m: Markers)
    ensures At(After(s, m), m.end, 0)
  {
    if |s| >= 1 && Present(s, m) {
      InSuffix(s, Index(s, m.end), m.end, 0);
    } else {
      assert (m.end + "\n")[..|m.end|] == m.end;
    }
  }

  lemma FirstEnd(s: string, m: Markers, c: string)
    requires Proper(m) && Settled(s, m) && !Contains(c, m.end)
    ensures Index(ChangeContentInBlock(s, m, c), m.end) == |Before(s, m)| + |c| + 2
  {
    var p, q := Before(s, m), After(s, m);
    var at := |p| + |c| + 2;
    MergeIsAround(s, m, c);
    EndIsNotEmpty(m);
    EndOpensAfter(s, m);
    InAround(p, c, q, m.end, at);
    forall k | 0 <= k < at
      ensures !At(Around(p, c, q), m.end, k)
    {
      InAround(p, c, q, m.end, k);
      NoEndBefore(s, m, k);
    }
  }

  lemma NoEndBefore(s: string, m: Markers, k: int)
    requires Proper(m) && Settled(s, m)
    ensures !At(Before(s, m), m.end, k)
  {
    EndIsNotEmpty(m);
    if |s| >= 1 && Present(s, m) {
      var i := Index(s, m.start);
      InPrefix(s, i + |m.start|, m.end, k);
      InSuffix(s[..i + |m.start|], i, m.end, k - i);
      assert s[..i + |m.start|][i..] == m.start;
    } else if |s| >= 1 {
      AcrossNewline(s, m.start, m.end, k);
    }
  }

  /** After a merge the block is there, and everything outside its content is as it was. */
  lemma OutsideSurvives(s: string, m: Markers, c: string)
    requires Proper(m) && Settled(s, m) && !Contains(c, m.end)
    ensures var r := ChangeContentInBlock(s, m, c);
            Present(r, m) && Before(r, m) == Before(s, m) && After(r, m) == After(s, m)
  {
    hide ChangeContentInBlock, Contains;
    FirstStart(s, m, c);
    FirstEnd(s, m, c);
    MergeIsAround(s, m, c);
    AroundParts(Before(s, m), c, After(s, m));
  }

  /** Only the start marker: the block is appended, and the next merge takes everything from the
      old marker to the new end marker for its content. */
  lemma LoneStartSwallowsText(s: string, m: Markers, c1: string, c2: string)
    requires Proper(m) && Contains(s, m.start) && !Contains(s, m.end) && !Contains(c1, m.end) && |s| >= 1
    ensures ChangeContentInBlock(ChangeContentInBlock(s, m, c1), m, c2)
            == Around(s[..Index(s, m.start)] + m.start, c2, m.end + "\n")
  {
    var p, q := s + "\n" + m.start, m.end + "\n";
    var r := ChangeContentInBlock(s, m, c1);
    MergeIsAround(s, m, c1);
    AroundParts(p, c1, q);
    FirstInside(s, FullBlock(m, c1), m.start);
    AppendedEnd(s, m, c1);
    var i := Index(s, m.start);
    assert r[..i] == p[..i] == s[..i];
    assert Present(r, m) && r[Index(r, m.end)..] == q;
  }

  lemma AppendedEnd(s: string, m: Markers, c: string)
    requires Proper(m) && !Contains(s, m.end) && !Contains(c, m.end)
    ensures Index(Around(s + "\n" + m.start, c, m.end + "\n"), m.end) == |s| + 1 + |m.start| + |c| + 2
  {
    var p, q := s + "\n" + m.start, m.end + "\n";
    var at := |p| + |c| + 2;
    EndIsNotEmpty(m);
    assert q[..|m.end|] == m.end;
    InAround(p, c, q, m.end, at);
    forall k | 0 <= k < at
      ensures !At(Around(p, c, q), m.end, k)
    {
      InAround(p, c, q, m.end, k);
      AcrossNewline(s, m.start, m.end, k);
    }
    IndexIs(Around(p, c, q), m.end, at);
  }

  /** The end marker first: every merge appends another block. */
  lemma EndFirstAppendsAgain(s: string, m: Markers, c1: string, c2: string)
    requires Proper(m) && Contains(s, m.end) && !Present(s, m) && |s| >= 1
    ensures ChangeContentInBlock(ChangeContentInBlock(s, m, c1), m, c2)
            == s + "\n" + FullBlock(m, c1) + "\n" + FullBlock(m, c2)
  {
    FirstInside(s, FullBlock(m, c1), m.start);
    FirstInside(s, FullBlock(m, c1), m.end);
  }

  /** Writing a block twice is writing the second one: exactly when the file held the block in
      order or none of it. */
  lemma AbsorbsIffSettled(s: string, m: Markers, c1: string, c2: string)
    requires Proper(m) && !Contains(c1, m.end)
    ensures ChangeContentInBlock(ChangeContentInBlock(s, m, c1), m, c2) == ChangeContentInBlock(s, m, c2)
            <==> Settled(s, m)
  {
    if Settled(s, m) {
      OutsideSurvives(s, m, c1);
      MergeIsAround(s, m, c2);
      MergeIsAround(ChangeContentInBlock(s, m, c1), m, c2);
    } else if Contains(s, m.end) {
      EndFirstAppendsAgain(s, m, c1, c2);
      assert |s + "\n" + FullBlock(m, c1) + "\n" + FullBlock(m, c2)| > |s + "\n" + FullBlock(m, c2)|;
    } else {
      LoneStartSwallowsText(s, m, c1, c2);
      assert |Around(s[..Index(s, m.start)] + m.start, c2, m.end + "\n")| < |s + "\n" + FullBlock(m, c2)|;
    }
  }

  // ----- two blocks --------------------------------------------------------------------------

  /** The block as a reader finds it: from its start marker up to its end marker. */
  function Block(s: string, m: Markers): (b: string)
    requires Present(s, m)
  {
    assert At(s, m.end, Index(s, m.end));
    s[Index(s, m.start)..Index(s, m.end)]
  }

  /** All of the first block comes before the second. */
  predicate Precedes(s: string, a: Markers, b: Markers) {
    Present(s, a) && Present(s, b) && Index(s, a.end) + |a.end| <= Index(s, b.start)
  }

  predicate Disjoint(s: string, a: Markers, b: Markers) {
    Precedes(s, a, b) || Precedes(s, b, a)
  }

  lemma BeforeEndsEarly(s: string, m: Markers)
    requires Proper(m) && Present(s, m)
    ensures |Before(s, m)| <= Index(s, m.end) + |m.end|
  {
    NoEndBefore(s, m, Index(s, m.end));
    InPrefix(s, |Before(s, m)|, m.end, Index(s, m.end));
  }

  /** A marker that comes after a replaced stretch moves with the text behind it. */
  lemma MarkerMoves(s: string, i: nat, j: nat, c: string, x: string)
    requires i <= |s| && j <= |s| && NewlineFree(x) && x != "" && !Contains(c, x)
    requires Index(s, x) >= j && Index(s, x) + |x| > i
    ensures Index(Around(s[..i], c, s[j..]), x) == Index(s, x) + i + |c| + 2 - j
  {
    var p, q := s[..i], s[j..];
    var at := Index(s, x) + i + |c| + 2 - j;
    InSuffix(s, j, x, Index(s, x) - j);
    InAround(p, c, q, x, at);
    forall k | 0 <= k < at
      ensures !At(Around(p, c, q), x, k)
    {
      InAround(p, c, q, x, k);
      InPrefix(s, i, x, k);
      InSuffix(s, j, x, k - i - |c| - 2);
    }
    IndexIs(Around(p, c, q), x, at);
  }

  lemma LaterMarkerMoves(s: string, a: Markers, c: string, x: string)
    requires Proper(a) && Present(s, a) && NewlineFree(x) && x != "" && !Contains(c, x)
    requires Index(s, x) >= Index(s, a.end) + |a.end|
    ensures Index(ChangeContentInBlock(s, a, c), x) == Index(s, x) + |Before(s, a)| + |c| + 2 - Index(s, a.end)
  {
    hide ChangeContentInBlock;
    MergeIsAround(s, a, c);
    BeforeEndsEarly(s, a);
    MarkerMoves(s, |Before(s, a)|, Index(s, a.end), c, x);
  }

  /** A marker before the block stays where it is. */
  lemma EarlierMarkerStays(s: string, a: Markers, c: string, x: string)
    requires Present(s, a) && Contains(s, x) && Index(s, x) + |x| <= Index(s, a.start)
    ensures Index(ChangeContentInBlock(s, a, c), x) == Index(s, x)
  {
    var i := Index(s, a.start);
    var r := ChangeContentInBlock(s, a, c);
    assert r[..i] == s[..i];
    SamePrefixSameIndex(s, r, i, x);
  }

  lemma SliceOfSuffix(r: string, n: nat, s: string, j: nat, from: nat, to: nat)
    requires n <= |r| && j <= from <= to <= |s| && r[n..] == s[j..]
    ensures to + n - j <= |r| && r[from + n - j..to + n - j] == s[from..to]
  {
    assert |r| - n == |s| - j;
    forall t | from <= t < to
      ensures r[t + n - j] == s[t]
    {
      assert r[n..][t - j] == s[j..][t - j];
    }
  }

  lemma MovedBlock(s: string, r: string, b: Markers, n: nat, j: nat)
    requires n <= |r| && j <= |s| && r[n..] == s[j..]
    requires Present(s, b) && j <= Index(s, b.start)
    requires Index(r, b.start) == Index(s, b.start) + n - j && Index(r, b.end) == Index(s, b.end) + n - j
    ensures Present(r, b) && Block(r, b) == Block(s, b)
  {
    SliceOfSuffix(r, n, s, j, Index(s, b.start), Index(s, b.end));
  }

  lemma StayedBlock(s: string, r: string, b: Markers, n: nat)
    requires n <= |r| && n <= |s| && r[..n] == s[..n]
    requires Present(s, b) && Index(s, b.end) <= n
    requires Index(r, b.start) == Index(s, b.start) && Index(r, b.end) == Index(s, b.end)
    ensures Present(r, b) && Block(r, b) == Block(s, b)
  {
    assert r[..n][Index(s, b.start)..Index(s, b.end)] == r[Index(s, b.start)..Index(s, b.end)];
    assert s[..n][Index(s, b.start)..Index(s, b.end)] == s[Index(s, b.start)..Index(s, b.end)];
  }

  lemma MergeTail(s: string, a: Markers, c: string)
    requires Present(s, a) && s != ""
    ensures var r := ChangeContentInBlock(s, a, c);
            var n := |Before(s, a)| + |c| + 2;
            n <= |r| && r[n..] == s[Index(s, a.end)..]
  {
    MergeIsAround(s, a, c);
    AroundParts(Before(s, a), c, After(s, a));
  }

  lemma MergeHead(s: string, a: Markers, c: string)
    requires Present(s, a)
    ensures var r := ChangeContentInBlock(s, a, c);
            Index(s, a.start) <= |r| && r[..Index(s, a.start)] == s[..Index(s, a.start)]
  {
  }

  /** After a merge, what is read back is the content just written. */
  lemma WrittenIsRead(s: string, m: Markers, c: string)
    requires Proper(m) && Settled(s, m) && !Contains(c, m.end)
    ensures var r := ChangeContentInBlock(s, m, c);
            Present(r, m) && Block(r, m) == m.start + "\n" + c + "\n"
  {
    hide ChangeContentInBlock, Contains, Before, After, Around;
    var p, q := Before(s, m), After(s, m);
    FirstStart(s, m, c);
    FirstEnd(s, m, c);
    MergeIsAround(s, m, c);
    BeforeEndsWithStart(s, m);
    AroundParts(p, c, q);
    MiddleOfAround(p, c, q, |p| - |m.start|);
  }

  lemma BeforeEndsWithStart(s: string, m: Markers)
    ensures |Before(s, m)| >= |m.start| && Before(s, m)[|Before(s, m)| - |m.start|..] == m.start
  {
  }

  lemma MiddleOfAround(p: string, c: string, q: string, i: nat)
    requires i <= |p|
    ensures Around(p, c, q)[i..|p| + |c| + 2] == p[i..] + "\n" + c + "\n"
  {
  }

  lemma LaterBlockUnchanged(s: string, a: Markers, b: Markers, c: string)
    requires Proper(a) && Proper(b) && b.start != "" && Precedes(s, a, b)
    requires !Contains(c, b.start) && !Contains(c, b.end)
    ensures var r := ChangeContentInBlock(s, a, c);
            Present(r, b) && Block(r, b) == Block(s, b)
  {
    EndIsNotEmpty(b);
    LaterMarkerMoves(s, a, c, b.start);
    LaterMarkerMoves(s, a, c, b.end);
    MergeTail(s, a, c);
    MovedBlock(s, ChangeContentInBlock(s, a, c), b, |Before(s, a)| + |c| + 2, Index(s, a.end));
  }

  lemma EarlierBlockUnchanged(s: string, a: Markers, b: Markers, c: string)
    requires Proper(b) && Precedes(s, b, a)
    ensures var r := ChangeContentInBlock(s, a, c);
            Present(r, b) && Block(r, b) == Block(s, b)
  {
    BeforeEndsEarly(s, b);
    EarlierMarkerStays(s, a, c, b.start);
    EarlierMarkerStays(s, a, c, b.end);
    MergeHead(s, a, c);
    StayedBlock(s, ChangeContentInBlock(s, a, c), b, Index(s, a.start));
  }

  lemma AppendingLeavesBlocks(s: string, a: Markers, b: Markers, c: string)
    requires !Present(s, a) && Present(s, b) && s != ""
    ensures var r := ChangeContentInBlock(s, a, c);
            Present(r, b) && Block(r, b) == Block(s, b)
  {
    var r := ChangeContentInBlock(s, a, c);
    assert r[..|s|] == s == s[..|s|];
    SamePrefixSameIndex(s, r, |s|, b.start);
    SamePrefixSameIndex(s, r, |s|, b.end);
    StayedBlock(s, r, b, |s|);
  }

  /** Writing one block, new or replaced, leaves the other one as it was. */
  lemma OtherBlockUnchanged(s: string, a: Markers, b: Markers, c: string)
    requires Proper(a) && Proper(b) && b.start != "" && Present(s, b)
    requires Present(s, a) ==> Disjoint(s, a, b) && !Contains(c, b.start) && !Contains(c, b.end)
    ensures var r := ChangeContentInBlock(s, a, c);
            Present(r, b) && Block(r, b) == Block(s, b)
  {
    if !Present(s, a) {
      AppendingLeavesBlocks(s, a, b, c);
    } else if Precedes(s, a, b) {
      LaterBlockUnchanged(s, a, b, c);
    } else {
      EarlierBlockUnchanged(s, a, b, c);
    }
  }

  /** Both contents replaced, the block of `a` coming first. */
  function Both(s: string, i: nat, j: nat, k: nat, l: nat, ca: string, cb: string): string
    requires i <= |s| && j <= k <= |s| && l <= |s|
  {
    Around(s[..i], ca, Around(s[j..k], cb, s[l..]))
  }

  lemma FirstThenSecond(s: string, ra: string, i: nat, j: nat, k: nat, l: nat, ca: string, cb: string)
    requires i <= |s| && j <= k <= |s| && j <= l <= |s|
    requires ra == Around(s[..i], ca, s[j..])
    ensures var d := i + |ca| + 2 - j;
            k + d <= |ra| && l + d <= |ra| && Around(ra[..k + d], cb, ra[l + d..]) == Both(s, i, j, k, l, ca, cb)
  {
    var d := i + |ca| + 2 - j;
    var head, middle, tail := s[..i] + "\n" + ca + "\n", s[j..k], "\n" + cb + "\n" + s[l..];
    assert ra == head + s[j..];
    assert ra[..k + d] == head + middle;
    assert ra[l + d..] == s[l..];
    assert (head + middle) + tail == head + (middle + tail);
    assert Around(ra[..k + d], cb, ra[l + d..]) == (head + middle) + tail;
    assert Both(s, i, j, k, l, ca, cb) == head + (middle + tail);
  }

  lemma SecondThenFirst(s: string, rb: string, i: nat, j: nat, k: nat, l: nat, ca: string, cb: string)
    requires i <= k <= |s| && j <= k && l <= |s|
    requires rb == Around(s[..k], cb, s[l..])
    ensures i <= |rb| && j <= |rb| && Around(rb[..i], ca, rb[j..]) == Both(s, i, j, k, l, ca, cb)
  {
    assert rb[..i] == s[..i];
    assert rb[j..] == Around(s[j..k], cb, s[l..]);
  }

  lemma MergeAt(s: string, m: Markers, c: string, i: nat, j: nat)
    requires Present(s, m) && s != "" && i == Index(s, m.start) + |m.start| && j == Index(s, m.end)
    ensures i <= |s| && j <= |s| && ChangeContentInBlock(s, m, c) == Around(s[..i], c, s[j..])
  {
    MergeIsAround(s, m, c);
  }

  lemma Positions(s: string, a: Markers, b: Markers)
    requires Proper(a) && Precedes(s, a, b)
    ensures s != "" && 0 <= Index(s, a.end) <= Index(s, b.start) < Index(s, b.end) <= |s|
    ensures Index(s, a.start) + |a.start| <= Index(s, b.start) && Index(s, b.start) + |b.start| <= |s|
  {
    BeforeEndsEarly(s, a);
  }

  lemma FirstSide(s: string, a: Markers, b: Markers, ca: string, cb: string, i: nat, j: nat, k: nat, l: nat)
    requires Proper(a) && Proper(b) && b.start != "" && Precedes(s, a, b)
    requires !Contains(ca, b.start) && !Contains(ca, b.end)
    requires i == Index(s, a.start) + |a.start| && j == Index(s, a.end)
    requires k == Index(s, b.start) + |b.start| && l == Index(s, b.end)
    ensures i <= |s| && j <= k <= |s| && l <= |s|
    ensures ChangeContentInBlock(ChangeContentInBlock(s, a, ca), b, cb) == Both(s, i, j, k, l, ca, cb)
  {
    Positions(s, a, b);
    EndIsNotEmpty(b);
    MarkerMoves(s, i, j, ca, b.start);
    MarkerMoves(s, i, j, ca, b.end);
    MergeAt(s, a, ca, i, j);
    SecondOnResult(s, ChangeContentInBlock(s, a, ca), b, ca, cb, i, j, k, l);
  }

  lemma SecondOnResult(s: string, ra: string, b: Markers, ca: string, cb: string, i: nat, j: nat, k: nat, l: nat)
    requires i <= |s| && j <= k <= |s| && j <= l <= |s| && |b.start| <= k
    requires ra == Around(s[..i], ca, s[j..])
    requires var d := i + |ca| + 2 - j;
             0 <= k + d - |b.start| < l + d && Index(ra, b.start) == k + d - |b.start| && Index(ra, b.end) == l + d
    ensures ChangeContentInBlock(ra, b, cb) == Both(s, i, j, k, l, ca, cb)
  {
    var d := i + |ca| + 2 - j;
    FirstThenSecond(s, ra, i, j, k, l, ca, cb);
    MergeAt(ra, b, cb, k + d, l + d);
  }

  lemma SecondSide(s: string, a: Markers, b: Markers, ca: string, cb: string, i: nat, j: nat, k: nat, l: nat)
    requires Proper(a) && Precedes(s, a, b)
    requires i == Index(s, a.start) + |a.start| && j == Index(s, a.end)
    requires k == Index(s, b.start) + |b.start| && l == Index(s, b.end)
    ensures i <= |s| && j <= k <= |s| && l <= |s|
    ensures ChangeContentInBlock(ChangeContentInBlock(s, b, cb), a, ca) == Both(s, i, j, k, l, ca, cb)
  {
    var rb := ChangeContentInBlock(s, b, cb);
    Positions(s, a, b);
    EarlierMarkerStays(s, b, cb, a.start);
    EarlierMarkerStays(s, b, cb, a.end);
    MergeAt(s, b, cb, k, l);
    SecondThenFirst(s, rb, i, j, k, l, ca, cb);
    MergeAt(rb, a, ca, i, j);
  }

  lemma CommuteInOrder(s: string, a: Markers, b: Markers, ca: string, cb: string)
    requires Proper(a) && Proper(b) && b.start != "" && Precedes(s, a, b)
    requires !Contains(ca, b.start) && !Contains(ca, b.end)
    ensures ChangeContentInBlock(ChangeContentInBlock(s, a, ca), b, cb)
            == ChangeContentInBlock(ChangeContentInBlock(s, b, cb), a, ca)
  {
    var i, j, k, l := Index(s, a.start) + |a.start|, Index(s, a.end), Index(s, b.start) + |b.start|, Index(s, b.end);
    FirstSide(s, a, b, ca, cb, i, j, k, l);
    SecondSide(s, a, b, ca, cb, i, j, k, l);
  }

  /** Two blocks that do not overlap can be written in either order. */
  lemma MergesCommute(s: string, a: Markers, b: Markers, ca: string, cb: string)
    requires Proper(a) && Proper(b) && a.start != "" && b.start != "" && Disjoint(s, a, b)
    requires !Contains(ca, b.start) && !Contains(ca, b.end) && !Contains(cb, a.start) && !Contains(cb, a.end)
    ensures ChangeContentInBlock(ChangeContentInBlock(s, a, ca), b, cb)
            == ChangeContentInBlock(ChangeContentInBlock(s, b, cb), a, ca)
  {
    if Precedes(s, a, b) {
      CommuteInOrder(s, a, b, ca, cb);
    } else {
      CommuteInOrder(s, b, a, cb, ca);
    }
  }

  // ----- the markers the shell profiles get --------------------------------------------------

  const START := "# [start] "
  const END := "# [end] "

  function MarkersOf(name: string): Markers {
    Markers(START + name, END + name)
  }

  lemma StartText(n: string)
    ensures var s := START + n;
            && s[0] == '#' && s[1] == ' ' && s[2] == '[' && s[3] == 's' && s[4] == 't' && s[5] == 'a'
            && s[6] == 'r' && s[7] == 't' && s[8] == ']' && s[9] == ' '
            && forall k :: 10 <= k < |s| ==> s[k] == n[k - 10]
  {
  }

  lemma AtMeansEqual(s: string, x: string, k: int)
    ensures At(s, x, k) ==> forall t :: 0 <= t < |x| ==> s[k + t] == x[t]
  {
    if At(s, x, k) {
      forall t | 0 <= t < |x|
        ensures s[k + t] == x[t]
      {
        assert s[k..k + |x|][t] == x[t];
      }
    }
  }

  /** An end marker does not fit into a start marker: a name without '#' leaves it one place. */
  lemma NoEndInStart(n: string, m: string, k: int)
    requires '#' !in n || |n| <= |m|
    ensures !At(START + n, END + m, k)
  {
    StartText(n);
    assert (END + m)[0] == '#' && (END + m)[3] == 'e';
    AtMeansEqual(START + n, END + m, k);
  }

  lemma CallersMarkersAreProper(name: string)
    requires NewlineFree(name)
    ensures Proper(MarkersOf(name))
  {
    NoEndInStart(name, name, Index(START + name, END + name));
  }

  /** One block's start marker is found inside another's exactly when its name is a prefix of the
      other name. */
  lemma MarkersClashIffPrefix(n: string, m: string)
    requires '#' !in n
    ensures Contains(START + n, START + m) <==> m <= n
  {
    var s, e := START + n, START + m;
    StartText(n);
    StartText(m);
    if Contains(s, e) {
      AtMeansEqual(s, e, Index(s, e));
      assert s[Index(s, e) + 0] == '#';
      assert Index(s, e) == 0;
      assert m == e[10..] == s[..|e|][10..] == n[..|m|];
    }
    if m <= n {
      assert s[0..|e|] == e;
      assert At(s, e, 0);
    }
  }

  /** Then writing the shorter-named block takes over the longer-named one. */
  lemma PrefixNameTakesOver(n: string, m: string, c1: string, c2: string)
    requires NewlineFree(n) && '#' !in n && m <= n && m != n
    requires !Contains(c1, END + m) && !Contains(c2, START + n)
    ensures var s := FullBlock(MarkersOf(n), c1);
            Present(s, MarkersOf(n)) && !Present(ChangeContentInBlock(s, MarkersOf(m), c2), MarkersOf(n))
  {
    var long, short := MarkersOf(n), MarkersOf(m);
    var s := FullBlock(long, c1);
    assert s == Around(long.start, c1, long.end + "\n");
    CallersMarkersAreProper(n);
    assert NewlineFree(m) by {
      assert forall t :: 0 <= t < |m| ==> m[t] == n[t];
    }
    CallersMarkersAreProper(m);
    ShorterIsFound(n, m, c1);
    assert long.end[..|short.end|] == short.end;
    NoLongerMarker(c1, short.end, long.end);
    assert Settled("", long);
    OutsideSurvives("", long, c1);
    MergeAt(s, short, c2, |short.start|, |long.start| + |c1| + 2);
    AroundParts(long.start, c1, long.end + "\n");
    assert s[..|short.start|] == short.start;
    LongerIsLost(n, m, c2);
  }

  lemma NoLongerMarker(s: string, x: string, y: string)
    requires |x| <= |y| && y[..|x|] == x && !Contains(s, x)
    ensures !Contains(s, y)
  {
    if Contains(s, y) {
      var k := Index(s, y);
      assert s[k..k + |y|][..|x|] == s[k..k + |x|];
      assert At(s, x, k);
    }
  }

  lemma ShorterIsFound(n: string, m: string, c1: string)
    requires NewlineFree(n) && '#' !in n && m <= n && NewlineFree(m) && !Contains(c1, END + m)
    ensures var s := Around(START + n, c1, END + n + "\n");
            Index(s, START + m) == 0 && Index(s, END + m) == |START| + |n| + |c1| + 2
  {
    var p, q, x := START + n, END + n + "\n", END + m;
    var s := Around(p, c1, q);
    assert s[..|START + m|] == START + m;
    IndexIs(s, START + m, 0);
    var at := |p| + |c1| + 2;
    assert q[..|x|] == x;
    InAround(p, c1, q, x, at);
    forall k | 0 <= k < at
      ensures !At(s, x, k)
    {
      InAround(p, c1, q, x, k);
      NoEndInStart(n, m, k);
    }
    IndexIs(s, x, at);
  }

  lemma LongerIsLost(n: string, m: string, c2: string)
    requires NewlineFree(n) && '#' !in n && |m| < |n| && !Contains(c2, START + n)
    ensures !Contains(Around(START + m, c2, END + n + "\n"), START + n)
  {
    var r, x, q := Around(START + m, c2, END + n + "\n"), START + n, END + n + "\n";
    var k := Index(r, x);
    if k >= 0 {
      InAround(START + m, c2, q, x, k);
      NoStartInEnd(n, n, k - |START + m| - |c2| - 2);
    }
  }

  lemma NoStartInEnd(n: string, m: string, k: int)
    requires '#' !in n
    ensures !At(END + n + "\n", START + m, k)
  {
    var q, x := END + n + "\n", START + m;
    StartText(m);
    assert q[0] == '#' && q[1] == ' ' && q[2] == '[' && q[3] == 'e';
    AtMeansEqual(q, x, k);
  }

  /** A name that is no prefix of the block's is not found in the block. */
  lemma OtherNameIsAbsent(n: string, m: string, c: string)
    requires NewlineFree(m) && '#' !in n && !(m <= n) && !Contains(c, START + m)
    ensures !Present(FullBlock(MarkersOf(n), c), MarkersOf(m))
  {
    var p, q, x := START + n, END + n + "\n", START + m;
    var s := Around(p, c, q);
    assert FullBlock(MarkersOf(n), c) == s;
    var k := Index(s, x);
    if k >= 0 {
      InAround(p, c, q, x, k);
      MarkersClashIffPrefix(n, m);
      NoStartInEnd(n, m, k - |p| - |c| - 2);
    }
  }

  /** After one block was written, writing another leaves it readable, and then unchanged, exactly when
      the other's name is no prefix of its name. */
  lemma BlockSurvivesIffNoPrefix(n: string, m: string, c1: string, c2: string)
    requires NewlineFree(n) && NewlineFree(m) && '#' !in n && m != n
    requires !Contains(c1, START + m) && !Contains(c1, END + m) && !Contains(c1, END + n) && !Contains(c2, START + n)
    ensures var s := FullBlock(MarkersOf(n), c1);
            var r := ChangeContentInBlock(s, MarkersOf(m), c2);
            && Present(s, MarkersOf(n))
            && (Present(r, MarkersOf(n)) <==> !(m <= n))
            && (Present(r, MarkersOf(n)) ==> Block(r, MarkersOf(n)) == Block(s, MarkersOf(n)))
  {
    var s := FullBlock(MarkersOf(n), c1);
    if m <= n {
      PrefixNameTakesOver(n, m, c1, c2);
    } else {
      CallersMarkersAreProper(n);
      WrittenIsRead("", MarkersOf(n), c1);
      OtherNameIsAbsent(n, m, c1);
      AppendingLeavesBlocks(s, MarkersOf(m), MarkersOf(n), c2);
    }
  }
}
