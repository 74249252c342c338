/** Reading the indented report of `ccache -v -v -s`: each line belongs to the section the stack of
    enclosing keys says, and a few counters are turned into rates. */
module CcacheStats {
  import opened Bytes
  import opened Text

  // ----- one line ----------------------------------------------------------------------------

  datatype Line = Line(indent: nat, key: string, rest: string)

  function SkipSpaces(s: string): (n: nat)
    ensures n <= |s| && (forall i :: 0 <= i < n ==> s[i] == ' ') && (n < |s| ==> s[n] != ' ')
  {
    if s != "" && s[0] == ' ' then
      var n := SkipSpaces(s[1..]);
      assert forall i :: 0 < i < n + 1 ==> s[i] == s[1..][i - 1];
      n + 1
    else 0
  }

  function FindColon(s: string): (n: int)
    ensures -1 <= n < |s|
    ensures n >= 0 ==> s[n] == ':' && ':' !in s[..n]
    ensures n < 0 ==> ':' !in s
  {
    if s == "" then -1
    else if s[0] == ':' then 0
    else
      var n := FindColon(s[1..]);
      assert n >= 0 ==> s[..n + 1] == [s[0]] + s[1..][..n];
      if n < 0 then -1 else n + 1
  }

  /** The line pattern: spaces, a key up to the first colon, spaces, the rest. */
  function MatchLine(line: string): Option<Line> {
    var indent := SkipSpaces(line);
    var tail := line[indent..];
    var colon := FindColon(tail);
    if colon < 0 then None
    else
      var value := tail[colon + 1..];
      Some(Line(indent, tail[..colon], value[SkipSpaces(value)..]))
  }

  function Spaces(n: nat): (s: string)
    ensures |s| == n && forall i :: 0 <= i < n ==> s[i] == ' '
  {
    seq(n, _ => ' ')
  }

  function PrintLine(level: nat, key: string, pad: nat, rest: string): string {
    Spaces(2 * level) + (key + (":" + (Spaces(pad) + rest)))
  }

  predicate NoLeadingSpace(s: string) {
    s == "" || s[0] != ' '
  }

  lemma SpacesSkipped(n: nat, s: string)
    requires NoLeadingSpace(s)
    ensures SkipSpaces(Spaces(n) + s) == n && (Spaces(n) + s)[n..] == s
  {
    var t := Spaces(n) + s;
    assert forall i :: 0 <= i < n ==> t[i] == ' ';
    assert s != "" ==> t[n] == s[0];
  }

  lemma ColonFound(key: string, s: string)
    requires ':' !in key
    ensures FindColon(key + (":" + s)) == |key|
  {
    var t := key + (":" + s);
    assert t[|key|] == ':';
    assert forall i :: 0 <= i < |key| ==> t[i] == key[i];
  }

  lemma MatchesPrinted(level: nat, key: string, pad: nat, rest: string)
    requires ':' !in key && NoLeadingSpace(key) && NoLeadingSpace(rest)
    ensures MatchLine(PrintLine(level, key, pad, rest)) == Some(Line(2 * level, key, rest))
  {
    hide SkipSpaces, FindColon, Spaces;
    var value := Spaces(pad) + rest;
    var tail := key + (":" + value);
    assert NoLeadingSpace(tail) by {
      assert key != "" ==> tail[0] == key[0];
    }
    SpacesSkipped(2 * level, tail);
    ColonFound(key, value);
    assert tail[..|key|] == key && tail[|key| + 1..] == value;
    SpacesSkipped(pad, rest);
  }

  // ----- the stack of keys -------------------------------------------------------------------

  datatype Entry = Entry(path: seq<string>, rest: string)

  /** Where a line belongs under the keys currently open, if it is a statistics line and not
      indented beyond them. */
  function Place(line: string, path: seq<string>): (e: Option<Entry>) {
    match MatchLine(line)
    case None => None
    case Some(l) =>
      if l.indent / 2 > |path| then None else Some(Entry(path[..l.indent / 2] + [l.key], l.rest))
  }

  function Entries(lines: seq<string>, path: seq<string>): seq<Entry>
    decreases |lines|
  {
    if lines == [] then []
    else match Place(lines[0], path)
      case None => Entries(lines[1..], path)
      case Some(e) => [e] + Entries(lines[1..], e.path)
  }

  function PathAfter(lines: seq<string>, path: seq<string>): seq<string>
    decreases |lines|
  {
    if lines == [] then path
    else match Place(lines[0], path)
      case None => PathAfter(lines[1..], path)
      case Some(e) => PathAfter(lines[1..], e.path)
  }

  lemma {:induction false} EntriesAppend(a: seq<string>, b: seq<string>, path: seq<string>)
    ensures Entries(a + b, path) == Entries(a, path) + Entries(b, PathAfter(a, path))
    ensures PathAfter(a + b, path) == PathAfter(b, PathAfter(a, path))
    decreases |a|
  {
    if a == [] {
      assert a + b == b;
    } else {
      assert (a + b)[0] == a[0] && (a + b)[1..] == a[1..] + b;
      var e := Place(a[0], path);
      var next := if e.Some? then e.value.path else path;
      EntriesAppend(a[1..], b, next);
      if e.Some? {
        Associates(e.value, Entries(a[1..], next), Entries(b, PathAfter(a[1..], next)));
      }
    }
  }

  lemma Associates(e: Entry, x: seq<Entry>, y: seq<Entry>)
    ensures [e] + (x + y) == ([e] + x) + y
  {
  }

  lemma OneLine(line: string, more: seq<string>, path: seq<string>, e: Entry)
    requires Place(line, path) == Some(e)
    ensures Entries([line] + more, path) == [e] + Entries(more, e.path)
    ensures PathAfter([line] + more, path) == PathAfter(more, e.path)
  {
    assert ([line] + more)[0] == line && ([line] + more)[1..] == more;
  }

  lemma ExtendsPrefix(above: seq<string>, key: string, path: seq<string>)
    requires above + [key] <= path
    ensures above <= path
  {
    assert above == (above + [key])[..|above|] == path[..|above + [key]|][..|above|] == path[..|above|];
  }

  // ----- reports -----------------------------------------------------------------------------

  /** A report as a tree: each key with the text after its colon, the number of spaces before that
      text, the lines below it and the lines after it. */
  datatype Forest = Nil | Cons(key: string, pad: nat, rest: string, children: Forest, siblings: Forest)

  predicate WellFormed(f: Forest) {
    f.Nil? ||
    (&& ':' !in f.key && '\n' !in f.key && NoLeadingSpace(f.key)
     && '\n' !in f.rest && NoLeadingSpace(f.rest)
     && WellFormed(f.children) && WellFormed(f.siblings))
  }

  function PrintForest(f: Forest, level: nat): seq<string> {
    match f
    case Nil => []
    case Cons(key, pad, rest, children, siblings) =>
      [PrintLine(level, key, pad, rest)] + PrintForest(children, level + 1) + PrintForest(siblings, level)
  }

  /** Every node in the order it is printed, with the keys from the root down to it. */
  function Preorder(f: Forest, above: seq<string>): seq<Entry> {
    match f
    case Nil => []
    case Cons(key, _, rest, children, siblings) =>
      [Entry(above + [key], rest)] + Preorder(children, above + [key]) + Preorder(siblings, above)
  }

  lemma {:induction false} ForestParses(f: Forest, above: seq<string>, path: seq<string>)
    requires WellFormed(f) && above <= path
    ensures Entries(PrintForest(f, |above|), path) == Preorder(f, above)
    ensures above <= PathAfter(PrintForest(f, |above|), path)
    decreases f
  {
    match f
    case Nil =>
    case Cons(key, pad, rest, children, siblings) =>
      var line := PrintLine(|above|, key, pad, rest);
      var below, after := PrintForest(children, |above| + 1), PrintForest(siblings, |above|);
      var e := Entry(above + [key], rest);
      NodePlaced(above, path, key, pad, rest);
      ForestParses(children, e.path, e.path);
      ExtendsPrefix(above, key, PathAfter(below, e.path));
      ForestParses(siblings, above, PathAfter(below, e.path));
      NodeParses(line, below, after, path, e);
  }

  lemma NodeParses(line: string, below: seq<string>, after: seq<string>, path: seq<string>, e: Entry)
    requires Place(line, path) == Some(e)
    ensures Entries([line] + below + after, path)
            == [e] + Entries(below, e.path) + Entries(after, PathAfter(below, e.path))
    ensures PathAfter([line] + below + after, path) == PathAfter(after, PathAfter(below, e.path))
  {
    EntriesAppend(below, after, e.path);
    OneLine(line, below + after, path, e);
    assert [line] + (below + after) == [line] + below + after;
    Associates(e, Entries(below, e.path), Entries(after, PathAfter(below, e.path)));
  }

  lemma NodePlaced(above: seq<string>, path: seq<string>, key: string, pad: nat, rest: string)
    requires above <= path && ':' !in key && NoLeadingSpace(key) && NoLeadingSpace(rest)
    ensures Place(PrintLine(|above|, key, pad, rest), path) == Some(Entry(above + [key], rest))
  {
    MatchesPrinted(|above|, key, pad, rest);
    PlacedWhereMatched(PrintLine(|above|, key, pad, rest), path, above, key, rest);
  }

  lemma PlacedWhereMatched(line: string, path: seq<string>, above: seq<string>, key: string, rest: string)
    requires above <= path && MatchLine(line) == Some(Line(2 * |above|, key, rest))
    ensures Place(line, path) == Some(Entry(above + [key], rest))
  {
    assert path[..|above|] == above;
  }

  /** Parsing gives back the report: its nodes in order, each under its own keys, none skipped. */
  lemma ParsingInvertsPrinting(f: Forest)
    requires WellFormed(f)
    ensures Entries(PrintForest(f, 0), []) == Preorder(f, [])
    ensures |Entries(PrintForest(f, 0), [])| == |PrintForest(f, 0)|
  {
    ForestParses(f, [], []);
    OneEntryPerLine(f, 0, []);
  }

  lemma {:induction false} OneEntryPerLine(f: Forest, level: nat, above: seq<string>)
    ensures |PrintForest(f, level)| == |Preorder(f, above)|
    decreases f
  {
    if f.Cons? {
      OneEntryPerLine(f.children, level + 1, above + [f.key]);
      OneEntryPerLine(f.siblings, level, above);
    }
  }

  lemma PrintedLineHasNoBreak(level: nat, key: string, pad: nat, rest: string)
    requires '\n' !in key && '\n' !in rest
    ensures '\n' !in PrintLine(level, key, pad, rest)
  {
    var line := PrintLine(level, key, pad, rest);
    assert '\n' !in Spaces(2 * level) && '\n' !in Spaces(pad);
    assert '\n' !in ":";
  }

  lemma {:induction false} LinesHaveNoBreaks(f: Forest, level: nat)
    requires WellFormed(f)
    ensures AllFree(PrintForest(f, level), '\n')
    decreases f
  {
    if f.Cons? {
      PrintedLineHasNoBreak(level, f.key, f.pad, f.rest);
      LinesHaveNoBreaks(f.children, level + 1);
      LinesHaveNoBreaks(f.siblings, level);
    }
  }

  /** The same down to the text, every line ended by a line break. */
  lemma ReportRoundTrip(f: Forest)
    requires WellFormed(f)
    ensures Entries(Split(Join(PrintForest(f, 0) + [""], "\n"), '\n'), []) == Preorder(f, [])
  {
    var lines := PrintForest(f, 0);
    LinesHaveNoBreaks(f, 0);
    SplitJoin(lines + [""], '\n');
    EntriesAppend(lines, [""], []);
    ForestParses(f, [], []);
    assert MatchLine("") == None;
    var none: seq<string> := [""][1..];
    assert none == [] && Entries([""], PathAfter(lines, [])) == Entries(none, PathAfter(lines, [])) == [];
  }

  // ----- numbers in the text after the colon -------------------------------------------------

  predicate Digit(c: char) {
    '0' <= c <= '9'
  }

  function DigitRun(s: string): (n: nat)
    ensures n <= |s| && (forall i :: 0 <= i < n ==> Digit(s[i])) && (n < |s| ==> !Digit(s[n]))
  {
    if s != "" && Digit(s[0]) then
      var n := DigitRun(s[1..]);
      assert forall i :: 0 < i < n + 1 ==> s[i] == s[1..][i - 1];
      n + 1
    else 0
  }

  /** How far a number that starts here reaches: digits, and a point only with digits behind it. */
  function NumberLength(s: string): (n: nat)
    requires s != "" && Digit(s[0])
    ensures 1 <= n <= |s|
  {
    var n := DigitRun(s);
    if n + 1 < |s| && s[n] == '.' && Digit(s[n + 1]) then n + 1 + DigitRun(s[n + 1..]) else n
  }

  function Numbers(s: string): seq<string>
    decreases |s|
  {
    if s == "" then []
    else if Digit(s[0]) then [s[..NumberLength(s)]] + Numbers(s[NumberLength(s)..])
    else Numbers(s[1..])
  }

  /** Digits, or digits, a point and digits. */
  predicate IsNumber(t: string) {
    var n := DigitRun(t);
    n > 0 && (n == |t| || (t[n] == '.' && n + 1 < |t| && n + 1 + DigitRun(t[n + 1..]) == |t|))
  }

  predicate NoDigits(s: string) {
    forall i :: 0 <= i < |s| ==> !Digit(s[i])
  }

  /** Between two numbers, anything but digits; a lone point would join them. */
  predicate Separates(s: string) {
    s != "" && s != "." && NoDigits(s)
  }

  /** Numbers, each with the text after it. */
  function PrintNumbers(items: seq<(string, string)>): string {
    if items == [] then "" else items[0].0 + (items[0].1 + PrintNumbers(items[1..]))
  }

  /** Nothing need follow the last one. */
  predicate Printable(items: seq<(string, string)>) {
    forall i :: 0 <= i < |items| ==>
      IsNumber(items[i].0) && NoDigits(items[i].1) && (i < |items| - 1 ==> Separates(items[i].1))
  }

  function Firsts(items: seq<(string, string)>): seq<string> {
    if items == [] then [] else [items[0].0] + Firsts(items[1..])
  }

  lemma RunEnds(a: string, b: string)
    requires DigitRun(a) < |a| || b == "" || !Digit(b[0])
    ensures DigitRun(a + b) == DigitRun(a)
  {
    assert forall i :: 0 <= i < |a| ==> (a + b)[i] == a[i];
    assert b != "" ==> (a + b)[|a|] == b[0];
  }

  lemma NumberEnds(t: string, sep: string, more: string)
    requires IsNumber(t) && NoDigits(sep) && (more != "" ==> Separates(sep))
    ensures t != "" && Digit(t[0]) && Digit((t + (sep + more))[0]) && NumberLength(t + (sep + more)) == |t|
  {
    var rest := sep + more;
    assert (t + rest)[0] == t[0];
    var n := DigitRun(t);
    RunEnds(t, rest);
    if n < |t| {
      assert (t + rest)[n] == t[n] && (t + rest)[n + 1] == t[n + 1];
      assert (t + rest)[n + 1..] == t[n + 1..] + rest;
      RunEnds(t[n + 1..], rest);
    } else if rest != "" {
      assert sep != "";
      assert rest[0] == sep[0] && (|sep| > 1 ==> rest[1] == sep[1]);
      assert (t + rest)[n] == rest[0] && (|rest| > 1 ==> (t + rest)[n + 1] == rest[1]);
    }
  }

  lemma {:induction false} SkipNoDigits(s: string, more: string)
    requires NoDigits(s)
    ensures Numbers(s + more) == Numbers(more)
  {
    if s == "" {
      assert s + more == more;
    } else {
      assert (s + more)[0] == s[0] && (s + more)[1..] == s[1..] + more;
      SkipNoDigits(s[1..], more);
    }
  }

  /** The numbers extracted are the numbers printed, in order, whatever stands around them. */
  lemma {:induction false} NumbersRoundTrip(lead: string, items: seq<(string, string)>)
    requires NoDigits(lead) && Printable(items)
    ensures Numbers(lead + PrintNumbers(items)) == Firsts(items)
    decreases |items|
  {
    SkipNoDigits(lead, PrintNumbers(items));
    if items != [] {
      var t, sep, more := items[0].0, items[0].1, PrintNumbers(items[1..]);
      NumberEnds(t, sep, more);
      var text := t + (sep + more);
      assert text[0] == t[0] && text[..|t|] == t && text[|t|..] == sep + more;
      SkipNoDigits(sep, more);
      NumbersRoundTrip("", items[1..]);
      assert "" + more == more;
    }
  }

  // ----- counters and rates ------------------------------------------------------------------

  /** The whole numbers of the report under their full keys, and the two sizes of one line. */
  datatype Stats = Stats(counters: map<string, nat>, sizeGiB: real, maxSizeGiB: real)

  const ZERO: Stats := Stats(map[], 0.0, 0.0)
  const SIZES: string := "Local storage / Cache size (GiB)"

  predicate CacheableCounter(key: string) {
    || key == "Cacheable calls"
    || key == "Cacheable calls / Hits / Direct"
    || key == "Cacheable calls / Hits / Preprocessed"
    || key == "Cacheable calls / Misses"
  }

  predicate UncacheableCounter(key: string) {
    || key == "Uncacheable calls"
    || key == "Uncacheable calls / Called for linking"
    || key == "Uncacheable calls / Called for preprocessing"
    || key == "Uncacheable calls / Autoconf compile/link"
    || key == "Uncacheable calls / Bad compiler arguments"
    || key == "Uncacheable calls / Ccache disabled"
    || key == "Uncacheable calls / Compilation failed"
    || key == "Uncacheable calls / Compiler output file missing"
    || key == "Uncacheable calls / Compiler produced empty output"
    || key == "Uncacheable calls / Compiler produced stdout"
    || key == "Uncacheable calls / Could not use modules"
    || key == "Uncacheable calls / Could not use precompiled header"
    || key == "Uncacheable calls / Forced recache"
    || key == "Uncacheable calls / Multiple source files"
    || key == "Uncacheable calls / No input file"
    || key == "Uncacheable calls / Output to stdout"
    || key == "Uncacheable calls / Preprocessing failed"
    || key == "Uncacheable calls / Unsupported code directive"
    || key == "Uncacheable calls / Unsupported compiler option"
    || key == "Uncacheable calls / Unsupported environment variable"
    || key == "Uncacheable calls / Unsupported source encoding"
    || key == "Uncacheable calls / Unsupported source language"
  }

  predicate ErrorCounter(key: string) {
    || key == "Errors / Compiler check failed"
    || key == "Errors / Could not find compiler"
    || key == "Errors / Could not read or parse input file"
    || key == "Errors / Could not write to output file"
    || key == "Errors / Error hashing extra file"
    || key == "Errors / Input file modified during compilation"
    || key == "Errors / Internal error"
    || key == "Errors / Missing cache file"
  }

  predicate LocalCounter(key: string) {
    || key == "Local storage / Files"
    || key == "Local storage / Cleanups"
    || key == "Local storage / Hits"
    || key == "Local storage / Misses"
    || key == "Local storage / Reads"
    || key == "Local storage / Writes"
  }

  predicate RemoteCounter(key: string) {
    || key == "Remote storage / Hits"
    || key == "Remote storage / Misses"
    || key == "Remote storage / Reads"
    || key == "Remote storage / Writes"
    || key == "Remote storage / Errors"
    || key == "Remote storage / Timeouts"
  }

  /** The full keys of the fields that hold whole numbers. */
  predicate IsCounter(key: string) {
    CacheableCounter(key) || UncacheableCounter(key) || ErrorCounter(key) || LocalCounter(key) || RemoteCounter(key)
  }

  function Counter(s: Stats, key: string): nat {
    if key in s.counters then s.counters[key] else 0
  }

  function Value(digits: string): nat {
    if digits == "" || !Digit(digits[|digits| - 1]) then 0
    else 10 * Value(digits[..|digits| - 1]) + (digits[|digits| - 1] as int - '0' as int)
  }

  function Pow10(n: nat): (p: nat)
    ensures p >= 1
  {
    if n == 0 then 1 else 10 * Pow10(n - 1)
  }

  function Fraction(digits: string): (r: real)
    ensures r >= 0.0
  {
    Value(digits) as real / Pow10(|digits|) as real
  }

  /** The value of a number: its whole part, and what stands behind the point. */
  function Decimal(t: string): (r: real)
    ensures r >= 0.0
  {
    var n := DigitRun(t);
    Value(t[..n]) as real + if n < |t| then Fraction(t[n + 1..]) else 0.0
  }

  lemma {:induction false} ValueBelowPow10(digits: string)
    ensures Value(digits) < Pow10(|digits|)
  {
    if digits != "" && Digit(digits[|digits| - 1]) {
      ValueBelowPow10(digits[..|digits| - 1]);
    }
  }

  lemma FractionBelowOne(digits: string)
    ensures Fraction(digits) < 1.0
  {
    ValueBelowPow10(digits);
    QuotientBelowOne(Value(digits) as real, Pow10(|digits|) as real);
  }

  lemma QuotientBelowOne(v: real, p: real)
    requires 0.0 <= v < p
    ensures v / p < 1.0
  {
    var d := v / p - 1.0;
    assert d * p == v - p;
  }

  /** Cutting a number to an integer gives its whole part, digit by digit. */
  lemma WholePart(t: string)
    ensures Decimal(t).Floor == Value(t[..DigitRun(t)])
  {
    if DigitRun(t) < |t| {
      FractionBelowOne(t[DigitRun(t) + 1..]);
    }
  }

  /** A whole number as it is written. */
  function PrintNat(n: nat): (s: string)
    ensures s != "" && forall i :: 0 <= i < |s| ==> Digit(s[i])
  {
    (if n < 10 then "" else PrintNat(n / 10)) + ['0' + (n % 10) as char]
  }

  lemma {:induction false} ValueReadsBack(n: nat)
    ensures Value(PrintNat(n)) == n
  {
    var s := PrintNat(n);
    if n >= 10 {
      ValueReadsBack(n / 10);
      assert s[..|s| - 1] == PrintNat(n / 10);
    } else {
      assert s[..|s| - 1] == "";
    }
  }

  lemma FractionTimes(digits: string)
    ensures Fraction(digits) * Pow10(|digits|) as real == Value(digits) as real
  {
  }

  lemma DecimalParts(a: string, b: string)
    requires a != "" && b != "" && DigitRun(a) == |a|
    ensures Decimal(a) == Value(a) as real
    ensures Decimal(a + ("." + b)) == Value(a) as real + Fraction(b)
  {
    hide Value, Fraction;
    var t := a + ("." + b);
    RunEnds(a, "." + b);
    assert a[..|a|] == a && t[..|a|] == a && t[|a| + 1..] == b;
  }

  /** A number is read for what is written: its whole part, and so many tenths, hundredths and so on. */
  lemma DecimalReadsBack(n: nat, m: nat)
    ensures Decimal(PrintNat(n)) == n as real
    ensures (Decimal(PrintNat(n) + ("." + PrintNat(m))) - n as real) * Pow10(|PrintNat(m)|) as real == m as real
  {
    hide Decimal, Value, Fraction, PrintNat;
    var a, b := PrintNat(n), PrintNat(m);
    ValueReadsBack(n);
    ValueReadsBack(m);
    DecimalParts(a, b);
    FractionTimes(b);
    assert Decimal(a + ("." + b)) - n as real == Fraction(b);
  }

  /** A power of ten is a one followed by as many zeros. */
  lemma {:induction false} PowerOfTen(zeros: string)
    requires forall i :: 0 <= i < |zeros| ==> zeros[i] == '0'
    ensures Value("1" + zeros) == Pow10(|zeros|)
  {
    var s := "1" + zeros;
    if zeros == "" {
      assert s == "1" && Value("1"[..0]) == 0;
    } else {
      assert s[..|s| - 1] == "1" + zeros[..|zeros| - 1];
      PowerOfTen(zeros[..|zeros| - 1]);
    }
  }

  /** The k-th number after the colon; 0 when there are not as many. */
  function Nth(rest: string, k: nat): (r: real)
    ensures r >= 0.0
  {
    if k < |Numbers(rest)| then Decimal(Numbers(rest)[k]) else 0.0
  }

  function Apply(s: Stats, key: string, first: real, second: real): Stats
    requires first >= 0.0
  {
    if IsCounter(key) then s.(counters := s.counters[key := first.Floor])
    else if key == SIZES then s.(sizeGiB := first, maxSizeGiB := second)
    else s
  }

  function ApplyEntry(s: Stats, e: Entry): Stats {
    Apply(s, Join(e.path, " / "), Nth(e.rest, 0), Nth(e.rest, 1))
  }

  function ApplyAll(s: Stats, es: seq<Entry>): Stats
    decreases |es|
  {
    if es == [] then s else ApplyAll(ApplyEntry(s, es[0]), es[1..])
  }

  /** The k-th number of the last entry under a key, or `otherwise`. */
  function LastUnder(es: seq<Entry>, key: string, k: nat, otherwise: real): real
    decreases |es|
  {
    if es == [] then otherwise
    else LastUnder(es[1..], key, k, if Join(es[0].path, " / ") == key then Nth(es[0].rest, k) else otherwise)
  }

  lemma SizesAreNoCounter()
    ensures !IsCounter(SIZES)
  {
    assert SIZES[|SIZES| - 1] == ')';
  }

  /** Each counter is the whole part of the first number in the last line of its own section, and no
      other line touches it; the two sizes are the two numbers of theirs. */
  lemma {:induction false} FieldsComeFromTheirLines(s: Stats, es: seq<Entry>, key: string)
    requires IsCounter(key)
    ensures Counter(ApplyAll(s, es), key) == LastUnder(es, key, 0, Counter(s, key) as real).Floor
    ensures ApplyAll(s, es).sizeGiB == LastUnder(es, SIZES, 0, s.sizeGiB)
    ensures ApplyAll(s, es).maxSizeGiB == LastUnder(es, SIZES, 1, s.maxSizeGiB)
    decreases |es|
  {
    hide IsCounter, Nth;
    SizesAreNoCounter();
    if es != [] {
      FieldsComeFromTheirLines(ApplyEntry(s, es[0]), es[1..], key);
      FloorsAgree(es[1..], key, Nth(es[0].rest, 0));
    }
  }

  /** Starting from a number or from its whole part makes no difference to the whole part in the end. */
  lemma {:induction false} FloorsAgree(es: seq<Entry>, key: string, x: real)
    requires x >= 0.0
    ensures LastUnder(es, key, 0, x.Floor as real).Floor == LastUnder(es, key, 0, x).Floor
    decreases |es|
  {
    hide Nth;
    if es != [] {
      FloorsAgree(es[1..], key, x);
    }
  }

  datatype Rates = Rates(hit: real, miss: real, direct: real, preprocessed: real,
                         remoteHit: real, remoteMiss: real, remoteError: real, remoteTimeout: real, totalCalls: nat)

  function Ratio(n: nat, d: nat): (r: real)
    ensures r >= 0.0
    ensures d > 0 ==> r * (d as real) == n as real && (r <= 1.0 <==> n <= d)
  {
    if d == 0 then 0.0
    else
      var r := (n as real) / (d as real);
      assert r * (d as real) == n as real;
      assert r <= 1.0 <==> r * (d as real) <= d as real;
      r
  }

  function Cacheable(s: Stats): nat {
    Counter(s, "Cacheable calls")
  }

  function Direct(s: Stats): nat {
    Counter(s, "Cacheable calls / Hits / Direct")
  }

  function Preprocessed(s: Stats): nat {
    Counter(s, "Cacheable calls / Hits / Preprocessed")
  }

  function Misses(s: Stats): nat {
    Counter(s, "Cacheable calls / Misses")
  }

  function Hits(s: Stats): nat {
    Direct(s) + Preprocessed(s)
  }

  function Derive(s: Stats): Rates {
    Rates(Ratio(Hits(s), Cacheable(s)), Ratio(Misses(s), Cacheable(s)),
          Ratio(Direct(s), Hits(s)), Ratio(Preprocessed(s), Hits(s)),
          Ratio(Counter(s, "Remote storage / Hits"), Cacheable(s)),
          Ratio(Counter(s, "Remote storage / Misses"), Cacheable(s)),
          Ratio(Counter(s, "Remote storage / Errors"), Cacheable(s)),
          Ratio(Counter(s, "Remote storage / Timeouts"), Cacheable(s)),
          Cacheable(s) + Counter(s, "Uncacheable calls"))
  }

  lemma RatiosAdd(a: nat, b: nat, d: nat)
    requires d > 0
    ensures Ratio(a, d) + Ratio(b, d) == Ratio(a + b, d)
  {
    var w := d as real;
    assert (a + b) as real == a as real + b as real;
    AddQuotients(Ratio(a, d), Ratio(b, d), Ratio(a + b, d), w);
  }

  lemma AddQuotients(x: real, y: real, z: real, w: real)
    requires w != 0.0 && x * w + y * w == z * w
    ensures x + y == z
  {
    Distribute(x, y, w);
    Cancel(x + y, z, w);
  }

  lemma Distribute(x: real, y: real, w: real)
    ensures (x + y) * w == x * w + y * w
  {
  }

  lemma Cancel(x: real, y: real, w: real)
    requires w != 0.0 && x * w == y * w
    ensures x == y
  {
    assert (x - y) * w == 0.0;
  }

  /** The rate is the share of `n` in `d`, and 0 when there is nothing to share. */
  predicate Shares(rate: real, n: nat, d: nat) {
    if d == 0 then rate == 0.0 else rate * (d as real) == n as real
  }

  /** Every rate times its base gives back the counter it is about: hits, misses and what happened
      remotely among the cacheable calls, direct and preprocessed among the hits. */
  lemma RatesTimesTheirBases(s: Stats)
    ensures var r := Derive(s);
            && Shares(r.hit, Direct(s) + Preprocessed(s), Cacheable(s)) && Shares(r.miss, Misses(s), Cacheable(s))
            && Shares(r.direct, Direct(s), Direct(s) + Preprocessed(s))
            && Shares(r.preprocessed, Preprocessed(s), Direct(s) + Preprocessed(s))
            && Shares(r.remoteHit, Counter(s, "Remote storage / Hits"), Cacheable(s))
            && Shares(r.remoteMiss, Counter(s, "Remote storage / Misses"), Cacheable(s))
            && Shares(r.remoteError, Counter(s, "Remote storage / Errors"), Cacheable(s))
            && Shares(r.remoteTimeout, Counter(s, "Remote storage / Timeouts"), Cacheable(s))
            && r.totalCalls - Cacheable(s) == Counter(s, "Uncacheable calls")
  {
    hide Ratio, Counter, Shares;
    RatioShares(Direct(s) + Preprocessed(s), Cacheable(s));
    RatioShares(Misses(s), Cacheable(s));
    RatioShares(Direct(s), Direct(s) + Preprocessed(s));
    RatioShares(Preprocessed(s), Direct(s) + Preprocessed(s));
    RatioShares(Counter(s, "Remote storage / Hits"), Cacheable(s));
    RatioShares(Counter(s, "Remote storage / Misses"), Cacheable(s));
    RatioShares(Counter(s, "Remote storage / Errors"), Cacheable(s));
    RatioShares(Counter(s, "Remote storage / Timeouts"), Cacheable(s));
  }

  lemma RatioShares(n: nat, d: nat)
    ensures Shares(Ratio(n, d), n, d)
  {
  }

  /** The rates are shares of the whole exactly as far as the report adds up. */
  lemma RatesAreShares(s: Stats)
    requires Cacheable(s) > 0
    ensures var r := Derive(s);
            && 0.0 <= r.hit && 0.0 <= r.miss
            && (r.hit <= 1.0 <==> Hits(s) <= Cacheable(s))
            && (r.hit + r.miss <= 1.0 <==> Hits(s) + Misses(s) <= Cacheable(s))
            && (Hits(s) > 0 ==> r.direct + r.preprocessed == 1.0)
            && (r.remoteHit + r.remoteMiss <= 1.0 <==>
                Counter(s, "Remote storage / Hits") + Counter(s, "Remote storage / Misses") <= Cacheable(s))
  {
    hide Ratio;
    RatiosAdd(Hits(s), Misses(s), Cacheable(s));
    RatiosAdd(Counter(s, "Remote storage / Hits"), Counter(s, "Remote storage / Misses"), Cacheable(s));
    if Hits(s) > 0 {
      RatiosAdd(Direct(s), Preprocessed(s), Hits(s));
      WholeIsOne(Hits(s));
    }
  }

  lemma WholeIsOne(n: nat)
    requires n > 0
    ensures Ratio(n, n) == 1.0
  {
    var w := n as real;
    assert 1.0 * w == w;
    Cancel(Ratio(n, n), 1.0, w);
  }

  // ----- the loop ----------------------------------------------------------------------------

  /** `ParseCcacheStats`. */
  method ParseCcacheStats(text: string) returns (stats: Stats, rates: Rates)
    ensures stats == ApplyAll(ZERO, Entries(Split(text, '\n'), []))
    ensures rates == Derive(stats)
  {
    hide Apply, Derive;
    var path: seq<string> := [];
    var lines := Split(text, '\n');
    stats := ZERO;
    for i := 0 to |lines|
      invariant ApplyAll(ZERO, Entries(lines, [])) == ApplyAll(stats, Entries(lines[i..], path))
    {
      assert lines[i..][0] == lines[i] && lines[i..][1..] == lines[i + 1..];
      var m := MatchLine(lines[i]);
      if m.Some? {
        var level := m.value.indent / 2;
        if level <= |path| {
          ghost var e := Entry(path[..level] + [m.value.key], m.value.rest);
          assert Place(lines[i], path) == Some(e);
          assert ([e] + Entries(lines[i + 1..], e.path))[1..] == Entries(lines[i + 1..], e.path);
          path := path[..level] + [m.value.key];
          var nums := Numbers(m.value.rest);
          var first, second := 0.0, 0.0;
          if |nums| > 0 {
            first := Decimal(nums[0]);
          }
          if |nums| > 1 {
            second := Decimal(nums[1]);
          }
          stats := Apply(stats, Join(path, " / "), first, second);
        }
      }
    }
    rates := Derive(stats);
  }
}
