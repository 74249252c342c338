/** The local invocation log: one file of records per day, swept of old days, read from its end. */
module InvocationLog {
  import opened Bytes
  import opened Calendar
  import T = Text

  datatype Record = Record(invocationID: string, command: string, tool: string, startedAt: int, exitCode: int)

  /** How a record becomes a line and a line a record again. */
  datatype Codec = Codec(encode: Record -> string, decode: string -> Option<Record>)

  ghost predicate Sound(c: Codec) {
    forall r :: c.decode(c.encode(r)) == Some(r) && '\n' !in c.encode(r) && c.encode(r) != ""
  }

  const DAY: nat := 86400
  const RETENTION: nat := 30

  function DayOf(time: nat): nat {
    time / DAY
  }

  // ----- one file ----------------------------------------------------------------------------

  /** Lines as a file holds them, each ended by a line break. */
  function TextOf(lines: seq<string>): string {
    if lines == [] then "" else lines[0] + "\n" + TextOf(lines[1..])
  }

  function TrimRight(s: string): string {
    if s != "" && s[|s| - 1] == '\n' then TrimRight(s[..|s| - 1]) else s
  }

  /** Empty lines and lines that are no record are skipped. */
  function DecodeAll(c: Codec, lines: seq<string>): seq<Record> {
    if lines == [] then []
    else if lines[0] == "" || c.decode(lines[0]).None? then DecodeAll(c, lines[1..])
    else [c.decode(lines[0]).value] + DecodeAll(c, lines[1..])
  }

  function ReadText(c: Codec, text: string): seq<Record> {
    DecodeAll(c, T.Split(TrimRight(text), '\n'))
  }

  lemma {:induction false} DecodeAppend(c: Codec, a: seq<string>, b: seq<string>)
    ensures DecodeAll(c, a + b) == DecodeAll(c, a) + DecodeAll(c, b)
  {
    if a == [] {
      assert a + b == b;
    } else {
      assert (a + b)[0] == a[0] && (a + b)[1..] == a[1..] + b;
      DecodeAppend(c, a[1..], b);
    }
  }

  lemma DecodeNothing(c: Codec)
    ensures DecodeAll(c, [""]) == []
  {
    var none: seq<string> := [""][1..];
    assert none == [] && DecodeAll(c, none) == [];
  }

  /** The line breaks cut off at the end only ever held empty lines. */
  lemma {:induction false} TrimmingLosesNothing(c: Codec, s: string)
    ensures DecodeAll(c, T.Split(TrimRight(s), '\n')) == DecodeAll(c, T.Split(s, '\n'))
    decreases |s|
  {
    if s != "" && s[|s| - 1] == '\n' {
      var front := s[..|s| - 1];
      TrimmingLosesNothing(c, front);
      assert s == front + "\n";
      hide T.Split, DecodeAll;
      SplitBreak(front);
      DecodeAppend(c, T.Split(front, '\n'), [""]);
      DecodeNothing(c);
    }
  }

  lemma SplitBreak(front: string)
    ensures T.Split(front + "\n", '\n') == T.Split(front, '\n') + [""]
  {
    hide T.Split, T.Seam;
    T.SplitAppend(front, "\n", '\n');
    T.SplitLone('\n');
    T.SeamLone(T.Split(front, '\n'));
  }

  lemma {:induction false} SplitText(lines: seq<string>)
    requires T.AllFree(lines, '\n')
    ensures T.Split(TextOf(lines), '\n') == lines + [""]
  {
    if lines == [] {
      T.SplitFree("", '\n');
    } else {
      SplitText(lines[1..]);
      T.SplitFirst(lines[0], TextOf(lines[1..]), '\n');
      assert [lines[0]] + (lines[1..] + [""]) == lines + [""];
    }
  }

  /** Reading a file gives its records in order; lines that are empty or no records cost nothing
      else. */
  lemma ReadTextOf(c: Codec, lines: seq<string>)
    requires T.AllFree(lines, '\n')
    ensures ReadText(c, TextOf(lines)) == DecodeAll(c, lines)
  {
    TrimmingLosesNothing(c, TextOf(lines));
    SplitText(lines);
    DecodeAppend(c, lines, [""]);
    DecodeNothing(c);
  }

  function EncodeAll(c: Codec, rs: seq<Record>): (lines: seq<string>)
    ensures |lines| == |rs| && forall i :: 0 <= i < |rs| ==> lines[i] == c.encode(rs[i])
  {
    seq(|rs|, i requires 0 <= i < |rs| => c.encode(rs[i]))
  }

  lemma {:induction false} DecodeEncoded(c: Codec, rs: seq<Record>)
    requires Sound(c)
    ensures DecodeAll(c, EncodeAll(c, rs)) == rs
  {
    if rs != [] {
      assert EncodeAll(c, rs)[1..] == EncodeAll(c, rs[1..]);
      DecodeEncoded(c, rs[1..]);
      assert rs == [rs[0]] + rs[1..];
    }
  }

  // ----- the directory -----------------------------------------------------------------------

  datatype File = File(name: string, text: string)

  /** The daily files in the order they are listed, and when the last sweep ended. */
  datatype Log = Log(files: seq<File>, marker: Option<nat>)

  const EMPTY: Log := Log([], None)

  /** Opened for appending, created when missing. */
  function Put(files: seq<File>, name: string, line: string): seq<File> {
    if files == [] then [File(name, line)]
    else if files[0].name == name then [File(name, files[0].text + line)] + files[1..]
    else if Lex(name, files[0].name) then [File(name, line)] + files
    else [files[0]] + Put(files[1..], name, line)
  }

  /** A file for a day before the cutoff day; other names are left alone. */
  predicate Stale(name: string, cutoff: int) {
    cutoff > 0 && DateOfName(name).Some? && Before(DateOfName(name).value, DateOf(cutoff))
  }

  /** Removes the stale files in order; the removal after `budget` of them fails and ends the
      sweep. */
  function Sweep(files: seq<File>, cutoff: int, budget: nat): (r: (seq<File>, bool)) {
    if files == [] then ([], true)
    else if Stale(files[0].name, cutoff) then
      if budget == 0 then (files, false) else Sweep(files[1..], cutoff, budget - 1)
    else
      var (rest, ok) := Sweep(files[1..], cutoff, budget);
      ([files[0]] + rest, ok)
  }

  function Cutoff(now: nat): int {
    DayOf(now) - RETENTION
  }

  function MaybeSweep(log: Log, now: nat, budget: nat): Log {
    if log.marker.Some? && now < log.marker.value + DAY then log
    else
      var (files, ok) := Sweep(log.files, Cutoff(now), budget);
      Log(files, if ok then Some(now) else log.marker)
  }

  /** One append: the record, the time on the clock, how many removals would succeed if it sweeps,
      and whether the directory and the file can be opened at all. */
  datatype Event = Event(rec: Record, now: nat, budget: nat, opens: bool)

  function Append(c: Codec, log: Log, e: Event): Log {
    MaybeSweep(log.(files := Put(log.files, NameOf(DateOf(DayOf(e.now))), c.encode(e.rec) + "\n")), e.now, e.budget)
  }

  function Run(c: Codec, es: seq<Event>): Log {
    if es == [] then EMPTY else Append(c, Run(c, es[..|es| - 1]), es[|es| - 1])
  }

  /** An append that cannot open its file changes nothing. */
  function RunAll(c: Codec, es: seq<Event>): Log {
    if es == [] then EMPTY
    else
      var log := RunAll(c, es[..|es| - 1]);
      if es[|es| - 1].opens then Append(c, log, es[|es| - 1]) else log
  }

  /** The appends that took place. */
  function Taken(es: seq<Event>): seq<Event> {
    if es == [] then []
    else Taken(es[..|es| - 1]) + if es[|es| - 1].opens then [es[|es| - 1]] else []
  }

  function AllRecords(c: Codec, files: seq<File>): seq<Record> {
    if files == [] then [] else ReadText(c, files[0].text) + AllRecords(c, files[1..])
  }

  function LastN<X>(s: seq<X>, n: int): seq<X> {
    if n <= 0 then [] else if n >= |s| then s else s[|s| - n..]
  }

  // ----- any directory -----------------------------------------------------------------------

  /** As a directory is listed: by name, no name twice. */
  predicate Listed(files: seq<File>) {
    forall i, j :: 0 <= i < j < |files| ==> Lex(files[i].name, files[j].name)
  }

  function TextUnder(files: seq<File>, name: string): Option<string> {
    if files == [] then None else if files[0].name == name then Some(files[0].text) else TextUnder(files[1..], name)
  }

  lemma {:induction false} NotFurtherOn(files: seq<File>, name: string)
    requires forall i :: 0 <= i < |files| ==> files[i].name != name
    ensures TextUnder(files, name).None?
  {
    if files != [] {
      NotFurtherOn(files[1..], name);
    }
  }

  /** Whatever the directory holds, files of other days and other programs included and whatever the
      clock says: an append adds its line to the end of the one file it names, or starts it; every other
      file stays what it was, and the listing stays in order. */
  lemma {:induction false} PutTouchesOneFile(files: seq<File>, name: string, line: string)
    requires Listed(files)
    ensures var before, after := TextUnder(files, name), Put(files, name, line);
            && TextUnder(after, name) == Some((if before.Some? then before.value else "") + line)
            && (forall other :: other != name ==> TextUnder(after, other) == TextUnder(files, other))
            && Listed(after)
            && (forall f :: f in after ==> f.name == name || f in files)
  {
    hide Lex;
    assert "" + line == line;
    if files != [] {
      var rest := files[1..];
      forall j | 0 <= j < |files|
        ensures Lex(name, files[0].name) ==> Lex(name, files[j].name) && files[j].name != name
      {
        LexOrders(name, files[0].name, files[j].name);
      }
      LexOrders(name, files[0].name, "");
      if files[0].name == name {
        var grown := File(name, files[0].text + line);
        assert ([grown] + rest)[1..] == rest;
      } else if Lex(name, files[0].name) {
        NotFurtherOn(files, name);
        assert ([File(name, line)] + files)[1..] == files;
      } else {
        PutTouchesOneFile(rest, name, line);
        var after := Put(rest, name, line);
        assert ([files[0]] + after)[1..] == after;
        forall j | 0 <= j < |after|
          ensures Lex(files[0].name, after[j].name)
        {
          assert after[j] in after;
        }
      }
    }
  }

  // ----- the same log as groups of records ---------------------------------------------------

  datatype Group = Group(day: nat, recs: seq<Record>)

  datatype Stamp = Stamp(day: nat, rec: Record)

  function FileOf(c: Codec, g: Group): File {
    File(NameOf(DateOf(g.day)), TextOf(EncodeAll(c, g.recs)))
  }

  function FilesOf(c: Codec, gs: seq<Group>): (fs: seq<File>)
    ensures |fs| == |gs| && forall i :: 0 <= i < |gs| ==> fs[i] == FileOf(c, gs[i])
  {
    seq(|gs|, i requires 0 <= i < |gs| => FileOf(c, gs[i]))
  }

  function Stamps(g: Group): (ss: seq<Stamp>)
    ensures |ss| == |g.recs| && forall i :: 0 <= i < |ss| ==> ss[i] == Stamp(g.day, g.recs[i])
  {
    seq(|g.recs|, i requires 0 <= i < |g.recs| => Stamp(g.day, g.recs[i]))
  }

  function Flatten(gs: seq<Group>): seq<Stamp> {
    if gs == [] then [] else Stamps(gs[0]) + Flatten(gs[1..])
  }

  /** Days in order, none after `today`, all of them days whose names sort. */
  ghost predicate Ordered(gs: seq<Group>, today: nat) {
    && DateOf(today).year <= 9999
    && (forall i :: 0 <= i < |gs| ==> gs[i].day <= today)
    && (forall i, j :: 0 <= i < j < |gs| ==> gs[i].day < gs[j].day)
  }

  function PutGroup(gs: seq<Group>, day: nat, rec: Record): seq<Group> {
    if gs == [] || gs[|gs| - 1].day != day then gs + [Group(day, [rec])]
    else gs[..|gs| - 1] + [Group(day, gs[|gs| - 1].recs + [rec])]
  }

  /** How many groups at the front are for days before the cutoff. */
  function Old(gs: seq<Group>, cutoff: int): (k: nat)
    ensures k <= |gs|
    ensures forall i :: 0 <= i < k ==> gs[i].day < cutoff
    ensures k < |gs| ==> gs[k].day >= cutoff
  {
    if gs == [] || gs[0].day >= cutoff then 0
    else
      var k := Old(gs[1..], cutoff);
      assert forall i :: 1 <= i < k + 1 ==> gs[i] == gs[1..][i - 1];
      k + 1
  }

  lemma NamesSort(a: nat, b: nat)
    requires DateOf(a).year <= 9999 && DateOf(b).year <= 9999
    ensures Lex(NameOf(DateOf(a)), NameOf(DateOf(b))) <==> a < b
    ensures NameOf(DateOf(a)) == NameOf(DateOf(b)) <==> a == b
  {
    NamesFollowDates(DateOf(a), DateOf(b));
    DaysFollowDates(a, b);
    DaysFollowDates(b, a);
    NameReadsBack(DateOf(a));
    NameReadsBack(DateOf(b));
  }

  lemma StaleIffOld(day: nat, today: nat, cutoff: int)
    requires day <= today && DateOf(today).year <= 9999
    ensures Stale(NameOf(DateOf(day)), cutoff) <==> day < cutoff
  {
    YearsGrow(day, today);
    NameReadsBack(DateOf(day));
    if cutoff > 0 {
      DaysFollowDates(day, cutoff);
    }
  }

  lemma {:induction false} TextOfAppend(lines: seq<string>, line: string)
    ensures TextOf(lines + [line]) == TextOf(lines) + (line + "\n")
  {
    if lines == [] {
      var none: seq<string> := [line][1..];
      assert none == [] && [] + [line] == [line] && TextOf([line]) == line + "\n" + TextOf(none);
      assert TextOf([line]) == line + "\n";
    } else {
      TextOfAppend(lines[1..], line);
      assert (lines + [line])[0] == lines[0] && (lines + [line])[1..] == lines[1..] + [line];
      assert lines[0] + "\n" + (TextOf(lines[1..]) + (line + "\n"))
             == (lines[0] + "\n" + TextOf(lines[1..])) + (line + "\n");
    }
  }

  lemma FileGrows(c: Codec, g: Group, rec: Record)
    ensures FileOf(c, Group(g.day, g.recs + [rec]))
            == File(NameOf(DateOf(g.day)), FileOf(c, g).text + (c.encode(rec) + "\n"))
  {
    assert EncodeAll(c, g.recs + [rec]) == EncodeAll(c, g.recs) + [c.encode(rec)];
    TextOfAppend(EncodeAll(c, g.recs), c.encode(rec));
  }

  lemma {:induction false} PutNew(fs: seq<File>, name: string, line: string)
    requires forall i :: 0 <= i < |fs| ==> fs[i].name != name && !Lex(name, fs[i].name)
    ensures Put(fs, name, line) == fs + [File(name, line)]
  {
    if fs != [] {
      PutNew(fs[1..], name, line);
      assert fs == [fs[0]] + fs[1..];
    }
  }

  lemma {:induction false} PutLast(fs: seq<File>, name: string, line: string)
    requires fs != [] && fs[|fs| - 1].name == name
    requires forall i :: 0 <= i < |fs| - 1 ==> fs[i].name != name && !Lex(name, fs[i].name)
    ensures Put(fs, name, line) == fs[..|fs| - 1] + [File(name, fs[|fs| - 1].text + line)]
  {
    if |fs| > 1 {
      PutLast(fs[1..], name, line);
      assert fs[..|fs| - 1] == [fs[0]] + fs[1..][..|fs| - 2];
    }
  }

  lemma EarlierNames(c: Codec, gs: seq<Group>, day: nat, n: nat)
    requires Ordered(gs, day) && n <= |gs| && forall i :: 0 <= i < n ==> gs[i].day != day
    ensures forall i :: 0 <= i < n ==>
              FilesOf(c, gs)[i].name != NameOf(DateOf(day)) && !Lex(NameOf(DateOf(day)), FilesOf(c, gs)[i].name)
  {
    forall i | 0 <= i < n
      ensures FilesOf(c, gs)[i].name != NameOf(DateOf(day)) && !Lex(NameOf(DateOf(day)), FilesOf(c, gs)[i].name)
    {
      YearsGrow(gs[i].day, day);
      NamesSort(day, gs[i].day);
    }
  }

  lemma FreshFile(c: Codec, day: nat, rec: Record)
    ensures FileOf(c, Group(day, [rec])) == File(NameOf(DateOf(day)), c.encode(rec) + "\n")
  {
    FileGrows(c, Group(day, []), rec);
    var none: seq<Record> := [];
    assert none + [rec] == [rec] && EncodeAll(c, none) == [];
    assert "" + (c.encode(rec) + "\n") == c.encode(rec) + "\n";
  }

  lemma PutIsPutGroup(c: Codec, gs: seq<Group>, day: nat, rec: Record)
    requires Ordered(gs, day)
    ensures Put(FilesOf(c, gs), NameOf(DateOf(day)), c.encode(rec) + "\n") == FilesOf(c, PutGroup(gs, day, rec))
  {
    hide NameOf, DateOf;
    var name, line, n := NameOf(DateOf(day)), c.encode(rec) + "\n", |gs| - 1;
    if gs == [] || gs[n].day != day {
      EarlierNames(c, gs, day, |gs|);
      PutNew(FilesOf(c, gs), name, line);
      FreshFile(c, day, rec);
      assert FilesOf(c, gs + [Group(day, [rec])]) == FilesOf(c, gs) + [FileOf(c, Group(day, [rec]))];
    } else {
      EarlierNames(c, gs, day, n);
      PutLast(FilesOf(c, gs), name, line);
      FileGrows(c, gs[n], rec);
      var longer := Group(day, gs[n].recs + [rec]);
      assert FilesOf(c, gs[..n] + [longer]) == FilesOf(c, gs)[..n] + [FileOf(c, longer)];
    }
  }

  /** Stale files that come first are removed from the front. */
  lemma {:induction false} SweepFront(fs: seq<File>, stale: nat, cutoff: int, budget: nat)
    requires stale <= |fs|
    requires forall i :: 0 <= i < |fs| ==> (Stale(fs[i].name, cutoff) <==> i < stale)
    ensures Sweep(fs, cutoff, budget) == (fs[Min(stale, budget)..], stale <= budget)
  {
    hide Stale;
    if fs != [] {
      if stale == 0 {
        SweepFront(fs[1..], 0, cutoff, budget);
        assert [fs[0]] + fs[1..] == fs;
      } else if budget > 0 {
        SweepFront(fs[1..], stale - 1, cutoff, budget - 1);
        assert fs[1..][Min(stale - 1, budget - 1)..] == fs[Min(stale, budget)..];
      }
    }
  }

  lemma OldOnesAreStale(c: Codec, gs: seq<Group>, today: nat, cutoff: int)
    requires Ordered(gs, today)
    ensures forall i :: 0 <= i < |gs| ==> (Stale(FilesOf(c, gs)[i].name, cutoff) <==> i < Old(gs, cutoff))
  {
    hide Stale, NameOf, DateOf;
    var k := Old(gs, cutoff);
    forall i | 0 <= i < |gs|
      ensures Stale(FilesOf(c, gs)[i].name, cutoff) <==> i < k
    {
      StaleIffOld(gs[i].day, today, cutoff);
      assert i > k ==> gs[k].day < gs[i].day;
    }
  }

  lemma FilesFrom(c: Codec, gs: seq<Group>, k: nat)
    requires k <= |gs|
    ensures FilesOf(c, gs)[k..] == FilesOf(c, gs[k..])
  {
  }

  /** So a sweep removes the oldest days first, as many as it may. */
  lemma SweepIsRemoved(c: Codec, gs: seq<Group>, today: nat, cutoff: int, budget: nat)
    requires Ordered(gs, today)
    ensures Sweep(FilesOf(c, gs), cutoff, budget)
            == (FilesOf(c, gs[Min(Old(gs, cutoff), budget)..]), Old(gs, cutoff) <= budget)
  {
    OldOnesAreStale(c, gs, today, cutoff);
    SweepFront(FilesOf(c, gs), Old(gs, cutoff), cutoff, budget);
    FilesFrom(c, gs, Min(Old(gs, cutoff), budget));
  }

  // ----- whole runs --------------------------------------------------------------------------

  /** The clock never goes back and stays within years of four digits. */
  ghost predicate Clocked(es: seq<Event>) {
    && (forall i, j :: 0 <= i < j < |es| ==> es[i].now <= es[j].now)
    && (forall i :: 0 <= i < |es| ==> DateOf(DayOf(es[i].now)).year <= 9999)
  }

  /** The records of a run with their days. */
  function Appended(es: seq<Event>): (ss: seq<Stamp>)
    ensures |ss| == |es| && forall i :: 0 <= i < |es| ==> ss[i] == Stamp(DayOf(es[i].now), es[i].rec)
  {
    seq(|es|, i requires 0 <= i < |es| => Stamp(DayOf(es[i].now), es[i].rec))
  }

  lemma {:induction false} FlattenAppend(a: seq<Group>, b: seq<Group>)
    ensures Flatten(a + b) == Flatten(a) + Flatten(b)
  {
    if a == [] {
      assert a + b == b;
    } else {
      assert (a + b)[0] == a[0] && (a + b)[1..] == a[1..] + b;
      FlattenAppend(a[1..], b);
    }
  }

  lemma FlattenOne(g: Group)
    ensures Flatten([g]) == Stamps(g)
  {
    var none: seq<Group> := [g][1..];
    assert none == [] && Flatten(none) == [];
  }

  lemma PutGroupOrdered(gs: seq<Group>, day: nat, rec: Record)
    requires Ordered(gs, day)
    ensures Ordered(PutGroup(gs, day, rec), day)
  {
    var hs := PutGroup(gs, day, rec);
    forall i, j | 0 <= i < j < |hs|
      ensures hs[i].day < hs[j].day
    {
      assert i < |gs| - 1 ==> gs[i].day < gs[|gs| - 1].day;
    }
  }

  lemma PutGroupAppends(gs: seq<Group>, day: nat, rec: Record)
    requires Ordered(gs, day)
    ensures Ordered(PutGroup(gs, day, rec), day)
    ensures Flatten(PutGroup(gs, day, rec)) == Flatten(gs) + [Stamp(day, rec)]
  {
    PutGroupOrdered(gs, day, rec);
    if gs == [] || gs[|gs| - 1].day != day {
      FlattenAppend(gs, [Group(day, [rec])]);
      FlattenOne(Group(day, [rec]));
      assert Stamps(Group(day, [rec])) == [Stamp(day, rec)];
    } else {
      LongerLast(gs[..|gs| - 1], gs[|gs| - 1], rec);
      assert gs == gs[..|gs| - 1] + [gs[|gs| - 1]];
    }
  }

  lemma LongerLast(front: seq<Group>, last: Group, rec: Record)
    ensures Flatten(front + [Group(last.day, last.recs + [rec])]) == Flatten(front + [last]) + [Stamp(last.day, rec)]
  {
    var longer := Group(last.day, last.recs + [rec]);
    FlattenAppend(front, [last]);
    FlattenAppend(front, [longer]);
    FlattenOne(last);
    FlattenOne(longer);
    assert Stamps(longer) == Stamps(last) + [Stamp(last.day, rec)];
    assert Flatten(front) + (Stamps(last) + [Stamp(last.day, rec)])
           == (Flatten(front) + Stamps(last)) + [Stamp(last.day, rec)];
  }

  lemma {:induction false} DropGroups(gs: seq<Group>, k: nat, cutoff: int) returns (d: nat)
    requires k <= |gs| && forall i :: 0 <= i < k ==> gs[i].day < cutoff
    ensures d <= |Flatten(gs)| && Flatten(gs[k..]) == Flatten(gs)[d..]
    ensures forall i :: 0 <= i < d ==> Flatten(gs)[i].day < cutoff
  {
    assert gs == gs[..k] + gs[k..];
    FlattenAppend(gs[..k], gs[k..]);
    d := |Flatten(gs[..k])|;
    DaysBelow(gs[..k], cutoff);
    assert forall i :: 0 <= i < d ==> Flatten(gs)[i] == Flatten(gs[..k])[i];
  }

  lemma {:induction false} DaysBelow(gs: seq<Group>, cutoff: int)
    requires forall i :: 0 <= i < |gs| ==> gs[i].day < cutoff
    ensures forall i :: 0 <= i < |Flatten(gs)| ==> Flatten(gs)[i].day < cutoff
  {
    if gs != [] {
      DaysBelow(gs[1..], cutoff);
    }
  }

  /** What an append leaves: the groups with the new record, less the first few. */
  lemma AppendOnGroups(c: Codec, log: Log, gs: seq<Group>, e: Event) returns (k: nat)
    requires log.files == FilesOf(c, gs) && Ordered(gs, DayOf(e.now))
    ensures var put := PutGroup(gs, DayOf(e.now), e.rec);
            && k <= |put| && (forall i :: 0 <= i < k ==> put[i].day < Cutoff(e.now))
            && Append(c, log, e).files == FilesOf(c, put[k..])
  {
    hide NameOf, DateOf, Put, Sweep;
    var day := DayOf(e.now);
    var put := PutGroup(gs, day, e.rec);
    PutIsPutGroup(c, gs, day, e.rec);
    PutGroupOrdered(gs, day, e.rec);
    k := 0;
    if log.marker.None? || e.now >= log.marker.value + DAY {
      SweepIsRemoved(c, put, day, Cutoff(e.now), e.budget);
      k := Min(Old(put, Cutoff(e.now)), e.budget);
    }
    assert put[0..] == put;
  }

  lemma RunLast(c: Codec, es: seq<Event>)
    ensures es != [] ==> Run(c, es) == Append(c, Run(c, es[..|es| - 1]), es[|es| - 1])
  {
  }

  lemma ClockGoesOn(es: seq<Event>, before: seq<Group>, d: nat)
    requires Clocked(es) && |es| >= 2 && d < |es|
    requires Ordered(before, DayOf(es[|es| - 2].now))
    requires forall i :: 0 <= i < d ==> DayOf(es[i].now) < Cutoff(es[|es| - 2].now)
    ensures Clocked(es[..|es| - 1]) && Ordered(before, DayOf(es[|es| - 1].now))
    ensures forall i :: 0 <= i < d ==> DayOf(es[i].now) < Cutoff(es[|es| - 1].now)
  {
    assert es[|es| - 2].now <= es[|es| - 1].now;
  }

  /** The groups after the last append hold a suffix of what was appended if those before it did. */
  lemma StillASuffix(all: seq<Stamp>, d: nat, put: seq<Group>, k: nat, cutoff: int) returns (dropped: nat)
    requires d <= |all| && k <= |put| && Flatten(put) == all[d..]
    requires forall i :: 0 <= i < k ==> put[i].day < cutoff
    ensures d <= dropped <= |all| && Flatten(put[k..]) == all[dropped..]
    ensures forall i :: d <= i < dropped ==> all[i].day < cutoff
  {
    var more := DropGroups(put, k, cutoff);
    dropped := d + more;
    assert all[d..][more..] == all[dropped..];
    forall i | d <= i < dropped
      ensures all[i].day < cutoff
    {
      assert Flatten(put)[i - d] == all[i];
    }
  }

  lemma AppendedOneMore(es: seq<Event>, d: nat)
    requires es != [] && d < |es|
    ensures Appended(es)[d..] == Appended(es[..|es| - 1])[d..] + [Stamp(DayOf(es[|es| - 1].now), es[|es| - 1].rec)]
  {
  }

  /** After any run of appends and sweeps, failed sweeps included, the files hold the appended
      records in order from some point on; all before that point are from days more than thirty
      days before the last append. */
  lemma {:induction false} RunKeepsRecent(c: Codec, es: seq<Event>) returns (gs: seq<Group>, dropped: nat)
    requires Clocked(es) && es != []
    ensures Run(c, es).files == FilesOf(c, gs) && Ordered(gs, DayOf(es[|es| - 1].now))
    ensures dropped <= |es| && Flatten(gs) == Appended(es)[dropped..]
    ensures forall i :: 0 <= i < dropped ==> DayOf(es[i].now) < Cutoff(es[|es| - 1].now)
    decreases |es|
  {
    hide Append, NameOf, DateOf, Run, DayOf, PutGroup, FilesOf, Flatten;
    var e := es[|es| - 1];
    var before: seq<Group>, d: nat := [], 0;
    if |es| == 1 {
      FirstClock(c, es);
    } else {
      ClockOfFront(es);
      before, d := RunKeepsRecent(c, es[..|es| - 1]);
      ClockGoesOn(es, before, d);
    }
    var put := PutGroup(before, DayOf(e.now), e.rec);
    PutGroupAppends(before, DayOf(e.now), e.rec);
    AppendedOneMore(es, d);
    RunLast(c, es);
    var k := AppendOnGroups(c, Run(c, es[..|es| - 1]), before, e);
    dropped := StillASuffix(Appended(es), d, put, k, Cutoff(e.now));
    gs := put[k..];
    SuffixOrdered(put, k, DayOf(e.now));
    forall i | 0 <= i < dropped
      ensures DayOf(es[i].now) < Cutoff(e.now)
    {
      assert Appended(es)[i].day == DayOf(es[i].now);
    }
  }

  lemma FirstClock(c: Codec, es: seq<Event>)
    requires Clocked(es) && |es| == 1
    ensures Run(c, es[..0]).files == FilesOf(c, []) && Ordered([], DayOf(es[0].now)) && Flatten([]) == Appended(es[..0])
  {
    assert es[..0] == [];
  }

  lemma SuffixOrdered(gs: seq<Group>, k: nat, today: nat)
    requires Ordered(gs, today) && k <= |gs|
    ensures Ordered(gs[k..], today)
  {
  }

  lemma ClockOfFront(es: seq<Event>)
    ensures Clocked(es) && es != [] ==> Clocked(es[..|es| - 1])
  {
  }

  function Recs(ss: seq<Stamp>): (rs: seq<Record>)
    ensures |rs| == |ss| && forall i :: 0 <= i < |ss| ==> rs[i] == ss[i].rec
  {
    seq(|ss|, i requires 0 <= i < |ss| => ss[i].rec)
  }

  lemma {:induction false} FilesHoldRecords(c: Codec, gs: seq<Group>)
    requires Sound(c)
    ensures AllRecords(c, FilesOf(c, gs)) == Recs(Flatten(gs))
  {
    hide ReadText, EncodeAll, TextOf, NameOf, DateOf;
    if gs != [] {
      FilesHoldRecords(c, gs[1..]);
      assert FilesOf(c, gs)[1..] == FilesOf(c, gs[1..]);
      ReadTextOf(c, EncodeAll(c, gs[0].recs));
      DecodeEncoded(c, gs[0].recs);
      assert Recs(Stamps(gs[0]) + Flatten(gs[1..])) == gs[0].recs + Recs(Flatten(gs[1..]));
    }
  }

  lemma {:induction false} FailedAppendsDoNothing(c: Codec, es: seq<Event>)
    ensures RunAll(c, es) == Run(c, Taken(es))
    decreases |es|
  {
    hide Append;
    if es != [] {
      var front, e := es[..|es| - 1], es[|es| - 1];
      FailedAppendsDoNothing(c, front);
      assert (Taken(front) + [e])[..|Taken(front)|] == Taken(front);
      assert Taken(front) + [] == Taken(front);
    }
  }

  lemma {:induction false} TakenAreClocked(es: seq<Event>)
    requires Clocked(es)
    ensures Clocked(Taken(es))
    ensures forall i :: 0 <= i < |Taken(es)| ==> Taken(es)[i].now <= es[|es| - 1].now
    decreases |es|
  {
    hide DateOf, DayOf;
    if es != [] {
      TakenAreClocked(es[..|es| - 1]);
      assert |es| > 1 ==> es[|es| - 2].now <= es[|es| - 1].now;
    }
  }

  /** `out` is the latest of the records: no more than n, none left out in between, and fewer than n
      only if all the others are more than thirty days old. */
  ghost predicate Latest(taken: seq<Event>, now: nat, n: int, out: seq<Record>) {
    && |out| <= |taken| && (|out| <= n || out == [])
    && (forall k :: 0 <= k < |out| ==> out[k] == taken[|taken| - |out| + k].rec)
    && (|out| < n ==> forall i :: 0 <= i < |taken| - |out| ==> taken[i].now + RETENTION * DAY < now)
  }

  /** After any run, with sweeps and appends that fail included, the last n records in the files are
      the latest ones appended; a record of the last thirty days is only missing if n newer ones are
      there. */
  lemma LatestAreThere(c: Codec, es: seq<Event>, n: int)
    requires Sound(c) && Clocked(es) && es != []
    ensures Latest(Taken(es), es[|es| - 1].now, n, LastN(AllRecords(c, RunAll(c, es).files), n))
  {
    var taken, now := Taken(es), es[|es| - 1].now;
    FailedAppendsDoNothing(c, es);
    TakenAreClocked(es);
    if taken != [] {
      var gs, dropped := RunKeepsRecent(c, taken);
      FilesHoldRecords(c, gs);
      DroppedAreOld(taken, dropped, now);
      LastOfSuffix(taken, dropped, now, n);
    }
  }

  lemma DroppedAreOld(taken: seq<Event>, dropped: nat, now: nat)
    requires dropped <= |taken| && taken != [] && taken[|taken| - 1].now <= now
    requires forall i :: 0 <= i < dropped ==> DayOf(taken[i].now) < Cutoff(taken[|taken| - 1].now)
    ensures forall i :: 0 <= i < dropped ==> taken[i].now + RETENTION * DAY < now
  {
    var last := taken[|taken| - 1].now;
    forall i | 0 <= i < dropped
      ensures taken[i].now + RETENTION * DAY < now
    {
      assert DayOf(taken[i].now) < Cutoff(last);
      OlderThanRetention(taken[i].now, last);
    }
  }

  lemma LastOfSuffix(taken: seq<Event>, dropped: nat, now: nat, n: int)
    requires dropped <= |taken|
    requires forall i :: 0 <= i < dropped ==> taken[i].now + RETENTION * DAY < now
    ensures Latest(taken, now, n, LastN(Recs(Appended(taken)[dropped..]), n))
  {
    hide DayOf, LastN, Recs, Appended;
    LastOfKept(taken, dropped, Recs(Appended(taken)[dropped..]), n);
  }

  lemma LastOfKept(taken: seq<Event>, dropped: nat, kept: seq<Record>, n: int)
    requires dropped <= |taken| && |kept| == |taken| - dropped
    requires forall k :: 0 <= k < |kept| ==> kept[k] == taken[dropped + k].rec
    ensures var out := LastN(kept, n);
            && |out| == (if n <= 0 then 0 else Min(n, |kept|))
            && forall k :: 0 <= k < |out| ==> out[k] == taken[|taken| - |out| + k].rec
  {
  }

  lemma OlderThanRetention(then_: nat, now: nat)
    ensures DayOf(then_) < Cutoff(now) ==> then_ + RETENTION * DAY < now
  {
  }

  // ----- how long old files stay -------------------------------------------------------------

  /** The last sweep was less than a day ago, and nothing is left that was too old then. */
  ghost predicate Fresh(gs: seq<Group>, marker: Option<nat>, now: nat) {
    && marker.Some? && marker.value <= now < marker.value + DAY
    && forall i :: 0 <= i < |gs| ==> gs[i].day >= Cutoff(marker.value)
  }

  lemma AppendKeepsFresh(c: Codec, log: Log, gs: seq<Group>, e: Event) returns (hs: seq<Group>)
    requires log.files == FilesOf(c, gs) && Ordered(gs, DayOf(e.now)) && |gs| < e.budget
    requires log.marker.Some? ==> log.marker.value <= e.now && forall i :: 0 <= i < |gs| ==>
             gs[i].day >= Cutoff(log.marker.value)
    ensures var z := Append(c, log, e);
            z.files == FilesOf(c, hs) && Ordered(hs, DayOf(e.now)) && Fresh(hs, z.marker, e.now) && |hs| <= |gs| + 1
  {
    hide NameOf, DateOf, Put, Sweep, PutGroup, DayOf, FilesOf;
    var day := DayOf(e.now);
    var put := PutGroup(gs, day, e.rec);
    PutIsPutGroup(c, gs, day, e.rec);
    PutGroupOrdered(gs, day, e.rec);
    if log.marker.Some? && e.now < log.marker.value + DAY {
      TodayIsNotOld(log.marker.value, e.now);
      PutGroupDays(gs, day, e.rec, Cutoff(log.marker.value));
      hs := put;
    } else {
      PutGroupDays(gs, day, e.rec, 0);
      SweepIsRemoved(c, put, day, Cutoff(e.now), e.budget);
      var k := Old(put, Cutoff(e.now));
      hs := put[k..];
      SuffixOrdered(put, k, day);
      NewerThanTheFirst(put, day, k, Cutoff(e.now));
    }
  }

  lemma TodayIsNotOld(then_: nat, now: nat)
    ensures then_ <= now ==> DayOf(now) >= Cutoff(then_)
  {
  }

  lemma PutGroupDays(gs: seq<Group>, day: nat, rec: Record, cutoff: int)
    ensures |PutGroup(gs, day, rec)| <= |gs| + 1
    ensures day >= cutoff && (forall i :: 0 <= i < |gs| ==> gs[i].day >= cutoff) ==>
              forall i :: 0 <= i < |PutGroup(gs, day, rec)| ==> PutGroup(gs, day, rec)[i].day >= cutoff
  {
  }

  lemma NewerThanTheFirst(gs: seq<Group>, today: nat, k: nat, cutoff: int)
    requires Ordered(gs, today) && k <= |gs| && (k < |gs| ==> gs[k].day >= cutoff)
    ensures forall i :: 0 <= i < |gs[k..]| ==> gs[k..][i].day >= cutoff
  {
    forall i | k <= i < |gs|
      ensures gs[i].day >= cutoff
    {
      assert i > k ==> gs[k].day < gs[i].day;
    }
  }

  lemma {:induction false} RunStaysFresh(c: Codec, es: seq<Event>) returns (gs: seq<Group>)
    requires Clocked(es) && es != [] && forall i :: 0 <= i < |es| ==> es[i].budget >= |es|
    ensures Run(c, es).files == FilesOf(c, gs) && Ordered(gs, DayOf(es[|es| - 1].now)) && |gs| <= |es|
    ensures Fresh(gs, Run(c, es).marker, es[|es| - 1].now)
    decreases |es|
  {
    hide Append, NameOf, DateOf, DayOf, FilesOf;
    var front, e := es[..|es| - 1], es[|es| - 1];
    var before: seq<Group> := [];
    if |es| == 1 {
      FirstClock(c, es);
    } else {
      ClockOfFront(es);
      before := RunStaysFresh(c, front);
      ClockGoesOn(es, before, 0);
      assert es[|es| - 2].now <= e.now;
    }
    gs := AppendKeepsFresh(c, Run(c, front), before, e);
  }

  /** When no removal fails, no file outlives its thirty days by more than a day, although sweeps run
      at most once a day: a writer that keeps appending keeps the directory clean. */
  lemma OldFilesGoWithinADay(c: Codec, es: seq<Event>)
    requires Clocked(es) && es != [] && forall i :: 0 <= i < |es| ==> es[i].budget >= |es|
    ensures forall f :: f in Run(c, es).files ==> !Stale(f.name, Cutoff(es[|es| - 1].now) - 1)
  {
    hide NameOf, DateOf, Stale, Run;
    var gs := RunStaysFresh(c, es);
    var now := es[|es| - 1].now;
    assert Cutoff(Run(c, es).marker.value) >= Cutoff(now) - 1;
    forall i | 0 <= i < |gs|
      ensures !Stale(FilesOf(c, gs)[i].name, Cutoff(now) - 1)
    {
      StaleIffOld(gs[i].day, DayOf(now), Cutoff(now) - 1);
    }
  }

  lemma SweepLeavesNoOldFile(c: Codec, gs: seq<Group>, now: nat, budget: nat)
    requires Ordered(gs, DayOf(now)) && Sweep(FilesOf(c, gs), Cutoff(now), budget).1
    ensures forall f :: f in Sweep(FilesOf(c, gs), Cutoff(now), budget).0 ==> !Stale(f.name, Cutoff(now))
  {
    SweepIsRemoved(c, gs, DayOf(now), Cutoff(now), budget);
    var left := gs[Min(Old(gs, Cutoff(now)), budget)..];
    forall i | 0 <= i < |left|
      ensures !Stale(FilesOf(c, left)[i].name, Cutoff(now))
    {
      StaleIffOld(left[i].day, DayOf(now), Cutoff(now));
    }
  }

  // ----- the writer and the reader -----------------------------------------------------------

  lemma {:induction false} AllRecordsAppend(c: Codec, a: seq<File>, b: seq<File>)
    ensures AllRecords(c, a + b) == AllRecords(c, a) + AllRecords(c, b)
  {
    if a == [] {
      assert a + b == b;
    } else {
      assert (a + b)[0] == a[0] && (a + b)[1..] == a[1..] + b;
      AllRecordsAppend(c, a[1..], b);
    }
  }

  lemma OneMoreFile(c: Codec, files: seq<File>, i: nat)
    requires i < |files|
    ensures AllRecords(c, files[i..]) == ReadText(c, files[i].text) + AllRecords(c, files[i + 1..])
    ensures AllRecords(c, files) == AllRecords(c, files[..i]) + AllRecords(c, files[i..])
  {
    assert files[i..][0] == files[i] && files[i..][1..] == files[i + 1..];
    assert files == files[..i] + files[i..];
    AllRecordsAppend(c, files[..i], files[i..]);
  }

  class Store {
    var files: seq<File>
    var marker: Option<nat>

    constructor ()
      ensures Contents() == EMPTY
    {
      files, marker := [], None;
    }

    function Contents(): Log
      reads this
    {
      Log(files, marker)
    }

    /** `Writer.Append`. */
    method AppendRecord(c: Codec, e: Event) returns (ok: bool)
      modifies this
      ensures ok == e.opens && Contents() == if e.opens then Append(c, old(Contents()), e) else old(Contents())
    {
      hide NameOf, DateOf, Lex, MaybeSweep;
      var name, line := NameOf(DateOf(DayOf(e.now))), c.encode(e.rec) + "\n";
      if !e.opens {
        return false;
      }
      var i := 0;
      while i < |files| && files[i].name != name && !Lex(name, files[i].name)
        invariant 0 <= i <= |files| && files == old(files) && marker == old(marker)
        invariant Put(files, name, line) == files[..i] + Put(files[i..], name, line)
      {
        assert files[i..][0] == files[i] && files[i..][1..] == files[i + 1..];
        assert files[..i] + ([files[i]] + Put(files[i + 1..], name, line))
               == files[..i + 1] + Put(files[i + 1..], name, line);
        i := i + 1;
      }
      if i < |files| && files[i].name == name {
        files := files[..i] + [File(name, files[i].text + line)] + files[i + 1..];
      } else {
        files := files[..i] + [File(name, line)] + files[i..];
      }
      assert files == Put(old(files), name, line);
      SweepIfDue(e.now, e.budget);
      ok := true;
    }

    method SweepIfDue(now: nat, budget: nat)
      modifies this
      ensures Contents() == MaybeSweep(old(Contents()), now, budget)
    {
      if marker.Some? && now < marker.value + DAY {
        return;
      }
      var ok := SweepOld(Cutoff(now), budget);
      if ok {
        marker := Some(now);
      }
    }

    method SweepOld(cutoff: int, budget: nat) returns (ok: bool)
      modifies this`files
      ensures (files, ok) == Sweep(old(files), cutoff, budget)
    {
      var kept: seq<File>, i, left := [], 0, budget;
      ghost var listed := files;
      while i < |files|
        invariant 0 <= i <= |files| && files == listed
        invariant Sweep(listed, cutoff, budget).0 == kept + Sweep(files[i..], cutoff, left).0
        invariant Sweep(listed, cutoff, budget).1 == Sweep(files[i..], cutoff, left).1
      {
        assert files[i..][0] == files[i] && files[i..][1..] == files[i + 1..];
        if Stale(files[i].name, cutoff) {
          if left == 0 {
            files := kept + files[i..];
            return false;
          }
          left := left - 1;
        } else {
          assert kept + ([files[i]] + Sweep(files[i + 1..], cutoff, left).0)
                 == (kept + [files[i]]) + Sweep(files[i + 1..], cutoff, left).0;
          kept := kept + [files[i]];
        }
        i := i + 1;
      }
      assert kept + [] == kept;
      files := kept;
      return true;
    }

    /** `Reader.Recent`: backwards from the newest file, only as far as needed. It fails if and only
        if the directory, or a file that is needed, cannot be read. After any run of appends its
        answer is the latest records. */
    method Recent(c: Codec, n: int, listable: bool, unreadable: set<string>) returns (out: Option<seq<Record>>)
      ensures out.None? <==> n > 0 && (!listable || exists i :: NeededButUnreadable(c, files, n, unreadable, i))
      ensures out.Some? ==> out.value == LastN(AllRecords(c, files), n)
      ensures Sound(c) && out.Some? ==>
                forall es: seq<Event> :: Clocked(es) && es != [] && Contents() == RunAll(c, es) ==>
                    Latest(Taken(es), es[|es| - 1].now, n, out.value)
    {
      hide Latest, Taken, RunAll, Clocked, Sound, LastN, AllRecords, ReadText;
      LatestInAnyRun(c, Contents(), n);
      if n <= 0 {
        LastFew(c, files, [], 0, n);
        return Some([]);
      }
      if !listable {
        return None;
      }
      var read: seq<Record> := [];
      var i := |files|;
      NoMoreFiles(c, files);
      while i > 0
        invariant 0 <= i <= |files| && |read| < n
        invariant read == AllRecords(c, files[i..])
        invariant forall j :: i <= j < |files| ==> !NeededButUnreadable(c, files, n, unreadable, j)
      {
        OneMoreFile(c, files, i - 1);
        if files[i - 1].name in unreadable {
          assert NeededButUnreadable(c, files, n, unreadable, i - 1);
          return None;
        }
        i := i - 1;
        read := ReadText(c, files[i].text) + read;
        if |read| >= n {
          NoneNeededBefore(c, files, n, unreadable, i);
          LastFew(c, files, read, i, n);
          return Some(read[|read| - n..]);
        }
      }
      LastFew(c, files, read, 0, n);
      out := Some(read);
    }
  }

  lemma LatestInAnyRun(c: Codec, log: Log, n: int)
    ensures Sound(c) ==>
              forall es: seq<Event> :: Clocked(es) && es != [] && log == RunAll(c, es) ==>
                Latest(Taken(es), es[|es| - 1].now, n, LastN(AllRecords(c, log.files), n))
  {
    hide Latest, Taken, RunAll, Clocked, Sound, LastN, AllRecords;
    forall es: seq<Event> | Sound(c) && Clocked(es) && es != [] && log == RunAll(c, es)
      ensures Latest(Taken(es), es[|es| - 1].now, n, LastN(AllRecords(c, log.files), n))
    {
      LatestAreThere(c, es, n);
    }
  }

  lemma NoMoreFiles(c: Codec, files: seq<File>)
    ensures AllRecords(c, files[|files|..]) == []
  {
  }

  /** The last n records of all files are the last n of the newest ones, if those are enough or all. */
  lemma LastFew(c: Codec, files: seq<File>, read: seq<Record>, i: nat, n: int)
    requires i <= |files|
    ensures n <= 0 ==> LastN(AllRecords(c, files), n) == []
    ensures read == AllRecords(c, files[i..]) && n > 0 && |read| >= n ==>
            LastN(AllRecords(c, files), n) == read[|read| - n..]
    ensures read == AllRecords(c, files[i..]) && n > 0 && |read| < n && i == 0 ==>
            LastN(AllRecords(c, files), n) == read
  {
    assert files == files[..i] + files[i..];
    AllRecordsAppend(c, files[..i], files[i..]);
  }

  /** File `i` cannot be read, and the files after it do not hold n records. */
  predicate NeededButUnreadable(c: Codec, files: seq<File>, n: int, unreadable: set<string>, i: int) {
    0 <= i < |files| && files[i].name in unreadable && |AllRecords(c, files[i + 1..])| < n
  }

  lemma NoneNeededBefore(c: Codec, files: seq<File>, n: int, unreadable: set<string>, k: nat)
    requires k <= |files| && |AllRecords(c, files[k..])| >= n
    ensures forall i :: 0 <= i < k ==> !NeededButUnreadable(c, files, n, unreadable, i)
  {
    forall i | 0 <= i < k
      ensures !NeededButUnreadable(c, files, n, unreadable, i)
    {
      assert files[i + 1..] == files[i + 1..k] + files[k..];
      AllRecordsAppend(c, files[i + 1..k], files[k..]);
    }
  }
}
