/** When a concurrent collection records each path once: the exact condition, on the tree alone. */
module FileGroupOnce {
  import opened Bytes
  import opened FileGroup
  import opened FileGroupRace

  // ----- what a goroutine records ------------------------------------------------------------

  /** Whether an entry behind a link is recorded when it is not yet. */
  predicate Collectable(fs: FileSystem, o: Options, p: Path) {
    fs.kind(p).Dir? || (fs.kind(p).File? && Recordable(fs, o, p))
  }

  /** The paths the goroutine for a path is out to record: the path itself, and for a link it follows
      the file, or the entries of the directory, behind it. */
  function Own(fs: FileSystem, o: Options, p: Path): set<Path> {
    match fs.kind(p)
    case Dir => {p}
    case File => if Recordable(fs, o, p) then {p} else {}
    case BadLink => {}
    case Link(target) =>
      if !Followed(fs, o, p, target) then {}
      else if fs.stat(target).NotDir? then {p} + if Recordable(fs, o, target) then {target} else {}
      else {p} + set e | e in fs.walk(target) && e.Found? && Collectable(fs, o, e.path) :: e.path
  }

  /** An entry that holds no further link to follow and does not fail. */
  predicate Plain(fs: FileSystem, o: Options, e: Entry) {
    && e.Found?
    && (fs.kind(e.path).Dir? || Skipped(o, e.path) || (fs.kind(e.path).File? && fs.opens(e.path)))
  }

  /** Anything but a link to a directory in which there are further links or unreadable entries. */
  ghost predicate Simple(fs: FileSystem, o: Options, p: Path) {
    var kind := fs.kind(p);
    kind.Link? && Followed(fs, o, p, kind.target) && fs.stat(kind.target).IsDir? ==>
      && fs.kind(kind.target).Dir?
      && (forall e :: e in fs.walk(kind.target) ==> Plain(fs, o, e))
      && Found(kind.target) in fs.walk(kind.target)
  }

  function TargetOf(fs: FileSystem, p: Path): Path {
    if fs.kind(p).Link? then fs.kind(p).target else p
  }

  lemma OwnHasPath(fs: FileSystem, o: Options, p: Path)
    ensures Own(fs, o, p) != {} ==> p in Own(fs, o, p)
  {
  }

  /** Whoever is out to record more than the path itself is out to record what its link leads to. */
  lemma OwnHasTarget(fs: FileSystem, o: Options, p: Path, x: Path)
    requires Simple(fs, o, p) && x in Own(fs, o, p) && x != p
    ensures TargetOf(fs, p) in Own(fs, o, p)
  {
  }

  // ----- enough ------------------------------------------------------------------------------

  function RegionOf(fs: FileSystem, o: Options, p: Path): Region {
    Region(Own(fs, o, p), if p in Own(fs, o, p) then {p} else {})
  }

  lemma OwnIsReach(fs: FileSystem, o: Options, p: Path)
    requires Simple(fs, o, p)
    ensures CheckIn(fs, o, p, fs.kind(p), RegionOf(fs, o, p))
    ensures Led(fs, o, RegionOf(fs, o, p))
  {
  }

  function Regions(fs: FileSystem, o: Options, ps: seq<Path>): (rs: seq<Region>)
    ensures |rs| == |ps| && forall i :: 0 <= i < |ps| ==> rs[i] == RegionOf(fs, o, ps[i])
  {
    seq(|ps|, i requires 0 <= i < |ps| => RegionOf(fs, o, ps[i]))
  }

  ghost predicate AllSimple(fs: FileSystem, o: Options, ps: seq<Path>) {
    forall i :: 0 <= i < |ps| ==> Simple(fs, o, ps[i])
  }

  predicate OwnApart(fs: FileSystem, o: Options, ps: seq<Path>) {
    forall i, j :: 0 <= i < j < |ps| ==> Own(fs, o, ps[i]) !! Own(fs, o, ps[j])
  }

  lemma ApartIsEnough(fs: FileSystem, o: Options, ps: seq<Path>, order: seq<nat>, p: Path)
    requires AllSimple(fs, o, ps) && OwnApart(fs, o, ps)
    ensures Recorded(Turns(fs, o, Started(fs, ps), order).state)[p] <= 1
  {
    hide Own, Simple, Led, CheckIn, Turns, Recorded, Started;
    var reach := Regions(fs, o, ps);
    forall i | 0 <= i < |ps|
      ensures Led(fs, o, reach[i]) && CheckIn(fs, o, ps[i], fs.kind(ps[i]), reach[i])
    {
      OwnIsReach(fs, o, ps[i]);
    }
    DisjointReachRecordsOnce(fs, o, ps, reach, order, p);
  }

  // ----- a goroutine up to the point before it records ---------------------------------------

  /** The next step records the path. */
  predicate About(ts: seq<Task>, x: Path) {
    ts != [] && (ts[0].RecordFile? || ts[0].RecordDir? || ts[0].RecordLink?) && ts[0].path == x
  }

  /** The goroutine has come, in n steps, to where it records a path that is not recorded yet. */
  ghost predicate Brought(fs: FileSystem, o: Options, s: State, ts: seq<Task>, n: nat, x: Path) {
    var (t, us) := Steps(fs, o, s, ts, n);
    About(us, x) && x !in t.seen
  }

  lemma BroughtLater(
    fs: FileSystem, o: Options, s: State, ts: seq<Task>, m: nat, t: State, us: seq<Task>, n: nat, x: Path)
    requires Steps(fs, o, s, ts, m) == (t, us) && Brought(fs, o, t, us, n, x)
    ensures Brought(fs, o, s, ts, m + n, x)
  {
    StepsAdd(fs, o, s, ts, m, n);
  }

  lemma OneAdvance(fs: FileSystem, o: Options, s: State, t: Task, rest: seq<Task>, s': State, us: seq<Task>)
    requires Advance(fs, o, s, [t] + rest) == (s', us)
    ensures Steps(fs, o, s, [t] + rest, 1) == (s', us)
  {
    hide Advance;
    OneStep(fs, o, s, t, rest);
  }

  lemma TwoAdvances(
    fs: FileSystem, o: Options, s: State, t: Task, u: Task, rest: seq<Task>, s': State, us: seq<Task>)
    requires Advance(fs, o, s, [t] + rest) == (s, [u] + rest) && Advance(fs, o, s, [u] + rest) == (s', us)
    ensures Steps(fs, o, s, [t] + rest, 2) == (s', us)
  {
    hide Advance;
    OneAdvance(fs, o, s, t, rest, s, [u] + rest);
    OneAdvance(fs, o, s, u, rest, s', us);
    StepsAdd(fs, o, s, [t] + rest, 1, 1);
  }

  lemma FirstTask(fs: FileSystem, es: seq<Entry>)
    requires es != [] && es[0].Found?
    ensures Tasks(fs, es) == [Check(es[0].path, fs.kind(es[0].path))] + Tasks(fs, es[1..])
  {
  }

  lemma EntryIsFound(fs: FileSystem, o: Options, e: Entry)
    ensures Plain(fs, o, e) ==> e.Found?
  {
  }

  /** A path that is to be collected and not recorded yet is about to be after one step. */
  lemma NextRecords(fs: FileSystem, o: Options, s: State, p: Path, rest: seq<Task>)
    requires p !in s.seen && Collectable(fs, o, p)
    ensures Brought(fs, o, s, [Check(p, fs.kind(p))] + rest, 1, p)
  {
    var t := Check(p, fs.kind(p));
    assert ([t] + rest)[1..] == rest;
    OneAdvance(fs, o, s, t, rest, s, [if fs.kind(p).Dir? then RecordDir(p) else RecordFile(p)] + rest);
  }

  /** A plain entry is passed, recorded or not. */
  lemma PastEntry(fs: FileSystem, o: Options, s: State, e: Entry, rest: seq<Task>) returns (n: nat, s': State)
    requires Plain(fs, o, e)
    ensures Steps(fs, o, s, [Check(e.path, fs.kind(e.path))] + rest, n) == (s', rest)
    ensures s'.seen <= s.seen + {e.path}
  {
    hide Steps;
    var p := e.path;
    var t := Check(p, fs.kind(p));
    assert ([t] + rest)[1..] == rest;
    if p in s.seen || !Collectable(fs, o, p) {
      n, s' := 1, s;
      OneAdvance(fs, o, s, t, rest, s, rest);
    } else {
      var u := if fs.kind(p).Dir? then RecordDir(p) else RecordFile(p);
      n, s' := 2, if fs.kind(p).Dir? then AddDir(s, p) else AddFile(s, p);
      assert ([u] + rest)[1..] == rest;
      TwoAdvances(fs, o, s, t, u, rest, s', rest);
    }
  }

  /** Through the plain entries of a directory up to one of them. */
  lemma {:induction false} BringThroughEntries(fs: FileSystem, o: Options, s: State, es: seq<Entry>, x: Path)
    returns (n: nat)
    requires forall e :: e in es ==> Plain(fs, o, e)
    requires x !in s.seen && Found(x) in es && Collectable(fs, o, x)
    ensures Brought(fs, o, s, Tasks(fs, es), n, x)
    decreases |es|
  {
    hide Advance, Steps, Brought, Plain, Collectable, Tasks, TaskOf;
    assert es[0] in es;
    EntryIsFound(fs, o, es[0]);
    FirstTask(fs, es);
    var p, rest := es[0].path, Tasks(fs, es[1..]);
    if p == x {
      n := 1;
      NextRecords(fs, o, s, p, rest);
    } else {
      var m, s' := PastEntry(fs, o, s, es[0], rest);
      assert es == [es[0]] + es[1..];
      n := BringThroughEntries(fs, o, s', es[1..], x);
      BroughtLater(fs, o, s, Tasks(fs, es), m, s', rest, n, x);
      n := m + n;
    }
  }

  lemma FileBehind(fs: FileSystem, o: Options, s: State, target: Path)
    requires target !in s.seen && Recordable(fs, o, target)
    ensures Brought(fs, o, s, [Check(target, File)], 1, target)
  {
    var none: seq<Task> := [];
    var t := Check(target, File);
    assert [t] + none == [t] && [t][1..] == none && [RecordFile(target)] + none == [RecordFile(target)];
    OneAdvance(fs, o, s, t, none, s, [RecordFile(target)]);
  }

  lemma BringBehind(fs: FileSystem, o: Options, s: State, p: Path, x: Path) returns (n: nat)
    requires Simple(fs, o, p) && fs.kind(p).Link? && x in Own(fs, o, p) && x != p && x !in s.seen
    ensures Brought(fs, o, s, Behind(fs, fs.kind(p).target), n, x)
  {
    hide Steps, Brought;
    var target := fs.kind(p).target;
    if fs.stat(target).NotDir? {
      n := 1;
      FileBehind(fs, o, s, target);
    } else {
      n := BringThroughEntries(fs, o, s, fs.walk(target), x);
    }
  }

  lemma LinkSteps(fs: FileSystem, o: Options, s: State, p: Path, target: Path)
    requires p !in s.seen && target !in s.seen && fs.kind(p) == Link(target) && Followed(fs, o, p, target)
    ensures Steps(fs, o, s, [Check(p, fs.kind(p))], 2) == (s, [RecordLink(p, target)])
    ensures Steps(fs, o, s, [Check(p, fs.kind(p))], 3) == (AddSymlink(s, p, target), Behind(fs, target))
  {
    hide Steps;
    var t, u, v := Check(p, fs.kind(p)), CheckTarget(p, target), RecordLink(p, target);
    var none: seq<Task> := [];
    assert [t] + none == [t] && [u] + none == [u] && [v] + none == [v];
    assert Behind(fs, target) + none == Behind(fs, target);
    assert [t][1..] == none && [u][1..] == none && [v][1..] == none;
    TwoAdvances(fs, o, s, t, u, none, s, [v]);
    OneAdvance(fs, o, s, v, none, AddSymlink(s, p, target), Behind(fs, target));
    StepsAdd(fs, o, s, [t], 2, 1);
  }

  lemma CheckKeepsState(fs: FileSystem, o: Options, s: State, t: Task)
    requires t.Check? || t.CheckTarget?
    ensures Steps(fs, o, s, [t], 1).0 == s
  {
  }

  lemma OwnOfOther(fs: FileSystem, o: Options, p: Path, x: Path)
    ensures !fs.kind(p).Link? && x in Own(fs, o, p) ==> x == p && Collectable(fs, o, p)
  {
  }

  /** A goroutine that is not begun, its path and its link's target not recorded, can be brought to any
      path it is out for that is not recorded either; to its own path without recording any other. */
  lemma Bring(fs: FileSystem, o: Options, s: State, p: Path, x: Path) returns (n: nat)
    requires Simple(fs, o, p) && x in Own(fs, o, p) && x !in s.seen
    requires p !in s.seen && TargetOf(fs, p) !in s.seen
    ensures Brought(fs, o, s, [Check(p, fs.kind(p))], n, x)
    ensures x == p ==> Steps(fs, o, s, [Check(p, fs.kind(p))], n).0 == s
  {
    hide Steps, Simple;
    var t := Check(p, fs.kind(p));
    if fs.kind(p).Link? {
      var target := fs.kind(p).target;
      LinkSteps(fs, o, s, p, target);
      if p == x {
        n := 2;
      } else {
        var added := AddSymlink(s, p, target);
        var m := BringBehind(fs, o, added, p, x);
        BroughtLater(fs, o, s, [t], 3, added, Behind(fs, target), m, x);
        n := 3 + m;
      }
    } else {
      n := 1;
      var none: seq<Task> := [];
      assert [t] + none == [t];
      OwnOfOther(fs, o, p, x);
      NextRecords(fs, o, s, p, none);
      CheckKeepsState(fs, o, s, t);
    }
  }

  // ----- a goroutine to its end --------------------------------------------------------------

  lemma {:induction false} StepsStayIn(fs: FileSystem, o: Options, s: State, ts: seq<Task>, n: nat, r: Region)
    requires Led(fs, o, r) && Within(fs, o, ts, r)
    ensures Steps(fs, o, s, ts, n).0.seen <= s.seen + r.all
    decreases n
  {
    hide Led, Within, Advance;
    if n > 0 {
      AdvanceWithin(fs, o, s, ts, r);
      AdvanceStaysIn(fs, o, s, ts, r);
      var (t, us) := Advance(fs, o, s, ts);
      StepsStayIn(fs, o, t, us, n - 1, r);
    }
  }

  lemma AdvanceStaysIn(fs: FileSystem, o: Options, s: State, ts: seq<Task>, r: Region)
    requires Within(fs, o, ts, r)
    ensures Advance(fs, o, s, ts).0.seen <= s.seen + r.all
  {
    assert ts != [] ==> TaskWithin(fs, o, ts[0], r);
  }

  /** A goroutine records nothing but what it is out for. */
  lemma RecordsItsOwn(fs: FileSystem, o: Options, s: State, p: Path, n: nat)
    requires Simple(fs, o, p)
    ensures Steps(fs, o, s, [Check(p, fs.kind(p))], n).0.seen <= s.seen + Own(fs, o, p)
  {
    hide Led, CheckIn, Own, Simple, Steps;
    OwnIsReach(fs, o, p);
    StepsStayIn(fs, o, s, [Check(p, fs.kind(p))], n, RegionOf(fs, o, p));
  }

  lemma {:induction false} EntriesRunOut(fs: FileSystem, o: Options, s: State, es: seq<Entry>) returns (n: nat)
    requires forall e :: e in es ==> Plain(fs, o, e)
    ensures Steps(fs, o, s, Tasks(fs, es), n).1 == []
    decreases |es|
  {
    hide Advance, Steps, Plain, Tasks, TaskOf;
    if es == [] {
      n := 0;
      assert Tasks(fs, es) == [];
      NoSteps(fs, o, s, Tasks(fs, es));
    } else {
      assert es[0] in es;
      EntryIsFound(fs, o, es[0]);
      FirstTask(fs, es);
      var rest := Tasks(fs, es[1..]);
      var m, s' := PastEntry(fs, o, s, es[0], rest);
      n := EntriesRunOut(fs, o, s', es[1..]);
      StepsAdd(fs, o, s, Tasks(fs, es), m, n);
      n := m + n;
    }
  }

  lemma NoSteps(fs: FileSystem, o: Options, s: State, ts: seq<Task>)
    ensures Steps(fs, o, s, ts, 0) == (s, ts)
  {
  }

  /** One that meets no link is through after two steps. */
  lemma CheckRunsOut(fs: FileSystem, o: Options, s: State, p: Path, kind: Kind)
    requires !kind.Link?
    ensures Steps(fs, o, s, [Check(p, kind)], 2).1 == []
  {
    var (t, us) := Advance(fs, o, s, [Check(p, kind)]);
    assert Steps(fs, o, s, [Check(p, kind)], 2) == Steps(fs, o, t, us, 1);
    assert Steps(fs, o, t, us, 1) == Advance(fs, o, t, us);
  }

  /** Left alone, a goroutine comes to its end. */
  lemma RunsOut(fs: FileSystem, o: Options, s: State, p: Path) returns (n: nat)
    requires Simple(fs, o, p)
    ensures Steps(fs, o, s, [Check(p, fs.kind(p))], n).1 == []
  {
    hide Steps;
    var kind := fs.kind(p);
    if !kind.Link? {
      n := 2;
      CheckRunsOut(fs, o, s, p, kind);
    } else if p !in s.seen && kind.target !in s.seen && Followed(fs, o, p, kind.target) {
      var m := BehindRunsOut(fs, o, AddSymlink(s, p, kind.target), p);
      LinkSteps(fs, o, s, p, kind.target);
      StepsAdd(fs, o, s, [Check(p, kind)], 3, m);
      n := 3 + m;
    } else {
      n := 2;
      LinkStops(fs, o, s, p, kind.target);
    }
  }

  lemma LinkStops(fs: FileSystem, o: Options, s: State, p: Path, target: Path)
    requires fs.kind(p) == Link(target) && (p in s.seen || target in s.seen || !Followed(fs, o, p, target))
    ensures Steps(fs, o, s, [Check(p, fs.kind(p))], 2).1 == []
  {
    var (t, us) := Advance(fs, o, s, [Check(p, fs.kind(p))]);
    assert Steps(fs, o, s, [Check(p, fs.kind(p))], 2) == Steps(fs, o, t, us, 1);
    assert Steps(fs, o, t, us, 1) == Advance(fs, o, t, us);
  }

  lemma BehindRunsOut(fs: FileSystem, o: Options, s: State, p: Path) returns (n: nat)
    requires Simple(fs, o, p) && fs.kind(p).Link? && Followed(fs, o, p, fs.kind(p).target)
    ensures Steps(fs, o, s, Behind(fs, fs.kind(p).target), n).1 == []
  {
    hide Steps;
    var target := fs.kind(p).target;
    if fs.stat(target).NotDir? {
      n := 2;
      CheckRunsOut(fs, o, s, target, File);
    } else {
      n := EntriesRunOut(fs, o, s, fs.walk(target));
    }
  }

  // ----- turns -------------------------------------------------------------------------------

  /** The same goroutine some number of times. */
  function Repeat(i: nat, n: nat): seq<nat> {
    if n == 0 then [] else [i] + Repeat(i, n - 1)
  }

  lemma {:induction false} RepeatIsSteps(fs: FileSystem, o: Options, y: Race, i: nat, n: nat)
    requires MayRun(y, i)
    ensures var (t, us) := Steps(fs, o, y.state, y.todo[i], n);
            Turns(fs, o, y, Repeat(i, n)) == Race(t, y.todo[i := us])
    decreases n
  {
    hide Advance;
    if n == 0 {
      assert y.todo[i := y.todo[i]] == y.todo;
    } else {
      assert Repeat(i, n)[0] == i && Repeat(i, n)[1..] == Repeat(i, n - 1);
      assert Unfinished(Turn(fs, o, y, i).todo, i) == Unfinished(y.todo, i);
      RepeatIsSteps(fs, o, Turn(fs, o, y, i), i, n - 1);
    }
  }

  lemma {:induction false} TurnsAppend(fs: FileSystem, o: Options, y: Race, a: seq<nat>, b: seq<nat>)
    ensures Turns(fs, o, y, a + b) == Turns(fs, o, Turns(fs, o, y, a), b)
    decreases |a|
  {
    hide Turn;
    if a == [] {
      assert a + b == b;
    } else {
      assert (a + b)[0] == a[0] && (a + b)[1..] == a[1..] + b;
      TurnsAppend(fs, o, Turn(fs, o, y, a[0]), a[1..], b);
    }
  }

  /** Of the goroutines before the j-th only those of `keep` are unfinished. */
  predicate Quiet(y: Race, j: nat, keep: set<nat>) {
    |keep| < LIMIT && j < |y.todo| && forall k: nat :: k < j && y.todo[k] != [] ==> k in keep
  }

  lemma QuietMayRun(y: Race, j: nat, keep: set<nat>, i: nat)
    requires Quiet(y, j, keep) && i <= j
    ensures MayRun(y, i)
  {
    SubsetSize(Unfinished(y.todo, i), keep);
  }

  // ----- two goroutines after the same path --------------------------------------------------

  lemma AboutRecords(fs: FileSystem, o: Options, s: State, ts: seq<Task>, x: Path)
    requires About(ts, x)
    ensures Recorded(Advance(fs, o, s, ts).0)[x] == Recorded(s)[x] + 1
  {
    hide Recorded, Behind;
    RecordedAfter(s, x, if ts[0].RecordLink? then ts[0].target else x);
  }

  lemma RecordTwice(fs: FileSystem, o: Options, y: Race, a: nat, b: nat, j: nat, keep: set<nat>, x: Path)
    requires Quiet(y, j, keep) && a <= j && b <= j && a != b && (a == j || a in keep)
    requires About(y.todo[a], x) && About(y.todo[b], x)
    ensures Recorded(Turns(fs, o, y, [a, b]).state)[x] >= 2
  {
    hide Advance, About, Recorded, MayRun;
    QuietMayRun(y, j, keep, a);
    var z := Turn(fs, o, y, a);
    QuietMayRun(z, j, keep, b);
    AboutRecords(fs, o, y.state, y.todo[a], x);
    AboutRecords(fs, o, z.state, z.todo[b], x);
    assert [a, b][1..] == [b] && [b][1..] == [];
    assert Turns(fs, o, z, [b]) == Turn(fs, o, z, b);
  }

  /** Two goroutines brought to the same path, one after the other, both record it. */
  lemma BothRecord(fs: FileSystem, o: Options, y: Race, a: nat, m: nat, b: nat, n: nat, j: nat, keep: set<nat>, x: Path)
    returns (order: seq<nat>)
    requires Quiet(y, j, keep) && a <= j && b <= j && a != b && (a == j || a in keep) && (b == j || b in keep)
    requires Brought(fs, o, y.state, y.todo[a], m, x)
    requires Brought(fs, o, Steps(fs, o, y.state, y.todo[a], m).0, y.todo[b], n, x)
    ensures Recorded(Turns(fs, o, y, order).state)[x] >= 2
  {
    hide Recorded, Turns, Steps, Repeat, MayRun, About;
    var (s, us) := Steps(fs, o, y.state, y.todo[a], m);
    var y1 := Race(s, y.todo[a := us]);
    var (t, vs) := Steps(fs, o, s, y.todo[b], n);
    var y2 := Race(t, y1.todo[b := vs]);
    QuietMayRun(y, j, keep, a);
    RepeatIsSteps(fs, o, y, a, m);
    QuietMayRun(y1, j, keep, b);
    RepeatIsSteps(fs, o, y1, b, n);
    RecordTwice(fs, o, y2, a, b, j, keep, x);
    TurnsAppend(fs, o, y, Repeat(a, m), Repeat(b, n));
    order := Repeat(a, m) + Repeat(b, n) + [a, b];
    TurnsAppend(fs, o, y, Repeat(a, m) + Repeat(b, n), [a, b]);
  }

  // ----- the others out of the way -----------------------------------------------------------

  predicate OwnedBelow(fs: FileSystem, o: Options, ps: seq<Path>, keep: set<nat>, m: nat, q: Path)
    requires m <= |ps|
  {
    exists k: nat :: k < m && k !in keep && q in Own(fs, o, ps[k])
  }

  /** The goroutines before the m-th are through, but for those of `keep`, which have not begun. */
  ghost predicate Cleared(fs: FileSystem, o: Options, ps: seq<Path>, y: Race, keep: set<nat>, m: nat) {
    && m <= |ps| == |y.todo|
    && (forall k: nat :: k < |ps| ==>
          y.todo[k] == if k < m && k !in keep then [] else [Check(ps[k], fs.kind(ps[k]))])
    && (forall q :: q in y.state.seen ==> OwnedBelow(fs, o, ps, keep, m, q))
  }

  lemma {:induction false} Clear(fs: FileSystem, o: Options, ps: seq<Path>, keep: set<nat>, m: nat)
    returns (order: seq<nat>)
    requires AllSimple(fs, o, ps) && m <= |ps| && |keep| < LIMIT
    ensures Cleared(fs, o, ps, Turns(fs, o, Started(fs, ps), order), keep, m)
    decreases m
  {
    hide Own, Simple, Turns, Steps, Repeat, MayRun;
    if m == 0 {
      order := [];
      NoTurns(fs, o, Started(fs, ps));
    } else {
      var k := m - 1;
      order := Clear(fs, o, ps, keep, k);
      var y := Turns(fs, o, Started(fs, ps), order);
      if k !in keep {
        var n := RunsOut(fs, o, y.state, ps[k]);
        RecordsItsOwn(fs, o, y.state, ps[k], n);
        QuietMayRun(y, k, keep, k);
        RepeatIsSteps(fs, o, y, k, n);
        TurnsAppend(fs, o, Started(fs, ps), order, Repeat(k, n));
        order := order + Repeat(k, n);
      }
    }
  }

  lemma NoTurns(fs: FileSystem, o: Options, y: Race)
    ensures Turns(fs, o, y, []) == y
  {
  }

  // ----- two that share a path ---------------------------------------------------------------

  lemma {:induction false} FirstClash(fs: FileSystem, o: Options, ps: seq<Path>, m: nat) returns (i: nat, j: nat)
    requires m <= |ps| && !OwnApart(fs, o, ps[..m])
    ensures i < j < |ps| && !(Own(fs, o, ps[i]) !! Own(fs, o, ps[j])) && OwnApart(fs, o, ps[..j])
    decreases m
  {
    hide Own;
    if m > 0 && !OwnApart(fs, o, ps[..m - 1]) {
      i, j := FirstClash(fs, o, ps, m - 1);
    } else {
      i, j :| 0 <= i < j < m && !(Own(fs, o, ps[i]) !! Own(fs, o, ps[j]));
      assert j == m - 1;
    }
  }

  lemma ApartBelow(fs: FileSystem, o: Options, ps: seq<Path>, j: nat, k: nat, l: nat)
    requires j <= |ps| && OwnApart(fs, o, ps[..j]) && k < j && l < j && k != l
    ensures Own(fs, o, ps[k]) !! Own(fs, o, ps[l])
  {
    hide Own;
    assert ps[..j][k] == ps[k] && ps[..j][l] == ps[l];
  }

  /** The one goroutine that is out for a path, if there is one. */
  lemma OwnerBelow(fs: FileSystem, o: Options, ps: seq<Path>, j: nat, q: Path) returns (k: nat)
    requires j <= |ps| && OwnApart(fs, o, ps[..j])
    ensures forall l: nat :: l < j && q in Own(fs, o, ps[l]) ==> l == k
  {
    hide Own;
    if l: nat :| l < j && q in Own(fs, o, ps[l]) {
      k := l;
      forall h: nat | h < j && h != l
        ensures Own(fs, o, ps[h]) !! Own(fs, o, ps[l])
      {
        ApartBelow(fs, o, ps, j, h, l);
      }
    } else {
      k := 0;
    }
  }

  /** Of the goroutines that share a path with the j-th, one that shares its own path, else one that
      shares its target, else any. */
  lemma Meeting(fs: FileSystem, o: Options, ps: seq<Path>, i: nat, j: nat) returns (k: nat, x: Path)
    requires AllSimple(fs, o, ps) && i < j < |ps| && !(Own(fs, o, ps[i]) !! Own(fs, o, ps[j]))
    ensures k < j && x in Own(fs, o, ps[k]) && x in Own(fs, o, ps[j])
    ensures x == ps[j] || !OwnedBelow(fs, o, ps, {}, j, ps[j])
    ensures x == ps[j] || x == TargetOf(fs, ps[j]) || !OwnedBelow(fs, o, ps, {}, j, TargetOf(fs, ps[j]))
  {
    hide Own, Simple;
    OwnHasPath(fs, o, ps[j]);
    var z :| z in Own(fs, o, ps[i]) && z in Own(fs, o, ps[j]);
    k, x := i, z;
    if l: nat :| l < j && ps[j] in Own(fs, o, ps[l]) {
      k, x := l, ps[j];
    } else {
      OwnHasTarget(fs, o, ps[j], x);
      if l: nat :| l < j && TargetOf(fs, ps[j]) in Own(fs, o, ps[l]) {
        k, x := l, TargetOf(fs, ps[j]);
      }
    }
  }

  /** With the others out of the way, nothing the two need is recorded yet. */
  lemma NothingInTheWay(
    fs: FileSystem, o: Options, ps: seq<Path>, y: Race, i: nat, j: nat, x: Path, a: nat, b: nat)
    requires i < j < |ps| && OwnApart(fs, o, ps[..j]) && Cleared(fs, o, ps, y, {i, a, b}, j)
    requires x in Own(fs, o, ps[i]) && (x == ps[j] || !OwnedBelow(fs, o, ps, {}, j, ps[j]))
    requires forall l: nat :: l < j && TargetOf(fs, ps[i]) in Own(fs, o, ps[l]) ==> l == a
    requires forall l: nat :: l < j && TargetOf(fs, ps[j]) in Own(fs, o, ps[l]) ==> l == b
    ensures x !in y.state.seen && ps[i] !in y.state.seen && ps[j] !in y.state.seen
    ensures TargetOf(fs, ps[i]) !in y.state.seen && TargetOf(fs, ps[j]) !in y.state.seen
  {
    hide Own, TargetOf;
    OwnHasPath(fs, o, ps[i]);
    forall k: nat | k < j && k != i
      ensures Own(fs, o, ps[k]) !! Own(fs, o, ps[i])
    {
      ApartBelow(fs, o, ps, j, k, i);
    }
  }

  lemma StillFree(fs: FileSystem, o: Options, ps: seq<Path>, i: nat, j: nat, x: Path, before: State, s: State)
    requires i < j < |ps| && s.seen <= before.seen + Own(fs, o, ps[i]) && x !in s.seen
    requires ps[j] !in before.seen && TargetOf(fs, ps[j]) !in before.seen
    requires !OwnedBelow(fs, o, ps, {}, j, ps[j])
    requires x == TargetOf(fs, ps[j]) || !OwnedBelow(fs, o, ps, {}, j, TargetOf(fs, ps[j]))
    ensures ps[j] !in s.seen && TargetOf(fs, ps[j]) !in s.seen
  {
    hide Own, TargetOf;
  }

  /** Two goroutines out for the same path have an interleaving in which a path is recorded twice. */
  lemma SharedIsRecordedTwice(fs: FileSystem, o: Options, ps: seq<Path>) returns (order: seq<nat>, x: Path)
    requires AllSimple(fs, o, ps) && !OwnApart(fs, o, ps)
    ensures Recorded(Turns(fs, o, Started(fs, ps), order).state)[x] >= 2
  {
    hide Own, Simple, Recorded, Turns, Steps, MayRun, OwnApart, OwnedBelow;
    assert ps[..|ps|] == ps;
    var i, j := FirstClash(fs, o, ps, |ps|);
    i, x := Meeting(fs, o, ps, i, j);
    var a := OwnerBelow(fs, o, ps, j, TargetOf(fs, ps[i]));
    var b := OwnerBelow(fs, o, ps, j, TargetOf(fs, ps[j]));
    order := Clear(fs, o, ps, {i, a, b}, j);
    var y := Turns(fs, o, Started(fs, ps), order);
    NothingInTheWay(fs, o, ps, y, i, j, x, a, b);
    var more: seq<nat>;
    if x == ps[j] {
      var m := Bring(fs, o, y.state, ps[j], x);
      var n := Bring(fs, o, y.state, ps[i], x);
      more := BothRecord(fs, o, y, j, m, i, n, j, {i, a, b}, x);
    } else {
      var m := Bring(fs, o, y.state, ps[i], x);
      RecordsItsOwn(fs, o, y.state, ps[i], m);
      StillFree(fs, o, ps, i, j, x, y.state, Steps(fs, o, y.state, y.todo[i], m).0);
      var n := Bring(fs, o, Steps(fs, o, y.state, y.todo[i], m).0, ps[j], x);
      more := BothRecord(fs, o, y, i, m, j, n, j, {i, a, b}, x);
    }
    TurnsAppend(fs, o, Started(fs, ps), order, more);
    order := order + more;
  }

  // ----- the exact condition -----------------------------------------------------------------

  /** Every interleaving records each path at most once exactly when no two of the goroutines the walk
      starts are out to record the same path. */
  lemma EveryOrderRecordsOnceIff(fs: FileSystem, o: Options, ps: seq<Path>)
    requires AllSimple(fs, o, ps)
    ensures (forall order: seq<nat>, p: Path :: Recorded(Turns(fs, o, Started(fs, ps), order).state)[p] <= 1)
       <==> OwnApart(fs, o, ps)
  {
    hide Own, Simple, Recorded, Turns, Started;
    if OwnApart(fs, o, ps) {
      forall order: seq<nat>, p: Path
        ensures Recorded(Turns(fs, o, Started(fs, ps), order).state)[p] <= 1
      {
        ApartIsEnough(fs, o, ps, order, p);
      }
    } else {
      var order, x := SharedIsRecordedTwice(fs, o, ps);
    }
  }

  predicate Distinct(ps: seq<Path>) {
    forall i, j :: 0 <= i < j < |ps| ==> ps[i] != ps[j]
  }

  /** So in a tree without links, or with links not followed, every interleaving records each path at
      most once: the walk reports no path twice. */
  lemma LinkFreeTreeRecordedOnce(fs: FileSystem, o: Options, ps: seq<Path>, order: seq<nat>, p: Path)
    requires Distinct(ps) && forall i :: 0 <= i < |ps| ==> fs.kind(ps[i]).Link? ==> !o.follow
    ensures Recorded(Turns(fs, o, Started(fs, ps), order).state)[p] <= 1
  {
    hide Recorded, Turns, Started;
    EveryOrderRecordsOnceIff(fs, o, ps);
  }

  /** And a link and its file, or two links to one file, have an interleaving that records a path twice,
      wherever the walk meets them. */
  lemma LinkedFileRecordedTwice(fs: FileSystem, o: Options, ps: seq<Path>, i: nat, j: nat, f: Path)
    returns (order: seq<nat>, p: Path)
    requires AllSimple(fs, o, ps) && i < |ps| && j < |ps| && i != j && o.follow
    requires fs.kind(ps[i]) == Link(f) && !Skipped(o, ps[i]) && fs.stat(f).NotDir? && Recordable(fs, o, f)
    requires (ps[j] == f && fs.kind(f).File?) || (fs.kind(ps[j]) == Link(f) && !Skipped(o, ps[j]))
    ensures Recorded(Turns(fs, o, Started(fs, ps), order).state)[p] >= 2
  {
    hide Recorded, Turns, Started, Simple;
    assert f in Own(fs, o, ps[i]) && f in Own(fs, o, ps[j]);
    order, p := SharedIsRecordedTwice(fs, o, ps);
  }
}
