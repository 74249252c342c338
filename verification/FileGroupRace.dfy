/** The same collection by many goroutines, links and directories included: each lookup in the set of
    recorded paths and each addition takes the lock, and anything may happen in between. */
module FileGroupRace {
  import opened Bytes
  import opened FileGroup

  /** What a goroutine has still to do, the next step first. */
  datatype Task =
    | Check(path: Path, kind: Kind)
    | CheckTarget(path: Path, target: Path)
    | RecordFile(path: Path)
    | RecordDir(path: Path)
    | RecordLink(path: Path, target: Path)
    | Fail

  function TaskOf(fs: FileSystem, e: Entry): Task {
    if e.Found? then Check(e.path, fs.kind(e.path)) else Fail
  }

  function Tasks(fs: FileSystem, es: seq<Entry>): (ts: seq<Task>)
    ensures |ts| == |es| && forall i :: 0 <= i < |es| ==> ts[i] == TaskOf(fs, es[i])
  {
    seq(|es|, i requires 0 <= i < |es| => TaskOf(fs, es[i]))
  }

  /** What a lookup of the path itself leads to. */
  function AfterCheck(fs: FileSystem, o: Options, s: State, p: Path, kind: Kind, rest: seq<Task>): seq<Task> {
    if p in s.seen then rest
    else if kind.Dir? then [RecordDir(p)] + rest
    else if Skipped(o, p) then rest
    else match kind
      case BadLink => []
      case Link(target) => if o.follow then [CheckTarget(p, target)] + rest else rest
      case _ => if fs.opens(p) then [RecordFile(p)] + rest else []
  }

  /** What lies behind a recorded link. */
  function Behind(fs: FileSystem, target: Path): seq<Task> {
    if fs.stat(target).NotDir? then [Check(target, File)] else Tasks(fs, fs.walk(target))
  }

  /** One atomic step of one goroutine; an error ends it. */
  function Advance(fs: FileSystem, o: Options, s: State, ts: seq<Task>): (State, seq<Task>) {
    if ts == [] then (s, [])
    else
      var rest := ts[1..];
      match ts[0]
      case Fail => (s, [])
      case Check(p, kind) => (s, AfterCheck(fs, o, s, p, kind, rest))
      case CheckTarget(p, target) =>
        if target in s.seen then (s, rest)
        else if fs.stat(target).Missing? then (s, [])
        else (s, [RecordLink(p, target)] + rest)
      case RecordFile(p) => (AddFile(s, p), rest)
      case RecordDir(p) => (AddDir(s, p), rest)
      case RecordLink(p, target) => (AddSymlink(s, p, target), Behind(fs, target) + rest)
  }

  datatype Race = Race(state: State, todo: seq<seq<Task>>)

  /** How many goroutines run at once. */
  const LIMIT: nat := 10

  function Unfinished(todo: seq<seq<Task>>, i: nat): set<nat>
    requires i <= |todo|
  {
    set k: nat | k < i && todo[k] != []
  }

  /** The walk starts the goroutines in order, each as soon as there is a free slot. So one runs, or may
      start now, when the unfinished ones before it leave a slot; until then its turns pass. */
  predicate MayRun(y: Race, i: nat) {
    i < |y.todo| && |Unfinished(y.todo, i)| < LIMIT
  }

  function Turn(fs: FileSystem, o: Options, y: Race, i: nat): Race {
    if !MayRun(y, i) then y
    else
      var (s, ts) := Advance(fs, o, y.state, y.todo[i]);
      Race(s, y.todo[i := ts])
  }

  function Turns(fs: FileSystem, o: Options, y: Race, order: seq<nat>): Race
    decreases |order|
  {
    if order == [] then y else Turns(fs, o, Turn(fs, o, y, order[0]), order[1..])
  }

  // ----- one goroutine alone -----------------------------------------------------------------

  function Steps(fs: FileSystem, o: Options, s: State, ts: seq<Task>, n: nat): (State, seq<Task>)
    decreases n
  {
    if n == 0 then (s, ts)
    else
      var (t, us) := Advance(fs, o, s, ts);
      Steps(fs, o, t, us, n - 1)
  }

  lemma {:induction false} StepsAdd(fs: FileSystem, o: Options, s: State, ts: seq<Task>, m: nat, n: nat)
    ensures var (t, us) := Steps(fs, o, s, ts, m);
            Steps(fs, o, s, ts, m + n) == Steps(fs, o, t, us, n)
    decreases m
  {
    hide Advance;
    if m > 0 {
      var (t, us) := Advance(fs, o, s, ts);
      StepsAdd(fs, o, t, us, m - 1, n);
    }
  }

  lemma OneStep(fs: FileSystem, o: Options, s: State, t: Task, rest: seq<Task>)
    ensures ([t] + rest)[0] == t && ([t] + rest)[1..] == rest
    ensures Steps(fs, o, s, [t] + rest, 1) == Advance(fs, o, s, [t] + rest)
  {
  }

  /** Left alone, a goroutine does what the sequential collection does, error or not. */
  lemma {:induction false} AloneIsCollect(
    fs: FileSystem, o: Options, all: set<Path>, s: State, p: Path, kind: Kind, rest: seq<Task>) returns (n: nat)
    requires Closed(fs, all) && p in all && (kind.Link? ==> kind.target in all)
    ensures var (t, ok) := Collect(fs, o, all, s, p, kind);
            Steps(fs, o, s, [Check(p, kind)] + rest, n) == (t, if ok then rest else [])
    decreases all - s.seen, 2, 0
  {
    OneStep(fs, o, s, Check(p, kind), rest);
    n := 1;
    if p !in s.seen && !(kind.Dir? || Skipped(o, p) || kind.BadLink?) {
      if kind.Link? {
        if o.follow {
          var m := AloneIsFollow(fs, o, all, s, p, kind.target, rest);
          StepsAdd(fs, o, s, [Check(p, kind)] + rest, 1, m);
          n := 1 + m;
        }
      } else if fs.opens(p) {
        OneStep(fs, o, s, RecordFile(p), rest);
        StepsAdd(fs, o, s, [Check(p, kind)] + rest, 1, 1);
        n := 2;
      }
    } else if p !in s.seen && kind.Dir? {
      OneStep(fs, o, s, RecordDir(p), rest);
      StepsAdd(fs, o, s, [Check(p, kind)] + rest, 1, 1);
      n := 2;
    }
  }

  lemma {:induction false} AloneIsFollow(
    fs: FileSystem, o: Options, all: set<Path>, s: State, p: Path, target: Path, rest: seq<Task>) returns (n: nat)
    requires Closed(fs, all) && p in all && p !in s.seen && target in all && o.follow
    ensures var (t, ok) := Follow(fs, o, all, s, p, target);
            Steps(fs, o, s, [CheckTarget(p, target)] + rest, n) == (t, if ok then rest else [])
    decreases all - s.seen, 1, 0
  {
    OneStep(fs, o, s, CheckTarget(p, target), rest);
    n := 1;
    if target !in s.seen && !fs.stat(target).Missing? {
      assert p in all - s.seen;
      var added := AddSymlink(s, p, target);
      OneStep(fs, o, s, RecordLink(p, target), rest);
      StepsAdd(fs, o, s, [CheckTarget(p, target)] + rest, 1, 1);
      var m: nat;
      if fs.stat(target).NotDir? {
        m := AloneIsCollect(fs, o, all, added, target, File, rest);
      } else {
        m := AloneIsWalk(fs, o, all, added, fs.walk(target), rest);
      }
      StepsAdd(fs, o, s, [CheckTarget(p, target)] + rest, 2, m);
      n := 2 + m;
    }
  }

  lemma {:induction false} AloneIsWalk(
    fs: FileSystem, o: Options, all: set<Path>, s: State, es: seq<Entry>, rest: seq<Task>) returns (n: nat)
    requires Closed(fs, all) && EntriesWithin(es, all)
    ensures var (t, ok) := WalkTarget(fs, o, all, s, es);
            Steps(fs, o, s, Tasks(fs, es) + rest, n) == (t, if ok then rest else [])
    decreases all - s.seen, 3, |es|
  {
    if es == [] {
      assert Tasks(fs, es) + rest == rest;
      n := 0;
    } else {
      var more := Tasks(fs, es[1..]) + rest;
      assert Tasks(fs, es) + rest == [TaskOf(fs, es[0])] + more;
      if es[0].Found? {
        var p := es[0].path;
        n := AloneIsCollect(fs, o, all, s, p, fs.kind(p), more);
        var (t, ok) := Collect(fs, o, all, s, p, fs.kind(p));
        if ok {
          var m := AloneIsWalk(fs, o, all, t, es[1..], rest);
          StepsAdd(fs, o, s, Tasks(fs, es) + rest, n, m);
          n := n + m;
        }
      } else {
        OneStep(fs, o, s, Fail, more);
        n := 1;
      }
    }
  }

  // ----- many goroutines ---------------------------------------------------------------------

  /** The goroutine has looked the path up in vain and may still record it. */
  predicate Holds(fs: FileSystem, ts: seq<Task>, p: Path) {
    && ts != [] && !ts[0].Check? && !ts[0].Fail? && ts[0].path == p
    && (ts[0].CheckTarget? ==> !fs.stat(ts[0].target).Missing?)
  }

  function Holders(fs: FileSystem, todo: seq<seq<Task>>, p: Path): nat {
    if todo == [] then 0 else (if Holds(fs, todo[0], p) then 1 else 0) + Holders(fs, todo[1..], p)
  }

  /** What a goroutine may record: any of `all`, those in `links` as links. */
  datatype Region = Region(all: set<Path>, links: set<Path>)

  /** How many goroutines have the path within their reach. */
  function Reachers(reach: seq<Region>, p: Path): nat {
    if reach == [] then 0 else (if p in reach[0].all then 1 else 0) + Reachers(reach[1..], p)
  }

  /** Whether a path collected as a file is recorded when it is not yet. */
  predicate Recordable(fs: FileSystem, o: Options, p: Path) {
    !Skipped(o, p) && fs.opens(p)
  }

  /** Whether a link is recorded, and what is behind it collected, when neither is recorded yet. */
  predicate Followed(fs: FileSystem, o: Options, p: Path, target: Path) {
    o.follow && !Skipped(o, p) && !fs.stat(target).Missing?
  }

  /** Collecting the path leads to nothing outside the region. */
  predicate CheckIn(fs: FileSystem, o: Options, p: Path, kind: Kind, r: Region) {
    match kind
    case Dir => p in r.all
    case File => Recordable(fs, o, p) ==> p in r.all
    case Link(target) => Followed(fs, o, p, target) ==> p in r.all && p in r.links && fs.kind(p) == kind
    case BadLink => true
  }

  /** Nor does what is behind a link. */
  ghost predicate BehindIn(fs: FileSystem, o: Options, target: Path, r: Region) {
    match fs.stat(target)
    case Missing => true
    case NotDir => CheckIn(fs, o, target, File, r)
    case IsDir => forall e :: e in fs.walk(target) && e.Found? ==> CheckIn(fs, o, e.path, fs.kind(e.path), r)
  }

  /** The links of the region lead to nothing outside it. A directory leads nowhere: a goroutine that
      starts at one records it and does not walk it. */
  ghost predicate Led(fs: FileSystem, o: Options, r: Region) {
    forall p :: p in r.links && fs.kind(p).Link? ==> BehindIn(fs, o, fs.kind(p).target, r)
  }

  ghost predicate TaskWithin(fs: FileSystem, o: Options, t: Task, r: Region) {
    match t
    case Fail => true
    case Check(p, kind) => CheckIn(fs, o, p, kind, r)
    case CheckTarget(p, target) => !fs.stat(target).Missing? ==> p in r.all && BehindIn(fs, o, target, r)
    case RecordLink(p, target) => p in r.all && !fs.stat(target).Missing? && BehindIn(fs, o, target, r)
    case RecordFile(p) => p in r.all
    case RecordDir(p) => p in r.all
  }

  /** All that may be recorded lies within reach, and only the next task can follow a lookup. */
  ghost predicate Within(fs: FileSystem, o: Options, ts: seq<Task>, r: Region) {
    && (forall i :: 0 <= i < |ts| ==> TaskWithin(fs, o, ts[i], r))
    && (forall i :: 1 <= i < |ts| ==> ts[i].Check? || ts[i].Fail?)
  }

  ghost predicate AllWithin(fs: FileSystem, o: Options, y: Race, reach: seq<Region>) {
    && |reach| == |y.todo|
    && forall i :: 0 <= i < |reach| ==> Led(fs, o, reach[i]) && Within(fs, o, y.todo[i], reach[i])
  }

  lemma {:induction false} HoldersUpdate(fs: FileSystem, todo: seq<seq<Task>>, i: nat, ts: seq<Task>, p: Path)
    requires i < |todo|
    ensures Holders(fs, todo[i := ts], p)
         == Holders(fs, todo, p) + (if Holds(fs, ts, p) then 1 else 0) - (if Holds(fs, todo[i], p) then 1 else 0)
  {
    hide Holds;
    if i == 0 {
      assert todo[i := ts][1..] == todo[1..];
    } else {
      HoldersUpdate(fs, todo[1..], i - 1, ts, p);
      assert todo[i := ts][1..] == todo[1..][i - 1 := ts];
    }
  }

  lemma {:induction false} HoldersReach(
    fs: FileSystem, o: Options, todo: seq<seq<Task>>, reach: seq<Region>, p: Path)
    requires |todo| == |reach| && forall i :: 0 <= i < |reach| ==> Within(fs, o, todo[i], reach[i])
    ensures Holders(fs, todo, p) <= Reachers(reach, p)
  {
    hide BehindIn, CheckIn;
    if todo != [] {
      HoldersReach(fs, o, todo[1..], reach[1..], p);
      assert todo[0] != [] ==> TaskWithin(fs, o, todo[0][0], reach[0]);
    }
  }

  lemma CheckStaysWithin(fs: FileSystem, o: Options, s: State, p: Path, kind: Kind, rest: seq<Task>, r: Region)
    requires Led(fs, o, r) && Within(fs, o, [Check(p, kind)] + rest, r)
    ensures Within(fs, o, AfterCheck(fs, o, s, p, kind, rest), r)
  {
    hide BehindIn;
    var ts := [Check(p, kind)] + rest;
    assert TaskWithin(fs, o, ts[0], r);
    assert forall i :: 0 <= i < |rest| ==> rest[i] == ts[i + 1];
  }

  lemma AdvanceWithin(fs: FileSystem, o: Options, s: State, ts: seq<Task>, r: Region)
    requires Led(fs, o, r) && Within(fs, o, ts, r)
    ensures Within(fs, o, Advance(fs, o, s, ts).1, r)
  {
    hide BehindIn, CheckIn, AfterCheck, Led;
    if ts != [] {
      var rest := ts[1..];
      assert TaskWithin(fs, o, ts[0], r);
      assert ts == [ts[0]] + rest;
      if ts[0].RecordLink? {
        BehindWithin(fs, o, ts[0].target, r);
      } else if ts[0].Check? {
        CheckStaysWithin(fs, o, s, ts[0].path, ts[0].kind, rest, r);
      }
    }
  }

  lemma BehindWithin(fs: FileSystem, o: Options, target: Path, r: Region)
    requires !fs.stat(target).Missing? && BehindIn(fs, o, target, r)
    ensures Within(fs, o, Behind(fs, target), r)
  {
    hide CheckIn;
    var es := fs.walk(target);
    if fs.stat(target).IsDir? {
      forall i | 0 <= i < |es|
        ensures TaskWithin(fs, o, TaskOf(fs, es[i]), r)
      {
        assert es[i] in es;
      }
    }
  }

  /** Recorded or about to be recorded: counted together, only a lookup in vain adds to it. */
  ghost predicate Bounded(fs: FileSystem, y: Race, reach: seq<Region>) {
    forall p ::
      && (p !in y.state.seen ==> Recorded(y.state)[p] == 0)
      && Recorded(y.state)[p] + Holders(fs, y.todo, p) <= Reachers(reach, p)
  }

  lemma RecordedAfter(s: State, p: Path, target: Path)
    ensures Recorded(AddFile(s, p)) == Recorded(s) + multiset{p}
    ensures Recorded(AddDir(s, p)) == Recorded(s) + multiset{p}
    ensures Recorded(AddSymlink(s, p, target)) == Recorded(s) + multiset{p}
  {
    assert LinkPaths(AddSymlink(s, p, target).links) == LinkPaths(s.links) + [p];
  }

  /** What one step does to one path. */
  lemma AdvanceCounts(fs: FileSystem, o: Options, s: State, ts: seq<Task>, r: Region, p: Path)
    requires Within(fs, o, ts, r)
    requires p !in s.seen ==> Recorded(s)[p] == 0
    ensures var (t, us) := Advance(fs, o, s, ts);
            && (p !in t.seen ==> Recorded(t)[p] == 0)
            && (Recorded(t)[p] + (if Holds(fs, us, p) then 1 else 0)
                <= Recorded(s)[p] + (if Holds(fs, ts, p) then 1 else 0)
                || (p !in s.seen && t == s))
  {
    hide Recorded, TaskWithin;
    if ts != [] && (ts[0].RecordFile? || ts[0].RecordDir? || ts[0].RecordLink?) {
      RecordedAfter(s, ts[0].path, if ts[0].RecordLink? then ts[0].target else ts[0].path);
    }
  }

  lemma TurnKeepsBounded(fs: FileSystem, o: Options, y: Race, i: nat, reach: seq<Region>)
    requires AllWithin(fs, o, y, reach) && Bounded(fs, y, reach)
    ensures AllWithin(fs, o, Turn(fs, o, y, i), reach) && Bounded(fs, Turn(fs, o, y, i), reach)
  {
    hide Advance, Holds, Recorded, Within, Led;
    if MayRun(y, i) {
      var (t, us) := Advance(fs, o, y.state, y.todo[i]);
      AdvanceWithin(fs, o, y.state, y.todo[i], reach[i]);
      var z := Turn(fs, o, y, i);
      forall p
        ensures (p !in t.seen ==> Recorded(t)[p] == 0) && Recorded(t)[p] + Holders(fs, z.todo, p) <= Reachers(reach, p)
      {
        AdvanceCounts(fs, o, y.state, y.todo[i], reach[i], p);
        HoldersUpdate(fs, y.todo, i, us, p);
        HoldersReach(fs, o, z.todo, reach, p);
      }
    }
  }

  lemma {:induction false} TurnsKeepBounded(fs: FileSystem, o: Options, y: Race, order: seq<nat>, reach: seq<Region>)
    requires AllWithin(fs, o, y, reach) && Bounded(fs, y, reach)
    ensures Bounded(fs, Turns(fs, o, y, order), reach)
    decreases |order|
  {
    hide AllWithin, Bounded, Turn;
    if order != [] {
      TurnKeepsBounded(fs, o, y, order[0], reach);
      TurnsKeepBounded(fs, o, Turn(fs, o, y, order[0]), order[1..], reach);
    }
  }

  /** The walk starts one goroutine per entry it finds. */
  function Started(fs: FileSystem, ps: seq<Path>): (y: Race)
    ensures y.state == EMPTY && |y.todo| == |ps|
    ensures forall i :: 0 <= i < |ps| ==> y.todo[i] == [Check(ps[i], fs.kind(ps[i]))]
  {
    Race(EMPTY, seq(|ps|, i requires 0 <= i < |ps| => [Check(ps[i], fs.kind(ps[i]))]))
  }

  /** Each goroutine stays in a region that its links do not leave. */
  ghost predicate Reach(fs: FileSystem, o: Options, ps: seq<Path>, reach: seq<Region>) {
    && |reach| == |ps|
    && forall i :: 0 <= i < |ps| ==> Led(fs, o, reach[i]) && CheckIn(fs, o, ps[i], fs.kind(ps[i]), reach[i])
  }

  lemma {:induction false} NoHolders(fs: FileSystem, todo: seq<seq<Task>>, p: Path)
    requires forall i :: 0 <= i < |todo| ==> !Holds(fs, todo[i], p)
    ensures Holders(fs, todo, p) == 0
  {
    if todo != [] {
      NoHolders(fs, todo[1..], p);
    }
  }

  /** In every interleaving a path is recorded at most as often as there are goroutines that can
      reach it, through whatever links. */
  lemma RecordedAtMostReachers(
    fs: FileSystem, o: Options, ps: seq<Path>, reach: seq<Region>, order: seq<nat>, p: Path)
    requires Reach(fs, o, ps, reach)
    ensures Recorded(Turns(fs, o, Started(fs, ps), order).state)[p] <= Reachers(reach, p)
  {
    hide CheckIn, Led;
    var y := Started(fs, ps);
    assert AllWithin(fs, o, y, reach);
    forall q
      ensures Recorded(y.state)[q] + Holders(fs, y.todo, q) <= Reachers(reach, q)
    {
      NoHolders(fs, y.todo, q);
    }
    TurnsKeepBounded(fs, o, y, order, reach);
  }

  // ----- at most ten at once -----------------------------------------------------------------

  /** The goroutines that have begun and not come to their end. */
  function Begun(fs: FileSystem, ps: seq<Path>, y: Race): set<nat>
    requires |y.todo| == |ps|
  {
    set i: nat | i < |ps| && y.todo[i] != [] && y.todo[i] != [Check(ps[i], fs.kind(ps[i]))]
  }

  ghost predicate BegunMayRun(fs: FileSystem, ps: seq<Path>, y: Race) {
    |y.todo| == |ps| && forall i :: i in Begun(fs, ps, y) ==> MayRun(y, i)
  }

  lemma TurnKeepsBegun(fs: FileSystem, o: Options, ps: seq<Path>, y: Race, i: nat)
    requires BegunMayRun(fs, ps, y)
    ensures BegunMayRun(fs, ps, Turn(fs, o, y, i))
  {
    hide Advance;
    var z := Turn(fs, o, y, i);
    if MayRun(y, i) {
      FinishedStays(fs, o, y.state);
      forall j | j in Begun(fs, ps, z)
        ensures MayRun(z, j)
      {
        assert j == i || j in Begun(fs, ps, y);
        SubsetSize(Unfinished(z.todo, j), Unfinished(y.todo, j));
      }
    }
  }

  lemma FinishedStays(fs: FileSystem, o: Options, s: State)
    ensures Advance(fs, o, s, []).1 == []
  {
  }

  lemma {:induction false} TurnsKeepBegun(fs: FileSystem, o: Options, ps: seq<Path>, y: Race, order: seq<nat>)
    requires BegunMayRun(fs, ps, y)
    ensures BegunMayRun(fs, ps, Turns(fs, o, y, order))
    decreases |order|
  {
    hide Turn, BegunMayRun;
    if order != [] {
      TurnKeepsBegun(fs, o, ps, y, order[0]);
      TurnsKeepBegun(fs, o, ps, Turn(fs, o, y, order[0]), order[1..]);
    }
  }

  lemma {:induction false} Latest(s: set<nat>) returns (m: nat)
    requires s != {}
    ensures m in s && forall k :: k in s ==> k <= m
  {
    var k :| k in s;
    m := k;
    if s - {k} != {} {
      var n := Latest(s - {k});
      m := if k > n then k else n;
    }
    assert forall j :: j in s ==> j == k || j in s - {k};
  }

  /** At no time of any interleaving are more than ten goroutines at work. */
  lemma AtMostTenAtOnce(fs: FileSystem, o: Options, ps: seq<Path>, order: seq<nat>)
    ensures var y := Turns(fs, o, Started(fs, ps), order);
            |y.todo| == |ps| && |Begun(fs, ps, y)| <= 10
  {
    hide Turns, Started;
    TurnsKeepBegun(fs, o, ps, Started(fs, ps), order);
    var y := Turns(fs, o, Started(fs, ps), order);
    if Begun(fs, ps, y) != {} {
      var m := Latest(Begun(fs, ps, y));
      assert MayRun(y, m);
      SubsetSize(Begun(fs, ps, y), Unfinished(y.todo, m) + {m});
      assert |Unfinished(y.todo, m) + {m}| == |Unfinished(y.todo, m)| + 1;
    }
  }

  predicate Apart(reach: seq<Region>) {
    forall i, j :: 0 <= i < j < |reach| ==> reach[i].all !! reach[j].all
  }

  lemma {:induction false} ApartReachers(reach: seq<Region>, p: Path)
    requires Apart(reach)
    ensures Reachers(reach, p) <= 1
  {
    if reach != [] {
      ApartReachers(reach[1..], p);
      if p in reach[0].all {
        NotReached(reach[1..], p);
      }
    }
  }

  lemma {:induction false} NotReached(reach: seq<Region>, p: Path)
    requires forall i :: 0 <= i < |reach| ==> p !in reach[i].all
    ensures Reachers(reach, p) == 0
  {
    if reach != [] {
      NotReached(reach[1..], p);
    }
  }

  /** So when no two goroutines can reach the same path, every interleaving records each path at most
      once. */
  lemma DisjointReachRecordsOnce(
    fs: FileSystem, o: Options, ps: seq<Path>, reach: seq<Region>, order: seq<nat>, p: Path)
    requires Reach(fs, o, ps, reach) && Apart(reach)
    ensures Recorded(Turns(fs, o, Started(fs, ps), order).state)[p] <= 1
  {
    RecordedAtMostReachers(fs, o, ps, reach, order, p);
    ApartReachers(reach, p);
  }
}
