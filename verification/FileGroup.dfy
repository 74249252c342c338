/** Collecting a file group: a walk over a tree that follows symbolic links out of it, guarded
    against cycles by the set of paths already recorded. */
module FileGroup {

  type Path = seq<string>

  datatype Kind = File | Dir | Link(target: Path) | BadLink

  /** What following all links from a path finds. */
  datatype Stat = Missing | IsDir | NotDir

  /** One call of the walk function: a path, a path whose details cannot be read, or an error. */
  datatype Entry = Found(path: Path) | NoInfo | Broken

  /** A file system that does not change meanwhile. Nothing ties `stat` to `kind`: dangling links,
      cycles and links to links are all included. A walk does not follow links, and the walk of a
      link visits that link alone. */
  datatype FileSystem = FileSystem(kind: Path -> Kind, stat: Path -> Stat, walk: Path -> seq<Entry>,
      opens: Path -> bool)

  datatype Options = Options(follow: bool, skipSPM: bool)

  datatype Symlink = Symlink(path: Path, target: Path)

  datatype State = State(files: seq<Path>, dirs: seq<Path>, links: seq<Symlink>, seen: set<Path>)

  const EMPTY: State := State([], [], [], {})

  predicate Skipped(o: Options, p: Path) {
    o.skipSPM && "SourcePackages" in p
  }

  ghost predicate EntriesWithin(es: seq<Entry>, all: set<Path>) {
    forall e :: e in es && e.Found? ==> e.path in all
  }

  /** Walking from these paths and following their links leads to no other path. */
  ghost predicate Closed(fs: FileSystem, all: set<Path>) {
    forall p :: p in all ==> (fs.kind(p).Link? ==> fs.kind(p).target in all) && EntriesWithin(fs.walk(p), all)
  }

  // ----- the three mutually recursive functions ----------------------------------------------

  function AddFile(s: State, p: Path): State {
    s.(files := s.files + [p], seen := s.seen + {p})
  }

  function AddDir(s: State, p: Path): State {
    s.(dirs := s.dirs + [p], seen := s.seen + {p})
  }

  function AddSymlink(s: State, p: Path, target: Path): State {
    s.(links := s.links + [Symlink(p, target)], seen := s.seen + {p})
  }

  /** Recording only ever adds. */
  ghost predicate Extends(s: State, t: State) {
    s.seen <= t.seen && s.links <= t.links
  }

  /** Each call that goes deeper has recorded one more of finitely many paths, so link cycles end. */
  function Collect(fs: FileSystem, o: Options, ghost all: set<Path>, s: State, p: Path, kind: Kind): (r: (State, bool))
    requires Closed(fs, all) && p in all && (kind.Link? ==> kind.target in all)
    ensures Extends(s, r.0)
    decreases all - s.seen, 2, 0
  {
    if p in s.seen then (s, true)
    else if kind.Dir? then (AddDir(s, p), true)
    else if Skipped(o, p) then (s, true)
    else match kind
      case BadLink => (s, false)
      case Link(target) => Follow(fs, o, all, s, p, target)
      case _ => if fs.opens(p) then (AddFile(s, p), true) else (s, false)
  }

  function Follow(fs: FileSystem, o: Options, ghost all: set<Path>, s: State, p: Path, target: Path): (r: (State, bool))
    requires Closed(fs, all) && p in all && p !in s.seen && target in all
    ensures Extends(s, r.0)
    decreases all - s.seen, 1, 0
  {
    if !o.follow || target in s.seen then (s, true)
    else
      match fs.stat(target)
      case Missing => (s, false)
      case NotDir =>
        assert p in all - s.seen;
        Collect(fs, o, all, AddSymlink(s, p, target), target, File)
      case IsDir =>
        assert p in all - s.seen;
        WalkTarget(fs, o, all, AddSymlink(s, p, target), fs.walk(target))
  }

  function WalkTarget(fs: FileSystem, o: Options, ghost all: set<Path>, s: State, es: seq<Entry>): (r: (State, bool))
    requires Closed(fs, all) && EntriesWithin(es, all)
    ensures Extends(s, r.0)
    decreases all - s.seen, 3, |es|
  {
    if es == [] then (s, true)
    else if !es[0].Found? then (s, false)
    else
      var (t, ok) := Collect(fs, o, all, s, es[0].path, fs.kind(es[0].path));
      if ok then WalkTarget(fs, o, all, t, es[1..]) else (t, false)
  }

  /** The walk of the cache directory itself, its entries taken one after another: an entry that
      fails is only logged. */
  function CollectAll(fs: FileSystem, o: Options, ghost all: set<Path>, s: State, es: seq<Entry>): (r: (State, bool))
    requires Closed(fs, all) && EntriesWithin(es, all)
    ensures Extends(s, r.0)
    decreases |es|
  {
    if es == [] then (s, true)
    else if es[0].Broken? then (s, false)
    else if es[0].NoInfo? then CollectAll(fs, o, all, s, es[1..])
    else CollectAll(fs, o, all, Collect(fs, o, all, s, es[0].path, fs.kind(es[0].path)).0, es[1..])
  }

  // ----- each path is recorded once ----------------------------------------------------------

  function LinkPaths(links: seq<Symlink>): (ps: seq<Path>)
    ensures |ps| == |links| && forall i :: 0 <= i < |links| ==> ps[i] == links[i].path
  {
    seq(|links|, i requires 0 <= i < |links| => links[i].path)
  }

  function Recorded(s: State): multiset<Path> {
    multiset(s.files) + multiset(s.dirs) + multiset(LinkPaths(s.links))
  }

  /** Across files, directories and symlinks no path appears twice, and exactly the recorded ones
      count as seen. */
  ghost predicate Once(s: State) {
    forall p :: Recorded(s)[p] == if p in s.seen then 1 else 0
  }

  /** Each list holds what it says: directories, links with the target they have, readable files that
      are files themselves or were reached through a link; and no file or link the options skip. */
  ghost predicate Right(fs: FileSystem, o: Options, s: State) {
    && (forall p :: p in s.dirs ==> fs.kind(p).Dir?)
    && (forall l :: l in s.links ==> fs.kind(l.path) == Link(l.target) && o.follow)
    && (forall p :: p in s.files ==> (fs.kind(p).File? || fs.stat(p).NotDir?) && fs.opens(p))
    && (o.skipSPM ==> (forall l :: l in s.links ==> "SourcePackages" !in l.path)
                      && (forall p :: p in s.files ==> "SourcePackages" !in p))
  }

  /** The kind a path is collected as: its own, or a file when a link resolved to one. */
  predicate CollectedAs(fs: FileSystem, p: Path, kind: Kind) {
    kind == fs.kind(p) || (kind == File && fs.stat(p).NotDir?)
  }

  lemma AddFileOnce(fs: FileSystem, o: Options, s: State, p: Path)
    requires Once(s) && Right(fs, o, s) && p !in s.seen
    ensures Once(AddFile(s, p))
    ensures (fs.kind(p).File? || fs.stat(p).NotDir?) && fs.opens(p) && !Skipped(o, p) ==> Right(fs, o, AddFile(s, p))
  {
    assert Recorded(AddFile(s, p)) == Recorded(s) + multiset{p};
  }

  lemma AddDirOnce(fs: FileSystem, o: Options, s: State, p: Path)
    requires Once(s) && Right(fs, o, s) && p !in s.seen
    ensures Once(AddDir(s, p))
    ensures fs.kind(p).Dir? ==> Right(fs, o, AddDir(s, p))
  {
    assert Recorded(AddDir(s, p)) == Recorded(s) + multiset{p};
  }

  lemma AddSymlinkRight(fs: FileSystem, o: Options, s: State, p: Path, target: Path)
    requires Right(fs, o, s) && fs.kind(p) == Link(target) && o.follow && !Skipped(o, p)
    ensures Right(fs, o, AddSymlink(s, p, target))
  {
  }

  lemma AddSymlinkOnce(fs: FileSystem, o: Options, s: State, p: Path, target: Path)
    requires Once(s) && Right(fs, o, s) && p !in s.seen
    ensures Once(AddSymlink(s, p, target))
    ensures fs.kind(p) == Link(target) && o.follow && !Skipped(o, p) ==> Right(fs, o, AddSymlink(s, p, target))
  {
    hide Right;
    assert LinkPaths(AddSymlink(s, p, target).links) == LinkPaths(s.links) + [p];
    assert Recorded(AddSymlink(s, p, target)) == Recorded(s) + multiset{p};
    if fs.kind(p) == Link(target) && o.follow && !Skipped(o, p) {
      AddSymlinkRight(fs, o, s, p, target);
    }
  }

  lemma {:induction false} CollectOnce(fs: FileSystem, o: Options, all: set<Path>, s: State, p: Path, kind: Kind)
    requires Closed(fs, all) && p in all && (kind.Link? ==> kind.target in all) && CollectedAs(fs, p, kind)
    requires Once(s) && s.seen <= all && Right(fs, o, s)
    ensures var t := Collect(fs, o, all, s, p, kind).0; Once(t) && t.seen <= all && Right(fs, o, t)
    decreases all - s.seen, 2, 0
  {
    hide Once, Right;
    if p !in s.seen {
      AddFileOnce(fs, o, s, p);
      AddDirOnce(fs, o, s, p);
      if kind.Link? && !Skipped(o, p) {
        FollowOnce(fs, o, all, s, p, kind.target);
      }
    }
  }

  lemma {:induction false} FollowOnce(fs: FileSystem, o: Options, all: set<Path>, s: State, p: Path, target: Path)
    requires Closed(fs, all) && p in all && p !in s.seen && target in all && fs.kind(p) == Link(target)
             && !Skipped(o, p)
    requires Once(s) && s.seen <= all && Right(fs, o, s)
    ensures var t := Follow(fs, o, all, s, p, target).0; Once(t) && t.seen <= all && Right(fs, o, t)
    decreases all - s.seen, 1, 0
  {
    hide Once, Right;
    AddSymlinkOnce(fs, o, s, p, target);
    if o.follow && target !in s.seen && !fs.stat(target).Missing? {
      assert p in all - s.seen;
      if fs.stat(target).NotDir? {
        CollectOnce(fs, o, all, AddSymlink(s, p, target), target, File);
      } else {
        WalkOnce(fs, o, all, AddSymlink(s, p, target), fs.walk(target));
      }
    }
  }

  lemma {:induction false} WalkOnce(fs: FileSystem, o: Options, all: set<Path>, s: State, es: seq<Entry>)
    requires Closed(fs, all) && EntriesWithin(es, all)
    requires Once(s) && s.seen <= all && Right(fs, o, s)
    ensures var t := WalkTarget(fs, o, all, s, es).0; Once(t) && t.seen <= all && Right(fs, o, t)
    decreases all - s.seen, 3, |es|
  {
    if es != [] && es[0].Found? {
      CollectOnce(fs, o, all, s, es[0].path, fs.kind(es[0].path));
      var (t, ok) := Collect(fs, o, all, s, es[0].path, fs.kind(es[0].path));
      if ok {
        WalkOnce(fs, o, all, t, es[1..]);
      }
    }
  }

  /** Whatever cycles and shortcuts the links form, a sequential collection records each path at
      most once and for what it is, and only paths of the tree or behind its links. */
  lemma {:induction false} EachPathRecordedOnce(fs: FileSystem, o: Options, all: set<Path>, s: State, es: seq<Entry>)
    requires Closed(fs, all) && EntriesWithin(es, all)
    requires Once(s) && s.seen <= all && Right(fs, o, s)
    ensures var t := CollectAll(fs, o, all, s, es).0; Once(t) && t.seen <= all && Right(fs, o, t)
    decreases |es|
  {
    if es != [] && !es[0].Broken? {
      if es[0].Found? {
        CollectOnce(fs, o, all, s, es[0].path, fs.kind(es[0].path));
        EachPathRecordedOnce(fs, o, all, Collect(fs, o, all, s, es[0].path, fs.kind(es[0].path)).0, es[1..]);
      } else {
        EachPathRecordedOnce(fs, o, all, s, es[1..]);
      }
    }
  }

  // ----- nothing is left behind --------------------------------------------------------------

  /** Recorded, or left out for one of the reasons the collector has. */
  predicate Handled(fs: FileSystem, o: Options, s: State, p: Path, kind: Kind) {
    || p in s.seen
    || (!kind.Dir? && o.skipSPM && "SourcePackages" in p)
    || (kind.Link? && (!o.follow || kind.target in s.seen))
  }

  /** What a recorded link leads to has been dealt with: the file, or every entry of the walk. */
  ghost predicate Covered(fs: FileSystem, o: Options, s: State, link: Symlink) {
    match fs.stat(link.target)
    case Missing => false
    case NotDir => Handled(fs, o, s, link.target, File)
    case IsDir => forall e :: e in fs.walk(link.target) ==> e.Found? && Handled(fs, o, s, e.path, fs.kind(e.path))
  }

  lemma StaysCovered(fs: FileSystem, o: Options, s: State, t: State, from: nat)
    requires Extends(s, t) && from <= |s.links|
    requires forall i :: from <= i < |s.links| ==> Covered(fs, o, s, s.links[i])
    ensures forall i :: from <= i < |s.links| ==> Covered(fs, o, t, t.links[i])
  {
  }

  lemma {:induction false} CollectCovers(fs: FileSystem, o: Options, all: set<Path>, s: State, p: Path, kind: Kind)
    requires Closed(fs, all) && p in all && (kind.Link? ==> kind.target in all)
    requires Collect(fs, o, all, s, p, kind).1
    ensures var t := Collect(fs, o, all, s, p, kind).0;
            Handled(fs, o, t, p, kind) && forall i :: |s.links| <= i < |t.links| ==> Covered(fs, o, t, t.links[i])
    decreases all - s.seen, 2, 0
  {
    if p !in s.seen && kind.Link? && !Skipped(o, p) {
      FollowCovers(fs, o, all, s, p, kind.target);
    }
  }

  lemma {:induction false} FollowCovers(fs: FileSystem, o: Options, all: set<Path>, s: State, p: Path, target: Path)
    requires Closed(fs, all) && p in all && p !in s.seen && target in all
    requires Follow(fs, o, all, s, p, target).1
    ensures var t := Follow(fs, o, all, s, p, target).0;
            && Handled(fs, o, t, p, Link(target))
            && forall i :: |s.links| <= i < |t.links| ==> Covered(fs, o, t, t.links[i])
    decreases all - s.seen, 1, 0
  {
    if o.follow && target !in s.seen {
      assert p in all - s.seen;
      var added := AddSymlink(s, p, target);
      var t := Follow(fs, o, all, s, p, target).0;
      assert p in added.seen && added.links[|s.links|] == Symlink(p, target);
      if fs.stat(target).NotDir? {
        CollectCovers(fs, o, all, added, target, File);
      } else {
        WalkCovers(fs, o, all, added, fs.walk(target));
      }
      assert t.links[|s.links|] == Symlink(p, target);
      assert Covered(fs, o, t, Symlink(p, target));
    }
  }

  lemma {:induction false} WalkCovers(fs: FileSystem, o: Options, all: set<Path>, s: State, es: seq<Entry>)
    requires Closed(fs, all) && EntriesWithin(es, all)
    requires WalkTarget(fs, o, all, s, es).1
    ensures var t := WalkTarget(fs, o, all, s, es).0;
            && (forall e :: e in es ==> e.Found? && Handled(fs, o, t, e.path, fs.kind(e.path)))
            && (forall i :: |s.links| <= i < |t.links| ==> Covered(fs, o, t, t.links[i]))
    decreases all - s.seen, 3, |es|
  {
    if es != [] {
      var p := es[0].path;
      CollectCovers(fs, o, all, s, p, fs.kind(p));
      var u := Collect(fs, o, all, s, p, fs.kind(p)).0;
      WalkCovers(fs, o, all, u, es[1..]);
      var t := WalkTarget(fs, o, all, u, es[1..]).0;
      StaysCovered(fs, o, u, t, |s.links|);
      forall e | e in es
        ensures e.Found? && Handled(fs, o, t, e.path, fs.kind(e.path))
      {
        if e != es[0] {
          assert e in es[1..];
        }
      }
    }
  }

  lemma {:induction false} ErrorFreeRunsAgree(fs: FileSystem, o: Options, all: set<Path>, s: State, es: seq<Entry>)
    requires Closed(fs, all) && EntriesWithin(es, all)
    requires WalkTarget(fs, o, all, s, es).1
    ensures CollectAll(fs, o, all, s, es) == WalkTarget(fs, o, all, s, es)
    decreases |es|
  {
    if es != [] {
      ErrorFreeRunsAgree(fs, o, all, Collect(fs, o, all, s, es[0].path, fs.kind(es[0].path)).0, es[1..]);
    }
  }

  /** When no entry failed, every path walked is recorded unless the options drop it or it is a
      link to something recorded, and behind every recorded link nothing was left out either. */
  lemma ErrorFreeRunCoversTree(fs: FileSystem, o: Options, all: set<Path>, es: seq<Entry>)
    requires Closed(fs, all) && EntriesWithin(es, all)
    requires WalkTarget(fs, o, all, EMPTY, es).1
    ensures var (t, ok) := CollectAll(fs, o, all, EMPTY, es);
            && ok
            && (forall e :: e in es ==> e.Found? && Handled(fs, o, t, e.path, fs.kind(e.path)))
            && (forall link :: link in t.links ==> Covered(fs, o, t, link))
  {
    ErrorFreeRunsAgree(fs, o, all, EMPTY, es);
    WalkCovers(fs, o, all, EMPTY, es);
  }

  /** An entry that fails stops nothing: what any entry of the walk leads to is recorded in the state the
      ones before it left, failed or not, and stays recorded; the walk itself is only ended by an error
      of its own. */
  lemma {:induction false} FailuresStopNothing(
    fs: FileSystem, o: Options, all: set<Path>, s: State, es: seq<Entry>, i: nat)
    requires Closed(fs, all) && EntriesWithin(es, all)
    requires i < |es| && EntriesWithin(es[..i], all) && es[i].Found? && forall j :: 0 <= j < i ==> !es[j].Broken?
    ensures var p, kind := es[i].path, fs.kind(es[i].path);
            var (here, ok) := Collect(fs, o, all, CollectAll(fs, o, all, s, es[..i]).0, p, kind);
            var t := CollectAll(fs, o, all, s, es).0;
            Extends(here, t) && (ok ==> Handled(fs, o, t, p, kind))
    ensures CollectAll(fs, o, all, s, es).1 <==> forall e :: e in es ==> !e.Broken?
    decreases |es|
  {
    WalkEndsIffBroken(fs, o, all, s, es);
    if i == 0 {
      var (here, ok) := Collect(fs, o, all, s, es[0].path, fs.kind(es[0].path));
      if ok {
        CollectCovers(fs, o, all, s, es[0].path, fs.kind(es[0].path));
      }
    } else {
      var next := if es[0].Found? then Collect(fs, o, all, s, es[0].path, fs.kind(es[0].path)).0 else s;
      assert es[..i][0] == es[0] && es[..i][1..] == es[1..][..i - 1];
      FailuresStopNothing(fs, o, all, next, es[1..], i - 1);
    }
  }

  lemma {:induction false} WalkEndsIffBroken(
    fs: FileSystem, o: Options, all: set<Path>, s: State, es: seq<Entry>)
    requires Closed(fs, all) && EntriesWithin(es, all)
    ensures CollectAll(fs, o, all, s, es).1 <==> forall e :: e in es ==> !e.Broken?
    decreases |es|
  {
    if es != [] && !es[0].Broken? {
      assert forall e :: e in es <==> e == es[0] || e in es[1..];
      var next := if es[0].Found? then Collect(fs, o, all, s, es[0].path, fs.kind(es[0].path)).0 else s;
      WalkEndsIffBroken(fs, o, all, next, es[1..]);
    }
  }

  /** A link is recorded exactly when its target is not recorded yet: a second link to the same
      place is dropped, and so is a link to anything the walk has already met. */
  lemma LinkRecordedIffTargetUnseen(fs: FileSystem, o: Options, all: set<Path>, s: State, p: Path, target: Path)
    requires Closed(fs, all) && p in all && target in all
    requires p !in s.seen && Once(s) && s.seen <= all && !Skipped(o, p) && !fs.stat(target).Missing?
    ensures Symlink(p, target) in Collect(fs, o, all, s, p, Link(target)).0.links <==> o.follow && target !in s.seen
  {
    assert Collect(fs, o, all, s, p, Link(target)) == Follow(fs, o, all, s, p, target);
    if o.follow && target !in s.seen {
      assert p in all - s.seen;
      var added := AddSymlink(s, p, target);
      assert added.links[|s.links|] == Symlink(p, target);
      var t := Follow(fs, o, all, s, p, target).0;
      assert Extends(added, t);
      assert t.links[|s.links|] == Symlink(p, target);
    }
  }

  // ----- the collector -----------------------------------------------------------------------

  class Collector {
    var files: seq<Path>
    var dirs: seq<Path>
    var links: seq<Symlink>
    var seen: set<Path>

    constructor ()
      ensures Contents() == EMPTY
    {
      files, dirs, links, seen := [], [], [], {};
    }

    function Contents(): State
      reads this
    {
      State(files, dirs, links, seen)
    }

    method CollectFileMetadata(fs: FileSystem, o: Options, ghost all: set<Path>, p: Path, kind: Kind) returns (ok: bool)
      requires Closed(fs, all) && p in all && (kind.Link? ==> kind.target in all)
      modifies this
      ensures (Contents(), ok) == Collect(fs, o, all, old(Contents()), p, kind)
      decreases all - seen, 2, 0
    {
      if p in seen {
        return true;
      }
      if kind.Dir? {
        dirs, seen := dirs + [p], seen + {p};
        return true;
      }
      if Skipped(o, p) {
        return true;
      }
      if kind.Link? {
        ok := FollowSymlink(fs, o, all, p, kind.target);
        return;
      }
      if kind.BadLink? || !fs.opens(p) {
        return false;
      }
      files, seen := files + [p], seen + {p};
      return true;
    }

    method FollowSymlink(fs: FileSystem, o: Options, ghost all: set<Path>, p: Path, target: Path) returns (ok: bool)
      requires Closed(fs, all) && p in all && p !in seen && target in all
      modifies this
      ensures (Contents(), ok) == Follow(fs, o, all, old(Contents()), p, target)
      decreases all - seen, 1, 0
    {
      if !o.follow || target in seen {
        return true;
      }
      var stat := fs.stat(target);
      if stat.Missing? {
        return false;
      }
      assert p in all - seen;
      links, seen := links + [Symlink(p, target)], seen + {p};
      if stat.NotDir? {
        ok := CollectFileMetadata(fs, o, all, target, File);
        return;
      }
      ok := WalkDir(fs, o, all, fs.walk(target));
    }

    method WalkDir(fs: FileSystem, o: Options, ghost all: set<Path>, es: seq<Entry>) returns (ok: bool)
      requires Closed(fs, all) && EntriesWithin(es, all)
      modifies this
      ensures (Contents(), ok) == WalkTarget(fs, o, all, old(Contents()), es)
      decreases all - seen, 3, 0
    {
      for i := 0 to |es|
        invariant old(seen) <= seen
        invariant WalkTarget(fs, o, all, old(Contents()), es) == WalkTarget(fs, o, all, Contents(), es[i..])
      {
        if !es[i].Found? {
          return false;
        }
        var collected := CollectFileMetadata(fs, o, all, es[i].path, fs.kind(es[i].path));
        if !collected {
          return false;
        }
        assert es[i..][1..] == es[i + 1..];
      }
      return true;
    }

    /** `CollectFileGroupInfo`, with the goroutines run one after another. */
    method CollectGroup(fs: FileSystem, o: Options, ghost all: set<Path>, root: Path) returns (ok: bool)
      requires Closed(fs, all) && root in all
      requires Contents() == EMPTY
      modifies this
      ensures (Contents(), ok) == CollectAll(fs, o, all, EMPTY, fs.walk(root))
      ensures Once(Contents()) && seen <= all && Right(fs, o, Contents())
    {
      var es := fs.walk(root);
      EachPathRecordedOnce(fs, o, all, EMPTY, es);
      for i := 0 to |es|
        invariant CollectAll(fs, o, all, EMPTY, es) == CollectAll(fs, o, all, Contents(), es[i..])
      {
        assert es[i..][1..] == es[i + 1..];
        if es[i].Broken? {
          return false;
        }
        if es[i].Found? {
          var _ := CollectFileMetadata(fs, o, all, es[i].path, fs.kind(es[i].path));
        }
      }
      return true;
    }
  }
}
