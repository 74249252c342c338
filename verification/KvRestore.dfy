/** Downloading the files of a group: what `DownloadFile` does to a path in each state, the retries
    around it, and the group's classification and counters. */
module KvRestore {
  import opened Bytes
  import D = KvDownload

  /** The file's bytes relative to the blob being restored; `Partial` is what a transfer that did not
      end well left. */
  datatype Content = Old | Partial | Whole

  datatype OnDisk = Absent | Present(ownerWritable: bool, content: Content)

  datatype Fetch = Complete | NotInCache | Unauthenticated | Broken

  /** The file system and the transfer during one attempt. */
  datatype World = World(mkdirFails: bool, chmodFails: bool, removeFails: bool, openFails: bool, fetch: Fetch,
      chtimesFails: bool)

  datatype FileError = CacheNotFound | CacheUnauthenticated | NotWritable | OtherError

  datatype FileResult = Skipped | Fetched | Failed(err: FileError)

  datatype Step = Step(disk: OnDisk, result: FileResult)

  /** `DownloadFile`. `writableMode` says whether the recorded file mode lets the owner write. */
  function DownloadFile(disk: OnDisk, writableMode: bool, skipExisting: bool, forceOverwrite: bool, w: World): Step {
    if w.mkdirFails then Step(disk, Failed(OtherError))
    else if disk.Absent? then OpenAndFetch(disk, writableMode, w)
    else if skipExisting then Step(disk, Skipped)
    else if disk.ownerWritable then OpenAndFetch(disk, writableMode, w)
    else if !forceOverwrite then Step(disk, Failed(NotWritable))
    else if w.chmodFails then Step(disk, Failed(OtherError))
    else if w.removeFails then Step(disk.(ownerWritable := true), Failed(OtherError))
    else OpenAndFetch(Absent, writableMode, w)
  }

  /** The file is created or truncated before the first byte arrives. */
  function OpenAndFetch(disk: OnDisk, writableMode: bool, w: World): Step {
    if w.openFails then Step(disk, Failed(OtherError))
    else
      var writable := if disk.Absent? then writableMode else disk.ownerWritable;
      match w.fetch
      case Complete => Step(Present(writable, Whole), Fetched)
      case NotInCache => Step(Present(writable, Partial), Failed(CacheNotFound))
      case Unauthenticated => Step(Present(writable, Partial), Failed(CacheUnauthenticated))
      case Broken => Step(Present(writable, Partial), Failed(OtherError))
  }

  datatype Class = Downloaded | Missing | FailedToDownload

  datatype FileEnd = FileEnd(disk: OnDisk, class_: Class, skipped: bool)

  const RETRIES: nat := 3

  /** The options as the command received them. The group download hands `force` to the parameter
      that skips and `skip` to the one that forces. */
  datatype Options = Options(skip: bool, force: bool)

  function FileRun(disk: OnDisk, writableMode: bool, o: Options, attempt: nat, world: nat -> World): FileEnd
    requires attempt <= RETRIES
    decreases RETRIES - attempt
  {
    var w := world(attempt);
    var s := DownloadFile(disk, writableMode, o.force, o.skip, w);
    match s.result
    case Skipped => FileEnd(s.disk, Downloaded, true)
    case Fetched => FileEnd(s.disk, if w.chtimesFails then FailedToDownload else Downloaded, false)
    case Failed(CacheNotFound) => FileEnd(s.disk, Missing, false)
    case Failed(OtherError) =>
      if attempt == RETRIES then FileEnd(s.disk, FailedToDownload, false)
      else FileRun(s.disk, writableMode, o, attempt + 1, world)
    case Failed(_) => FileEnd(s.disk, FailedToDownload, false)
  }

  // ----- how a file ends ---------------------------------------------------------------------

  /** There is a file and the options keep it: the call passes the force option as the one that skips. */
  predicate Skips(disk: OnDisk, o: Options, w: World) {
    !w.mkdirFails && disk.Present? && o.force
  }

  /** There is a file that may not be written, and the options do not remove it. */
  predicate Forbidden(disk: OnDisk, o: Options, w: World) {
    !w.mkdirFails && disk.Present? && !o.force && !disk.ownerWritable && !o.skip
  }

  /** The attempt gets as far as asking the cache for the blob. */
  predicate Asks(disk: OnDisk, o: Options, w: World) {
    && !w.mkdirFails && !w.openFails
    && (disk.Absent? || (!o.force && (disk.ownerWritable || (o.skip && !w.chmodFails && !w.removeFails))))
  }

  /** The attempts after which there is another one: the file system or the transfer failed. */
  predicate GoesOn(disk: OnDisk, o: Options, w: World) {
    if Asks(disk, o, w) then w.fetch.Broken? else !Skips(disk, o, w) && !Forbidden(disk, o, w)
  }

  /** What the last attempt makes of the file. */
  predicate EndsAs(e: FileEnd, disk: OnDisk, writableMode: bool, o: Options, w: World) {
    && (e.skipped <==> Skips(disk, o, w))
    && (e.class_ == Missing <==> Asks(disk, o, w) && w.fetch.NotInCache?)
    && (e.class_ == Downloaded <==>
        Skips(disk, o, w) || (Asks(disk, o, w) && w.fetch.Complete? && !w.chtimesFails))
    && e.disk == Leaves(disk, writableMode, o, w)
  }

  /** A file that may not be written is made writable, to be removed next. */
  predicate Unlocks(disk: OnDisk, o: Options, w: World) {
    !w.mkdirFails && disk.Present? && !disk.ownerWritable && !o.force && o.skip && !w.chmodFails
  }

  /** What an attempt leaves on the disk: the whole blob or what there is of it once it asked the cache,
      in a file of its own mode unless one was written over; else a file that was unlocked is still
      there or gone, and nothing else is touched. */
  function Leaves(disk: OnDisk, writableMode: bool, o: Options, w: World): OnDisk {
    if Asks(disk, o, w) then
      Present(if disk.Present? && disk.ownerWritable then true else writableMode,
              if w.fetch.Complete? then Whole else Partial)
    else if Unlocks(disk, o, w) then
      if w.removeFails then disk.(ownerWritable := true) else Absent
    else disk
  }

  lemma AttemptEndsAs(disk: OnDisk, writableMode: bool, o: Options, w: World)
    ensures var s := DownloadFile(disk, writableMode, o.force, o.skip, w);
            && (s.result == Failed(OtherError) <==> GoesOn(disk, o, w))
            && (s.result == Skipped <==> Skips(disk, o, w))
            && (s.result == Fetched <==> Asks(disk, o, w) && w.fetch.Complete?)
            && (s.result == Failed(CacheNotFound) <==> Asks(disk, o, w) && w.fetch.NotInCache?)
            && (s.result == Failed(NotWritable) <==> Forbidden(disk, o, w))
            && s.disk == Leaves(disk, writableMode, o, w)
  {
  }

  datatype Try = Try(attempt: nat, disk: OnDisk)

  /** The last attempt at a file and what it found on the disk. */
  function LastTry(disk: OnDisk, writableMode: bool, o: Options, attempt: nat, world: nat -> World): (last: Try)
    requires attempt <= RETRIES
    ensures last.attempt <= RETRIES
    decreases RETRIES - attempt
  {
    if attempt < RETRIES && GoesOn(disk, o, world(attempt)) then
      var s := DownloadFile(disk, writableMode, o.force, o.skip, world(attempt));
      LastTry(s.disk, writableMode, o, attempt + 1, world)
    else Try(attempt, disk)
  }

  /** A file's class is decided by its last attempt: it is missing exactly when that one asked the cache
      and found the blob gone, downloaded when it got the blob or skipped, and failed otherwise; and
      there is another attempt exactly when the file system or the transfer failed. */
  lemma {:induction false} FileEndsAsItsLastAttempt(disk: OnDisk, writableMode: bool, o: Options, attempt: nat,
      world: nat -> World)
    requires attempt <= RETRIES
    ensures var last := LastTry(disk, writableMode, o, attempt, world);
            && EndsAs(FileRun(disk, writableMode, o, attempt, world), last.disk, writableMode, o, world(last.attempt))
            && (GoesOn(last.disk, o, world(last.attempt)) ==> last.attempt == RETRIES)
    decreases RETRIES - attempt
  {
    hide Asks, DownloadFile, Leaves;
    var w := world(attempt);
    var s := DownloadFile(disk, writableMode, o.force, o.skip, w);
    AttemptEndsAs(disk, writableMode, o, w);
    if attempt < RETRIES && GoesOn(disk, o, w) {
      FileEndsAsItsLastAttempt(s.disk, writableMode, o, attempt + 1, world);
    }
  }

  predicate Restored(disk: OnDisk) {
    disk.Present? && disk.content.Whole?
  }

  /** A file counted as downloaded holds the blob if and only if it was not skipped; and files are
      only ever skipped under the force option. */
  lemma {:induction false} DownloadedMeansRestoredIff(disk: OnDisk, writableMode: bool, o: Options, attempt: nat,
      world: nat -> World)
    requires attempt <= RETRIES && !Restored(disk)
    ensures var e := FileRun(disk, writableMode, o, attempt, world);
            && (e.class_.Downloaded? ==> (Restored(e.disk) <==> !e.skipped))
            && (e.skipped ==> o.force)
    decreases RETRIES - attempt
  {
    var s := DownloadFile(disk, writableMode, o.force, o.skip, world(attempt));
    if s.result == Failed(OtherError) && attempt < RETRIES {
      DownloadedMeansRestoredIff(s.disk, writableMode, o, attempt + 1, world);
    }
  }

  /** If the file is counted as downloaded it holds the blob. */
  predicate CountsRight(disk: OnDisk, writableMode: bool, o: Options, world: nat -> World) {
    var e := FileRun(disk, writableMode, o, 0, world);
    e.class_.Downloaded? ==> Restored(e.disk)
  }

  /** So counting as downloaded can be relied on exactly when the force option is off. */
  lemma DownloadedIsReliableIffNotForced(o: Options)
    ensures (forall disk: OnDisk, writableMode: bool, world: nat -> World | !Restored(disk) ::
               CountsRight(disk, writableMode, o, world))
            <==> !o.force
  {
    if o.force {
      var disk, world: nat -> World := Present(true, Old), i => World(false, false, false, false, Complete, false);
      assert FileRun(disk, true, o, 0, world) == FileEnd(disk, Downloaded, true);
      assert !CountsRight(disk, true, o, world);
    } else {
      forall disk: OnDisk, writableMode: bool, world: nat -> World | !Restored(disk)
        ensures CountsRight(disk, writableMode, o, world)
      {
        DownloadedMeansRestoredIff(disk, writableMode, o, 0, world);
      }
    }
  }

  /** Nothing fails during the attempt. */
  predicate Untroubled(w: World) {
    !w.mkdirFails && !w.chmodFails && !w.removeFails && !w.openFails && !w.chtimesFails && w.fetch.Complete?
  }

  /** The two options act for each other. Forcing keeps every existing file as it is and counts it
      as downloaded; without forcing, skipping overwrites existing files, writable or not. */
  lemma OptionsAreSwapped(disk: OnDisk, writableMode: bool, world: nat -> World)
    requires disk.Present? && disk.content.Old?
    requires Untroubled(world(0))
    ensures forall skip :: FileRun(disk, writableMode, Options(skip, true), 0, world) == FileEnd(disk, Downloaded, true)
    ensures var e := FileRun(disk, writableMode, Options(true, false), 0, world);
            e.class_.Downloaded? && Restored(e.disk)
  {}

  /** Under the force option a first attempt that breaks off is never repaired: the retry finds the
      truncated file, skips it, and it is counted as downloaded. */
  lemma ForceKeepsTruncatedFile(writableMode: bool, skip: bool, world: nat -> World)
    requires !world(0).mkdirFails && !world(0).openFails && world(0).fetch.Broken? && !world(1).mkdirFails
    ensures FileRun(Absent, writableMode, Options(skip, true), 0, world)
            == FileEnd(Present(writableMode, Partial), Downloaded, true)
  {
    assert FileRun(Absent, writableMode, Options(skip, true), 0, world)
        == FileRun(Present(writableMode, Partial), writableMode, Options(skip, true), 1, world);
  }

  /** Without either option a broken first attempt is repaired by the next good one exactly when the
      recorded mode lets the owner write; otherwise the retry gives up on the file it created. */
  lemma RetryRepairsIffWritable(writableMode: bool, world: nat -> World)
    requires !world(0).mkdirFails && !world(0).openFails && world(0).fetch.Broken?
    requires !world(1).mkdirFails && !world(1).openFails && world(1).fetch.Complete? && !world(1).chtimesFails
    ensures FileRun(Absent, writableMode, Options(false, false), 0, world)
         == if writableMode then FileEnd(Present(true, Whole), Downloaded, false)
            else FileEnd(Present(false, Partial), FailedToDownload, false)
  {
    assert FileRun(Absent, writableMode, Options(false, false), 0, world)
        == FileRun(Present(writableMode, Partial), writableMode, Options(false, false), 1, world);
  }

  // ----- the transfers -----------------------------------------------------------------------

  /** What `DownloadFile` passes on of the stream download's result. */
  function FetchOf(r: D.Result): Fetch {
    match r
    case Done => Complete
    case HashMismatch => Broken
    case Failed(err) =>
      if err.CacheNotFound? then NotInCache else if err.CacheUnauthenticated? then Unauthenticated else Broken
  }

  /** One attempt's transfer: the stream download, from the start, into the file it truncated. */
  datatype Transfer = Transfer(server: D.World, retries: nat, buffer: nat)

  function FetchBy(t: Transfer, hash: seq<byte> -> string): Fetch
    requires t.buffer > 0
  {
    FetchOf(D.Verify(D.Retry(D.START, t.retries, 0, t.server, t.buffer), hash))
  }

  /** The servers of the transfers hold a fixed blob and announce its hash, which has no collisions. */
  ghost predicate OneBlob(blob: seq<byte>, hash: seq<byte> -> string, t: Transfer) {
    && t.buffer > 0 && D.HonestWorld(blob, t.server) && D.Announces(t.server, hash(blob)) && hash(blob) != ""
    && forall x, y :: hash(x) == hash(y) ==> x == y
  }

  lemma CompleteIffItGoesThrough(blob: seq<byte>, hash: seq<byte> -> string, t: Transfer)
    requires OneBlob(blob, hash, t)
    ensures FetchBy(t, hash).Complete? <==> D.GoesThrough(t.server, t.retries, 0, 0)
    ensures FetchBy(t, hash).Complete? ==> D.Retry(D.START, t.retries, 0, t.server, t.buffer).transfer.written == blob
  {
    hide D.Retry, D.GoesThrough, D.HonestWorld, D.Announces;
    D.DoneIffItGoesThrough(blob, t.retries, t.server, t.buffer, hash);
  }

  /** Which failures reach the caller by name: the blob is reported gone, or the client not let in, exactly
      when that is what the whole answer to the download's last request said. */
  lemma FetchIsTheLastAnswer(t: Transfer, hash: seq<byte> -> string)
    requires t.buffer > 0
    ensures var last := D.LastAsked(t.server, t.retries, 0, 0);
            var answer, room := t.server.answers(last.attempt, last.offset), t.server.room(last.attempt);
            && (FetchBy(t, hash).NotInCache? <==> D.ReportsWhole(answer, room, D.Error(D.NotFound)))
            && (FetchBy(t, hash).Unauthenticated? <==> D.ReportsWhole(answer, room, D.Error(D.Unauthenticated)))
            && (FetchBy(t, hash).Complete? ==> D.ReportsWhole(answer, room, D.Eof))
  {
    hide D.Retry, D.LastAsked, D.ReportsWhole;
    D.ResultIsTheLastAnswers(t.retries, t.server, t.buffer, hash);
  }

  predicate OwnerMayWrite(disk: OnDisk, writableMode: bool) {
    if disk.Absent? then writableMode else disk.ownerWritable
  }

  /** With a writable path on a file system that does not fail, without the force option and unless the
      cache disowns the blob or the client, a file is counted as downloaded exactly when the transfer of
      one of its attempts goes through, retries, offsets and hash check included. */
  lemma {:induction false} DownloadedIffSomeTransferGoesThrough(
    disk: OnDisk, writableMode: bool, o: Options, attempt: nat, world: nat -> World, transfer: nat -> Transfer,
    blob: seq<byte>, hash: seq<byte> -> string)
    requires attempt <= RETRIES && !o.force && OwnerMayWrite(disk, writableMode)
    requires forall i: nat :: OneBlob(blob, hash, transfer(i)) && world(i).fetch == FetchBy(transfer(i), hash)
    requires forall i: nat :: world(i).fetch.Complete? || world(i).fetch.Broken?
    requires forall i: nat :: !world(i).mkdirFails && !world(i).openFails && !world(i).chtimesFails
    ensures var e := FileRun(disk, writableMode, o, attempt, world);
            && (e.class_.Downloaded? <==>
                exists i :: attempt <= i <= RETRIES && D.GoesThrough(transfer(i).server, transfer(i).retries, 0, 0))
            && (e.class_.Downloaded? ==> Restored(e.disk))
    decreases RETRIES - attempt
  {
    hide D.GoesThrough, FetchBy, OneBlob;
    CompleteIffItGoesThrough(blob, hash, transfer(attempt));
    if world(attempt).fetch.Broken? && attempt < RETRIES {
      var s := DownloadFile(disk, writableMode, o.force, o.skip, world(attempt));
      DownloadedIffSomeTransferGoesThrough(s.disk, writableMode, o, attempt + 1, world, transfer, blob, hash);
    }
  }

  // ----- the worker --------------------------------------------------------------------------

  /** The retry loop of one worker. */
  method RestoreFile(disk: OnDisk, writableMode: bool, o: Options, world: nat -> World)
      returns (disk': OnDisk, class_: Class, skipped: bool)
    ensures FileEnd(disk', class_, skipped) == FileRun(disk, writableMode, o, 0, world)
  {
    disk' := disk;
    var attempt: nat := 0;
    while true
      invariant attempt <= RETRIES
      invariant FileRun(disk, writableMode, o, 0, world) == FileRun(disk', writableMode, o, attempt, world)
      decreases RETRIES - attempt
    {
      var s := DownloadFile(disk', writableMode, o.force, o.skip, world(attempt));
      disk' := s.disk;
      match s.result {
        case Skipped =>
          return disk', Downloaded, true;
        case Fetched =>
          return disk', if world(attempt).chtimesFails then FailedToDownload else Downloaded, false;
        case Failed(CacheNotFound) =>
          return disk', Missing, false;
        case Failed(OtherError) =>
          if attempt == RETRIES {
            return disk', FailedToDownload, false;
          }
        case Failed(_) =>
          return disk', FailedToDownload, false;
      }
      attempt := attempt + 1;
    }
  }

  // ----- the group ---------------------------------------------------------------------------

  datatype Stats = Stats(toBeDownloaded: int, downloaded: nat, missing: nat, failed: nat, size: int)

  datatype Done = Done(class_: Class, skipped: bool, size: int)

  datatype Counters = Counters(downloaded: nat, missing: nat, failed: nat, skipped: nat, size: int)

  function Count(c: Counters, d: Done): Counters {
    var c1 := if d.skipped then c.(skipped := c.skipped + 1) else c;
    match d.class_
    case Missing => c1.(missing := c1.missing + 1)
    case FailedToDownload => c1.(failed := c1.failed + 1)
    case Downloaded => c1.(downloaded := c1.downloaded + 1, size := c1.size + d.size)
  }

  function CountAll(c: Counters, order: seq<Done>): Counters
    decreases |order|
  {
    if order == [] then c else CountAll(Count(c, order[0]), order[1..])
  }

  const ZERO: Counters := Counters(0, 0, 0, 0, 0)

  /** The finished files of one class. */
  function OfClass(order: seq<Done>, class_: Class): (ds: seq<Done>) {
    if order == [] then [] else (if order[0].class_ == class_ then [order[0]] else []) + OfClass(order[1..], class_)
  }

  function SkippedIn(order: seq<Done>): (n: nat)
    ensures n <= |order|
  {
    if order == [] then 0 else (if order[0].skipped then 1 else 0) + SkippedIn(order[1..])
  }

  function TotalSize(ds: seq<Done>): int {
    if ds == [] then 0 else ds[0].size + TotalSize(ds[1..])
  }

  lemma {:induction false} OneClassEach(order: seq<Done>)
    ensures |OfClass(order, Downloaded)| + |OfClass(order, Missing)| + |OfClass(order, FailedToDownload)| == |order|
    ensures |OfClass(order, Downloaded)| == |order| <==> forall d :: d in order ==> d.class_.Downloaded?
  {
    if order != [] {
      assert forall d :: d in order <==> d == order[0] || d in order[1..];
      OneClassEach(order[1..]);
    }
  }

  lemma {:induction false} SkippedAreDownloaded(order: seq<Done>)
    requires forall d :: d in order && d.skipped ==> d.class_.Downloaded?
    ensures SkippedIn(order) <= |OfClass(order, Downloaded)|
  {
    if order != [] {
      assert order[0] in order;
      SkippedAreDownloaded(order[1..]);
    }
  }

  /** Whatever the completion order, each counter counts the files of its class, the skipped ones are
      counted, and the size is that of the downloaded files. */
  lemma {:induction false} EveryFileCountedOnce(c: Counters, order: seq<Done>)
    ensures var t := CountAll(c, order);
            && t.downloaded == c.downloaded + |OfClass(order, Downloaded)|
            && t.missing == c.missing + |OfClass(order, Missing)|
            && t.failed == c.failed + |OfClass(order, FailedToDownload)|
            && t.skipped == c.skipped + SkippedIn(order)
            && t.size == c.size + TotalSize(OfClass(order, Downloaded))
    decreases |order|
  {
    if order != [] {
      EveryFileCountedOnce(Count(c, order[0]), order[1..]);
      var more := OfClass(order[1..], Downloaded);
      assert ([order[0]] + more)[1..] == more;
      assert !order[0].class_.Downloaded? ==> OfClass(order, Downloaded) == more;
    }
  }

  /** The group's statistics: the three classes add up to all files, so they exceed
      FilesToBeDownloaded by the skipped ones; and no error is returned exactly when every file was
      downloaded. */
  method Summarize(order: seq<Done>) returns (stats: Stats, ok: bool)
    requires forall d :: d in order && d.skipped ==> d.class_.Downloaded?
    ensures var skipped := |order| - stats.toBeDownloaded;
            && 0 <= skipped <= stats.downloaded
            && stats.downloaded + stats.missing + stats.failed == |order|
    ensures ok <==> stats.missing == 0 && stats.failed == 0
    ensures ok <==> forall d :: d in order ==> d.class_.Downloaded?
    ensures stats == Stats(|order| - SkippedIn(order), |OfClass(order, Downloaded)|, |OfClass(order, Missing)|,
                           |OfClass(order, FailedToDownload)|, TotalSize(OfClass(order, Downloaded)))
  {
    var downloaded, missing, failed, skipped: nat := 0, 0, 0, 0;
    var size := 0;
    for i := 0 to |order|
      invariant CountAll(ZERO, order) == CountAll(Counters(downloaded, missing, failed, skipped, size), order[i..])
    {
      assert order[i..][0] == order[i] && order[i..][1..] == order[i + 1..];
      if order[i].skipped {
        skipped := skipped + 1;
      }
      match order[i].class_ {
        case Missing => missing := missing + 1;
        case FailedToDownload => failed := failed + 1;
        case Downloaded => downloaded, size := downloaded + 1, size + order[i].size;
      }
    }
    EveryFileCountedOnce(ZERO, order);
    OneClassEach(order);
    SkippedAreDownloaded(order);
    stats := Stats(|order| - skipped, downloaded, missing, failed, size);
    ok := !(failed > 0 || missing > 0);
  }
}
