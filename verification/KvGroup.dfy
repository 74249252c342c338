/** Whole groups of files: asking which blobs are missing (in chunks that fit a gRPC message),
    uploading each missing blob from one worker, downloading every file, and the statistics. */
module KvGroup {
  import opened Bytes

  // ----- FindMissing -------------------------------------------------------------------------

  datatype Digest = Digest(hash: string, size: int)

  const GRPC_LIMIT: nat := 4 * 1024 * 1024

  /** `int(float64(limit) / (float64(rendered) / float64(n)))`. */
  function MaxDigests(limit: nat, rendered: nat, n: nat): int
    requires rendered > 0 && n > 0
  {
    (limit as real / (rendered as real / n as real)).Floor
  }

  /** The loop over chunks advances if and only if the average rendered digest fits the limit; it
      would otherwise ask for the empty chunk at the same index for ever. */
  lemma ChunkLoopAdvancesIff(limit: nat, rendered: nat, n: nat)
    requires rendered > 0 && n > 0
    ensures MaxDigests(limit, rendered, n) >= 1 <==> rendered <= limit * n
    ensures MaxDigests(limit, rendered, n) >= 0
  {
    var l, t, k := limit as real, rendered as real, n as real;
    var unit := t / k;
    QuotientAtLeast(t, k, 0.0);
    QuotientAtLeast(l, unit, 1.0);
    QuotientAtLeast(l, unit, 0.0);
    assert unit > 0.0 by {
      PositiveQuotient(t, k);
    }
    Scaled(unit, l, k);
    assert unit * k == t;
    assert (limit * n) as real == l * k;
  }

  lemma PositiveQuotient(a: real, b: real)
    requires a > 0.0 && b > 0.0
    ensures a / b > 0.0
  {
    assert (a / b) * b == a;
  }

  lemma QuotientAtLeast(a: real, b: real, c: real)
    requires b > 0.0
    ensures a / b >= c <==> a >= c * b
  {
    var d := a / b - c;
    assert d * b == a - c * b;
  }

  lemma Scaled(a: real, b: real, k: real)
    requires k > 0.0
    ensures a <= b <==> a * k <= b * k
  {
    var d := b - a;
    assert d * k == b * k - a * k;
  }

  function Chunks<T>(s: seq<T>, k: nat): (c: seq<seq<T>>)
    requires k > 0
    ensures forall i :: 0 <= i < |c| ==> 0 < |c[i]| <= k
    decreases |s|
  {
    if s == [] then [] else if |s| <= k then [s] else [s[..k]] + Chunks(s[k..], k)
  }

  /** The chunks partition the list in order. */
  lemma {:induction false} ChunksPartition<T>(s: seq<T>, k: nat)
    requires k > 0
    ensures Concat(Chunks(s, k)) == s
    decreases |s|
  {
    if s == [] {
    } else if |s| <= k {
      ConcatOne(s);
    } else {
      ChunksPartition(s[k..], k);
      assert s == s[..k] + s[k..];
      assert Chunks(s, k)[1..] == Chunks(s[k..], k);
    }
  }

  /** A server's answer to one request; `None` when it still fails after the client's retries. */
  type MissingAnswer = seq<Digest> -> Option<seq<Digest>>

  function AskEach(ask: MissingAnswer, chunks: seq<seq<Digest>>): Option<seq<Digest>> {
    if chunks == [] then Some([])
    else
      match ask(chunks[0])
      case None => None
      case Some(first) =>
        match AskEach(ask, chunks[1..]) case None => None case Some(more) => Some(first + more)
  }

  function Filter(missing: string -> bool, ds: seq<Digest>): seq<Digest> {
    if ds == [] then []
    else if missing(ds[0].hash) then [ds[0]] + Filter(missing, ds[1..])
    else Filter(missing, ds[1..])
  }

  lemma {:induction false} FilterAppend(missing: string -> bool, a: seq<Digest>, b: seq<Digest>)
    ensures Filter(missing, a + b) == Filter(missing, a) + Filter(missing, b)
  {
    if a == [] {
      assert a + b == b;
    } else {
      var first, rest := a[0], a[1..];
      FilterAppend(missing, rest, b);
      assert (a + b)[0] == first && (a + b)[1..] == rest + b;
      if missing(first.hash) {
        Regroup([first], Filter(missing, rest), Filter(missing, b));
      }
    }
  }

  lemma Regroup(a: seq<Digest>, b: seq<Digest>, c: seq<Digest>)
    ensures a + (b + c) == (a + b) + c
  {
  }

  lemma {:induction false} AskEachFilters(ask: MissingAnswer, missing: string -> bool, chunks: seq<seq<Digest>>)
    requires forall ds :: ask(ds) == Some(Filter(missing, ds))
    ensures AskEach(ask, chunks) == Some(Filter(missing, Concat(chunks)))
  {
    if chunks != [] {
      AskEachFilters(ask, missing, chunks[1..]);
      FilterAppend(missing, chunks[0], Concat(chunks[1..]));
    }
  }

  /** With a server that judges each digest by itself, asking in chunks is asking once. */
  lemma ChunkedEqualsSingle(ask: MissingAnswer, missing: string -> bool, ds: seq<Digest>, k: nat)
    requires k > 0 && forall xs :: ask(xs) == Some(Filter(missing, xs))
    ensures AskEach(ask, Chunks(ds, k)) == ask(ds)
  {
    AskEachFilters(ask, missing, Chunks(ds, k));
    ChunksPartition(ds, k);
  }

  function Prefixed(all: seq<Digest>, more: Option<seq<Digest>>): Option<seq<Digest>> {
    if more.None? then None else Some(all + more.value)
  }

  lemma OneMoreChunk(ask: MissingAnswer, ds: seq<Digest>, k: nat, start: nat, all: seq<Digest>)
    requires k > 0 && start < |ds|
    ensures var end := Min(start + k, |ds|);
            var resp := ask(ds[start..end]);
            Prefixed(all, AskEach(ask, Chunks(ds[start..], k)))
            == if resp.None? then None else Prefixed(all + resp.value, AskEach(ask, Chunks(ds[end..], k)))
  {
    var end := Min(start + k, |ds|);
    var chunks := Chunks(ds[start..], k);
    assert chunks[0] == ds[start..end];
    assert chunks[1..] == Chunks(ds[end..], k) by {
      assert ds[start..][end - start..] == ds[end..];
    }
    var resp, more := ask(ds[start..end]), AskEach(ask, Chunks(ds[end..], k));
    if resp.Some? && more.Some? {
      assert all + (resp.value + more.value) == all + resp.value + more.value;
    }
  }

  /** `findMissingChunked`. The caller sees to it that the average digest fits the limit. */
  method FindMissingChunked(ask: MissingAnswer, digests: seq<Digest>, rendered: nat, limit: nat)
      returns (missing: Option<seq<Digest>>)
    requires digests != [] && 0 < rendered <= limit * |digests|
    ensures MaxDigests(limit, rendered, |digests|) >= 1
    ensures missing == AskEach(ask, Chunks(digests, MaxDigests(limit, rendered, |digests|)))
  {
    ChunkLoopAdvancesIff(limit, rendered, |digests|);
    missing := AskInChunks(ask, digests, MaxDigests(limit, rendered, |digests|));
  }

  lemma AllChunks(ask: MissingAnswer, digests: seq<Digest>, k: nat)
    requires k > 0
    ensures Prefixed([], AskEach(ask, Chunks(digests[0..], k))) == AskEach(ask, Chunks(digests, k))
  {
    assert digests[0..] == digests;
    var whole := AskEach(ask, Chunks(digests, k));
    assert whole.Some? ==> [] + whole.value == whole.value;
  }

  lemma NoMoreChunks(ask: MissingAnswer, digests: seq<Digest>, k: nat, all: seq<Digest>)
    requires k > 0
    ensures Prefixed(all, AskEach(ask, Chunks(digests[|digests|..], k))) == Some(all)
  {
    assert digests[|digests|..] == [];
    assert all + [] == all;
  }

  /** The loop of `findMissingChunked`. */
  method AskInChunks(ask: MissingAnswer, digests: seq<Digest>, maxDigests: nat) returns (missing: Option<seq<Digest>>)
    requires maxDigests > 0
    ensures missing == AskEach(ask, Chunks(digests, maxDigests))
  {
    hide AskEach, Chunks, Prefixed;
    ghost var whole := AskEach(ask, Chunks(digests, maxDigests));
    var all: seq<Digest> := [];
    var start := 0;
    AllChunks(ask, digests, maxDigests);
    while start < |digests|
      invariant start >= 0
      invariant whole == Prefixed(all, AskEach(ask, Chunks(digests[Min(start, |digests|)..], maxDigests)))
      decreases |digests| - start
    {
      var end := start + maxDigests;
      if end > |digests| {
        end := |digests|;
      }
      OneMoreChunk(ask, digests, maxDigests, start, all);
      var resp := ask(digests[start..end]);
      if resp.None? {
        return None;
      }
      all := all + resp.value;
      start := start + maxDigests;
    }
    NoMoreChunks(ask, digests, maxDigests, all);
    missing := Some(all);
  }

  /** Whether the request, whose rendering has `rendered` characters, can be asked for at all. */
  predicate Askable(digests: seq<Digest>, rendered: nat) {
    rendered <= GRPC_LIMIT || rendered <= GRPC_LIMIT * |digests|
  }

  function MissingAmong(ask: MissingAnswer, digests: seq<Digest>, rendered: nat): Option<seq<Digest>>
    requires Askable(digests, rendered)
  {
    if rendered <= GRPC_LIMIT then ask(digests)
    else
      ChunkLoopAdvancesIff(GRPC_LIMIT, rendered, |digests|);
      AskEach(ask, Chunks(digests, MaxDigests(GRPC_LIMIT, rendered, |digests|)))
  }

  /** From a server that judges each digest by itself, the answer is the digests it judges missing,
      in order, chunked or not. */
  lemma MissingIsFiltered(ask: MissingAnswer, judge: string -> bool, digests: seq<Digest>, rendered: nat)
    requires Askable(digests, rendered) && forall ds :: ask(ds) == Some(Filter(judge, ds))
    ensures MissingAmong(ask, digests, rendered) == Some(Filter(judge, digests))
  {
    if rendered > GRPC_LIMIT {
      ChunkLoopAdvancesIff(GRPC_LIMIT, rendered, |digests|);
      ChunkedEqualsSingle(ask, judge, digests, MaxDigests(GRPC_LIMIT, rendered, |digests|));
    }
  }

  method FindMissing(ask: MissingAnswer, digests: seq<Digest>, rendered: nat) returns (missing: Option<seq<Digest>>)
    requires Askable(digests, rendered)
    ensures missing == MissingAmong(ask, digests, rendered)
    ensures forall judge :: (forall ds :: ask(ds) == Some(Filter(judge, ds))) ==>
            missing == Some(Filter(judge, digests))
  {
    forall judge | forall ds :: ask(ds) == Some(Filter(judge, ds))
      ensures MissingAmong(ask, digests, rendered) == Some(Filter(judge, digests))
    {
      MissingIsFiltered(ask, judge, digests, rendered);
    }
    if rendered > GRPC_LIMIT {
      missing := FindMissingChunked(ask, digests, rendered, GRPC_LIMIT);
    } else {
      missing := ask(digests);
    }
  }

  // ----- uploading a group -------------------------------------------------------------------

  datatype File = File(path: string, size: int, hash: string)

  function Hashes(files: seq<File>): set<string> {
    set f | f in files :: f.hash
  }

  /** One digest per distinct hash, from the first file that has it. */
  function Distinct(files: seq<File>, seen: set<string>): seq<Digest>
    decreases |files|
  {
    if files == [] then []
    else if files[0].hash in seen then Distinct(files[1..], seen)
    else [Digest(files[0].hash, files[0].size)] + Distinct(files[1..], seen + {files[0].hash})
  }

  lemma {:induction false} DistinctCovers(files: seq<File>, seen: set<string>)
    ensures var ds := Distinct(files, seen);
            && (forall h :: (exists d :: d in ds && d.hash == h) <==> h in Hashes(files) && h !in seen)
            && (forall i, j :: 0 <= i < j < |ds| ==> ds[i].hash != ds[j].hash)
    decreases |files|
  {
    if files != [] {
      var f, rest := files[0], files[1..];
      assert Hashes(files) == {f.hash} + Hashes(rest);
      if f.hash in seen {
        DistinctCovers(rest, seen);
      } else {
        DistinctCovers(rest, seen + {f.hash});
        var ds := Distinct(rest, seen + {f.hash});
        var all := Distinct(files, seen);
        assert all == [Digest(f.hash, f.size)] + ds;
        forall h
          ensures (exists d :: d in all && d.hash == h) <==> h in Hashes(files) && h !in seen
        {
          if h == f.hash {
            assert all[0] in all;
          } else if exists d :: d in ds && d.hash == h {
            var d :| d in ds && d.hash == h;
            assert d in all;
          }
        }
        forall j | 1 <= j < |all|
          ensures all[0].hash != all[j].hash
        {
          assert all[j] == ds[j - 1];
          assert ds[j - 1] in ds;
        }
      }
    }
  }

  /** The files handed to workers: each missing hash is taken by the first file that has it and
      crossed out. */
  function Claims(files: seq<File>, missing: set<string>): seq<File> {
    if files == [] then []
    else if files[0].hash in missing then [files[0]] + Claims(files[1..], missing - {files[0].hash})
    else Claims(files[1..], missing)
  }

  /** Every wanted hash is carried by exactly one of the files. */
  ghost predicate OneEach(c: seq<File>, wanted: set<string>) {
    && Hashes(c) == wanted && |c| == |wanted|
    && forall i, j :: 0 <= i < j < |c| ==> c[i].hash != c[j].hash
  }

  /** Each hash that is missing and belongs to the group goes to exactly one worker. */
  lemma {:induction false} EachMissingHashOnce(files: seq<File>, missing: set<string>)
    ensures OneEach(Claims(files, missing), missing * Hashes(files))
    ensures forall f :: f in Claims(files, missing) ==> f in files
  {
    if files == [] {
      assert missing * Hashes(files) == {};
    } else {
      hide Hashes, OneEach;
      var f, rest := files[0], files[1..];
      HashesFirst(files);
      WantedFirst(f.hash, missing, Hashes(rest));
      if f.hash in missing {
        EachMissingHashOnce(rest, missing - {f.hash});
        ClaimFirst(f, Claims(rest, missing - {f.hash}), (missing - {f.hash}) * Hashes(rest));
      } else {
        EachMissingHashOnce(rest, missing);
      }
    }
  }

  lemma WantedFirst(h: string, missing: set<string>, rest: set<string>)
    ensures missing * ({h} + rest) == if h in missing then {h} + (missing - {h}) * rest else missing * rest
  {
  }

  lemma HashesFirst(files: seq<File>)
    requires files != []
    ensures Hashes(files) == {files[0].hash} + Hashes(files[1..])
  {
    assert forall f :: f in files <==> f == files[0] || f in files[1..];
  }

  lemma ClaimFirst(f: File, c: seq<File>, wanted: set<string>)
    requires f.hash !in wanted && OneEach(c, wanted)
    ensures OneEach([f] + c, {f.hash} + wanted)
  {
    var all := [f] + c;
    HashesFirst(all);
    assert all[1..] == c;
    forall j | 1 <= j < |all|
      ensures all[j].hash != f.hash
    {
      assert all[j] == c[j - 1] && c[j - 1] in c;
    }
  }

  datatype UploadStats = UploadStats(uploaded: nat, failed: nat, size: int, largest: int)

  /** A finished worker. */
  datatype UploadDone = UploadDone(file: File, ok: bool)

  function Max(a: int, b: int): int {
    if a < b then b else a
  }

  /** What a worker does under the mutex. */
  function CountUpload(s: UploadStats, d: UploadDone): UploadStats {
    if !d.ok then s.(failed := s.failed + 1)
    else UploadStats(s.uploaded + 1, s.failed, s.size + d.file.size, Max(s.largest, d.file.size))
  }

  function CountUploads(s: UploadStats, order: seq<UploadDone>): UploadStats
    decreases |order|
  {
    if order == [] then s else CountUploads(CountUpload(s, order[0]), order[1..])
  }

  lemma {:induction false} CountFirst(s: UploadStats, order: seq<UploadDone>, k: nat)
    requires k < |order|
    ensures CountUploads(s, order) == CountUploads(CountUpload(s, order[k]), order[..k] + order[k + 1..])
    decreases |order|
  {
    if k == 0 {
      assert order[..0] + order[1..] == order[1..];
    } else {
      CountFirst(CountUpload(s, order[0]), order[1..], k - 1);
      var moved := order[..k] + order[k + 1..];
      assert moved[0] == order[0];
      assert moved[1..] == order[1..][..k - 1] + order[1..][k..];
      assert CountUpload(CountUpload(s, order[0]), order[k]) == CountUpload(CountUpload(s, order[k]), order[0]);
    }
  }

  /** The statistics do not depend on the order in which the workers finish. */
  lemma {:induction false} AnyCompletionOrder(s: UploadStats, a: seq<UploadDone>, b: seq<UploadDone>)
    requires multiset(a) == multiset(b)
    ensures CountUploads(s, a) == CountUploads(s, b)
    decreases |a|
  {
    if a == [] {
      assert |multiset(a)| == |multiset(b)|;
    } else {
      assert a[0] in multiset(b);
      var k :| 0 <= k < |b| && b[k] == a[0];
      CountFirst(s, b, k);
      assert a == [a[0]] + a[1..];
      assert b == b[..k] + [b[k]] + b[k + 1..];
      assert multiset(a[1..]) == multiset(a) - multiset{a[0]};
      assert multiset(b[..k] + b[k + 1..]) == multiset(b) - multiset{b[k]};
      AnyCompletionOrder(CountUpload(s, a[0]), a[1..], b[..k] + b[k + 1..]);
    }
  }

  /** The workers that succeeded, in the order they finished. */
  function Succeeded(order: seq<UploadDone>): (files: seq<File>)
    ensures |files| <= |order|
    ensures |files| == |order| <==> forall d :: d in order ==> d.ok
  {
    if order == [] then [] else (if order[0].ok then [order[0].file] else []) + Succeeded(order[1..])
  }

  function TotalSize(files: seq<File>): int {
    if files == [] then 0 else files[0].size + TotalSize(files[1..])
  }

  /** Each worker that succeeded counts as uploaded with its size, each other one as failed; the
      largest is the largest of the uploaded. */
  lemma {:induction false} EveryUploadCounted(s: UploadStats, order: seq<UploadDone>)
    ensures var t, files := CountUploads(s, order), Succeeded(order);
            && t.uploaded == s.uploaded + |files|
            && t.failed == s.failed + |order| - |files|
            && t.size == s.size + TotalSize(files)
            && t.largest >= s.largest && (forall f :: f in files ==> f.size <= t.largest)
            && (t.largest == s.largest || exists f :: f in files && f.size == t.largest)
    decreases |order|
  {
    if order != [] {
      EveryUploadCounted(CountUpload(s, order[0]), order[1..]);
      var f, more := order[0].file, Succeeded(order[1..]);
      if order[0].ok {
        assert ([f] + more)[1..] == more;
        assert forall g :: g in Succeeded(order) <==> g == f || g in more;
      } else {
        assert Succeeded(order) == more;
      }
    }
  }

  const NO_UPLOADS: UploadStats := UploadStats(0, 0, 0, 0)

  /** The end of `UploadFileGroupToBuildCache`: the group failed if and only if some worker did. */
  method FinishUpload(order: seq<UploadDone>) returns (stats: UploadStats, ok: bool)
    ensures stats == CountUploads(NO_UPLOADS, order)
    ensures stats.uploaded == |Succeeded(order)| && stats.failed == |order| - |Succeeded(order)|
    ensures stats.size == TotalSize(Succeeded(order))
    ensures ok <==> forall d :: d in order ==> d.ok
  {
    EveryUploadCounted(NO_UPLOADS, order);
    stats := NO_UPLOADS;
    for i := 0 to |order|
      invariant CountUploads(NO_UPLOADS, order) == CountUploads(stats, order[i..])
    {
      assert order[i..][0] == order[i] && order[i..][1..] == order[i + 1..];
      if !order[i].ok {
        stats := stats.(failed := stats.failed + 1);
      } else {
        var size := order[i].file.size;
        stats := stats.(uploaded := stats.uploaded + 1, size := stats.size + size);
        if size > stats.largest {
          stats := stats.(largest := size);
        }
      }
    }
    ok := !(stats.failed > 0);
  }

  /** For every order of completion: uploaded plus failed files are the files to upload if and only
      if the server reported nothing missing that it was not asked about. */
  lemma UploadConservation(files: seq<File>, missing: set<string>, order: seq<UploadDone>)
    requires |order| == |Claims(files, missing)|
    ensures var t := CountUploads(NO_UPLOADS, order);
            t.uploaded + t.failed == |missing| <==> missing <= Hashes(files)
  {
    EachMissingHashOnce(files, missing);
    EveryUploadCounted(NO_UPLOADS, order);
    var asked := missing * Hashes(files);
    if missing <= Hashes(files) {
      assert asked == missing;
    } else {
      var h :| h in missing && h !in Hashes(files);
      assert asked <= missing - {h};
      SubsetSize(asked, missing - {h});
    }
  }

  /** The loops of `findMissingBlobs` and `UploadFileGroupToBuildCache` up to starting workers. */
  method StartWorkers(files: seq<File>, ask: MissingAnswer, rendered: nat)
      returns (toUpload: nat, workers: Option<seq<File>>)
    requires Askable(Distinct(files, {}), rendered)
    ensures workers.None? <==> MissingAmong(ask, Distinct(files, {}), rendered).None?
    ensures workers.Some? ==>
              var missing := set d | d in MissingAmong(ask, Distinct(files, {}), rendered).value :: d.hash;
              workers.value == Claims(files, missing) && toUpload == |missing|
  {
    var blobs: set<string> := {};
    var digests: seq<Digest> := [];
    for i := 0 to |files|
      invariant digests + Distinct(files[i..], blobs) == Distinct(files, {})
    {
      assert files[i..][0] == files[i] && files[i..][1..] == files[i + 1..];
      var file := files[i];
      if file.hash !in blobs {
        digests := digests + [Digest(file.hash, file.size)];
        blobs := blobs + {file.hash};
      }
    }
    assert digests == Distinct(files, {});
    var answer := FindMissing(ask, digests, rendered);
    if answer.None? {
      return 0, None;
    }
    var missing := set d | d in answer.value :: d.hash;
    toUpload := |missing|;
    ghost var all := missing;
    var started: seq<File> := [];
    for i := 0 to |files|
      invariant started + Claims(files[i..], missing) == Claims(files, all)
    {
      assert files[i..][0] == files[i] && files[i..][1..] == files[i + 1..];
      var file := files[i];
      if file.hash in missing {
        started := started + [file];
        missing := missing - {file.hash};
      }
    }
    workers := Some(started);
  }
}
