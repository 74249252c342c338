/** The resuming upload: a retry loop that asks the server how much it has, seeks the source there
    and streams the rest as ByteStream write requests. The server may lose bytes, break a stream
    at any byte, and answer status queries late, wrongly or not at all. */
module KvUpload {
  import opened Bytes

  // ----- the server --------------------------------------------------------------------------

  /** What the server holds under the key. `complete` once it took a finishing chunk. */
  datatype Server = Server(committed: seq<byte>, complete: bool)

  datatype WriteRequest = WriteRequest(offset: int, data: seq<byte>, finish: bool)

  /** One Put stream as the server sees it; `open` until it rejects or cuts something. */
  datatype Stream = Stream(server: Server, open: bool, taken: nat, requests: seq<WriteRequest>)

  /** A Put call: its parameters and everything sent on it. */
  datatype Put = Put(offset: int, deleteOnRewrite: bool, requests: seq<WriteRequest>)

  /** Between two calls the server may drop the tail of what it had. */
  function Lose(s: Server, n: nat): Server {
    if n == 0 then s else Server(s.committed[..if n < |s.committed| then |s.committed| - n else 0], false)
  }

  /** A server takes a chunk only at its committed offset, and may break off inside it. */
  function Deliver(k: Stream, q: WriteRequest, taken: nat): Stream {
    if !k.open || k.server.complete || q.offset != |k.server.committed| then
      k.(open := false, requests := k.requests + [q])
    else
      var n := Min(taken, |q.data|);
      Stream(Server(k.server.committed + q.data[..n], n == |q.data| && q.finish),
             n == |q.data|, k.taken + n, k.requests + [q])
  }

  // ----- what can happen ---------------------------------------------------------------------

  /** An "already exists" answer is truthful if the server gives it only for a complete blob. */
  datatype Refusal = Broken | Unauthenticated | Exists(truthful: bool)

  /** One source read and the send of what it returned: at most `len` bytes are read, the server
      takes up to `taken` of them, and the send reports success or a refusal. */
  datatype Chunk = Chunk(len: nat, taken: nat, refusal: Option<Refusal>)

  datatype StatusAnswer = StatusFails | StatusTrue | StatusStale(complete: bool, committed: int)

  /** A truthful close is OK only if the server took the whole stream; its size is that of the
      stream or that of the whole blob. */
  datatype Closing = CloseFails | CloseTrue(ofStream: bool) | CloseClaims(committed: int)

  /** Everything outside the client's control during one attempt. When `chunks` runs out before the
      source does, the next source read fails. */
  datatype World = World(
    lostBefore: nat, status: StatusAnswer, ctxDone: bool, putFails: bool, lostAfter: nat, chunks: seq<Chunk>,
        closing: Closing)

  predicate TruthfulChunk(c: Chunk) {
    c.refusal.Some? && c.refusal.value.Exists? ==> c.refusal.value.truthful
  }

  predicate Truthful(w: World) {
    !w.status.StatusStale? && !w.closing.CloseClaims? && forall c :: c in w.chunks ==> TruthfulChunk(c)
  }

  // ----- one attempt -------------------------------------------------------------------------

  datatype UploadError = CtxDone | PutFailed | SeekFailed | Unauthorized | CopyFailed | CloseFailed | SizeMismatch

  datatype How = AlreadyComplete | AlreadyWritten | KeptExisting | Closed

  datatype Verdict = Success(how: How) | Failure(err: UploadError, abort: bool)

  datatype Client = Client(lastCommitted: int, hasAlreadyExists: bool)

  datatype CopyEnd = CopyEnd(stream: Stream, offset: int, sent: nat, refusal: Option<Refusal>)

  /** What a send on stream `k` reports. An "already exists" is only believed of a complete blob
      when it is truthful; otherwise the stream just broke. */
  function Reported(k: Stream, c: Chunk): Option<Refusal> {
    if c.refusal == Some(Exists(true)) && !k.server.complete then Some(Broken) else c.refusal
  }

  function ReadLength(source: seq<byte>, pos: nat, c: Chunk): (n: nat)
    requires pos < |source|
    ensures 1 <= n <= |source| - pos
  {
    Min(if c.len == 0 then 1 else c.len, |source| - pos)
  }

  /** `io.Copy` from the source position `pos` into a writer whose own offset is `offset`. */
  function Copy(source: seq<byte>, k: Stream, offset: int, pos: nat, sent: nat, chunks: seq<Chunk>): CopyEnd
    requires pos <= |source|
    decreases |chunks|
  {
    if pos == |source| then CopyEnd(k, offset, sent, None)
    else if chunks == [] then CopyEnd(k, offset, sent, Some(Broken))
    else
      var n := ReadLength(source, pos, chunks[0]);
      var q := WriteRequest(offset, source[pos..pos + n], offset + n >= |source|);
      var k' := Deliver(k, q, chunks[0].taken);
      var refusal := Reported(k, chunks[0]);
      if refusal.Some? then CopyEnd(k', offset, sent, refusal)
      else Copy(source, k', offset + n, pos + n, sent + n, chunks[1..])
  }

  /** The status query of a retry. `None` when the server says the upload is complete. */
  function Resume(client: Client, server: Server, attempt: nat, status: StatusAnswer): Option<int> {
    if attempt == 0 then Some(client.lastCommitted)
    else
      match status
      case StatusFails => Some(client.lastCommitted)
      case StatusTrue => if server.complete then None else Some(|server.committed|)
      case StatusStale(complete, committed) => if complete then None else Some(committed)
  }

  function CloseReply(k: Stream, closing: Closing): Option<int> {
    match closing
    case CloseFails => None
    case CloseTrue(ofStream) => if k.open then Some(if ofStream then k.taken else |k.server.committed|) else None
    case CloseClaims(committed) => Some(committed)
  }

  datatype After = After(client: Client, server: Server, puts: seq<Put>, verdict: Verdict)

  function Attempt(source: seq<byte>, client: Client, before: Server, attempt: nat, w: World): After {
    var server := Lose(before, w.lostBefore);
    var resume := Resume(client, server, attempt, w.status);
    if resume.None? then After(client, server, [], Success(AlreadyComplete))
    else
      var from := resume.value;
      var c := client.(lastCommitted := from);
      if from >= |source| then After(c, server, [], Success(AlreadyWritten))
      else if w.ctxDone then After(c, server, [], Failure(CtxDone, true))
      else if w.putFails then After(c, server, [], Failure(PutFailed, false))
      else Send(source, c, Lose(server, w.lostAfter), w)
  }

  /** The attempt from the opened Put on. */
  function Send(source: seq<byte>, c: Client, server: Server, w: World): After
    requires c.lastCommitted < |source|
  {
    var from := c.lastCommitted;
    var k := Stream(server, true, 0, []);
    if from < 0 then
      After(c, server, [Put(from, c.hasAlreadyExists, [])], Failure(SeekFailed, true))
    else
      var end := Copy(source, k, from, from, 0, w.chunks);
      var puts := [Put(from, c.hasAlreadyExists, end.stream.requests)];
      var server' := end.stream.server;
      match end.refusal
      case Some(Exists(_)) => After(Client(0, true), server', puts, Success(KeptExisting))
      case Some(Unauthenticated) => After(c, server', puts, Failure(Unauthorized, true))
      case Some(Broken) => After(c, server', puts, Failure(CopyFailed, false))
      case None =>
        var reply := CloseReply(end.stream, w.closing);
        if reply.None? then After(c, server', puts, Failure(CloseFailed, false))
        else if reply.value != end.sent then After(c, server', puts, Failure(SizeMismatch, false))
        else After(c, server', puts, Success(Closed))
  }

  // ----- the retry loop ----------------------------------------------------------------------

  datatype Outcome = Outcome(server: Server, puts: seq<Put>, verdict: Verdict)

  function Upload(source: seq<byte>, retries: nat, client: Client, server: Server, attempt: nat,
      world: nat -> World): Outcome
    requires attempt <= retries
    decreases retries - attempt
  {
    var a := Attempt(source, client, server, attempt, world(attempt));
    if a.verdict.Success? || a.verdict.abort || attempt == retries then Outcome(a.server, a.puts, a.verdict)
    else
      var rest := Upload(source, retries, a.client, a.server, attempt + 1, world);
      Outcome(rest.server, a.puts + rest.puts, rest.verdict)
  }

  const FRESH: Client := Client(0, false)

  // ----- safety: what is sent and what the server holds --------------------------------------

  /** The server holds a prefix of the source, all of it if it calls the upload complete. */
  predicate HoldsPrefix(s: Server, source: seq<byte>) {
    s.committed <= source && (s.complete ==> s.committed == source)
  }

  predicate Exact(q: WriteRequest, source: seq<byte>) {
    && 0 <= q.offset && q.data != [] && q.offset + |q.data| <= |source|
    && q.data == source[q.offset..q.offset + |q.data|]
    && (q.finish <==> q.offset + |q.data| == |source|)
  }

  /** Each chunk is the source's own bytes at its write offset, the chunks follow one another from
      the Put's offset without gap or overlap, only the chunk that reaches the end finishes, and
      the Put never asks the server to delete first. */
  predicate Faithful(p: Put, source: seq<byte>) {
    && !p.deleteOnRewrite
    && (forall k :: 0 <= k < |p.requests| ==> Exact(p.requests[k], source))
    && (forall k :: 0 <= k < |p.requests| ==>
          p.requests[k].offset == if k == 0 then p.offset else p.requests[k - 1].offset + |p.requests[k - 1].data|)
  }

  predicate Chained(rs: seq<WriteRequest>, from: int, to: int, source: seq<byte>) {
    && (forall k :: 0 <= k < |rs| ==> Exact(rs[k], source))
    && (forall k :: 0 <= k < |rs| ==> rs[k].offset == if k == 0 then from else rs[k - 1].offset + |rs[k - 1].data|)
    && to == (if rs == [] then from else rs[|rs| - 1].offset + |rs[|rs| - 1].data|)
  }

  lemma DeliverKeepsPrefix(k: Stream, q: WriteRequest, taken: nat, source: seq<byte>)
    requires HoldsPrefix(k.server, source) && Exact(q, source)
    ensures HoldsPrefix(Deliver(k, q, taken).server, source)
  {
    var k' := Deliver(k, q, taken);
    if k'.server != k.server {
      var n := Min(taken, |q.data|);
      assert k'.server.committed == source[..q.offset] + source[q.offset..q.offset + n];
      assert k'.server.committed == source[..q.offset + n];
    }
  }

  lemma ChainedOneMore(rs: seq<WriteRequest>, from: int, to: int, source: seq<byte>, q: WriteRequest)
    requires Chained(rs, from, to, source) && Exact(q, source) && q.offset == to
    ensures Chained(rs + [q], from, to + |q.data|, source)
  {}

  lemma {:induction false} CopySafe(source: seq<byte>, k: Stream, pos: nat, sent: nat, chunks: seq<Chunk>, from: int)
    requires pos <= |source| && HoldsPrefix(k.server, source) && Chained(k.requests, from, pos, source)
    ensures var end := Copy(source, k, pos, pos, sent, chunks);
            && HoldsPrefix(end.stream.server, source)
            && Faithful(Put(from, false, end.stream.requests), source)
    decreases |chunks|
  {
    if pos < |source| && chunks != [] {
      var n := ReadLength(source, pos, chunks[0]);
      var q := WriteRequest(pos, source[pos..pos + n], pos + n >= |source|);
      DeliverKeepsPrefix(k, q, chunks[0].taken, source);
      ChainedOneMore(k.requests, from, pos, source, q);
      assert Deliver(k, q, chunks[0].taken).requests == k.requests + [q];
      if Reported(k, chunks[0]).None? {
        CopySafe(source, Deliver(k, q, chunks[0].taken), pos + n, sent + n, chunks[1..], from);
      }
    }
  }

  lemma AttemptSafe(source: seq<byte>, client: Client, before: Server, attempt: nat, w: World)
    requires HoldsPrefix(before, source) && !client.hasAlreadyExists
    ensures var a := Attempt(source, client, before, attempt, w);
            && HoldsPrefix(a.server, source)
            && (forall p :: p in a.puts ==> Faithful(p, source))
            && (a.client.hasAlreadyExists <==> a.verdict == Success(KeptExisting))
            && (a.client.hasAlreadyExists ==> a.client.lastCommitted == 0)
  {
    var server := Lose(before, w.lostBefore);
    var resume := Resume(client, server, attempt, w.status);
    if resume.Some? && 0 <= resume.value < |source| {
      CopySafe(source, Stream(Lose(server, w.lostAfter), true, 0, []), resume.value, 0, w.chunks, resume.value);
    }
  }

  /** Over every run of attempts, whatever the server and the network do: all chunks are faithful
      and the server never holds anything but a prefix of the source. In particular no Put carries
      the delete-on-rewrite flag: the branch that sets it also ends the loop. */
  lemma {:induction false} UploadSafe(source: seq<byte>, retries: nat, client: Client, server: Server, attempt: nat,
      world: nat -> World)
    requires attempt <= retries && HoldsPrefix(server, source) && !client.hasAlreadyExists
    ensures var o := Upload(source, retries, client, server, attempt, world);
            && HoldsPrefix(o.server, source)
            && (forall p :: p in o.puts ==> Faithful(p, source))
            && |o.puts| <= retries - attempt + 1
    decreases retries - attempt
  {
    AttemptSafe(source, client, server, attempt, world(attempt));
    var a := Attempt(source, client, server, attempt, world(attempt));
    if a.verdict.Failure? && !a.verdict.abort && attempt < retries {
      UploadSafe(source, retries, a.client, a.server, attempt + 1, world);
    }
  }

  // ----- success means stored ----------------------------------------------------------------

  lemma {:induction false} OpenCopyReachesEnd(source: seq<byte>, k: Stream, pos: nat, sent: nat, chunks: seq<Chunk>,
      from: nat)
    requires from <= pos <= |source| && sent == pos - from
    requires k.open ==> k.server.committed == source[..pos] && k.taken == sent
    requires k.open && pos == |source| ==> k.server.complete || from == |source|
    ensures var end := Copy(source, k, pos, pos, sent, chunks);
            end.refusal.None? ==>
              && end.sent == |source| - from
              && (end.stream.open ==> end.stream.server.committed == source && end.stream.taken == end.sent
                                      && (end.stream.server.complete || from == |source|))
    decreases |chunks|
  {
    if pos < |source| && chunks != [] {
      var n := ReadLength(source, pos, chunks[0]);
      var q := WriteRequest(pos, source[pos..pos + n], pos + n >= |source|);
      var k' := Deliver(k, q, chunks[0].taken);
      assert source[..pos] + source[pos..pos + n] == source[..pos + n];
      if Reported(k, chunks[0]).None? {
        OpenCopyReachesEnd(source, k', pos + n, sent + n, chunks[1..], from);
      }
    } else {
      assert source[..|source|] == source;
    }
  }

  lemma {:induction false} TruthfulExists(source: seq<byte>, k: Stream, pos: nat, sent: nat, chunks: seq<Chunk>)
    requires pos <= |source| && HoldsPrefix(k.server, source)
    requires forall c :: c in chunks ==> TruthfulChunk(c)
    ensures var end := Copy(source, k, pos, pos, sent, chunks);
            end.refusal.Some? && end.refusal.value.Exists? ==>
                end.stream.server.complete && end.stream.server.committed == source
    decreases |chunks|
  {
    if pos < |source| && chunks != [] {
      var n := ReadLength(source, pos, chunks[0]);
      var q := WriteRequest(pos, source[pos..pos + n], pos + n >= |source|);
      DeliverKeepsPrefix(k, q, chunks[0].taken, source);
      assert TruthfulChunk(chunks[0]);
      if Reported(k, chunks[0]).None? {
        TruthfulExists(source, Deliver(k, q, chunks[0].taken), pos + n, sent + n, chunks[1..]);
      }
    }
  }

  /** A stream that starts where the server stands, or is rejected from its first chunk. */
  lemma {:induction false} MisplacedCopyCloses(source: seq<byte>, k: Stream, pos: nat, sent: nat, chunks: seq<Chunk>)
    requires pos < |source|
    requires !k.open || k.server.complete || pos != |k.server.committed|
    ensures var end := Copy(source, k, pos, pos, sent, chunks);
            end.refusal.None? ==> !end.stream.open
    decreases |chunks|
  {
    if chunks != [] && Reported(k, chunks[0]).None? {
      var n := ReadLength(source, pos, chunks[0]);
      var q := WriteRequest(pos, source[pos..pos + n], pos + n >= |source|);
      var k' := Deliver(k, q, chunks[0].taken);
      assert !k'.open;
      if pos + n < |source| {
        MisplacedCopyCloses(source, k', pos + n, sent + n, chunks[1..]);
      }
    }
  }

  lemma SendStores(source: seq<byte>, c: Client, server: Server, w: World)
    requires 0 <= c.lastCommitted < |source| && HoldsPrefix(server, source) && Truthful(w)
    ensures var a := Send(source, c, server, w);
            && (a.verdict.Success? ==> a.server == Server(source, true))
            && (a.verdict == Failure(SizeMismatch, false) ==> a.server == Server(source, true))
  {
    var from, k := c.lastCommitted, Stream(server, true, 0, []);
    TruthfulExists(source, k, from, 0, w.chunks);
    CopySafe(source, k, from, 0, w.chunks, from);
    if server.complete || from != |server.committed| {
      MisplacedCopyCloses(source, k, from, 0, w.chunks);
    } else {
      OpenCopyReachesEnd(source, k, from, 0, w.chunks, from);
    }
  }

  lemma AttemptStores(source: seq<byte>, client: Client, before: Server, attempt: nat, w: World)
    requires HoldsPrefix(before, source) && Truthful(w) && 0 <= client.lastCommitted
    requires source != [] ==> client.lastCommitted < |source|
    ensures var a := Attempt(source, client, before, attempt, w);
            && (a.verdict.Success? ==> a.server.committed == source)
            && (a.verdict.Failure? ==> 0 <= a.client.lastCommitted < |source|)
  {
    var server := Lose(before, w.lostBefore);
    var resume := Resume(client, server, attempt, w.status);
    if resume.Some? && resume.value < |source| {
      SendStores(source, client.(lastCommitted := resume.value), Lose(server, w.lostAfter), w);
    }
  }

  /** If the server's own answers are true, a successful upload means the server holds exactly the
      source, however often it broke, forgot or failed in between. */
  lemma {:induction false} SuccessMeansStored(source: seq<byte>, retries: nat, client: Client, server: Server,
      attempt: nat, world: nat -> World)
    requires attempt <= retries && HoldsPrefix(server, source) && !client.hasAlreadyExists
    requires 0 <= client.lastCommitted && (source != [] ==> client.lastCommitted < |source|)
    requires forall i: nat :: Truthful(world(i))
    ensures var o := Upload(source, retries, client, server, attempt, world);
            o.verdict.Success? ==> o.server.committed == source
    decreases retries - attempt
  {
    AttemptSafe(source, client, server, attempt, world(attempt));
    AttemptStores(source, client, server, attempt, world(attempt));
    var a := Attempt(source, client, server, attempt, world(attempt));
    if a.verdict.Failure? && !a.verdict.abort && attempt < retries {
      SuccessMeansStored(source, retries, a.client, a.server, attempt + 1, world);
    }
  }

  // ----- how an upload ends ------------------------------------------------------------------

  /** The first refusal a copy from `pos` on runs into. */
  function FirstRefusal(source: seq<byte>, pos: nat, chunks: seq<Chunk>): Option<Refusal>
    requires pos <= |source|
    decreases |chunks|
  {
    if pos == |source| then None
    else if chunks == [] then Some(Broken)
    else if chunks[0].refusal.Some? then chunks[0].refusal
    else FirstRefusal(source, pos + ReadLength(source, pos, chunks[0]), chunks[1..])
  }

  /** The server would take every chunk whole. */
  predicate TakesAll(source: seq<byte>, pos: nat, chunks: seq<Chunk>)
    requires pos <= |source|
    decreases |chunks|
  {
    pos == |source|
    || (&& chunks != [] && chunks[0].refusal.None? && chunks[0].taken >= ReadLength(source, pos, chunks[0])
        && TakesAll(source, pos + ReadLength(source, pos, chunks[0]), chunks[1..]))
  }

  /** Where an attempt would go on from; `None` when the server says there is nothing left to do. */
  function From(client: Client, before: Server, attempt: nat, w: World): Option<int> {
    Resume(client, Lose(before, w.lostBefore), attempt, w.status)
  }

  /** What the server holds when the Put is opened. */
  function Held(before: Server, w: World): Server {
    Lose(Lose(before, w.lostBefore), w.lostAfter)
  }

  /** What a stream from `from` is refused with; only a complete blob is truthfully there already. */
  function StreamRefusal(source: seq<byte>, from: nat, held: Server, w: World): Option<Refusal>
    requires from <= |source|
  {
    var first := FirstRefusal(source, from, w.chunks);
    if first == Some(Exists(true)) && !held.complete then Some(Broken) else first
  }

  /** The committed size a stream that met no refusal is answered with. The server takes the stream
      only from where it stands. */
  function Reply(source: seq<byte>, from: nat, held: Server, w: World): Option<int>
    requires from <= |source|
  {
    match w.closing
    case CloseFails => None
    case CloseClaims(committed) => Some(committed)
    case CloseTrue(ofStream) =>
      if held.complete || from != |held.committed| || !TakesAll(source, from, w.chunks) then None
      else Some(if ofStream then |source| - from else |source|)
  }

  /** The attempt has something to send and is let. */
  predicate Opens(source: seq<byte>, from: Option<int>, w: World) {
    from.Some? && from.value < |source| && !w.ctxDone && !w.putFails
  }

  predicate Streams(source: seq<byte>, from: Option<int>, w: World) {
    Opens(source, from, w) && from.value >= 0
  }

  /** The attempts that end the upload for good: a cancelled one, one told to start before the
      beginning, and one whose stream is refused as unauthenticated. */
  predicate GivesUp(source: seq<byte>, from: Option<int>, held: Server, w: World) {
    || (from.Some? && from.value < |source| && w.ctxDone)
    || (Opens(source, from, w) && from.value < 0)
    || (Streams(source, from, w) && StreamRefusal(source, from.value, held, w) == Some(Unauthenticated))
  }

  /** Those after which it tries again: the Put is not opened, its stream breaks, the close fails, or
      the size in the answer is not that of the bytes sent. */
  predicate GoesOn(source: seq<byte>, from: Option<int>, held: Server, w: World) {
    || (from.Some? && from.value < |source| && !w.ctxDone && w.putFails)
    || (Streams(source, from, w)
        && (var refusal := StreamRefusal(source, from.value, held, w);
            refusal == Some(Broken)
            || (refusal.None? && Reply(source, from.value, held, w) != Some(|source| - from.value))))
  }

  predicate EndsAs(source: seq<byte>, verdict: Verdict, from: Option<int>, held: Server, w: World) {
    && (verdict.Failure? && verdict.abort <==> GivesUp(source, from, held, w))
    && (verdict.Failure? && !verdict.abort <==> GoesOn(source, from, held, w))
    && (verdict.Failure? ==> FailsWith(source, verdict.err, from, held, w))
    && (verdict.Success? ==>
          && (verdict.how == AlreadyComplete <==> from.None?)
          && (verdict.how == AlreadyWritten <==> from.Some? && from.value >= |source|)
          && (verdict.how == KeptExisting <==>
              Streams(source, from, w)
              && (var refusal := StreamRefusal(source, from.value, held, w);
                  refusal.Some? && refusal.value.Exists?)))
  }

  /** Which error a failed attempt reports. */
  predicate FailsWith(source: seq<byte>, err: UploadError, from: Option<int>, held: Server, w: World) {
    && (err == CtxDone <==> w.ctxDone)
    && (err == PutFailed <==> !w.ctxDone && w.putFails)
    && (err == SeekFailed <==> Opens(source, from, w) && from.value < 0)
    && (Streams(source, from, w) ==>
          var refusal := StreamRefusal(source, from.value, held, w);
          && (err == Unauthorized <==> refusal == Some(Unauthenticated))
          && (err == CopyFailed <==> refusal == Some(Broken))
          && (err == CloseFailed <==> refusal.None? && Reply(source, from.value, held, w).None?)
          && (err == SizeMismatch <==> refusal.None? && Reply(source, from.value, held, w).Some?))
  }

  lemma {:induction false} CopyRefused(source: seq<byte>, k: Stream, pos: nat, sent: nat, chunks: seq<Chunk>)
    requires pos <= |source|
    ensures Copy(source, k, pos, pos, sent, chunks).refusal
            == (var first := FirstRefusal(source, pos, chunks);
                if first == Some(Exists(true)) && !k.server.complete then Some(Broken) else first)
    ensures Copy(source, k, pos, pos, sent, chunks).refusal.None? ==>
              Copy(source, k, pos, pos, sent, chunks).sent == sent + |source| - pos
    decreases |chunks|
  {
    if pos < |source| && chunks != [] && chunks[0].refusal.None? {
      var n := ReadLength(source, pos, chunks[0]);
      var q := WriteRequest(pos, source[pos..pos + n], pos + n >= |source|);
      CopyRefused(source, Deliver(k, q, chunks[0].taken), pos + n, sent + n, chunks[1..]);
    }
  }

  /** A stream without refusals stays open to the end exactly when it starts where the server stands
      and every chunk is taken whole. */
  lemma {:induction false} CopyStaysOpenIff(
    source: seq<byte>, k: Stream, pos: nat, sent: nat, chunks: seq<Chunk>, from: nat)
    requires from <= pos < |source| && sent == pos - from && k.taken == sent
    ensures var end := Copy(source, k, pos, pos, sent, chunks);
            end.refusal.None? ==>
              && (end.stream.open <==>
                  k.open && !k.server.complete && pos == |k.server.committed| && TakesAll(source, pos, chunks))
              && (end.stream.open ==> |end.stream.server.committed| == |source|
                                      && end.stream.taken == |source| - from)
    decreases |chunks|
  {
    if chunks != [] && Reported(k, chunks[0]).None? {
      var n := ReadLength(source, pos, chunks[0]);
      var q := WriteRequest(pos, source[pos..pos + n], pos + n >= |source|);
      var k' := Deliver(k, q, chunks[0].taken);
      if pos + n < |source| {
        if k'.open {
          CopyStaysOpenIff(source, k', pos + n, sent + n, chunks[1..], from);
        } else {
          MisplacedCopyCloses(source, k', pos + n, sent + n, chunks[1..]);
        }
      }
    }
  }

  /** Every attempt of every upload: how it ends is decided by where it goes on from, what the server
      holds then and what happens on the way, and here is how. */
  lemma AttemptEndsAs(source: seq<byte>, client: Client, before: Server, attempt: nat, w: World)
    ensures EndsAs(source, Attempt(source, client, before, attempt, w).verdict,
                   From(client, before, attempt, w), Held(before, w), w)
  {
    hide Copy, FirstRefusal, TakesAll;
    var from, held := From(client, before, attempt, w), Held(before, w);
    if Streams(source, from, w) {
      CopyRefused(source, Stream(held, true, 0, []), from.value, 0, w.chunks);
      CopyStaysOpenIff(source, Stream(held, true, 0, []), from.value, 0, w.chunks, from.value);
    }
  }

  /** Where that is: the server's word counts in every attempt but the first, if there is one; a blob it
      calls complete is not sent again. */
  lemma GoesOnWhereTold(client: Client, before: Server, attempt: nat, w: World)
    ensures var from, server := From(client, before, attempt, w), Lose(before, w.lostBefore);
            && (from.None? <==>
                attempt > 0 && ((w.status.StatusTrue? && server.complete)
                                || (w.status.StatusStale? && w.status.complete)))
            && (attempt == 0 || w.status.StatusFails? ==> from == Some(client.lastCommitted))
            && (attempt > 0 && w.status.StatusTrue? && !server.complete ==> from == Some(|server.committed|))
            && (attempt > 0 && w.status.StatusStale? && !w.status.complete ==> from == Some(w.status.committed))
  {
  }

  /** The last attempt of an upload and the state it found. */
  datatype Try = Try(attempt: nat, client: Client, before: Server)

  function LastTry(source: seq<byte>, retries: nat, client: Client, server: Server, attempt: nat,
      world: nat -> World): (last: Try)
    requires attempt <= retries
    ensures last.attempt <= retries
    decreases retries - attempt
  {
    var w := world(attempt);
    if attempt < retries && GoesOn(source, From(client, server, attempt, w), Held(server, w), w) then
      var a := Attempt(source, client, server, attempt, w);
      LastTry(source, retries, a.client, a.server, attempt + 1, world)
    else Try(attempt, client, server)
  }

  /** The upload ends as its last attempt does: the first after which it does not go on, or the last it
      is allowed. */
  lemma {:induction false} UploadEndsAs(source: seq<byte>, retries: nat, client: Client, server: Server,
      attempt: nat, world: nat -> World)
    requires attempt <= retries
    ensures var last := LastTry(source, retries, client, server, attempt, world);
            var w := world(last.attempt);
            var from, held := From(last.client, last.before, last.attempt, w), Held(last.before, w);
            && EndsAs(source, Upload(source, retries, client, server, attempt, world).verdict, from, held, w)
            && (GoesOn(source, from, held, w) ==> last.attempt == retries)
    decreases retries - attempt
  {
    hide Attempt, GoesOn, GivesUp, FailsWith, From, Held;
    var a := Attempt(source, client, server, attempt, world(attempt));
    AttemptEndsAs(source, client, server, attempt, world(attempt));
    if a.verdict.Failure? && !a.verdict.abort && attempt < retries {
      UploadEndsAs(source, retries, a.client, a.server, attempt + 1, world);
    }
  }

  // ----- when an upload gets through ---------------------------------------------------------

  /** A server that has everything knows it. */
  predicate Marked(s: Server, source: seq<byte>) {
    HoldsPrefix(s, source) && (|s.committed| == |source| ==> s.complete)
  }

  lemma {:induction false} CopyKeepsMarked(source: seq<byte>, k: Stream, pos: nat, sent: nat, chunks: seq<Chunk>)
    requires pos <= |source| && Marked(k.server, source)
    ensures Marked(Copy(source, k, pos, pos, sent, chunks).stream.server, source)
    decreases |chunks|
  {
    if pos < |source| && chunks != [] {
      var n := ReadLength(source, pos, chunks[0]);
      var q := WriteRequest(pos, source[pos..pos + n], pos + n >= |source|);
      DeliverKeepsPrefix(k, q, chunks[0].taken, source);
      if Reported(k, chunks[0]).None? {
        CopyKeepsMarked(source, Deliver(k, q, chunks[0].taken), pos + n, sent + n, chunks[1..]);
      }
    }
  }

  lemma AttemptKeepsMarked(source: seq<byte>, client: Client, before: Server, attempt: nat, w: World)
    requires source != [] && Marked(before, source)
    ensures Marked(Attempt(source, client, before, attempt, w).server, source)
  {
    var from, held := From(client, before, attempt, w), Held(before, w);
    assert Marked(Lose(before, w.lostBefore), source) && Marked(held, source);
    if Streams(source, from, w) {
      CopyKeepsMarked(source, Stream(held, true, 0, []), from.value, 0, w.chunks);
    }
  }

  /** Whatever else goes wrong in the attempt: the server's answers are true, nothing is cancelled,
      and no chunk is refused as there already or as unauthenticated. */
  predicate Passing(w: World) {
    Truthful(w) && !w.ctxDone && forall c :: c in w.chunks ==> c.refusal.None? || c.refusal.value.Broken?
  }

  /** Nothing goes wrong in the attempt. */
  predicate Untroubled(source: seq<byte>, w: World) {
    && Truthful(w) && w.status.StatusTrue? && w.lostBefore == w.lostAfter == 0 && !w.ctxDone && !w.putFails
    && TakesAll(source, 0, w.chunks) && w.closing == CloseTrue(true)
  }

  lemma {:induction false} PassingRefusals(source: seq<byte>, pos: nat, chunks: seq<Chunk>)
    requires pos <= |source| && forall c :: c in chunks ==> c.refusal.None? || c.refusal.value.Broken?
    ensures FirstRefusal(source, pos, chunks).None? || FirstRefusal(source, pos, chunks).value.Broken?
    decreases |chunks|
  {
    if pos < |source| && chunks != [] {
      assert chunks[0] in chunks;
      if chunks[0].refusal.None? {
        PassingRefusals(source, pos + ReadLength(source, pos, chunks[0]), chunks[1..]);
      }
    }
  }

  /** Chunks that carry the source from one point carry it from any later one. */
  lemma {:induction false} TakesLess(source: seq<byte>, pos: nat, later: nat, chunks: seq<Chunk>)
    requires pos <= later <= |source| && TakesAll(source, pos, chunks)
    ensures TakesAll(source, later, chunks) && FirstRefusal(source, later, chunks).None?
    decreases |chunks|
  {
    if later < |source| {
      TakesLess(source, pos + ReadLength(source, pos, chunks[0]), later + ReadLength(source, later, chunks[0]),
                chunks[1..]);
    }
  }

  lemma UntroubledSucceeds(source: seq<byte>, client: Client, before: Server, attempt: nat, w: World)
    requires Marked(before, source) && Untroubled(source, w)
    requires attempt == 0 ==> client.lastCommitted == |before.committed| && !before.complete
    ensures Attempt(source, client, before, attempt, w).verdict.Success?
  {
    AttemptEndsAs(source, client, before, attempt, w);
    var from, held := From(client, before, attempt, w), Held(before, w);
    if Streams(source, from, w) {
      TakesLess(source, 0, from.value, w.chunks);
    }
  }

  lemma PassingGoesOn(source: seq<byte>, client: Client, before: Server, attempt: nat, w: World)
    requires Passing(w) && 0 <= client.lastCommitted
    ensures var a := Attempt(source, client, before, attempt, w); a.verdict.Failure? ==> !a.verdict.abort
  {
    AttemptEndsAs(source, client, before, attempt, w);
    var from := From(client, before, attempt, w);
    if Streams(source, from, w) {
      PassingRefusals(source, from.value, w.chunks);
    }
  }

  /** However many attempts go wrong before, the upload succeeds and the server holds the blob, as soon
      as one within the retries meets no trouble: Puts that are not opened, streams that break,
      bytes lost and closes that fail are all made good. */
  lemma {:induction false} UploadGetsThrough(source: seq<byte>, retries: nat, client: Client, server: Server,
      attempt: nat, k: nat, world: nat -> World)
    requires attempt <= k <= retries && source != [] && Marked(server, source)
    requires !client.hasAlreadyExists && 0 <= client.lastCommitted < |source|
    requires forall i: nat :: attempt <= i < k ==> Passing(world(i))
    requires Untroubled(source, world(k))
    requires k == 0 ==> client.lastCommitted == |server.committed| && !server.complete
    ensures var o := Upload(source, retries, client, server, attempt, world);
            o.verdict.Success? && o.server == Server(source, true)
    decreases retries - attempt
  {
    hide Attempt, Truthful, TakesAll, Lose;
    var w := world(attempt);
    var a := Attempt(source, client, server, attempt, w);
    AttemptKeepsMarked(source, client, server, attempt, w);
    AttemptStores(source, client, server, attempt, w);
    AttemptSafe(source, client, server, attempt, w);
    if attempt == k {
      UntroubledSucceeds(source, client, server, attempt, w);
    } else {
      PassingGoesOn(source, client, server, attempt, w);
      if a.verdict.Failure? {
        UploadGetsThrough(source, retries, a.client, a.server, attempt + 1, k, world);
      }
    }
  }

  // ----- where the code falls short ----------------------------------------------------------

  /** The reply's committed size is compared with the bytes of this attempt. A server that completed
      the blob is therefore believed exactly when the attempt started at 0 or the reply counts the
      bytes of this stream only: a resumed upload answered with the size of the whole blob ends in a
      size mismatch although everything is stored. */
  lemma CompletionAcceptedIff(source: seq<byte>, c: Client, server: Server, w: World)
    requires 0 <= c.lastCommitted < |source| && HoldsPrefix(server, source) && Truthful(w) && w.closing.CloseTrue?
    ensures var a := Send(source, c, server, w);
            var end := Copy(source, Stream(server, true, 0, []), c.lastCommitted, c.lastCommitted, 0, w.chunks);
            end.refusal.None? && end.stream.open ==>
              && a.server == Server(source, true)
              && a.verdict == if c.lastCommitted == 0 || w.closing.ofStream then Success(Closed)
                              else Failure(SizeMismatch, false)
  {
    var k := Stream(server, true, 0, []);
    if server.complete || c.lastCommitted != |server.committed| {
      MisplacedCopyCloses(source, k, c.lastCommitted, 0, w.chunks);
    } else {
      OpenCopyReachesEnd(source, k, c.lastCommitted, 0, w.chunks, c.lastCommitted);
    }
  }

  /** In the last attempt such a mismatch is the result of the whole upload: here the connection breaks
      after one byte, the only retry completes the blob, and the caller is told it failed. */
  lemma CompletedUploadReportedFailed(world: nat -> World)
    requires world(0) == World(0, StatusFails, false, false, 0, [Chunk(1, 1, None), Chunk(1, 0, Some(Broken))],
             CloseTrue(false))
    requires world(1) == World(0, StatusTrue, false, false, 0, [Chunk(1, 1, None)], CloseTrue(false))
    ensures var o := Upload([7, 8], 1, FRESH, Server([], false), 0, world);
            o.server == Server([7, 8], true) && o.verdict == Failure(SizeMismatch, false)
  {
    var source: seq<byte> := [7, 8];
    var w := world(0);
    var k0 := Stream(Server([], false), true, 0, []);
    var q0, q1 := WriteRequest(0, [7], false), WriteRequest(1, [8], true);
    var k1 := Stream(Server([7], false), true, 1, [q0]);
    assert source[0..1] == [7] && source[1..2] == [8];
    assert Deliver(k0, q0, 1) == k1;
    assert w.chunks[1..] == [Chunk(1, 0, Some(Broken))];
    assert Copy(source, k0, 0, 0, 0, w.chunks) == Copy(source, k1, 1, 1, 1, w.chunks[1..]);
    var a := Attempt(source, FRESH, Server([], false), 0, w);
    assert a.server == Server([7], false) && a.verdict == Failure(CopyFailed, false) && a.client == FRESH;
    var m0 := Stream(Server([7], false), true, 0, []);
    assert Deliver(m0, q1, 1) == Stream(Server([7, 8], true), true, 1, [q1]);
    assert Copy(source, m0, 1, 1, 0, world(1).chunks) == Copy(source, Deliver(m0, q1, 1), 2, 2, 1, []);
    var b := Attempt(source, FRESH, Server([7], false), 1, world(1));
    assert b.server == Server([7, 8], true) && b.verdict == Failure(SizeMismatch, false);
  }

  /** An empty source is reported uploaded although nothing is ever sent. */
  lemma EmptyUploadSendsNothing(retries: nat, server: Server, world: nat -> World)
    ensures Upload([], retries, FRESH, server, 0, world)
         == Outcome(Lose(server, world(0).lostBefore), [], Success(AlreadyWritten))
  {}

  /** A key whose content is not determined by its name is not safe on the "already exists" path:
      the upload succeeds and the server keeps what it had. */
  lemma KeptExistingChangesNothing(source: seq<byte>, retries: nat, server: Server, world: nat -> World)
    requires source != [] && server.complete
    requires world(0).lostBefore == world(0).lostAfter == 0 && !world(0).ctxDone && !world(0).putFails
    requires world(0).chunks != [] && world(0).chunks[0].refusal == Some(Exists(true))
    ensures var o := Upload(source, retries, FRESH, server, 0, world);
            o.server == server && o.verdict == Success(KeptExisting)
  {
    var k := Stream(server, true, 0, []);
    assert Reported(k, world(0).chunks[0]) == Some(Exists(true));
  }
}
