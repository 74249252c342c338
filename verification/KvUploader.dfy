/** The upload as it runs: a source that is read and sought, a writer that turns writes into
    ByteStream requests, and the retry loop around them. Tied to the functions of KvUpload. */
module KvUploader {
  import opened Bytes
  import opened KvUpload

  /** `io.ReadSeeker`. */
  class Source {
    const data: seq<byte>
    var pos: nat

    constructor (data: seq<byte>)
      ensures this.data == data && pos == 0
    {
      this.data := data;
      pos := 0;
    }

    method Seek(to: int) returns (ok: bool)
      modifies this
      ensures ok == (to >= 0)
      ensures pos == if ok then to else old(pos)
    {
      ok := to >= 0;
      if ok {
        pos := to;
      }
    }

    method Read(c: Chunk) returns (p: seq<byte>)
      requires pos < |data|
      modifies this
      ensures |p| == ReadLength(data, old(pos), c) && pos == old(pos) + |p| && p == data[old(pos)..pos]
    {
      var n := ReadLength(data, pos, c);
      p := data[pos..pos + n];
      pos := pos + n;
    }
  }

  /** The remote end: what it holds, the stream in progress and the finished Put calls. */
  class Remote {
    var held: Server
    var stream: Stream
    var puts: seq<Put>

    constructor (held: Server)
      ensures this.held == held && puts == []
    {
      this.held := held;
      this.stream := Stream(held, true, 0, []);
      this.puts := [];
    }

    method Forget(n: nat)
      modifies this`held
      ensures held == Lose(old(held), n)
    {
      held := Lose(held, n);
    }
  }

  class Writer {
    const remote: Remote
    const fileSize: int
    var offset: int
    var response: Option<int>

    /** `initiatePut`. */
    constructor (remote: Remote, offset: int, fileSize: int)
      ensures this.remote == remote && this.fileSize == fileSize && this.offset == offset
    {
      this.remote := remote;
      this.fileSize := fileSize;
      this.offset := offset;
      this.response := None;
    }

    method Write(p: seq<byte>, c: Chunk) returns (n: nat, refusal: Option<Refusal>)
      modifies this`offset, remote`stream
      ensures remote.stream == Deliver(old(remote.stream), WriteRequest(old(offset), p, old(offset) + |p| >= fileSize),
              c.taken)
      ensures refusal == Reported(old(remote.stream), c)
      ensures n == (if refusal.None? then |p| else 0) && offset == old(offset) + n
    {
      var req := WriteRequest(offset, p, offset + |p| >= fileSize);
      refusal := Reported(remote.stream, c);
      remote.stream := Deliver(remote.stream, req, c.taken);
      if refusal.Some? {
        return 0, refusal;
      }
      offset := offset + |p|;
      n := |p|;
    }

    method Close(closing: Closing) returns (ok: bool)
      modifies this`response
      ensures ok == CloseReply(remote.stream, closing).Some?
      ensures response == CloseReply(remote.stream, closing)
    {
      response := CloseReply(remote.stream, closing);
      ok := response.Some?;
    }

    /** `io.Copy(w, source)`. */
    method CopyFrom(source: Source, chunks: seq<Chunk>) returns (sent: nat, refusal: Option<Refusal>)
      requires source.pos <= |source.data| && fileSize == |source.data|
      modifies this`offset, remote`stream, source
      ensures Copy(source.data, old(remote.stream), old(offset), old(source.pos), 0, chunks)
           == CopyEnd(remote.stream, offset, sent, refusal)
    {
      sent, refusal := 0, None;
      var i := 0;
      while source.pos < |source.data|
        invariant 0 <= i <= |chunks| && source.pos <= |source.data|
        invariant Copy(source.data, old(remote.stream), old(offset), old(source.pos), 0, chunks)
               == Copy(source.data, remote.stream, offset, source.pos, sent, chunks[i..])
        decreases |chunks| - i
      {
        if i == |chunks| {
          return sent, Some(Broken);
        }
        assert chunks[i..][0] == chunks[i] && chunks[i..][1..] == chunks[i + 1..];
        var p := source.Read(chunks[i]);
        var n, r := Write(p, chunks[i]);
        if r.Some? {
          return sent, r;
        }
        sent := sent + n;
        i := i + 1;
      }
    }
  }

  /** The outcome of an upload that already made the calls `done` and goes on from here. */
  function Continued(source: seq<byte>, retries: nat, client: Client, server: Server, attempt: nat,
      world: nat -> World, done: seq<Put>): Outcome
    requires attempt <= retries
  {
    var rest := Upload(source, retries, client, server, attempt, world);
    Outcome(rest.server, done + rest.puts, rest.verdict)
  }

  lemma OneMoreAttempt(source: seq<byte>, retries: nat, client: Client, server: Server, attempt: nat,
      world: nat -> World, done: seq<Put>, a: After)
    requires attempt < retries && a == Attempt(source, client, server, attempt, world(attempt))
    requires a.verdict.Failure? && !a.verdict.abort
    ensures Continued(source, retries, client, server, attempt, world, done)
         == Continued(source, retries, a.client, a.server, attempt + 1, world, done + a.puts)
  {
    var rest := Upload(source, retries, a.client, a.server, attempt + 1, world);
    assert done + (a.puts + rest.puts) == (done + a.puts) + rest.puts;
  }

  lemma LastAttempt(source: seq<byte>, retries: nat, client: Client, server: Server, attempt: nat, world: nat -> World,
      done: seq<Put>, a: After)
    requires attempt <= retries && a == Attempt(source, client, server, attempt, world(attempt))
    requires a.verdict.Success? || a.verdict.abort || attempt == retries
    ensures Continued(source, retries, client, server, attempt, world, done)
            == Outcome(a.server, done + a.puts, a.verdict)
  {}

  class Uploader {
    const uploadRetry: nat

    constructor (uploadRetry: nat)
      ensures this.uploadRetry == (if uploadRetry == 0 then 3 else uploadRetry)
    {
      this.uploadRetry := if uploadRetry == 0 then 3 else uploadRetry;
    }

    /** One run of the retried closure. `last` and `exists` are the variables it shares with the
        other runs. */
    method TryOnce(source: Source, remote: Remote, last: int, exists_: bool, attempt: nat, w: World)
      returns (last': int, exists': bool, verdict: Verdict, ghost made: seq<Put>)
      modifies source, remote
      ensures Attempt(source.data, Client(last, exists_), old(remote.held), attempt, w)
           == After(Client(last', exists'), remote.held, made, verdict)
      ensures remote.puts == old(remote.puts) + made
    {
      made := [];
      last', exists' := last, exists_;
      var size := |source.data|;
      remote.Forget(w.lostBefore);
      if attempt > 0 {
        var answer := Resume(Client(last, exists_), remote.held, attempt, w.status);
        if answer.None? {
          return last', exists', Success(AlreadyComplete), made;
        }
        last' := answer.value;
      }
      if last' >= size {
        return last', exists', Success(AlreadyWritten), made;
      }
      if w.ctxDone {
        return last', exists', Failure(CtxDone, true), made;
      }
      if w.putFails {
        return last', exists', Failure(PutFailed, false), made;
      }
      remote.Forget(w.lostAfter);
      remote.stream := Stream(remote.held, true, 0, []);
      var writer := new Writer(remote, last', size);
      var sought := source.Seek(last');
      if !sought {
        made := [Put(last', exists', [])];
        remote.puts := remote.puts + [Put(last', exists', [])];
        return last', exists', Failure(SeekFailed, true), made;
      }
      var sent, refusal := writer.CopyFrom(source, w.chunks);
      remote.held := remote.stream.server;
      made := [Put(last', exists', remote.stream.requests)];
      remote.puts := remote.puts + [Put(last', exists', remote.stream.requests)];
      match refusal {
        case Some(Exists(_)) =>
          return 0, true, Success(KeptExisting), made;
        case Some(Unauthenticated) =>
          return last', exists', Failure(Unauthorized, true), made;
        case Some(Broken) =>
          return last', exists', Failure(CopyFailed, false), made;
        case None =>
      }
      var closed := writer.Close(w.closing);
      if !closed {
        return last', exists', Failure(CloseFailed, false), made;
      }
      if writer.response.value != sent {
        return last', exists', Failure(SizeMismatch, false), made;
      }
      verdict := Success(Closed);
    }

    method UploadStream(source: Source, remote: Remote, world: nat -> World)
        returns (verdict: Verdict, ghost made: seq<Put>)
      modifies source, remote
      ensures Upload(source.data, uploadRetry, FRESH, old(remote.held), 0, world) == Outcome(remote.held, made, verdict)
      ensures remote.puts == old(remote.puts) + made
    {
      hide Attempt, Upload;
      var last, exists_ := 0, false;
      var attempt: nat := 0;
      made := [];
      while true
        invariant attempt <= uploadRetry
        invariant remote.puts == old(remote.puts) + made
        invariant Upload(source.data, uploadRetry, FRESH, old(remote.held), 0, world)
               == Continued(source.data, uploadRetry, Client(last, exists_), remote.held, attempt, world, made)
        decreases uploadRetry - attempt
      {
        ghost var client, held, before := Client(last, exists_), remote.held, made;
        ghost var sent;
        last, exists_, verdict, sent := TryOnce(source, remote, last, exists_, attempt, world(attempt));
        ghost var a := After(Client(last, exists_), remote.held, sent, verdict);
        made := made + sent;
        if verdict.Success? || verdict.abort || attempt == uploadRetry {
          LastAttempt(source.data, uploadRetry, client, held, attempt, world, before, a);
          return;
        }
        OneMoreAttempt(source.data, uploadRetry, client, held, attempt, world, before, a);
        attempt := attempt + 1;
      }
    }
  }
}
