/** The download as it runs: the message reader with its residual buffer, the hasher and the
    destination behind one multi-writer, and the retry loop. Tied to the functions of KvDownload. */
module KvDownloader {
  import opened Bytes
  import opened KvDownload

  const COPY_BUFFER: nat := 32768

  class StreamReader {
    var buf: seq<byte>
    var messages: seq<seq<byte>>   // still to be received

    constructor (messages: seq<seq<byte>>)
      ensures Now() == Reader([], messages)
    {
      this.buf := [];
      this.messages := messages;
    }

    function Now(): Reader
      reads this
    {
      Reader(buf, messages)
    }

    method ReadInto(max: nat) returns (p: seq<byte>, ended: bool)
      modifies this
      ensures ReadResult(p, Now(), ended) == Read(old(Now()), max)
      ensures p + Rest(Now()) == Rest(old(Now()))
      ensures ended ==> Rest(old(Now())) == []
    {
      ReadKeepsStream(Now(), max);
      if max == 0 {
        return [], false;
      }
      if |buf| > 0 {
        var n := Min(max, |buf|);
        p, ended := buf[..n], false;
        buf := buf[n..];
        return;
      }
      if messages == [] {
        return [], true;
      }
      var data := messages[0];
      messages := messages[1..];
      var n := Min(max, |data|);
      p, ended := data[..n], false;
      if n == |data| {
        assert data[n..] == [];
        return;
      }
      buf := data[n..];
    }
  }

  /** The hasher's input and the destination's content, with the destination's remaining room. */
  class MultiWriter {
    var hashed: seq<byte>
    var written: seq<byte>
    var room: Option<nat>
    ghost var cuts: nat

    constructor ()
      ensures hashed == [] && written == [] && cuts == 0
    {
      hashed, written, room := [], [], None;
      cuts := 0;
    }

    /** The hasher first, then the destination, which may take only part. */
    method Write(p: seq<byte>) returns (n: nat, ok: bool)
      modifies this
      ensures hashed == old(hashed) + p
      ensures ok == (old(room).None? || |p| <= old(room).value)
      ensures n == (if ok then |p| else old(room).value) && n <= |p| && written == old(written) + p[..n]
      ensures room == if old(room).None? then None else Some(old(room).value - n)
      ensures cuts == old(cuts) + if ok then 0 else 1
    {
      hashed := hashed + p;
      if room.None? {
        assert p[..|p|] == p;
        n, ok := |p|, true;
      } else {
        n := Min(|p|, room.value);
        ok := n == |p|;
        room := Some(room.value - n);
      }
      written := written + p[..n];
      if !ok {
        cuts := cuts + 1;
      }
    }
  }

  class Downloader {
    const downloadRetry: nat

    constructor (downloadRetry: nat)
      ensures this.downloadRetry == (if downloadRetry == 0 then 3 else downloadRetry)
    {
      this.downloadRetry := if downloadRetry == 0 then 3 else downloadRetry;
    }

    /** `io.Copy(multiWriter, kvReader)`. */
    method CopyAll(reader: StreamReader, out: MultiWriter, ghost offset: nat) returns (n: nat, failed: bool)
      modifies reader, out
      ensures CopyOut(old(reader.Now()), COPY_BUFFER,
              Transfer(offset, old(out.written), old(out.hashed), old(out.cuts)), 0, old(out.room))
           == CopyEnd(Transfer(offset, out.written, out.hashed, out.cuts), n, failed)
    {
      n, failed := 0, false;
      while true
        invariant CopyOut(old(reader.Now()), COPY_BUFFER,
                  Transfer(offset, old(out.written), old(out.hashed), old(out.cuts)), 0, old(out.room))
               == CopyOut(reader.Now(), COPY_BUFFER, Transfer(offset, out.written, out.hashed, out.cuts), n, out.room)
        decreases |reader.messages|, |reader.buf|
      {
        ReadKeepsStream(reader.Now(), COPY_BUFFER);
        var p, ended := reader.ReadInto(COPY_BUFFER);
        if ended {
          return;
        }
        var nw, ok := out.Write(p);
        n := n + nw;
        if !ok {
          failed := true;
          return;
        }
        assert p[..|p|] == p;
      }
    }

    method TryOnce(out: MultiWriter, offset: nat, answer: Answer, room: Option<nat>)
        returns (offset': nat, verdict: Verdict)
      modifies out
      ensures Attempt(Transfer(offset, old(out.written), old(out.hashed), old(out.cuts)), answer, room, COPY_BUFFER)
           == After(Transfer(offset', out.written, out.hashed, out.cuts), verdict)
    {
      offset' := offset;
      if answer.refused {
        return offset', Failure(GetRefused, true);
      }
      var reader := new StreamReader(answer.messages);
      out.room := room;
      var n, failed := CopyAll(reader, out, offset);
      if failed || answer.end.Error? {
        if !failed && answer.end.code == NotFound {
          return offset', Failure(CacheNotFound, true);
        }
        if !failed && answer.end.code == Unauthenticated {
          return offset', Failure(CacheUnauthenticated, true);
        }
        offset' := offset + n;
        return offset', Failure(Interrupted, false);
      }
      verdict := Success(TrimBlobPrefix(answer.announced));
    }

    method DownloadStream(out: MultiWriter, w: World, hash: seq<byte> -> string)
        returns (result: Result, ghost end: After)
      requires out.hashed == [] && out.written == [] && out.cuts == 0
      modifies out
      ensures end == Retry(START, downloadRetry, 0, w, COPY_BUFFER) && result == Verify(end, hash)
      ensures out.written == end.transfer.written && out.hashed == end.transfer.hashed
    {
      var offset: nat := 0;
      var attempt: nat := 0;
      var verdict;
      end := Retry(START, downloadRetry, 0, w, COPY_BUFFER);
      while true
        invariant attempt <= downloadRetry
        invariant end == Retry(Transfer(offset, out.written, out.hashed, out.cuts), downloadRetry, attempt, w,
                  COPY_BUFFER)
        decreases downloadRetry - attempt
      {
        offset, verdict := TryOnce(out, offset, w.answers(attempt, offset), w.room(attempt));
        if verdict.Success? || verdict.abort || attempt == downloadRetry {
          break;
        }
        attempt := attempt + 1;
      }
      match verdict {
        case Failure(err, _) => result := Failed(err);
        case Success(expected) =>
          if expected != "" && expected != hash(out.hashed) {
            result := HashMismatch;
          } else {
            result := Done;
          }
      }
    }
  }
}
