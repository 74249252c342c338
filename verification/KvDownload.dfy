/** The resuming download: messages turned into a byte stream, the stream copied into a hasher and
    a destination, and a retry loop that asks for the rest from the offset it reached. */
module KvDownload {
  import opened Bytes

  // ----- messages to bytes -------------------------------------------------------------------

  /** A reader holds the unread rest of the last message; then come the messages still to receive. */
  datatype Reader = Reader(buf: seq<byte>, messages: seq<seq<byte>>)

  function Rest(r: Reader): seq<byte> {
    r.buf + Concat(r.messages)
  }

  datatype ReadResult = ReadResult(data: seq<byte>, reader: Reader, ended: bool)

  /** `reader.Read` with a buffer of `max` bytes. */
  function Read(r: Reader, max: nat): ReadResult {
    if max == 0 then ReadResult([], r, false)
    else if r.buf != [] then
      var n := Min(max, |r.buf|);
      ReadResult(r.buf[..n], r.(buf := r.buf[n..]), false)
    else if r.messages == [] then ReadResult([], r, true)
    else
      var n := Min(max, |r.messages[0]|);
      ReadResult(r.messages[0][..n], Reader(r.messages[0][n..], r.messages[1..]), false)
  }

  lemma ReadKeepsStream(r: Reader, max: nat)
    ensures var x := Read(r, max);
            && |x.data| <= max
            && x.data + Rest(x.reader) == Rest(r)
            && (x.ended ==> Rest(r) == [])
            && (!x.ended && max > 0 ==> |x.reader.messages| < |r.messages|
                                        || (x.reader.messages == r.messages && |x.reader.buf| < |r.buf|))
  {
    if max > 0 && r.buf != [] {
      assert r.buf == r.buf[..Min(max, |r.buf|)] + r.buf[Min(max, |r.buf|)..];
    } else if max > 0 && r.messages != [] {
      var m, n := r.messages[0], Min(max, |r.messages[0]|);
      assert m == m[..n] + m[n..];
      assert m[..n] + (m[n..] + Concat(r.messages[1..])) == m + Concat(r.messages[1..]);
    }
  }

  datatype ReadAll = ReadAll(data: seq<byte>, reader: Reader, ended: bool)

  /** A caller reading with buffers of the given sizes, stopping at the end of the stream. */
  function ReadWith(r: Reader, sizes: seq<nat>): ReadAll
    decreases |sizes|
  {
    if sizes == [] then ReadAll([], r, false)
    else
      var x := Read(r, sizes[0]);
      if x.ended then ReadAll(x.data, x.reader, true)
      else
        var y := ReadWith(x.reader, sizes[1..]);
        ReadAll(x.data + y.data, y.reader, y.ended)
  }

  lemma ReadOneMore(r: Reader, x: ReadResult, y: ReadAll)
    requires x.data + Rest(x.reader) == Rest(r) && y.data + Rest(y.reader) == Rest(x.reader)
    ensures x.data + y.data + Rest(y.reader) == Rest(r)
    ensures y.data == Rest(x.reader) ==> x.data + y.data == Rest(r)
  {
    assert x.data + y.data + Rest(y.reader) == x.data + (y.data + Rest(y.reader));
  }

  /** Whatever the buffer sizes, what was read and what is left make up the messages, and the end of
      the stream is only seen once everything was delivered. */
  lemma {:induction false} AnyBuffersDeliverTheMessages(r: Reader, sizes: seq<nat>)
    ensures var x := ReadWith(r, sizes);
            x.data + Rest(x.reader) == Rest(r) && (x.ended ==> x.data == Rest(r))
    decreases |sizes|
  {
    if sizes != [] {
      ReadKeepsStream(r, sizes[0]);
      var x := Read(r, sizes[0]);
      if !x.ended {
        AnyBuffersDeliverTheMessages(x.reader, sizes[1..]);
        ReadOneMore(r, x, ReadWith(x.reader, sizes[1..]));
      }
    }
  }

  // ----- one attempt -------------------------------------------------------------------------

  datatype Code = NotFound | Unauthenticated | Other

  datatype StreamEnd = Eof | Error(code: Code)

  /** The server's answer to a Get from some offset. `announced` is the validation hash among the
      stream's header and trailer values, "" if there is none. */
  datatype Answer = Answer(refused: bool, messages: seq<seq<byte>>, end: StreamEnd, announced: string)

  /** What the retries share: where to resume, what the destination took, what was hashed. `cuts`
      counts the destination writes that failed part-way and steers nothing. */
  datatype Transfer = Transfer(offset: nat, written: seq<byte>, hashed: seq<byte>, cuts: nat)

  datatype CopyEnd = CopyEnd(transfer: Transfer, n: nat, destinationFailed: bool)

  /** `io.Copy` into the hasher and then the destination, with a buffer of `b` bytes. `room` is how
      many more bytes the destination takes during this attempt. */
  function CopyOut(r: Reader, b: nat, t: Transfer, n: nat, room: Option<nat>): CopyEnd
    requires b > 0
    decreases |r.messages|, |r.buf|
  {
    ReadKeepsStream(r, b);
    var x := Read(r, b);
    if x.ended then CopyEnd(t, n, false)
    else
      var t1 := t.(hashed := t.hashed + x.data);
      if room.Some? && |x.data| > room.value then
        CopyEnd(t1.(written := t.written + x.data[..room.value], cuts := t.cuts + 1), n + room.value, true)
      else
        CopyOut(x.reader, b, t1.(written := t.written + x.data), n + |x.data|,
                if room.Some? then Some(room.value - |x.data|) else None)
  }

  datatype DownloadError = GetRefused | CacheNotFound | CacheUnauthenticated | Interrupted

  datatype Verdict = Success(announced: string) | Failure(err: DownloadError, abort: bool)

  datatype After = After(transfer: Transfer, verdict: Verdict)

  function TrimBlobPrefix(s: string): string {
    if "blob/" <= s then s[5..] else s
  }

  function Attempt(t: Transfer, answer: Answer, room: Option<nat>, b: nat): After
    requires b > 0
  {
    if answer.refused then After(t, Failure(GetRefused, true))
    else
      var end := CopyOut(Reader([], answer.messages), b, t, 0, room);
      var t' := end.transfer;
      if !end.destinationFailed && answer.end == Error(NotFound) then After(t', Failure(CacheNotFound, true))
      else if !end.destinationFailed && answer.end == Error(Unauthenticated) then
        After(t', Failure(CacheUnauthenticated, true))
      else if end.destinationFailed || answer.end.Error? then
        After(t'.(offset := t'.offset + end.n), Failure(Interrupted, false))
      else After(t', Success(TrimBlobPrefix(answer.announced)))
  }

  // ----- the retry loop and the final check --------------------------------------------------

  /** The server answers by attempt and requested offset; the destination's room is per attempt. */
  datatype World = World(answers: (nat, nat) -> Answer, room: nat -> Option<nat>)

  function Retry(t: Transfer, retries: nat, attempt: nat, w: World, b: nat): After
    requires attempt <= retries && b > 0
    decreases retries - attempt
  {
    var a := Attempt(t, w.answers(attempt, t.offset), w.room(attempt), b);
    if a.verdict.Success? || a.verdict.abort || attempt == retries then a
    else Retry(a.transfer, retries, attempt + 1, w, b)
  }

  datatype Result = Done | Failed(err: DownloadError) | HashMismatch

  function Verify(a: After, hash: seq<byte> -> string): Result {
    match a.verdict
    case Failure(err, _) => Failed(err)
    case Success(announced) => if announced != "" && announced != hash(a.transfer.hashed) then HashMismatch else Done
  }

  const START: Transfer := Transfer(0, [], [], 0)

  // ----- what the copy does ------------------------------------------------------------------

  /** The copy extends what was written by the first `n` bytes of the stream; the hasher gets at
      least as much, and exactly as much unless the destination failed. */
  ghost predicate Copied(r: Reader, t: Transfer, n: nat, end: CopyEnd) {
    && n <= end.n && end.n - n <= |Rest(r)|
    && end.transfer.offset == t.offset
    && end.transfer.written == t.written + Rest(r)[..end.n - n]
    && (!end.destinationFailed ==>
          end.n - n == |Rest(r)| && end.transfer.hashed == t.hashed + Rest(r) && end.transfer.cuts == t.cuts)
    && (end.destinationFailed ==>
          && end.transfer.cuts == t.cuts + 1
          && |end.transfer.hashed| - |t.hashed| > end.n - n)
  }

  lemma {:induction false} CopyOutCopies(r: Reader, b: nat, t: Transfer, n: nat, room: Option<nat>)
    requires b > 0
    ensures Copied(r, t, n, CopyOut(r, b, t, n, room))
    ensures CopyOut(r, b, t, n, room).destinationFailed <==> room.Some? && room.value < |Rest(r)|
    ensures CopyOut(r, b, t, n, room).n
            == n + if room.Some? && room.value < |Rest(r)| then room.value else |Rest(r)|
    decreases |r.messages|, |r.buf|
  {
    ReadKeepsStream(r, b);
    var x := Read(r, b);
    if x.ended {
      assert t.written + [] == t.written && t.hashed + [] == t.hashed;
    } else if room.Some? && |x.data| > room.value {
      assert x.data[..room.value] == (x.data + Rest(x.reader))[..room.value];
    } else {
      var t1 := t.(hashed := t.hashed + x.data, written := t.written + x.data);
      var room' := if room.Some? then Some(room.value - |x.data|) else None;
      CopyOutCopies(x.reader, b, t1, n + |x.data|, room');
      CopiedOneMore(r, x, t, t1, n, CopyOut(x.reader, b, t1, n + |x.data|, room'));
    }
  }

  lemma CopiedOneMore(r: Reader, x: ReadResult, t: Transfer, t1: Transfer, n: nat, end: CopyEnd)
    requires x.data + Rest(x.reader) == Rest(r)
    requires t1 == t.(hashed := t.hashed + x.data, written := t.written + x.data)
    requires Copied(x.reader, t1, n + |x.data|, end)
    ensures Copied(r, t, n, end)
  {
    var m := end.n - n - |x.data|;
    assert Rest(r)[..m + |x.data|] == x.data + Rest(x.reader)[..m];
    assert t.written + x.data + Rest(x.reader)[..m] == t.written + (x.data + Rest(x.reader)[..m]);
    assert t.hashed + x.data + Rest(x.reader) == t.hashed + (x.data + Rest(x.reader));
  }

  // ----- a fixed blob ------------------------------------------------------------------------

  /** The answer to a Get from `offset` of a blob that does not change: its bytes from there on, all
      of them if the stream ends normally. */
  predicate Honest(blob: seq<byte>, offset: nat, a: Answer) {
    offset <= |blob| && Concat(a.messages) <= blob[offset..] && (a.end.Eof? ==> Concat(a.messages) == blob[offset..])
  }

  ghost predicate HonestWorld(blob: seq<byte>, w: World) {
    forall attempt: nat, offset: nat :: offset <= |blob| ==> Honest(blob, offset, w.answers(attempt, offset))
  }

  /** Before an attempt: the destination holds the blob up to the offset the attempt resumes from. */
  predicate InStep(blob: seq<byte>, t: Transfer) {
    t.offset <= |blob| && t.written == blob[..t.offset]
  }

  lemma PrefixGrows(blob: seq<byte>, offset: nat, sent: seq<byte>, n: nat)
    requires offset <= |blob| && sent <= blob[offset..] && n <= |sent|
    ensures offset + n <= |blob| && blob[..offset] + sent[..n] == blob[..offset + n]
    ensures sent == blob[offset..] && n == |sent| ==> blob[..offset + n] == blob
  {
    assert sent[..n] == blob[offset..][..n] == blob[offset..offset + n];
  }

  lemma AttemptStaysInStep(blob: seq<byte>, t: Transfer, answer: Answer, room: Option<nat>, b: nat)
    requires b > 0 && InStep(blob, t) && Honest(blob, t.offset, answer)
    ensures var a := Attempt(t, answer, room, b);
            && a.transfer.written <= blob
            && (a.verdict.Failure? && !a.verdict.abort ==> InStep(blob, a.transfer))
            && (a.verdict.Success? ==> a.transfer.written == blob)
  {
    if !answer.refused {
      var r := Reader([], answer.messages);
      assert Rest(r) == Concat(answer.messages);
      CopyOutCopies(r, b, t, 0, room);
      PrefixGrows(blob, t.offset, Rest(r), CopyOut(r, b, t, 0, room).n);
    }
  }

  /** Against a fixed blob, however often streams break and even if destination writes fail, the
      destination only ever holds a prefix of the blob, each byte written once and in place; a
      download that ends normally has written all of it. */
  lemma {:induction false} NoGapNoRepeat(blob: seq<byte>, t: Transfer, retries: nat, attempt: nat, w: World, b: nat)
    requires attempt <= retries && b > 0 && InStep(blob, t) && HonestWorld(blob, w)
    ensures var a := Retry(t, retries, attempt, w, b);
            a.transfer.written <= blob && (a.verdict.Success? ==> a.transfer.written == blob)
    decreases retries - attempt
  {
    var answer := w.answers(attempt, t.offset);
    AttemptStaysInStep(blob, t, answer, w.room(attempt), b);
    var a := Attempt(t, answer, w.room(attempt), b);
    if a.verdict.Failure? && !a.verdict.abort && attempt < retries {
      NoGapNoRepeat(blob, a.transfer, retries, attempt + 1, w, b);
    }
  }

  // ----- any server --------------------------------------------------------------------------

  /** The hash input is what was written unless a destination write was cut, and then it is longer:
      the bytes of the cut chunk are hashed again when they are fetched again. */
  predicate Tracks(t: Transfer) {
    && (t.cuts == 0 ==> t.hashed == t.written && t.offset == |t.written|)
    && |t.hashed| >= |t.written| + t.cuts
  }

  /** During one attempt the destination has no room for all that the server sends. */
  predicate CutsShort(answer: Answer, room: Option<nat>) {
    !answer.refused && room.Some? && room.value < |Concat(answer.messages)|
  }

  lemma AttemptTracks(t: Transfer, answer: Answer, room: Option<nat>, b: nat)
    requires b > 0 && Tracks(t)
    ensures var a := Attempt(t, answer, room, b);
            && (a.verdict.Failure? && !a.verdict.abort ==> Tracks(a.transfer))
            && (a.transfer.cuts == 0 ==> a.transfer.hashed == a.transfer.written)
            && |a.transfer.hashed| >= |a.transfer.written| + a.transfer.cuts
            && a.transfer.cuts == t.cuts + if CutsShort(answer, room) then 1 else 0
  {
    if !answer.refused {
      var r := Reader([], answer.messages);
      CopyOutCopies(r, b, t, 0, room);
      assert Rest(r) == Concat(answer.messages);
      assert Rest(r)[..|Rest(r)|] == Rest(r);
    }
  }

  lemma {:induction false} HashInputTracksDestination(t: Transfer, retries: nat, attempt: nat, w: World, b: nat)
    requires attempt <= retries && b > 0 && Tracks(t)
    ensures var a := Retry(t, retries, attempt, w, b);
            && (a.transfer.cuts == 0 <==> a.transfer.hashed == a.transfer.written)
            && |a.transfer.hashed| >= |a.transfer.written| + a.transfer.cuts
            && ((forall i: nat :: w.room(i).None?) ==> a.transfer.cuts == t.cuts)
            && a.transfer.cuts >= t.cuts
    decreases retries - attempt
  {
    var answer := w.answers(attempt, t.offset);
    AttemptTracks(t, answer, w.room(attempt), b);
    var a := Attempt(t, answer, w.room(attempt), b);
    if a.verdict.Failure? && !a.verdict.abort && attempt < retries {
      HashInputTracksDestination(a.transfer, retries, attempt + 1, w, b);
    }
  }

  /** From any server, however it answers: if a hash was announced and the download succeeds into a
      destination that never failed, the bytes written have that hash. */
  lemma AnnouncedHashHolds(retries: nat, w: World, b: nat, hash: seq<byte> -> string)
    requires b > 0 && forall i: nat :: w.room(i).None?
    ensures var a := Retry(START, retries, 0, w, b);
            Verify(a, hash) == Done && a.verdict.announced != "" ==> hash(a.transfer.written) == a.verdict.announced
  {
    HashInputTracksDestination(START, retries, 0, w, b);
  }

  // ----- how a download ends -----------------------------------------------------------------

  /** After this answer the loop asks again: a stream that broke for no stated reason, or a
      destination that took no more. */
  predicate GoesOn(answer: Answer, room: Option<nat>) {
    !answer.refused && (CutsShort(answer, room) || (answer.end.Error? && answer.end.code.Other?))
  }

  /** How many bytes the destination took. */
  function Taken(answer: Answer, room: Option<nat>): nat {
    if CutsShort(answer, room) then room.value else |Concat(answer.messages)|
  }

  datatype Asked = Asked(attempt: nat, offset: nat)

  /** The last request of a download, each made where the one before broke off. */
  function LastAsked(w: World, retries: nat, attempt: nat, offset: nat): (last: Asked)
    requires attempt <= retries
    ensures last.attempt <= retries
    decreases retries - attempt
  {
    var answer := w.answers(attempt, offset);
    if attempt < retries && GoesOn(answer, w.room(attempt)) then
      LastAsked(w, retries, attempt + 1, offset + Taken(answer, w.room(attempt)))
    else Asked(attempt, offset)
  }

  /** The answer reports `end` and reached the destination whole. */
  predicate ReportsWhole(answer: Answer, room: Option<nat>, end: StreamEnd) {
    !answer.refused && !CutsShort(answer, room) && answer.end == end
  }

  /** What the answer to the last request makes of the download. */
  predicate EndsAs(verdict: Verdict, answer: Answer, room: Option<nat>) {
    && (verdict.Success? <==> ReportsWhole(answer, room, Eof))
    && (verdict.Failure? ==>
          && (verdict.abort <==> !GoesOn(answer, room))
          && (verdict.err == GetRefused <==> answer.refused)
          && (verdict.err == CacheNotFound <==> ReportsWhole(answer, room, Error(NotFound)))
          && (verdict.err == CacheUnauthenticated <==> ReportsWhole(answer, room, Error(Unauthenticated)))
          && (verdict.err == Interrupted <==> GoesOn(answer, room)))
  }

  lemma AttemptEndsAs(t: Transfer, answer: Answer, room: Option<nat>, b: nat)
    requires b > 0
    ensures EndsAs(Attempt(t, answer, room, b).verdict, answer, room)
    ensures var a := Attempt(t, answer, room, b);
            && (GoesOn(answer, room) ==> a.transfer.offset == t.offset + Taken(answer, room))
            && (a.verdict.Success? ==> a.verdict.announced == TrimBlobPrefix(answer.announced))
  {
    if !answer.refused {
      var r := Reader([], answer.messages);
      CopyOutCopies(r, b, t, 0, room);
      assert Rest(r) == Concat(answer.messages);
    }
  }

  lemma {:induction false} RetryEndsAs(t: Transfer, retries: nat, attempt: nat, w: World, b: nat)
    requires attempt <= retries && b > 0
    ensures var last := LastAsked(w, retries, attempt, t.offset);
            EndsAs(Retry(t, retries, attempt, w, b).verdict, w.answers(last.attempt, last.offset), w.room(last.attempt))
    ensures var last := LastAsked(w, retries, attempt, t.offset);
            GoesOn(w.answers(last.attempt, last.offset), w.room(last.attempt)) ==> last.attempt == retries
    decreases retries - attempt
  {
    hide Attempt, CutsShort;
    var answer := w.answers(attempt, t.offset);
    AttemptEndsAs(t, answer, w.room(attempt), b);
    if attempt < retries && GoesOn(answer, w.room(attempt)) {
      RetryEndsAs(Attempt(t, answer, w.room(attempt), b).transfer, retries, attempt + 1, w, b);
    }
  }

  /** From any server, whatever it sends and wherever the destination fails: which error a download
      returns is decided by the answer to its last request. It reports the blob missing exactly when
      that answer arrived whole and said so, a client not let in likewise; a refused request is final;
      and an interrupted download was interrupted in every attempt. */
  lemma ResultIsTheLastAnswers(retries: nat, w: World, b: nat, hash: seq<byte> -> string)
    requires b > 0
    ensures var result := Verify(Retry(START, retries, 0, w, b), hash);
            var last := LastAsked(w, retries, 0, 0);
            var answer, room := w.answers(last.attempt, last.offset), w.room(last.attempt);
            && (result == Failed(GetRefused) <==> answer.refused)
            && (result == Failed(CacheNotFound) <==> ReportsWhole(answer, room, Error(NotFound)))
            && (result == Failed(CacheUnauthenticated) <==> ReportsWhole(answer, room, Error(Unauthenticated)))
            && (result == Failed(Interrupted) <==> GoesOn(answer, room))
            && (result == Failed(Interrupted) ==> last.attempt == retries)
            && (result == Done || result == HashMismatch <==> ReportsWhole(answer, room, Eof))
  {
    hide Retry, LastAsked, CutsShort;
    assert START.offset == 0;
    RetryEndsAs(START, retries, 0, w, b);
  }

  // ----- when a download is done --------------------------------------------------------------

  /** Read off the server's answers and the destination's room alone: some attempt within the
      retries, resumed where the one before broke off, gets the rest of the blob, and up to then
      nothing is refused, reported gone or cut short by the destination. */
  predicate GoesThrough(w: World, retries: nat, attempt: nat, offset: nat)
    requires attempt <= retries
    decreases retries - attempt
  {
    var answer := w.answers(attempt, offset);
    && !answer.refused && !CutsShort(answer, w.room(attempt))
    && (answer.end.Eof?
        || (answer.end != Error(NotFound) && answer.end != Error(Unauthenticated) && attempt < retries
            && GoesThrough(w, retries, attempt + 1, offset + |Concat(answer.messages)|)))
  }

  /** Every answer announces the blob's hash. */
  ghost predicate Announces(w: World, announced: string) {
    forall attempt: nat, offset: nat :: TrimBlobPrefix(w.answers(attempt, offset).announced) == announced
  }

  lemma {:induction false} UncutSuccessIff(blob: seq<byte>, t: Transfer, retries: nat, attempt: nat, w: World, b: nat)
    requires attempt <= retries && b > 0 && HonestWorld(blob, w)
    requires InStep(blob, t) && Tracks(t) && t.cuts == 0
    ensures var a := Retry(t, retries, attempt, w, b);
            a.verdict.Success? && a.transfer.cuts == 0 <==> GoesThrough(w, retries, attempt, t.offset)
    decreases retries - attempt
  {
    hide Attempt, CutsShort, Honest, TrimBlobPrefix;
    var answer := w.answers(attempt, t.offset);
    var a := Attempt(t, answer, w.room(attempt), b);
    AttemptStaysInStep(blob, t, answer, w.room(attempt), b);
    AttemptTracks(t, answer, w.room(attempt), b);
    AttemptEndsAs(t, answer, w.room(attempt), b);
    if a.verdict.Failure? && !a.verdict.abort && attempt < retries {
      if a.transfer.cuts > 0 {
        HashInputTracksDestination(a.transfer, retries, attempt + 1, w, b);
      } else {
        UncutSuccessIff(blob, a.transfer, retries, attempt + 1, w, b);
      }
    }
  }

  lemma {:induction false} SuccessAnnounces(t: Transfer, retries: nat, attempt: nat, w: World, b: nat,
      announced: string)
    requires attempt <= retries && b > 0 && Announces(w, announced)
    ensures var a := Retry(t, retries, attempt, w, b);
            a.verdict.Success? ==> a.verdict.announced == announced
    decreases retries - attempt
  {
    hide Attempt, TrimBlobPrefix;
    var answer := w.answers(attempt, t.offset);
    var a := Attempt(t, answer, w.room(attempt), b);
    AttemptEndsAs(t, answer, w.room(attempt), b);
    if a.verdict.Failure? && !a.verdict.abort && attempt < retries {
      SuccessAnnounces(a.transfer, retries, attempt + 1, w, b, announced);
    }
  }

  /** A download that reached the end with the true hash announced is accepted exactly when no
      destination write was cut short on the way. One cut is enough to spoil it, because the chunk is
      hashed again when it is fetched again. */
  lemma DoneIffNoWriteWasCut(blob: seq<byte>, retries: nat, w: World, b: nat, hash: seq<byte> -> string)
    requires b > 0 && HonestWorld(blob, w) && hash(blob) != ""
    requires forall x, y :: hash(x) == hash(y) ==> x == y
    requires Retry(START, retries, 0, w, b).verdict == Success(hash(blob))
    ensures var a := Retry(START, retries, 0, w, b);
            && a.transfer.written == blob
            && (Verify(a, hash) == Done <==> a.transfer.cuts == 0)
            && (a.transfer.cuts == 0 <==> GoesThrough(w, retries, 0, 0))
  {
    UncutSuccessIff(blob, START, retries, 0, w, b);
    NoGapNoRepeat(blob, START, retries, 0, w, b);
    HashInputTracksDestination(START, retries, 0, w, b);
  }

  /** With a fixed blob whose hash every answer announces and a collision-free hash, a download is
      reported done exactly when the answers and the destination's room let it go through; and then
      the destination holds the blob. */
  lemma DoneIffItGoesThrough(blob: seq<byte>, retries: nat, w: World, b: nat, hash: seq<byte> -> string)
    requires b > 0 && HonestWorld(blob, w) && Announces(w, hash(blob)) && hash(blob) != ""
    requires forall x, y :: hash(x) == hash(y) ==> x == y
    ensures var a := Retry(START, retries, 0, w, b);
            && (Verify(a, hash) == Done <==> GoesThrough(w, retries, 0, 0))
            && (Verify(a, hash) == Done ==> a.transfer.written == blob)
  {
    UncutSuccessIff(blob, START, retries, 0, w, b);
    SuccessAnnounces(START, retries, 0, w, b, hash(blob));
    if Retry(START, retries, 0, w, b).verdict.Success? {
      DoneIffNoWriteWasCut(blob, retries, w, b, hash);
    }
  }
}
