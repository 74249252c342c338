# Verification of the Bitrise build cache CLI

Dafny models of the parts of the CLI whose correctness does not show in any single function, and
proofs about them. `dafny verify dfyconfig.toml` checks everything.

**Resumable transfers** (`KvUpload`, `KvUploader`, `KvDownload`, `KvDownloader`). Uploads and downloads
are retry loops that carry an offset from attempt to attempt. The server may break a stream after any
byte, lose what it had not committed, answer a status query with anything, or fail it. The pure
modules say what one attempt and one run do and prove what every run keeps; the imperative modules are
the loops, readers and writers themselves, each proved to compute exactly that. The retry combinator
is assumed to call its function at most n + 1 times, until it succeeds or asks to abort.

**Groups of files** (`KvGroup`, `KvRestore`, `FileGroup`, `FileGroupRace`, `FileGroupOnce`,
`SaveRestore`, `SaveRestoreCommands`). Deduplication by hash, asking for missing blobs in chunks,
workers finishing in any order, the classification of downloads, the symlink-following collection, alone
and by many goroutines, and the save/restore protocol as interleaved steps of any number of savers and
restorers, together with the two commands as runs of it.

**The ccache storage helper** (`Framing`, `IpcConnection`, `IpcServer`, `IpcClient`, `SessionAccounting`).
The wire format, the server loop and the client, proved to refine a plain key/value map on every
connection, and the shared counters and identifiers as atomic steps of many connections.

**Text and logs** (`Text`, `StringMerge`, `CcacheStats`, `SystemdUnit`, `LineWriter`, `Calendar`, `InvocationLog`).
Marked blocks in user files, the indentation parser for ccache statistics, systemd quoting, line
splitting, and the daily invocation log with its sweep.

**Login** (`OAuth`). The refresh state machine over two credential stores and an authorization server.

`Bytes` holds what the others share. Hashes, JSON and the clock are parameters; a hash is assumed
collision-free and a codec invertible only where a lemma says so.

## What the proofs found

Some promises hold only under a condition. The code is modelled as it is; a lemma gives the exact
condition or a concrete run.

- A resumed upload that the server completes and answers with the size of the whole blob is reported as
  a size mismatch, because the reply is compared with the bytes of the last attempt; a server that
  answers with the size of the stream is believed (`KvUpload.CompletionAcceptedIff`).
- The delete-on-rewrite flag is never sent: the branch that sets it also ends the retry loop
  (`KvUpload.UploadSafe`).
- Empty values and empty files are reported stored and never are, so a saved group with an empty file
  cannot be fully restored (`KvUpload.EmptyUploadSendsNothing`, `IpcConnection.PutThenGet`,
  `SaveRestore.RestorableIffNoEmptyFile`).
- A destination write that is cut short puts its chunk into the hash input twice, so the download is
  rejected although the file is right (`KvDownload.DoneIffItGoesThrough`).
- `download_multi.go` passes the force and skip options in the wrong order
  (`KvRestore.OptionsAreSwapped`), so that being counted as downloaded means being restored exactly
  without the force option (`KvRestore.DownloadedIsReliableIffNotForced`).
- The metadata pointer is published before the metadata: a restore in between gives up
  (`SaveRestore.RestoreGivesUpIff`).
- Cache keys do not depend on content, so when the server answers that a pointer already exists, a save
  ends well and its key still leads to older metadata (`SaveRestore.KeptPointerLeadsElsewhere`,
  `SaveRestoreCommands.Cache.SaveFiles`).
- The chunk loop of FindMissing does not end when the average digest exceeds the limit
  (`KvGroup.ChunkLoopAdvancesIff`).
- SetInvocationID is acknowledged before it takes effect, and a new parent for the same child ID never
  does (`SessionAccounting.WhenAnAcknowledgedPairIsActive`).
- A symlink to something already recorded is dropped (`FileGroup.LinkRecordedIffTargetUnseen`). The
  concurrent walk looks a path up and records it in two steps, so it can record a path twice, exactly
  when two of its goroutines are out for the same path: never without links to follow, but as soon as
  a link and its file are both in the tree (`FileGroupOnce.EveryOrderRecordsOnceIff`,
  `FileGroupOnce.LinkFreeTreeRecordedOnce`, `FileGroupOnce.LinkedFileRecordedTwice`).
- A lone start marker makes the next merges destroy user text, and writing a block takes over another
  exactly when its name is a prefix of the other's (`StringMerge.LoneStartSwallowsText`,
  `StringMerge.BlockSurvivesIffNoPrefix`).
- A refresh that rotates the refresh token and then fails loses the login for good, and every saved
  refresh drops the stored user name (`OAuth.LoginUsableIff`, `OAuth.LostForever`,
  `OAuth.UsernameKeptIff`).

## Model

| member | source | states |
|---|---|---|
| `Framing.LittleRoundTrip` | internal/ccache/protocol/ccache_ipc.go:91-103 | The value read back from a number written in little-endian bytes is the number, for every width. |
| `Framing.U64RoundTrip` | internal/ccache/protocol/ccache_ipc.go:91-127 | Every unsigned 64-bit length survives writing and reading in either byte order. |
| `Framing.I64RoundTrip` | internal/ccache/protocol/ccache_ipc.go:176-210 | Every signed 64-bit counter survives being written as two's complement and read back, in either byte order. |
| `Framing.KeyRoundTrip` | internal/ccache/protocol/ccache_ipc.go:77-89 | A key of at most 255 bytes is read back exactly, and exactly its bytes are consumed. |
| `Framing.ValueRoundTrip` | internal/ccache/protocol/ccache_ipc.go:91-127 | A value is read back exactly behind its eight-byte length, whatever follows it. |
| `Framing.PutRoundTrip` | internal/ccache/request_processor.go:174-229 | Key, flag byte and value of a Put are read back in order, with nothing else consumed. |
| `Framing.SetInvocationIDRoundTrip` | internal/ccache/protocol/ccache_ipc.go:165-224 | Parent and child ID are read back in the order written, each cut to 255 bytes. |
| `Framing.RequestRoundTrip` | internal/ccache/protocol/ccache_ipc.go:69-103 | Any request a client can frame is decoded as that request, and the bytes behind it are left unread. |
| `Framing.RequestsRoundTrip` | internal/ccache/protocol/ccache_ipc.go:69-103 | The same for every sequence of requests on one stream. |
| `Framing.StatsRoundTrip` | internal/ccache/protocol/ccache_ipc.go:176-210 | Both counters and both identifiers of a statistics reply are read back in order. |
| `Framing.ReplyRoundTrip` | internal/ccache/protocol/ccache_ipc.go:105-127 | Every reply is understood by the reader of the request it answers, with nothing left over. |
| `Framing.RepliesRoundTrip` | internal/ccache/protocol/ccache_ipc.go:105-127 | A client that sent several requests reads exactly their replies, in order. |
| `Framing.GreetingRoundTrip` | internal/ccache/protocol/ccache_ipc.go:28-67 | The greeting the server writes is accepted by the client and consumed exactly. |
| `Framing.GreetingAcceptedIff` | internal/ccache/protocol/ccache_ipc.go:28-49 | A greeting is accepted if and only if it is the version, a count and that many capability bytes, whatever they are, and exactly those are consumed. |
| `Framing.KeyToPathInjective` | internal/ccache/request_processor.go:103-105 | Hex encoding of keys never merges two keys. |
| `IpcConnection.PushPieces` | internal/ccache/protocol/ccache_ipc.go:105-127 | Writing a frame in several writes is writing it at once, also when the socket breaks in between. |
| `IpcConnection.StoredRepresents` | internal/ccache/request_processor.go:174-229 | Storing under the hex path of a key changes what is stored for that key and no other. |
| `IpcConnection.ServeOneRefines` | internal/ccache/request_processor.go:318-385 | One served request writes exactly the frame the key/value map would answer with, and server and map stay in step. |
| `IpcConnection.ServeRefinesMap` | internal/ccache/ipc_server.go:106-153 | For any sequence of well-formed requests and any backend failures, the bytes written are the map's replies framed in order, and the final store and session are the map's. |
| `IpcConnection.MapReplyAnswers` | internal/ccache/protocol/ccache_ipc.go:105-127 | Each of the map's replies is one the client's reader for that request understands. |
| `IpcConnection.OutputIsFrames` | internal/ccache/ipc_server.go:106-153 | For arbitrary input bytes, backend behaviour and socket breakage, the output is a sequence of whole reply frames, one per request, cut where the socket broke; nothing follows an error frame or the answer to a stop. |
| `IpcConnection.ResultsSayWhatWasReplied` | internal/ccache/request_processor.go:57-101 | A processed request reports the call it was, the ending, the bytes each way and the identifiers of the reply it wrote, and an error if that could not be written. |
| `IpcConnection.NothingServedUnless` | internal/ccache/ipc_server.go:106-153 | Nothing is served without a whole greeting and known capabilities, nor once the helper is shut down. |
| `IpcConnection.GetAfter` | internal/ccache/request_processor.go:120-229 | After any requests the map holds under each key the last value stored there. |
| `IpcConnection.GetReturnsLastStored` | internal/ccache/request_processor.go:120-229 | A Get answers with the last non-empty value a successful Put stored under that key, else with a miss. |
| `IpcConnection.PutThenGet` | internal/ccache/request_processor.go:174-229 | A Put answered OK is what the next Get returns if and only if the value is non-empty and newly stored, or was there already. |
| `IpcConnection.PushDisabledKeepsMap` | internal/ccache/request_processor.go:174-229 | With pushing disabled no sequence of requests changes what is stored. |
| `IpcConnection.DownloadCreditedIffDelivered` | internal/ccache/request_processor.go:57-101 | The bytes of a Get are credited if and only if the whole value frame was written; uploads are untouched. |
| `IpcConnection.UploadCreditedIffAcknowledged` | internal/ccache/request_processor.go:174-229 | The bytes of a Put are credited if and only if the upload succeeded and the whole OK was written. |
| `IpcConnection.SwitchedIffAcknowledged` | internal/ccache/ipc_server.go:123-164 | Identifiers are switched and counters reset if and only if the whole OK was written and the child is new. |
| `IpcConnection.SessionReadsBack` | internal/ccache/ipc_server.go:106-153 | Client encoder, server loop and client decoder together: the client reads the greeting and then the map's replies, one per request, and nothing else. |
| `IpcConnection.ClientExchange` | internal/ccache/ipc_client.go:43-188 | One connection with one request: greeting, the map's reply to that request, nothing left over. |
| `IpcServer.Conn.Read` | internal/ccache/protocol/ccache_ipc.go:134-140 | A read of the socket yields the next bytes of the stream, never more than asked, however the stream is fragmented. |
| `IpcServer.Conn.ReadFull` | internal/ccache/protocol/ccache_ipc.go:77-103 | Exactly the bytes asked for, whatever the fragmentation, or a failure with the stream exhausted. |
| `IpcServer.Conn.ReadByte` | internal/ccache/protocol/ccache_ipc.go:129-140 | The next byte of the stream, as the pure decoder reads it. |
| `IpcServer.Conn.ReadKey` | internal/ccache/protocol/ccache_ipc.go:77-89 | Agrees with the pure key decoder on result and rest of the stream. |
| `IpcServer.Conn.ReadValue` | internal/ccache/protocol/ccache_ipc.go:91-103 | Agrees with the pure value decoder on result and rest of the stream. |
| `IpcServer.Conn.ReadSetInvocationID` | internal/ccache/protocol/ccache_ipc.go:212-224 | Agrees with the pure decoder on both identifiers and the rest of the stream. |
| `IpcServer.Conn.ReadGreeting` | internal/ccache/protocol/ccache_ipc.go:28-49 | The loop over capability bytes accepts exactly what the pure decoder accepts. |
| `IpcServer.Conn.WriteGreeting` | internal/ccache/protocol/ccache_ipc.go:51-67 | The loop writes exactly the greeting, or as much of it as the socket takes. |
| `IpcServer.Conn.WriteMsg` | internal/ccache/protocol/ccache_ipc.go:142-151 | Writes the length-prefixed message cut to 255 bytes, and fails exactly when it does not fit. |
| `IpcServer.Conn.WriteValue` | internal/ccache/protocol/ccache_ipc.go:120-127 | Writes the length-prefixed value, and fails exactly when it does not fit. |
| `IpcServer.Conn.WriteErr` | internal/ccache/protocol/ccache_ipc.go:113-118 | Writes the whole error frame, and fails exactly when it does not fit. |
| `IpcServer.Conn.WriteSessionStats` | internal/ccache/protocol/ccache_ipc.go:176-191 | Writes the whole statistics frame, and fails exactly when it does not fit. |
| `IpcServer.Helper.NotifyClient` | internal/ccache/request_processor.go:57-101 | Writes the frame for the outcome; a write failure turns the result into an error. |
| `IpcServer.Helper.HandleGet` | internal/ccache/request_processor.go:120-172 | Store, socket and result after a Get are those of the specification the refinement is proved about. |
| `IpcServer.Helper.HandlePut` | internal/ccache/request_processor.go:174-229 | The same for a Put, including the push-disabled and failing cases. |
| `IpcServer.Helper.ProcessRequest` | internal/ccache/request_processor.go:318-385 | The request read off the wire is the decoded one; unreadable, unknown or cancelled requests change and answer nothing. |
| `IpcServer.Helper.Settle` | internal/ccache/ipc_server.go:123-185 | Session counters, identifier pair and connection after a result are those of the specification. |
| `IpcServer.Helper.HandleConnection` | internal/ccache/ipc_server.go:106-153 | The whole connection loop computes the specified connection, on every input and failure. |
| `IpcClient.WriteRequest` | internal/ccache/ipc_client.go:43-188 | Writes exactly the frame of the request. |
| `IpcClient.ReadSessionStats` | internal/ccache/protocol/ccache_ipc.go:193-210 | Agrees with the pure statistics decoder. |
| `IpcClient.Send` | internal/ccache/ipc_client.go:43-188 | What the caller is told is what the greeting and the answer bytes mean for that request. |
| `IpcClient.SendReachesServer` | internal/ccache/ipc_client.go:43-188 | Against the modelled server, statistics come back as the server's own counters and identifiers, and the other exchanges succeed. |
| `SessionAccounting.StepKeepsInv` | internal/ccache/ipc_server.go:123-185 | Every atomic step of every connection keeps the accounting and mutex invariant. |
| `SessionAccounting.RunKeepsInv` | internal/ccache/ipc_server.go:123-185 | The invariant holds after every interleaving. |
| `SessionAccounting.Conservation` | internal/ccache/call_stats.go:80-99 | In every interleaving, bytes credited equal the current counter plus the bytes discarded by resets, for each counter. |
| `SessionAccounting.ReportsAreCoherent` | internal/ccache/ipc_server.go:155-185 | Every reported identifier pair is the initial one or came whole from one acknowledged SetInvocationID, and was active when its counters were read. |
| `SessionAccounting.ReportsCountTheirEpoch` | internal/ccache/ipc_server.go:155-185 | The two counters of every report are what was credited to each since the switch to the reported pair reset it, up to the moment it was read: downloads first, then uploads, both under that pair. |
| `SessionAccounting.SixTurnsReport` | internal/ccache/ipc_server.go:173-185 | A connection left alone with the lock reports both counters and both identifiers as they are. |
| `SessionAccounting.EveryQuestionAnsweredOnce` | internal/ccache/ipc_server.go:123-185 | In every interleaving the reports and the questions still being answered are as many as the questions asked: each is answered once. |
| `SessionAccounting.MutualExclusion` | internal/ccache/ipc_server.go:155-185 | No two connections are inside the mutex together. |
| `SessionAccounting.SwitchesChangeTheChild` | internal/ccache/ipc_server.go:155-164 | Consecutive active pairs have different child IDs. |
| `SessionAccounting.RepeatedChildResetsNothing` | internal/ccache/ipc_server.go:155-164 | From any point of any run where only the active child ID is waiting to be set, while no other arrives both counters keep what they held and gain every byte credited. |
| `SessionAccounting.WhenAnAcknowledgedPairIsActive` | internal/ccache/ipc_server.go:123-164 | From any reachable point, for one acknowledged pair and any continuation without another: it is active, and named by reports whose counters are read, exactly from when its connection has come through, and only if its child ID is new; until then and otherwise the old pair is. |
| `SessionAccounting.AckComesFirst` | internal/ccache/request_processor.go:253-284 | A run in which that matters: the client has its OK and another connection still reports the old pair. |
| `KvUpload.CopySafe` | internal/build_cache/kv/client.go:160-177 | While a stream is copied, each chunk is the source at its offset, chunks are contiguous and the server holds a prefix. |
| `KvUpload.AttemptSafe` | internal/build_cache/kv/upload.go:88-191 | One attempt from any offset, with any status answer and any breakage, keeps the server on a prefix of the source. |
| `KvUpload.UploadSafe` | internal/build_cache/kv/upload.go:76-192 | Over every run of attempts: every chunk sent at an offset is exactly the source there, chunks are contiguous, finish is set only on the last one, and the server holds a prefix of the source. |
| `KvUpload.SendStores` | internal/build_cache/kv/upload.go:133-191 | An attempt that succeeds against a truthful server has stored the source. |
| `KvUpload.SuccessMeansStored` | internal/build_cache/kv/upload.go:76-192 | With truthful answers, a successful upload means the server holds exactly the source. |
| `KvUpload.AttemptEndsAs` | internal/build_cache/kv/upload.go:88-191 | How every attempt ends, read off where it goes on from, what the server holds and what happens on the way: exactly which attempts give up for good, after which there is another one, which error each reports and which succeed without a close. |
| `KvUpload.GoesOnWhereTold` | internal/build_cache/kv/upload.go:95-116 | An attempt goes on from what the server last said, except the first; and sends nothing exactly when a retry is told the blob is complete. |
| `KvUpload.UploadEndsAs` | internal/build_cache/kv/upload.go:76-192 | An upload ends as its last attempt does, which is the first after which it does not go on, or the last one allowed. |
| `KvUpload.UploadGetsThrough` | internal/build_cache/kv/upload.go:76-192 | If one attempt within the retries meets no trouble and those before it are neither cancelled nor refused as unauthenticated or there already, then whatever broke, was lost or could not be opened before, the upload succeeds and the server holds the source complete. |
| `KvUpload.CompletionAcceptedIff` | internal/build_cache/kv/upload.go:176-191 | Once the server completed the blob, its reply is accepted if and only if the attempt started at offset 0 or the reply counts the bytes of this stream; a resumed upload answered with the whole size ends in a size mismatch. |
| `KvUpload.CompletedUploadReportedFailed` | internal/build_cache/kv/upload.go:176-191 | A run in which the whole upload is stored and reported failed, the server answering with the whole size. |
| `KvUpload.EmptyUploadSendsNothing` | internal/build_cache/kv/upload.go:118-122 | An empty source is reported uploaded and no Put is made. |
| `KvUpload.KeptExistingChangesNothing` | internal/build_cache/kv/upload.go:159-166 | On the AlreadyExists path the upload succeeds and the server keeps its old value. |
| `KvUploader.Source.Read` | internal/build_cache/kv/upload.go:146-157 | Reads the next bytes of the source and advances. |
| `KvUploader.Writer.Write` | internal/build_cache/kv/client.go:160-177 | Sends one message at the current offset with finish set exactly at the file size, and advances by what was accepted. |
| `KvUploader.Writer.CopyFrom` | internal/build_cache/kv/upload.go:146-157 | The copy loop does what the specified copy does, message by message. |
| `KvUploader.Uploader.TryOnce` | internal/build_cache/kv/upload.go:88-191 | One run of the retried closure computes the specified attempt. |
| `KvUploader.Uploader.UploadStream` | internal/build_cache/kv/upload.go:76-192 | The retry loop computes the specified upload, to which UploadSafe and SuccessMeansStored apply. |
| `KvDownload.ReadKeepsStream` | internal/build_cache/kv/client.go:198-232 | One read neither loses nor reorders bytes between messages, buffer and caller. |
| `KvDownload.AnyBuffersDeliverTheMessages` | internal/build_cache/kv/client.go:198-232 | With any buffer sizes, the bytes read are the concatenated messages, and the end is seen only after all of them. |
| `KvDownload.CopyOutCopies` | internal/build_cache/kv/download.go:89-160 | Copying a stream appends what it delivers to destination and hash input until it ends or a write is cut. |
| `KvDownload.AttemptStaysInStep` | internal/build_cache/kv/download.go:89-160 | Before and after each attempt, destination and retry offset describe the same prefix of the blob. |
| `KvDownload.NoGapNoRepeat` | internal/build_cache/kv/download.go:89-160 | Against a fixed blob, whatever breaks, the destination holds a prefix of it written once, and all of it on success. |
| `KvDownload.HashInputTracksDestination` | internal/build_cache/kv/download.go:89-160 | As long as no destination write is cut, the hash input is what was written. |
| `KvDownload.AnnouncedHashHolds` | internal/build_cache/kv/download.go:89-160 | If a hash was announced and the download succeeds into a destination that never failed, the bytes written have that hash, whatever the server did. |
| `KvDownload.DoneIffNoWriteWasCut` | internal/build_cache/kv/download.go:89-160 | A download that reached the end with the true hash is accepted if and only if no write was cut, which can be read off the answers and the room alone. |
| `KvDownload.DoneIffItGoesThrough` | internal/build_cache/kv/download.go:89-160 | For a fixed blob whose hash is announced: done if and only if, following the answers and resuming where each broke off, one attempt gets to the end before the destination lacks room for what an attempt sends; then the destination holds the blob. |
| `KvDownload.ResultIsTheLastAnswers` | internal/build_cache/kv/download.go:103-160 | From any server: which result a download returns is decided by the answer to its last request, made where the ones before broke off. Missing exactly if that answer arrived whole and said not found, unauthenticated likewise, refused exactly if it was refused, interrupted exactly if it broke, and then in the last attempt allowed. |
| `KvDownloader.StreamReader.ReadInto` | internal/build_cache/kv/client.go:198-232 | The buffered read computes the specified read and loses nothing of the stream. |
| `KvDownloader.MultiWriter.Write` | internal/build_cache/kv/download.go:89-160 | The hash takes the whole chunk, the destination what it has room for. |
| `KvDownloader.Downloader.CopyAll` | internal/build_cache/kv/download.go:89-160 | The copy loop computes the specified copy. |
| `KvDownloader.Downloader.TryOnce` | internal/build_cache/kv/download.go:89-160 | One run of the retried closure computes the specified attempt. |
| `KvDownloader.Downloader.DownloadStream` | internal/build_cache/kv/download.go:89-160 | The retry loop with its final hash check computes the specified download. |
| `KvGroup.ChunkLoopAdvancesIff` | internal/build_cache/kv/methods.go:197-226 | The chunk loop makes progress if and only if the average rendered digest fits the limit. |
| `KvGroup.ChunksPartition` | internal/build_cache/kv/methods.go:197-226 | The chunks are the digest list cut in order, without gap or overlap. |
| `KvGroup.ChunkedEqualsSingle` | internal/build_cache/kv/methods.go:197-240 | For a server that judges each digest by itself, asking in chunks is asking once. |
| `KvGroup.AskInChunks` | internal/build_cache/kv/methods.go:197-226 | The index loop asks for exactly these chunks and joins the answers. |
| `KvGroup.FindMissingChunked` | internal/build_cache/kv/methods.go:197-226 | The chunk size computed is at least one, and the result is the chunked answer. |
| `KvGroup.FindMissing` | internal/build_cache/kv/methods.go:228-240 | From a server that judges each digest by itself, the result is the digests it judges missing, in order, whether or not the request had to be chunked. |
| `KvGroup.DistinctCovers` | internal/build_cache/kv/upload_multi.go:107-138 | One digest per distinct hash, none missing and none twice. |
| `KvGroup.EachMissingHashOnce` | internal/build_cache/kv/upload_multi.go:59-105 | Each missing hash of the group is uploaded by exactly one worker. |
| `KvGroup.AnyCompletionOrder` | internal/build_cache/kv/upload_multi.go:25-57 | The statistics are the same for every order in which workers finish. |
| `KvGroup.EveryUploadCounted` | internal/build_cache/kv/upload_multi.go:25-57 | In every completion order, each worker that succeeded counts as uploaded and each other one as failed; the size is the sum and the largest the maximum over the uploaded files. |
| `KvGroup.FinishUpload` | internal/build_cache/kv/upload_multi.go:42-105 | Counting the finished workers one by one gives those statistics, and the group fails if and only if some worker failed. |
| `KvGroup.UploadConservation` | internal/build_cache/kv/upload_multi.go:59-105 | Uploaded plus failed files equal the files to upload if and only if the server reported nothing missing it was not asked about. |
| `KvGroup.StartWorkers` | internal/build_cache/kv/upload_multi.go:59-138 | The loops hand out exactly the claimed files and count the missing hashes. |
| `KvRestore.DownloadedMeansRestoredIff` | internal/build_cache/kv/download_multi.go:50-117 | A file counted as downloaded holds the blob unless it was skipped, and skipping happens only under the force option. |
| `KvRestore.FileEndsAsItsLastAttempt` | internal/build_cache/kv/download_multi.go:60-116 | Exactly when there is another attempt at a file, and how it is classed by the last one: missing if and only if that one asked the cache and found the blob gone, downloaded if and only if it got the blob or skipped the file. |
| `KvRestore.DownloadedIsReliableIffNotForced` | internal/build_cache/kv/download_multi.go:50-117 | Being counted as downloaded means being restored, for every file and every course of events, if and only if the force option is off. |
| `KvRestore.OptionsAreSwapped` | internal/build_cache/kv/download_multi.go:64 | The two options act for each other: forcing keeps existing files, skipping overwrites them. |
| `KvRestore.ForceKeepsTruncatedFile` | internal/build_cache/kv/download.go:45-87 | Under the force option a file truncated by a broken first attempt is kept and counted as downloaded. |
| `KvRestore.RetryRepairsIffWritable` | internal/build_cache/kv/download.go:45-87 | Without options, the retry repairs such a file if and only if its recorded mode lets the owner write. |
| `KvRestore.CompleteIffItGoesThrough` | internal/build_cache/kv/download.go:86-160 | The stream download of one attempt completes a file if and only if the server's answers and the room on disk let it go through; and then what it wrote is the blob. |
| `KvRestore.FetchIsTheLastAnswer` | internal/build_cache/kv/download.go:115-126 | A file is reported missing, or the client unauthenticated, if and only if the whole answer to the last request of its download said so. |
| `KvRestore.DownloadedIffSomeTransferGoesThrough` | internal/build_cache/kv/download_multi.go:50-117 | On a path that can be written and without the force option, a file is counted as downloaded if and only if the stream download of some attempt goes through, with its own retries, offsets and hash check; and then the file holds the blob. |
| `KvRestore.RestoreFile` | internal/build_cache/kv/download_multi.go:50-117 | The worker's retry loop computes the specified outcome for its file. |
| `KvRestore.EveryFileCountedOnce` | internal/build_cache/kv/download_multi.go:50-126 | In every completion order each counter counts the files of its class, skipped files are counted, and the size is that of the downloaded ones. |
| `KvRestore.Summarize` | internal/build_cache/kv/download_multi.go:119-146 | The statistics are these counts, which add up to all files, and no error is returned exactly when every file was downloaded. |
| `SaveRestore.ToSendCovers` | internal/build_cache/kv/upload_multi.go:59-138 | Every file not handed to a worker has its blob on the server already. |
| `SaveRestore.StepKeepsInv` | cmd/xcode/saveXcodeDerivedDataFiles.go:207-246 | Every step of any saver or restorer keeps: blobs are genuine, pointers name the checksum of metadata whose non-empty files are all stored. |
| `SaveRestore.RunKeepsInv` | cmd/xcode/saveXcodeDerivedDataFiles.go:207-246 | The same over every interleaving, savers stopping anywhere. |
| `SaveRestore.LoadedMetadataIsClosed` | cmd/xcode/restoreXcodeDerivedDataFiles.go:252-283 | Whatever interleaves, a restore that loaded metadata finds exactly the non-empty files it names. |
| `SaveRestore.RestorableIffNoEmptyFile` | cmd/xcode/restoreXcodeDerivedDataFiles.go:147-231 | So it finds every named file if and only if none of them is empty. |
| `SaveRestore.PointedMetadataIsClosed` | cmd/xcode/saveXcodeDerivedDataFiles.go:227-242 | The same for any metadata readable under a checksum some cache key points to. |
| `SaveRestore.RunKeepsAccounted` | cmd/xcode/saveXcodeDerivedDataFiles.go:222-246 | In every run each pointer leads to stored metadata, or to that of a saver between pointer and metadata or stopped; savers past that point have theirs stored. |
| `SaveRestore.RestoreGivesUpIff` | cmd/xcode/restoreXcodeDerivedDataFiles.go:252-283 | A restore that found a pointer gives up if and only if the metadata is not stored; then some saver of it has its pointer up and its metadata not, or has stopped, and none got further. |
| `SaveRestore.KeptPointerLeadsElsewhere` | cmd/xcode/saveXcodeDerivedDataFiles.go:222-230 | When the server keeps an old pointer for the cache key, a save finishes without any failed upload and the key leads where it led before. |
| `SaveRestore.KeyLeadsIff` | cmd/xcode/saveXcodeDerivedDataFiles.go:222-246 | After a pointer upload the key leads to the saver's metadata if and only if the pointer reached the store, whatever the client was told, or the key led there already; no other key changes. |
| `SaveRestore.BlobStoredIff` | internal/build_cache/kv/upload.go:76-192 | After a blob upload the blob is stored if and only if it is not empty and reached the store or was kept, or was there already. |
| `SaveRestore.PointerComesFirst` | cmd/xcode/saveXcodeDerivedDataFiles.go:222-230 | A run in which a restore between the pointer and the metadata gives up although no upload failed. |
| `SaveRestore.UnpointedMetadataIsNotClosed` | cmd/xcode/saveXcodeDerivedDataFiles.go:207-246 | A saved file that happens to read as metadata names a blob that is not stored: closure needs the pointer. |
| `SaveRestoreCommands.ToSendIsClaims` | internal/build_cache/kv/upload_multi.go:59-138 | The contents a saver sends are those of the files the group upload hands to its workers. |
| `SaveRestoreCommands.Cache.UploadGroup` | internal/build_cache/kv/upload_multi.go:59-105 | Sending a group one file after another is a run of the protocol, and it succeeds exactly if no upload failed, after all were tried. |
| `SaveRestoreCommands.Cache.Publish` | cmd/xcode/saveXcodeDerivedDataFiles.go:222-230 | Pointer, then metadata, as a run of the protocol; on success the metadata is stored, and the key leads to it if and only if the pointer was stored or already led there. |
| `SaveRestoreCommands.Cache.PublishFallback` | cmd/xcode/saveXcodeDerivedDataFiles.go:232-246 | The same for the fallback key. |
| `SaveRestoreCommands.Cache.SaveFiles` | cmd/xcode/saveXcodeDerivedDataFiles.go:207-246 | The whole save is a run of the protocol and succeeds exactly if no upload failed; then its metadata is stored, and each of its keys leads to it if and only if that pointer was stored or already led there, otherwise where it led before. No other key changes. |
| `SaveRestoreCommands.FetchesIffLeads` | cmd/xcode/restoreXcodeDerivedDataFiles.go:233-284 | In every reachable state a restore by a key fetches given metadata if and only if the key leads to its checksum and it is stored. |
| `SaveRestoreCommands.FallsBackIffNothingThere` | cmd/xcode/restoreXcodeDerivedDataFiles.go:252-270 | With a fallback key, given metadata is fetched if and only if it is stored and the key leads to it, or the key has no pointer at all and the fallback key leads to it. |
| `SaveRestoreCommands.Cache.DownloadMetadata` | cmd/xcode/restoreXcodeDerivedDataFiles.go:233-284 | Key, fallback key, then content: what is fetched is what the pointers lead to unless a needed request fails, and the calls are a run of the protocol that begins with this restore. |
| `FileGroup.EachPathRecordedOnce` | internal/filegroup/file_group_info.go:88-153 | For any links, cycles and links to links included, a sequential collection ends and records each path at most once across files, directories and symlinks, under the right heading, and only reachable paths. |
| `FileGroup.CollectOnce` | internal/filegroup/file_group_info.go:210-287 | The same for one collected path. |
| `FileGroup.FollowOnce` | internal/filegroup/file_group_info.go:155-208 | The same for one followed link. |
| `FileGroup.CollectCovers` | internal/filegroup/file_group_info.go:210-287 | A path collected without error is recorded or left out for a stated reason, and every link recorded on the way has its target dealt with. |
| `FileGroup.ErrorFreeRunCoversTree` | internal/filegroup/file_group_info.go:88-287 | When nothing failed, no walked path and nothing behind a recorded link is left behind. |
| `FileGroup.FailuresStopNothing` | internal/filegroup/file_group_info.go:107-137 | An entry that fails keeps no other from being collected: what each one leads to is recorded and stays recorded, and only an error of the walk itself ends it. |
| `FileGroup.LinkRecordedIffTargetUnseen` | internal/filegroup/file_group_info.go:155-184 | A link is recorded if and only if links are followed and its target is not recorded yet. |
| `FileGroupRace.AloneIsCollect` | internal/filegroup/file_group_info.go:155-287 | Taken one atomic step at a time and left alone, a goroutine does what the sequential collection does, links and errors included. |
| `FileGroupRace.AtMostTenAtOnce` | internal/filegroup/file_group_info.go:105-113 | At no time of any interleaving have more than ten goroutines begun and not ended. |
| `FileGroupRace.RecordedAtMostReachers` | internal/filegroup/file_group_info.go:107-132 | In every interleaving of any goroutines, at most ten of them at once, a path is recorded at most as often as there are goroutines whose region holds it: the path a goroutine starts at and what the links it follows lead to. A directory it starts at leads nowhere. |
| `FileGroupRace.DisjointReachRecordsOnce` | internal/filegroup/file_group_info.go:107-132 | So each path is recorded at most once when no two regions share a path. |
| `FileGroupOnce.EveryOrderRecordsOnceIff` | internal/filegroup/file_group_info.go:107-287 | Every interleaving of the goroutines a walk starts records each path at most once if and only if no two of them are out to record the same path: for a directory or a readable file the path itself, for a link followed the link and the file, or the entries of the directory, behind it. |
| `FileGroupOnce.SharedIsRecordedTwice` | internal/filegroup/file_group_info.go:107-287 | If two are, there is an interleaving, within the limit of ten goroutines at once, in which some path is recorded twice. |
| `FileGroupOnce.LinkFreeTreeRecordedOnce` | internal/filegroup/file_group_info.go:107-132 | So without links to follow no interleaving records a path twice. |
| `FileGroupOnce.LinkedFileRecordedTwice` | internal/filegroup/file_group_info.go:155-208 | And a link and its file, or two links to one file, anywhere in the walk, have an interleaving that records a path twice. |
| `FileGroup.Collector.CollectFileMetadata` | internal/filegroup/file_group_info.go:210-287 | The method computes the specified collection. |
| `FileGroup.Collector.FollowSymlink` | internal/filegroup/file_group_info.go:155-208 | The method computes the specified following of a link. |
| `FileGroup.Collector.WalkDir` | internal/filegroup/file_group_info.go:190-207 | The walk loop computes the specified walk, stopping at the first error. |
| `FileGroup.Collector.CollectGroup` | internal/filegroup/file_group_info.go:88-153 | The top-level loop computes the specified collection and keeps each path recorded once. |
| `StringMerge.MergeIsAround` | internal/stringmerge/stringmerge.go:9-31 | A merge is the text before the content, the content on its own lines, and the text after it, in all three branches. |
| `StringMerge.OutsideSurvives` | internal/stringmerge/stringmerge.go:17-30 | After a merge the block is present and all text outside its content is unchanged, byte for byte. |
| `StringMerge.WrittenIsRead` | internal/stringmerge/stringmerge.go:17-30 | After a merge, what stands between the markers is the content just written. |
| `StringMerge.AbsorbsIffSettled` | internal/stringmerge/stringmerge.go:9-31 | merge(merge(s, c1), c2) = merge(s, c2) if and only if s is empty, holds neither marker, or has its first start before its first end marker. |
| `StringMerge.LoneStartSwallowsText` | internal/stringmerge/stringmerge.go:17-30 | With only the start marker, the second merge replaces everything behind it. |
| `StringMerge.EndFirstAppendsAgain` | internal/stringmerge/stringmerge.go:17-30 | With the end marker first, every merge appends another block. |
| `StringMerge.OtherBlockUnchanged` | internal/envexport/envexport.go:110-128 | Writing one block, new or replaced, leaves another block that does not overlap it as it was read. |
| `StringMerge.MergesCommute` | internal/envexport/envexport.go:110-128 | Merges of two present, disjoint blocks commute. |
| `StringMerge.CallersMarkersAreProper` | internal/envexport/envexport.go:116-121 | The markers made from any one-line block name meet the hypotheses of these theorems. |
| `StringMerge.MarkersClashIffPrefix` | internal/envexport/envexport.go:116-121 | One block's start marker occurs in another's if and only if its name is a prefix of the other name. |
| `StringMerge.PrefixNameTakesOver` | internal/envexport/envexport.go:110-128 | Then writing the shorter-named block takes over the longer-named one, which can no longer be read. |
| `StringMerge.BlockSurvivesIffNoPrefix` | internal/envexport/envexport.go:110-128 | After one block was written, writing another leaves it readable if and only if the other's name is no prefix of its name; and then its content is unchanged. |
| `Text.SplitAppend` | internal/logio/writer.go:30-46 | Splitting a text put together from two parts joins only the pieces at the seam. |
| `Text.SplitJoin` | internal/ccache/analytics/invocations.go:27 | Splitting joined lines gives the lines back. |
| `LineWriter.WriteTwice` | internal/logio/writer.go:30-46 | Two writes are one write of both chunks. |
| `LineWriter.ChunksDoNotMatter` | internal/logio/writer.go:30-46 | For every way of cutting the stream, the entries logged and the tail kept are those of one write. |
| `LineWriter.FlushedLinesAreTheSplit` | internal/logio/writer.go:30-56 | Writes in any chunks and a flush log exactly the newline split of the stream, an empty last line excepted. |
| `LineWriter.ReadString` | internal/logio/writer.go:34 | The first line with its break, and the rest, or everything when there is no break. |
| `LineWriter.Writer.WriteChunk` | internal/logio/writer.go:30-46 | The drain-and-refill loop computes the specified write and leaves no line break in the buffer. |
| `LineWriter.Writer.FlushTail` | internal/logio/writer.go:50-56 | After writes of any chunks a flush leaves every line of the whole stream logged once and nothing waiting. |
| `CcacheStats.MatchesPrinted` | internal/ccache/analytics/invocations.go:155 | A printed line is matched with its indentation, its key up to the first colon and its rest without leading spaces. |
| `CcacheStats.ForestParses` | internal/ccache/analytics/invocations.go:27-49 | The stack of keys follows any forest, whatever was open before it. |
| `CcacheStats.ParsingInvertsPrinting` | internal/ccache/analytics/invocations.go:27-49 | For any forest printed with two spaces per level, the entries are its preorder of root-to-node paths and no line is skipped. |
| `CcacheStats.ReportRoundTrip` | internal/ccache/analytics/invocations.go:23-58 | The same from the text of the whole report. |
| `CcacheStats.NumbersRoundTrip` | internal/ccache/analytics/invocations.go:159-170 | The numbers extracted are the numbers printed, in order, whatever digit-free text stands between them. |
| `CcacheStats.WholePart` | internal/ccache/analytics/invocations.go:159-170 | Cutting an extracted number to an integer gives its digits before the point. |
| `CcacheStats.DecimalReadsBack` | internal/ccache/analytics/invocations.go:159-170 | A printed number is read for its whole part and its decimals. |
| `CcacheStats.PowerOfTen` | internal/ccache/analytics/invocations.go:159-170 | The scale of those decimals is a one followed by as many zeros as there are decimals. |
| `CcacheStats.FieldsComeFromTheirLines` | internal/ccache/analytics/invocations.go:174-281 | Each of the 46 counters is the whole part of the first number of the last line under its own full key, and no other line touches it; the two sizes are both numbers of their line. |
| `CcacheStats.RatesAreShares` | internal/ccache/analytics/invocations.go:60-76 | Rates are non-negative; the hit rate is at most 1, hit and miss rate together at most 1, and so the remote ones, exactly as far as the report adds up; direct and preprocessed shares sum to 1. |
| `CcacheStats.RatesTimesTheirBases` | internal/ccache/analytics/invocations.go:60-76 | Each rate times its base is the counter it is about, for all eight rates, and is 0 without a base; the total is the cacheable and the uncacheable calls. |
| `CcacheStats.ParseCcacheStats` | internal/ccache/analytics/invocations.go:23-79 | The parser loop yields the counters and rates the specification gives for the text. |
| `Calendar.DatesFollowDays` | internal/invocations/invocations.go:173-196 | Counting days agrees with comparing dates. |
| `Calendar.NamesFollowDates` | internal/invocations/invocations.go:198-226 | File names sort as the days they are for, up to the year 9999. |
| `Calendar.NamesSortUpToIff` | internal/invocations/invocations.go:198-226 | The names of all days up to a given one sort as the days do if and only if that day is no later than the year 9999. |
| `Calendar.NameReadsBack` | internal/invocations/invocations.go:178-185 | The date in a file name is read back. |
| `Calendar.OnlyNamesRead` | internal/invocations/invocations.go:178-185 | A file name reads as a date if and only if it is the name of that date. |
| `InvocationLog.ReadTextOf` | internal/invocations/invocations.go:228-251 | Reading a file decodes exactly the lines that are records, in order; empty and malformed lines cost nothing else. |
| `InvocationLog.PutIsPutGroup` | internal/invocations/invocations.go:64-94 | An append goes to the end of the current day's file, which is the last one listed. |
| `InvocationLog.PutTouchesOneFile` | internal/invocations/invocations.go:64-94 | In any directory, files of other days and other programs included and whatever the clock says, an append adds its line to the end of the one file it names, or starts it, and leaves every other file alone. |
| `InvocationLog.SweepIsRemoved` | internal/invocations/invocations.go:169-196 | A sweep removes the oldest days first and only days before the cutoff; it fails exactly when it could not remove them all. |
| `InvocationLog.SweepLeavesNoOldFile` | internal/invocations/invocations.go:169-196 | After a sweep that did not fail no stale file is left. |
| `InvocationLog.RunKeepsRecent` | internal/invocations/invocations.go:64-116 | After any run of appends and sweeps, failed sweeps included, the files hold a suffix of the appended records in order, and all before it are older than thirty days. |
| `InvocationLog.FailedAppendsDoNothing` | internal/invocations/invocations.go:64-94 | Appends that cannot open their file leave the log as if they had not been made. |
| `InvocationLog.LatestAreThere` | internal/invocations/invocations.go:143-196 | After any run the last n records in the files are the latest appended, in order, and a record of the last thirty days is only missing if n newer ones are there. |
| `InvocationLog.Store.AppendRecord` | internal/invocations/invocations.go:64-94 | The method computes the specified append with its sweep, and changes nothing when the file cannot be opened. |
| `InvocationLog.OldFilesGoWithinADay` | internal/invocations/invocations.go:64-116 | With sweeps at most once a day and no removal failing, after any run no file is left that is more than a day past the thirty days. |
| `InvocationLog.Store.SweepOld` | internal/invocations/invocations.go:169-196 | The removal loop computes the specified sweep. |
| `InvocationLog.Store.Recent` | internal/invocations/invocations.go:143-167 | The backward scan with its early exit returns the last n records, after any run the latest appended, and fails if and only if the directory or a file needed for them cannot be read. |
| `OAuth.FreshIsStored` | internal/oauth/flow.go:114-174 | Success returns a token that outlives the next minute or was minted in this call, and a later load finds all seven fields of it; failure leaves both stores unchanged. |
| `OAuth.FreshTokensBelongTogether` | internal/oauth/flow.go:127-173 | A live token is returned unchanged; a live JWT buys a new PAT and nothing else changes; otherwise the new JWT buys the PAT and the refresh token returned is the one the server accepts. |
| `OAuth.ExpiriesAreAnnounced` | internal/oauth/flow.go:114-174 | Every expiry returned is the stored one or the announced lifetime from the moment the token came, else the JWT's own claim, else the default. |
| `OAuth.HowACallEnds` | internal/oauth/flow.go:114-174 | All endings of a call, read off stores, clock and answers: the user must log in again if and only if the refresh token is needed and not accepted, and any other failure has its exact cause. |
| `OAuth.SavedWhereItCameFrom` | internal/auth/store/store.go:67-79 | What a call mints goes back to the store the login came from, a login in the keychain clearing the file if that works; a call that mints nothing writes nothing. |
| `OAuth.IdentityKept` | internal/oauth/store.go:24-63 | No call changes the workspace or turns a login into a manual credential. |
| `OAuth.UsernameKeptIff` | internal/oauth/store.go:31-53 | The stored user name survives a successful call if and only if nothing was saved or it was empty. |
| `OAuth.NotLoggedInIff` | internal/oauth/store.go:69-84 | The user is told there is no login if and only if the first store that shows anything shows a credential set by hand, or neither shows any; so a manual keychain credential hides a login in the file. |
| `OAuth.RunKeepsIdentity` | internal/oauth/flow.go:114-174 | The workspace never changes over any sequence of calls. |
| `OAuth.LoginUsableIff` | internal/oauth/flow.go:114-174 | A call leaves the stored refresh token usable if and only if it does not need a refresh, the server does not replace the token, or both the exchange after it and the save succeed: a condition on stores, clock and answers alone. |
| `OAuth.LostForever` | internal/oauth/flow.go:149-173 | Once it is out of step and the tokens have expired, no later call succeeds, whatever the servers do. |
| `OAuth.Session.Load` | internal/oauth/store.go:69-84 | The loop over the stores finds what the specification finds. |
| `OAuth.SavedIsLoadedIff` | internal/auth/store/store.go:67-79 | What was saved is what the next load finds, if and only if it went to the keychain, or the keychain was empty, could be cleared or held the same. |
| `OAuth.Session.EnsureFreshCredentials` | internal/oauth/flow.go:114-174 | The step-by-step method computes the specified call. |
| `SystemdUnit.TwoPassesAreOneEscape` | internal/daemon/systemd_unit.go:66 | Replacing backslashes and then quotes is one escape per character. |
| `SystemdUnit.WordReadsBack` | internal/daemon/systemd_unit.go:56-83 | An escaped argument, quoted or not, is read back as one word. |
| `SystemdUnit.CommandReadsBack` | internal/daemon/systemd_unit.go:34-49 | Splitting the joined line by systemd's quoting rules gives back every argument list. |
| `SystemdUnit.UnitRunsTheCommand` | internal/daemon/systemd_unit.go:29-54 | The unit file, cut into lines and read, runs exactly the given executable and arguments, for arguments without line breaks. |
| `SystemdUnit.GenerateUnit` | internal/daemon/systemd_unit.go:29-54 | Fails exactly for an empty executable and otherwise writes this unit. |

## Left out

- KvGroup.FindMissing: requires that the average rendered digest fits the limit, because the loop of the CLI otherwise never ends; ChunkLoopAdvancesIff says exactly when that is.
- KvGroup.FindMissingChunked: the same.
- KvGroup.StartWorkers: the same.
- IpcConnection.ServeRefinesMap: is about one connection served alone; how connections interleave is modelled for the counters and identifiers only, and nothing is claimed about the order of requests on different connections.
- IpcConnection.SessionReadsBack: assumes the session counters reported fit in 64 bits, as the wire format does; counters here do not wrap around.
- IpcServer.Conn.ReadValue: does not model that the CLI allocates the announced length before reading it.
- SaveRestore.LoadedMetadataIsClosed: assumes that cache keys are never checksums, that blobs are not evicted and that files do not change while they are saved.
- FileGroup.EachPathRecordedOnce: is about goroutines run one after another; FileGroupOnce and FileGroupRace have the concurrent case.
- FileGroupOnce.EveryOrderRecordsOnceIff: leaves out links to directories that hold further links to follow, or entries that cannot be read; for these FileGroupRace.RecordedAtMostReachers bounds how often a path is recorded.
- CcacheStats.ParseCcacheStats: numbers are unbounded and rates exact quotients; floating-point rounding and numbers too large for it are not modelled.
- SystemdUnit.CommandReadsBack: the reader leaves out numeric escapes, `%` and `$` expansion and the special prefixes of the executable.
- InvocationLog.RunKeepsRecent: assumes that a record is written whole, that the clock does not go back and that years run from 1 to 9999; files foreign to the log are not part of the run, and a file named for the year 0 counts as one.
- OAuth.FreshIsStored: a store operation happens or fails as a whole, and the reload it speaks of can read the stores; expired refresh tokens are left to the server's answer.
- FindMissing's own retries, capabilities, the idle timer, the logger swap and ChangeSession of the helper, which only decide when the modelled steps happen.
- gRPC, TLS, metadata headers, timeouts and HTTP: only their outcomes appear, as parameters.
- Extended attributes, file modes beyond the owner's write permission, modification times and symlink timestamps.
- Cobra commands, prompts, browser login, analytics requests, installers and process control, which have no state worth a model.
- The proxy, enrichment, xcodeargs and childstats packages are not part of this model.
