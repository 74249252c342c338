/** Saving and restoring DerivedData through the cache, as a protocol between any number of savers
    and restorers: file blobs first, then the pointer from the cache key to the metadata's
    checksum, then the metadata under that checksum, then the fallback pointer. Every saver may
    stop after any step, and uploads may fail whether or not they were stored. */
module SaveRestore {
  import opened Bytes

  type Key = string
  type Content = seq<byte>

  datatype FileRef = FileRef(hash: Key, size: nat)

  datatype Metadata = Metadata(derived: seq<FileRef>, xcode: seq<FileRef>)

  /** The checksum and the metadata file format. */
  datatype Codec = Codec(hash: Content -> Key, encode: Metadata -> Content, decode: Content -> Option<Metadata>)

  ghost predicate Sound(c: Codec) {
    && (forall x, y :: c.hash(x) == c.hash(y) ==> x == y)
    && (forall m :: c.decode(c.encode(m)) == Some(m) && c.encode(m) != [])
  }

  function Ref(c: Codec, x: Content): FileRef {
    FileRef(c.hash(x), |x|)
  }

  function Refs(c: Codec, xs: seq<Content>): (rs: seq<FileRef>)
    ensures |rs| == |xs| && forall i :: 0 <= i < |xs| ==> rs[i] == Ref(c, xs[i])
  {
    seq(|xs|, i requires 0 <= i < |xs| => Ref(c, xs[i]))
  }

  // ----- processes ---------------------------------------------------------------------------

  /** `Asking(g)`: group g (0 DerivedData, 1 Xcode cache) is about to ask what is missing;
      `Sending(g, …)`: workers are uploading the files found missing. */
  datatype Phase =
    | Asking(group: nat)
    | Sending(group: nat, left: seq<Content>, failed: bool)
    | Pointing
    | Describing
    | FallingBack
    | Finished
    | Aborted

  /** Files do not change while they are saved, so a saver carries their content. Without an Xcode
      cache path there are no Xcode cache files. */
  datatype Saver = Saver(derived: seq<Content>, xcode: seq<Content>, hasXcode: bool, key: Key, fallback: Option<Key>,
      phase: Phase)

  datatype Restorer =
    | Looking(key: Key, fallback: Option<Key>)
    | LookingUp(checksum: Key)
    | Loaded(metadata: Metadata)
    | GaveUp

  /** `blobs` holds content under its own checksum, `pointers` a checksum under a cache key. Cache
      keys are assumed never to be checksums. */
  datatype System = System(blobs: map<Key, Content>, pointers: map<Key, Key>, savers: map<nat, Saver>,
      restorers: map<nat, Restorer>)

  /** The end of one upload. `Kept`: the server answered that the key exists and kept its value. */
  datatype Upload = Stored | Kept | Failed(stored: bool)

  datatype Event =
    | Save(id: nat, derived: seq<Content>, xcode: seq<Content>, hasXcode: bool, key: Key, fallback: Option<Key>)
    | AskMissing(id: nat)
    | SendBlob(id: nat, i: nat, upload: Upload)
    | EndGroup(id: nat)
    | PutPointer(id: nat, upload: Upload)
    | PutMetadata(id: nat, upload: Upload)
    | PutFallback(id: nat, upload: Upload)
    | Restore(id: nat, key: Key, fallback: Option<Key>)
    | ReadPointer(id: nat)
    | ReadMetadata(id: nat)

  const EMPTY: System := System(map[], map[], map[], map[])

  function Describe(c: Codec, s: Saver): Metadata {
    Metadata(Refs(c, s.derived), Refs(c, s.xcode))
  }

  function Checksum(c: Codec, s: Saver): Key {
    c.hash(c.encode(Describe(c, s)))
  }

  function Group(s: Saver, g: nat): seq<Content> {
    if g == 0 then s.derived else s.xcode
  }

  /** The first file of each hash the server does not have. */
  function ToSend(c: Codec, xs: seq<Content>, have: set<Key>): seq<Content> {
    if xs == [] then []
    else if c.hash(xs[0]) in have then ToSend(c, xs[1..], have)
    else [xs[0]] + ToSend(c, xs[1..], have + {c.hash(xs[0])})
  }

  /** Uploading nothing succeeds without storing anything. A server that keeps its value already
      holds this content, since blobs go under their own checksum. */
  function PutBlob(c: Codec, blobs: map<Key, Content>, x: Content, u: Upload): map<Key, Content> {
    if x == [] || u == Failed(false) then blobs else blobs[c.hash(x) := x]
  }

  function PutKey(pointers: map<Key, Key>, key: Key, checksum: Key, u: Upload): map<Key, Key> {
    if u.Kept? || u == Failed(false) then pointers else pointers[key := checksum]
  }

  function SaverAt(y: System, id: nat, s: Saver, phase: Phase): System {
    y.(savers := y.savers[id := s.(phase := phase)])
  }

  /** Where a saver goes when all workers of a group are done. */
  function AfterGroup(s: Saver): Phase
    requires s.phase.Sending?
  {
    if s.phase.failed then Aborted else if s.phase.group == 0 && s.hasXcode then Asking(1) else Pointing
  }

  function StepSaver(c: Codec, y: System, e: Event, s: Saver): System
    requires !e.Save? && !e.Restore? && !e.ReadPointer? && !e.ReadMetadata?
  {
    match e
    case AskMissing(id) =>
      if s.phase.Asking? then
        SaverAt(y, id, s, Sending(s.phase.group, ToSend(c, Group(s, s.phase.group), y.blobs.Keys), false))
      else y
    case SendBlob(id, i, u) =>
      if s.phase.Sending? && i < |s.phase.left| then
        var x := s.phase.left[i];
        SaverAt(y.(blobs := PutBlob(c, y.blobs, x, u)), id, s,
                s.phase.(left := s.phase.left[..i] + s.phase.left[i + 1..], failed := s.phase.failed || u.Failed?))
      else y
    case EndGroup(id) =>
      if s.phase.Sending? && s.phase.left == [] then
        SaverAt(y, id, s, AfterGroup(s))
      else y
    case PutPointer(id, u) =>
      if s.phase.Pointing? then
        SaverAt(y.(pointers := PutKey(y.pointers, s.key, Checksum(c, s), u)), id, s,
                if u.Failed? then Aborted else Describing)
      else y
    case PutMetadata(id, u) =>
      if s.phase.Describing? then
        SaverAt(y.(blobs := PutBlob(c, y.blobs, c.encode(Describe(c, s)), u)), id, s,
                if u.Failed? then Aborted else if s.fallback.Some? then FallingBack else Finished)
      else y
    case PutFallback(id, u) =>
      if s.phase.FallingBack? && s.fallback.Some? then
        SaverAt(y.(pointers := PutKey(y.pointers, s.fallback.value, Checksum(c, s), u)), id, s,
                if u.Failed? then Aborted else Finished)
      else y
  }

  /** `downloadXcodeMetadata`: the key, else the fallback key, then the content they point to. */
  function StepRestorer(c: Codec, y: System, e: Event, r: Restorer): Restorer
    requires e.ReadPointer? || e.ReadMetadata?
  {
    match r
    case Looking(key, fallback) =>
      if !e.ReadPointer? then r
      else if key in y.pointers then LookingUp(y.pointers[key])
      else if fallback.Some? then Looking(fallback.value, None)
      else GaveUp
    case LookingUp(checksum) =>
      if !e.ReadMetadata? then r
      else if checksum !in y.blobs || c.decode(y.blobs[checksum]).None? then GaveUp
      else Loaded(c.decode(y.blobs[checksum]).value)
    case _ => r
  }

  function Step(c: Codec, y: System, e: Event): System {
    match e
    case Save(id, derived, xcode, hasXcode, key, fallback) =>
      if id in y.savers then y
      else
        var s := Saver(derived, if hasXcode then xcode else [], hasXcode, key, fallback, Asking(0));
        y.(savers := y.savers[id := s])
    case Restore(id, key, fallback) =>
      if id in y.restorers then y else y.(restorers := y.restorers[id := Looking(key, fallback)])
    case ReadPointer(id) =>
      if id in y.restorers then y.(restorers := y.restorers[id := StepRestorer(c, y, e, y.restorers[id])]) else y
    case ReadMetadata(id) =>
      if id in y.restorers then y.(restorers := y.restorers[id := StepRestorer(c, y, e, y.restorers[id])]) else y
    case _ =>
      if e.id in y.savers then StepSaver(c, y, e, y.savers[e.id]) else y
  }

  function Run(c: Codec, y: System, run: seq<Event>): System
    decreases |run|
  {
    if run == [] then y else Run(c, Step(c, y, run[0]), run[1..])
  }

  // ----- the invariant -----------------------------------------------------------------------

  /** All the non-empty contents are stored. */
  ghost predicate AllStored(c: Codec, blobs: map<Key, Content>, xs: seq<Content>) {
    forall x :: x in xs && x != [] ==> c.hash(x) in blobs
  }

  ghost predicate BlobsGenuine(c: Codec, blobs: map<Key, Content>) {
    forall k :: k in blobs ==> blobs[k] != [] && c.hash(blobs[k]) == k
  }

  /** The checksum belongs to the metadata of files that are all stored, save empty ones. */
  ghost predicate Backed(c: Codec, blobs: map<Key, Content>, checksum: Key) {
    exists derived, xcode ::
      && checksum == c.hash(c.encode(Metadata(Refs(c, derived), Refs(c, xcode))))
      && AllStored(c, blobs, derived) && AllStored(c, blobs, xcode)
  }

  ghost predicate BackedMetadata(c: Codec, blobs: map<Key, Content>, m: Metadata) {
    exists derived, xcode ::
      m == Metadata(Refs(c, derived), Refs(c, xcode)) && AllStored(c, blobs, derived) && AllStored(c, blobs, xcode)
  }

  ghost predicate Progress(c: Codec, blobs: map<Key, Content>, s: Saver) {
    match s.phase
    case Asking(g) => (g == 0 || (g == 1 && AllStored(c, blobs, s.derived))) && (!s.hasXcode ==> s.xcode == [])
    case Sending(g, left, failed) =>
      && (g == 0 || (g == 1 && AllStored(c, blobs, s.derived)))
      && (!s.hasXcode ==> s.xcode == [])
      && (!failed ==> forall x :: x in Group(s, g) && x != [] && x !in left ==> c.hash(x) in blobs)
    case Aborted => true
    case _ => AllStored(c, blobs, s.derived) && AllStored(c, blobs, s.xcode)
  }

  ghost predicate Safe(c: Codec, blobs: map<Key, Content>, r: Restorer) {
    match r
    case LookingUp(checksum) => Backed(c, blobs, checksum)
    case Loaded(m) => BackedMetadata(c, blobs, m)
    case _ => true
  }

  ghost predicate Inv(c: Codec, y: System) {
    && BlobsGenuine(c, y.blobs)
    && (forall k :: k in y.pointers ==> Backed(c, y.blobs, y.pointers[k]))
    && (forall id :: id in y.savers ==> Progress(c, y.blobs, y.savers[id]))
    && (forall id :: id in y.restorers ==> Safe(c, y.blobs, y.restorers[id]))
  }

  lemma StoredGrows(c: Codec, blobs: map<Key, Content>, more: map<Key, Content>, xs: seq<Content>)
    requires blobs.Keys <= more.Keys && AllStored(c, blobs, xs)
    ensures AllStored(c, more, xs)
  {
  }

  lemma BackedGrows(c: Codec, blobs: map<Key, Content>, more: map<Key, Content>, checksum: Key)
    requires blobs.Keys <= more.Keys && Backed(c, blobs, checksum)
    ensures Backed(c, more, checksum)
  {
    var derived, xcode :| checksum == c.hash(c.encode(Metadata(Refs(c, derived), Refs(c, xcode))))
                          && AllStored(c, blobs, derived) && AllStored(c, blobs, xcode);
    StoredGrows(c, blobs, more, derived);
    StoredGrows(c, blobs, more, xcode);
  }

  lemma SafeGrows(c: Codec, blobs: map<Key, Content>, more: map<Key, Content>, r: Restorer)
    requires blobs.Keys <= more.Keys && Safe(c, blobs, r)
    ensures Safe(c, more, r)
  {
    if r.LookingUp? {
      BackedGrows(c, blobs, more, r.checksum);
    } else if r.Loaded? {
      var derived, xcode :| r.metadata == Metadata(Refs(c, derived), Refs(c, xcode))
                            && AllStored(c, blobs, derived) && AllStored(c, blobs, xcode);
      StoredGrows(c, blobs, more, derived);
      StoredGrows(c, blobs, more, xcode);
    }
  }

  lemma ProgressGrows(c: Codec, blobs: map<Key, Content>, more: map<Key, Content>, s: Saver)
    requires blobs.Keys <= more.Keys && Progress(c, blobs, s)
    ensures Progress(c, more, s)
  {
  }

  /** There is no eviction: blobs only ever appear. */
  lemma MoreBlobsKeepAll(c: Codec, y: System, blobs: map<Key, Content>)
    requires Inv(c, y) && y.blobs.Keys <= blobs.Keys && BlobsGenuine(c, blobs)
    ensures Inv(c, y.(blobs := blobs))
  {
    hide Backed, Safe, Progress, BlobsGenuine;
    forall k | k in y.pointers
      ensures Backed(c, blobs, y.pointers[k])
    {
      BackedGrows(c, y.blobs, blobs, y.pointers[k]);
    }
    forall id | id in y.savers
      ensures Progress(c, blobs, y.savers[id])
    {
      ProgressGrows(c, y.blobs, blobs, y.savers[id]);
    }
    forall id | id in y.restorers
      ensures Safe(c, blobs, y.restorers[id])
    {
      SafeGrows(c, y.blobs, blobs, y.restorers[id]);
    }
  }

  lemma {:induction false} ToSendCovers(c: Codec, xs: seq<Content>, have: set<Key>)
    requires Sound(c)
    ensures forall x :: x in xs && x !in ToSend(c, xs, have) ==> c.hash(x) in have
  {
    if xs != [] {
      ToSendCovers(c, xs[1..], if c.hash(xs[0]) in have then have else have + {c.hash(xs[0])});
      forall x | x in xs && x !in ToSend(c, xs, have)
        ensures c.hash(x) in have
      {
        if x != xs[0] {
          assert x in xs[1..];
        }
      }
    }
  }

  lemma WithSaver(c: Codec, y: System, id: nat, s: Saver, phase: Phase)
    requires Inv(c, y) && Progress(c, y.blobs, s.(phase := phase))
    ensures Inv(c, SaverAt(y, id, s, phase))
  {
    hide Backed, Safe, Progress;
  }

  lemma WithRestorer(c: Codec, y: System, id: nat, r: Restorer)
    requires Inv(c, y) && Safe(c, y.blobs, r)
    ensures Inv(c, y.(restorers := y.restorers[id := r]))
  {
    hide Backed, Safe, Progress;
  }

  lemma WithPointer(c: Codec, y: System, s: Saver, key: Key, u: Upload)
    requires Inv(c, y) && AllStored(c, y.blobs, s.derived) && AllStored(c, y.blobs, s.xcode)
    ensures Inv(c, y.(pointers := PutKey(y.pointers, key, Checksum(c, s), u)))
  {
    ChecksumBacked(c, y.blobs, s);
    hide Backed, Checksum, Safe, Progress;
  }

  lemma ChecksumBacked(c: Codec, blobs: map<Key, Content>, s: Saver)
    requires AllStored(c, blobs, s.derived) && AllStored(c, blobs, s.xcode)
    ensures Backed(c, blobs, Checksum(c, s))
  {
    hide Refs, AllStored;
  }

  lemma WithBlob(c: Codec, y: System, x: Content, u: Upload)
    requires Inv(c, y)
    ensures Inv(c, y.(blobs := PutBlob(c, y.blobs, x, u)))
  {
    MoreBlobsKeepAll(c, y, PutBlob(c, y.blobs, x, u));
  }

  lemma AskKeepsInv(c: Codec, y: System, id: nat)
    requires Sound(c) && Inv(c, y)
    ensures Inv(c, Step(c, y, AskMissing(id)))
  {
    if id in y.savers && y.savers[id].phase.Asking? {
      var s := y.savers[id];
      assert Progress(c, y.blobs, s);
      var send := ToSend(c, Group(s, s.phase.group), y.blobs.Keys);
      ToSendCovers(c, Group(s, s.phase.group), y.blobs.Keys);
      WithSaver(c, y, id, s, Sending(s.phase.group, send, false));
    }
  }

  lemma SentIsStored(c: Codec, y: System, s: Saver, i: nat, u: Upload)
    requires Progress(c, y.blobs, s) && s.phase.Sending? && i < |s.phase.left|
    ensures Progress(c, PutBlob(c, y.blobs, s.phase.left[i], u),
                     s.(phase := s.phase.(left := s.phase.left[..i] + s.phase.left[i + 1..],
                                          failed := s.phase.failed || u.Failed?)))
  {
    var left := s.phase.left;
    forall x | x in left
      ensures x == left[i] || x in left[..i] + left[i + 1..]
    {
      var j :| 0 <= j < |left| && left[j] == x;
      assert j < i ==> x == left[..i][j];
      assert j > i ==> x == left[i + 1..][j - i - 1];
    }
  }

  lemma SendKeepsInv(c: Codec, y: System, id: nat, i: nat, u: Upload)
    requires Inv(c, y)
    ensures Inv(c, Step(c, y, SendBlob(id, i, u)))
  {
    if id in y.savers && y.savers[id].phase.Sending? && i < |y.savers[id].phase.left| {
      var s := y.savers[id];
      var x := s.phase.left[i];
      SentIsStored(c, y, s, i, u);
      WithBlob(c, y, x, u);
      WithSaver(c, y.(blobs := PutBlob(c, y.blobs, x, u)), id, s,
                s.phase.(left := s.phase.left[..i] + s.phase.left[i + 1..], failed := s.phase.failed || u.Failed?));
    }
  }

  lemma EndGroupKeepsInv(c: Codec, y: System, id: nat)
    requires Inv(c, y)
    ensures Inv(c, Step(c, y, EndGroup(id)))
  {
    if id in y.savers && y.savers[id].phase.Sending? && y.savers[id].phase.left == [] {
      var s := y.savers[id];
      assert Progress(c, y.blobs, s);
      WithSaver(c, y, id, s, AfterGroup(s));
    }
  }

  lemma PointerKeepsInv(c: Codec, y: System, id: nat, u: Upload)
    requires Inv(c, y)
    ensures Inv(c, Step(c, y, PutPointer(id, u)))
  {
    if id in y.savers && y.savers[id].phase.Pointing? {
      var s := y.savers[id];
      var phase := if u.Failed? then Aborted else Describing;
      assert Progress(c, y.blobs, s);
      WithPointer(c, y, s, s.key, u);
      hide Inv, Checksum;
      WithSaver(c, y.(pointers := PutKey(y.pointers, s.key, Checksum(c, s), u)), id, s, phase);
    }
  }

  lemma MetadataKeepsInv(c: Codec, y: System, id: nat, u: Upload)
    requires Inv(c, y)
    ensures Inv(c, Step(c, y, PutMetadata(id, u)))
  {
    if id in y.savers && y.savers[id].phase.Describing? {
      var s := y.savers[id];
      var phase := if u.Failed? then Aborted else if s.fallback.Some? then FallingBack else Finished;
      assert Progress(c, y.blobs, s);
      WithBlob(c, y, c.encode(Describe(c, s)), u);
      hide Inv, Describe;
      WithSaver(c, y.(blobs := PutBlob(c, y.blobs, c.encode(Describe(c, s)), u)), id, s, phase);
    }
  }

  lemma FallbackKeepsInv(c: Codec, y: System, id: nat, u: Upload)
    requires Inv(c, y)
    ensures Inv(c, Step(c, y, PutFallback(id, u)))
  {
    if id in y.savers && y.savers[id].phase.FallingBack? && y.savers[id].fallback.Some? {
      var s := y.savers[id];
      var phase := if u.Failed? then Aborted else Finished;
      assert Progress(c, y.blobs, s);
      WithPointer(c, y, s, s.fallback.value, u);
      hide Inv, Checksum;
      WithSaver(c, y.(pointers := PutKey(y.pointers, s.fallback.value, Checksum(c, s), u)), id, s, phase);
    }
  }

  lemma ReadKeepsSafe(c: Codec, y: System, e: Event, r: Restorer)
    requires Sound(c) && Inv(c, y) && Safe(c, y.blobs, r) && (e.ReadPointer? || e.ReadMetadata?)
    ensures Safe(c, y.blobs, StepRestorer(c, y, e, r))
  {
    if r.LookingUp? && e.ReadMetadata? && r.checksum in y.blobs {
      var derived, xcode :| r.checksum == c.hash(c.encode(Metadata(Refs(c, derived), Refs(c, xcode))))
                            && AllStored(c, y.blobs, derived) && AllStored(c, y.blobs, xcode);
      var m := Metadata(Refs(c, derived), Refs(c, xcode));
      assert y.blobs[r.checksum] == c.encode(m);
      assert BackedMetadata(c, y.blobs, m);
    }
  }

  lemma StepKeepsInv(c: Codec, y: System, e: Event)
    requires Sound(c) && Inv(c, y)
    ensures Inv(c, Step(c, y, e))
  {
    match e
    case Save(id, derived, xcode, hasXcode, key, fallback) =>
      if id !in y.savers {
        var s := Saver(derived, if hasXcode then xcode else [], hasXcode, key, fallback, Asking(0));
        WithSaver(c, y, id, s, Asking(0));
      }
    case AskMissing(id) => AskKeepsInv(c, y, id);
    case SendBlob(id, i, u) => SendKeepsInv(c, y, id, i, u);
    case EndGroup(id) => EndGroupKeepsInv(c, y, id);
    case PutPointer(id, u) => PointerKeepsInv(c, y, id, u);
    case PutMetadata(id, u) => MetadataKeepsInv(c, y, id, u);
    case PutFallback(id, u) => FallbackKeepsInv(c, y, id, u);
    case Restore(id, key, fallback) => WithRestorer(c, y, id, Looking(key, fallback));
    case ReadPointer(id) => ReadStepKeepsInv(c, y, e);
    case ReadMetadata(id) => ReadStepKeepsInv(c, y, e);
  }

  lemma ReadStepKeepsInv(c: Codec, y: System, e: Event)
    requires Sound(c) && Inv(c, y) && (e.ReadPointer? || e.ReadMetadata?)
    ensures Inv(c, Step(c, y, e))
  {
    if e.id in y.restorers {
      ReadKeepsSafe(c, y, e, y.restorers[e.id]);
      WithRestorer(c, y, e.id, StepRestorer(c, y, e, y.restorers[e.id]));
    }
  }

  lemma {:induction false} RunKeepsInv(c: Codec, y: System, run: seq<Event>)
    requires Sound(c) && Inv(c, y)
    ensures Inv(c, Run(c, y, run))
    decreases |run|
  {
    if run != [] {
      StepKeepsInv(c, y, run[0]);
      RunKeepsInv(c, Step(c, y, run[0]), run[1..]);
    }
  }

  // ----- what every run guarantees -----------------------------------------------------------

  function Named(m: Metadata): seq<FileRef> {
    m.derived + m.xcode
  }

  lemma RefStoredIff(c: Codec, blobs: map<Key, Content>, xs: seq<Content>, x: Content)
    requires Sound(c) && BlobsGenuine(c, blobs) && AllStored(c, blobs, xs) && x in xs
    ensures Ref(c, x).hash in blobs <==> Ref(c, x).size > 0
  {
  }

  lemma BackedNamesStored(c: Codec, y: System, m: Metadata)
    requires Sound(c) && BlobsGenuine(c, y.blobs) && BackedMetadata(c, y.blobs, m)
    ensures forall f :: f in Named(m) ==> (f.hash in y.blobs <==> f.size > 0)
  {
    hide Sound, BlobsGenuine, AllStored, Ref;
    var derived, xcode :| m == Metadata(Refs(c, derived), Refs(c, xcode))
                          && AllStored(c, y.blobs, derived) && AllStored(c, y.blobs, xcode);
    forall f | f in Named(m)
      ensures f.hash in y.blobs <==> f.size > 0
    {
      var i :| 0 <= i < |Named(m)| && Named(m)[i] == f;
      var x := if i < |derived| then derived[i] else xcode[i - |derived|];
      assert f == Ref(c, x);
      RefStoredIff(c, y.blobs, if i < |derived| then derived else xcode, x);
    }
  }

  /** In every interleaving of savers and restorers, wherever savers stop and uploads fail: a
      restore that got hold of metadata finds every non-empty file it names, then and ever after;
      and it finds no empty file, because those are reported uploaded but never stored. */
  lemma LoadedMetadataIsClosed(c: Codec, run: seq<Event>, id: nat)
    requires Sound(c) && id in Run(c, EMPTY, run).restorers && Run(c, EMPTY, run).restorers[id].Loaded?
    ensures var y := Run(c, EMPTY, run);
            forall f :: f in Named(y.restorers[id].metadata) ==> (f.hash in y.blobs <==> f.size > 0)
  {
    RunKeepsInv(c, EMPTY, run);
    var y := Run(c, EMPTY, run);
    assert Safe(c, y.blobs, y.restorers[id]);
    BackedNamesStored(c, y, y.restorers[id].metadata);
  }

  /** So a restore can fetch all the files it was promised if and only if none of them is empty. */
  lemma RestorableIffNoEmptyFile(c: Codec, run: seq<Event>, id: nat)
    requires Sound(c) && id in Run(c, EMPTY, run).restorers && Run(c, EMPTY, run).restorers[id].Loaded?
    ensures var y := Run(c, EMPTY, run);
            var names := Named(y.restorers[id].metadata);
            (forall f :: f in names ==> f.hash in y.blobs) <==> (forall f :: f in names ==> f.size > 0)
  {
    LoadedMetadataIsClosed(c, run, id);
  }

  /** Any metadata file a cache key points to, readable under its checksum, is closed as well. */
  lemma PointedMetadataIsClosed(c: Codec, run: seq<Event>, key: Key)
    requires Sound(c)
    requires var y := Run(c, EMPTY, run);
             key in y.pointers && y.pointers[key] in y.blobs && c.decode(y.blobs[y.pointers[key]]).Some?
    ensures var y := Run(c, EMPTY, run);
            forall f :: f in Named(c.decode(y.blobs[y.pointers[key]]).value) ==> (f.hash in y.blobs <==> f.size > 0)
  {
    RunKeepsInv(c, EMPTY, run);
    var y := Run(c, EMPTY, run);
    var derived, xcode :| y.pointers[key] == c.hash(c.encode(Metadata(Refs(c, derived), Refs(c, xcode))))
                          && AllStored(c, y.blobs, derived) && AllStored(c, y.blobs, xcode);
    var m := Metadata(Refs(c, derived), Refs(c, xcode));
    assert y.blobs[y.pointers[key]] == c.encode(m);
    assert BackedMetadata(c, y.blobs, m);
    BackedNamesStored(c, y, m);
  }

  // ----- between the pointer and the metadata ------------------------------------------------

  /** The saver has put the pointer up, or tried to, and its metadata may still be missing. */
  predicate MayLackMetadata(c: Codec, s: Saver, checksum: Key) {
    Checksum(c, s) == checksum && (s.phase.Describing? || s.phase.Aborted?)
  }

  /** The metadata is stored, or some saver is known to be between pointer and metadata, or to have
      stopped on the way. */
  ghost predicate Accounted(c: Codec, y: System, checksum: Key) {
    checksum in y.blobs || exists id :: id in y.savers && MayLackMetadata(c, y.savers[id], checksum)
  }

  ghost predicate PointersAccounted(c: Codec, y: System) {
    && (forall k :: k in y.pointers ==> Accounted(c, y, y.pointers[k]))
    && (forall id :: id in y.restorers && y.restorers[id].LookingUp? ==> Accounted(c, y, y.restorers[id].checksum))
    && (forall id :: id in y.savers && (y.savers[id].phase.FallingBack? || y.savers[id].phase.Finished?) ==>
          Checksum(c, y.savers[id]) in y.blobs)
  }

  lemma OnlyMetadataEndsDescribing(c: Codec, y: System, e: Event, id: nat)
    requires Sound(c) && id in y.savers && (y.savers[id].phase.Describing? || y.savers[id].phase.Aborted?)
    ensures var z := Step(c, y, e);
            && id in z.savers && Checksum(c, z.savers[id]) == Checksum(c, y.savers[id])
            && y.blobs.Keys <= z.blobs.Keys
            && (MayLackMetadata(c, z.savers[id], Checksum(c, y.savers[id])) || Checksum(c, y.savers[id]) in z.blobs)
  {
    hide ToSend, Describe;
    BlobsStay(c, y, e);
    SamePlan(c, y.savers[id], Step(c, y, e).savers[id]);
  }

  lemma StaysAccounted(c: Codec, y: System, e: Event, checksum: Key)
    requires Sound(c) && Accounted(c, y, checksum)
    ensures Accounted(c, Step(c, y, e), checksum)
  {
    hide Checksum, PutBlob, PutKey, ToSend;
    if checksum !in y.blobs {
      var id :| id in y.savers && MayLackMetadata(c, y.savers[id], checksum);
      OnlyMetadataEndsDescribing(c, y, e, id);
    } else {
      BlobsStay(c, y, e);
    }
  }

  lemma BlobsStay(c: Codec, y: System, e: Event)
    ensures y.blobs.Keys <= Step(c, y, e).blobs.Keys
  {
  }

  /** A pointer only ever changes to the checksum of the saver that writes it. */
  lemma NewPointerAccounted(c: Codec, y: System, e: Event, k: Key)
    requires Sound(c) && PointersAccounted(c, y) && k in Step(c, y, e).pointers
    requires k !in y.pointers || Step(c, y, e).pointers[k] != y.pointers[k]
    ensures Accounted(c, Step(c, y, e), Step(c, y, e).pointers[k])
  {
    hide Checksum, PutBlob, ToSend;
    var z := Step(c, y, e);
    assert e.PutPointer? || e.PutFallback?;
    assert e.id in y.savers && z.pointers[k] == Checksum(c, y.savers[e.id]);
    SamePlan(c, y.savers[e.id], z.savers[e.id]);
    if e.PutPointer? {
      assert MayLackMetadata(c, z.savers[e.id], z.pointers[k]);
    }
  }

  lemma SamePlan(c: Codec, s: Saver, t: Saver)
    ensures s.derived == t.derived && s.xcode == t.xcode ==>
              Describe(c, s) == Describe(c, t) && Checksum(c, s) == Checksum(c, t)
  {
  }

  lemma NeverEmpty(c: Codec, m: Metadata)
    ensures Sound(c) ==> c.encode(m) != []
  {
  }

  lemma FinishedIsStored(c: Codec, y: System, e: Event, id: nat)
    requires Sound(c) && PointersAccounted(c, y) && id in Step(c, y, e).savers
    requires Step(c, y, e).savers[id].phase.FallingBack? || Step(c, y, e).savers[id].phase.Finished?
    ensures Checksum(c, Step(c, y, e).savers[id]) in Step(c, y, e).blobs
  {
    hide ToSend, Describe, Accounted, Sound;
    BlobsStay(c, y, e);
    if id in y.savers {
      SamePlan(c, y.savers[id], Step(c, y, e).savers[id]);
      NeverEmpty(c, Describe(c, y.savers[id]));
    }
  }

  lemma LookedUpAccounted(c: Codec, y: System, e: Event, id: nat)
    requires Sound(c) && PointersAccounted(c, y) && id in Step(c, y, e).restorers
             && Step(c, y, e).restorers[id].LookingUp?
    ensures Accounted(c, y, Step(c, y, e).restorers[id].checksum)
  {
    hide Accounted;
  }

  lemma StepKeepsAccounted(c: Codec, y: System, e: Event)
    requires Sound(c) && PointersAccounted(c, y)
    ensures PointersAccounted(c, Step(c, y, e))
  {
    hide Step, Accounted, Checksum;
    var z := Step(c, y, e);
    forall k | k in z.pointers
      ensures Accounted(c, z, z.pointers[k])
    {
      if k in y.pointers && z.pointers[k] == y.pointers[k] {
        StaysAccounted(c, y, e, y.pointers[k]);
      } else {
        NewPointerAccounted(c, y, e, k);
      }
    }
    forall id | id in z.restorers && z.restorers[id].LookingUp?
      ensures Accounted(c, z, z.restorers[id].checksum)
    {
      LookedUpAccounted(c, y, e, id);
      StaysAccounted(c, y, e, z.restorers[id].checksum);
    }
    forall id | id in z.savers && (z.savers[id].phase.FallingBack? || z.savers[id].phase.Finished?)
      ensures Checksum(c, z.savers[id]) in z.blobs
    {
      FinishedIsStored(c, y, e, id);
    }
  }

  lemma {:induction false} RunKeepsAccounted(c: Codec, y: System, run: seq<Event>)
    requires Sound(c) && PointersAccounted(c, y)
    ensures PointersAccounted(c, Run(c, y, run))
    decreases |run|
  {
    hide PointersAccounted, Step;
    if run != [] {
      StepKeepsAccounted(c, y, run[0]);
      RunKeepsAccounted(c, Step(c, y, run[0]), run[1..]);
    }
  }

  /** A restore that has found a pointer gives up if and only if the metadata is not stored, and in
      every run that means that a saver of this very metadata has put its pointer up without having
      put up the metadata yet, or stopped. Once one of them got past the metadata, no restore by that
      pointer gives up any more. */
  lemma RestoreGivesUpIff(c: Codec, run: seq<Event>, id: nat)
    requires Sound(c) && id in Run(c, EMPTY, run).restorers && Run(c, EMPTY, run).restorers[id].LookingUp?
    ensures var y := Run(c, EMPTY, run);
            var checksum := y.restorers[id].checksum;
            && (Step(c, y, ReadMetadata(id)).restorers[id] == GaveUp <==> checksum !in y.blobs)
            && (checksum !in y.blobs ==> exists i :: i in y.savers && MayLackMetadata(c, y.savers[i], checksum))
            && (checksum !in y.blobs ==> forall i :: i in y.savers && Checksum(c, y.savers[i]) == checksum ==>
                  !y.savers[i].phase.FallingBack? && !y.savers[i].phase.Finished?)
  {
    RunKeepsInv(c, EMPTY, run);
    RunKeepsAccounted(c, EMPTY, run);
    var y := Run(c, EMPTY, run);
    LookupDecides(c, y, id);
  }

  lemma LookupDecides(c: Codec, y: System, id: nat)
    requires Sound(c) && Inv(c, y) && id in y.restorers && y.restorers[id].LookingUp?
    ensures Step(c, y, ReadMetadata(id)).restorers[id] == GaveUp <==> y.restorers[id].checksum !in y.blobs
  {
    hide Sound, BlobsGenuine, Backed, BackedMetadata, Progress;
    var checksum := y.restorers[id].checksum;
    assert Safe(c, y.blobs, y.restorers[id]);
    if checksum in y.blobs {
      BackedDecodes(c, y.blobs, checksum);
    }
  }

  lemma BackedDecodes(c: Codec, blobs: map<Key, Content>, checksum: Key)
    requires Sound(c) && BlobsGenuine(c, blobs) && Backed(c, blobs, checksum) && checksum in blobs
    ensures c.decode(blobs[checksum]).Some? && c.hash(c.encode(c.decode(blobs[checksum]).value)) == checksum
  {
    var derived, xcode :| checksum == c.hash(c.encode(Metadata(Refs(c, derived), Refs(c, xcode))))
                          && AllStored(c, blobs, derived) && AllStored(c, blobs, xcode);
    assert blobs[checksum] == c.encode(Metadata(Refs(c, derived), Refs(c, xcode)));
  }

  // ----- kept pointers -----------------------------------------------------------------------

  predicate Leads(pointers: map<Key, Key>, key: Key, checksum: Key) {
    key in pointers && pointers[key] == checksum
  }

  /** The upload reached the server's store, whatever the client was told. */
  predicate Arrived(u: Upload) {
    match u
    case Stored => true
    case Kept => false
    case Failed(stored) => stored
  }

  /** After a pointer upload the key leads to the saver's metadata if and only if the pointer arrived, or
      the key led there already. */
  lemma KeyLeadsIff(pointers: map<Key, Key>, key: Key, checksum: Key, u: Upload)
    ensures Leads(PutKey(pointers, key, checksum, u), key, checksum) <==> Arrived(u) || Leads(pointers, key, checksum)
    ensures forall k :: k != key || u.Kept? ==>
              (k in PutKey(pointers, key, checksum, u) <==> k in pointers)
              && (k in pointers ==> PutKey(pointers, key, checksum, u)[k] == pointers[k])
  {
  }

  /** And after a blob upload it is stored if and only if it is not empty and arrived, or was kept, or was
      there already. */
  lemma BlobStoredIff(c: Codec, blobs: map<Key, Content>, x: Content, u: Upload)
    ensures c.hash(x) in PutBlob(c, blobs, x, u) <==> (x != [] && (Arrived(u) || u.Kept?)) || c.hash(x) in blobs
  {
  }

  /** Cache keys do not depend on content, so a server that answers "already exists" for one may keep
      an old pointer: a saver then finishes without any upload failing, and its key leads where it
      led before. */
  lemma KeptPointerLeadsElsewhere(c: Codec, y: System, id: nat)
    requires id in y.savers && y.savers[id].phase.Pointing? && y.savers[id].fallback.None?
    requires !Leads(y.pointers, y.savers[id].key, Checksum(c, y.savers[id]))
    ensures var z := Step(c, Step(c, y, PutPointer(id, Kept)), PutMetadata(id, Stored));
            && id in z.savers && z.savers[id].phase == Finished && z.pointers == y.pointers
            && !Leads(z.pointers, y.savers[id].key, Checksum(c, z.savers[id]))
  {
    hide Checksum;
    var z := Step(c, Step(c, y, PutPointer(id, Kept)), PutMetadata(id, Stored));
    SamePlan(c, y.savers[id], z.savers[id]);
  }

  lemma RunOne(c: Codec, y: System, e: Event, more: seq<Event>)
    ensures Run(c, y, [e] + more) == Run(c, Step(c, y, e), more)
  {
    assert ([e] + more)[0] == e && ([e] + more)[1..] == more;
  }

  lemma RunThree(c: Codec, y: System, a: Event, b: Event, d: Event, more: seq<Event>)
    ensures Run(c, y, [a, b, d] + more) == Run(c, Step(c, Step(c, Step(c, y, a), b), d), more)
  {
    assert [a, b, d] + more == [a] + ([b] + ([d] + more));
    RunOne(c, y, a, [b] + ([d] + more));
    RunOne(c, Step(c, y, a), b, [d] + more);
    RunOne(c, Step(c, Step(c, y, a), b), d, more);
  }

  /** A run in which a restore falls between the pointer and the metadata and gives up, although
      nothing was lost and no upload failed. */
  lemma PointerComesFirst(c: Codec, key: Key)
    requires Sound(c)
    ensures var y := Run(c, EMPTY, [Save(0, [], [], false, key, None), AskMissing(0), EndGroup(0)]
                                   + ([PutPointer(0, Stored), Restore(1, key, None), ReadPointer(1)]
                                      + [ReadMetadata(1)]));
            && key in y.pointers && 0 in y.savers && y.savers[0].phase == Describing
            && 1 in y.restorers && y.restorers[1] == GaveUp
  {
    hide Run, Step;
    var more := [PutPointer(0, Stored), Restore(1, key, None), ReadPointer(1)] + [ReadMetadata(1)];
    var y3 := SavedNothing(c, key);
    var y6 := PointedAndLookedUp(c, key, y3);
    RunThree(c, EMPTY, Save(0, [], [], false, key, None), AskMissing(0), EndGroup(0), more);
    RunThree(c, y3, PutPointer(0, Stored), Restore(1, key, None), ReadPointer(1), [ReadMetadata(1)]);
    RunLast(c, y6, ReadMetadata(1));
    ReadsNothing(c, y6);
  }

  lemma SavedNothing(c: Codec, key: Key) returns (y: System)
    ensures y == Step(c, Step(c, Step(c, EMPTY, Save(0, [], [], false, key, None)), AskMissing(0)), EndGroup(0))
    ensures y == System(map[], map[], map[0 := Saver([], [], false, key, None, Pointing)], map[])
  {
    y := Step(c, Step(c, Step(c, EMPTY, Save(0, [], [], false, key, None)), AskMissing(0)), EndGroup(0));
  }

  lemma PointedAndLookedUp(c: Codec, key: Key, y: System) returns (z: System)
    requires y == System(map[], map[], map[0 := Saver([], [], false, key, None, Pointing)], map[])
    ensures z == Step(c, Step(c, Step(c, y, PutPointer(0, Stored)), Restore(1, key, None)), ReadPointer(1))
    ensures key in z.pointers && 0 in z.savers && z.savers[0].phase == Describing
    ensures z.blobs == map[] && 1 in z.restorers && z.restorers[1] == LookingUp(z.pointers[key])
  {
    hide Checksum;
    z := Step(c, Step(c, Step(c, y, PutPointer(0, Stored)), Restore(1, key, None)), ReadPointer(1));
  }

  lemma ReadsNothing(c: Codec, y: System)
    requires y.blobs == map[] && 1 in y.restorers && y.restorers[1].LookingUp?
    ensures Step(c, y, ReadMetadata(1)) == y.(restorers := y.restorers[1 := GaveUp])
  {
  }

  lemma RunLast(c: Codec, y: System, e: Event)
    ensures Run(c, y, [e]) == Step(c, y, e)
  {
    var none: seq<Event> := [e][1..];
    assert none == [] && Run(c, Step(c, y, e), none) == Step(c, y, e);
  }

  /** Closure needs the pointer. A blob that merely reads as metadata can be an ordinary saved
      file, and then nothing it names need be stored. */
  lemma UnpointedMetadataIsNotClosed(c: Codec, x: Content, key: Key)
    requires Sound(c) && x != [] && c.encode(Metadata([Ref(c, x)], [])) != x
    ensures var m := Metadata([Ref(c, x)], []);
            var file := c.encode(m);
            var y := Run(c, EMPTY, [Save(0, [file], [], false, key, None), AskMissing(0), SendBlob(0, 0, Stored)] + []);
            c.hash(file) in y.blobs && c.decode(y.blobs[c.hash(file)]) == Some(m) && c.hash(x) !in y.blobs
  {
    var m := Metadata([Ref(c, x)], []);
    var file := c.encode(m);
    var a, b, d := Save(0, [file], [], false, key, None), AskMissing(0), SendBlob(0, 0, Stored);
    RunThree(c, EMPTY, a, b, d, []);
    var y1 := Step(c, EMPTY, a);
    assert y1.savers[0].phase == Asking(0);
    var rest: seq<Content> := [file][1..];
    assert rest == [] && ToSend(c, rest, {c.hash(file)}) == [];
    assert ToSend(c, [file], y1.blobs.Keys) == [file];
    var y2 := Step(c, y1, b);
    assert y2.savers[0].phase == Sending(0, [file], false);
    var y3 := Step(c, y2, d);
    assert y3.blobs == map[c.hash(file) := file];
  }
}
