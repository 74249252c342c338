/** The save and restore commands, each on its own: what they do step by step is a run of the
    protocol, so everything proved of runs holds of them. */
module SaveRestoreCommands {
  import opened Bytes
  import opened SaveRestore
  import G = KvGroup

  /** A system with one saver. */
  function Saving(blobs: map<Key, Content>, pointers: map<Key, Key>, s: Saver): System {
    System(blobs, pointers, map[0 := s], map[])
  }

  function Restoring(blobs: map<Key, Content>, pointers: map<Key, Key>, r: Restorer): System {
    System(blobs, pointers, map[], map[0 := r])
  }

  lemma {:induction false} RunThenStep(c: Codec, y: System, run: seq<Event>, e: Event)
    ensures Run(c, y, run + [e]) == Step(c, Run(c, y, run), e)
    decreases |run|
  {
    if run == [] {
      assert [] + [e] == [e];
      RunLast(c, y, e);
    } else {
      assert (run + [e])[0] == run[0] && (run + [e])[1..] == run[1..] + [e];
      RunThenStep(c, Step(c, y, run[0]), run[1..], e);
    }
  }

  class Cache {
    var blobs: map<Key, Content>
    var pointers: map<Key, Key>

    constructor ()
      ensures blobs == map[] && pointers == map[]
    {
      blobs, pointers := map[], map[];
    }

    /** `UploadFileGroupToBuildCache`, its workers one after another: a failed file fails the group
        only after the others were sent. */
    method UploadGroup(c: Codec, s: Saver, luck: nat -> Upload, n: nat, ghost start: System, ghost before: seq<Event>)
      returns (ok: bool, n': nat, ghost s': Saver, ghost run: seq<Event>)
      requires s.phase.Asking? && Run(c, start, before) == Saving(blobs, pointers, s)
      modifies this`blobs
      ensures Run(c, start, run) == Saving(blobs, pointers, s') && s' == s.(phase := s'.phase)
      ensures s'.phase == if !ok then Aborted else if s.phase.group == 0 && s.hasXcode then Asking(1) else Pointing
      ensures n <= n' && (ok <==> forall i :: n <= i < n' ==> !luck(i).Failed?)
    {
      hide Run, PutBlob, ToSend;
      var group := Group(s, s.phase.group);
      var left := ToSend(c, group, blobs.Keys);
      var failed := false;
      n' := n;
      s', run := s.(phase := Sending(s.phase.group, left, false)), before + [AskMissing(0)];
      RunThenStep(c, start, before, AskMissing(0));
      while left != []
        invariant s' == s.(phase := Sending(s.phase.group, left, failed))
        invariant Run(c, start, run) == Saving(blobs, pointers, s')
        invariant n <= n' && (!failed <==> forall i :: n <= i < n' ==> !luck(i).Failed?)
        decreases |left|
      {
        var u := luck(n');
        RunThenStep(c, start, run, SendBlob(0, 0, u));
        blobs := PutBlob(c, blobs, left[0], u);
        failed := failed || u.Failed?;
        assert left[..0] + left[0 + 1..] == left[1..];
        left := left[1..];
        n' := n' + 1;
        s', run := s.(phase := Sending(s.phase.group, left, failed)), run + [SendBlob(0, 0, u)];
      }
      ok := !failed;
      RunThenStep(c, start, run, EndGroup(0));
      s' := s.(phase := if failed then Aborted else if s.phase.group == 0 && s.hasXcode then Asking(1) else Pointing);
      run := run + [EndGroup(0)];
    }

    /** The pointer from the cache key to the checksum, then the metadata under the checksum. The key
        leads to this metadata if its pointer was stored or the server kept one that led there. */
    method Publish(c: Codec, s: Saver, pointer: Upload, metadata: Upload, ghost start: System, ghost before: seq<Event>)
      returns (ok: bool, ghost s': Saver, ghost run: seq<Event>)
      requires s.phase.Pointing? && Run(c, start, before) == Saving(blobs, pointers, s)
      modifies this
      ensures Run(c, start, run) == Saving(blobs, pointers, s') && s' == s.(phase := s'.phase)
      ensures s'.phase == if !ok then Aborted else if s.fallback.Some? then FallingBack else Finished
      ensures ok <==> !pointer.Failed? && !metadata.Failed?
      ensures pointers == PutKey(old(pointers), s.key, Checksum(c, s), pointer)
      ensures ok ==> (Leads(pointers, s.key, Checksum(c, s)) <==>
                      pointer.Stored? || Leads(old(pointers), s.key, Checksum(c, s)))
      ensures ok && c.encode(Describe(c, s)) != [] ==>
                Checksum(c, s) in blobs && blobs[Checksum(c, s)] == c.encode(Describe(c, s))
    {
      hide Run, Describe, Checksum, PutKey, Leads;
      PlanOf(c, s);
      var content := c.encode(Describe(c, s));
      var checksum := c.hash(content);
      KeyLeadsIff(pointers, s.key, checksum, pointer);
      pointers := PutKey(pointers, s.key, checksum, pointer);
      RunThenStep(c, start, before, PutPointer(0, pointer));
      s', run := s.(phase := if pointer.Failed? then Aborted else Describing), before + [PutPointer(0, pointer)];
      if pointer.Failed? {
        return false, s', run;
      }
      blobs := PutBlob(c, blobs, content, metadata);
      RunThenStep(c, start, run, PutMetadata(0, metadata));
      SamePlan(c, s, s');
      ok := !metadata.Failed?;
      s' := s.(phase := if !ok then Aborted else if s.fallback.Some? then FallingBack else Finished);
      run := run + [PutMetadata(0, metadata)];
    }

    /** The pointer from the fallback key, when there is another one. */
    method PublishFallback(c: Codec, s: Saver, u: Upload, ghost start: System, ghost before: seq<Event>)
      returns (ok: bool, ghost s': Saver, ghost run: seq<Event>)
      requires s.phase.FallingBack? && s.fallback.Some? && Run(c, start, before) == Saving(blobs, pointers, s)
      modifies this`pointers
      ensures Run(c, start, run) == Saving(blobs, pointers, s') && s'.phase == if ok then Finished else Aborted
      ensures ok <==> !u.Failed?
      ensures pointers == PutKey(old(pointers), s.fallback.value, Checksum(c, s), u)
      ensures ok ==> (Leads(pointers, s.fallback.value, Checksum(c, s)) <==>
                      u.Stored? || Leads(old(pointers), s.fallback.value, Checksum(c, s)))
    {
      hide Run, Checksum, PutKey, Leads;
      KeyLeadsIff(pointers, s.fallback.value, Checksum(c, s), u);
      pointers := PutKey(pointers, s.fallback.value, Checksum(c, s), u);
      RunThenStep(c, start, before, PutFallback(0, u));
      s', run := s.(phase := if u.Failed? then Aborted else Finished), before + [PutFallback(0, u)];
      ok := !u.Failed?;
    }

    /** `SaveXcodeDerivedDataFilesCmdFn` from the first upload on; `fallbackKey` is the one computed
        when no key was provided. A save that ends well has stored its metadata, and each of its keys
        leads there if that pointer was stored or the server kept one that already did; otherwise the
        key leads where it led before. No other key changes, not even when the save fails. */
    method SaveFiles(
      c: Codec, derived: seq<Content>, xcode: seq<Content>, hasXcode: bool, key: Key, fallbackKey: Option<Key>,
      luck: nat -> Upload, pointer: Upload, metadata: Upload, second: Upload)
      returns (ok: bool, sent: nat, ghost run: seq<Event>, ghost end: Saver)
      modifies this
      ensures Run(c, System(old(blobs), old(pointers), map[], map[]), run) == Saving(blobs, pointers, end)
      ensures end.phase == if ok then Finished else Aborted
      ensures ok <==> && (forall i :: 0 <= i < sent ==> !luck(i).Failed?) && !pointer.Failed? && !metadata.Failed?
                      && (OtherKey(key, fallbackKey).Some? ==> !second.Failed?)
      ensures var m := Metadata(Refs(c, derived), Refs(c, if hasXcode then xcode else []));
              var checksum := c.hash(c.encode(m));
              && (ok && c.encode(m) != [] ==> checksum in blobs && blobs[checksum] == c.encode(m))
              && (ok ==> (Leads(pointers, key, checksum) <==> pointer.Stored? || Leads(old(pointers), key, checksum)))
              && (ok && OtherKey(key, fallbackKey).Some? ==>
                    (Leads(pointers, fallbackKey.value, checksum) <==>
                     second.Stored? || Leads(old(pointers), fallbackKey.value, checksum)))
              && (ok && pointer.Kept? ==> SameAt(old(pointers), pointers, key))
              && (ok && OtherKey(key, fallbackKey).Some? && second.Kept? ==>
                 SameAt(old(pointers), pointers, fallbackKey.value))
      ensures forall k :: k != key && OtherKey(key, fallbackKey) != Some(k) ==> SameAt(old(pointers), pointers, k)
    {
      hide Run, Step, Saving, Describe, Checksum, Refs;
      ghost var start := System(blobs, pointers, map[], map[]);
      var other := OtherKey(key, fallbackKey);
      var s := Saver(derived, if hasXcode then xcode else [], hasXcode, key, other, Asking(0));
      run, end := [Save(0, derived, xcode, hasXcode, key, other)], s;
      SaveStarts(c, blobs, pointers, derived, xcode, hasXcode, key, other);
      ok, sent, end, run := UploadGroup(c, s, luck, 0, start, run);
      if !ok {
        return;
      }
      if hasXcode {
        ok, sent, end, run := UploadGroup(c, s.(phase := Asking(1)), luck, sent, start, run);
        if !ok {
          return;
        }
      }
      var ready := s.(phase := Pointing);
      PlanOf(c, ready);
      SamePlan(c, ready, ready.(phase := FallingBack));
      ok, end, run := Publish(c, ready, pointer, metadata, start, run);
      if ok && other.Some? {
        ok, end, run := PublishFallback(c, ready.(phase := FallingBack), second, start, run);
      }
    }

    /** `downloadXcodeMetadata`: the key, then the fallback key, then the content under the checksum
        found. Request 0 asks for the key, 1 for the fallback key, 2 for the content; those in `broken`
        fail for another reason than that nothing is there. */
    method DownloadMetadata(c: Codec, key: Key, fallback: Option<Key>, broken: set<nat>)
      returns (m: Option<Metadata>, ghost run: seq<Event>, ghost r: Restorer)
      ensures m == if 0 in broken || (key !in pointers && 1 in broken) || 2 in broken then None
                   else Fetch(c, blobs, pointers, key, fallback)
      ensures Run(c, System(blobs, pointers, map[], map[]), run) == Restoring(blobs, pointers, r)
      ensures run != [] && run[0] == Restore(0, key, fallback)
      ensures m.Some? ==> r == Loaded(m.value)
      ensures m.None? ==> !r.Loaded? && (broken == {} ==> r == GaveUp)
    {
      hide Run;
      ghost var start := System(blobs, pointers, map[], map[]);
      run, r := [Restore(0, key, fallback)], Looking(key, fallback);
      RunLast(c, start, run[0]);
      var cacheKey := key;
      if 0 in broken {
        return None, run, r;
      }
      RunThenStep(c, start, run, ReadPointer(0));
      r := StepRestorer(c, start, ReadPointer(0), r);
      run := run + [ReadPointer(0)];
      if cacheKey !in pointers {
        if fallback.None? {
          return None, run, r;
        }
        cacheKey := fallback.value;
        if 1 in broken {
          return None, run, r;
        }
        RunThenStep(c, start, run, ReadPointer(0));
        r := StepRestorer(c, start, ReadPointer(0), r);
        run := run + [ReadPointer(0)];
        if cacheKey !in pointers {
          return None, run, r;
        }
      }
      if 2 in broken {
        return None, run, r;
      }
      var checksum := pointers[cacheKey];
      RunThenStep(c, start, run, ReadMetadata(0));
      r := StepRestorer(c, start, ReadMetadata(0), r);
      run := run + [ReadMetadata(0)];
      if checksum !in blobs {
        return None, run, r;
      }
      m := c.decode(blobs[checksum]);
    }
  }

  lemma SaveStarts(
    c: Codec, blobs: map<Key, Content>, pointers: map<Key, Key>, derived: seq<Content>, xcode: seq<Content>,
    hasXcode: bool, key: Key, fallback: Option<Key>)
    ensures Run(c, System(blobs, pointers, map[], map[]), [Save(0, derived, xcode, hasXcode, key, fallback)])
         == Saving(blobs, pointers, Saver(derived, if hasXcode then xcode else [], hasXcode, key, fallback, Asking(0)))
  {
    RunLast(c, System(blobs, pointers, map[], map[]), Save(0, derived, xcode, hasXcode, key, fallback));
  }

  lemma PlanOf(c: Codec, s: Saver)
    ensures Describe(c, s) == Metadata(Refs(c, s.derived), Refs(c, s.xcode))
    ensures Checksum(c, s) == c.hash(c.encode(Describe(c, s)))
  {
  }

  /** A fallback key is only written when it is a key of its own. */
  function OtherKey(key: Key, fallbackKey: Option<Key>): (other: Option<Key>)
    ensures forall k :: other == Some(k) <==> fallbackKey == Some(k) && k != "" && k != key
  {
    if fallbackKey.Some? && fallbackKey.value != "" && fallbackKey.value != key then fallbackKey else None
  }

  predicate SameAt(before: map<Key, Key>, after: map<Key, Key>, k: Key) {
    (k in before <==> k in after) && (k in before ==> before[k] == after[k])
  }

  /** What a restore gets hold of. */
  function Fetch(c: Codec, blobs: map<Key, Content>, pointers: map<Key, Key>, key: Key,
      fallback: Option<Key>): Option<Metadata> {
    var used := if key !in pointers && fallback.Some? then fallback.value else key;
    if used !in pointers || pointers[used] !in blobs then None else c.decode(blobs[pointers[used]])
  }

  /** In every state the protocol can reach, a restore by a key fetches given metadata if and only if
      the key leads to its checksum and it is stored. With `SaveFiles` this says exactly when a save is
      what the next restore finds. */
  lemma FetchesIffLeads(c: Codec, y: System, key: Key, m: Metadata)
    requires Sound(c) && Inv(c, y)
    ensures Fetch(c, y.blobs, y.pointers, key, None) == Some(m) <==>
            Leads(y.pointers, key, c.hash(c.encode(m))) && c.hash(c.encode(m)) in y.blobs
  {
    hide Inv, Sound;
    if key in y.pointers && y.pointers[key] in y.blobs {
      PointedDecodes(c, y, key);
      SameChecksumSameMetadata(c, c.decode(y.blobs[y.pointers[key]]).value, m);
    }
  }

  /** With a fallback key too: the key's own pointer decides whenever there is one, wherever it leads;
      only a key without a pointer leaves it to the fallback key's. */
  lemma FallsBackIffNothingThere(c: Codec, y: System, key: Key, fallback: Option<Key>, m: Metadata)
    requires Sound(c) && Inv(c, y)
    ensures var checksum := c.hash(c.encode(m));
            Fetch(c, y.blobs, y.pointers, key, fallback) == Some(m) <==>
            && checksum in y.blobs
            && (Leads(y.pointers, key, checksum)
                || (key !in y.pointers && fallback.Some? && Leads(y.pointers, fallback.value, checksum)))
  {
    hide Inv, Sound;
    FetchesIffLeads(c, y, key, m);
    if fallback.Some? {
      FetchesIffLeads(c, y, fallback.value, m);
    }
  }

  lemma PointedDecodes(c: Codec, y: System, key: Key)
    requires Sound(c) && Inv(c, y) && key in y.pointers && y.pointers[key] in y.blobs
    ensures var found := c.decode(y.blobs[y.pointers[key]]);
            found.Some? && c.hash(c.encode(found.value)) == y.pointers[key]
  {
    hide Sound, Backed, Safe, Progress, BlobsGenuine;
    BackedDecodes(c, y.blobs, y.pointers[key]);
  }

  lemma SameChecksumSameMetadata(c: Codec, m: Metadata, n: Metadata)
    requires Sound(c)
    ensures c.hash(c.encode(m)) == c.hash(c.encode(n)) ==> m == n
  {
    assert c.decode(c.encode(m)) == Some(m) && c.decode(c.encode(n)) == Some(n);
  }

  // ----- the group upload --------------------------------------------------------------------

  function AsFiles(c: Codec, xs: seq<Content>): (files: seq<G.File>)
    ensures |files| == |xs|
  {
    if xs == [] then [] else [G.File("", |xs[0]|, c.hash(xs[0]))] + AsFiles(c, xs[1..])
  }

  /** The contents a saver sends are those of the files the group upload hands to its workers when
      the server truthfully names what it lacks. */
  lemma {:induction false} ToSendIsClaims(c: Codec, xs: seq<Content>, have: set<Key>, missing: set<Key>)
    requires missing == G.Hashes(AsFiles(c, xs)) - have
    ensures AsFiles(c, ToSend(c, xs, have)) == G.Claims(AsFiles(c, xs), missing)
  {
    hide G.Hashes;
    if xs != [] {
      var files, rest, h := AsFiles(c, xs), xs[1..], c.hash(xs[0]);
      G.HashesFirst(files);
      assert files[1..] == AsFiles(c, rest);
      if h in have {
        ToSendIsClaims(c, rest, have, missing);
      } else {
        ToSendIsClaims(c, rest, have + {h}, missing - {h});
        assert ([xs[0]] + ToSend(c, rest, have + {h}))[1..] == ToSend(c, rest, have + {h});
      }
    }
  }
}
