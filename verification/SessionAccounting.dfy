/** The server state shared by concurrent helper connections, as interleaved atomic steps: two
    atomic byte counters, which are credited without any lock, and an identifier pair guarded by a
    mutex. A step of the model is one atomic operation of one connection; a run is any sequence of
    steps of any number of connections. */
module SessionAccounting {
  import opened Bytes

  type Id = string

  datatype Pair = Pair(invocation: Id, parent: Id)

  /** Where a connection is. `Set…` is handleSetInvocationIDResult, entered after the client was
      answered; `Stats…` is handleGetSessionStatsResult. `epoch` is the number of switches that had
      been completed when the first counter was read. */
  datatype Pc =
    | Idle
    | SetAcked(parent: Id, child: Id)
    | SetLocked(parent: Id, child: Id)
    | SetDownloadSwapped(parent: Id, child: Id)
    | SetUploadSwapped(parent: Id, child: Id)
    | SetIdWritten(parent: Id, child: Id)
    | SetDone
    | StatsWanted
    | StatsLocked
    | StatsDownload(dl: int, epoch: nat)
    | StatsUpload(dl: int, ul: int, epoch: nat)
    | StatsId(dl: int, ul: int, id: Id, epoch: nat)
    | StatsDone(dl: int, ul: int, pair: Pair, epoch: nat)

  datatype Report = Report(dl: int, ul: int, pair: Pair, epoch: nat)

  /** The last five fields are history: they record what happened and steer nothing. */
  datatype Server = Server(
    downloadBytes: int, uploadBytes: int, invocation: Id, parent: Id, holder: Option<nat>, pcs: map<nat, Pc>,
    creditedDown: int, creditedUp: int, discardedDown: int, discardedUp: int,
    acked: set<Pair>, active: seq<Pair>, reports: seq<Report>)

  datatype Action =
    | CreditDown(bytes: nat)            // updateWithResult for a Get
    | CreditUp(bytes: nat)              // updateWithResult for a Put
    | Ack(t: nat, parent: Id, child: Id)  // OK written for SetInvocationID on connection t
    | Ask(t: nat)                       // GetSessionStats read on connection t
    | Go(t: nat)                        // connection t performs its next atomic operation

  function Init(initial: Id): Server {
    Server(0, 0, initial, "", None, map[], 0, 0, 0, 0, {}, [Pair(initial, "")], [])
  }

  function PcOf(s: Server, t: nat): Pc {
    if t in s.pcs then s.pcs[t] else Idle
  }

  function At(s: Server, t: nat, pc: Pc): Server {
    s.(pcs := s.pcs[t := pc])
  }

  function Advance(s: Server, t: nat): Server {
    match PcOf(s, t)
    case Idle => s
    case SetAcked(p, c) => if s.holder.None? then At(s.(holder := Some(t)), t, SetLocked(p, c)) else s
    case SetLocked(p, c) =>
      if c == s.invocation then At(s, t, SetDone)
      else At(s.(downloadBytes := 0, discardedDown := s.discardedDown + s.downloadBytes), t, SetDownloadSwapped(p, c))
    case SetDownloadSwapped(p, c) =>
      At(s.(uploadBytes := 0, discardedUp := s.discardedUp + s.uploadBytes), t, SetUploadSwapped(p, c))
    case SetUploadSwapped(p, c) => At(s.(invocation := c), t, SetIdWritten(p, c))
    case SetIdWritten(p, c) => At(s.(parent := p, active := s.active + [Pair(c, p)]), t, SetDone)
    case SetDone => At(s.(holder := None), t, Idle)
    case StatsWanted => if s.holder.None? then At(s.(holder := Some(t)), t, StatsLocked) else s
    case StatsLocked => At(s, t, StatsDownload(s.downloadBytes, |s.active|))
    case StatsDownload(dl, e) => At(s, t, StatsUpload(dl, s.uploadBytes, e))
    case StatsUpload(dl, ul, e) => At(s, t, StatsId(dl, ul, s.invocation, e))
    case StatsId(dl, ul, id, e) => At(s, t, StatsDone(dl, ul, Pair(id, s.parent), e))
    case StatsDone(dl, ul, pair, e) =>
      At(s.(holder := None, reports := s.reports + [Report(dl, ul, pair, e)]), t, Idle)
  }

  function Step(s: Server, a: Action): Server {
    match a
    case CreditDown(n) => s.(downloadBytes := s.downloadBytes + n, creditedDown := s.creditedDown + n)
    case CreditUp(n) => s.(uploadBytes := s.uploadBytes + n, creditedUp := s.creditedUp + n)
    case Ack(t, p, c) => if PcOf(s, t).Idle? then At(s.(acked := s.acked + {Pair(c, p)}), t, SetAcked(p, c)) else s
    case Ask(t) => if PcOf(s, t).Idle? then At(s, t, StatsWanted) else s
    case Go(t) => Advance(s, t)
  }

  function Run(s: Server, run: seq<Action>): Server
    decreases |run|
  {
    if run == [] then s else Run(Step(s, run[0]), run[1..])
  }

  // ----- the invariant -----------------------------------------------------------------------

  predicate InsideLock(pc: Pc) {
    !pc.Idle? && !pc.SetAcked? && !pc.StatsWanted?
  }

  /** The identifiers as the lock holder left them: only between the two writes of a switch do they
      not form the active pair. */
  predicate IdsMatch(s: Server, pc: Pc)
    requires s.active != []
  {
    var now := s.active[|s.active| - 1];
    if pc.SetIdWritten? then s.invocation == pc.child && s.parent == now.parent
    else Pair(s.invocation, s.parent) == now
  }

  predicate Sees(s: Server, pc: Pc)
    requires s.active != []
  {
    var now := s.active[|s.active| - 1];
    match pc
    case SetAcked(p, c) => Pair(c, p) in s.acked
    case SetLocked(p, c) => Pair(c, p) in s.acked
    case SetDownloadSwapped(p, c) => Pair(c, p) in s.acked && c != now.invocation
    case SetUploadSwapped(p, c) => Pair(c, p) in s.acked && c != now.invocation
    case SetIdWritten(p, c) => Pair(c, p) in s.acked && c != now.invocation
    case StatsDownload(_, e) => e == |s.active|
    case StatsUpload(_, _, e) => e == |s.active|
    case StatsId(_, _, id, e) => e == |s.active| && id == now.invocation
    case StatsDone(_, _, pair, e) => e == |s.active| && pair == now
    case _ => true
  }

  ghost predicate Inv(s: Server, initial: Id) {
    && s.creditedDown == s.downloadBytes + s.discardedDown
    && s.creditedUp == s.uploadBytes + s.discardedUp
    && s.active != [] && s.active[0] == Pair(initial, "")
    && (forall k :: 1 <= k < |s.active| ==>
          s.active[k] in s.acked && s.active[k].invocation != s.active[k - 1].invocation)
    && (forall t: nat :: InsideLock(PcOf(s, t)) <==> s.holder == Some(t))
    && (forall t: nat :: Sees(s, PcOf(s, t)))
    && IdsMatch(s, if s.holder.Some? then PcOf(s, s.holder.value) else Idle)
    && (forall k :: 0 <= k < |s.reports| ==>
          0 < s.reports[k].epoch <= |s.active| && s.reports[k].pair == s.active[s.reports[k].epoch - 1])
  }

  predicate Reporting(pc: Pc) {
    pc.StatsWanted? || pc.StatsLocked? || pc.StatsDownload? || pc.StatsUpload? || pc.StatsId? || pc.StatsDone?
  }

  lemma ReportingKeepsInv(s: Server, t: nat, initial: Id)
    requires Inv(s, initial) && Reporting(PcOf(s, t))
    ensures Inv(Advance(s, t), initial)
  {
    var s' := Advance(s, t);
    assert Sees(s, PcOf(s, t)) && (InsideLock(PcOf(s, t)) <==> s.holder == Some(t));
    forall u: nat
      ensures InsideLock(PcOf(s', u)) <==> s'.holder == Some(u)
      ensures Sees(s', PcOf(s', u))
    {
      assert Sees(s, PcOf(s, u)) && (InsideLock(PcOf(s, u)) <==> s.holder == Some(u));
    }
  }

  lemma SwitchingKeepsInv(s: Server, t: nat, initial: Id)
    requires Inv(s, initial) && !Reporting(PcOf(s, t))
    ensures Inv(Advance(s, t), initial)
  {
    OthersUnaffected(s, t, initial);
    assert Sees(s, PcOf(s, t)) && (InsideLock(PcOf(s, t)) <==> s.holder == Some(t));
  }

  lemma OthersUnaffected(s: Server, t: nat, initial: Id)
    requires Inv(s, initial) && !Reporting(PcOf(s, t))
    ensures var s' := Advance(s, t);
            forall u: nat :: (InsideLock(PcOf(s', u)) <==> s'.holder == Some(u)) && Sees(s', PcOf(s', u))
  {
    var s' := Advance(s, t);
    assert Sees(s, PcOf(s, t)) && (InsideLock(PcOf(s, t)) <==> s.holder == Some(t));
    forall u: nat
      ensures InsideLock(PcOf(s', u)) <==> s'.holder == Some(u)
      ensures Sees(s', PcOf(s', u))
    {
      assert Sees(s, PcOf(s, u)) && (InsideLock(PcOf(s, u)) <==> s.holder == Some(u));
    }
  }

  lemma StepKeepsInv(s: Server, a: Action, initial: Id)
    requires Inv(s, initial)
    ensures Inv(Step(s, a), initial)
  {
    if a.Go? {
      if Reporting(PcOf(s, a.t)) {
        ReportingKeepsInv(s, a.t, initial);
      } else {
        SwitchingKeepsInv(s, a.t, initial);
      }
    } else {
      var s' := Step(s, a);
      forall u: nat
        ensures InsideLock(PcOf(s', u)) <==> s'.holder == Some(u)
        ensures Sees(s', PcOf(s', u))
      {
        assert Sees(s, PcOf(s, u)) && (InsideLock(PcOf(s, u)) <==> s.holder == Some(u));
      }
    }
  }

  lemma {:induction false} RunKeepsInv(s: Server, run: seq<Action>, initial: Id)
    requires Inv(s, initial)
    ensures Inv(Run(s, run), initial)
    decreases |run|
  {
    if run != [] {
      StepKeepsInv(s, run[0], initial);
      RunKeepsInv(Step(s, run[0]), run[1..], initial);
    }
  }

  // ----- what every run guarantees -----------------------------------------------------------

  function BytesDown(run: seq<Action>): int {
    if run == [] then 0 else (if run[0].CreditDown? then run[0].bytes else 0) + BytesDown(run[1..])
  }

  function BytesUp(run: seq<Action>): int {
    if run == [] then 0 else (if run[0].CreditUp? then run[0].bytes else 0) + BytesUp(run[1..])
  }

  lemma {:induction false} CreditsAreCounted(s: Server, run: seq<Action>)
    ensures Run(s, run).creditedDown == s.creditedDown + BytesDown(run)
    ensures Run(s, run).creditedUp == s.creditedUp + BytesUp(run)
    decreases |run|
  {
    if run != [] {
      CreditsAreCounted(Step(s, run[0]), run[1..]);
    }
  }

  /** No byte is lost or counted twice, although the counters are reset one at a time while other
      connections keep crediting them. */
  lemma Conservation(initial: Id, run: seq<Action>)
    ensures var s := Run(Init(initial), run);
            && BytesDown(run) == s.downloadBytes + s.discardedDown
            && BytesUp(run) == s.uploadBytes + s.discardedUp
  {
    RunKeepsInv(Init(initial), run, initial);
    CreditsAreCounted(Init(initial), run);
  }

  /** Every reported identifier pair is the initial one or came from a single acknowledged
      SetInvocationID, and it is the pair that was active when the reported counters were read. */
  lemma ReportsAreCoherent(initial: Id, run: seq<Action>, k: nat)
    requires k < |Run(Init(initial), run).reports|
    ensures var s := Run(Init(initial), run);
            var r := s.reports[k];
            && (r.pair == Pair(initial, "") || r.pair in s.acked)
            && 0 < r.epoch <= |s.active| && r.pair == s.active[r.epoch - 1]
  {
    RunKeepsInv(Init(initial), run, initial);
  }

  /** Two connections are never inside the mutex together. */
  lemma MutualExclusion(initial: Id, run: seq<Action>, t: nat, u: nat)
    ensures var s := Run(Init(initial), run);
            InsideLock(PcOf(s, t)) && InsideLock(PcOf(s, u)) ==> t == u
  {
    RunKeepsInv(Init(initial), run, initial);
    var s := Run(Init(initial), run);
    assert InsideLock(PcOf(s, t)) <==> s.holder == Some(t);
    assert InsideLock(PcOf(s, u)) <==> s.holder == Some(u);
  }

  /** Consecutive active pairs have different child IDs: a repeated child ID never switches. */
  lemma SwitchesChangeTheChild(initial: Id, run: seq<Action>, k: nat)
    requires 1 <= k < |Run(Init(initial), run).active|
    ensures var s := Run(Init(initial), run);
            s.active[k] in s.acked && s.active[k].invocation != s.active[k - 1].invocation
  {
    RunKeepsInv(Init(initial), run, initial);
  }

  /** No switch is under way, and every connection about to try one repeats the child ID. */
  ghost predicate OnlyRepeats(s: Server, child: Id) {
    forall t: nat :: var pc := PcOf(s, t);
      && (pc.SetAcked? || pc.SetLocked? ==> pc.child == child)
      && !pc.SetDownloadSwapped? && !pc.SetUploadSwapped? && !pc.SetIdWritten?
  }

  lemma {:induction false} RepeatsKeep(s: Server, run: seq<Action>)
    requires OnlyRepeats(s, s.invocation)
    requires forall a :: a in run && a.Ack? ==> a.child == s.invocation
    ensures var end := Run(s, run);
            && OnlyRepeats(end, s.invocation)
            && end.discardedDown == s.discardedDown && end.discardedUp == s.discardedUp
            && end.invocation == s.invocation && end.parent == s.parent && end.active == s.active
    decreases |run|
  {
    if run != [] {
      var s' := Step(s, run[0]);
      assert run[0] in run;
      forall u: nat
        ensures var pc := PcOf(s', u);
                && (pc.SetAcked? || pc.SetLocked? ==> pc.child == s.invocation)
                && !pc.SetDownloadSwapped? && !pc.SetUploadSwapped? && !pc.SetIdWritten?
      {
        var pc := PcOf(s, u);
        assert pc.SetAcked? || pc.SetLocked? ==> pc.child == s.invocation;
        if run[0].Go? {
          var pt := PcOf(s, run[0].t);
          assert pt.SetAcked? || pt.SetLocked? ==> pt.child == s.invocation;
        }
      }
      RepeatsKeep(s', run[1..]);
    }
  }

  /** From any point of any run at which only the active child ID is waiting to be set, as long as no
      other child ID arrives nothing is reset: both counters keep all they held and gain every byte
      credited, and the active pair stays what it is. */
  lemma RepeatedChildResetsNothing(initial: Id, before: seq<Action>, run: seq<Action>)
    requires var s := Run(Init(initial), before);
             OnlyRepeats(s, s.invocation) && forall a :: a in run && a.Ack? ==> a.child == s.invocation
    ensures var s := Run(Init(initial), before);
            var end := Run(s, run);
            && end.downloadBytes == s.downloadBytes + BytesDown(run)
            && end.uploadBytes == s.uploadBytes + BytesUp(run)
            && end.invocation == s.invocation && end.parent == s.parent && end.active == s.active
  {
    var s := Run(Init(initial), before);
    RunKeepsInv(Init(initial), before, initial);
    RepeatsKeep(s, run);
    RunKeepsInv(s, run, initial);
    CreditsAreCounted(s, run);
  }

  // ----- what a report counts ----------------------------------------------------------------

  function SoFar(initial: Id, run: seq<Action>, i: nat): Server
    requires i <= |run|
  {
    Run(Init(initial), run[..i])
  }

  /** Epoch `e` of the downloads began after `h` actions: at the start, or when a switch to a new child
      reset their counter. */
  predicate BeganDown(initial: Id, run: seq<Action>, h: nat, e: nat) {
    if h == 0 then e == 1
    else
      && h <= |run| && run[h - 1].Go?
      && var s := SoFar(initial, run, h - 1);
         var pc := PcOf(s, run[h - 1].t);
         pc.SetLocked? && pc.child != s.invocation && e == |s.active| + 1
  }

  predicate BeganUp(initial: Id, run: seq<Action>, h: nat, e: nat) {
    if h == 0 then e == 1
    else
      && h <= |run| && run[h - 1].Go?
      && var s := SoFar(initial, run, h - 1);
         PcOf(s, run[h - 1].t).SetDownloadSwapped? && e == |s.active| + 1
  }

  /** What the counter held after `i` actions is what was credited to it since its epoch began. */
  predicate ReadDown(initial: Id, run: seq<Action>, h: nat, i: nat, e: nat, dl: int) {
    && h <= i <= |run| && BeganDown(initial, run, h, e) && |SoFar(initial, run, i).active| == e
    && dl == SoFar(initial, run, i).downloadBytes == BytesDown(run[h..i])
  }

  predicate ReadUp(initial: Id, run: seq<Action>, h: nat, i: nat, e: nat, ul: int) {
    && h <= i <= |run| && BeganUp(initial, run, h, e) && |SoFar(initial, run, i).active| == e
    && ul == SoFar(initial, run, i).uploadBytes == BytesUp(run[h..i])
  }

  ghost predicate Downloads(initial: Id, run: seq<Action>, e: nat, dl: int) {
    exists h: nat, i: nat :: ReadDown(initial, run, h, i, e, dl)
  }

  /** Both counters as they were read, the downloads first. */
  ghost predicate Counts(initial: Id, run: seq<Action>, e: nat, dl: int, ul: int) {
    exists h: nat, i: nat, g: nat, j: nat ::
      i <= j && ReadDown(initial, run, h, i, e, dl) && ReadUp(initial, run, g, j, e, ul)
  }

  /** The epoch a counter is in: a switch in progress has reset it before the new pair is active. */
  function EpochDown(s: Server): nat {
    var pc := if s.holder.Some? then PcOf(s, s.holder.value) else Idle;
    |s.active| + if pc.SetDownloadSwapped? || pc.SetUploadSwapped? || pc.SetIdWritten? then 1 else 0
  }

  function EpochUp(s: Server): nat {
    var pc := if s.holder.Some? then PcOf(s, s.holder.value) else Idle;
    |s.active| + if pc.SetUploadSwapped? || pc.SetIdWritten? then 1 else 0
  }

  ghost predicate DownloadExplained(initial: Id, run: seq<Action>, s: Server) {
    exists h: nat ::
      h <= |run| && BeganDown(initial, run, h, EpochDown(s)) && s.downloadBytes == BytesDown(run[h..])
  }

  ghost predicate UploadExplained(initial: Id, run: seq<Action>, s: Server) {
    exists h: nat ::
      h <= |run| && BeganUp(initial, run, h, EpochUp(s)) && s.uploadBytes == BytesUp(run[h..])
  }

  ghost predicate PcExplained(initial: Id, run: seq<Action>, pc: Pc) {
    match pc
    case StatsDownload(dl, e) => Downloads(initial, run, e, dl)
    case StatsUpload(dl, ul, e) => Counts(initial, run, e, dl, ul)
    case StatsId(dl, ul, _, e) => Counts(initial, run, e, dl, ul)
    case StatsDone(dl, ul, _, e) => Counts(initial, run, e, dl, ul)
    case _ => true
  }

  ghost predicate AllExplained(initial: Id, run: seq<Action>, s: Server) {
    && DownloadExplained(initial, run, s) && UploadExplained(initial, run, s)
    && (forall t: nat :: PcExplained(initial, run, PcOf(s, t)))
    && (forall k :: 0 <= k < |s.reports| ==>
          Counts(initial, run, s.reports[k].epoch, s.reports[k].dl, s.reports[k].ul))
  }

  lemma {:induction false} RunThen(s: Server, run: seq<Action>, a: Action)
    ensures Run(s, run + [a]) == Step(Run(s, run), a)
    decreases |run|
  {
    hide Step;
    if run == [] {
      assert run + [a] == [a] && [a][1..] == [];
    } else {
      assert (run + [a])[0] == run[0] && (run + [a])[1..] == run[1..] + [a];
      RunThen(Step(s, run[0]), run[1..], a);
    }
  }

  lemma {:induction false} BytesThen(run: seq<Action>, a: Action)
    ensures BytesDown(run + [a]) == BytesDown(run) + if a.CreditDown? then a.bytes else 0
    ensures BytesUp(run + [a]) == BytesUp(run) + if a.CreditUp? then a.bytes else 0
  {
    if run == [] {
      assert run + [a] == [a] && [a][1..] == [];
    } else {
      assert (run + [a])[0] == run[0] && (run + [a])[1..] == run[1..] + [a];
      BytesThen(run[1..], a);
    }
  }

  lemma StillRead(initial: Id, run: seq<Action>, a: Action, h: nat, i: nat, e: nat, n: int)
    ensures h <= |run| && BeganDown(initial, run, h, e) ==> BeganDown(initial, run + [a], h, e)
    ensures h <= |run| && BeganUp(initial, run, h, e) ==> BeganUp(initial, run + [a], h, e)
    ensures ReadDown(initial, run, h, i, e, n) ==> ReadDown(initial, run + [a], h, i, e, n)
    ensures ReadUp(initial, run, h, i, e, n) ==> ReadUp(initial, run + [a], h, i, e, n)
  {
    hide Run;
    var more := run + [a];
    if h <= |run| {
      assert h > 0 ==> more[..h - 1] == run[..h - 1];
    }
    if h <= i <= |run| {
      assert more[..i] == run[..i] && more[h..i] == run[h..i];
    }
  }

  lemma StillExplained(initial: Id, run: seq<Action>, a: Action, e: nat, dl: int, ul: int)
    ensures Downloads(initial, run, e, dl) ==> Downloads(initial, run + [a], e, dl)
    ensures Counts(initial, run, e, dl, ul) ==> Counts(initial, run + [a], e, dl, ul)
  {
    hide ReadDown, ReadUp;
    if Downloads(initial, run, e, dl) {
      var h: nat, i: nat :| ReadDown(initial, run, h, i, e, dl);
      StillRead(initial, run, a, h, i, e, dl);
    }
    if Counts(initial, run, e, dl, ul) {
      var h: nat, i: nat, g: nat, j: nat :|
        i <= j && ReadDown(initial, run, h, i, e, dl) && ReadUp(initial, run, g, j, e, ul);
      StillRead(initial, run, a, h, i, e, dl);
      StillRead(initial, run, a, g, j, e, ul);
    }
  }

  /** A counter read now, outside any switch, holds what its epoch was credited. */
  lemma ReadNow(initial: Id, run: seq<Action>, s: Server, dl: int)
    requires s == Run(Init(initial), run) && DownloadExplained(initial, run, s) && UploadExplained(initial, run, s)
    ensures EpochDown(s) == |s.active| ==> Downloads(initial, run, |s.active|, s.downloadBytes)
    ensures EpochUp(s) == |s.active| && Downloads(initial, run, |s.active|, dl) ==>
              Counts(initial, run, |s.active|, dl, s.uploadBytes)
  {
    hide BeganDown, BeganUp;
    assert run[..|run|] == run;
    var h: nat :| h <= |run| && BeganDown(initial, run, h, EpochDown(s)) && s.downloadBytes == BytesDown(run[h..]);
    var g: nat :| g <= |run| && BeganUp(initial, run, g, EpochUp(s)) && s.uploadBytes == BytesUp(run[g..]);
    assert run[h..|run|] == run[h..] && run[g..|run|] == run[g..];
    assert EpochDown(s) == |s.active| ==> ReadDown(initial, run, h, |run|, |s.active|, s.downloadBytes);
    assert EpochUp(s) == |s.active| ==> ReadUp(initial, run, g, |run|, |s.active|, s.uploadBytes);
  }

  predicate ResetsDown(s: Server, a: Action) {
    a.Go? && PcOf(s, a.t).SetLocked? && PcOf(s, a.t).child != s.invocation
  }

  predicate ResetsUp(s: Server, a: Action) {
    a.Go? && PcOf(s, a.t).SetDownloadSwapped?
  }

  /** Only a switch changes the epoch a counter is in, and only by resetting it. */
  lemma EpochsStep(s: Server, a: Action, initial: Id)
    requires Inv(s, initial)
    ensures var z := Step(s, a);
            && (if ResetsDown(s, a) then z.downloadBytes == 0 && EpochDown(z) == |s.active| + 1
                else EpochDown(z) == EpochDown(s)
                     && z.downloadBytes == s.downloadBytes + if a.CreditDown? then a.bytes else 0)
            && (if ResetsUp(s, a) then z.uploadBytes == 0 && EpochUp(z) == |s.active| + 1
                else EpochUp(z) == EpochUp(s)
                     && z.uploadBytes == s.uploadBytes + if a.CreditUp? then a.bytes else 0)
  {
    hide Sees, IdsMatch;
    assert a.Go? ==> (InsideLock(PcOf(s, a.t)) <==> s.holder == Some(a.t));
  }

  lemma DownExplained(initial: Id, run: seq<Action>, s: Server, a: Action)
    requires s == Run(Init(initial), run) && Inv(s, initial) && DownloadExplained(initial, run, s)
    ensures DownloadExplained(initial, run + [a], Step(s, a))
  {
    hide Run, Step, EpochDown, EpochUp, Inv;
    var more := run + [a];
    EpochsStep(s, a, initial);
    if ResetsDown(s, a) {
      assert more[..|run|] == run;
      assert BeganDown(initial, more, |more|, |s.active| + 1) && more[|more|..] == [];
    } else {
      var h: nat :| h <= |run| && BeganDown(initial, run, h, EpochDown(s)) && s.downloadBytes == BytesDown(run[h..]);
      StillRead(initial, run, a, h, 0, EpochDown(s), 0);
      BytesThen(run[h..], a);
      assert more[h..] == run[h..] + [a];
    }
  }

  lemma UpExplained(initial: Id, run: seq<Action>, s: Server, a: Action)
    requires s == Run(Init(initial), run) && Inv(s, initial) && UploadExplained(initial, run, s)
    ensures UploadExplained(initial, run + [a], Step(s, a))
  {
    hide Run, Step, EpochDown, EpochUp, Inv;
    var more := run + [a];
    EpochsStep(s, a, initial);
    if ResetsUp(s, a) {
      assert more[..|run|] == run;
      assert BeganUp(initial, more, |more|, |s.active| + 1) && more[|more|..] == [];
    } else {
      var h: nat :| h <= |run| && BeganUp(initial, run, h, EpochUp(s)) && s.uploadBytes == BytesUp(run[h..]);
      StillRead(initial, run, a, h, 0, EpochUp(s), 0);
      BytesThen(run[h..], a);
      assert more[h..] == run[h..] + [a];
    }
  }

  lemma StillPcExplained(initial: Id, run: seq<Action>, a: Action, pc: Pc)
    ensures PcExplained(initial, run, pc) ==> PcExplained(initial, run + [a], pc)
  {
    hide Downloads, Counts;
    if pc.StatsDownload? {
      StillExplained(initial, run, a, pc.epoch, pc.dl, 0);
    } else if pc.StatsUpload? || pc.StatsId? || pc.StatsDone? {
      StillExplained(initial, run, a, pc.epoch, pc.dl, pc.ul);
    }
  }

  /** What a connection has read when it goes on is explained by the run so far. */
  lemma NextPcExplained(initial: Id, run: seq<Action>, s: Server, t: nat)
    requires s == Run(Init(initial), run) && Inv(s, initial) && AllExplained(initial, run, s)
    ensures PcExplained(initial, run, PcOf(Advance(s, t), t))
  {
    hide Run, Downloads, Counts, DownloadExplained, UploadExplained;
    var pc := PcOf(s, t);
    assert Sees(s, pc) && PcExplained(initial, run, pc);
    assert InsideLock(pc) <==> s.holder == Some(t);
    ReadNow(initial, run, s, if pc.StatsDownload? then pc.dl else 0);
  }

  lemma OthersStay(s: Server, a: Action, u: nat)
    ensures a != Go(u) ==>
              PcOf(Step(s, a), u) == PcOf(s, u) || PcOf(Step(s, a), u).SetAcked? || PcOf(Step(s, a), u).StatsWanted?
  {
  }

  lemma ReportsStep(s: Server, a: Action)
    ensures var z := Step(s, a);
            z.reports == s.reports
            || (a.Go? && PcOf(s, a.t).StatsDone?
                && var pc := PcOf(s, a.t); z.reports == s.reports + [Report(pc.dl, pc.ul, pc.pair, pc.epoch)])
  {
  }

  lemma StepExplained(initial: Id, run: seq<Action>, s: Server, a: Action)
    requires s == Run(Init(initial), run) && Inv(s, initial) && AllExplained(initial, run, s)
    ensures AllExplained(initial, run + [a], Step(s, a))
  {
    hide Run, Downloads, Counts, DownloadExplained, UploadExplained, Advance, Inv;
    var z := Step(s, a);
    DownExplained(initial, run, s, a);
    UpExplained(initial, run, s, a);
    forall t: nat
      ensures PcExplained(initial, run + [a], PcOf(z, t))
    {
      StillPcExplained(initial, run, a, PcOf(s, t));
      if a == Go(t) {
        NextPcExplained(initial, run, s, t);
        StillPcExplained(initial, run, a, PcOf(z, t));
      } else {
        OthersStay(s, a, t);
      }
    }
    ReportsStep(s, a);
    forall k | 0 <= k < |z.reports|
      ensures Counts(initial, run + [a], z.reports[k].epoch, z.reports[k].dl, z.reports[k].ul)
    {
      if k == |s.reports| {
        assert PcExplained(initial, run, PcOf(s, a.t));
      }
      StillExplained(initial, run, a, z.reports[k].epoch, z.reports[k].dl, z.reports[k].ul);
    }
  }

  lemma {:induction false} RunExplained(initial: Id, run: seq<Action>)
    ensures AllExplained(initial, run, Run(Init(initial), run))
    decreases |run|
  {
    hide Step;
    if run == [] {
      assert BeganDown(initial, run, 0, 1) && BeganUp(initial, run, 0, 1) && run[0..] == [];
    } else {
      hide AllExplained;
      var front, a := run[..|run| - 1], run[|run| - 1];
      assert run == front + [a];
      RunExplained(initial, front);
      RunThen(Init(initial), front, a);
      RunKeepsInv(Init(initial), front, initial);
      StepExplained(initial, front, Run(Init(initial), front), a);
    }
  }

  /** The two counters of every report: each is what that counter held at a moment of the run, the
      downloads first and under the same active pair, and that is every byte credited to it since the
      switch to that pair reset it, or since the start. */
  lemma ReportsCountTheirEpoch(initial: Id, run: seq<Action>, k: nat) returns (h: nat, i: nat, g: nat, j: nat)
    requires k < |Run(Init(initial), run).reports|
    ensures var r := Run(Init(initial), run).reports[k];
            i <= j && ReadDown(initial, run, h, i, r.epoch, r.dl) && ReadUp(initial, run, g, j, r.epoch, r.ul)
  {
    RunExplained(initial, run);
    var r := Run(Init(initial), run).reports[k];
    h, i, g, j :| i <= j && ReadDown(initial, run, h, i, r.epoch, r.dl) && ReadUp(initial, run, g, j, r.epoch, r.ul);
  }

  // ----- one report for each question --------------------------------------------------------

  /** The connections on which statistics were asked for and not yet reported. */
  function Unanswered(s: Server): set<nat> {
    set t | t in s.pcs && Reporting(s.pcs[t])
  }

  /** How often statistics were asked for, on connections that were free to take a request. */
  function Asked(s: Server, run: seq<Action>): nat
    decreases |run|
  {
    if run == [] then 0
    else One(run[0].Ask? && PcOf(s, run[0].t).Idle?) + Asked(Step(s, run[0]), run[1..])
  }

  lemma UnansweredAt(s: Server, t: nat, pc: Pc)
    ensures t in Unanswered(s) <==> Reporting(PcOf(s, t))
    ensures Unanswered(At(s, t, pc)) == if Reporting(pc) then Unanswered(s) + {t} else Unanswered(s) - {t}
    ensures |Unanswered(At(s, t, pc))| - |Unanswered(s)|
            == (if Reporting(pc) then 1 else 0) - (if t in Unanswered(s) then 1 else 0)
  {
    var now := Unanswered(At(s, t, pc));
    assert now == if Reporting(pc) then Unanswered(s) + {t} else Unanswered(s) - {t};
  }

  lemma SamePcs(s: Server, z: Server)
    ensures s.pcs == z.pcs ==> Unanswered(s) == Unanswered(z)
  {
  }

  function One(b: bool): nat {
    if b then 1 else 0
  }

  /** A step moves one connection, or none, and reports exactly when a connection is done with it. */
  lemma StepMoves(s: Server, a: Action)
    ensures var z, asked := Step(s, a), a.Ask? && PcOf(s, a.t).Idle?;
            if a.CreditDown? || a.CreditUp? then z.pcs == s.pcs && z.reports == s.reports
            else
              && (z.pcs == s.pcs || z.pcs == s.pcs[a.t := PcOf(z, a.t)])
              && |z.reports| + One(Reporting(PcOf(z, a.t)))
                 == |s.reports| + One(Reporting(PcOf(s, a.t))) + One(asked)
  {
  }

  lemma StepAnswers(s: Server, a: Action)
    ensures var z := Step(s, a);
            |z.reports| + |Unanswered(z)|
            == |s.reports| + |Unanswered(s)| + One(a.Ask? && PcOf(s, a.t).Idle?)
  {
    hide Unanswered, Reporting, Step;
    var z := Step(s, a);
    StepMoves(s, a);
    if z.pcs == s.pcs {
      SamePcs(s, z);
    } else {
      UnansweredAt(s, a.t, PcOf(z, a.t));
      SamePcs(z, At(s, a.t, PcOf(z, a.t)));
    }
  }

  /** Every report answers one question, and every question is answered once or still being answered. */
  lemma {:induction false} EveryQuestionAnsweredOnce(s: Server, run: seq<Action>)
    ensures |Run(s, run).reports| + |Unanswered(Run(s, run))|
            == |s.reports| + |Unanswered(s)| + Asked(s, run)
    decreases |run|
  {
    hide Step, Unanswered;
    if run != [] {
      StepAnswers(s, run[0]);
      EveryQuestionAnsweredOnce(Step(s, run[0]), run[1..]);
    }
  }

  // ----- when an acknowledged pair takes effect ----------------------------------------------

  predicate Setting(pc: Pc) {
    pc.SetAcked? || pc.SetLocked? || pc.SetDownloadSwapped? || pc.SetUploadSwapped? || pc.SetIdWritten?
  }

  function Now(s: Server): Pair
    requires s.active != []
  {
    s.active[|s.active| - 1]
  }

  /** Connection `t` alone has something to set. */
  ghost predicate OnlySetter(s: Server, t: nat) {
    forall u: nat :: u != t ==> !Setting(PcOf(s, u))
  }

  /** What is active once the pair acknowledged on `t` has been dealt with: the pair, if its child is
      not the active one already. */
  function Adopted(s: Server, pair: Pair): seq<Pair>
    requires s.active != []
  {
    if pair.invocation == Now(s).invocation then s.active else s.active + [pair]
  }

  /** Since `s0` the pair acknowledged on `t` is still to be dealt with, or has been; and reports say
      what was active when their counters were read. */
  ghost predicate Settling(s0: Server, s: Server, t: nat, p: Id, c: Id)
    requires s0.active != []
  {
    var pc := PcOf(s, t);
    && OnlySetter(s, t)
    && (Setting(pc) ==> pc.parent == p && pc.child == c && s.active == s0.active)
    && (!Setting(pc) ==> s.active == Adopted(s0, Pair(c, p)))
    && |s0.reports| <= |s.reports|
    && (forall k :: |s0.reports| <= k < |s.reports| ==> s.reports[k].epoch >= |s0.active|)
  }

  lemma OnlySetterStays(s: Server, a: Action, t: nat)
    requires OnlySetter(s, t) && !a.Ack?
    ensures OnlySetter(Step(s, a), t)
    ensures !Setting(PcOf(s, t)) ==> !Setting(PcOf(Step(s, a), t))
  {
    forall u: nat | u != t
      ensures !Setting(PcOf(Step(s, a), u))
    {
      assert !Setting(PcOf(s, u));
    }
  }

  lemma SettlingStep(s0: Server, s: Server, a: Action, t: nat, p: Id, c: Id, initial: Id)
    requires s0.active != [] && Inv(s, initial) && Settling(s0, s, t, p, c) && !a.Ack?
    ensures Settling(s0, Step(s, a), t, p, c)
  {
    OnlySetterStays(s, a, t);
    if a.Go? {
      hide OnlySetter;
      assert Sees(s, PcOf(s, a.t));
      assert a.t != t ==> !Setting(PcOf(s, a.t)) by {
        NotSetting(s, t, a.t);
      }
      assert InsideLock(PcOf(s, a.t)) <==> s.holder == Some(a.t);
    }
  }

  lemma NotSetting(s: Server, t: nat, u: nat)
    ensures OnlySetter(s, t) ==> u != t ==> !Setting(PcOf(s, u))
  {
  }

  lemma {:induction false} SettlingRun(s0: Server, s: Server, run: seq<Action>, t: nat, p: Id, c: Id, initial: Id)
    requires s0.active != [] && Inv(s, initial) && Settling(s0, s, t, p, c)
    requires forall a :: a in run ==> !a.Ack?
    ensures Settling(s0, Run(s, run), t, p, c)
    decreases |run|
  {
    if run != [] {
      assert run[0] in run;
      SettlingStep(s0, s, run[0], t, p, c, initial);
      StepKeepsInv(s, run[0], initial);
      SettlingRun(s0, Step(s, run[0]), run[1..], t, p, c, initial);
    }
  }

  /** From any reachable point at which a SetInvocationID has just been answered on connection `t` and
      nothing else is waiting to be set, whatever runs until the next one is answered: while `t` has
      not come through, the pair from before is the active one; from then on it is the new pair, but
      only if the child ID is new. A new parent for the same child is acknowledged and never adopted.
      Every report names the new pair exactly if its counters were read after that. */
  lemma WhenAnAcknowledgedPairIsActive(initial: Id, before: seq<Action>, run: seq<Action>, t: nat, p: Id, c: Id)
    requires var s := Run(Init(initial), before);
             PcOf(s, t) == SetAcked(p, c) && OnlySetter(s, t)
    requires forall a :: a in run ==> !a.Ack?
    ensures var s, end := Run(Init(initial), before), Run(Run(Init(initial), before), run);
            && s.active != [] && end.active != [] && |s.reports| <= |end.reports|
            && (Now(end) == Pair(c, p) <==> Now(s) == Pair(c, p) || (c != Now(s).invocation && !Setting(PcOf(end, t))))
            && (Now(end) != Pair(c, p) ==> Now(end) == Now(s))
            && (forall k :: |s.reports| <= k < |end.reports| ==>
                  var r := end.reports[k];
                  && r.pair == (if r.epoch > |s.active| then Pair(c, p) else Now(s))
                  && (r.epoch > |s.active| ==> c != Now(s).invocation && !Setting(PcOf(end, t))))
  {
    var s := Run(Init(initial), before);
    RunKeepsInv(Init(initial), before, initial);
    SettlingRun(s, s, run, t, p, c, initial);
    RunKeepsInv(s, run, initial);
  }

  /** A run in which it matters: the client has its OK, and statistics asked for afterwards on another
      connection still name the old invocation. */
  lemma AckComesFirst()
    ensures var run := [Ack(0, "p", "c")] + ([Ask(1)] + Turns(1, 6));
            var s := Run(Init("old"), run);
            Pair("c", "p") in s.acked && |s.reports| == 1 && s.reports[0].pair == Pair("old", "")
  {
    hide Run, Turns;
    var s0 := Step(Init("old"), Ack(0, "p", "c"));
    var s1 := Step(s0, Ask(1));
    RunFirst(Init("old"), Ack(0, "p", "c"), [Ask(1)] + Turns(1, 6));
    RunFirst(s0, Ask(1), Turns(1, 6));
    SixTurnsReport(s1, 1);
  }

  lemma CountersRead(s: Server, t: nat) returns (z: Server)
    requires PcOf(s, t) == StatsWanted && s.holder == None
    ensures z == Step(Step(Step(s, Go(t)), Go(t)), Go(t))
    ensures PcOf(z, t) == StatsUpload(s.downloadBytes, s.uploadBytes, |s.active|)
    ensures z == s.(holder := Some(t), pcs := z.pcs)
  {
    z := Step(Step(Step(s, Go(t)), Go(t)), Go(t));
  }

  lemma IdsReported(s: Server, t: nat, dl: int, ul: int, e: nat) returns (z: Server)
    requires PcOf(s, t) == StatsUpload(dl, ul, e)
    ensures z == Step(Step(Step(s, Go(t)), Go(t)), Go(t))
    ensures z.acked == s.acked && z.reports == s.reports + [Report(dl, ul, Pair(s.invocation, s.parent), e)]
  {
    z := Step(Step(Step(s, Go(t)), Go(t)), Go(t));
  }

  /** A connection left alone with the lock reports what is there. */
  lemma SixTurnsReport(s: Server, t: nat)
    requires PcOf(s, t) == StatsWanted && s.holder == None && s.active != []
    ensures var end := Run(s, Turns(t, 6));
            && end.acked == s.acked
            && end.reports
               == s.reports + [Report(s.downloadBytes, s.uploadBytes, Pair(s.invocation, s.parent), |s.active|)]
  {
    hide Run, Turns, Step;
    var z := CountersRead(s, t);
    var end := IdsReported(z, t, s.downloadBytes, s.uploadBytes, |s.active|);
    RunTurn(s, t, 6);
    RunTurn(Step(s, Go(t)), t, 5);
    RunTurn(Step(Step(s, Go(t)), Go(t)), t, 4);
    RunTurn(z, t, 3);
    RunTurn(Step(z, Go(t)), t, 2);
    RunTurn(Step(Step(z, Go(t)), Go(t)), t, 1);
    RunNothing(end, t);
  }

  function Turns(t: nat, n: nat): seq<Action> {
    if n == 0 then [] else [Go(t)] + Turns(t, n - 1)
  }

  lemma RunFirst(s: Server, a: Action, more: seq<Action>)
    ensures Run(s, [a] + more) == Run(Step(s, a), more)
  {
    assert ([a] + more)[0] == a && ([a] + more)[1..] == more;
  }

  lemma RunTurn(s: Server, t: nat, n: nat)
    requires n > 0
    ensures Run(s, Turns(t, n)) == Run(Step(s, Go(t)), Turns(t, n - 1))
  {
    RunFirst(s, Go(t), Turns(t, n - 1));
  }

  lemma RunNothing(s: Server, t: nat)
    ensures Run(s, Turns(t, 0)) == s
  {
  }
}
