/** One storage-helper connection: what the server does with every byte stream a client can send,
    whatever the cache backend answers and wherever the socket breaks. The functions say what a
    request does to the backend, the socket and the session; module IpcServer carries them out. */
module IpcConnection {
  import opened Bytes
  import opened Framing

  // ----- the socket's write side -------------------------------------------------------------

  /** What the peer has received, and how many more bytes the socket takes before it breaks. */
  datatype Sink = Sink(out: seq<byte>, room: Option<nat>)

  predicate Fits(k: Sink, p: seq<byte>) {
    k.room.None? || |p| <= k.room.value
  }

  function Push(k: Sink, p: seq<byte>): (k': Sink)
    ensures k.out <= k'.out <= k.out + p
    ensures Fits(k, p) ==> k'.out == k.out + p
    ensures !Fits(k, p) ==> |k'.out| < |k.out| + |p|
  {
    if k.room.None? then Sink(k.out + p, None)
    else if |p| <= k.room.value then Sink(k.out + p, Some(k.room.value - |p|))
    else Sink(k.out + p[..k.room.value], Some(0))
  }

  /** Writing a frame in pieces is writing it whole; once broken, the socket takes nothing more. */
  lemma PushPieces(k: Sink, a: seq<byte>, b: seq<byte>)
    ensures Push(Push(k, a), b) == Push(k, a + b)
    ensures Fits(k, a + b) <==> Fits(k, a) && Fits(Push(k, a), b)
  {
    if Fits(k, a) {
      assert k.out + a + b == k.out + (a + b);
      if k.room.Some? && |a + b| > k.room.value {
        var left := k.room.value - |a|;
        assert (a + b)[..k.room.value] == a + b[..left];
        assert k.out + a + b[..left] == k.out + (a + b)[..k.room.value];
      }
    } else {
      assert (a + b)[..k.room.value] == a[..k.room.value];
      assert Push(k, a).out + b[..0] == Push(k, a).out;
    }
  }

  // ----- one request -------------------------------------------------------------------------

  datatype Outcome = OK | MISS | ERROR | PUSH_DISABLED

  datatype CallMethod = GET | PUT | REMOVE | STOP | SET_INVOCATION_ID | GET_SESSION_STATS | HEALTH_CHECK

  datatype ProcessResult = ProcessResult(
    outcome: Outcome, call: CallMethod, data: seq<byte>,
    downloadBytes: nat, uploadBytes: nat, parent: seq<byte>, child: seq<byte>)

  /** How the cache backend behaves during one request. A failed upload may still have been
      stored; an upload answered "already exists" succeeds and stores nothing. */
  datatype Backend = Works | Kept | Fails(msg: seq<byte>, stored: bool)

  datatype Weather = Weather(cancelled: bool, backend: Backend)

  type Store = map<string, seq<byte>>

  datatype Processed = Processed(store: Store, sink: Sink, result: ProcessResult)

  function Plain(outcome: Outcome, call: CallMethod): ProcessResult {
    ProcessResult(outcome, call, [], 0, 0, [], [])
  }

  /** `notifyClient`: one frame; if the socket refuses part of it the request counts as failed. */
  function Notify(e: Endian, store: Store, sink: Sink, reply: Reply, result: ProcessResult): Processed {
    var frame := EncodeReply(e, reply);
    Processed(store, Push(sink, frame), if Fits(sink, frame) then result else result.(outcome := ERROR))
  }

  function ProcessGet(e: Endian, store: Store, sink: Sink, key: seq<byte>, backend: Backend): Processed {
    var path := KeyToPath(key);
    if backend.Fails? then
      Notify(e, store, sink, Failure(backend.msg), Plain(ERROR, GET))
    else if path !in store then
      Notify(e, store, sink, Noop, Plain(MISS, GET))
    else
      Notify(e, store, sink, Value(store[path]), Plain(OK, GET).(data := store[path], downloadBytes := |store[path]|))
  }

  /** The backend stores nothing for an empty value, yet reports success. */
  function Stored(store: Store, path: string, value: seq<byte>, backend: Backend): Store {
    if value == [] || backend.Kept? || (backend.Fails? && !backend.stored) then store
    else store[path := value]
  }

  function ProcessPut(e: Endian, push: bool, store: Store, sink: Sink, key: seq<byte>, value: seq<byte>,
      backend: Backend): Processed {
    if !push then
      Notify(e, store, sink, Noop, Plain(PUSH_DISABLED, PUT))
    else
      var store' := Stored(store, KeyToPath(key), value, backend);
      if backend.Fails? then
        Notify(e, store', sink, Failure(backend.msg), Plain(ERROR, PUT).(uploadBytes := |value|))
      else
        Notify(e, store', sink, Ack, Plain(OK, PUT).(uploadBytes := |value|))
  }

  /** `processRequest` once the request has been read. */
  function Process(e: Endian, push: bool, store: Store, sink: Sink, r: Request, backend: Backend): Processed {
    match r
    case Get(key) => ProcessGet(e, store, sink, key, backend)
    case Put(key, _, value) => ProcessPut(e, push, store, sink, key, value, backend)
    case Remove(_) => Notify(e, store, sink, Ack, Plain(OK, REMOVE))
    case Stop => Processed(store, sink, Plain(OK, STOP))
    case SetInvocationID(parent, child) =>
      Notify(e, store, sink, Ack, Plain(OK, SET_INVOCATION_ID).(parent := parent, child := child))
    case GetSessionStats => Processed(store, sink, Plain(OK, GET_SESSION_STATS))
    case HealthCheck => Notify(e, store, sink, Ack, Plain(OK, HEALTH_CHECK))
  }

  // ----- the session -------------------------------------------------------------------------

  datatype Session = Session(downloaded: int, uploaded: int, invocation: seq<byte>, parent: seq<byte>)

  /** `updateWithResult`. */
  function Credit(s: Session, r: ProcessResult): Session {
    if r.outcome != OK then s
    else if r.call == GET then s.(downloaded := s.downloaded + r.downloadBytes)
    else if r.call == PUT then s.(uploaded := s.uploaded + r.uploadBytes)
    else s
  }

  /** `handleSetInvocationIDResult`: a repeated child ID changes nothing. */
  function SwitchInvocation(s: Session, r: ProcessResult): Session {
    if r.child == s.invocation then s else Session(0, 0, r.child, r.parent)
  }

  function StatsReply(s: Session): Reply {
    Stats(s.downloaded, s.uploaded, s.invocation, s.parent)
  }

  datatype State = State(store: Store, session: Session, sink: Sink)

  datatype Served = Served(state: State, alive: bool)

  /** What the connection loop does with a processed request. A session-stats frame that cannot be
      written is only logged: the loop goes on. */
  function Finish(e: Endian, session: Session, p: Processed): Served {
    var s1 := Credit(session, p.result);
    if p.result.outcome != OK then
      Served(State(p.store, s1, p.sink), p.result.outcome != ERROR)
    else if p.result.call == SET_INVOCATION_ID then
      Served(State(p.store, SwitchInvocation(s1, p.result), p.sink), true)
    else if p.result.call == GET_SESSION_STATS then
      Served(State(p.store, s1, Push(p.sink, EncodeReply(e, StatsReply(s1)))), true)
    else if p.result.call == STOP then
      Served(State(p.store, s1, Push(p.sink, EncodeReply(e, Ack))), false)
    else
      Served(State(p.store, s1, p.sink), true)
  }

  function ServeOne(e: Endian, push: bool, st: State, r: Request, backend: Backend): Served {
    Finish(e, st.session, Process(e, push, st.store, st.sink, r, backend))
  }

  /** The connection loop over the bytes `s` a client sent before closing its side; `i` counts
      requests and `weather(i)` is what happens around the i-th one. */
  function Serve(e: Endian, push: bool, st: State, s: seq<byte>, weather: nat -> Weather, i: nat): State
    decreases |s|
  {
    match DecodeRequest(e, s)
    case Ended => st
    case Got(r, rest) =>
      if weather(i).cancelled then st
      else
        var n := ServeOne(e, push, st, r, weather(i).backend);
        if n.alive then Serve(e, push, n.state, rest, weather, i + 1) else n.state
  }

  /** `handleConnection`: greeting, capabilities check, loop. */
  function Connection(e: Endian, push: bool, capable: bool, st: State, s: seq<byte>, weather: nat -> Weather): State {
    var greeted := st.(sink := Push(st.sink, GREETING));
    if !Fits(st.sink, GREETING) || !capable then greeted else Serve(e, push, greeted, s, weather, 0)
  }

  // ----- a plain key/value map ---------------------------------------------------------------

  /** The map the wire protocol stands for. It knows nothing of bytes on a wire, of hexadecimal
      paths or of sockets. `stopped` closes it for good. */
  datatype Machine = Machine(m: map<seq<byte>, seq<byte>>, session: Session, stopped: bool)

  function MapPut(m: map<seq<byte>, seq<byte>>, key: seq<byte>, value: seq<byte>, backend: Backend)
    : map<seq<byte>, seq<byte>>
  {
    if value == [] then m
    else
      match backend
      case Works => m[key := value]
      case Kept => m
      case Fails(_, stored) => if stored then m[key := value] else m
  }

  /** The answer to a request when `found` is what is held under its key. */
  function ReplyTo(push: bool, session: Session, r: Request, backend: Backend, found: Option<seq<byte>>): Reply {
    match r
    case Get(_) => if backend.Fails? then Failure(backend.msg) else if found.Some? then Value(found.value) else Noop
    case Put(_, _, _) => if !push then Noop else if backend.Fails? then Failure(backend.msg) else Ack
    case GetSessionStats => StatsReply(session)
    case _ => Ack
  }

  function Lookup<K, V>(m: map<K, V>, k: K): Option<V> {
    if k in m then Some(m[k]) else None
  }

  function MapReply(a: Machine, push: bool, r: Request, backend: Backend): Reply {
    ReplyTo(push, a.session, r, backend, if r.Get? then Lookup(a.m, r.key) else None)
  }

  function MapStep(a: Machine, push: bool, r: Request, backend: Backend): Machine {
    match r
    case Get(key) =>
      if backend.Fails? then a.(stopped := true)
      else if key in a.m then a.(session := a.session.(downloaded := a.session.downloaded + |a.m[key]|))
      else a
    case Put(key, _, value) =>
      if !push then a
      else if backend.Fails? then a.(m := MapPut(a.m, key, value, backend), stopped := true)
      else a.(m := MapPut(a.m, key, value, backend), session := a.session.(uploaded := a.session.uploaded + |value|))
    case SetInvocationID(parent, child) =>
      if child == a.session.invocation then a else a.(session := Session(0, 0, child, parent))
    case Stop => a.(stopped := true)
    case _ => a
  }

  datatype MapRun = MapRun(end: Machine, replies: seq<Reply>)

  function RunMap(a: Machine, push: bool, rs: seq<Request>, weather: nat -> Weather, i: nat): (run: MapRun)
    ensures |run.replies| <= |rs|
    ensures !run.end.stopped ==> |run.replies| == |rs|
    decreases |rs|
  {
    if rs == [] || a.stopped then MapRun(a, [])
    else
      var tail := RunMap(MapStep(a, push, rs[0], weather(i).backend), push, rs[1..], weather, i + 1);
      MapRun(tail.end, [MapReply(a, push, rs[0], weather(i).backend)] + tail.replies)
  }

  ghost predicate Represents(store: Store, m: map<seq<byte>, seq<byte>>) {
    forall key :: (key in m <==> KeyToPath(key) in store) && (key in m ==> m[key] == store[KeyToPath(key)])
  }

  // ----- refinement --------------------------------------------------------------------------

  lemma StoredRepresents(store: Store, m: map<seq<byte>, seq<byte>>, key: seq<byte>, value: seq<byte>, backend: Backend)
    requires Represents(store, m)
    ensures Represents(Stored(store, KeyToPath(key), value, backend), MapPut(m, key, value, backend))
  {
    forall other | KeyToPath(other) == KeyToPath(key)
      ensures other == key
    {
      KeyToPathInjective(other, key);
    }
  }

  /** Served request and map step agree: same frame, same contents, same session. */
  ghost predicate StepsAgree(e: Endian, st: State, n: Served, reply: Reply, a': Machine) {
    && n.state.sink == Sink(st.sink.out + EncodeReply(e, reply), None)
    && Represents(n.state.store, a'.m) && n.state.session == a'.session && n.alive == !a'.stopped
  }

  lemma PutServed(e: Endian, push: bool, st: State, a: Machine, r: Request, backend: Backend)
    requires st.sink.room.None? && st.session == a.session && !a.stopped && r.Put?
    ensures var n := ServeOne(e, push, st, r, backend);
            var a' := MapStep(a, push, r, backend);
            && n.state.sink == Sink(st.sink.out + EncodeReply(e, MapReply(a, push, r, backend)), None)
            && n.state.session == a'.session && n.alive == !a'.stopped
            && n.state.store == (if push then Stored(st.store, KeyToPath(r.key), r.value, backend) else st.store)
            && a'.m == (if push then MapPut(a.m, r.key, r.value, backend) else a.m)
  {}

  lemma PutRefines(e: Endian, push: bool, st: State, a: Machine, r: Request, backend: Backend)
    requires st.sink.room.None? && Represents(st.store, a.m) && st.session == a.session && !a.stopped && r.Put?
    ensures StepsAgree(e, st, ServeOne(e, push, st, r, backend), MapReply(a, push, r, backend),
            MapStep(a, push, r, backend))
  {
    PutServed(e, push, st, a, r, backend);
    StoredRepresents(st.store, a.m, r.key, r.value, backend);
  }

  lemma GetRefines(e: Endian, push: bool, st: State, a: Machine, r: Request, backend: Backend)
    requires st.sink.room.None? && Represents(st.store, a.m) && st.session == a.session && !a.stopped && r.Get?
    ensures StepsAgree(e, st, ServeOne(e, push, st, r, backend), MapReply(a, push, r, backend),
            MapStep(a, push, r, backend))
  {
    assert KeyToPath(r.key) in st.store <==> r.key in a.m;
  }

  /** While the socket holds, one served request writes exactly the map's answer and keeps the
      backend in step with the map. */
  lemma ServeOneRefines(e: Endian, push: bool, st: State, a: Machine, r: Request, backend: Backend)
    requires st.sink.room.None? && Represents(st.store, a.m) && st.session == a.session && !a.stopped
    ensures StepsAgree(e, st, ServeOne(e, push, st, r, backend), MapReply(a, push, r, backend),
            MapStep(a, push, r, backend))
  {
    if r.Put? {
      PutRefines(e, push, st, a, r, backend);
    } else if r.Get? {
      GetRefines(e, push, st, a, r, backend);
    }
  }

  lemma ServeFirst(e: Endian, push: bool, st: State, rs: seq<Request>, weather: nat -> Weather, i: nat)
    requires rs != [] && (forall r :: r in rs ==> Encodable(r)) && !weather(i).cancelled
    ensures var n := ServeOne(e, push, st, OnTheWire(rs[0]), weather(i).backend);
            Serve(e, push, st, EncodeRequests(e, rs), weather, i)
            == if n.alive then Serve(e, push, n.state, EncodeRequests(e, rs[1..]), weather, i + 1) else n.state
  {
    RequestRoundTrip(e, rs[0], EncodeRequests(e, rs[1..]));
  }

  lemma RunMapFirst(e: Endian, a: Machine, push: bool, r: Request, rs: seq<Request>, weather: nat -> Weather, i: nat)
    requires !a.stopped
    ensures var backend := weather(i).backend;
            var run := RunMap(a, push, [r] + rs, weather, i);
            var tail := RunMap(MapStep(a, push, r, backend), push, rs, weather, i + 1);
            && run.end == tail.end
            && run.replies == [MapReply(a, push, r, backend)] + tail.replies
            && EncodeReplies(e, run.replies) == EncodeReply(e, MapReply(a, push, r, backend))
               + EncodeReplies(e, tail.replies)
  {
    assert ([r] + rs)[1..] == rs;
  }

  /** A server that had written `out` has since written exactly the run's replies, and holds the
      map and the session the run ends with. */
  ghost predicate Follows(e: Endian, out: seq<byte>, end: State, run: MapRun) {
    end.sink.out == out + EncodeReplies(e, run.replies) && Represents(end.store, run.end.m)
        && end.session == run.end.session
  }

  lemma FollowsFirst(e: Endian, st: State, n: Served, reply: Reply, a': Machine, end: State, tail: MapRun, run: MapRun)
    requires StepsAgree(e, st, n, reply, a') && Follows(e, n.state.sink.out, end, tail)
    requires run.end == tail.end
    requires EncodeReplies(e, run.replies) == EncodeReply(e, reply) + EncodeReplies(e, tail.replies)
    ensures Follows(e, st.sink.out, end, run)
  {
    hide Represents, EncodeReply;
    var x, y := EncodeReply(e, reply), EncodeReplies(e, tail.replies);
    assert st.sink.out + (x + y) == (st.sink.out + x) + y;
  }

  lemma FollowsNothing(e: Endian, st: State, a: Machine)
    requires Represents(st.store, a.m) && st.session == a.session
    ensures Follows(e, st.sink.out, st, MapRun(a, []))
  {
    assert st.sink.out + [] == st.sink.out;
  }

  lemma ServeNothing(e: Endian, push: bool, st: State, weather: nat -> Weather, i: nat)
    ensures Serve(e, push, st, [], weather, i) == st
  {}

  /** For any requests, with any backend failures, over an unbroken socket: the bytes written are
      the map machine's replies, framed in order, and the server ends up representing the map. */
  lemma {:induction false} ServeRefinesMap(
    e: Endian, push: bool, st: State, a: Machine, rs: seq<Request>, weather: nat -> Weather, i: nat)
    requires st.sink.room.None? && Represents(st.store, a.m) && st.session == a.session && !a.stopped
    requires forall r :: r in rs ==> Encodable(r)
    requires forall k: nat :: !weather(k).cancelled
    ensures Follows(e, st.sink.out, Serve(e, push, st, EncodeRequests(e, rs), weather, i),
            RunMap(a, push, AllOnTheWire(rs), weather, i))
    decreases |rs|
  {
    hide ServeOne, MapStep, MapReply, EncodeReply, Represents, OnTheWire, Encodable, Serve, Follows;
    if rs == [] {
      ServeNothing(e, push, st, weather, i);
      FollowsNothing(e, st, a);
    } else {
      var r, backend := OnTheWire(rs[0]), weather(i).backend;
      var n, a' := ServeOne(e, push, st, r, backend), MapStep(a, push, r, backend);
      var reply, more := MapReply(a, push, r, backend), AllOnTheWire(rs[1..]);
      ServeFirst(e, push, st, rs, weather, i);
      ServeOneRefines(e, push, st, a, r, backend);
      RunMapFirst(e, a, push, r, more, weather, i);
      var run, tail := RunMap(a, push, [r] + more, weather, i), RunMap(a', push, more, weather, i + 1);
      if n.alive {
        ServeRefinesMap(e, push, n.state, a', rs[1..], weather, i + 1);
        var end := Serve(e, push, n.state, EncodeRequests(e, rs[1..]), weather, i + 1);
        FollowsFirst(e, st, n, reply, a', end, tail, run);
      } else {
        FollowsNothing(e, n.state, a');
        FollowsFirst(e, st, n, reply, a', n.state, tail, run);
      }
    }
  }

  /** Every reply the map gives is one the client's reader of that request understands. */
  lemma MapReplyAnswers(a: Machine, push: bool, r: Request, backend: Backend)
    requires forall k :: k in a.m ==> |a.m[k]| < TWO_64
    requires -TWO_63 <= a.session.downloaded < TWO_63 && -TWO_63 <= a.session.uploaded < TWO_63
    ensures Answers(r, MapReply(a, push, r, backend))
  {}

  // ----- arbitrary bytes, arbitrary breakage -------------------------------------------------

  datatype Exchange = Exchange(request: Request, reply: Reply)

  /** The requests a byte stream makes the server answer, each with its reply, up to the one that
      ends the connection. */
  function Exchanges(e: Endian, push: bool, st: State, s: seq<byte>, weather: nat -> Weather, i: nat): seq<Exchange>
    decreases |s|
  {
    match DecodeRequest(e, s)
    case Ended => []
    case Got(r, rest) =>
      if weather(i).cancelled then []
      else
        var n := ServeOne(e, push, st, r, weather(i).backend);
        [Exchange(r, FrameOf(push, st, r, weather(i).backend))]
        + if n.alive then Exchanges(e, push, n.state, rest, weather, i + 1) else []
  }

  function Replies(xs: seq<Exchange>): (rs: seq<Reply>)
    ensures |rs| == |xs| && forall k :: 0 <= k < |xs| ==> rs[k] == xs[k].reply
  {
    if xs == [] then [] else [xs[0].reply] + Replies(xs[1..])
  }

  function FrameOf(push: bool, st: State, r: Request, backend: Backend): Reply {
    ReplyTo(push, st.session, r, backend, if r.Get? then Lookup(st.store, KeyToPath(r.key)) else None)
  }

  lemma ServeOnePushesFrame(e: Endian, push: bool, st: State, r: Request, backend: Backend)
    ensures var n := ServeOne(e, push, st, r, backend);
            && n.state.sink == Push(st.sink, EncodeReply(e, FrameOf(push, st, r, backend)))
            && (FrameOf(push, st, r, backend).Failure? || r.Stop? ==> !n.alive)
  {}

  /** The call a result is about is the one that was requested. */
  predicate Names(call: CallMethod, r: Request) {
    match r
    case Get(_) => call == GET
    case Put(_, _, _) => call == PUT
    case Remove(_) => call == REMOVE
    case Stop => call == STOP
    case SetInvocationID(_, _) => call == SET_INVOCATION_ID
    case GetSessionStats => call == GET_SESSION_STATS
    case HealthCheck => call == HEALTH_CHECK
  }

  /** What a processed request reports is what its reply says: the call, how it ended, the bytes that
      went each way and the identifiers. A reply that could not be written counts as an error. */
  lemma ResultsSayWhatWasReplied(e: Endian, push: bool, st: State, r: Request, backend: Backend)
    ensures var result := Process(e, push, st.store, st.sink, r, backend).result;
            var reply := FrameOf(push, st, r, backend);
            if r.Stop? || r.GetSessionStats? || Fits(st.sink, EncodeReply(e, reply)) then
              && Names(result.call, r)
              && (result.outcome == ERROR <==> reply.Failure?)
              && (result.outcome == MISS <==> r.Get? && reply.Noop?)
              && (result.outcome == PUSH_DISABLED <==> r.Put? && reply.Noop?)
              && result.data == (if reply.Value? then reply.data else [])
              && result.downloadBytes == |result.data|
              && result.uploadBytes == (if r.Put? && push then |r.value| else 0)
              && result.parent == (if r.SetInvocationID? then r.parent else [])
              && result.child == (if r.SetInvocationID? then r.child else [])
            else result.outcome == ERROR
  {
    hide EncodeReply;
  }

  /** Whatever bytes arrive, whatever the backend does and wherever the socket breaks, the client
      receives exactly the reply frames of the exchanges in order, cut where the socket broke;
      and nothing follows an error frame or the answer to a stop. */
  lemma {:induction false} OutputIsFrames(e: Endian, push: bool, st: State, s: seq<byte>, weather: nat -> Weather,
      i: nat)
    ensures var xs := Exchanges(e, push, st, s, weather, i);
            && Serve(e, push, st, s, weather, i).sink == Push(st.sink, EncodeReplies(e, Replies(xs)))
            && forall k :: 0 <= k < |xs| - 1 ==> !xs[k].reply.Failure? && !xs[k].request.Stop?
    decreases |s|
  {
    hide ServeOne, EncodeReply, FrameOf, DecodeRequest;
    match DecodeRequest(e, s) {
      case Ended =>
        assert st.sink.out + [] == st.sink.out;
      case Got(r, rest) =>
        if weather(i).cancelled {
          assert st.sink.out + [] == st.sink.out;
        } else {
          var backend := weather(i).backend;
          ServeOnePushesFrame(e, push, st, r, backend);
          var n := ServeOne(e, push, st, r, backend);
          var x := Exchange(r, FrameOf(push, st, r, backend));
          if n.alive {
            OutputIsFrames(e, push, n.state, rest, weather, i + 1);
            OneMoreFrame(e, st.sink, x, Exchanges(e, push, n.state, rest, weather, i + 1));
          } else {
            OneMoreFrame(e, st.sink, x, []);
            assert n.state.sink.out + [] == n.state.sink.out;
          }
        }
    }
  }

  lemma OneMoreFrame(e: Endian, k: Sink, x: Exchange, more: seq<Exchange>)
    ensures Push(Push(k, EncodeReply(e, x.reply)), EncodeReplies(e, Replies(more)))
            == Push(k, EncodeReplies(e, Replies([x] + more)))
  {
    assert Replies([x] + more) == [x.reply] + Replies(more);
    PushPieces(k, EncodeReply(e, x.reply), EncodeReplies(e, Replies(more)));
  }

  // ----- what a Get returns ------------------------------------------------------------------

  /** Whether the i-th request changed what `key` holds, and to what. */
  function StoresAt(push: bool, r: Request, backend: Backend, key: seq<byte>): Option<seq<byte>> {
    if push && r.Put? && r.key == key && r.value != [] && (backend.Works? || (backend.Fails? && backend.stored))
    then Some(r.value) else None
  }

  /** The last value stored under `key` by `rs`, or `before` if none was. */
  function LastStored(push: bool, rs: seq<Request>, weather: nat -> Weather, i: nat, key: seq<byte>,
      before: Option<seq<byte>>): Option<seq<byte>>
    decreases |rs|
  {
    if rs == [] then before
    else
      var now := StoresAt(push, rs[0], weather(i).backend, key);
      LastStored(push, rs[1..], weather, i + 1, key, if now.Some? then now else before)
  }

  lemma RunMapUnfold(a: Machine, push: bool, r: Request, rs: seq<Request>, weather: nat -> Weather, i: nat)
    requires !a.stopped
    ensures var tail := RunMap(MapStep(a, push, r, weather(i).backend), push, rs, weather, i + 1);
            RunMap(a, push, [r] + rs, weather, i)
                == MapRun(tail.end, [MapReply(a, push, r, weather(i).backend)] + tail.replies)
  {
    assert ([r] + rs)[1..] == rs;
  }

  lemma StepStores(a: Machine, push: bool, r: Request, backend: Backend, key: seq<byte>)
    ensures var now := StoresAt(push, r, backend, key);
            Lookup(MapStep(a, push, r, backend).m, key) == if now.Some? then now else Lookup(a.m, key)
  {}

  lemma {:induction false} GetAfter(a: Machine, push: bool, rs: seq<Request>, weather: nat -> Weather, i: nat,
      key: seq<byte>)
    requires !RunMap(a, push, rs + [Get(key)], weather, i).end.stopped
    ensures var run := RunMap(a, push, rs + [Get(key)], weather, i);
            var last := LastStored(push, rs, weather, i, key, Lookup(a.m, key));
            |run.replies| == |rs| + 1 && run.replies[|rs|] == if last.Some? then Value(last.value) else Noop
    decreases |rs|
  {
    if rs == [] {
      assert rs + [Get(key)] == [Get(key)];
    } else if a.stopped {
    } else {
      var backend := weather(i).backend;
      assert rs + [Get(key)] == [rs[0]] + (rs[1..] + [Get(key)]);
      RunMapUnfold(a, push, rs[0], rs[1..] + [Get(key)], weather, i);
      StepStores(a, push, rs[0], backend, key);
      GetAfter(MapStep(a, push, rs[0], backend), push, rs[1..], weather, i + 1, key);
    }
  }

  /** Starting from an empty cache, after any requests that left the connection open, a Get answers
      with the last non-empty value a Put stored under that key, and with a miss if none did. */
  lemma GetReturnsLastStored(push: bool, session: Session, rs: seq<Request>, weather: nat -> Weather, key: seq<byte>)
    requires !RunMap(Machine(map[], session, false), push, rs + [Get(key)], weather, 0).end.stopped
    ensures var run := RunMap(Machine(map[], session, false), push, rs + [Get(key)], weather, 0);
            var last := LastStored(push, rs, weather, 0, key, None);
            |run.replies| == |rs| + 1 && run.replies[|rs|] == if last.Some? then Value(last.value) else Noop
  {
    GetAfter(Machine(map[], session, false), push, rs, weather, 0, key);
  }

  /** A Put answered with success is what a following Get of the same key returns, exactly when
      the value is not empty or was there already and the backend did not keep an older value. */
  lemma PutThenGet(a: Machine, key: seq<byte>, flags: byte, value: seq<byte>, first: Backend)
    requires !a.stopped && !first.Fails?
    ensures var a' := MapStep(a, true, Put(key, flags, value), first);
            && MapReply(a, true, Put(key, flags, value), first) == Ack
            && (MapReply(a', true, Get(key), Works) == Value(value)
                <==> (value != [] && first.Works?) || Lookup(a.m, key) == Some(value))
  {}

  /** With pushing disabled the map never changes, whatever is sent. */
  lemma {:induction false} PushDisabledKeepsMap(a: Machine, rs: seq<Request>, weather: nat -> Weather, i: nat)
    ensures RunMap(a, false, rs, weather, i).end.m == a.m
    decreases |rs|
  {
    if rs != [] && !a.stopped {
      PushDisabledKeepsMap(MapStep(a, false, rs[0], weather(i).backend), rs[1..], weather, i + 1);
    }
  }

  /** Get bytes are credited if and only if the whole value frame went out. */
  lemma DownloadCreditedIffDelivered(e: Endian, push: bool, st: State, key: seq<byte>, backend: Backend)
    requires !backend.Fails? && KeyToPath(key) in st.store
    ensures var data := st.store[KeyToPath(key)];
            var n := ServeOne(e, push, st, Get(key), backend);
            && n.state.session.downloaded == st.session.downloaded + (if n.alive then |data| else 0)
            && (n.alive <==> n.state.sink.out == st.sink.out + EncodeReply(e, Value(data)))
            && n.state.session.uploaded == st.session.uploaded
  {}

  /** Put bytes are credited if and only if the upload succeeded and the whole OK went out. */
  lemma UploadCreditedIffAcknowledged(e: Endian, st: State, key: seq<byte>, flags: byte, value: seq<byte>,
      backend: Backend)
    ensures var n := ServeOne(e, true, st, Put(key, flags, value), backend);
            && n.state.session.uploaded == st.session.uploaded + (if n.alive then |value| else 0)
            && n.state.session.downloaded == st.session.downloaded
            && (n.alive <==> !backend.Fails? && n.state.sink.out == st.sink.out + EncodeReply(e, Ack))
  {}

  /** The identifiers are switched, and both counters reset, if and only if the whole OK went out and
      the child is a new one. */
  lemma SwitchedIffAcknowledged(e: Endian, push: bool, st: State, parent: seq<byte>, child: seq<byte>,
      backend: Backend)
    ensures var n := ServeOne(e, push, st, SetInvocationID(parent, child), backend);
            && n.state.session == (if n.alive && child != st.session.invocation then Session(0, 0, child, parent)
                                   else st.session)
            && (n.alive <==> n.state.sink.out == st.sink.out + EncodeReply(e, Ack))
  {}

  /** Nothing is served on a connection whose greeting is not taken whole, or while the cache's
      capabilities are unknown; nor from the request on at which the helper is shut down. */
  lemma NothingServedUnless(e: Endian, push: bool, capable: bool, st: State, s: seq<byte>, weather: nat -> Weather,
      i: nat)
    ensures !capable || !Fits(st.sink, GREETING) ==>
              Connection(e, push, capable, st, s, weather) == st.(sink := Push(st.sink, GREETING))
    ensures weather(i).cancelled ==> Serve(e, push, st, s, weather, i) == st
  {
    hide ServeOne, DecodeRequest;
  }

  // ----- both ends together ------------------------------------------------------------------

  /** A whole session: the client sends any requests, reads the greeting and then one reply per
      request with the reader for that request, and gets exactly the map's replies. The counters
      of every session-stats reply must fit in 64 bits. */
  lemma SessionReadsBack(e: Endian, push: bool, st: State, a: Machine, rs: seq<Request>, weather: nat -> Weather)
    requires st.sink == Sink([], None) && Represents(st.store, a.m) && st.session == a.session && !a.stopped
    requires forall r :: r in rs ==> Encodable(r)
    requires forall k: nat :: !weather(k).cancelled
    requires var replies := RunMap(a, push, AllOnTheWire(rs), weather, 0).replies;
             forall k :: 0 <= k < |replies| ==> Answers(AllOnTheWire(rs)[k], replies[k])
    ensures var out := Connection(e, push, true, st, EncodeRequests(e, rs), weather).sink.out;
            var replies := RunMap(a, push, AllOnTheWire(rs), weather, 0).replies;
            && DecodeGreeting(out).Got?
            && DecodeReplies(e, AllOnTheWire(rs)[..|replies|], DecodeGreeting(out).rest)
               == Got(AllRepliesOnTheWire(replies), [])
  {
    hide Serve, RunMap, EncodeRequests, EncodeReply, DecodeReplies, Answers, Represents;
    var replies := RunMap(a, push, AllOnTheWire(rs), weather, 0).replies;
    ServeRefinesMap(e, push, st.(sink := Push(st.sink, GREETING)), a, rs, weather, 0);
    var out := Connection(e, push, true, st, EncodeRequests(e, rs), weather).sink.out;
    assert out == GREETING + EncodeReplies(e, replies);
    GreetingRoundTrip(EncodeReplies(e, replies));
    RepliesRoundTrip(e, AllOnTheWire(rs)[..|replies|], replies, []);
    assert EncodeReplies(e, replies) + [] == EncodeReplies(e, replies);
  }

  /** A client that connects, sends one request and reads the answer gets the greeting and then
      exactly the map's reply (identifiers and messages cut to 255 bytes), with nothing left over.
      This is the exchange behind SendInvocationID, SendGetSessionStats, SendStop and
      SendHealthCheck. */
  lemma ClientExchange(e: Endian, push: bool, st: State, a: Machine, r: Request, weather: nat -> Weather)
    requires st.sink == Sink([], None) && Represents(st.store, a.m) && st.session == a.session && !a.stopped
    requires Encodable(r) && forall k: nat :: !weather(k).cancelled
    requires forall k :: k in a.m ==> |a.m[k]| < TWO_64
    requires -TWO_63 <= a.session.downloaded < TWO_63 && -TWO_63 <= a.session.uploaded < TWO_63
    ensures var out := Connection(e, push, true, st, EncodeRequest(e, r), weather).sink.out;
            var reply := MapReply(a, push, OnTheWire(r), weather(0).backend);
            && DecodeGreeting(out).Got?
            && DecodeReply(e, OnTheWire(r), DecodeGreeting(out).rest) == Got(ReplyOnTheWire(reply), [])
  {
    var greeted := st.(sink := Push(st.sink, GREETING));
    var rs := [r];
    assert EncodeRequests(e, rs) == EncodeRequest(e, r) by {
      assert EncodeRequests(e, rs[1..]) == [];
    }
    ServeRefinesMap(e, push, greeted, a, rs, weather, 0);
    var w := OnTheWire(r);
    assert AllOnTheWire(rs) == [w];
    var reply := MapReply(a, push, w, weather(0).backend);
    var run := RunMap(a, push, [w], weather, 0);
    assert run.replies == [reply];
    assert EncodeReplies(e, [reply]) == EncodeReply(e, reply);
    var out := Connection(e, push, true, st, EncodeRequest(e, r), weather).sink.out;
    assert out == GREETING + EncodeReply(e, reply);
    GreetingRoundTrip(EncodeReply(e, reply));
    MapReplyAnswers(a, push, w, weather(0).backend);
    ReplyRoundTrip(e, w, reply, []);
    assert EncodeReply(e, reply) + [] == EncodeReply(e, reply);
  }
}
