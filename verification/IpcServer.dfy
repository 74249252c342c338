/** The server side of a storage-helper connection as it runs: a socket that delivers its bytes in
    arbitrary fragments and may break while written to, the request processor, and the
    connection loop. Every method is tied to the functions of IpcConnection and Framing. */
module IpcServer {
  import opened Bytes
  import opened Framing
  import opened IpcConnection

  class Conn {
    const endian: Endian
    var pending: seq<seq<byte>>   // fragments still to be delivered; then the peer's side is closed
    var out: seq<byte>
    var room: Option<nat>

    constructor (endian: Endian, fragments: seq<seq<byte>>, room: Option<nat>)
      ensures this.endian == endian && Unread() == Concat(fragments) && Socket() == Sink([], room)
    {
      this.endian := endian;
      this.pending := fragments;
      this.out := [];
      this.room := room;
    }

    ghost function Unread(): seq<byte>
      reads this
    {
      Concat(pending)
    }

    ghost function Socket(): Sink
      reads this
    {
      Sink(out, room)
    }

    /** One read of the socket: at most `max` bytes, never past the end of a fragment. */
    method Read(max: nat) returns (chunk: seq<byte>, eof: bool)
      modifies this`pending
      ensures eof ==> chunk == [] && old(pending) == [] && pending == []
      ensures !eof ==> old(pending) != [] && |chunk| <= max
      ensures chunk + Unread() == old(Unread())
      ensures !eof && max > 0 ==> |pending| < |old(pending)| || (|pending| == |old(pending)| && chunk != [])
    {
      if pending == [] {
        return [], true;
      }
      var first := pending[0];
      if |first| <= max {
        chunk, eof := first, false;
        pending := pending[1..];
      } else {
        chunk, eof := first[..max], false;
        assert first == first[..max] + first[max..];
        pending := [first[max..]] + pending[1..];
        assert pending[1..] == old(pending)[1..];
        assert chunk + (first[max..] + Concat(old(pending)[1..])) == first + Concat(old(pending)[1..]);
      }
    }

    /** Exactly `n` bytes however they are fragmented, or nothing and an exhausted stream. */
    method ReadFull(n: nat) returns (r: Option<seq<byte>>)
      modifies this`pending
      ensures match ReadN(old(Unread()), n)
              case Got(value, rest) => r == Some(value) && Unread() == rest
              case Ended => r == None && Unread() == []
    {
      var buf: seq<byte> := [];
      while |buf| < n
        invariant |buf| <= n
        invariant buf + Unread() == old(Unread())
        decreases |pending|, n - |buf|
      {
        var chunk, eof := Read(n - |buf|);
        if eof {
          assert Unread() == [];
          return None;
        }
        assert (buf + chunk) + Unread() == buf + (chunk + Unread());
        buf := buf + chunk;
      }
      assert old(Unread())[..n] == buf && old(Unread())[n..] == Unread();
      r := Some(buf);
    }

    method ReadByte() returns (r: Option<byte>)
      modifies this`pending
      ensures match DecodeByte(old(Unread()))
              case Got(b, rest) => r == Some(b) && Unread() == rest
              case Ended => r == None && Unread() == []
    {
      var one := ReadFull(1);
      r := if one.Some? then Some(one.value[0]) else None;
    }

    /** `ReadKey` and `ReadMsg`: a length byte, then that many bytes. */
    method ReadKey() returns (r: Option<seq<byte>>)
      modifies this`pending
      ensures match DecodeKey(old(Unread()))
              case Got(key, rest) => r == Some(key) && Unread() == rest
              case Ended => r == None
    {
      var n := ReadByte();
      if n.None? {
        return None;
      }
      r := ReadFull(n.value);
    }

    method ReadValue() returns (r: Option<seq<byte>>)
      modifies this`pending
      ensures match DecodeValue(endian, old(Unread()))
              case Got(value, rest) => r == Some(value) && Unread() == rest
              case Ended => r == None
    {
      var header := ReadFull(8);
      if header.None? {
        return None;
      }
      r := ReadFull(DecodeU64(endian, header.value));
    }

    method ReadSetInvocationID() returns (r: Option<(seq<byte>, seq<byte>)>)
      modifies this`pending
      ensures match DecodeSetInvocationID(old(Unread()))
              case Got(ids, rest) => r == Some(ids) && Unread() == rest
              case Ended => r == None
    {
      var parent := ReadKey();
      if parent.None? {
        return None;
      }
      var child := ReadKey();
      if child.None? {
        return None;
      }
      r := Some((parent.value, child.value));
    }

    /** Version, capability count, capabilities one by one. */
    method ReadGreeting() returns (ok: bool)
      modifies this`pending
      ensures match DecodeGreeting(old(Unread()))
              case Got(_, rest) => ok && Unread() == rest
              case Ended => !ok
    {
      ghost var all := Unread();
      var version := ReadByte();
      if version.None? || version.value != PROTOCOL_VERSION {
        return false;
      }
      var count := ReadByte();
      if count.None? {
        return false;
      }
      var i: int := 0;
      while i < count.value
        invariant 0 <= i <= count.value && |all| >= 2 + i
        invariant Unread() == all[2 + i..]
      {
        var cap := ReadByte();
        if cap.None? {
          return false;
        }
        assert all[2 + i..][1..] == all[2 + (i + 1)..];
        i := i + 1;
      }
      assert all[2..][count.value..] == all[2 + count.value..];
      ok := true;
    }

    method Write(p: seq<byte>) returns (ok: bool)
      modifies this`out, this`room
      ensures Socket() == Push(old(Socket()), p) && ok == Fits(old(Socket()), p)
    {
      if room.None? {
        out, ok := out + p, true;
      } else if |p| <= room.value {
        out, room, ok := out + p, Some(room.value - |p|), true;
      } else {
        out, room, ok := out + p[..room.value], Some(0), false;
      }
    }

    method WriteByte(b: byte) returns (ok: bool)
      modifies this`out, this`room
      ensures Socket() == Push(old(Socket()), [b]) && ok == Fits(old(Socket()), [b])
    {
      ok := Write([b]);
    }

    method WriteGreeting() returns (ok: bool)
      modifies this`out, this`room
      ensures Socket() == Push(old(Socket()), GREETING) && ok == Fits(old(Socket()), GREETING)
    {
      ghost var k := Socket();
      PushPieces(k, [PROTOCOL_VERSION], [1]);
      PushPieces(k, [PROTOCOL_VERSION, 1], [CAP0]);
      assert [PROTOCOL_VERSION] + [1] == [PROTOCOL_VERSION, 1];
      assert [PROTOCOL_VERSION, 1] + [CAP0] == GREETING;
      var caps: seq<byte> := [CAP0];
      ok := WriteByte(PROTOCOL_VERSION);
      if !ok {
        PushPieces(k, [PROTOCOL_VERSION], [1, CAP0]);
        assert [PROTOCOL_VERSION] + [1, CAP0] == GREETING;
        SpentSocket(k, [PROTOCOL_VERSION], [1, CAP0]);
        return;
      }
      ok := WriteByte(|caps|);
      if !ok {
        SpentSocket(k, [PROTOCOL_VERSION, 1], [CAP0]);
        return;
      }
      var i := 0;
      while i < |caps|
        invariant 0 <= i <= |caps|
        invariant Socket() == Push(k, [PROTOCOL_VERSION, 1] + caps[..i]) && Fits(k, [PROTOCOL_VERSION, 1] + caps[..i])
      {
        assert caps[..i] == [] && caps[..i + 1] == [CAP0];
        ok := WriteByte(caps[i]);
        if !ok {
          return;
        }
        i := i + 1;
      }
    }

    /** `WriteMsg`: the string's bytes, cut to 255, behind their length. */
    method WriteMsg(msg: seq<byte>) returns (ok: bool)
      modifies this`out, this`room
      ensures Socket() == Push(old(Socket()), EncodeMsg(msg)) && ok == Fits(old(Socket()), EncodeMsg(msg))
    {
      var m := if |msg| > MAX_MSG then msg[..MAX_MSG] else msg;
      PushPieces(Socket(), [|m|], m);
      ok := WriteByte(|m|);
      if !ok {
        SpentSocket(old(Socket()), [|m|], m);
        return;
      }
      ok := Write(m);
    }

    method WriteValue(value: seq<byte>) returns (ok: bool)
      modifies this`out, this`room
      ensures Socket() == Push(old(Socket()), EncodeValue(endian, value))
              && ok == Fits(old(Socket()), EncodeValue(endian, value))
    {
      var header := EncodeU64(endian, |value|);
      PushPieces(Socket(), header, value);
      ok := Write(header);
      if !ok {
        SpentSocket(old(Socket()), header, value);
        return;
      }
      ok := Write(value);
    }

    method WriteErr(msg: seq<byte>) returns (ok: bool)
      modifies this`out, this`room
      ensures Socket() == Push(old(Socket()), EncodeReply(endian, Failure(msg)))
      ensures ok == Fits(old(Socket()), EncodeReply(endian, Failure(msg)))
    {
      PushPieces(Socket(), [RESPONSE_ERR], EncodeMsg(msg));
      ok := WriteByte(RESPONSE_ERR);
      if !ok {
        SpentSocket(old(Socket()), [RESPONSE_ERR], EncodeMsg(msg));
        return;
      }
      ok := WriteMsg(msg);
    }

    method WriteSessionStats(dl: int, ul: int, invocation: seq<byte>, parent: seq<byte>) returns (ok: bool)
      modifies this`out, this`room
      ensures Socket() == Push(old(Socket()), EncodeReply(endian, Stats(dl, ul, invocation, parent)))
      ensures ok == Fits(old(Socket()), EncodeReply(endian, Stats(dl, ul, invocation, parent)))
    {
      ghost var k := Socket();
      var d, u := EncodeI64(endian, dl), EncodeI64(endian, ul);
      ghost var a, b := EncodeMsg(invocation), EncodeMsg(parent);
      assert [RESPONSE_OK] + EncodeStats(endian, dl, ul, invocation, parent) == [RESPONSE_OK] + d + u + a + b;
      PushPieces(k, [RESPONSE_OK], d);
      PushPieces(k, [RESPONSE_OK] + d, u);
      PushPieces(k, [RESPONSE_OK] + d + u, a);
      PushPieces(k, [RESPONSE_OK] + d + u + a, b);
      ok := WriteByte(RESPONSE_OK);
      if ok { ok := Write(d); } else { SpentSocket(k, [RESPONSE_OK], d); }
      if ok { ok := Write(u); } else { SpentSocket(k, [RESPONSE_OK] + d, u); }
      if ok { ok := WriteMsg(invocation); } else { SpentSocket(k, [RESPONSE_OK] + d + u, a); }
      if ok { ok := WriteMsg(parent); } else { SpentSocket(k, [RESPONSE_OK] + d + u + a, b); }
    }
  }

  lemma SpentSocket(k: Sink, a: seq<byte>, b: seq<byte>)
    requires !Fits(k, a)
    ensures Push(k, a + b) == Push(k, a) && !Fits(k, a + b)
  {
    assert (a + b)[..k.room.value] == a[..k.room.value];
  }

  /** The request processor with the cache behind it and the session state of the server. */
  class Helper {
    const pushEnabled: bool
    var store: Store
    var downloadBytes: int
    var uploadBytes: int
    var activeInvocationID: seq<byte>
    var activeParentID: seq<byte>

    constructor (pushEnabled: bool, store: Store, initialInvocationID: seq<byte>)
      ensures this.pushEnabled == pushEnabled && this.store == store
              && Active() == Session(0, 0, initialInvocationID, [])
    {
      this.pushEnabled := pushEnabled;
      this.store := store;
      downloadBytes, uploadBytes := 0, 0;
      activeInvocationID, activeParentID := initialInvocationID, [];
    }

    ghost function Active(): Session
      reads this
    {
      Session(downloadBytes, uploadBytes, activeInvocationID, activeParentID)
    }

    ghost function Now(conn: Conn): State
      reads this, conn
    {
      State(store, Active(), conn.Socket())
    }

    method NotifyClient(conn: Conn, reply: Reply, result: ProcessResult) returns (r: ProcessResult)
      requires match reply
               case Failure(_) => result.outcome == ERROR
               case Noop => result.outcome == MISS || result.outcome == PUSH_DISABLED
               case Ack => result.outcome == OK && result.call != GET
               case Value(data) => result.outcome == OK && result.call == GET && result.data == data
               case Stats(_, _, _, _) => false
      modifies conn`out, conn`room
      ensures Processed(store, conn.Socket(), r) == Notify(conn.endian, store, old(conn.Socket()), reply, result)
    {
      var ok := true;
      match result.outcome {
        case ERROR =>
          ok := conn.WriteErr(reply.msg);
        case MISS =>
          ok := conn.WriteByte(RESPONSE_NOOP);
        case PUSH_DISABLED =>
          ok := conn.WriteByte(RESPONSE_NOOP);
        case OK =>
          if result.call == GET {
            PushPieces(conn.Socket(), [RESPONSE_OK], EncodeValue(conn.endian, result.data));
          }
          ok := conn.WriteByte(RESPONSE_OK);
          if result.call == GET {
            if ok {
              ok := conn.WriteValue(result.data);
            } else {
              SpentSocket(old(conn.Socket()), [RESPONSE_OK], EncodeValue(conn.endian, result.data));
            }
          }
      }
      r := if ok then result else result.(outcome := ERROR);
    }

    method HandleGet(conn: Conn, backend: Backend, key: seq<byte>) returns (r: ProcessResult)
      modifies conn`out, conn`room
      ensures Processed(store, conn.Socket(), r)
              == Process(conn.endian, pushEnabled, store, old(conn.Socket()), Get(key), backend)
    {
      var path := KeyToPath(key);
      if backend.Fails? {
        r := NotifyClient(conn, Failure(backend.msg), Plain(ERROR, GET));
      } else if path !in store {
        r := NotifyClient(conn, Noop, Plain(MISS, GET));
      } else {
        var data := store[path];
        r := NotifyClient(conn, Value(data), Plain(OK, GET).(data := data, downloadBytes := |data|));
      }
    }

    method HandlePut(conn: Conn, backend: Backend, key: seq<byte>, flags: byte, value: seq<byte>)
        returns (r: ProcessResult)
      modifies conn`out, conn`room, this`store
      ensures Processed(store, conn.Socket(), r)
           == Process(conn.endian, pushEnabled, old(store), old(conn.Socket()), Put(key, flags, value), backend)
    {
      if !pushEnabled {
        r := NotifyClient(conn, Noop, Plain(PUSH_DISABLED, PUT));
        return;
      }
      var path := KeyToPath(key);
      var sized := Plain(OK, PUT).(uploadBytes := |value|);
      if value != [] && !backend.Kept? && (backend.Fails? ==> backend.stored) {
        store := store[path := value];
      }
      if backend.Fails? {
        r := NotifyClient(conn, Failure(backend.msg), sized.(outcome := ERROR));
      } else {
        r := NotifyClient(conn, Ack, sized);
      }
    }

    /** One request off the wire. `None` when it could not be read, is of an unknown type or the
        server is shutting down: nothing is answered then. */
    method ProcessRequest(conn: Conn, weather: Weather) returns (r: Option<ProcessResult>)
      modifies conn, this`store
      ensures match DecodeRequest(conn.endian, old(conn.Unread()))
              case Ended => r == None && store == old(store) && conn.Socket() == old(conn.Socket())
              case Got(request, rest) =>
                if weather.cancelled then
                  r == None && store == old(store) && conn.Socket() == old(conn.Socket())
                else
                  && r.Some? && conn.Unread() == rest
                  && Processed(store, conn.Socket(), r.value)
                     == Process(conn.endian, pushEnabled, old(store), old(conn.Socket()), request, weather.backend)
    {
      var kind := conn.ReadByte();
      if kind.None? || weather.cancelled {
        return None;
      }
      if kind.value == REQUEST_GET {
        var key := conn.ReadKey();
        if key.None? { return None; }
        var g := HandleGet(conn, weather.backend, key.value);
        r := Some(g);
      } else if kind.value == REQUEST_PUT {
        var key := conn.ReadKey();
        if key.None? { return None; }
        var flags := conn.ReadByte();
        if flags.None? { return None; }
        var value := conn.ReadValue();
        if value.None? { return None; }
        var p := HandlePut(conn, weather.backend, key.value, flags.value, value.value);
        r := Some(p);
      } else if kind.value == REQUEST_REMOVE {
        var key := conn.ReadKey();
        if key.None? { return None; }
        var d := NotifyClient(conn, Ack, Plain(OK, REMOVE));
        r := Some(d);
      } else if kind.value == REQUEST_STOP {
        r := Some(Plain(OK, STOP));
      } else if kind.value == REQUEST_SET_INVOCATION_ID {
        var ids := conn.ReadSetInvocationID();
        if ids.None? { return None; }
        var s := NotifyClient(conn, Ack, Plain(OK, SET_INVOCATION_ID).(parent := ids.value.0, child := ids.value.1));
        r := Some(s);
      } else if kind.value == REQUEST_GET_SESSION_STATS {
        r := Some(Plain(OK, GET_SESSION_STATS));
      } else if kind.value == REQUEST_HEALTH_CHECK {
        var h := NotifyClient(conn, Ack, Plain(OK, HEALTH_CHECK));
        r := Some(h);
      } else {
        r := None;
      }
    }

    /** `updateWithResult`, then what the loop itself does for the result. */
    method Settle(conn: Conn, result: ProcessResult) returns (alive: bool)
      modifies conn`out, conn`room, this`downloadBytes, this`uploadBytes, this`activeInvocationID, this`activeParentID
      ensures Served(Now(conn), alive)
           == Finish(conn.endian, old(Active()), Processed(old(store), old(conn.Socket()), result))
    {
      if result.outcome == OK {
        match result.call {
          case GET => downloadBytes := downloadBytes + result.downloadBytes;
          case PUT => uploadBytes := uploadBytes + result.uploadBytes;
          case _ =>
        }
      }
      if result.call == SET_INVOCATION_ID && result.outcome == OK {
        if result.child != activeInvocationID {
          downloadBytes, uploadBytes := 0, 0;
          activeInvocationID, activeParentID := result.child, result.parent;
        }
      }
      if result.call == GET_SESSION_STATS && result.outcome == OK {
        var _ := conn.WriteSessionStats(downloadBytes, uploadBytes, activeInvocationID, activeParentID);
      }
      if result.call == STOP && result.outcome == OK {
        var _ := conn.WriteByte(RESPONSE_OK);
        return false;
      }
      alive := result.outcome != ERROR;
    }

    method HandleConnection(conn: Conn, capable: bool, weather: nat -> Weather)
      modifies conn, this
      ensures Now(conn) == Connection(conn.endian, pushEnabled, capable, old(Now(conn)), old(conn.Unread()), weather)
    {
      var greeted := conn.WriteGreeting();
      if !greeted || !capable {
        return;
      }
      ghost var e := conn.endian;
      ghost var start, input := Now(conn), conn.Unread();
      var i: nat := 0;
      while true
        invariant Serve(e, pushEnabled, start, input, weather, 0)
                  == Serve(e, pushEnabled, Now(conn), conn.Unread(), weather, i)
        invariant conn.endian == e
        decreases |conn.Unread()|
      {
        var result := ProcessRequest(conn, weather(i));
        if result.None? {
          return;
        }
        var alive := Settle(conn, result.value);
        if !alive {
          return;
        }
        i := i + 1;
      }
    }
  }
}
