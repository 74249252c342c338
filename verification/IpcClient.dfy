/** The client half of the helper exchanges: read the greeting, send one request, read its answer. */
module IpcClient {
  import opened Bytes
  import opened Framing
  import opened IpcConnection
  import opened IpcServer

  /** What a Send call returns: the reply it was waiting for, the server's own error message, or a
      failure of the exchange. */
  datatype Answer = Answered(reply: Reply) | ServerError(msg: seq<byte>) | Failed

  /** How a client that sent `request` understands the bytes the server sends. A Noop is never an
      acceptable answer here; an error message that is cut short reads as empty. */
  function Understand(e: Endian, request: Request, s: seq<byte>): Answer {
    match DecodeGreeting(s)
    case Ended => Failed
    case Got(_, s1) =>
      if s1 != [] && s1[0] == RESPONSE_ERR && DecodeKey(s1[1..]).Ended? then ServerError([])
      else
        match DecodeReply(e, request, s1)
        case Ended => Failed
        case Got(reply, _) =>
          match reply
          case Failure(msg) => ServerError(msg)
          case Noop => Failed
          case _ => Answered(reply)
  }

  method WriteRequest(conn: Conn, request: Request) returns (ok: bool)
    requires request.Stop? || request.GetSessionStats? || request.HealthCheck? || request.SetInvocationID?
    modifies conn`out, conn`room
    ensures conn.Socket() == Push(old(conn.Socket()), EncodeRequest(conn.endian, request))
    ensures ok == Fits(old(conn.Socket()), EncodeRequest(conn.endian, request))
  {
    match request {
      case Stop => ok := conn.WriteByte(REQUEST_STOP);
      case GetSessionStats => ok := conn.WriteByte(REQUEST_GET_SESSION_STATS);
      case HealthCheck => ok := conn.WriteByte(REQUEST_HEALTH_CHECK);
      case SetInvocationID(parent, child) =>
        ghost var k := conn.Socket();
        ghost var a, b := EncodeMsg(parent), EncodeMsg(child);
        assert EncodeRequest(conn.endian, request) == [REQUEST_SET_INVOCATION_ID] + a + b;
        PushPieces(k, [REQUEST_SET_INVOCATION_ID], a);
        PushPieces(k, [REQUEST_SET_INVOCATION_ID] + a, b);
        ok := conn.WriteByte(REQUEST_SET_INVOCATION_ID);
        if ok { ok := conn.WriteMsg(parent); } else { SpentSocket(k, [REQUEST_SET_INVOCATION_ID], a); }
        if ok { ok := conn.WriteMsg(child); } else { SpentSocket(k, [REQUEST_SET_INVOCATION_ID] + a, b); }
    }
  }

  method ReadSessionStats(conn: Conn) returns (r: Option<Reply>)
    modifies conn`pending
    ensures match DecodeStats(conn.endian, old(conn.Unread()))
            case Got(stats, rest) => r == Some(stats) && conn.Unread() == rest
            case Ended => r == None
  {
    ghost var all := conn.Unread();
    var dl := conn.ReadFull(8);
    if dl.None? {
      return None;
    }
    var ul := conn.ReadFull(8);
    if ul.None? {
      return None;
    }
    assert all[8..][..8] == all[8..16] && all[8..][8..] == all[16..];
    var ids := conn.ReadSetInvocationID();
    if ids.None? {
      return None;
    }
    r := Some(Stats(DecodeI64(conn.endian, dl.value), DecodeI64(conn.endian, ul.value), ids.value.0, ids.value.1));
  }

  /** SendStop, SendHealthCheck, SendInvocationID and SendGetSessionStats, which differ only in the
      request and in whether a statistics body follows the OK byte. */
  method Send(conn: Conn, request: Request) returns (answer: Answer)
    requires request.Stop? || request.GetSessionStats? || request.HealthCheck? || request.SetInvocationID?
    modifies conn
    ensures answer == if Fits(old(conn.Socket()), EncodeRequest(conn.endian, request))
                      then Understand(conn.endian, request, old(conn.Unread())) else Failed
  {
    hide EncodeRequest, Fits, DecodeGreeting, DecodeKey, Push;
    var greeted := conn.ReadGreeting();
    if !greeted {
      return Failed;
    }
    var sent := WriteRequest(conn, request);
    if !sent {
      return Failed;
    }
    var kind := conn.ReadByte();
    if kind.None? {
      return Failed;
    }
    if kind.value == RESPONSE_OK {
      if request.GetSessionStats? {
        var stats := ReadSessionStats(conn);
        answer := if stats.Some? then Answered(stats.value) else Failed;
      } else {
        answer := Answered(Ack);
      }
    } else if kind.value == RESPONSE_ERR {
      var msg := conn.ReadKey();
      answer := ServerError(if msg.Some? then msg.value else []);
    } else {
      answer := Failed;
    }
  }

  /** Over an unbroken connection to an idle server, SendGetSessionStats returns the server's own
      counters and identifiers, each identifier cut to 255 bytes; SendInvocationID, SendStop and
      SendHealthCheck succeed. */
  lemma SendReachesServer(e: Endian, push: bool, st: State, a: Machine, request: Request, weather: nat -> Weather)
    requires request.Stop? || request.GetSessionStats? || request.HealthCheck? || request.SetInvocationID?
    requires st.sink == Sink([], None) && Represents(st.store, a.m) && st.session == a.session && !a.stopped
    requires forall k: nat :: !weather(k).cancelled
    requires forall k :: k in a.m ==> |a.m[k]| < TWO_64
    requires -TWO_63 <= a.session.downloaded < TWO_63 && -TWO_63 <= a.session.uploaded < TWO_63
    ensures var out := Connection(e, push, true, st, EncodeRequest(e, request), weather).sink.out;
            Understand(e, request, out)
            == Answered(if request.GetSessionStats?
                        then Stats(st.session.downloaded, st.session.uploaded, Cut(st.session.invocation),
                            Cut(st.session.parent))
                        else Ack)
  {
    ClientExchange(e, push, st, a, request, weather);
    var out := Connection(e, push, true, st, EncodeRequest(e, request), weather).sink.out;
    var s1 := DecodeGreeting(out).rest;
    assert DecodeReply(e, request, s1) == DecodeReply(e, OnTheWire(request), s1);
  }
}
