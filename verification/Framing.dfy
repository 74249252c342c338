/** The binary framing of the ccache storage-helper protocol. Every decoder takes the bytes that
    are still to be read and returns the value with the bytes left over, so "reading leaves
    exactly the remaining bytes" is part of each result. */
module Framing {
  import opened Bytes

  const PROTOCOL_VERSION: byte := 0x01
  const CAP0: byte := 0x00

  const REQUEST_GET: byte := 0x00
  const REQUEST_PUT: byte := 0x01
  const REQUEST_REMOVE: byte := 0x02
  const REQUEST_STOP: byte := 0x03
  const REQUEST_SET_INVOCATION_ID: byte := 0xB1
  const REQUEST_GET_SESSION_STATS: byte := 0xB2
  const REQUEST_HEALTH_CHECK: byte := 0xB3

  const RESPONSE_OK: byte := 0x00
  const RESPONSE_NOOP: byte := 0x01
  const RESPONSE_ERR: byte := 0x02

  const MAX_MSG: nat := 255
  const TWO_63: int := 0x8000_0000_0000_0000
  const TWO_64: int := 0x1_0000_0000_0000_0000

  /** The byte order of the machine: both ends of a Unix socket share it. */
  datatype Endian = Little | Big

  /** A decoded value and the unread rest, or the stream ended first. */
  datatype Read<+T> = Got(value: T, rest: seq<byte>) | Ended

  // ----- fixed-width integers ----------------------------------------------------------------

  function LittleBytes(n: nat, width: nat): (b: seq<byte>)
    ensures |b| == width
  {
    if width == 0 then [] else [n % 256] + LittleBytes(n / 256, width - 1)
  }

  function LittleValue(b: seq<byte>): nat {
    if b == [] then 0 else b[0] + 256 * LittleValue(b[1..])
  }

  function Pow256(k: nat): (p: nat)
    ensures p >= 1
  {
    if k == 0 then 1 else 256 * Pow256(k - 1)
  }

  function Reversed<T>(s: seq<T>): (r: seq<T>)
    ensures |r| == |s|
    ensures forall i :: 0 <= i < |s| ==> r[i] == s[|s| - 1 - i]
  {
    if s == [] then [] else Reversed(s[1..]) + [s[0]]
  }

  const U64_WIDTH: nat := 8

  function EncodeU64(e: Endian, n: nat): (b: seq<byte>)
    ensures |b| == 8
  {
    var b := LittleBytes(n, U64_WIDTH);
    if e.Little? then b else Reversed(b)
  }

  function DecodeU64(e: Endian, b: seq<byte>): nat
    requires |b| == 8
  {
    LittleValue(if e.Little? then b else Reversed(b))
  }

  /** Two's complement in 64 bits. */
  function EncodeI64(e: Endian, x: int): seq<byte> {
    EncodeU64(e, x % TWO_64)
  }

  function DecodeI64(e: Endian, b: seq<byte>): int
    requires |b| == 8
  {
    var n := DecodeU64(e, b);
    if n < TWO_63 then n else n - TWO_64
  }

  lemma {:induction false} LittleRoundTrip(n: nat, width: nat)
    requires n < Pow256(width)
    ensures LittleValue(LittleBytes(n, width)) == n
  {
    if width > 0 {
      LittleRoundTrip(n / 256, width - 1);
      assert LittleBytes(n, width)[1..] == LittleBytes(n / 256, width - 1);
    }
  }

  lemma U64RoundTrip(e: Endian, n: nat)
    requires n < TWO_64
    ensures DecodeU64(e, EncodeU64(e, n)) == n
  {
    assert Pow256(8) == TWO_64 by {
      assert Pow256(2) == 0x1_0000;
      assert Pow256(4) == 0x1_0000_0000;
      assert Pow256(6) == 0x1_0000_0000_0000;
    }
    LittleRoundTrip(n, 8);
    var b := LittleBytes(n, U64_WIDTH);
    assert Reversed(Reversed(b)) == b;
  }

  lemma I64RoundTrip(e: Endian, x: int)
    requires -TWO_63 <= x < TWO_63
    ensures DecodeI64(e, EncodeI64(e, x)) == x
  {
    U64RoundTrip(e, x % TWO_64);
  }

  // ----- frames ------------------------------------------------------------------------------

  function ReadN(s: seq<byte>, n: nat): Read<seq<byte>> {
    if n <= |s| then Got(s[..n], s[n..]) else Ended
  }

  function DecodeByte(s: seq<byte>): Read<byte> {
    if s == [] then Ended else Got(s[0], s[1..])
  }

  function EncodeKey(key: seq<byte>): seq<byte>
    requires |key| <= 255
  {
    [|key|] + key
  }

  function DecodeKey(s: seq<byte>): Read<seq<byte>> {
    if s == [] then Ended else ReadN(s[1..], s[0])
  }

  function EncodeValue(e: Endian, value: seq<byte>): seq<byte> {
    EncodeU64(e, |value|) + value
  }

  function DecodeValue(e: Endian, s: seq<byte>): Read<seq<byte>> {
    if |s| < 8 then Ended else ReadN(s[8..], DecodeU64(e, s[..8]))
  }

  /** Strings travel as their bytes, cut to 255. */
  function Cut(msg: seq<byte>): (m: seq<byte>)
    ensures |m| <= MAX_MSG
    ensures |msg| <= MAX_MSG ==> m == msg
  {
    if |msg| > MAX_MSG then msg[..MAX_MSG] else msg
  }

  function EncodeMsg(msg: seq<byte>): seq<byte> {
    EncodeKey(Cut(msg))
  }

  lemma KeyRoundTrip(key: seq<byte>, rest: seq<byte>)
    requires |key| <= 255
    ensures DecodeKey(EncodeKey(key) + rest) == Got(key, rest)
  {
    var s := EncodeKey(key) + rest;
    assert s[1..] == key + rest;
  }

  lemma ValueRoundTrip(e: Endian, value: seq<byte>, rest: seq<byte>)
    requires |value| < TWO_64
    ensures DecodeValue(e, EncodeValue(e, value) + rest) == Got(value, rest)
  {
    hide EncodeU64, DecodeU64;
    var s := EncodeValue(e, value) + rest;
    assert s[..8] == EncodeU64(e, |value|);
    assert s[8..] == value + rest;
    U64RoundTrip(e, |value|);
  }

  // ----- requests ----------------------------------------------------------------------------

  datatype Request =
    | Get(key: seq<byte>)
    | Put(key: seq<byte>, flags: byte, value: seq<byte>)
    | Remove(key: seq<byte>)
    | Stop
    | SetInvocationID(parent: seq<byte>, child: seq<byte>)
    | GetSessionStats
    | HealthCheck

  /** What a client can put on the wire: keys carry a one-byte length, values an eight-byte one. */
  predicate Encodable(r: Request) {
    match r
    case Get(key) => |key| <= 255
    case Put(key, _, value) => |key| <= 255 && |value| < TWO_64
    case Remove(key) => |key| <= 255
    case _ => true
  }

  /** The request as the server sees it: identifiers arrive cut to 255 bytes. */
  function OnTheWire(r: Request): Request {
    match r
    case SetInvocationID(parent, child) => SetInvocationID(Cut(parent), Cut(child))
    case _ => r
  }

  function EncodePut(e: Endian, key: seq<byte>, flags: byte, value: seq<byte>): seq<byte>
    requires |key| <= 255
  {
    EncodeKey(key) + [flags] + EncodeValue(e, value)
  }

  function EncodeRequest(e: Endian, r: Request): seq<byte>
    requires Encodable(r)
  {
    match r
    case Get(key) => [REQUEST_GET] + EncodeKey(key)
    case Put(key, flags, value) => [REQUEST_PUT] + EncodePut(e, key, flags, value)
    case Remove(key) => [REQUEST_REMOVE] + EncodeKey(key)
    case Stop => [REQUEST_STOP]
    case SetInvocationID(parent, child) => [REQUEST_SET_INVOCATION_ID] + (EncodeMsg(parent) + EncodeMsg(child))
    case GetSessionStats => [REQUEST_GET_SESSION_STATS]
    case HealthCheck => [REQUEST_HEALTH_CHECK]
  }

  function DecodePut(e: Endian, s: seq<byte>): Read<Request> {
    match DecodeKey(s)
    case Ended => Ended
    case Got(key, s1) =>
      match DecodeByte(s1)
      case Ended => Ended
      case Got(flags, s2) =>
        match DecodeValue(e, s2)
        case Ended => Ended
        case Got(value, s3) => Got(Put(key, flags, value), s3)
  }

  function DecodeSetInvocationID(s: seq<byte>): Read<(seq<byte>, seq<byte>)> {
    match DecodeKey(s)
    case Ended => Ended
    case Got(parent, s1) =>
      match DecodeKey(s1)
      case Ended => Ended
      case Got(child, s2) => Got((parent, child), s2)
  }

  /** One request; `Ended` also stands for a request type nobody knows, which the server treats
      the same way: it answers nothing and drops the connection. */
  function DecodeRequest(e: Endian, s: seq<byte>): (r: Read<Request>)
    ensures r.Got? ==> |r.rest| < |s|
  {
    if s == [] then Ended
    else if s[0] == REQUEST_GET then
      match DecodeKey(s[1..]) case Got(key, rest) => Got(Get(key), rest) case Ended => Ended
    else if s[0] == REQUEST_PUT then DecodePut(e, s[1..])
    else if s[0] == REQUEST_REMOVE then
      match DecodeKey(s[1..]) case Got(key, rest) => Got(Remove(key), rest) case Ended => Ended
    else if s[0] == REQUEST_STOP then Got(Stop, s[1..])
    else if s[0] == REQUEST_SET_INVOCATION_ID then
      match DecodeSetInvocationID(s[1..])
      case Got(ids, rest) => Got(SetInvocationID(ids.0, ids.1), rest)
      case Ended => Ended
    else if s[0] == REQUEST_GET_SESSION_STATS then Got(GetSessionStats, s[1..])
    else if s[0] == REQUEST_HEALTH_CHECK then Got(HealthCheck, s[1..])
    else Ended
  }

  /** The first byte of a frame says what follows it. */
  lemma FrameBody(kind: byte, body: seq<byte>, rest: seq<byte>)
    ensures ([kind] + body + rest)[0] == kind && ([kind] + body + rest)[1..] == body + rest
  {}

  lemma PutFrame(e: Endian, key: seq<byte>, flags: byte, frame: seq<byte>, value: seq<byte>, rest: seq<byte>)
    requires |key| <= 255
    requires DecodeValue(e, frame + rest) == Got(value, rest)
    ensures DecodePut(e, EncodeKey(key) + [flags] + frame + rest) == Got(Put(key, flags, value), rest)
  {
    var tail := [flags] + (frame + rest);
    assert EncodeKey(key) + [flags] + frame + rest == EncodeKey(key) + tail;
    KeyRoundTrip(key, tail);
    assert tail[1..] == frame + rest;
  }

  lemma PutRoundTrip(e: Endian, key: seq<byte>, flags: byte, value: seq<byte>, rest: seq<byte>)
    requires |key| <= 255 && |value| < TWO_64
    ensures DecodePut(e, EncodePut(e, key, flags, value) + rest) == Got(Put(key, flags, value), rest)
  {
    ValueRoundTrip(e, value, rest);
    PutFrame(e, key, flags, EncodeValue(e, value), value, rest);
  }

  lemma SetInvocationIDRoundTrip(parent: seq<byte>, child: seq<byte>, rest: seq<byte>)
    ensures DecodeSetInvocationID(EncodeMsg(parent) + EncodeMsg(child) + rest) == Got((Cut(parent), Cut(child)), rest)
  {
    assert EncodeMsg(parent) + EncodeMsg(child) + rest == EncodeMsg(parent) + (EncodeMsg(child) + rest);
    KeyRoundTrip(Cut(parent), EncodeMsg(child) + rest);
    KeyRoundTrip(Cut(child), rest);
  }

  lemma PutRequest(e: Endian, r: Request, rest: seq<byte>)
    requires r.Put? && Encodable(r)
    ensures DecodeRequest(e, EncodeRequest(e, r) + rest) == Got(r, rest)
  {
    FrameBody(REQUEST_PUT, EncodePut(e, r.key, r.flags, r.value), rest);
    PutRoundTrip(e, r.key, r.flags, r.value, rest);
  }

  lemma SetInvocationIDRequest(e: Endian, r: Request, rest: seq<byte>)
    requires r.SetInvocationID?
    ensures DecodeRequest(e, EncodeRequest(e, r) + rest) == Got(OnTheWire(r), rest)
  {
    FrameBody(REQUEST_SET_INVOCATION_ID, EncodeMsg(r.parent) + EncodeMsg(r.child), rest);
    SetInvocationIDRoundTrip(r.parent, r.child, rest);
  }

  lemma KeyRequest(e: Endian, r: Request, rest: seq<byte>)
    requires (r.Get? || r.Remove?) && Encodable(r)
    ensures DecodeRequest(e, EncodeRequest(e, r) + rest) == Got(r, rest)
  {
    FrameBody(if r.Get? then REQUEST_GET else REQUEST_REMOVE, EncodeKey(r.key), rest);
    KeyRoundTrip(r.key, rest);
  }

  lemma BareRequest(e: Endian, r: Request, rest: seq<byte>)
    requires r.Stop? || r.GetSessionStats? || r.HealthCheck?
    ensures DecodeRequest(e, EncodeRequest(e, r) + rest) == Got(r, rest)
  {
    assert (EncodeRequest(e, r) + rest)[1..] == rest;
  }

  lemma RequestRoundTrip(e: Endian, r: Request, rest: seq<byte>)
    requires Encodable(r)
    ensures DecodeRequest(e, EncodeRequest(e, r) + rest) == Got(OnTheWire(r), rest)
  {
    match r {
      case Put(_, _, _) => PutRequest(e, r, rest);
      case SetInvocationID(_, _) => SetInvocationIDRequest(e, r, rest);
      case Get(_) => KeyRequest(e, r, rest);
      case Remove(_) => KeyRequest(e, r, rest);
      case _ => BareRequest(e, r, rest);
    }
  }

  function EncodeRequests(e: Endian, rs: seq<Request>): seq<byte>
    requires forall r :: r in rs ==> Encodable(r)
  {
    if rs == [] then [] else EncodeRequest(e, rs[0]) + EncodeRequests(e, rs[1..])
  }

  /** Reads `count` requests one after the other. */
  function DecodeRequests(e: Endian, s: seq<byte>, count: nat): Read<seq<Request>> {
    if count == 0 then Got([], s)
    else
      match DecodeRequest(e, s)
      case Ended => Ended
      case Got(r, s1) =>
        match DecodeRequests(e, s1, count - 1)
        case Ended => Ended
        case Got(rs, s2) => Got([r] + rs, s2)
  }

  function AllOnTheWire(rs: seq<Request>): (w: seq<Request>)
    ensures |w| == |rs|
  {
    if rs == [] then [] else [OnTheWire(rs[0])] + AllOnTheWire(rs[1..])
  }

  lemma {:induction false} RequestsRoundTrip(e: Endian, rs: seq<Request>, rest: seq<byte>)
    requires forall r :: r in rs ==> Encodable(r)
    ensures DecodeRequests(e, EncodeRequests(e, rs) + rest, |rs|) == Got(AllOnTheWire(rs), rest)
  {
    hide EncodeRequest, DecodeRequest, OnTheWire, Encodable;
    if rs == [] {
      assert EncodeRequests(e, rs) + rest == rest;
    } else {
      var tail := EncodeRequests(e, rs[1..]) + rest;
      assert EncodeRequests(e, rs) + rest == EncodeRequest(e, rs[0]) + tail;
      RequestRoundTrip(e, rs[0], tail);
      RequestsRoundTrip(e, rs[1..], rest);
    }
  }

  // ----- replies -----------------------------------------------------------------------------

  /** The frame a request is answered with. */
  datatype Reply =
    | Ack
    | Noop
    | Value(data: seq<byte>)
    | Failure(msg: seq<byte>)
    | Stats(downloaded: int, uploaded: int, invocation: seq<byte>, parent: seq<byte>)

  function EncodeStats(e: Endian, dl: int, ul: int, invocation: seq<byte>, parent: seq<byte>): seq<byte> {
    EncodeI64(e, dl) + EncodeI64(e, ul) + EncodeMsg(invocation) + EncodeMsg(parent)
  }

  function EncodeReply(e: Endian, r: Reply): (s: seq<byte>)
    ensures s != []
  {
    match r
    case Ack => [RESPONSE_OK]
    case Noop => [RESPONSE_NOOP]
    case Value(data) => [RESPONSE_OK] + EncodeValue(e, data)
    case Failure(msg) => [RESPONSE_ERR] + EncodeMsg(msg)
    case Stats(dl, ul, invocation, parent) => [RESPONSE_OK] + EncodeStats(e, dl, ul, invocation, parent)
  }

  function DecodeStats(e: Endian, s: seq<byte>): Read<Reply> {
    if |s| < 16 then Ended
    else
      match DecodeSetInvocationID(s[16..])
      case Ended => Ended
      case Got(ids, rest) => Got(Stats(DecodeI64(e, s[..8]), DecodeI64(e, s[8..16]), ids.0, ids.1), rest)
  }

  /** How the client reads the answer to `request`. */
  function DecodeReply(e: Endian, request: Request, s: seq<byte>): Read<Reply> {
    if s == [] then Ended
    else if s[0] == RESPONSE_ERR then
      match DecodeKey(s[1..]) case Got(msg, rest) => Got(Failure(msg), rest) case Ended => Ended
    else if s[0] == RESPONSE_NOOP then Got(Noop, s[1..])
    else if s[0] != RESPONSE_OK then Ended
    else if request.Get? then
      match DecodeValue(e, s[1..]) case Got(data, rest) => Got(Value(data), rest) case Ended => Ended
    else if request.GetSessionStats? then DecodeStats(e, s[1..])
    else Got(Ack, s[1..])
  }

  /** The replies the server may give to `request`. */
  predicate Answers(request: Request, reply: Reply) {
    match reply
    case Ack => !request.Get? && !request.GetSessionStats?
    case Noop => true
    case Failure(_) => true
    case Value(data) => request.Get? && |data| < TWO_64
    case Stats(dl, ul, _, _) => request.GetSessionStats? && -TWO_63 <= dl < TWO_63 && -TWO_63 <= ul < TWO_63
  }

  function ReplyOnTheWire(r: Reply): Reply {
    match r
    case Failure(msg) => Failure(Cut(msg))
    case Stats(dl, ul, invocation, parent) => Stats(dl, ul, Cut(invocation), Cut(parent))
    case _ => r
  }

  lemma StatsFrame(e: Endian, dl: int, ul: int, d: seq<byte>, u: seq<byte>, a: seq<byte>, b: seq<byte>, rest: seq<byte>)
    requires |d| == |u| == 8
    requires DecodeI64(e, d) == dl && DecodeI64(e, u) == ul
    ensures DecodeStats(e, d + u + EncodeMsg(a) + EncodeMsg(b) + rest) == Got(Stats(dl, ul, Cut(a), Cut(b)), rest)
  {
    var s := d + u + EncodeMsg(a) + EncodeMsg(b) + rest;
    assert s[..8] == d && s[8..16] == u;
    assert s[16..] == EncodeMsg(a) + EncodeMsg(b) + rest;
    SetInvocationIDRoundTrip(a, b, rest);
  }

  lemma StatsRoundTrip(e: Endian, dl: int, ul: int, a: seq<byte>, b: seq<byte>, rest: seq<byte>)
    requires -TWO_63 <= dl < TWO_63 && -TWO_63 <= ul < TWO_63
    ensures DecodeStats(e, EncodeStats(e, dl, ul, a, b) + rest)
         == Got(Stats(dl, ul, Cut(a), Cut(b)), rest)
  {
    I64RoundTrip(e, dl);
    I64RoundTrip(e, ul);
    StatsFrame(e, dl, ul, EncodeI64(e, dl), EncodeI64(e, ul), a, b, rest);
  }

  lemma ReplyRoundTrip(e: Endian, request: Request, reply: Reply, rest: seq<byte>)
    requires Answers(request, reply)
    ensures DecodeReply(e, request, EncodeReply(e, reply) + rest) == Got(ReplyOnTheWire(reply), rest)
  {
    if reply.Value? {
      FrameBody(RESPONSE_OK, EncodeValue(e, reply.data), rest);
      ValueRoundTrip(e, reply.data, rest);
    } else if reply.Failure? {
      FrameBody(RESPONSE_ERR, EncodeMsg(reply.msg), rest);
      KeyRoundTrip(Cut(reply.msg), rest);
    } else if reply.Stats? {
      FrameBody(RESPONSE_OK, EncodeStats(e, reply.downloaded, reply.uploaded, reply.invocation, reply.parent), rest);
      StatsRoundTrip(e, reply.downloaded, reply.uploaded, reply.invocation, reply.parent, rest);
    } else {
      assert (EncodeReply(e, reply) + rest)[1..] == rest;
    }
  }

  function EncodeReplies(e: Endian, rs: seq<Reply>): seq<byte> {
    if rs == [] then [] else EncodeReply(e, rs[0]) + EncodeReplies(e, rs[1..])
  }

  /** A client that sent `requests` reads their answers back in order. */
  function DecodeReplies(e: Endian, requests: seq<Request>, s: seq<byte>): Read<seq<Reply>> {
    if requests == [] then Got([], s)
    else
      match DecodeReply(e, requests[0], s)
      case Ended => Ended
      case Got(r, s1) =>
        match DecodeReplies(e, requests[1..], s1)
        case Ended => Ended
        case Got(rs, s2) => Got([r] + rs, s2)
  }

  function AllRepliesOnTheWire(rs: seq<Reply>): (w: seq<Reply>)
    ensures |w| == |rs|
  {
    if rs == [] then [] else [ReplyOnTheWire(rs[0])] + AllRepliesOnTheWire(rs[1..])
  }

  lemma {:induction false} RepliesRoundTrip(e: Endian, requests: seq<Request>, replies: seq<Reply>, rest: seq<byte>)
    requires |requests| == |replies|
    requires forall i :: 0 <= i < |replies| ==> Answers(requests[i], replies[i])
    ensures DecodeReplies(e, requests, EncodeReplies(e, replies) + rest) == Got(AllRepliesOnTheWire(replies), rest)
  {
    hide EncodeReply, DecodeReply, ReplyOnTheWire, Answers;
    if replies == [] {
      assert EncodeReplies(e, replies) + rest == rest;
    } else {
      var tail := EncodeReplies(e, replies[1..]) + rest;
      assert EncodeReplies(e, replies) + rest == EncodeReply(e, replies[0]) + tail;
      assert Answers(requests[0], replies[0]);
      ReplyRoundTrip(e, requests[0], replies[0], tail);
      RepliesRoundTrip(e, requests[1..], replies[1..], rest);
    }
  }

  // ----- greeting ----------------------------------------------------------------------------

  const GREETING: seq<byte> := [PROTOCOL_VERSION, 1, CAP0]

  /** Version byte, capability count, that many capability bytes. */
  function DecodeGreeting(s: seq<byte>): Read<()> {
    if |s| < 2 || s[0] != PROTOCOL_VERSION then Ended
    else
      match ReadN(s[2..], s[1]) case Got(_, rest) => Got((), rest) case Ended => Ended
  }

  lemma GreetingRoundTrip(rest: seq<byte>)
    ensures DecodeGreeting(GREETING + rest) == Got((), rest)
  {
    var s := GREETING + rest;
    assert s[2..] == [CAP0] + rest;
    assert ([CAP0] + rest)[1..] == rest;
  }

  /** A greeting is the version, a count and that many capabilities, whatever they are, and nothing else. */
  lemma GreetingAcceptedIff(s: seq<byte>, rest: seq<byte>)
    ensures DecodeGreeting(s) == Got((), rest) <==>
            exists caps: seq<byte> :: |caps| < 256 && s == [PROTOCOL_VERSION, |caps|] + caps + rest
  {
    if DecodeGreeting(s) == Got((), rest) {
      var caps := s[2..2 + s[1]];
      assert s == [PROTOCOL_VERSION, |caps|] + caps + rest;
    }
    if caps: seq<byte> :| |caps| < 256 && s == [PROTOCOL_VERSION, |caps|] + caps + rest {
      assert s[2..] == caps + rest && (caps + rest)[|caps|..] == rest;
    }
  }

  // ----- key paths ---------------------------------------------------------------------------

  function HexDigit(n: nat): (c: char)
    requires n < 16
    ensures forall m: nat :: m < 16 && m != n ==> c != "0123456789abcdef"[m]
  {
    "0123456789abcdef"[n]
  }

  /** `keyToPath`: lower-case hexadecimal. */
  function KeyToPath(key: seq<byte>): (p: string)
    ensures |p| == 2 * |key|
  {
    if key == [] then "" else [HexDigit(key[0] / 16), HexDigit(key[0] % 16)] + KeyToPath(key[1..])
  }

  lemma {:induction false} KeyToPathInjective(a: seq<byte>, b: seq<byte>)
    requires KeyToPath(a) == KeyToPath(b)
    ensures a == b
  {
    if a != [] {
      var p := KeyToPath(a);
      assert |a| == |b|;
      assert p[0] == HexDigit(a[0] / 16) == HexDigit(b[0] / 16);
      assert p[1] == HexDigit(a[0] % 16) == HexDigit(b[0] % 16);
      assert p[2..] == KeyToPath(a[1..]);
      assert p[2..] == KeyToPath(b[1..]);
      KeyToPathInjective(a[1..], b[1..]);
      assert a == [a[0]] + a[1..] && b == [b[0]] + b[1..];
    }
  }
}
