/**
 One length-prefixed frame on a byte stream. The stream may arrive in any
 pieces: each receive yields some of what is left, up to what was asked for,
 and nothing exactly at the end.
 */
module Framing {
  import opened Base

  const MAX_REQUEST_BYTES: nat := 65536
  const CHUNK: nat := 65536
  const HEADER_SIZE: nat := 4

  datatype Code = BadFrame | TooLarge | Timeout

  // ---------------------------------------------------------------- the format

  /** A 4-byte big-endian unsigned length. */
  function Pack(n: nat): (h: Bytes)
    requires n < 0x1_0000_0000
    ensures |h| == HEADER_SIZE
  {
    [(n / 0x100_0000) as byte, (n / 0x1_0000 % 0x100) as byte, (n / 0x100 % 0x100) as byte, (n % 0x100) as byte]
  }

  function Unpack(h: Bytes): (n: nat)
    requires |h| == HEADER_SIZE
    ensures n < 0x1_0000_0000
  {
    h[0] as int * 0x100_0000 + h[1] as int * 0x1_0000 + h[2] as int * 0x100 + h[3] as int
  }

  lemma UnpackPack(n: nat)
    requires n < 0x1_0000_0000
    ensures Unpack(Pack(n)) == n
  {
    var a, b := n / 0x100, n / 0x1_0000;
    assert a / 0x100 == b && b / 0x100 == n / 0x100_0000;
  }

  lemma PackUnpack(h: Bytes)
    requires |h| == HEADER_SIZE
    ensures Pack(Unpack(h)) == h
  {
    var n := Unpack(h);
    var high := h[0] as int * 0x100 + h[1] as int;
    assert n / 0x1_0000 == high;
    assert n / 0x100 == high * 0x100 + h[2] as int;
    assert n / 0x100_0000 == h[0] as int;
  }

  /** A body is JSON text; only its bytes matter here. */
  function EncodeFrame(body: Bytes, limit: nat): (r: Outcome<Bytes, Code>)
    requires limit < 0x1_0000_0000
  {
    if |body| > limit then Raised(TooLarge) else Ok(Pack(|body|) + body)
  }

  // ---------------------------------------------------------------- what a reader makes of a stream

  /** `n` bytes off the front, or an error when the stream ends first; and what is left. */
  function TakeExact(s: Bytes, n: nat): (Outcome<Bytes, Code>, Bytes) {
    if n <= |s| then (Ok(s[..n]), s[n..]) else (Raised(BadFrame), [])
  }

  function TakeBody(s: Bytes, limit: nat): (Outcome<Bytes, Code>, Bytes) {
    var (header, rest) := TakeExact(s, HEADER_SIZE);
    if header.Raised? then (header, rest) else
    var length := Unpack(header.value);
    if length > limit then (Raised(TooLarge), rest)
    else if length == 0 then (Raised(BadFrame), rest)
    else TakeExact(rest, length)
  }

  function Decoded<T>(body: Outcome<Bytes, Code>, decode: Bytes -> Outcome<T, Code>): Outcome<T, Code> {
    match body case Raised(code) => Raised(code) case Ok(b) => decode(b)
  }

  // ---------------------------------------------------------------- the readers

  class Socket {
    ghost var stream: Bytes
    var arrived: seq<Bytes>   // the pieces still to come, in order

    ghost predicate Valid() reads this {
      stream == Joined(arrived) && forall i :: 0 <= i < |arrived| ==> arrived[i] != []
    }

    constructor (pieces: seq<Bytes>)
      requires forall i :: 0 <= i < |pieces| ==> pieces[i] != []
      ensures Valid() && stream == Joined(pieces)
    {
      arrived, stream := pieces, Joined(pieces);
    }

    method Recv(max: nat) returns (chunk: Bytes)
      requires Valid() && max > 0
      modifies this
      ensures Valid() && |chunk| <= max && chunk + stream == old(stream)
      ensures chunk == [] <==> old(stream) == []
    {
      chunk := [];
      if arrived == [] {
        return;
      }
      var first := arrived[0];
      if |first| <= max {
        chunk, arrived := first, arrived[1..];
        stream := Joined(arrived);
      } else {
        chunk := first[..max];
        ghost var rest := arrived[1..];
        arrived := [first[max..]] + arrived[1..];
        stream := Joined(arrived);
        assert arrived[1..] == rest;
        assert chunk + (first[max..] + Joined(rest)) == first + Joined(rest);
      }
    }
  }

  function Joined(pieces: seq<Bytes>): Bytes {
    if pieces == [] then [] else pieces[0] + Joined(pieces[1..])
  }

  method RecvExact(sock: Socket, n: nat) returns (r: Outcome<Bytes, Code>)
    requires sock.Valid()
    modifies sock
    ensures sock.Valid() && (r, sock.stream) == TakeExact(old(sock.stream), n)
  {
    var buf: Bytes := [];
    while |buf| < n
      invariant sock.Valid() && |buf| <= n && buf + sock.stream == old(sock.stream)
    {
      var chunk := sock.Recv(if n - |buf| < CHUNK then n - |buf| else CHUNK);
      if chunk == [] {
        return Raised(BadFrame);
      }
      buf := buf + chunk;
    }
    r := Ok(buf);
  }

  method ReadFrame<T>(sock: Socket, limit: nat, decode: Bytes -> Outcome<T, Code>) returns (r: Outcome<T, Code>)
    requires sock.Valid()
    modifies sock
    ensures sock.Valid() && r == Decoded(TakeBody(old(sock.stream), limit).0, decode)
    ensures sock.stream == TakeBody(old(sock.stream), limit).1
  {
    var header := RecvExact(sock, HEADER_SIZE);
    if header.Raised? {
      return Raised(header.error);
    }
    var length := Unpack(header.value);
    if length > limit {
      return Raised(TooLarge);
    }
    if length == 0 {
      return Raised(BadFrame);
    }
    var body := RecvExact(sock, length);
    r := match body case Raised(code) => Raised(code) case Ok(b) => decode(b);
  }

  /** What time does to a server's read: the clock before each receive, and which receives stall. */
  datatype Timing = Timing(clock: nat -> real, stalls: nat -> bool)

  ghost predicate InTime(t: Timing, deadline: real) {
    forall k :: t.clock(k) < deadline && !t.stalls(k)
  }

  method RecvBefore(sock: Socket, n: nat, t: Timing, deadline: real, from: nat) returns (r: Outcome<Bytes, Code>, next: nat)
    requires sock.Valid()
    modifies sock
    ensures sock.Valid() && from <= next
    ensures r == Raised(Timeout) ==> !InTime(t, deadline)
    ensures r != Raised(Timeout) ==> (r, sock.stream) == TakeExact(old(sock.stream), n)
  {
    var buf: Bytes := [];
    next := from;
    while |buf| < n
      invariant sock.Valid() && |buf| <= n && buf + sock.stream == old(sock.stream) && from <= next
    {
      if t.clock(next) >= deadline || t.stalls(next) {
        return Raised(Timeout), next;
      }
      next := next + 1;
      var chunk := sock.Recv(if n - |buf| < CHUNK then n - |buf| else CHUNK);
      if chunk == [] {
        return Raised(BadFrame), next;
      }
      buf := buf + chunk;
    }
    r := Ok(buf);
  }

  /**
   The server's reader. Unless it times out, it makes of any byte stream,
   however it is cut up, what the client's reader makes of it, error code included.
   */
  method ReadBody(sock: Socket, t: Timing, deadline: real) returns (r: Outcome<Bytes, Code>)
    requires sock.Valid()
    modifies sock
    ensures sock.Valid()
    ensures r == Raised(Timeout) ==> !InTime(t, deadline)
    ensures r != Raised(Timeout) ==> (r, sock.stream) == TakeBody(old(sock.stream), MAX_REQUEST_BYTES)
  {
    var header, next := RecvBefore(sock, HEADER_SIZE, t, deadline, 0);
    if header.Raised? {
      return header;
    }
    var length := Unpack(header.value);
    if length > MAX_REQUEST_BYTES {
      return Raised(TooLarge);
    }
    if length == 0 {
      return Raised(BadFrame);
    }
    r, next := RecvBefore(sock, length, t, deadline, next);
  }

  // ---------------------------------------------------------------- what the format guarantees

  /** A written frame is read back exactly, with what follows it untouched, if and only if it is neither empty nor over the limit. */
  lemma FrameRoundTrip(body: Bytes, after: Bytes, limit: nat)
    requires |body| < 0x1_0000_0000
    ensures TakeBody(Pack(|body|) + body + after, limit) == (Ok(body), after) <==> 1 <= |body| <= limit
    ensures |body| > limit ==> TakeBody(Pack(|body|) + body + after, limit).0 == Raised(TooLarge)
  {
    var s := Pack(|body|) + body + after;
    UnpackPack(|body|);
    assert s[..HEADER_SIZE] == Pack(|body|) && s[HEADER_SIZE..] == body + after;
    assert (body + after)[..|body|] == body && (body + after)[|body|..] == after;
  }

  /** Whatever is read was written: the stream began with exactly that frame. */
  lemma ReadWasWritten(s: Bytes, limit: nat)
    requires TakeBody(s, limit).0.Ok?
    ensures var (body, rest) := TakeBody(s, limit);
            1 <= |body.value| <= limit && |body.value| < 0x1_0000_0000 && s == Pack(|body.value|) + body.value + rest
  {
    var (body, rest) := TakeBody(s, limit);
    PackUnpack(s[..HEADER_SIZE]);
    assert s == s[..HEADER_SIZE] + s[HEADER_SIZE..];
    assert s[HEADER_SIZE..] == body.value + rest;
  }

  /** A frame cut short anywhere is an error, never another body. */
  lemma CutShort(body: Bytes, limit: nat, k: nat)
    requires 1 <= |body| <= limit < 0x1_0000_0000 && k < HEADER_SIZE + |body|
    ensures TakeBody((Pack(|body|) + body)[..k], limit) == (Raised(BadFrame), [])
  {
    var s := (Pack(|body|) + body)[..k];
    if k >= HEADER_SIZE {
      UnpackPack(|body|);
      assert s[..HEADER_SIZE] == Pack(|body|);
    }
  }

  /** Reading back what `EncodeFrame` wrote, under the same limit. */
  lemma EncodedIsRead(body: Bytes, limit: nat, after: Bytes)
    requires limit < 0x1_0000_0000
    ensures match EncodeFrame(body, limit)
            case Raised(code) => code == TooLarge && |body| > limit
            case Ok(frame) => body == [] || TakeBody(frame + after, limit) == (Ok(body), after)
  {
    if |body| <= limit { FrameRoundTrip(body, after, limit); }
  }
}
