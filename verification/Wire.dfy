/** Bytes, little-endian integers, and the streams that carry them between processes. */
module Bytes {
  type Byte = b: int | 0 <= b < 256

  const U32_LIMIT := 0x1_0000_0000
  const I32_LIMIT := 0x8000_0000

  type U32 = n: int | 0 <= n < U32_LIMIT
  type I32 = n: int | -I32_LIMIT <= n < I32_LIMIT

  /** The four bytes of a 32-bit word, least significant first. */
  function Le32(n: U32): (s: seq<Byte>)
    ensures |s| == 4
  {
    [n % 256, n / 256 % 256, n / 65536 % 256, n / 16777216]
  }

  function FromLe32(s: seq<Byte>): (n: U32)
    requires |s| == 4
  {
    (s[0] as int) + 256 * (s[1] as int) + 65536 * (s[2] as int) + 16777216 * (s[3] as int)
  }

  /** Two's complement. */
  function ToU32(i: I32): U32 {
    if i < 0 then i + U32_LIMIT else i
  }

  function ToI32(n: U32): I32 {
    if n < I32_LIMIT then n else n - U32_LIMIT
  }

  lemma Le32RoundTrip(n: U32)
    ensures FromLe32(Le32(n)) == n
  {
    var q1, q2 := n / 256, n / 65536;
    assert n == 256 * q1 + n % 256;
    assert q2 == q1 / 256 && q1 == 256 * q2 + q1 % 256;
    assert n / 16777216 == q2 / 256 && q2 == 256 * (q2 / 256) + q2 % 256;
  }

  lemma FromLe32RoundTrip(s: seq<Byte>)
    requires |s| == 4
    ensures Le32(FromLe32(s)) == s
  {
    var n := FromLe32(s);
    assert n / 256 == (s[1] as int) + 256 * (s[2] as int) + 65536 * (s[3] as int);
    assert n / 65536 == (s[2] as int) + 256 * (s[3] as int);
    assert n / 16777216 == s[3];
  }
}

/**
 * src/common/sandbox_protocol.cpp: transfers that must survive short reads, short writes
 * and EINTR, the framed message codec, and the tagged status-pipe codec.
 *
 * A Stream is one direction of a pipe or socket: `data` is everything that is still to be
 * read before end of file, and `replies` is how the kernel will treat the next system calls.
 * Once `replies` is used up the kernel transfers whatever is asked for.
 */
module Wire {
  import opened Bytes

  datatype IoReply = Short(count: nat) | Interrupted | Broken | Nothing

  /** Replies that delay a transfer but do not break the descriptor. */
  predicate Benign(replies: seq<IoReply>) {
    forall i :: 0 <= i < |replies| ==> replies[i].Short? || replies[i].Interrupted?
  }

  datatype Transfer = Moved(count: nat) | Eintr | Failure

  function Clamp(n: nat, most: nat): (r: nat)
    requires most > 0
  {
    if n < 1 then 1 else if n > most then most else n
  }

  class Stream {
    var data: seq<Byte>
    var replies: seq<IoReply>

    constructor (data: seq<Byte>, replies: seq<IoReply>)
      ensures this.data == data && this.replies == replies
    {
      this.data, this.replies := data, replies;
    }

    /** write(2): moves some non-empty prefix, moves nothing, is interrupted, or fails. */
    method Write(bytes: seq<Byte>) returns (t: Transfer)
      requires bytes != []
      modifies this
      ensures t.Moved? ==> t.count <= |bytes| && data == old(data) + bytes[..t.count]
      ensures !t.Moved? ==> data == old(data)
      ensures replies == (if old(replies) == [] then [] else old(replies)[1..])
      ensures t.Eintr? ==> old(replies) != []
      ensures Benign(old(replies)) ==> t.Eintr? || (t.Moved? && t.count > 0)
    {
      if replies == [] {
        data := data + bytes;
        return Moved(|bytes|);
      }
      var reply := replies[0];
      replies := replies[1..];
      match reply {
        case Short(n) =>
          t := Moved(Clamp(n, |bytes|));
          data := data + bytes[..t.count];
        case Interrupted => t := Eintr;
        case Broken => t := Failure;
        case Nothing =>
          t := Moved(0);
          assert bytes[..0] == [];
      }
    }

    /** read(2): takes some non-empty prefix, reports end of file as 0, is interrupted, or fails. */
    method Read(want: nat) returns (t: Transfer, got: seq<Byte>)
      requires want > 0
      modifies this
      ensures |got| <= want && |got| <= |old(data)|
      ensures t.Moved? ==> t.count == |got|
      ensures got == old(data)[..|got|] && data == old(data)[|got|..]
      ensures !t.Moved? ==> got == []
      ensures t.Moved? && got == [] ==> old(data) == []
      ensures replies == (if old(replies) == [] then [] else old(replies)[1..])
      ensures t.Eintr? ==> old(replies) != []
      ensures Benign(old(replies)) ==> !t.Failure?
    {
      var count := if want < |data| then want else |data|;
      got := [];
      if replies != [] {
        var reply := replies[0];
        replies := replies[1..];
        match reply {
          case Short(n) =>
            if count > 0 { count := Clamp(n, count); }
          case Interrupted => return Eintr, [];
          case Broken => return Failure, [];
          case Nothing =>
        }
      }
      t, got, data := Moved(count), data[..count], data[count..];
    }
  }

  /**
   * write_all. `sent` bytes reached the stream, always a prefix of the buffer, and the call
   * succeeds exactly when that prefix is the whole buffer.
   */
  method WriteAll(s: Stream, buffer: seq<Byte>) returns (ok: bool, ghost sent: nat)
    modifies s
    ensures sent <= |buffer| && s.data == old(s.data) + buffer[..sent]
    ensures ok <==> sent == |buffer|
    ensures Benign(old(s.replies)) ==> ok && Benign(s.replies)
  {
    var total := 0;
    sent := 0;
    assert old(s.data) + buffer[..0] == old(s.data);
    while total < |buffer|
      invariant 0 <= total <= |buffer| && sent == total
      invariant s.data == old(s.data) + buffer[..total]
      invariant Benign(old(s.replies)) ==> Benign(s.replies)
      decreases |buffer| - total + |s.replies|
    {
      ghost var before := s.data;
      var t := s.Write(buffer[total..]);
      if t.Eintr? { continue; }
      if t.Failure? { return false, sent; }
      if t.count == 0 {
        assert buffer[total..][..0] == [];
        return false, sent;
      }
      assert before + buffer[total..][..t.count] == old(s.data) + (buffer[..total] + buffer[total..][..t.count]);
      assert buffer[..total] + buffer[total..][..t.count] == buffer[..total + t.count];
      total := total + t.count;
      sent := total;
    }
    return true, sent;
  }

  /**
   * read_all into buffer[off .. off + size]. `got` bytes left the stream, they are the next
   * bytes of the stream in order, and the call succeeds exactly when it got all of them.
   * Nothing outside the target range is touched.
   */
  method ReadAll(s: Stream, buffer: array<Byte>, off: nat, size: nat) returns (ok: bool, ghost got: nat)
    requires off + size <= buffer.Length
    modifies s, buffer
    ensures got <= size && got <= |old(s.data)| && s.data == old(s.data)[got..]
    ensures buffer[off..off + got] == old(s.data)[..got]
    ensures forall i :: 0 <= i < buffer.Length && !(off <= i < off + got) ==> buffer[i] == old(buffer[i])
    ensures ok <==> got == size
    ensures Benign(old(s.replies)) ==> Benign(s.replies) && (ok <==> size <= |old(s.data)|) && (!ok ==> s.data == [])
  {
    var total := 0;
    got := 0;
    while total < size
      invariant 0 <= total <= size && got == total <= |old(s.data)|
      invariant s.data == old(s.data)[total..]
      invariant forall i :: 0 <= i < total ==> buffer[off + i] == old(s.data)[i]
      invariant forall i :: 0 <= i < buffer.Length && !(off <= i < off + total) ==> buffer[i] == old(buffer[i])
      invariant Benign(old(s.replies)) ==> Benign(s.replies)
      decreases size - total + |s.replies|
    {
      var t, chunk := s.Read(size - total);
      if t.Eintr? { continue; }
      if t.Failure? { return false, got; }
      if t.count == 0 { return false, got; }
      forall i | 0 <= i < |chunk| { buffer[off + total + i] := chunk[i]; }
      total := total + t.count;
      got := total;
    }
    return true, got;
  }

  // ---------------------------------------------------------------------------------------
  // Framed messages
  // ---------------------------------------------------------------------------------------

  datatype MessageType = Ready | SetupFailed | Terminated | Terminate

  function Code(t: MessageType): (c: nat)
    ensures c < 4
  {
    match t case Ready => 0 case SetupFailed => 1 case Terminated => 2 case Terminate => 3
  }

  /** The codes are the positions of the enumerators, so no two types share one. */
  lemma CodesDistinct(t: MessageType, u: MessageType)
    ensures Code(t) == Code(u) <==> t == u
    ensures Code(Ready) < Code(SetupFailed) < Code(Terminated) < Code(Terminate) < 4
  {
  }

  /** `code` is whatever 32-bit value the header carried, not only the four known types. */
  datatype Message = Message(code: U32, payload: seq<Byte>)

  predicate Sendable(m: Message) {
    |m.payload| < U32_LIMIT
  }

  /** SandboxTerminatedPayload: the wait status, and then padding and resource usage. */
  function TerminatedPayload(ws: I32, rest: seq<Byte>): seq<Byte> {
    Le32(ToU32(ws)) + rest
  }

  function DecodeTerminated(payload: seq<Byte>): I32
    requires |payload| >= 4
  {
    ToI32(FromLe32(payload[..4]))
  }

  lemma TerminatedRoundTrip(ws: I32, rest: seq<Byte>)
    ensures DecodeTerminated(TerminatedPayload(ws, rest)) == ws
  {
    assert TerminatedPayload(ws, rest)[..4] == Le32(ToU32(ws));
    Le32RoundTrip(ToU32(ws));
  }

  lemma TerminatedSplit(payload: seq<Byte>)
    requires |payload| >= 4
    ensures TerminatedPayload(DecodeTerminated(payload), payload[4..]) == payload
  {
    FromLe32RoundTrip(payload[..4]);
    assert payload[..4] + payload[4..] == payload;
  }

  const HEADER_SIZE := 8

  function Frame(m: Message): (f: seq<Byte>)
    requires Sendable(m)
    ensures |f| == HEADER_SIZE + |m.payload|
  {
    Le32(m.code) + Le32(|m.payload|) + m.payload
  }

  /** The stream holds a whole frame whose payload fits the receiver's buffer. */
  predicate HoldsFrame(data: seq<Byte>, capacity: nat) {
    && |data| >= HEADER_SIZE
    && FromLe32(data[4..8]) <= capacity
    && |data| >= HEADER_SIZE + FromLe32(data[4..8])
  }

  lemma FrameHeader(m: Message, rest: seq<Byte>)
    requires Sendable(m)
    ensures var d := Frame(m) + rest;
            && FromLe32(d[..4]) == m.code && FromLe32(d[4..8]) == |m.payload|
            && d[8..8 + |m.payload|] == m.payload && d[8 + |m.payload|..] == rest
  {
    var d := Frame(m) + rest;
    assert d[..4] == Le32(m.code) && d[4..8] == Le32(|m.payload|);
    Le32RoundTrip(m.code);
    Le32RoundTrip(|m.payload|);
    assert d[8..8 + |m.payload|] == m.payload && d[8 + |m.payload|..] == rest;
  }

  /** Reading a header and its payload off the front takes exactly one frame. */
  lemma FrameSplit(data: seq<Byte>)
    requires |data| >= HEADER_SIZE && |data| >= HEADER_SIZE + FromLe32(data[4..8])
    ensures var size := FromLe32(data[4..8]);
            data == Frame(Message(FromLe32(data[..4]), data[8..8 + size])) + data[8 + size..]
  {
    FromLe32RoundTrip(data[..4]);
    FromLe32RoundTrip(data[4..8]);
    var size := FromLe32(data[4..8]);
    assert data == data[..4] + data[4..8] + data[8..8 + size] + data[8 + size..];
  }

  /** send_message: the stream gains a prefix of the frame, the whole frame exactly on success. */
  method SendMessage(s: Stream, m: Message) returns (ok: bool, ghost sent: nat)
    requires Sendable(m)
    modifies s
    ensures sent <= |Frame(m)| && s.data == old(s.data) + Frame(m)[..sent]
    ensures ok <==> sent == |Frame(m)|
    ensures Benign(old(s.replies)) ==> ok && Benign(s.replies)
  {
    var header := Le32(m.code) + Le32(|m.payload|);
    ok, sent := WriteAll(s, header);
    assert Frame(m) == header + m.payload;
    assert header[..sent] == Frame(m)[..sent];
    if !ok { return; }
    if |m.payload| == 0 { return; }
    ghost var before := s.data;
    ghost var more;
    ok, more := WriteAll(s, m.payload);
    sent := HEADER_SIZE + more;
    assert Frame(m)[..sent] == header + m.payload[..more];
    assert before + m.payload[..more] == old(s.data) + (header + m.payload[..more]);
  }

  /**
   * receive_message into a payload buffer whose length is its capacity. Success takes exactly
   * one frame off the stream and stays within capacity; an oversized frame is refused after
   * its header; on a sound descriptor it succeeds exactly when a fitting frame is there.
   */
  method ReceiveMessage(s: Stream, payload: array<Byte>)
    returns (ok: bool, code: U32, size: nat, ghost taken: nat)
    modifies s, payload
    ensures taken <= |old(s.data)| && s.data == old(s.data)[taken..]
    ensures taken >= HEADER_SIZE ==> code == FromLe32(old(s.data)[..4]) && size == FromLe32(old(s.data)[4..8])
    ensures ok ==> size <= payload.Length && size < U32_LIMIT
    ensures ok ==> old(s.data) == Frame(Message(code, payload[..size])) + s.data
    ensures ok ==> forall i :: size <= i < payload.Length ==> payload[i] == old(payload[i])
    ensures !ok ==> || taken < HEADER_SIZE
                    || (size > payload.Length && taken == HEADER_SIZE)
                    || (size <= payload.Length && taken < HEADER_SIZE + size)
    ensures Benign(old(s.replies)) ==> Benign(s.replies) && (ok <==> HoldsFrame(old(s.data), payload.Length))
  {
    var header := new Byte[HEADER_SIZE];
    ok, taken := ReadAll(s, header, 0, HEADER_SIZE);
    code, size := 0, 0;
    if !ok {
      return;
    }
    assert header[..] == old(s.data)[..8];
    code, size := FromLe32(header[..4]), FromLe32(header[4..8]);
    assert header[..4] == old(s.data)[..4] && header[4..8] == old(s.data)[4..8];
    if size > payload.Length { return false, code, size, taken; }
    if size == 0 {
      assert payload[..0] == old(s.data)[8..8];
      FrameSplit(old(s.data));
      return true, code, size, taken;
    }
    ghost var got;
    ok, got := ReadAll(s, payload, 0, size);
    taken := HEADER_SIZE + got;
    assert s.data == old(s.data)[taken..];
    if ok {
      assert payload[..size] == payload[0..0 + got] == old(s.data)[8..][..got] == old(s.data)[8..8 + size];
      FrameSplit(old(s.data));
    }
  }

  function Frames(ms: seq<Message>): (d: seq<Byte>)
    requires forall m :: m in ms ==> Sendable(m)
  {
    if ms == [] then [] else Frame(ms[0]) + Frames(ms[1..])
  }

  lemma {:induction false} FramesAppend(ms: seq<Message>, m: Message)
    requires forall x :: x in ms ==> Sendable(x)
    requires Sendable(m)
    ensures Frames(ms + [m]) == Frames(ms) + Frame(m)
  {
    if ms == [] {
      assert [m][1..] == [];
      assert Frame(m) + [] == Frame(m);
    } else {
      FramesAppend(ms[1..], m);
      assert (ms + [m])[1..] == ms[1..] + [m];
      assert Frame(ms[0]) + (Frames(ms[1..]) + Frame(m)) == (Frame(ms[0]) + Frames(ms[1..])) + Frame(m);
    }
  }

  lemma FrameHeld(m: Message, rest: seq<Byte>, capacity: nat)
    requires Sendable(m) && |m.payload| <= capacity
    ensures HoldsFrame(Frame(m) + rest, capacity)
  {
    FrameHeader(m, rest);
  }

  /** A frame cut short by a failed send is never taken for a message. */
  lemma TornFrameUnreadable(m: Message, n: nat, capacity: nat)
    requires Sendable(m) && n < |Frame(m)|
    ensures !HoldsFrame(Frame(m)[..n], capacity)
  {
    var torn := Frame(m)[..n];
    if |torn| >= HEADER_SIZE {
      FrameHeader(m, []);
      assert (Frame(m) + [])[4..8] == Frame(m)[4..8] == torn[4..8];
    }
  }

  lemma FramePrefixFree(m: Message, n: Message, rest: seq<Byte>, rest': seq<Byte>)
    requires Sendable(m) && Sendable(n)
    requires Frame(m) + rest == Frame(n) + rest'
    ensures m == n && rest == rest'
  {
    FrameHeader(m, rest);
    FrameHeader(n, rest');
  }

  method SendAll(s: Stream, ms: seq<Message>)
    requires s.data == [] && Benign(s.replies) && forall m :: m in ms ==> Sendable(m)
    modifies s
    ensures s.data == Frames(ms)
  {
    var i := 0;
    while i < |ms|
      invariant 0 <= i <= |ms|
      invariant s.data == Frames(ms[..i]) && Benign(s.replies)
    {
      var ok, _ := SendMessage(s, ms[i]);
      assert ms[..i + 1] == ms[..i] + [ms[i]];
      FramesAppend(ms[..i], ms[i]);
      i := i + 1;
    }
    assert ms[..i] == ms;
  }

  /**
   * Any list of messages, sent and received under any finite pattern of short transfers and
   * interruptions on either side, arrives as that list and leaves the stream empty.
   */
  method Exchange(ms: seq<Message>, sending: seq<IoReply>, receiving: seq<IoReply>, capacity: nat)
    returns (received: seq<Message>, left: seq<Byte>)
    requires forall m :: m in ms ==> Sendable(m) && |m.payload| <= capacity
    requires Benign(sending) && Benign(receiving)
    ensures received == ms && left == []
  {
    var s := new Stream([], sending);
    SendAll(s, ms);
    s.replies := receiving;
    received := [];
    var i := 0;
    while i < |ms|
      invariant 0 <= i <= |ms| && fresh(s)
      invariant received == ms[..i]
      invariant s.data == Frames(ms[i..]) && Benign(s.replies)
    {
      var payload := new Byte[capacity];
      FrameHeld(ms[i], Frames(ms[i + 1..]), capacity);
      assert ms[i..][1..] == ms[i + 1..];
      var ok, code, size, _ := ReceiveMessage(s, payload);
      FramePrefixFree(ms[i], Message(code, payload[..size]), Frames(ms[i + 1..]), s.data);
      received := received + [Message(code, payload[..size])];
      i := i + 1;
    }
    left := s.data;
  }
}
