/**
 * src/common/sandbox_protocol.cpp, second half: the pipe on which the sandboxed children report
 * to the supervisor. A record is either a raw 8-byte setup failure or the tag 0xFF followed by
 * the 4 bytes of a forwarded wait status.
 */
module StatusPipe {
  import opened Bytes
  import opened Wire

  const TAG: Byte := 0xFF
  const FAILURE_SIZE := 8
  const LAST_STAGE := 10

  datatype Record = SetupFailure(stage: nat, error: I32) | Forwarded(waitStatus: I32)

  predicate Valid(r: Record) {
    r.SetupFailure? ==> r.stage <= LAST_STAGE
  }

  function FailurePayload(stage: nat, error: I32): (p: seq<Byte>)
    requires stage < U32_LIMIT
    ensures |p| == FAILURE_SIZE && p[0] == stage % 256
  {
    Le32(stage) + Le32(ToU32(error))
  }

  function Encode(r: Record): (e: seq<Byte>)
    requires Valid(r)
    ensures |e| == if r.Forwarded? then 5 else 8
    ensures r.Forwarded? <==> e[0] == 0xFF
  {
    match r
    case SetupFailure(stage, error) => FailurePayload(stage, error)
    case Forwarded(ws) => [TAG] + Le32(ToU32(ws))
  }

  datatype ReadResult = Payload(stage: U32, error: I32) | WaitStatus(waitStatus: I32) | Eof | Error

  function DecodeFailure(p: seq<Byte>): ReadResult
    requires |p| == FAILURE_SIZE
  {
    Payload(FromLe32(p[..4]), ToI32(FromLe32(p[4..])))
  }

  /** What a sound descriptor yields for the first record, and how many bytes that takes. */
  function Parse(data: seq<Byte>): (r: (ReadResult, nat))
    ensures r.1 <= |data|
    ensures !r.0.Error? && !r.0.Eof? ==> r.1 > 0
  {
    if data == [] then (Eof, 0)
    else if data[0] == TAG then
      if |data| < 5 then (Error, |data|) else (WaitStatus(ToI32(FromLe32(data[1..5]))), 5)
    else
      if |data| < FAILURE_SIZE then (Error, |data|) else (DecodeFailure(data[..FAILURE_SIZE]), FAILURE_SIZE)
  }

  /** The same for read_setup_failure, which does not know about tags. */
  function ParseFailure(data: seq<Byte>): (r: (ReadResult, nat))
    ensures r.1 <= |data|
  {
    if data == [] then (Eof, 0)
    else if |data| < FAILURE_SIZE then (Error, |data|)
    else (DecodeFailure(data[..FAILURE_SIZE]), FAILURE_SIZE)
  }

  /** read_setup_failure. */
  method ReadSetupFailure(s: Stream) returns (r: ReadResult)
    modifies s
    ensures !r.Error? ==> r == ParseFailure(old(s.data)).0 && s.data == old(s.data)[ParseFailure(old(s.data)).1..]
    ensures Benign(old(s.replies)) ==>
              r == ParseFailure(old(s.data)).0 && s.data == old(s.data)[ParseFailure(old(s.data)).1..] && Benign(s.replies)
  {
    var data := new Byte[FAILURE_SIZE];
    var total := 0;
    while total < FAILURE_SIZE
      invariant 0 <= total <= FAILURE_SIZE && total <= |old(s.data)|
      invariant s.data == old(s.data)[total..]
      invariant forall i :: 0 <= i < total ==> data[i] == old(s.data)[i]
      invariant Benign(old(s.replies)) ==> Benign(s.replies)
      decreases FAILURE_SIZE - total + |s.replies|
    {
      var t, chunk := s.Read(FAILURE_SIZE - total);
      if t.Eintr? { continue; }
      if t.Failure? { return Error; }
      if t.count == 0 { return if total == 0 then Eof else Error; }
      forall i | 0 <= i < |chunk| { data[total + i] := chunk[i]; }
      total := total + t.count;
    }
    assert data[..] == old(s.data)[..FAILURE_SIZE];
    r := DecodeFailure(data[..]);
  }

  /** write_wait_status: the record, or a strict prefix of it when the descriptor breaks. */
  method WriteWaitStatus(s: Stream, ws: I32) returns (ok: bool, ghost sent: nat)
    modifies s
    ensures sent <= |Encode(Forwarded(ws))| && s.data == old(s.data) + Encode(Forwarded(ws))[..sent]
    ensures ok <==> sent == |Encode(Forwarded(ws))|
    ensures Benign(old(s.replies)) ==> ok && Benign(s.replies)
  {
    ghost var whole := Encode(Forwarded(ws));
    ok, sent := WriteAll(s, [TAG]);
    assert [TAG][..sent] == whole[..sent];
    if !ok { return; }
    ghost var before, more := s.data, 0;
    ok, more := WriteAll(s, Le32(ToU32(ws)));
    sent := 1 + more;
    assert whole[..sent] == [TAG] + Le32(ToU32(ws))[..more];
    assert before + Le32(ToU32(ws))[..more] == old(s.data) + ([TAG] + Le32(ToU32(ws))[..more]);
  }

  /** read_status_pipe: anything but Error is what the stream says; a sound descriptor never invents an Error. */
  method ReadStatusPipe(s: Stream) returns (r: ReadResult)
    modifies s
    ensures !r.Error? ==> r == Parse(old(s.data)).0 && s.data == old(s.data)[Parse(old(s.data)).1..]
    ensures Benign(old(s.replies)) ==>
              r == Parse(old(s.data)).0 && s.data == old(s.data)[Parse(old(s.data)).1..] && Benign(s.replies)
  {
    var first: Byte := 0;
    while true
      invariant s.data == old(s.data)
      invariant Benign(old(s.replies)) ==> Benign(s.replies)
      decreases |s.replies|
    {
      var t, got := s.Read(1);
      if t.Eintr? { continue; }
      if t.Failure? { return Error; }
      if t.count == 0 { return Eof; }
      first := got[0];
      assert s.data == old(s.data)[1..] && first == old(s.data)[0];
      break;
    }
    if first == TAG {
      r := ReadForwarded(s, old(s.data));
    } else {
      r := ReadFailureRest(s, first, old(s.data));
    }
  }

  /** The word behind a tag. */
  method ReadForwarded(s: Stream, ghost data: seq<Byte>) returns (r: ReadResult)
    requires data != [] && data[0] == TAG && s.data == data[1..]
    modifies s
    ensures !r.Error? ==> r == Parse(data).0 && s.data == data[5..] && |data| >= 5
    ensures Benign(old(s.replies)) ==> r == Parse(data).0 && s.data == data[Parse(data).1..] && Benign(s.replies)
  {
    var word := new Byte[4];
    var ok, got := ReadAll(s, word, 0, 4);
    assert s.data == data[1 + got..];
    if !ok { return Error; }
    assert word[..] == word[0..0 + got] == data[1..][..4] == data[1..5];
    return WaitStatus(ToI32(FromLe32(word[..])));
  }

  /** The seven bytes behind the first byte of a failure. */
  method ReadFailureRest(s: Stream, first: Byte, ghost data: seq<Byte>) returns (r: ReadResult)
    requires data != [] && data[0] == first != TAG && s.data == data[1..]
    modifies s
    ensures !r.Error? ==> r == Parse(data).0 && s.data == data[FAILURE_SIZE..] && |data| >= FAILURE_SIZE
    ensures Benign(old(s.replies)) ==> r == Parse(data).0 && s.data == data[Parse(data).1..] && Benign(s.replies)
  {
    var failure := new Byte[FAILURE_SIZE];
    failure[0] := first;
    var ok, got := ReadAll(s, failure, 1, FAILURE_SIZE - 1);
    assert s.data == data[1 + got..];
    if !ok { return Error; }
    assert failure[1..1 + got] == data[1..][..7];
    assert forall i :: 1 <= i < FAILURE_SIZE ==> failure[i] == failure[1..8][i - 1] == data[i];
    assert failure[..] == data[..FAILURE_SIZE];
    return DecodeFailure(failure[..]);
  }

  // ---------------------------------------------------------------------------------------
  // The code is prefix-free
  // ---------------------------------------------------------------------------------------

  function Encodings(rs: seq<Record>): seq<Byte>
    requires forall r :: r in rs ==> Valid(r)
  {
    if rs == [] then [] else Encode(rs[0]) + Encodings(rs[1..])
  }

  function AsRead(r: Record): ReadResult
    requires Valid(r)
  {
    match r
    case SetupFailure(stage, error) => Payload(stage, error)
    case Forwarded(ws) => WaitStatus(ws)
  }

  function AllRead(rs: seq<Record>): seq<ReadResult>
    requires forall r :: r in rs ==> Valid(r)
  {
    if rs == [] then [] else [AsRead(rs[0])] + AllRead(rs[1..])
  }

  /** Reads until end of file or an error. */
  function Drain(data: seq<Byte>): seq<ReadResult>
    decreases |data|
  {
    var (r, n) := Parse(data);
    if r.Eof? || r.Error? then [r] else [r] + Drain(data[n..])
  }

  lemma FailurePayloadRoundTrip(stage: nat, error: I32)
    requires stage < U32_LIMIT
    ensures DecodeFailure(FailurePayload(stage, error)) == Payload(stage, error)
  {
    var p := FailurePayload(stage, error);
    assert p[..4] == Le32(stage) && p[4..] == Le32(ToU32(error));
    Le32RoundTrip(stage);
    Le32RoundTrip(ToU32(error));
  }

  lemma ParseRecord(r: Record, rest: seq<Byte>)
    requires Valid(r)
    ensures Parse(Encode(r) + rest) == (AsRead(r), |Encode(r)|)
  {
    var d := Encode(r) + rest;
    match r {
      case SetupFailure(stage, error) =>
        assert d[0] == Encode(r)[0] == stage;
        assert d[..FAILURE_SIZE] == FailurePayload(stage, error);
        FailurePayloadRoundTrip(stage, error);
      case Forwarded(ws) =>
        assert d[1..5] == Le32(ToU32(ws));
        Le32RoundTrip(ToU32(ws));
    }
  }

  lemma ParseTruncated(r: Record, n: nat)
    requires Valid(r) && 0 < n < |Encode(r)|
    ensures Parse(Encode(r)[..n]).0 == Error
  {
    assert Encode(r)[..n][0] == Encode(r)[0];
  }

  lemma DrainOne(r: Record, rest: seq<Byte>)
    requires Valid(r)
    ensures Drain(Encode(r) + rest) == [AsRead(r)] + Drain(rest)
  {
    ParseRecord(r, rest);
    assert (Encode(r) + rest)[|Encode(r)|..] == rest;
  }

  lemma {:induction false} DrainRecords(rs: seq<Record>, rest: seq<Byte>)
    requires forall r :: r in rs ==> Valid(r)
    ensures Drain(Encodings(rs) + rest) == AllRead(rs) + Drain(rest)
  {
    if rs == [] {
      assert Encodings(rs) + rest == rest && AllRead(rs) + Drain(rest) == Drain(rest);
    } else {
      var tail := Encodings(rs[1..]) + rest;
      assert Encodings(rs) + rest == Encode(rs[0]) + tail;
      DrainOne(rs[0], tail);
      DrainRecords(rs[1..], rest);
      assert AllRead(rs) + Drain(rest) == [AsRead(rs[0])] + (AllRead(rs[1..]) + Drain(rest));
    }
  }

  /** Any sequence of records reads back as that sequence, then end of file. */
  lemma StatusRoundTrip(rs: seq<Record>)
    requires forall r :: r in rs ==> Valid(r)
    ensures Drain(Encodings(rs)) == AllRead(rs) + [Eof]
  {
    DrainRecords(rs, []);
    assert Encodings(rs) + [] == Encodings(rs);
  }

  /** A stream cut inside a record is never mistaken for a shorter, valid one. */
  lemma TruncationDetected(rs: seq<Record>, r: Record, n: nat)
    requires forall x :: x in rs ==> Valid(x)
    requires Valid(r) && 0 < n < |Encode(r)|
    ensures Drain(Encodings(rs) + Encode(r)[..n]) == AllRead(rs) + [Error]
  {
    DrainRecords(rs, Encode(r)[..n]);
    ParseTruncated(r, n);
  }

  /**
   * The two readers agree exactly on the streams that do not start with a readable tagged
   * record: no data, no tag, or a tag whose word is cut short.
   */
  lemma ReadersAgree(data: seq<Byte>)
    ensures Parse(data) == ParseFailure(data) <==> data == [] || data[0] != TAG || |data| < 5
  {
  }

  /**
   * failSetup writes a whole framed message where a raw payload is expected. Whatever failed,
   * the reader is told (Namespace, 8): the message type read as a stage and the payload size
   * read as an errno. The true failure only follows as a second record.
   */
  lemma FramedFailureMisread(stage: nat, error: I32, rest: seq<Byte>)
    requires stage <= LAST_STAGE
    ensures var m := Message(Code(SetupFailed), FailurePayload(stage, error));
            && Parse(Frame(m) + rest) == (Payload(1, 8), FAILURE_SIZE)
            && Drain(Frame(m) + rest) == [Payload(1, 8), Payload(stage, error)] + Drain(rest)
  {
    var payload := FailurePayload(stage, error);
    var d := Frame(Message(Code(SetupFailed), payload)) + rest;
    var seen := SetupFailure(1, 8);
    var meant := SetupFailure(stage, error);
    ParseRecord(seen, payload + rest);
    assert d == Encode(seen) + (payload + rest);
    DrainOne(seen, payload + rest);
    DrainOne(meant, rest);
  }

  /** The same happens to a frame that was torn, exactly when the tear is behind its header. */
  lemma TornFailureMisread(stage: nat, error: I32, n: nat)
    requires stage <= LAST_STAGE && 0 < n <= HEADER_SIZE + FAILURE_SIZE
    ensures var torn := Frame(Message(Code(SetupFailed), FailurePayload(stage, error)))[..n];
            Parse(torn).0 == if n >= HEADER_SIZE then Payload(1, 8) else Error
  {
    var torn := Frame(Message(Code(SetupFailed), FailurePayload(stage, error)))[..n];
    var seen := SetupFailure(1, 8);
    if n >= HEADER_SIZE {
      assert torn == Encode(seen) + torn[HEADER_SIZE..];
      ParseRecord(seen, torn[HEADER_SIZE..]);
    } else {
      assert torn == Encode(seen)[..n];
      ParseTruncated(seen, n);
    }
  }

  // ---------------------------------------------------------------------------------------
  // Both ends together
  // ---------------------------------------------------------------------------------------

  lemma {:induction false} EncodingsAppend(rs: seq<Record>, r: Record)
    requires Valid(r) && forall x :: x in rs ==> Valid(x)
    ensures Encodings(rs + [r]) == Encodings(rs) + Encode(r)
  {
    if rs == [] {
      assert [r][1..] == [];
      assert Encode(r) + [] == Encode(r);
    } else {
      EncodingsAppend(rs[1..], r);
      assert (rs + [r])[1..] == rs[1..] + [r];
      assert Encode(rs[0]) + (Encodings(rs[1..]) + Encode(r)) == Encodings(rs) + Encode(r);
    }
  }

  /** report_failure or write_wait_status. */
  method WriteRecord(s: Stream, r: Record) returns (ok: bool, ghost sent: nat)
    requires Valid(r)
    modifies s
    ensures sent <= |Encode(r)| && s.data == old(s.data) + Encode(r)[..sent]
    ensures ok <==> sent == |Encode(r)|
    ensures Benign(old(s.replies)) ==> ok && Benign(s.replies)
  {
    match r {
      case SetupFailure(stage, error) => ok, sent := WriteAll(s, FailurePayload(stage, error));
      case Forwarded(ws) => ok, sent := WriteWaitStatus(s, ws);
    }
  }

  method WriteRecords(s: Stream, rs: seq<Record>)
    requires s.data == [] && Benign(s.replies) && forall r :: r in rs ==> Valid(r)
    modifies s
    ensures s.data == Encodings(rs)
  {
    var i := 0;
    while i < |rs|
      invariant 0 <= i <= |rs|
      invariant s.data == Encodings(rs[..i]) && Benign(s.replies)
    {
      var ok, sent := WriteRecord(s, rs[i]);
      assert Encode(rs[i])[..sent] == Encode(rs[i]);
      assert rs[..i + 1] == rs[..i] + [rs[i]];
      EncodingsAppend(rs[..i], rs[i]);
      i := i + 1;
    }
    assert rs[..i] == rs;
  }

  /** One record off the front. */
  lemma FirstRead(rs: seq<Record>)
    requires rs != [] && forall r :: r in rs ==> Valid(r)
    ensures var (r, n) := Parse(Encodings(rs)); r == AsRead(rs[0]) && Encodings(rs)[n..] == Encodings(rs[1..])
  {
    ParseRecord(rs[0], Encodings(rs[1..]));
    assert Encodings(rs)[|Encode(rs[0])|..] == Encodings(rs[1..]);
  }

  lemma {:induction false} AllReadAppend(rs: seq<Record>, r: Record)
    requires Valid(r) && forall x :: x in rs ==> Valid(x)
    ensures AllRead(rs + [r]) == AllRead(rs) + [AsRead(r)]
  {
    if rs != [] {
      AllReadAppend(rs[1..], r);
      assert (rs + [r])[1..] == rs[1..] + [r];
    }
  }

  /**
   * Any sequence of records, written by the children and read by the supervisor under any finite
   * pattern of short transfers and interruptions on either side, is read as that sequence, and
   * then end of file.
   */
  method ExchangeRecords(rs: seq<Record>, sending: seq<IoReply>, receiving: seq<IoReply>)
    returns (received: seq<ReadResult>, last: ReadResult)
    requires forall r :: r in rs ==> Valid(r)
    requires Benign(sending) && Benign(receiving)
    ensures received == AllRead(rs) && last == Eof
  {
    var s := new Stream([], sending);
    WriteRecords(s, rs);
    s.replies := receiving;
    received := [];
    ghost var i := 0;
    assert rs[0..] == rs && rs[..0] == [];
    last := ReadStatusPipe(s);
    if rs != [] { FirstRead(rs); }
    while !last.Eof?
      invariant 0 <= i <= |rs| && fresh(s) && Benign(s.replies)
      invariant received == AllRead(rs[..i])
      invariant if i == |rs| then last == Eof else last == AsRead(rs[i]) && s.data == Encodings(rs[i + 1..])
      decreases |rs| - i
    {
      received := received + [last];
      AllReadAppend(rs[..i], rs[i]);
      assert rs[..i + 1] == rs[..i] + [rs[i]];
      i := i + 1;
      if i < |rs| { FirstRead(rs[i..]); }
      last := ReadStatusPipe(s);
    }
    assert rs[..i] == rs;
  }
}
