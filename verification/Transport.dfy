/**
 Packets over a stream: exact reads and complete writes out of partial ones, the 4-byte
 header, and the sequence id that every session packet must carry.
 */
module Transport {
  import opened Basics
  import opened PacketHeaders
  import opened Sockets
  import opened WireErrors
  import opened WireTypes

  // ------------------------------------------------------ exact reads, complete writes

  /** `t` is `s` after some reading and nothing else. */
  ghost predicate OnlyRead(s: Stream, t: Stream) {
    t == s.(readPos := t.readPos, readAt := t.readAt) && s.readAt <= t.readAt && s.readPos <= t.readPos
  }

  /** Reading until `n` bytes have come in, a failure apart. */
  function Pull(s: Stream, n: nat): (r: (Option<Tag>, Stream))
    ensures OnlyRead(s, r.1)
    ensures r.0.None? ==> r.1.readPos == s.readPos + n
    ensures r.0.Some? ==> r.0.value in {WireReadFailed, WireReadEof} && r.1.readPos < s.readPos + n
    decreases n
  {
    if n == 0 then (None, s)
    else match ReadSome(s, n)
      case (Failed(_), t) => (Some(WireReadFailed), t)
      case (Moved(k), t) => if k == 0 then (Some(WireReadEof), t) else Pull(t, n - k)
  }

  /** The next `n` bytes of the stream, or a transport failure. */
  function ReadExact(s: Stream, n: nat): (Result<seq<byte>, Tag>, Stream) {
    match Pull(s, n)
    case (Some(e), t) => (Err(e), t)
    case (None, t) => (Ok(s.incoming[s.readPos..t.readPos]), t)
  }

  function WriteAll(s: Stream, bytes: seq<byte>): (r: (Result<(), Tag>, Stream))
    ensures r.1 == s.(accepted := r.1.accepted, writeAt := r.1.writeAt)
    ensures s.accepted <= r.1.accepted <= s.accepted + bytes
    ensures r.0.Ok? <==> r.1.accepted == s.accepted + bytes
    ensures r.0.Err? ==> r.0.error == WireWriteFailed
    decreases |bytes|
  {
    if bytes == [] then (Ok(()), s)
    else match WriteSome(s, bytes)
      case (Failed(_), t) => (Err(WireWriteFailed), t)
      case (Moved(k), t) =>
        if k == 0 then (Err(WireWriteFailed), t)
        else
          assert s.accepted + bytes == t.accepted + bytes[k..];
          WriteAll(t, bytes[k..])
  }

  /** A stream that keeps giving, with enough to give, never fails an exact read. */
  lemma {:induction false} PullSucceeds(s: Stream, n: nat)
    requires KeepsGiving(s) && s.readPos + n <= |s.incoming|
    ensures Pull(s, n).0.None? && KeepsGiving(Pull(s, n).1)
    decreases n
  {
    if n > 0 {
      var (got, t) := ReadSome(s, n);
      PullSucceeds(t, n - got.count);
    }
  }

  predicate MovesSome(schedule: Schedule, k: nat) {
    StepAt(schedule, k).Give? && StepAt(schedule, k).max > 0
  }

  lemma FirstReadTells(s: Stream, n: nat)
    requires n > 0
    ensures var (got, t) := ReadSome(s, n);
            && OnlyRead(s, t) && t.readAt == s.readAt + 1
            && (got == Moved(0) <==> s.isOpen && StepAt(s.gives, s.readAt) == Give(0))
            && (got.Moved? && got.count > 0 ==> MovesSome(s.gives, s.readAt))
  {}

  /** An exact read that fails has met the end of the stream if its last call gave nothing, and
      a failure otherwise; in between it has gone on. */
  lemma {:induction false} PullFailsAtItsLastCall(s: Stream, n: nat)
    requires Pull(s, n).0.Some?
    ensures var (e, t) := Pull(s, n);
            && s.readAt < t.readAt
            && (e == Some(WireReadEof) <==> s.isOpen && StepAt(s.gives, t.readAt - 1) == Give(0))
            && forall k :: s.readAt <= k < t.readAt - 1 ==> MovesSome(s.gives, k)
    decreases n
  {
    var (got, t) := ReadSome(s, n);
    FirstReadTells(s, n);
    if got.Moved? && got.count > 0 {
      hide ReadSome;
      PullFailsAtItsLastCall(t, n - got.count);
    }
  }

  /** A complete write stops at the first call that fails or takes nothing. */
  lemma {:induction false} WriteAllFailsAtItsLastCall(s: Stream, bytes: seq<byte>)
    requires WriteAll(s, bytes).0.Err? && s.isOpen
    ensures var t := WriteAll(s, bytes).1;
            && s.writeAt < t.writeAt
            && (var last := StepAt(s.takes, t.writeAt - 1); last.Give? ==> last.max == 0)
            && forall k :: s.writeAt <= k < t.writeAt - 1 ==> MovesSome(s.takes, k)
    decreases |bytes|
  {
    var (took, t) := WriteSome(s, bytes);
    if took.Moved? && took.count > 0 {
      assert MovesSome(s.takes, s.writeAt);
      WriteAllFailsAtItsLastCall(t, bytes[took.count..]);
    }
  }

  lemma {:induction false} WriteAllSucceeds(s: Stream, bytes: seq<byte>, more: nat)
    requires KeepsTaking(s, |bytes| + more)
    ensures WriteAll(s, bytes).0.Ok? && KeepsTaking(WriteAll(s, bytes).1, more)
    decreases |bytes|
  {
    if bytes != [] {
      var (took, t) := WriteSome(s, bytes);
      WriteAllSucceeds(t, bytes[took.count..], more);
    }
  }

  /** `out` is what has come in since `s`, out of the `n` bytes wanted. */
  ghost predicate Reading(s: Stream, n: nat, out: seq<byte>, now: Stream) {
    && |out| <= n && OnlyRead(s, now) && now.readPos == s.readPos + |out|
    && out == s.incoming[s.readPos..now.readPos]
    && Pull(s, n) == Pull(now, n - |out|)
  }

  method DoReadExact(stream: TcpStream, n: nat) returns (r: Result<seq<byte>, Tag>)
    modifies stream
    ensures (r, stream.state) == ReadExact(old(stream.state), n)
  {
    var out: seq<byte> := [];
    ghost var s := stream.state;
    while |out| < n
      invariant Reading(s, n, out, stream.state)
      decreases n - |out|
    {
      var more := ReadMore(stream, s, n, out);
      if more.Err? {
        return Err(more.error);
      }
      out := more.value;
    }
    return Ok(out);
  }

  /** One turn of the reading loop. */
  method ReadMore(stream: TcpStream, ghost s: Stream, n: nat, out: seq<byte>) returns (r: Result<seq<byte>, Tag>)
    requires Reading(s, n, out, stream.state) && |out| < n
    modifies stream
    ensures r.Ok? ==> |out| < |r.value| && Reading(s, n, r.value, stream.state)
    ensures r.Err? ==> Pull(s, n) == (Some(r.error), stream.state)
  {
    ghost var before := stream.state;
    var got, bytes := stream.Read(n - |out|);
    if got.Failed? {
      return Err(WireReadFailed);
    }
    if got.count <= 0 {
      return Err(WireReadEof);
    }
    SlicesJoin(s.incoming, s.readPos, before.readPos, stream.state.readPos);
    return Ok(out + bytes);
  }

  lemma SlicesJoin(bytes: seq<byte>, a: nat, b: nat, c: nat)
    requires a <= b <= c <= |bytes|
    ensures bytes[a..b] + bytes[b..c] == bytes[a..c]
  {}

  method DoWriteAll(stream: TcpStream, bytes: seq<byte>) returns (r: Result<(), Tag>)
    modifies stream
    ensures (r, stream.state) == WriteAll(old(stream.state), bytes)
  {
    hide WriteSome;
    var off := 0;
    while off < |bytes|
      invariant 0 <= off <= |bytes|
      invariant WriteAll(old(stream.state), bytes) == WriteAll(stream.state, bytes[off..])
    {
      var w := stream.Write(bytes[off..]);
      match w {
        case Failed(_) => return Err(WireWriteFailed);
        case Moved(k) =>
          if k <= 0 {
            return Err(WireWriteFailed);
          }
          assert bytes[off..][k..] == bytes[off + k..];
          off := off + k;
      }
    }
    return Ok(());
  }

  // ------------------------------------------------------ packets of a session

  function NextSeq(seqId: byte): byte {
    (seqId as int + 1) % 256
  }

  function PacketBytes(payload: seq<byte>, seqId: byte): seq<byte> {
    Header(|payload|, seqId) + payload
  }

  ghost predicate OnlyReadPacket(s: Session, t: Session) {
    t == s.(stream := t.stream, expectedSeq := t.expectedSeq) && OnlyRead(s.stream, t.stream)
  }

  /** Reads a header and demands the expected sequence id; yields the declared length. */
  function ReadHeader(s: Session): (r: (Result<nat, Tag>, Session))
    ensures OnlyReadPacket(s, r.1)
    ensures r.0.Ok? ==> r.1.stream.readPos == s.stream.readPos + 4
    ensures r.0.Err? ==> r.0.error in {WireReadFailed, WireReadEof, WireSequenceMismatch}
  {
    match ReadExact(s.stream, 4)
    case (Err(e), t) => (Err(e), s.(stream := t))
    case (Ok(header), t) =>
      if header[3] != s.expectedSeq then (Err(WireSequenceMismatch), s.(stream := t))
      else (Ok(Declared(header)), s.(stream := t, expectedSeq := NextSeq(s.expectedSeq)))
  }

  /**
   Reads one packet. A payload is never longer than the protocol's maximum, because three
   header bytes cannot say more.
   */
  function ReadPacket(s: Session): (r: (Result<seq<byte>, Tag>, Session))
    ensures OnlyReadPacket(s, r.1)
    ensures r.0.Ok? ==> s.stream.readPos < r.1.stream.readPos
    ensures r.0.Err? ==> r.0.error in {WireReadFailed, WireReadEof, WireSequenceMismatch}
  {
    match ReadHeader(s)
    case (Err(e), t) => (Err(e), t)
    case (Ok(len), t) =>
      var (r, u) := ReadExact(t.stream, len);
      (r, t.(stream := u))
  }

  /** The bytes at `pos` are the packet that carries `payload` under `seqId`. */
  ghost predicate PacketAt(bytes: seq<byte>, pos: nat, payload: seq<byte>, seqId: byte) {
    && pos + 4 + |payload| <= |bytes|
    && |payload| <= MAX_PAYLOAD_LEN
    && bytes[pos..pos + 4] == Header(|payload|, seqId)
    && bytes[pos + 4..pos + 4 + |payload|] == payload
  }

  ghost predicate OnlyWritten(s: Session, t: Session) {
    t == s.(stream := s.stream.(accepted := t.stream.accepted, writeAt := t.stream.writeAt),
            expectedSeq := t.expectedSeq)
  }

  function WritePacket(s: Session, payload: seq<byte>): (r: (Result<(), Tag>, Session))
    ensures OnlyWritten(s, r.1)
    ensures r.0.Err? ==> r.0.error == if |payload| > MAX_PAYLOAD_LEN then InvalidPayloadLen else WireWriteFailed
  {
    var after := s.(expectedSeq := NextSeq(s.expectedSeq));
    if |payload| > MAX_PAYLOAD_LEN then (Err(InvalidPayloadLen), after)
    else
      var (r, t) := WriteAll(s.stream, PacketBytes(payload, s.expectedSeq));
      (r, after.(stream := t))
  }

  /** A successful read took exactly one packet off the stream, with the id expected. */
  lemma ReadPacketTakesOne(s: Session)
    requires ReadPacket(s).0.Ok?
    ensures var (r, t) := ReadPacket(s);
            && PacketAt(s.stream.incoming, s.stream.readPos, r.value, s.expectedSeq)
            && t.stream.readPos == s.stream.readPos + 4 + |r.value|
            && t.expectedSeq == NextSeq(s.expectedSeq)
  {
    var h := ReadExact(s.stream, 4).0.value;
    HeaderBytes(h);
    assert h[..4] == h;
  }

  lemma PacketIsThere(bytes: seq<byte>, pos: nat, payload: seq<byte>, seqId: byte)
    requires PacketAt(bytes, pos, payload, seqId)
    ensures pos + 4 + |payload| <= |bytes|
  {}

  lemma HeaderBytesRead(s: Session, payload: seq<byte>)
    requires PacketAt(s.stream.incoming, s.stream.readPos, payload, s.expectedSeq)
    ensures ReadExact(s.stream, 4).0.Ok? ==>
              ReadExact(s.stream, 4).0.value[3] == s.expectedSeq
              && Declared(ReadExact(s.stream, 4).0.value) == |payload|
  {
    hide Pull, Header, Declared;
    HeaderDeclares(|payload|, s.expectedSeq);
  }

  lemma ReadHeaderIsExact(s: Session, payload: seq<byte>)
    requires PacketAt(s.stream.incoming, s.stream.readPos, payload, s.expectedSeq)
    ensures ReadHeader(s).0.Ok? ==>
              ReadHeader(s).0.value == |payload| && ReadHeader(s).1.expectedSeq == NextSeq(s.expectedSeq)
    ensures ReadHeader(s).0.Err? ==> ReadHeader(s).0.error in {WireReadFailed, WireReadEof}
    ensures KeepsGiving(s.stream) ==> ReadHeader(s).0.Ok? && KeepsGiving(ReadHeader(s).1.stream)
  {
    hide PacketAt, Pull, KeepsGiving, Declared;
    HeaderBytesRead(s, payload);
    PacketIsThere(s.stream.incoming, s.stream.readPos, payload, s.expectedSeq);
    if KeepsGiving(s.stream) {
      PullSucceeds(s.stream, 4);
    }
  }

  /**
   However the reads are cut up: with a packet of the expected id in front, a read either
   fails in the transport or yields that packet and leaves everything behind it.
   */
  lemma ReadPacketIsExact(s: Session, payload: seq<byte>)
    requires PacketAt(s.stream.incoming, s.stream.readPos, payload, s.expectedSeq)
    ensures ReadPacket(s).0.Ok? ==>
              && ReadPacket(s).0.value == payload
              && ReadPacket(s).1.stream.readPos == s.stream.readPos + 4 + |payload|
              && ReadPacket(s).1.expectedSeq == NextSeq(s.expectedSeq)
    ensures ReadPacket(s).0.Err? ==> ReadPacket(s).0.error in {WireReadFailed, WireReadEof}
    ensures KeepsGiving(s.stream) ==> ReadPacket(s).0.Ok? && KeepsGiving(ReadPacket(s).1.stream)
  {
    ReadHeaderIsExact(s, payload);
    if ReadHeader(s).0.Ok? {
      ReadBodyIsExact(ReadHeader(s).1.stream, |payload|);
    }
  }

  lemma ReadBodyIsExact(s: Stream, n: nat)
    requires s.readPos + n <= |s.incoming|
    ensures ReadExact(s, n).0.Ok? ==> ReadExact(s, n).0.value == s.incoming[s.readPos..s.readPos + n]
    ensures ReadExact(s, n).0.Err? ==> ReadExact(s, n).0.error in {WireReadFailed, WireReadEof}
    ensures KeepsGiving(s) ==> ReadExact(s, n).0.Ok? && KeepsGiving(ReadExact(s, n).1)
  {
    if KeepsGiving(s) {
      PullSucceeds(s, n);
    }
  }

  method SessionReadPacket(session: WireSession) returns (r: Result<seq<byte>, Tag>)
    modifies session`expectedSeq, session.stream
    ensures (r, session.View()) == ReadPacket(old(session.View()))
  {
    var header := DoReadExact(session.stream, 4);
    if header.Err? {
      return Err(header.error);
    }
    if header.value[3] != session.expectedSeq {
      return Err(WireSequenceMismatch);
    }
    session.expectedSeq := NextSeq(session.expectedSeq);
    r := DoReadExact(session.stream, Declared(header.value));
  }

  method SessionWritePacket(session: WireSession, payload: seq<byte>) returns (r: Result<(), Tag>)
    modifies session`expectedSeq, session.stream
    ensures (r, session.View()) == WritePacket(old(session.View()), payload)
  {
    var seqId := session.expectedSeq;
    session.expectedSeq := NextSeq(session.expectedSeq);
    if |payload| > MAX_PAYLOAD_LEN {
      return Err(InvalidPayloadLen);
    }
    r := DoWriteAll(session.stream, Header(|payload|, seqId) + payload);
  }

  // ------------------------------------------------------ many packets

  ghost predicate FitPackets(payloads: seq<seq<byte>>) {
    forall p :: p in payloads ==> |p| <= MAX_PAYLOAD_LEN
  }

  function WritePackets(s: Session, payloads: seq<seq<byte>>): (Result<(), Tag>, Session)
    decreases |payloads|
  {
    if payloads == [] then (Ok(()), s)
    else match WritePacket(s, payloads[0])
      case (Err(e), t) => (Err(e), t)
      case (Ok(_), t) => WritePackets(t, payloads[1..])
  }

  function ReadPackets(s: Session, n: nat): (r: (Result<seq<seq<byte>>, Tag>, Session))
    ensures OnlyReadPacket(s, r.1)
    decreases n
  {
    if n == 0 then (Ok([]), s)
    else match ReadPacket(s)
      case (Err(e), t) => (Err(e), t)
      case (Ok(p), t) =>
        match ReadPackets(t, n - 1)
        case (Err(e), u) => (Err(e), u)
        case (Ok(ps), u) => (Ok([p] + ps), u)
  }

  /** Consecutive packets at `pos`, with ids that count up from `seqId`, modulo 256. */
  ghost predicate PacketsAt(bytes: seq<byte>, pos: nat, payloads: seq<seq<byte>>, seqId: byte)
    decreases |payloads|
  {
    payloads == [] ||
    (&& PacketAt(bytes, pos, payloads[0], seqId)
     && PacketsAt(bytes, pos + 4 + |payloads[0]|, payloads[1..], NextSeq(seqId)))
  }

  function WireLength(payloads: seq<seq<byte>>): nat {
    if payloads == [] then 0 else 4 + |payloads[0]| + WireLength(payloads[1..])
  }

  lemma PacketInPlace(before: seq<byte>, payload: seq<byte>, seqId: byte, after: seq<byte>)
    requires |payload| <= MAX_PAYLOAD_LEN && before + PacketBytes(payload, seqId) <= after
    ensures PacketAt(after, |before|, payload, seqId)
  {
    var bytes := before + PacketBytes(payload, seqId);
    assert after[|before|..|before| + 4] == bytes[|before|..|before| + 4] == Header(|payload|, seqId);
    assert after[|before| + 4..|bytes|] == bytes[|before| + 4..] == payload;
  }

  /** What a session has written is its packets, one behind the other, ids counting up. */
  lemma {:induction false} WrittenPacketsAreThere(s: Session, payloads: seq<seq<byte>>, after: seq<byte>)
    requires WritePackets(s, payloads).0.Ok? && WritePackets(s, payloads).1.stream.accepted <= after
    ensures PacketsAt(after, |s.stream.accepted|, payloads, s.expectedSeq)
    ensures |WritePackets(s, payloads).1.stream.accepted| == |s.stream.accepted| + WireLength(payloads)
    ensures s.stream.accepted <= after
    decreases |payloads|
  {
    hide WriteAll, PacketAt;
    if payloads != [] {
      var (_, t) := WritePacket(s, payloads[0]);
      assert t.stream.accepted == s.stream.accepted + PacketBytes(payloads[0], s.expectedSeq);
      WrittenPacketsAreThere(t, payloads[1..], after);
      PacketInPlace(s.stream.accepted, payloads[0], s.expectedSeq, after);
    }
  }

  /** Reading as many packets yields these, up to position `end`, unless the transport fails. */
  ghost predicate Delivers(s: Session, payloads: seq<seq<byte>>, end: nat) {
    var (r, t) := ReadPackets(s, |payloads|);
    && (r.Ok? ==> r.value == payloads && t.stream.readPos == end)
    && (r.Err? ==> r.error in {WireReadFailed, WireReadEof})
    && (KeepsGiving(s.stream) ==> r.Ok?)
  }

  lemma {:induction false} ReadPacketsAt(s: Session, payloads: seq<seq<byte>>)
    requires PacketsAt(s.stream.incoming, s.stream.readPos, payloads, s.expectedSeq)
    ensures Delivers(s, payloads, s.stream.readPos + WireLength(payloads))
    decreases |payloads|
  {
    if payloads != [] {
      ReadPacketIsExact(s, payloads[0]);
      if ReadPacket(s).0.Ok? {
        ReadPacketsAt(ReadPacket(s).1, payloads[1..]);
        assert payloads == [payloads[0]] + payloads[1..];
      }
    }
  }

  /**
   Fragmentation never matters: whatever pattern of short writes got the packets out and
   whatever pattern of short reads brings them in, what is read is what was written, in
   order, with ids that agree however many packets there are, and nothing behind them is
   touched.
   */
  lemma PacketsSurviveTheWire(writer: Session, payloads: seq<seq<byte>>, sent: seq<byte>, reader: Session)
    requires WritePackets(writer, payloads).0.Ok? && WritePackets(writer, payloads).1.stream.accepted == sent
    requires reader.expectedSeq == writer.expectedSeq && reader.stream.readPos == |writer.stream.accepted|
    requires sent <= reader.stream.incoming
    ensures Delivers(reader, payloads, |sent|)
  {
    WrittenPacketsAreThere(writer, payloads, reader.stream.incoming);
    ReadPacketsAt(reader, payloads);
  }

  /** And with streams that keep moving, neither side fails. */
  lemma {:induction false} WritesSucceed(writer: Session, payloads: seq<seq<byte>>)
    requires KeepsTaking(writer.stream, WireLength(payloads)) && FitPackets(payloads)
    ensures WritePackets(writer, payloads).0.Ok?
    decreases |payloads|
  {
    if payloads != [] {
      assert payloads[0] in payloads;
      WriteAllSucceeds(writer.stream, PacketBytes(payloads[0], writer.expectedSeq), WireLength(payloads[1..]));
      WritesSucceed(WritePacket(writer, payloads[0]).1, payloads[1..]);
    }
  }
}
