/**
 What becomes of the packets that an early end of a statement leaves on the stream. An OK that
 promises more results is taken for the end; the next command then meets the rest of the old
 response. Its sequence ids give it away, except when they happen to start again at 1.
 */
module StaleAnswers {
  import opened Basics
  import opened Commands
  import opened CommitOutcomes
  import opened PacketCodec
  import opened PacketHeaders
  import opened ServerResponses
  import opened SessionRuns
  import opened SessionTheorems
  import opened Sockets
  import opened Statements
  import opened Transport
  import opened WireErrors
  import opened WireTypes

  /** The session once a command has been written, if it could be. */
  function Sent(s: Session, command: seq<byte>): (Result<(), Tag>, Session) {
    WritePacket(s.(expectedSeq := 0), command)
  }

  lemma PacketInFront(s: Session, p: seq<byte>, rest: Payloads, end: nat)
    requires Facing(s, [p] + rest, end)
    ensures PacketAt(s.stream.incoming, s.stream.readPos, p, s.expectedSeq)
  {
    assert ([p] + rest)[0] == p;
  }

  lemma OtherIdIsRefused(s: Session, p: seq<byte>, seqId: byte)
    requires PacketAt(s.stream.incoming, s.stream.readPos, p, seqId) && KeepsGiving(s.stream)
    requires seqId != s.expectedSeq
    ensures ReadOrDie(s).0 == Err(WireSequenceMismatch)
  {
    HeaderDeclares(|p|, seqId);
    PullSucceeds(s.stream, 4);
  }

  lemma SameIdIsRead(s: Session, p: seq<byte>)
    requires PacketAt(s.stream.incoming, s.stream.readPos, p, s.expectedSeq) && KeepsGiving(s.stream)
    ensures ReadOrDie(s).0 == Ok(p)
  {
    hide ReadPacket;
    ReadPacketIsExact(s, p);
  }

  /** A left-over packet passes for the answer to the next command if and only if the
      session has come to expect id 1 again; otherwise the session dies. */
  lemma StaleAnswerPassesExactlyAtIdOne(s: Session, command: seq<byte>, stale: seq<byte>, rest: Payloads, end: nat)
    requires Ready(s) && Facing(s, [stale] + rest, end) && Sent(s, command).0.Ok?
    ensures SendReceive(s, command).0 == if s.expectedSeq == 1 then Ok(stale) else Err(WireSequenceMismatch)
    ensures s.expectedSeq != 1 ==> SendReceive(s, command).1.isClosed
  {
    hide WriteAll, PacketsAt, ReadPacket;
    PacketInFront(s, stale, rest, end);
    var asked := Sent(s, command).1;
    if s.expectedSeq == 1 {
      SameIdIsRead(asked, stale);
    } else {
      OtherIdIsRefused(asked, stale, s.expectedSeq);
    }
  }

  // ------------------------------------------------------ which id is expected when

  function IdAfter(seqId: byte, n: nat): byte {
    (seqId as int + n) % 256
  }

  lemma {:induction false} PacketsFurtherOn(bytes: seq<byte>, pos: nat, front: Payloads, left: Payloads, seqId: byte)
    requires PacketsAt(bytes, pos, front + left, seqId)
    ensures WireLength(front + left) == WireLength(front) + WireLength(left)
    ensures PacketsAt(bytes, pos + WireLength(front), left, IdAfter(seqId, |front|))
    decreases |front|
  {
    hide PacketAt, IdAfter;
    if front == [] {
      assert front + left == left;
      NoIdAfter(seqId);
    } else {
      assert (front + left)[1..] == front[1..] + left && (front + left)[0] == front[0];
      PacketsFurtherOn(bytes, pos + 4 + |front[0]|, front[1..], left, NextSeq(seqId));
      OneIdAfter(seqId, |front| - 1);
    }
  }

  lemma NoIdAfter(seqId: byte)
    ensures IdAfter(seqId, 0) == seqId
  {}

  lemma OneIdAfter(seqId: byte, n: nat)
    ensures IdAfter(NextSeq(seqId), n) == IdAfter(seqId, n + 1)
  {}

  lemma SamePlaceSameId(bytes: seq<byte>, pos: nat, p: seq<byte>, x: byte, y: byte)
    requires PacketAt(bytes, pos, p, x) && PacketAt(bytes, pos, p, y)
    ensures x == y
  {
    HeaderDeclares(|p|, x);
    HeaderDeclares(|p|, y);
  }

  lemma {:induction false} RowPacketsSplit(rows: seq<seq<Cell>>, behind: Payloads) returns (front: Payloads)
    ensures RowPackets(rows, behind) == front + behind && |front| == |rows|
    decreases |rows|
  {
    if rows == [] {
      front := [];
      assert [] + behind == behind;
    } else {
      var more := RowPacketsSplit(rows[1..], behind);
      front := [EncodeRow(rows[0])] + more;
      assert [EncodeRow(rows[0])] + (more + behind) == front + behind;
    }
  }

  lemma {:induction false} DefPacketsSplit(defs: seq<ColumnDef>, behind: Payloads) returns (front: Payloads)
    ensures DefPackets(defs, behind) == front + behind && |front| == |defs|
    decreases |defs|
  {
    if defs == [] {
      front := [];
      assert [] + behind == behind;
    } else {
      var more := DefPacketsSplit(defs[1..], behind);
      front := [EncodeColumnDef(defs[0])] + more;
      assert [EncodeColumnDef(defs[0])] + (more + behind) == front + behind;
    }
  }

  /** How many packets a resultset takes up to the end of its rows. */
  function SetSize(table: ResultSet): nat {
    1 + (if table.sendDefs then |table.cols| + 1 else 0) + |table.rows|
  }

  lemma SetPacketsSplit(table: ResultSet, suppression: bool, behind: Payloads) returns (front: Payloads)
    ensures SetPackets(table, suppression, behind) == front + behind && |front| == SetSize(table)
  {
    hide EncodeColumnCount;
    var first := [EncodeColumnCount(|table.cols|, if suppression then Some(table.sendDefs) else None)];
    var rows := RowPacketsSplit(table.rows, behind);
    if table.sendDefs {
      var defs := DefPacketsSplit(table.cols, [table.defsEof] + (rows + behind));
      front := first + defs + [table.defsEof] + rows;
      assert first + (defs + ([table.defsEof] + (rows + behind))) == front + behind;
    } else {
      front := first + rows;
      assert first + (rows + behind) == front + behind;
    }
  }

  /** How many packets the reader takes of a response before it stops. */
  function Consumed(r: Response): nat {
    match r
    case Nothing => 0
    case OkPart(_, _, _) => 1
    case ErrPart(_) => 1
    case SetPart(table, more) => SetSize(table) + 1 + Consumed(more)
    case CutPart(table, _) => SetSize(table) + 1
  }

  lemma {:induction false} LeftIsTheRest(r: Response, suppression: bool, status: nat, warnings: nat)
    returns (front: Payloads)
    ensures Packets(r, suppression) == front + StopOf(r, suppression, status, warnings).left
    ensures |front| == Consumed(r)
    decreases r
  {
    hide SetPackets, SetSize;
    var left := StopOf(r, suppression, status, warnings).left;
    match r
    case Nothing => front := [];
    case OkPart(ok, info, _) => front := [EncodeOk(ok, info)];
    case ErrPart(err) =>
      front := [EncodeErr(err)];
      assert front + [] == front;
    case SetPart(table, more) =>
      var behind := LeftIsTheRest(more, suppression, table.status, table.warnings);
      var eof := [EncodeEof(table.status, table.warnings)];
      var table' := SetPacketsSplit(table, suppression, eof + Packets(more, suppression));
      front := table' + eof + behind;
      assert table' + (eof + (behind + left)) == front + left;
    case CutPart(table, err) =>
      var table' := SetPacketsSplit(table, suppression, [EncodeErr(err)]);
      front := table' + [EncodeErr(err)];
      assert front + [] == front;
  }

  lemma {:induction false} ReadAllKeeps(w: Reader)
    requires ReaderSound(w)
    ensures WroteNothing(w.s, ReadAll(w).1.s) && ReaderSound(ReadAll(w).1)
    decreases Unread(w.s)
  {
    hide Advance;
    AdvanceWritesNothing(w);
    AdvanceMakesProgress(w);
    NextEventErrorsKill(w);
    if NextEvent(w).0.Ok? && !EndsStatement(NextEvent(w).0.value) {
      ReadAllKeeps(NextEvent(w).1);
    }
  }

  /** The session after a query whose response has been read as far as it goes. */
  function AfterReading(s: Session, sql: Sql): Session
    requires Query(s, sql).0.Ok?
  {
    ReadAll(Reader(Query(s, sql).1, Query(s, sql).0.value)).1.s
  }

  /** An early end leaves a ready session in front of the rest, expecting the id that the
      packets consumed lead to. */
  lemma EarlyEnd(s: Session, sql: Sql, r: Response, end: nat)
    requires Answered(s, sql, r, end)
    requires Expected(r).error.None? && StopAfter(r, s).left != []
    ensures Query(s, sql).0.Ok?
    ensures var last := AfterReading(s, sql);
            && Sound(last) && Ready(last) && Facing(last, StopAfter(r, s).left, end)
            && WroteNothing(Asked(s, sql).1, last)
            && last.expectedSeq == IdAfter(1, Consumed(r))
  {
    hide ReadAll, Valid, Expected, Packets, PacketsAt, KeepsGiving, Query, StopOf, Consumed, Asked;
    QueryReadsResponse(s, sql, r, end);
    QuerySound(s, sql);
    var w := Reader(Query(s, sql).1, Query(s, sql).0.value);
    ReadAllKeeps(w);
    QueryWrites(s, sql);
    var last := AfterReading(s, sql);
    var left := StopAfter(r, s).left;
    var front := LeftIsTheRest(r, s.suppression, s.lastStatus, s.lastWarnings);
    var asked := Asked(s, sql).1;
    PacketsFurtherOn(asked.stream.incoming, asked.stream.readPos, front, left, asked.expectedSeq);
    AskedExpectsOne(s, sql);
    assert [left[0]] + left[1..] == left;
    PacketInFront(last, left[0], left[1..], end);
    FirstOf(asked.stream.incoming, asked.stream.readPos + WireLength(front), left, IdAfter(1, |front|));
    SamePlaceSameId(asked.stream.incoming, last.stream.readPos, left[0], last.expectedSeq, IdAfter(1, |front|));
  }

  lemma FirstOf(bytes: seq<byte>, pos: nat, ps: Payloads, seqId: byte)
    requires ps != [] && PacketsAt(bytes, pos, ps, seqId)
    ensures PacketAt(bytes, pos, ps[0], seqId)
  {}

  lemma AskedExpectsOne(s: Session, sql: Sql)
    ensures Asked(s, sql).1.expectedSeq == 1
  {
    hide WriteAll;
  }

  lemma QueryWrites(s: Session, sql: Sql)
    requires Ready(s) && Asked(s, sql).0.Ok?
    ensures WroteNothing(Asked(s, sql).1, Query(s, sql).1)
  {
    hide WritePacket, ReadOrDie, InitFromFirst;
    ReadOrDieWritesNothing(Asked(s, sql).1);
  }

  /**
   After an early end the next command is answered by the rest of the old response if and
   only if the packets read of it are a multiple of 256; otherwise the session dies.
   */
  lemma StaleAnswerPassesExactly(s: Session, sql: Sql, r: Response, end: nat, command: seq<byte>)
    requires Answered(s, sql, r, end)
    requires Expected(r).error.None? && StopAfter(r, s).left != []
    ensures Query(s, sql).0.Ok?
    ensures var last := AfterReading(s, sql);
            Sent(last, command).0.Ok? ==>
              SendReceive(last, command).0 == if Consumed(r) % 256 == 0 then Ok(StopAfter(r, s).left[0])
                                              else Err(WireSequenceMismatch)
  {
    hide ReadAll, Query, Expected, Packets, PacketsAt, KeepsGiving, StopOf, Consumed, SendReceive, Sent, Answered;
    EarlyEnd(s, sql, r, end);
    var last := AfterReading(s, sql);
    var left := StopAfter(r, s).left;
    if Sent(last, command).0.Ok? {
      assert [left[0]] + left[1..] == left;
      StaleAnswerPassesExactlyAtIdOne(last, command, left[0], left[1..], end);
      assert IdAfter(1, Consumed(r)) == 1 <==> Consumed(r) % 256 == 0;
    }
  }

  // ------------------------------------------------------ a COMMIT confirmed by an old packet

  /** Column count, definition, marker, 251 rows, end of rows, OK: 256 packets, and one more. */
  function LongResponse(d: ColumnDef): Response {
    var rows := seq(251, _ => [Null]);
    SetPart(ResultSet([d], true, EncodeEof(0, 0), rows, 8, 0),
            OkPart(OkPacket(0, 0, 8, 0), [], OkPart(OkPacket(7, 0, 0, 0), [], Nothing)))
  }

  lemma LongResponseIsValid(d: ColumnDef, suppression: bool, utf8: Utf8Check)
    requires ValidColumnDef(d, utf8)
    ensures Valid(LongResponse(d), suppression, utf8) && Consumed(LongResponse(d)) == 256
    ensures Expected(LongResponse(d)).error.None?
    ensures forall status, warnings ::
              StopOf(LongResponse(d), suppression, status, warnings).left == [EncodeOk(OkPacket(7, 0, 0, 0), [])]
  {
    var r := LongResponse(d);
    EofReadsBack(0, 0);
    assert ValidSet(r.table, suppression, utf8);
    assert Valid(r.more.more, suppression, utf8);
    assert Valid(r.more, suppression, utf8);
    assert Consumed(r.more) == 1;
    RowEventsKeepError(r.table.rows, Then(ResultSetEnd, Expected(r.more)));
    assert Packets(r.more.more, suppression) == [EncodeOk(OkPacket(7, 0, 0, 0), [])] + [];
  }

  lemma {:induction false} RowsFit(rows: seq<seq<Cell>>, behind: Payloads)
    requires FitPackets(behind) && forall row :: row in rows ==> |EncodeRow(row)| <= MAX_PAYLOAD_LEN
    ensures FitPackets(RowPackets(rows, behind))
    decreases |rows|
  {
    if rows != [] {
      assert rows[0] in rows;
      RowsFit(rows[1..], behind);
    }
  }

  lemma LongResponseFits(d: ColumnDef, suppression: bool)
    requires |EncodeColumnDef(d)| <= MAX_PAYLOAD_LEN
    ensures FitPackets(Packets(LongResponse(d), suppression))
  {
    hide EncodeColumnDef;
    var r := LongResponse(d);
    var tail: Payloads := [EncodeEof(8, 0)] + Packets(r.more, suppression);
    assert Packets(r.more.more, suppression) == [EncodeOk(OkPacket(7, 0, 0, 0), [])] + [];
    assert FitPackets(tail);
    assert EncodeRow([Null]) == [251] + EncodeRow([]);
    RowsFit(r.table.rows, tail);
    var rows := RowPackets(r.table.rows, tail);
    assert DefPackets([d], [r.table.defsEof] + rows) == [EncodeColumnDef(d)] + ([r.table.defsEof] + rows);
  }

  /** A command written to a peer that keeps taking leaves what there is to read in front. */
  lemma CommandGoesOut(s: Session, command: seq<byte>, payloads: Payloads, end: nat, more: nat)
    requires Ready(s) && |command| <= MAX_PAYLOAD_LEN && KeepsTaking(s.stream, 4 + |command| + more)
    requires Facing(s.(expectedSeq := 1), payloads, end)
    ensures Sent(s, command).0.Ok? && Facing(Sent(s, command).1, payloads, end)
    ensures KeepsTaking(Sent(s, command).1.stream, more)
  {
    hide WriteAll, PacketsAt;
    WriteAllSucceeds(s.stream, PacketBytes(command, 0), more);
  }

  lemma StillTaking(s: Session, t: Session, n: nat)
    requires KeepsTaking(s.stream, n) && WroteNothing(s, t) && t.stream.isOpen
    ensures KeepsTaking(t.stream, n)
  {}

  /**
   It happens: a query answered by the response above, read to the end the reader sees, and
   then a COMMIT that is reported as successful on the strength of the old response's last
   packet, although the server has sent nothing since.
   */
  lemma OldPacketConfirmsCommit(d: ColumnDef, suppression: bool, utf8: Utf8Check, sql: Sql)
    returns (s: Session, end: nat)
    requires ValidColumnDef(d, utf8) && |EncodeColumnDef(d)| <= MAX_PAYLOAD_LEN && |sql| < MAX_PAYLOAD_LEN
    ensures Answered(s, sql, LongResponse(d), end) && |s.stream.incoming| == end
    ensures Query(s, sql).0.Ok? && Commit(AfterReading(s, sql)).0 == Ok(())
  {
    hide LongResponse, Valid, Packets, PacketsAt, KeepsGiving, KeepsTaking, Query, Expected, StopOf, Consumed;
    hide ReadAll, Commit, SendReceive, Facing, Sound;
    var r := LongResponse(d);
    LongResponseIsValid(d, suppression, utf8);
    LongResponseFits(d, suppression);
    s, end := PacketsCanBeServed(Packets(r, suppression), suppression, utf8, 5 + |sql| + |COMMIT_PACKET|);
    assert s.(expectedSeq := 1) == s;
    CommandGoesOut(s, [COM_QUERY] + sql, Packets(r, suppression), end, |COMMIT_PACKET|);
    LongResponseIsSomething(d);
    EarlyEnd(s, sql, r, end);
    CommitIsConfirmed(AfterReading(s, sql), Asked(s, sql).1, end);
  }

  lemma LongResponseIsSomething(d: ColumnDef)
    ensures !LongResponse(d).Nothing?
  {}

  lemma CommitIsConfirmed(last: Session, asked: Session, end: nat)
    requires Sound(last) && Ready(last) && WroteNothing(asked, last) && KeepsTaking(asked.stream, |COMMIT_PACKET|)
    requires last.expectedSeq == IdAfter(1, 256) && Facing(last, [EncodeOk(OkPacket(7, 0, 0, 0), [])], end)
    ensures Commit(last).0 == Ok(())
  {
    hide Commit, PacketsAt, KeepsGiving, KeepsTaking, SendReceive, DecodeOk, EncodeOk;
    var ok := OkPacket(7, 0, 0, 0);
    StillTaking(asked, last, |COMMIT_PACKET|);
    CommandGoesOut(last, [COM_QUERY] + COMMIT, [EncodeOk(ok, [])], end, 0);
    assert [EncodeOk(ok, [])] == [EncodeOk(ok, [])] + [];
    StaleAnswerPassesExactlyAtIdOne(last, [COM_QUERY] + COMMIT, EncodeOk(ok, []), [], end);
    DecodeEncodedOk(ok, []);
    StartsWithZero(ok);
    CommitOutcomeIsExact(last);
  }

  lemma StartsWithZero(ok: OkPacket)
    ensures RouteOf(EncodeOk(ok, [])) == Ok(OkRoute)
  {}
}
