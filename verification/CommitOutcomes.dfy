/**
 The outcome of a COMMIT as the RPC layer reports it, against what really happened on the
 stream. Calling an applied commit "not sent" would invite the caller to repeat it.
 */
module CommitOutcomes {
  import opened Basics
  import opened Commands
  import opened PacketCodec
  import opened PacketHeaders
  import opened SessionRuns
  import opened SessionTheorems
  import opened Sockets
  import opened Statements
  import opened Transport
  import opened WireErrors
  import opened WireTypes

  datatype CommitError = NotSent | ServerRejected | AmbiguousWrite

  function Classify(tag: Tag): CommitError {
    match tag
    case WireWriteFailed | SessionClosed | SessionNotReusable | ActiveStatementPresent => NotSent
    case TxCommandServerErr => ServerRejected
    case _ => AmbiguousWrite
  }

  function Commit(s: Session): (Result<(), CommitError>, Session) {
    match TxCommand(s, COMMIT)
    case (Ok(_), t) => (Ok(()), t)
    case (Err(e), t) => (Err(Classify(e)), t)
  }

  method DoCommit(session: WireSession) returns (r: Result<(), CommitError>)
    modifies session, session.stream
    ensures (r, session.View()) == Commit(old(session.View()))
  {
    var tx := DoTxCommand(session, COMMIT);
    if tx.Ok? {
      return Ok(());
    }
    return Err(Classify(tx.error));
  }

  // ------------------------------------------------------ what happened on the stream

  /** The bytes of a COMMIT command. */
  const COMMIT_PACKET: seq<byte> := PacketBytes([COM_QUERY] + COMMIT, 0)

  /** The peer has taken the whole COMMIT since `s`. */
  predicate SentWhole(s: Session, t: Session) {
    t.stream.accepted == s.stream.accepted + COMMIT_PACKET
  }

  /** The peer has taken less than the whole of it, possibly nothing. */
  ghost predicate SentPartly(s: Session, t: Session) {
    s.stream.accepted <= t.stream.accepted < s.stream.accepted + COMMIT_PACKET
  }

  /** The first packet that comes back to a query, if the session can ask and one can be read. */
  function Answer(s: Session, sql: Sql): Option<seq<byte>> {
    if RequireReady(s).Some? then None else AnswerTo(s, [COM_QUERY] + sql)
  }

  predicate SaysOk(p: seq<byte>) {
    RouteOf(p) == Ok(OkRoute) && DecodeOk(p).Ok?
  }

  predicate SaysErr(p: seq<byte>, utf8: Utf8Check) {
    RouteOf(p) == Ok(ErrRoute) && DecodeErr(p, utf8).Ok?
  }

  // ------------------------------------------------------ reading never writes

  /** From `s` to `t` bytes may have been read, but none written. */
  ghost predicate WroteNothing(s: Session, t: Session) {
    && t.stream.accepted == s.stream.accepted && t.stream.takes == s.stream.takes
    && t.stream.writeAt == s.stream.writeAt && t.stream.incoming == s.stream.incoming
    && t.suppression == s.suppression && t.utf8 == s.utf8 && t.resetSupported == s.resetSupported
  }

  lemma ReadOrDieWritesNothing(s: Session)
    ensures WroteNothing(s, ReadOrDie(s).1)
  {
    hide ReadPacket;
  }

  lemma FirstTurnWritesNothing(w: Reader)
    ensures WroteNothing(w.s, FirstTurn(w).1.s)
  {
    hide ReadOrDie, InitFromFirst;
    ReadOrDieWritesNothing(w.s);
  }

  lemma MetadataTurnsWriteNothing(w: Reader)
    ensures WroteNothing(w.s, ColumnDefTurn(w).1.s) && WroteNothing(w.s, TerminatorTurn(w).1.s)
  {
    hide ReadOrDie, DecodeColumnDef, IsEofTerminator;
    ReadOrDieWritesNothing(w.s);
  }

  lemma EndOfRowsWritesNothing(w: Reader, p: seq<byte>)
    ensures WroteNothing(w.s, EndOfRows(w, p).s)
  {
    hide EofStatus, HasBit;
  }

  lemma RowTurnWritesNothing(w: Reader)
    ensures WroteNothing(w.s, RowTurn(w).1.s)
  {
    hide ReadOrDie, DecodeRow, IsEofTerminator, EndOfRows;
    ReadOrDieWritesNothing(w.s);
    EndOfRowsWritesNothing(w.(s := ReadOrDie(w.s).1), PacketRead(w.s));
  }

  /** The packet read, if one is. */
  function PacketRead(s: Session): seq<byte> {
    match ReadOrDie(s).0
    case Ok(p) => p
    case Err(_) => []
  }

  lemma TurnWritesNothing(w: Reader)
    ensures WroteNothing(w.s, TurnOf(w).1.s)
  {
    hide FirstTurn, ColumnDefTurn, TerminatorTurn, RowTurn;
    FirstTurnWritesNothing(w);
    MetadataTurnsWriteNothing(w);
    RowTurnWritesNothing(w);
  }

  lemma {:induction false} AdvanceWritesNothing(w: Reader)
    ensures WroteNothing(w.s, Advance(w).1.s)
    decreases Unread(w.s)
  {
    hide TurnOf;
    TurnWritesNothing(w);
    TurnMakesProgress(w);
    if TurnOf(w).0.Again? {
      AdvanceWritesNothing(TurnOf(w).1);
    }
  }

  lemma {:induction false} SkipWritesNothing(w: Reader)
    ensures WroteNothing(w.s, SkipRemaining(w).1.s)
    decreases Unread(w.s)
  {
    hide Advance;
    AdvanceWritesNothing(w);
    AdvanceMakesProgress(w);
    if !w.st.consumed && NextEvent(w).0.Ok? && !EndsStatement(NextEvent(w).0.value) {
      SkipWritesNothing(NextEvent(w).1);
    }
  }

  // ------------------------------------------------------ from the first packet to the outcome

  /** A statement that starts pending ends in that event; otherwise its first event is neither. */
  lemma FirstEvent(t: Session, st: Stmt)
    requires Going(Reader(t, st))
    ensures var ev := NextEvent(Reader(t, st)).0;
            && (st.mode == MODE_PENDING_OK ==> ev == Ok(StatementEnd(st.pendingOk)))
            && (st.mode == MODE_PENDING_ERR ==> ev == Ok(StatementErr(st.pendingErr)))
            && (st.mode == MODE_RESULTSET ==> ev.Err? || !EndsStatement(ev.value))
  {
    if st.mode == MODE_RESULTSET {
      SetStartsWithRows(Reader(t, st));
    }
  }

  lemma {:induction false} SetStartsWithRows(w: Reader)
    requires w.st.mode == MODE_RESULTSET
    ensures Advance(w).0.Err? || !EndsStatement(Advance(w).0.value)
    decreases Unread(w.s)
  {
    hide ReadOrDie, DecodeColumnDef, DecodeRow, IsEofTerminator;
    TurnMakesProgress(w);
    if TurnOf(w).0.Again? {
      SetStartsWithRows(TurnOf(w).1);
    }
  }

  /** How the first packet decides. */
  lemma InitDecides(p: seq<byte>, suppression: bool, utf8: Utf8Check)
    ensures match InitFromFirst(FRESH_STMT, p, suppression, utf8)
            case Err(_) => !SaysOk(p) && !SaysErr(p, utf8)
            case Ok(st) =>
              && (SaysOk(p) <==> st.mode == MODE_PENDING_OK)
              && (SaysErr(p, utf8) <==> st.mode == MODE_PENDING_ERR)
              && MODE_PENDING_OK <= st.mode <= MODE_RESULTSET
  {
    hide DecodeOk, DecodeErr, DecodeColumnCount;
  }

  /** What becomes of a transaction command once its packet has been written and answered. */
  lemma AnswerDecides(s: Session, sql: Sql)
    requires Sound(s) && Answer(s, sql).Some?
    ensures var (r, t) := TxCommand(s, sql);
            var first := Answer(s, sql).value;
            && (r.Ok? <==> SaysOk(first))
            && (r == Err(TxCommandServerErr) <==> SaysErr(first, s.utf8))
            && (r.Err? && !SaysErr(first, s.utf8) ==> Classify(r.error) == AmbiguousWrite)
            && t.stream.accepted == SendReceive(s, [COM_QUERY] + sql).1.stream.accepted
  {
    hide SendReceive, InitFromFirst, Advance, SkipRemaining, SaysOk, SaysErr, WroteNothing;
    var (r, t) := SendReceive(s, [COM_QUERY] + sql);
    SendReceiveKeeps(s, [COM_QUERY] + sql);
    SendReceiveSound(s, [COM_QUERY] + sql);
    InitDecides(r.value, t.suppression, t.utf8);
    InitErrors(FRESH_STMT, r.value, t.suppression, t.utf8);
    var init := InitFromFirst(FRESH_STMT, r.value, t.suppression, t.utf8);
    if init.Ok? {
      var w := Reader(t.(activeStatement := true), init.value);
      FirstEvent(w.s, w.st);
      AdvanceGood(w);
      DroppedAfterEvent(w);
    }
  }

  lemma DroppedAfterEvent(w: Reader)
    requires Going(w)
    ensures Destroy(NextEvent(w).1).stream.accepted == w.s.stream.accepted
  {
    hide Advance, SkipRemaining;
    AdvanceWritesNothing(w);
    SkipWritesNothing(NextEvent(w).1);
  }

  lemma SendReceiveKeeps(s: Session, command: seq<byte>)
    ensures SendReceive(s, command).1.utf8 == s.utf8 && SendReceive(s, command).1.suppression == s.suppression
  {
    hide WritePacket, ReadOrDie;
    ReadOrDieWritesNothing(WritePacket(s.(expectedSeq := 0), command).1);
  }

  /** Writing takes a prefix of the packet, all of it exactly when no write fails. */
  lemma WriteOutcome(s: Session)
    requires Ready(s)
    ensures var (r, t) := SendReceive(s, [COM_QUERY] + COMMIT);
            && (SentWhole(s, t) || SentPartly(s, t))
            && (SentPartly(s, t) <==> r == Err(WireWriteFailed))
            && (r.Err? && SentWhole(s, t) ==> FromResponse(r.error))
  {
    hide WriteAll, ReadPacket;
  }

  // ------------------------------------------------------ the theorem

  /**
   The reported outcome is exact, whatever the stream does. "Not sent" means that the peer
   has not got the whole COMMIT, and is said whenever it has not; "rejected" means that the
   answer is an error, success that it is an OK, and everything else is called ambiguous.
   */
  lemma CommitOutcomeIsExact(s: Session)
    requires Sound(s)
    ensures var (r, t) := Commit(s);
            && (SentWhole(s, t) <==> r != Err(NotSent))
            && (SentPartly(s, t) <==> r == Err(NotSent))
            && (r == Err(ServerRejected) <==> Answer(s, COMMIT).Some? && SaysErr(Answer(s, COMMIT).value, s.utf8))
            && (r == Ok(()) <==> Answer(s, COMMIT).Some? && SaysOk(Answer(s, COMMIT).value))
  {
    hide SendReceive, InitFromFirst, Advance, SkipRemaining, SaysOk, SaysErr;
    if Ready(s) {
      WriteOutcome(s);
      if Answer(s, COMMIT).Some? {
        AnswerDecides(s, COMMIT);
      }
    }
  }

  /** No answer at all to a COMMIT that went out: ambiguous, and the session is gone. */
  lemma SilenceIsAmbiguous(s: Session)
    requires Sound(s) && Ready(s) && s.stream.readPos == |s.stream.incoming|
    requires SentWhole(s, Commit(s).1)
    ensures Commit(s).0 == Err(AmbiguousWrite) && Commit(s).1.isClosed
  {
    hide WriteAll, InitFromFirst, Advance, SkipRemaining;
    CommitOutcomeIsExact(s);
    var asked := WritePacket(s.(expectedSeq := 0), [COM_QUERY] + COMMIT).1;
    assert ReadSome(asked.stream, 4).0.Failed? || ReadSome(asked.stream, 4).0 == Moved(0);
  }

  /** A COMMIT written to a peer that keeps taking goes out whole. */
  lemma CommitGoesOut(s: Session)
    requires Sound(s) && Ready(s) && KeepsTaking(s.stream, |COMMIT_PACKET|)
    ensures SentWhole(s, Commit(s).1)
  {
    hide ReadOrDie, InitFromFirst, Advance, SkipRemaining, WriteAll;
    WriteAllSucceeds(s.stream, COMMIT_PACKET, 0);
    ReadOrDieWritesNothing(WritePacket(s.(expectedSeq := 0), [COM_QUERY] + COMMIT).1);
    if Answer(s, COMMIT).Some? {
      AnswerDecides(s, COMMIT);
    }
  }
}
