/**
 What holds of a wire session whatever packets arrive and however the calls interleave:
 its flags agree, errors kill it, a dropped statement leaves it ready or dead, and
 skipping ends where reading ends.
 */
module SessionTheorems {
  import opened Basics
  import opened Commands
  import opened PacketCodec
  import opened Sockets
  import opened Statements
  import opened Transport
  import opened WireErrors
  import opened WireTypes

  // ------------------------------------------------------ the invariant

  /** The flags agree with one another, and the mirrors with the last status seen. */
  ghost predicate Sound(s: Session) {
    && s.reusable == !s.isClosed
    && s.stream.isOpen == !s.isClosed
    && s.autocommit == HasBit(s.lastStatus, STATUS_AUTOCOMMIT)
    && s.inTransaction == HasBit(s.lastStatus, STATUS_IN_TRANS)
  }

  ghost predicate Ready(s: Session) {
    RequireReady(s) == None
  }

  /** A live session is busy exactly while its statement has not ended, in a known mode. */
  ghost predicate StmtSound(s: Session, st: Stmt) {
    && (st.consumed ==> st.mode == MODE_DONE)
    && (!s.isClosed ==> s.activeStatement == !st.consumed && (!st.consumed ==> MODE_PENDING_OK <= st.mode < MODE_DONE))
  }

  ghost predicate ReaderSound(w: Reader) {
    Sound(w.s) && StmtSound(w.s, w.st)
  }

  // ------------------------------------------------------ errors a response can cause

  /** Failures of reading and decoding, as opposed to refusals, writes and server errors. */
  predicate FromResponse(e: Tag) {
    match e
    case SessionClosed | SessionNotReusable | ActiveStatementPresent => false
    case WireWriteFailed | InvalidPayloadLen => false
    case StatementConsumed | StatementInvalidMode => false
    case UnexpectedRowInTxCommand | UnexpectedResultsetInTxCommand | TxCommandServerErr => false
    case PingUnexpectedResponse | ResetConnectionEmptyResponse | ResetConnectionUnsupported => false
    case ResetConnectionServerErr | ResetConnectionUnexpectedResponse => false
    case _ => true
  }

  lemma TakeBytesErrors(p: seq<byte>)
    ensures TakeInt(p).Err? ==> FromResponse(TakeInt(p).error)
    ensures TakeBytes(p).Err? ==> FromResponse(TakeBytes(p).error)
  {}

  lemma {:induction false} DecodeRowErrors(p: seq<byte>, count: int)
    ensures DecodeRow(p, count).Err? ==> FromResponse(DecodeRow(p, count).error)
    decreases |p|
  {
    if count > 0 {
      TakeBytesErrors(p);
      var c := TakeCell(p);
      if c.Ok? {
        DecodeRowErrors(c.value.1, count - 1);
      }
    }
  }

  lemma {:induction false} TakeTextsErrors(p: seq<byte>, n: nat, utf8: Utf8Check)
    ensures TakeTexts(p, n, utf8).Err? ==> FromResponse(TakeTexts(p, n, utf8).error)
    decreases n
  {
    if n > 0 {
      TakeBytesErrors(p);
      var t := TakeText(p, utf8);
      if t.Ok? {
        TakeTextsErrors(t.value.1, n - 1, utf8);
      }
    }
  }

  lemma DecodeOkErrors(p: seq<byte>)
    ensures DecodeOk(p).Err? ==> FromResponse(DecodeOk(p).error)
  {
    if |p| > 0 {
      TakeBytesErrors(p[1..]);
      if TakeInt(p[1..]).Ok? {
        TakeBytesErrors(TakeInt(p[1..]).value.1);
      }
    }
  }

  lemma ColumnErrors(p: seq<byte>, negotiated: bool, utf8: Utf8Check)
    ensures DecodeColumnCount(p, negotiated).Err? ==> FromResponse(DecodeColumnCount(p, negotiated).error)
    ensures DecodeColumnDef(p, utf8).Err? ==> FromResponse(DecodeColumnDef(p, utf8).error)
  {
    TakeBytesErrors(p);
    TakeTextsErrors(p, 6, utf8);
  }

  lemma DecodeErrErrors(p: seq<byte>, utf8: Utf8Check)
    ensures DecodeErr(p, utf8).Err? ==> FromResponse(DecodeErr(p, utf8).error)
  {}

  ghost predicate GoodInit(st: Stmt, r: Result<Stmt, Tag>) {
    match r
    case Err(e) => FromResponse(e)
    case Ok(next) => next.consumed == st.consumed && MODE_PENDING_OK <= next.mode <= MODE_RESULTSET
  }

  lemma InitErrors(st: Stmt, first: seq<byte>, suppression: bool, utf8: Utf8Check)
    ensures GoodInit(st, InitFromFirst(st, first, suppression, utf8))
  {
    match RouteOf(first)
    case Err(_) =>
    case Ok(OkRoute) => DecodeOkErrors(first);
    case Ok(ErrRoute) => DecodeErrErrors(first, utf8);
    case Ok(ResultSetRoute) => ColumnErrors(first, suppression, utf8);
  }

  // ------------------------------------------------------ one turn, one event

  ghost predicate GoodTurn(t: Turn, w: Reader) {
    && ReaderSound(w)
    && (t.Again? ==> !w.s.isClosed && !w.st.consumed)
    && (t.Done? ==> w.s.isClosed == t.result.Err?)
    && (t.Done? && t.result.Err? ==> FromResponse(t.result.error))
  }

  ghost predicate Going(w: Reader) {
    ReaderSound(w) && !w.s.isClosed && !w.st.consumed
  }

  lemma ReadOrDieSound(s: Session)
    requires Sound(s) && !s.isClosed
    ensures var (r, t) := ReadOrDie(s);
            && Sound(t) && t.activeStatement == s.activeStatement && (r.Ok? <==> !t.isClosed)
            && (r.Err? ==> FromResponse(r.error))
  {}

  lemma FirstTurnGood(w: Reader)
    requires Going(w) && w.st.mode == MODE_NEED_NEXT_FIRST
    ensures GoodTurn(FirstTurn(w).0, FirstTurn(w).1)
  {
    ReadOrDieSound(w.s);
    var (r, s) := ReadOrDie(w.s);
    if r.Ok? {
      InitErrors(w.st, r.value, s.suppression, s.utf8);
    }
  }

  lemma ColumnDefTurnGood(w: Reader)
    requires Going(w) && w.st.mode == MODE_RESULTSET
    ensures GoodTurn(ColumnDefTurn(w).0, ColumnDefTurn(w).1)
  {
    ReadOrDieSound(w.s);
    var (r, s) := ReadOrDie(w.s);
    if r.Ok? {
      ColumnErrors(r.value, s.suppression, s.utf8);
    }
  }

  lemma TerminatorTurnGood(w: Reader)
    requires Going(w) && w.st.mode == MODE_RESULTSET
    ensures GoodTurn(TerminatorTurn(w).0, TerminatorTurn(w).1)
  {
    ReadOrDieSound(w.s);
  }

  lemma EndOfRowsGood(w: Reader, p: seq<byte>)
    requires Going(w)
    ensures Going(EndOfRows(w, p))
  {}

  lemma RowTurnGood(w: Reader)
    requires Going(w) && w.st.mode == MODE_RESULTSET
    ensures GoodTurn(RowTurn(w).0, RowTurn(w).1)
  {
    hide ReadOrDie, DecodeRow, EndOfRows;
    ReadOrDieSound(w.s);
    var (r, s) := ReadOrDie(w.s);
    if r.Ok? {
      DecodeRowErrors(r.value, w.st.columnCount);
      EndOfRowsGood(w.(s := s), r.value);
    }
  }

  lemma TurnGood(w: Reader)
    requires Going(w)
    ensures GoodTurn(TurnOf(w).0, TurnOf(w).1)
  {
    if w.st.mode == MODE_NEED_NEXT_FIRST {
      FirstTurnGood(w);
    } else if w.st.mode == MODE_RESULTSET {
      if w.st.defsRemaining > 0 {
        ColumnDefTurnGood(w);
      } else if w.st.awaitingTerminator {
        TerminatorTurnGood(w);
      } else {
        RowTurnGood(w);
      }
    }
  }

  /**
   Every event keeps the invariant, every error of an event kills the session, and no
   packet whatsoever brings the reader into an unknown mode.
   */
  lemma {:induction false} AdvanceGood(w: Reader)
    requires Going(w)
    ensures GoodTurn(Done(Advance(w).0), Advance(w).1)
    decreases Unread(w.s)
  {
    TurnGood(w);
    TurnMakesProgress(w);
    if TurnOf(w).0.Again? {
      AdvanceGood(TurnOf(w).1);
    }
  }

  lemma NextEventErrorsKill(w: Reader)
    requires ReaderSound(w)
    ensures ReaderSound(NextEvent(w).1)
    ensures NextEvent(w).0.Err? ==> NextEvent(w).0.error == StatementConsumed || NextEvent(w).1.s.isClosed
    ensures NextEvent(w).0 != Err(StatementInvalidMode)
    ensures NextEvent(w).0 == Err(StatementConsumed) <==> w.st.consumed
  {
    if Going(w) {
      AdvanceGood(w);
    }
  }

  // ------------------------------------------------------ skipping and dropping

  lemma {:induction false} SkipRemainingSound(w: Reader)
    requires ReaderSound(w)
    ensures var (r, w') := SkipRemaining(w);
            ReaderSound(w') && (r.Ok? <==> w'.st.consumed) && (r.Err? ==> w'.s.isClosed)
    decreases Unread(w.s)
  {
    if !w.st.consumed {
      NextEventErrorsKill(w);
      AdvanceMakesProgress(w);
      var (ev, w') := NextEvent(w);
      if ev.Ok? && !EndsStatement(ev.value) {
        SkipRemainingSound(w');
      }
    }
  }

  lemma {:induction false} SkipResultSound(w: Reader)
    requires ReaderSound(w)
    ensures ReaderSound(SkipResult(w).1) && ReaderSound(SkipRows(w).1)
    decreases Unread(w.s)
  {
    NextEventErrorsKill(w);
    AdvanceMakesProgress(w);
    var (ev, w') := NextEvent(w);
    if ev.Ok? && ev.value.Row? {
      SkipResultSound(w');
    }
  }

  /** Dropping a statement at any point leaves its session ready for a command, or dead. */
  lemma DropLeavesReadyOrDead(w: Reader)
    requires ReaderSound(w)
    ensures Sound(Destroy(w)) && (Destroy(w).isClosed || Ready(Destroy(w)))
  {
    SkipRemainingSound(w);
  }

  /** Up to `k` events, fewer when the statement ends or fails before. */
  function ReadEvents(w: Reader, k: nat): (seq<Event>, Reader)
    decreases k
  {
    if k == 0 || w.st.consumed then ([], w)
    else match NextEvent(w)
      case (Err(_), w') => ([], w')
      case (Ok(ev), w') =>
        var (more, last) := ReadEvents(w', k - 1);
        ([ev] + more, last)
  }

  /** However many events are read first, skipping the rest ends in the same state. */
  lemma {:induction false} SkippingEqualsReading(w: Reader, k: nat)
    ensures SkipRemaining(ReadEvents(w, k).1).1 == SkipRemaining(w).1
    decreases k
  {
    hide Advance;
    if k > 0 && !w.st.consumed {
      AdvanceMakesProgress(w);
      var (ev, w') := NextEvent(w);
      if ev.Ok? {
        SkippingEqualsReading(w', k - 1);
      }
    }
  }

  lemma ReadEventsStep(w: Reader, k: nat)
    requires k > 0 && !w.st.consumed
    ensures var (r, w') := NextEvent(w);
            ReadEvents(w, k) == if r.Err? then ([], w')
                                else ([r.value] + ReadEvents(w', k - 1).0, ReadEvents(w', k - 1).1)
  {}

  /** And reading enough events ends there too, one per unread byte at the most. */
  lemma {:induction false} ReadingGetsThere(w: Reader, k: nat)
    requires k > Unread(w.s)
    ensures ReadEvents(w, k).1 == SkipRemaining(w).1
    decreases Unread(w.s)
  {
    hide Advance;
    if !w.st.consumed {
      ReadEventsStep(w, k);
      AdvanceMakesProgress(w);
      var (ev, w') := NextEvent(w);
      if ev.Ok? && !EndsStatement(ev.value) {
        ReadingGetsThere(w', k - 1);
      }
    }
  }

  /** How many rows are left of the current resultset. */
  function RowsAhead(w: Reader): nat
    decreases Unread(w.s)
  {
    AdvanceMakesProgress(w);
    match NextEvent(w)
    case (Err(_), _) => 0
    case (Ok(ev), w') => if ev.Row? then 1 + RowsAhead(w') else 0
  }

  /** Rows, and behind them an event that is not a row unless reading failed. */
  ghost predicate RowsThenEnd(evs: seq<Event>, rows: nat, complete: bool) {
    && |evs| == (if complete then rows + 1 else rows)
    && (forall i :: 0 <= i < rows ==> evs[i].Row?)
    && (complete ==> !evs[rows].Row?)
  }

  /** Skipping a resultset is reading its rows and the event behind them. */
  lemma {:induction false} SkipRowsDropsRows(w: Reader)
    requires !w.st.consumed
    ensures ReadEvents(w, RowsAhead(w) + 1).1 == SkipRows(w).1
    ensures RowsThenEnd(ReadEvents(w, RowsAhead(w) + 1).0, RowsAhead(w), SkipRows(w).0.Ok?)
    decreases Unread(w.s)
  {
    hide Advance;
    ReadEventsStep(w, RowsAhead(w) + 1);
    AdvanceMakesProgress(w);
    var (ev, w') := NextEvent(w);
    if ev.Ok? && ev.value.Row? {
      SkipRowsDropsRows(w');
      RowInFront(ev.value, ReadEvents(w', RowsAhead(w') + 1).0, RowsAhead(w'), SkipRows(w').0.Ok?);
    }
  }

  lemma RowInFront(row: Event, evs: seq<Event>, rows: nat, complete: bool)
    requires row.Row? && RowsThenEnd(evs, rows, complete)
    ensures RowsThenEnd([row] + evs, rows + 1, complete)
  {}

  /** What ends the rows is the end of a resultset, which leaves the reader between results. */
  lemma RowTurnEnd(w: Reader)
    requires RowTurn(w).0.Done? && RowTurn(w).0.result.Ok? && !RowTurn(w).0.result.value.Row?
    ensures AtBoundary(RowTurn(w).1.st)
  {}

  lemma {:induction false} AdvanceFromRows(w: Reader)
    requires Going(w)
    ensures var (ev, w') := Advance(w);
            && (ev.Ok? && ev.value.ResultSetEnd? ==> AtBoundary(w'.st))
            && (ev.Ok? && ev.value.Row? ==> w'.st.mode == MODE_RESULTSET)
    decreases Unread(w.s)
  {
    hide ReadOrDie, DecodeRow, DecodeColumnDef, InitFromFirst, IsEofTerminator;
    TurnGood(w);
    TurnMakesProgress(w);
    if TurnOf(w).0.Again? {
      AdvanceFromRows(TurnOf(w).1);
    } else if w.st.mode == MODE_RESULTSET && w.st.defsRemaining <= 0 && !w.st.awaitingTerminator {
      if RowTurn(w).0.result.Ok? && !RowTurn(w).0.result.value.Row? {
        RowTurnEnd(w);
      }
    }
  }

  /** Skipping rows stops between results, at the end of the statement, or dead. */
  lemma {:induction false} SkipRowsStops(w: Reader)
    requires ReaderSound(w)
    ensures var (r, w') := SkipRows(w);
            w'.st.consumed || w'.s.isClosed || AtBoundary(w'.st)
    decreases Unread(w.s)
  {
    if Going(w) {
      AdvanceGood(w);
      AdvanceFromRows(w);
      AdvanceMakesProgress(w);
      var (ev, w') := NextEvent(w);
      if ev.Ok? && ev.value.Row? {
        SkipRowsStops(w');
      }
    }
  }

  /** Skipping a result twice is skipping it once, and never skips into the next one. */
  lemma SkipResultIsIdempotent(w: Reader)
    requires ReaderSound(w)
    ensures SkipResult(SkipResult(w).1).1 == SkipResult(w).1
    ensures SkipResult(w).0.Ok? ==> SkipResult(SkipResult(w).1).0.Ok?
  {
    SkipRowsStops(w);
    SkipRowsOk(w);
  }

  lemma {:induction false} SkipRowsOk(w: Reader)
    requires ReaderSound(w)
    ensures var (r, w') := SkipRows(w);
            && (r.Ok? ==> w'.st.consumed || AtBoundary(w'.st))
            && (w.s.isClosed ==> w' == w)
    decreases Unread(w.s)
  {
    if Going(w) {
      AdvanceGood(w);
      AdvanceFromRows(w);
      AdvanceMakesProgress(w);
      var (ev, w') := NextEvent(w);
      if ev.Ok? && ev.value.Row? {
        SkipRowsOk(w');
      }
    }
  }
}
