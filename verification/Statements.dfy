/**
 The streaming reader of one statement's response: what each read of a packet does to the
 statement and to its session, event by event, and the loops that skip events.
 */
module Statements {
  import opened Basics
  import opened PacketCodec
  import opened Sockets
  import opened Transport
  import opened WireErrors
  import opened WireTypes

  // ------------------------------------------------------ the session under a statement

  function MarkDead(s: Session): Session {
    s.(reusable := false, isClosed := true, stream := s.stream.(isOpen := false))
  }

  const STATUS_IN_TRANS := 1
  const STATUS_AUTOCOMMIT := 2
  const STATUS_MORE_RESULTS := 8

  function ApplyStatus(s: Session, status: nat, warnings: nat): Session {
    s.(lastStatus := status, lastWarnings := warnings,
       autocommit := HasBit(status, STATUS_AUTOCOMMIT), inTransaction := HasBit(status, STATUS_IN_TRANS))
  }

  method DoMarkDead(session: WireSession)
    modifies session`reusable, session`isClosed, session.stream
    ensures session.View() == MarkDead(old(session.View()))
  {
    session.reusable := false;
    session.isClosed := true;
    var _ := session.stream.Close();
  }

  method DoApplyStatus(session: WireSession, status: nat, warnings: nat)
    modifies session`lastStatus, session`lastWarnings, session`autocommit, session`inTransaction
    ensures session.View() == ApplyStatus(old(session.View()), status, warnings)
  {
    session.lastStatus, session.lastWarnings := status, warnings;
    session.autocommit := HasBit(status, STATUS_AUTOCOMMIT);
    session.inTransaction := HasBit(status, STATUS_IN_TRANS);
  }

  /** Reads a packet; a failure kills the session. */
  function ReadOrDie(s: Session): (r: (Result<seq<byte>, Tag>, Session))
    ensures r.0.Ok? ==> Unread(r.1) < Unread(s) && OnlyReadPacket(s, r.1)
    ensures r.0.Err? ==> r.1.isClosed
  {
    match ReadPacket(s)
    case (Err(e), t) => (Err(e), MarkDead(t))
    case (Ok(p), t) => (Ok(p), t)
  }

  method DoReadOrDie(session: WireSession) returns (r: Result<seq<byte>, Tag>)
    modifies session, session.stream
    ensures (r, session.View()) == ReadOrDie(old(session.View()))
  {
    r := SessionReadPacket(session);
    if r.Err? {
      DoMarkDead(session);
    }
  }

  function Unread(s: Session): nat {
    |s.stream.incoming| - s.stream.readPos
  }

  // ------------------------------------------------------ the first packet of a result

  function ResultSetFrom(st: Stmt, cc: ColumnCount): Stmt {
    var base := st.(columnCount := cc.count, defs := [], mode := MODE_RESULTSET);
    if cc.metadataFollows then base.(defsRemaining := cc.count, awaitingTerminator := true)
    else base.(defsRemaining := 0, awaitingTerminator := false)
  }

  function InitFromFirst(st: Stmt, first: seq<byte>, suppression: bool, utf8: Utf8Check): Result<Stmt, Tag> {
    match RouteOf(first)
    case Err(e) => Err(e)
    case Ok(OkRoute) =>
      (match DecodeOk(first)
       case Err(e) => Err(e)
       case Ok(ok) => Ok(st.(pendingOk := ok, mode := MODE_PENDING_OK)))
    case Ok(ErrRoute) =>
      (match DecodeErr(first, utf8)
       case Err(e) => Err(e)
       case Ok(err) => Ok(st.(pendingErr := err, mode := MODE_PENDING_ERR)))
    case Ok(ResultSetRoute) =>
      (match DecodeColumnCount(first, suppression)
       case Err(e) => Err(e)
       case Ok(cc) => Ok(ResultSetFrom(st, cc)))
  }

  /** Changes nothing when it fails. */
  method DoInitFromFirst(st: Statement, first: seq<byte>) returns (r: Result<(), Tag>)
    modifies st
    ensures match InitFromFirst(old(st.View()), first, st.session.suppression, st.session.utf8)
            case Err(e) => r == Err(e) && st.View() == old(st.View())
            case Ok(next) => r == Ok(()) && st.View() == next
  {
    match RouteOf(first) {
      case Err(e) => return Err(e);
      case Ok(OkRoute) =>
        match DecodeOk(first) {
          case Err(e) => return Err(e);
          case Ok(ok) =>
            st.pendingOk, st.mode := ok, MODE_PENDING_OK;
            return Ok(());
        }
      case Ok(ErrRoute) =>
        match DecodeErr(first, st.session.utf8) {
          case Err(e) => return Err(e);
          case Ok(err) =>
            st.pendingErr, st.mode := err, MODE_PENDING_ERR;
            return Ok(());
        }
      case Ok(ResultSetRoute) =>
        match DecodeColumnCount(first, st.session.suppression) {
          case Err(e) => return Err(e);
          case Ok(cc) =>
            st.columnCount, st.defs := cc.count, [];
            if cc.metadataFollows {
              st.defsRemaining, st.awaitingTerminator := cc.count, true;
            } else {
              st.defsRemaining, st.awaitingTerminator := 0, false;
            }
            st.mode := MODE_RESULTSET;
            return Ok(());
        }
    }
  }

  // ------------------------------------------------------ one turn of the event loop

  /** A statement together with the session it borrows. */
  datatype Reader = Reader(s: Session, st: Stmt)

  ghost function ReaderOf(st: Statement): Reader
    reads st, st.session, st.session.stream
  {
    Reader(st.session.View(), st.View())
  }

  /** A turn ends the loop with an event or an error, or sends it around again. */
  datatype Turn = Again | Done(result: Result<Event, Tag>)

  function Fail(w: Reader, e: Tag): (Turn, Reader) {
    (Done(Err(e)), w.(s := MarkDead(w.s)))
  }

  function Terminal(w: Reader): Reader {
    Reader(w.s.(activeStatement := false), w.st.(mode := MODE_DONE, consumed := true))
  }

  function PendingOkTurn(w: Reader): (Turn, Reader) {
    var ok := w.st.pendingOk;
    (Done(Ok(StatementEnd(ok))), Terminal(w.(s := ApplyStatus(w.s, ok.status, ok.warnings))))
  }

  function PendingErrTurn(w: Reader): (Turn, Reader) {
    (Done(Ok(StatementErr(w.st.pendingErr))), Terminal(w.(st := w.st.(pendingErr := EMPTY_ERR))))
  }

  function FirstTurn(w: Reader): (Turn, Reader) {
    match ReadOrDie(w.s)
    case (Err(e), s) => (Done(Err(e)), w.(s := s))
    case (Ok(first), s) =>
      match InitFromFirst(w.st, first, s.suppression, s.utf8)
      case Err(e) => Fail(w.(s := s), e)
      case Ok(st) => (Again, Reader(s, st))
  }

  function ColumnDefTurn(w: Reader): (Turn, Reader) {
    match ReadOrDie(w.s)
    case (Err(e), s) => (Done(Err(e)), w.(s := s))
    case (Ok(p), s) =>
      match DecodeColumnDef(p, s.utf8)
      case Err(e) => Fail(w.(s := s), e)
      case Ok(d) => (Again, Reader(s, w.st.(defs := w.st.defs + [d], defsRemaining := w.st.defsRemaining - 1)))
  }

  function TerminatorTurn(w: Reader): (Turn, Reader) {
    match ReadOrDie(w.s)
    case (Err(e), s) => (Done(Err(e)), w.(s := s))
    case (Ok(p), s) =>
      if IsEofTerminator(p) then (Again, Reader(s, w.st.(awaitingTerminator := false)))
      else Fail(w.(s := s), MissingColdefTerminator)
  }

  /** Status flags and warning count of a terminator; both 0 in one too short to hold them. */
  function EofStatus(p: seq<byte>): (nat, nat) {
    if |p| >= 5 then (U16At(p, 3), U16At(p, 1)) else (0, 0)
  }

  /** The end of the rows: another result follows, or an OK is made up from the status. */
  function EndOfRows(w: Reader, p: seq<byte>): Reader {
    var (status, warnings) := EofStatus(p);
    Reader(ApplyStatus(w.s, status, warnings),
           if HasBit(status, STATUS_MORE_RESULTS) then w.st.(mode := MODE_NEED_NEXT_FIRST)
           else w.st.(pendingOk := OkPacket(0, 0, status, warnings), mode := MODE_PENDING_OK))
  }

  function RowTurn(w: Reader): (Turn, Reader) {
    match ReadOrDie(w.s)
    case (Err(e), s) => (Done(Err(e)), w.(s := s))
    case (Ok(p), s) =>
      if IsEofTerminator(p) then (Done(Ok(ResultSetEnd)), EndOfRows(w.(s := s), p))
      else match DecodeRow(p, w.st.columnCount)
        case Err(e) => Fail(w.(s := s), e)
        case Ok(cells) => (Done(Ok(Row(cells))), w.(s := s))
  }

  function TurnOf(w: Reader): (Turn, Reader) {
    if w.st.mode == MODE_PENDING_OK then PendingOkTurn(w)
    else if w.st.mode == MODE_PENDING_ERR then PendingErrTurn(w)
    else if w.st.mode == MODE_NEED_NEXT_FIRST then FirstTurn(w)
    else if w.st.mode != MODE_RESULTSET then Fail(w, StatementInvalidMode)
    else if w.st.defsRemaining > 0 then ColumnDefTurn(w)
    else if w.st.awaitingTerminator then TerminatorTurn(w)
    else RowTurn(w)
  }

  predicate EndsStatement(ev: Event) {
    ev.StatementEnd? || ev.StatementErr?
  }

  /**
   What a turn or an event leaves behind: it has read on, or ended the statement, or killed
   the session.
   */
  ghost predicate Progress(w: Reader, r: Result<Event, Tag>, w': Reader) {
    && (r.Ok? && !EndsStatement(r.value) ==> Unread(w'.s) < Unread(w.s) && w'.st.consumed == w.st.consumed)
    && (r.Ok? && EndsStatement(r.value) ==> w'.st.consumed)
    && (r.Err? ==> w'.s.isClosed && w'.st.consumed == w.st.consumed)
  }

  ghost predicate TurnProgress(w: Reader, t: Turn, w': Reader) {
    if t.Again? then Unread(w'.s) < Unread(w.s) && w'.st.consumed == w.st.consumed
    else Progress(w, t.result, w')
  }

  lemma FirstTurnProgress(w: Reader)
    ensures TurnProgress(w, FirstTurn(w).0, FirstTurn(w).1)
  {
    hide ReadPacket, DecodeOk, DecodeErr, DecodeColumnCount;
  }

  lemma ColumnDefTurnProgress(w: Reader)
    ensures TurnProgress(w, ColumnDefTurn(w).0, ColumnDefTurn(w).1)
  {}

  lemma TerminatorTurnProgress(w: Reader)
    ensures TurnProgress(w, TerminatorTurn(w).0, TerminatorTurn(w).1)
  {}

  lemma RowTurnProgress(w: Reader)
    ensures TurnProgress(w, RowTurn(w).0, RowTurn(w).1)
  {
    hide ReadOrDie, DecodeRow, EofStatus, HasBit;
  }

  lemma TurnMakesProgress(w: Reader)
    ensures TurnProgress(w, TurnOf(w).0, TurnOf(w).1)
  {
    if w.st.mode == MODE_NEED_NEXT_FIRST {
      FirstTurnProgress(w);
    } else if w.st.mode == MODE_RESULTSET {
      if w.st.defsRemaining > 0 {
        ColumnDefTurnProgress(w);
      } else if w.st.awaitingTerminator {
        TerminatorTurnProgress(w);
      } else {
        RowTurnProgress(w);
      }
    }
  }

  // ------------------------------------------------------ events

  /** Turns until one ends the loop. */
  function Advance(w: Reader): (Result<Event, Tag>, Reader)
    decreases Unread(w.s)
  {
    var (t, w') := TurnOf(w);
    TurnMakesProgress(w);
    if t.Done? then (t.result, w') else Advance(w')
  }

  function NextEvent(w: Reader): (Result<Event, Tag>, Reader) {
    if w.st.consumed then (Err(StatementConsumed), w)
    else if w.s.isClosed then (Err(SessionClosed), w)
    else Advance(w)
  }

  lemma {:induction false} AdvanceMakesProgress(w: Reader)
    ensures Progress(w, Advance(w).0, Advance(w).1)
    decreases Unread(w.s)
  {
    TurnMakesProgress(w);
    if TurnOf(w).0.Again? {
      AdvanceMakesProgress(TurnOf(w).1);
    }
  }

  /** Events until the terminal one. */
  function SkipRemaining(w: Reader): (Result<(), Tag>, Reader)
    decreases Unread(w.s)
  {
    if w.st.consumed then (Ok(()), w)
    else
      AdvanceMakesProgress(w);
      match NextEvent(w)
      case (Err(e), w') => (Err(e), w')
      case (Ok(ev), w') => if EndsStatement(ev) then (Ok(()), w') else SkipRemaining(w')
  }

  predicate AtBoundary(st: Stmt) {
    st.mode == MODE_PENDING_OK || st.mode == MODE_PENDING_ERR || st.mode == MODE_NEED_NEXT_FIRST
  }

  /** Rows until the end of the current resultset. */
  function SkipRows(w: Reader): (Result<(), Tag>, Reader)
    decreases Unread(w.s)
  {
    AdvanceMakesProgress(w);
    match NextEvent(w)
    case (Err(e), w') => (Err(e), w')
    case (Ok(ev), w') => if ev.Row? then SkipRows(w') else (Ok(()), w')
  }

  function SkipResult(w: Reader): (Result<(), Tag>, Reader) {
    if w.st.consumed || AtBoundary(w.st) then (Ok(()), w) else SkipRows(w)
  }

  /** Dropping a statement: what is left of its response is read, or the session dies. */
  function Destroy(w: Reader): Session {
    if w.st.consumed then w.s
    else match SkipRemaining(w)
      case (Ok(_), w') => w'.s
      case (Err(_), w') => MarkDead(w'.s)
  }

  // ------------------------------------------------------ the program's loops

  method DoFirstTurn(st: Statement) returns (t: Turn)
    modifies st, st.session, st.session.stream
    ensures (t, ReaderOf(st)) == FirstTurn(old(ReaderOf(st)))
  {
    hide ReadOrDie, InitFromFirst;
    var first := DoReadOrDie(st.session);
    if first.Err? {
      return Done(Err(first.error));
    }
    var r := DoInitFromFirst(st, first.value);
    if r.Err? {
      DoMarkDead(st.session);
      return Done(Err(r.error));
    }
    return Again;
  }

  method DoColumnDefTurn(st: Statement) returns (t: Turn)
    modifies st, st.session, st.session.stream
    ensures (t, ReaderOf(st)) == ColumnDefTurn(old(ReaderOf(st)))
  {
    hide ReadOrDie, DecodeColumnDef;
    var p := DoReadOrDie(st.session);
    if p.Err? {
      return Done(Err(p.error));
    }
    var d := DecodeColumnDef(p.value, st.session.utf8);
    if d.Err? {
      DoMarkDead(st.session);
      return Done(Err(d.error));
    }
    st.defs := st.defs + [d.value];
    st.defsRemaining := st.defsRemaining - 1;
    return Again;
  }

  method DoTerminatorTurn(st: Statement) returns (t: Turn)
    modifies st, st.session, st.session.stream
    ensures (t, ReaderOf(st)) == TerminatorTurn(old(ReaderOf(st)))
  {
    hide ReadOrDie;
    var p := DoReadOrDie(st.session);
    if p.Err? {
      return Done(Err(p.error));
    }
    if !IsEofTerminator(p.value) {
      DoMarkDead(st.session);
      return Done(Err(MissingColdefTerminator));
    }
    st.awaitingTerminator := false;
    return Again;
  }

  method DoEndOfRows(st: Statement, p: seq<byte>)
    modifies st, st.session`lastStatus, st.session`lastWarnings, st.session`autocommit, st.session`inTransaction
    ensures ReaderOf(st) == EndOfRows(old(ReaderOf(st)), p)
  {
    var status, warnings := 0, 0;
    if |p| >= 5 {
      status, warnings := U16At(p, 3), U16At(p, 1);
    }
    DoApplyStatus(st.session, status, warnings);
    if HasBit(status, STATUS_MORE_RESULTS) {
      st.mode := MODE_NEED_NEXT_FIRST;
    } else {
      st.pendingOk, st.mode := OkPacket(0, 0, status, warnings), MODE_PENDING_OK;
    }
  }

  method DoRowTurn(st: Statement) returns (t: Turn)
    modifies st, st.session, st.session.stream
    ensures (t, ReaderOf(st)) == RowTurn(old(ReaderOf(st)))
  {
    hide ReadOrDie, DecodeRow, EndOfRows;
    var p := DoReadOrDie(st.session);
    if p.Err? {
      return Done(Err(p.error));
    }
    if IsEofTerminator(p.value) {
      DoEndOfRows(st, p.value);
      return Done(Ok(ResultSetEnd));
    }
    var cells := DecodeTextRow(p.value, st.columnCount);
    if cells.Err? {
      DoMarkDead(st.session);
      return Done(Err(cells.error));
    }
    return Done(Ok(Row(cells.value)));
  }

  method DoSetTerminal(st: Statement)
    modifies st`mode, st`consumed, st.session`activeStatement
    ensures ReaderOf(st) == Terminal(old(ReaderOf(st)))
  {
    st.mode := MODE_DONE;
    st.consumed := true;
    st.session.activeStatement := false;
  }

  method DoPendingTurn(st: Statement) returns (t: Turn)
    requires st.mode == MODE_PENDING_OK || st.mode == MODE_PENDING_ERR
    modifies st, st.session
    ensures (t, ReaderOf(st)) == TurnOf(old(ReaderOf(st)))
  {
    if st.mode == MODE_PENDING_OK {
      var ok := st.pendingOk;
      DoApplyStatus(st.session, ok.status, ok.warnings);
      DoSetTerminal(st);
      return Done(Ok(StatementEnd(ok)));
    }
    DoSetTerminal(st);
    var err := st.pendingErr;
    st.pendingErr := EMPTY_ERR;
    return Done(Ok(StatementErr(err)));
  }

  method DoTurn(st: Statement) returns (t: Turn)
    modifies st, st.session, st.session.stream
    ensures (t, ReaderOf(st)) == TurnOf(old(ReaderOf(st)))
  {
    if st.mode == MODE_PENDING_OK || st.mode == MODE_PENDING_ERR {
      t := DoPendingTurn(st);
    } else if st.mode == MODE_NEED_NEXT_FIRST {
      t := DoFirstTurn(st);
    } else if st.mode != MODE_RESULTSET {
      DoMarkDead(st.session);
      t := Done(Err(StatementInvalidMode));
    } else if st.defsRemaining > 0 {
      t := DoColumnDefTurn(st);
    } else if st.awaitingTerminator {
      t := DoTerminatorTurn(st);
    } else {
      t := DoRowTurn(st);
    }
  }

  method DoNextEvent(st: Statement) returns (r: Result<Event, Tag>)
    modifies st, st.session, st.session.stream
    ensures (r, ReaderOf(st)) == NextEvent(old(ReaderOf(st)))
  {
    if st.consumed {
      return Err(StatementConsumed);
    }
    if st.session.isClosed {
      return Err(SessionClosed);
    }
    while true
      invariant Advance(ReaderOf(st)) == Advance(old(ReaderOf(st)))
      decreases Unread(st.session.View())
    {
      TurnMakesProgress(ReaderOf(st));
      var t := DoTurn(st);
      if t.Done? {
        return t.result;
      }
    }
  }

  method DoSkipResult(st: Statement) returns (r: Result<(), Tag>)
    modifies st, st.session, st.session.stream
    ensures (r, ReaderOf(st)) == SkipResult(old(ReaderOf(st)))
  {
    if st.consumed {
      return Ok(());
    }
    if st.mode == MODE_PENDING_OK || st.mode == MODE_PENDING_ERR || st.mode == MODE_NEED_NEXT_FIRST {
      return Ok(());
    }
    while true
      invariant SkipRows(ReaderOf(st)) == SkipRows(old(ReaderOf(st)))
      decreases Unread(st.session.View())
    {
      AdvanceMakesProgress(ReaderOf(st));
      var ev := DoNextEvent(st);
      if ev.Err? {
        return Err(ev.error);
      }
      if !ev.value.Row? {
        return Ok(());
      }
    }
  }

  method DoSkipRemaining(st: Statement) returns (r: Result<(), Tag>)
    modifies st, st.session, st.session.stream
    ensures (r, ReaderOf(st)) == SkipRemaining(old(ReaderOf(st)))
  {
    if st.consumed {
      return Ok(());
    }
    while true
      invariant !st.consumed
      invariant SkipRemaining(ReaderOf(st)) == SkipRemaining(old(ReaderOf(st)))
      decreases Unread(st.session.View())
    {
      AdvanceMakesProgress(ReaderOf(st));
      var ev := DoNextEvent(st);
      if ev.Err? {
        return Err(ev.error);
      }
      if EndsStatement(ev.value) {
        return Ok(());
      }
    }
  }

  method DoDestroy(st: Statement)
    modifies st, st.session, st.session.stream
    ensures st.session.View() == Destroy(old(ReaderOf(st)))
  {
    if st.consumed {
      return;
    }
    var r := DoSkipRemaining(st);
    if r.Err? {
      DoMarkDead(st.session);
    }
  }
}
