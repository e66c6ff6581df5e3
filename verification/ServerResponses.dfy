/**
 Responses as a server means them and as it writes them. Reading back what was written is
 the statement reader's purpose; for every response the protocol allows, this module says
 exactly what the reader reports and where on the stream it stops.
 */
module ServerResponses {
  import opened Basics
  import opened Commands
  import opened PacketCodec
  import opened SessionTheorems
  import opened Sockets
  import opened Statements
  import opened Transport
  import opened WireErrors
  import opened WireTypes

  // ------------------------------------------------------ what a server may answer

  datatype ResultSet = ResultSet(
    cols: seq<ColumnDef>,
    sendDefs: bool,         // false when the client is known to have the definitions cached
    defsEof: seq<byte>,     // the marker behind the definitions
    rows: seq<seq<Cell>>,
    status: nat, warnings: nat)

  /** Results one behind the other; `Nothing` stands behind the last one. */
  datatype Response =
    | Nothing
    | OkPart(ok: OkPacket, info: seq<byte>, more: Response)
    | ErrPart(err: ErrPacket)
    | SetPart(table: ResultSet, more: Response)
    | CutPart(table: ResultSet, err: ErrPacket)   // an ERR where a row or the end of the rows was due

  ghost predicate ValidSet(table: ResultSet, suppression: bool, utf8: Utf8Check) {
    && 1 <= |table.cols| < 0x8000_0000_0000_0000
    && (forall d :: d in table.cols ==> ValidColumnDef(d, utf8))
    && IsEofTerminator(table.defsEof)
    && (!suppression ==> table.sendDefs)
    && (forall row :: row in table.rows ==> |row| == |table.cols| && ValidRow(row))
    && table.status < 65536 && table.warnings < 65536
  }

  /** The flag that promises more results stands exactly where more results follow. */
  ghost predicate Valid(r: Response, suppression: bool, utf8: Utf8Check) {
    match r
    case Nothing => true
    case OkPart(ok, _, more) =>
      ok.Valid() && (HasBit(ok.status, STATUS_MORE_RESULTS) <==> !more.Nothing?) && Valid(more, suppression, utf8)
    case ErrPart(err) => ValidErr(err, utf8)
    case SetPart(table, more) =>
      && ValidSet(table, suppression, utf8)
      && (HasBit(table.status, STATUS_MORE_RESULTS) <==> !more.Nothing?)
      && Valid(more, suppression, utf8)
    case CutPart(table, err) => ValidSet(table, suppression, utf8) && ValidErr(err, utf8)
  }

  // ------------------------------------------------------ how it writes it

  type Payloads = seq<seq<byte>>

  function RowPackets(rows: seq<seq<Cell>>, behind: Payloads): Payloads {
    if rows == [] then behind else [EncodeRow(rows[0])] + RowPackets(rows[1..], behind)
  }

  function DefPackets(defs: seq<ColumnDef>, behind: Payloads): Payloads {
    if defs == [] then behind else [EncodeColumnDef(defs[0])] + DefPackets(defs[1..], behind)
  }

  function SetPackets(table: ResultSet, suppression: bool, behind: Payloads): Payloads {
    var rows := RowPackets(table.rows, behind);
    [EncodeColumnCount(|table.cols|, if suppression then Some(table.sendDefs) else None)]
    + if table.sendDefs then DefPackets(table.cols, [table.defsEof] + rows) else rows
  }

  function Packets(r: Response, suppression: bool): Payloads {
    match r
    case Nothing => []
    case OkPart(ok, info, more) => [EncodeOk(ok, info)] + Packets(more, suppression)
    case ErrPart(err) => [EncodeErr(err)]
    case SetPart(table, more) =>
      SetPackets(table, suppression, [EncodeEof(table.status, table.warnings)] + Packets(more, suppression))
    case CutPart(table, err) => SetPackets(table, suppression, [EncodeErr(err)])
  }

  // ------------------------------------------------------ what the reader reports

  datatype Report = Report(events: seq<Event>, error: Option<Tag>)

  function RowEvents(rows: seq<seq<Cell>>, behind: Report): Report {
    if rows == [] then behind
    else
      var r := RowEvents(rows[1..], behind);
      r.(events := [Row(rows[0])] + r.events)
  }

  function Then(ev: Event, behind: Report): Report {
    behind.(events := [ev] + behind.events)
  }

  /** An OK ends the statement whatever it promises; an ERR among the rows is not understood. */
  function Expected(r: Response): Report {
    match r
    case Nothing => Report([], None)
    case OkPart(ok, _, _) => Report([StatementEnd(ok)], None)
    case ErrPart(err) => Report([StatementErr(err)], None)
    case SetPart(table, more) =>
      RowEvents(table.rows, Then(ResultSetEnd,
        if more.Nothing? then Report([StatementEnd(OkPacket(0, 0, table.status, table.warnings))], None)
        else Expected(more)))
    case CutPart(table, _) => RowEvents(table.rows, Report([], Some(LenencInvalidPrefix)))
  }

  /** Events until the terminal one or an error. */
  function ReadAll(w: Reader): (Report, Reader)
    decreases Unread(w.s)
  {
    AdvanceMakesProgress(w);
    match NextEvent(w)
    case (Err(e), w') => (Report([], Some(e)), w')
    case (Ok(ev), w') =>
      if EndsStatement(ev) then (Report([ev], None), w')
      else
        var (r, last) := ReadAll(w');
        (Then(ev, r), last)
  }

  // ------------------------------------------------------ one packet at a time

  /** A live session with these packets next on a stream that gives them, the last ending at `end`. */
  ghost predicate Facing(s: Session, payloads: Payloads, end: nat) {
    && !s.isClosed
    && KeepsGiving(s.stream)
    && PacketsAt(s.stream.incoming, s.stream.readPos, payloads, s.expectedSeq)
    && s.stream.readPos + WireLength(payloads) == end
  }

  lemma TakePacket(s: Session, p: seq<byte>, rest: Payloads, end: nat)
    requires Facing(s, [p] + rest, end)
    ensures var (r, t) := ReadOrDie(s);
            r == Ok(p) && Facing(t, rest, end) && OnlyReadPacket(s, t)
  {
    hide KeepsGiving, ReadPacket;
    var payloads := [p] + rest;
    assert payloads[0] == p && payloads[1..] == rest;
    ReadPacketIsExact(s, p);
  }

  /** `w'` is `w` with a packet read and the statement at `st`. */
  ghost predicate Moved(w: Reader, w': Reader, st: Stmt, rest: Payloads, end: nat) {
    Facing(w'.s, rest, end) && OnlyReadPacket(w.s, w'.s) && w'.st == st
  }

  ghost predicate AtFirst(w: Reader) {
    w.st.mode == MODE_NEED_NEXT_FIRST && !w.st.consumed
  }

  lemma FirstIs(w: Reader, p: seq<byte>, st: Stmt, rest: Payloads, end: nat)
    requires AtFirst(w) && Facing(w.s, [p] + rest, end)
    requires InitFromFirst(w.st, p, w.s.suppression, w.s.utf8) == Ok(st)
    ensures TurnOf(w).0.Again? && Moved(w, TurnOf(w).1, st, rest, end)
  {
    hide Facing, InitFromFirst, ReadOrDie;
    TakePacket(w.s, p, rest, end);
  }

  lemma FirstIsOk(w: Reader, ok: OkPacket, info: seq<byte>, rest: Payloads, end: nat)
    requires AtFirst(w) && Facing(w.s, [EncodeOk(ok, info)] + rest, end) && ok.Valid()
    ensures TurnOf(w).0.Again?
    ensures Moved(w, TurnOf(w).1, w.st.(pendingOk := ok, mode := MODE_PENDING_OK), rest, end)
  {
    hide Facing, TurnOf;
    DecodeEncodedOk(ok, info);
    FirstIs(w, EncodeOk(ok, info), w.st.(pendingOk := ok, mode := MODE_PENDING_OK), rest, end);
  }

  lemma FirstIsErr(w: Reader, err: ErrPacket, rest: Payloads, end: nat)
    requires AtFirst(w) && Facing(w.s, [EncodeErr(err)] + rest, end) && ValidErr(err, w.s.utf8)
    ensures TurnOf(w).0.Again?
    ensures Moved(w, TurnOf(w).1, w.st.(pendingErr := err, mode := MODE_PENDING_ERR), rest, end)
  {
    hide Facing, TurnOf;
    DecodeEncodedErr(err, w.s.utf8);
    FirstIs(w, EncodeErr(err), w.st.(pendingErr := err, mode := MODE_PENDING_ERR), rest, end);
  }

  /** The statement once a resultset's column count has been read. */
  function SetBegun(st: Stmt, n: nat, sendDefs: bool): Stmt {
    ResultSetFrom(st, ColumnCount(n, sendDefs))
  }

  lemma FirstIsSet(w: Reader, n: nat, sendDefs: bool, rest: Payloads, end: nat)
    requires AtFirst(w) && 1 <= n < 0x8000_0000_0000_0000 && (!w.s.suppression ==> sendDefs)
    requires Facing(w.s, [EncodeColumnCount(n, if w.s.suppression then Some(sendDefs) else None)] + rest, end)
    ensures TurnOf(w).0.Again? && Moved(w, TurnOf(w).1, SetBegun(w.st, n, sendDefs), rest, end)
  {
    hide Facing, TurnOf;
    var flag := if w.s.suppression then Some(sendDefs) else None;
    DecodeEncodedColumnCount(n, flag);
    ColumnCountLooksLikeResultSet(n, flag);
    FirstIs(w, EncodeColumnCount(n, flag), SetBegun(w.st, n, sendDefs), rest, end);
  }

  ghost predicate AtDefs(w: Reader, remaining: int) {
    w.st.mode == MODE_RESULTSET && w.st.defsRemaining == remaining && w.st.awaitingTerminator
  }

  lemma DefIsRead(w: Reader, d: ColumnDef, rest: Payloads, end: nat)
    requires AtDefs(w, w.st.defsRemaining) && w.st.defsRemaining > 0 && ValidColumnDef(d, w.s.utf8)
    requires Facing(w.s, [EncodeColumnDef(d)] + rest, end)
    ensures TurnOf(w).0.Again?
    ensures Moved(w, TurnOf(w).1, w.st.(defs := w.st.defs + [d], defsRemaining := w.st.defsRemaining - 1), rest, end)
  {
    hide Facing, ReadOrDie, DecodeColumnDef;
    TakePacket(w.s, EncodeColumnDef(d), rest, end);
    DecodeEncodedColumnDef(d, w.s.utf8);
  }

  lemma DefsEofIsRead(w: Reader, eof: seq<byte>, rest: Payloads, end: nat)
    requires AtDefs(w, 0) && IsEofTerminator(eof) && Facing(w.s, [eof] + rest, end)
    ensures TurnOf(w).0.Again? && Moved(w, TurnOf(w).1, w.st.(awaitingTerminator := false), rest, end)
  {
    hide Facing, ReadOrDie;
    TakePacket(w.s, eof, rest, end);
  }

  /** Reading the column definitions and the marker behind them. */
  lemma {:induction false} DefsAreRead(w: Reader, defs: seq<ColumnDef>, eof: seq<byte>, rest: Payloads, end: nat)
    returns (w': Reader)
    requires AtDefs(w, |defs|)
    requires forall d :: d in defs ==> ValidColumnDef(d, w.s.utf8)
    requires IsEofTerminator(eof) && Facing(w.s, DefPackets(defs, [eof] + rest), end)
    ensures Advance(w) == Advance(w')
    ensures Moved(w, w', w.st.(defs := w.st.defs + defs, defsRemaining := 0, awaitingTerminator := false), rest, end)
    decreases |defs|
  {
    hide Facing, TurnOf, ValidColumnDef;
    TurnMakesProgress(w);
    if defs == [] {
      DefsEofIsRead(w, eof, rest, end);
      w' := TurnOf(w).1;
      assert w.st.defs + defs == w.st.defs;
    } else {
      assert defs[0] in defs;
      DefIsRead(w, defs[0], DefPackets(defs[1..], [eof] + rest), end);
      w' := DefsAreRead(TurnOf(w).1, defs[1..], eof, rest, end);
      assert w.st.defs + defs == w.st.defs + [defs[0]] + defs[1..];
    }
  }

  // ------------------------------------------------------ rows and what ends them

  ghost predicate AtRows(w: Reader, columns: int) {
    && w.st.mode == MODE_RESULTSET && !w.st.consumed
    && w.st.defsRemaining <= 0 && !w.st.awaitingTerminator && w.st.columnCount == columns
  }

  lemma RowIsRead(w: Reader, row: seq<Cell>, rest: Payloads, end: nat)
    requires AtRows(w, |row|) && ValidRow(row) && Facing(w.s, [EncodeRow(row)] + rest, end)
    ensures NextEvent(w).0 == Ok(Row(row)) && Moved(w, NextEvent(w).1, w.st, rest, end)
  {
    hide ReadOrDie, DecodeRow, PacketsAt, KeepsGiving;
    TakePacket(w.s, EncodeRow(row), rest, end);
    RowIsNoTerminator(row);
    DecodeEncodedRow(row);
    assert TurnOf(w) == RowTurn(w);
  }

  /** The marker behind the rows ends the resultset and sets the mirrored status. */
  lemma RowsEnd(w: Reader, status: nat, warnings: nat, rest: Payloads, end: nat)
    requires AtRows(w, w.st.columnCount) && status < 65536 && warnings < 65536
    requires Facing(w.s, [EncodeEof(status, warnings)] + rest, end)
    ensures NextEvent(w).0 == Ok(ResultSetEnd)
    ensures var w' := NextEvent(w).1;
            && Facing(w'.s, rest, end) && w'.s.suppression == w.s.suppression && w'.s.utf8 == w.s.utf8
            && w'.s.lastStatus == status && w'.s.lastWarnings == warnings
            && w'.st == if HasBit(status, STATUS_MORE_RESULTS) then w.st.(mode := MODE_NEED_NEXT_FIRST)
                        else w.st.(pendingOk := OkPacket(0, 0, status, warnings), mode := MODE_PENDING_OK)
  {
    hide ReadOrDie, DecodeRow, PacketsAt, KeepsGiving;
    TakePacket(w.s, EncodeEof(status, warnings), rest, end);
    EofReadsBack(status, warnings);
    assert TurnOf(w) == RowTurn(w);
  }

  lemma ErrAmongRows(w: Reader, err: ErrPacket, rest: Payloads, end: nat)
    requires AtRows(w, w.st.columnCount) && w.st.columnCount >= 1
    requires Facing(w.s, [EncodeErr(err)] + rest, end)
    ensures NextEvent(w).0 == Err(LenencInvalidPrefix) && NextEvent(w).1.s.isClosed
  {
    hide ReadOrDie, PacketsAt, KeepsGiving;
    TakePacket(w.s, EncodeErr(err), rest, end);
    assert TurnOf(w) == RowTurn(w);
  }

  lemma ReadAllStep(w: Reader)
    requires NextEvent(w).0.Ok? && !EndsStatement(NextEvent(w).0.value)
    ensures var rest := ReadAll(NextEvent(w).1);
            ReadAll(w) == (Then(NextEvent(w).0.value, rest.0), rest.1)
  {
    hide NextEvent;
  }

  lemma {:induction false} RowsAreRead(w: Reader, rows: seq<seq<Cell>>, behind: Payloads, end: nat) returns (w': Reader)
    requires AtRows(w, w.st.columnCount)
    requires forall row :: row in rows ==> |row| == w.st.columnCount && ValidRow(row)
    requires Facing(w.s, RowPackets(rows, behind), end)
    ensures Moved(w, w', w.st, behind, end)
    ensures ReadAll(w) == (RowEvents(rows, ReadAll(w').0), ReadAll(w').1)
    decreases |rows|
  {
    hide Facing, NextEvent, ReadAll, ValidRow;
    if rows == [] {
      w' := w;
    } else {
      assert rows[0] in rows;
      RowIsRead(w, rows[0], RowPackets(rows[1..], behind), end);
      ReadAllStep(w);
      w' := RowsAreRead(NextEvent(w).1, rows[1..], behind, end);
    }
  }

  // ------------------------------------------------------ whole responses

  /** Where the reader stops: the packets it leaves unread, and the status it mirrors. */
  datatype Stop = Stop(left: Payloads, status: nat, warnings: nat)

  /** A session at rest at `stop`. */
  ghost predicate StoppedAt(w: Reader, stop: Stop, end: nat) {
    && Facing(w.s, stop.left, end) && w.st.consumed && !w.s.activeStatement
    && w.s.lastStatus == stop.status && w.s.lastWarnings == stop.warnings
  }

  ghost predicate ReadsAs(w: Reader, report: Report, stop: Stop, end: nat) {
    && ReadAll(w).0 == report
    && (report.error.None? ==> StoppedAt(ReadAll(w).1, stop, end))
    && (report.error.Some? ==> ReadAll(w).1.s.isClosed)
  }

  function StopAfter(r: Response, s: Session): Stop {
    StopOf(r, s.suppression, s.lastStatus, s.lastWarnings)
  }

  /** Every OK and every end of rows sets the mirrored status; an ERR has none to set. */
  function StopOf(r: Response, suppression: bool, status: nat, warnings: nat): Stop {
    match r
    case OkPart(ok, _, more) => Stop(Packets(more, suppression), ok.status, ok.warnings)
    case SetPart(table, more) => StopOf(more, suppression, table.status, table.warnings)
    case _ => Stop([], status, warnings)
  }

  lemma PendingIsReported(w: Reader, stop: Stop, end: nat)
    requires Facing(w.s, stop.left, end) && !w.st.consumed
    requires w.st.mode == MODE_PENDING_OK || w.st.mode == MODE_PENDING_ERR
    requires if w.st.mode == MODE_PENDING_OK
             then stop.status == w.st.pendingOk.status && stop.warnings == w.st.pendingOk.warnings
             else stop.status == w.s.lastStatus && stop.warnings == w.s.lastWarnings
    ensures ReadsAs(w, Report([if w.st.mode == MODE_PENDING_OK then StatementEnd(w.st.pendingOk)
                               else StatementErr(w.st.pendingErr)], None), stop, end)
  {
    hide PacketsAt, KeepsGiving;
  }

  /** Reading from a turn that only goes on is reading from where it leads. */
  lemma ReadsAsAfter(w: Reader, w': Reader, report: Report, stop: Stop, end: nat)
    requires !w.st.consumed && !w'.st.consumed && !w.s.isClosed && !w'.s.isClosed && Advance(w) == Advance(w')
    requires ReadsAs(w', report, stop, end)
    ensures ReadsAs(w, report, stop, end)
  {
    hide Advance, StoppedAt;
  }

  lemma AdvanceAgain(w: Reader)
    requires TurnOf(w).0.Again?
    ensures Advance(w) == Advance(TurnOf(w).1)
  {
    hide TurnOf;
  }

  /** From the first packet of a resultset to its rows. */
  lemma SetIsBegun(w: Reader, table: ResultSet, behind: Payloads, end: nat) returns (w': Reader)
    requires AtFirst(w) && ValidSet(table, w.s.suppression, w.s.utf8)
    requires Facing(w.s, SetPackets(table, w.s.suppression, behind), end)
    ensures Advance(w) == Advance(w') && !w'.s.isClosed
    ensures AtRows(w', |table.cols|) && Facing(w'.s, RowPackets(table.rows, behind), end) && OnlyReadPacket(w.s, w'.s)
  {
    hide TurnOf, Advance, PacketsAt, KeepsGiving, ValidColumnDef, ValidRow;
    var n := |table.cols|;
    var rows := RowPackets(table.rows, behind);
    FirstIsSet(w, n, table.sendDefs,
               if table.sendDefs then DefPackets(table.cols, [table.defsEof] + rows) else rows, end);
    AdvanceAgain(w);
    w' := TurnOf(w).1;
    if table.sendDefs {
      w' := DefsAreRead(w', table.cols, table.defsEof, rows, end);
    }
  }

  /**
   Reading undoes writing: from the first packet on, the reader reports what the response
   means and stops where `StopOf` says, and nowhere else.
   */
  lemma {:induction false} ReadingResponse(w: Reader, r: Response, end: nat)
    requires AtFirst(w) && !r.Nothing? && Valid(r, w.s.suppression, w.s.utf8)
    requires Facing(w.s, Packets(r, w.s.suppression), end)
    ensures ReadsAs(w, Expected(r), StopAfter(r, w.s), end)
    decreases r, 0
  {
    hide TurnOf, Advance, NextEvent, ReadAll, PacketsAt, KeepsGiving, StoppedAt, ValidSet;
    match r
    case OkPart(ok, info, more) =>
      var rest := Packets(more, w.s.suppression);
      FirstIsOk(w, ok, info, rest, end);
      AdvanceAgain(w);
      PendingIsReported(TurnOf(w).1, StopAfter(r, w.s), end);
      ReadsAsAfter(w, TurnOf(w).1, Expected(r), StopAfter(r, w.s), end);
    case ErrPart(err) =>
      assert Packets(r, w.s.suppression) == [EncodeErr(err)] + [];
      FirstIsErr(w, err, [], end);
      AdvanceAgain(w);
      PendingIsReported(TurnOf(w).1, StopAfter(r, w.s), end);
      ReadsAsAfter(w, TurnOf(w).1, Expected(r), StopAfter(r, w.s), end);
    case SetPart(table, more) =>
      ReadingSet(w, table, more, end);
    case CutPart(table, err) =>
      ReadingCutSet(w, table, err, end);
  }

  lemma {:induction false} RowEventsKeepError(rows: seq<seq<Cell>>, behind: Report)
    ensures RowEvents(rows, behind).error == behind.error
    decreases |rows|
  {
    if rows != [] {
      RowEventsKeepError(rows[1..], behind);
    }
  }

  lemma ReadsAsAfterEvent(w: Reader, report: Report, stop: Stop, end: nat)
    requires NextEvent(w).0.Ok? && !EndsStatement(NextEvent(w).0.value)
    requires ReadsAs(NextEvent(w).1, report, stop, end)
    ensures ReadsAs(w, Then(NextEvent(w).0.value, report), stop, end)
  {
    hide NextEvent, StoppedAt, ReadAll;
    ReadAllStep(w);
  }

  /** From the first packet of a resultset over its rows to what is behind them. */
  lemma ReadsAsSet(w: Reader, table: ResultSet, behind: Payloads, end: nat) returns (w2: Reader)
    requires AtFirst(w) && ValidSet(table, w.s.suppression, w.s.utf8)
    requires Facing(w.s, SetPackets(table, w.s.suppression, behind), end)
    ensures AtRows(w2, |table.cols|) && Facing(w2.s, behind, end)
    ensures w2.s.suppression == w.s.suppression && w2.s.utf8 == w.s.utf8
    ensures forall report, stop ::
              ReadsAs(w2, report, stop, end) ==> ReadsAs(w, RowEvents(table.rows, report), stop, end)
  {
    hide TurnOf, Advance, NextEvent, PacketsAt, KeepsGiving, StoppedAt, ValidColumnDef, ValidRow, ReadAll, SetPackets;
    var w1 := SetIsBegun(w, table, behind, end);
    w2 := RowsAreRead(w1, table.rows, behind, end);
    forall report, stop | ReadsAs(w2, report, stop, end)
      ensures ReadsAs(w, RowEvents(table.rows, report), stop, end)
    {
      RowEventsKeepError(table.rows, report);
      ReadsAsAfter(w, w1, RowEvents(table.rows, report), stop, end);
    }
  }

  lemma ReadingCutSet(w: Reader, table: ResultSet, err: ErrPacket, end: nat)
    requires AtFirst(w) && ValidSet(table, w.s.suppression, w.s.utf8)
    requires Facing(w.s, SetPackets(table, w.s.suppression, [EncodeErr(err)]), end)
    ensures ReadsAs(w, Expected(CutPart(table, err)), StopAfter(CutPart(table, err), w.s), end)
  {
    hide TurnOf, Advance, NextEvent, Facing, StoppedAt, SetPackets, RowEvents;
    var behind := [EncodeErr(err)];
    var w2 := ReadsAsSet(w, table, behind, end);
    assert behind == [EncodeErr(err)] + [];
    ErrAmongRows(w2, err, [], end);
    assert ReadsAs(w2, Report([], Some(LenencInvalidPrefix)), StopAfter(CutPart(table, err), w.s), end);
  }

  lemma ReadingSet(w: Reader, table: ResultSet, more: Response, end: nat)
    requires AtFirst(w) && Valid(SetPart(table, more), w.s.suppression, w.s.utf8)
    requires Facing(w.s, Packets(SetPart(table, more), w.s.suppression), end)
    ensures ReadsAs(w, Expected(SetPart(table, more)), StopAfter(SetPart(table, more), w.s), end)
    decreases more, 1
  {
    hide TurnOf, Advance, NextEvent, Facing, StoppedAt, SetPackets, RowEvents, ReadAll;
    var rest := Packets(more, w.s.suppression);
    var w2 := ReadsAsSet(w, table, [EncodeEof(table.status, table.warnings)] + rest, end);
    RowsEnd(w2, table.status, table.warnings, rest, end);
    var w3 := NextEvent(w2).1;
    var stop := StopAfter(SetPart(table, more), w.s);
    if more.Nothing? {
      assert rest == [] && stop == StopOf(Nothing, w.s.suppression, table.status, table.warnings);
      PendingIsReported(w3, stop, end);
      ReadsAsAfterEvent(w2, Report([StatementEnd(OkPacket(0, 0, table.status, table.warnings))], None), stop, end);
    } else {
      ReadingResponse(w3, more, end);
      ReadsAsAfterEvent(w2, Expected(more), stop, end);
    }
  }

  // ------------------------------------------------------ when a response reads back whole

  /** Every part but the last is a resultset, and no ERR stands among rows. */
  predicate Plain(r: Response) {
    match r
    case OkPart(_, _, more) => more.Nothing?
    case SetPart(_, more) => Plain(more)
    case CutPart(_, _) => false
    case _ => true
  }

  /** The session came through, with the whole response and nothing else consumed. */
  ghost predicate ReadWhole(w: Reader, end: nat) {
    var (report, last) := ReadAll(w);
    report.error.None? && !last.s.isClosed && last.s.stream.readPos == end
  }

  lemma {:induction false} NothingLeftExactlyWhenPlain(r: Response, suppression: bool, status: nat, warnings: nat)
    requires !r.Nothing?
    ensures Plain(r) <==> Expected(r).error.None? && StopOf(r, suppression, status, warnings).left == []
    decreases r
  {
    match r
    case OkPart(_, _, more) => PacketsOfSomething(more, suppression);
    case SetPart(table, more) =>
      if more.Nothing? {
        var last := Report([StatementEnd(OkPacket(0, 0, table.status, table.warnings))], None);
        RowEventsKeepError(table.rows, Then(ResultSetEnd, last));
      } else {
        RowEventsKeepError(table.rows, Then(ResultSetEnd, Expected(more)));
        NothingLeftExactlyWhenPlain(more, suppression, table.status, table.warnings);
      }
    case CutPart(table, _) => RowEventsKeepError(table.rows, Report([], Some(LenencInvalidPrefix)));
    case _ =>
  }

  lemma PacketsOfSomething(r: Response, suppression: bool)
    ensures Packets(r, suppression) == [] <==> r.Nothing?
  {}

  /**
   A response reads back whole exactly when it is plain. It does not when an OK packet
   promises more results, because the reader takes every OK for the end, nor when an ERR
   replaces a row, because the reader takes it for a row.
   */
  lemma ReadsWholeExactlyWhenPlain(w: Reader, r: Response, end: nat)
    requires AtFirst(w) && !r.Nothing? && Valid(r, w.s.suppression, w.s.utf8)
    requires Facing(w.s, Packets(r, w.s.suppression), end)
    ensures ReadWhole(w, end) <==> Plain(r)
  {
    hide ReadAll, Valid, Plain, Expected, Packets, PacketsAt, KeepsGiving, StopOf;
    ReadingResponse(w, r, end);
    NothingLeftExactlyWhenPlain(r, w.s.suppression, w.s.lastStatus, w.s.lastWarnings);
    var left := StopAfter(r, w.s).left;
    if left != [] {
      assert WireLength(left) > 0;
    }
  }

  /** The same response with no column definitions. */
  function Suppressed(r: Response): Response {
    match r
    case OkPart(ok, info, more) => OkPart(ok, info, Suppressed(more))
    case SetPart(table, more) => SetPart(table.(sendDefs := false), Suppressed(more))
    case CutPart(table, err) => CutPart(table.(sendDefs := false), err)
    case _ => r
  }

  lemma {:induction false} SuppressedMeansTheSame(r: Response, utf8: Utf8Check)
    requires Valid(r, true, utf8)
    ensures Expected(Suppressed(r)) == Expected(r) && Valid(Suppressed(r), true, utf8)
    ensures Suppressed(r).Nothing? == r.Nothing?
    decreases r
  {
    match r
    case OkPart(_, _, more) => SuppressedMeansTheSame(more, utf8);
    case SetPart(_, more) => SuppressedMeansTheSame(more, utf8);
    case _ =>
  }

  /** Leaving the column definitions out changes no event. */
  lemma SameEventsWithoutDefinitions(w: Reader, w': Reader, r: Response, end: nat, end': nat)
    requires AtFirst(w) && AtFirst(w') && w.s.suppression && w'.s.suppression && w.s.utf8 == w'.s.utf8
    requires !r.Nothing? && Valid(r, true, w.s.utf8)
    requires Facing(w.s, Packets(r, true), end) && Facing(w'.s, Packets(Suppressed(r), true), end')
    ensures ReadAll(w).0 == ReadAll(w').0
  {
    hide ReadAll, Valid, Expected, Packets, PacketsAt, KeepsGiving, Suppressed;
    SuppressedMeansTheSame(r, w.s.utf8);
    ReadingResponse(w, r, end);
    ReadingResponse(w', Suppressed(r), end');
  }

  /** Any packets of legal size, such as those of a response, can be put on a stream that
      also takes as much from us as we like. */
  lemma PacketsCanBeServed(payloads: Payloads, suppression: bool, utf8: Utf8Check, room: nat)
    returns (s: Session, end: nat)
    requires FitPackets(payloads)
    ensures Facing(s, payloads, end) && s.suppression == suppression && s.utf8 == utf8 && Sound(s) && Ready(s)
    ensures s.expectedSeq == 1 && s.resetSupported && KeepsTaking(s.stream, room) && |s.stream.incoming| == end
  {
    hide PacketAt;
    var n := WireLength(payloads);
    var patient: Schedule := seq(n, _ => Give(1));
    var server := Session(StreamState([], 0, [], [], patient, 0, 0, true, false), 1, false, false, true,
                          suppression, utf8, true, false, false, 0, 0);
    WritesSucceed(server, payloads);
    var bytes := WritePackets(server, payloads).1.stream.accepted;
    WrittenPacketsAreThere(server, payloads, bytes);
    var roomy: Schedule := seq(room, _ => Give(1));
    s := server.(stream := StreamState(bytes, 0, [], patient, roomy, 0, 0, true, false));
    end := n;
  }

  // ------------------------------------------------------ queries

  /** The session once a query has been written, if it could be. */
  function Asked(s: Session, sql: Sql): (Result<(), Tag>, Session) {
    WritePacket(s.(expectedSeq := 0), [COM_QUERY] + sql)
  }

  /** A ready session whose query goes out, with response `r` on the stream. */
  ghost predicate Answered(s: Session, sql: Sql, r: Response, end: nat) {
    && Sound(s) && Ready(s) && Asked(s, sql).0.Ok?
    && !r.Nothing? && Valid(r, s.suppression, s.utf8)
    && Facing(Asked(s, sql).1, Packets(r, s.suppression), end)
  }

  function Busy(s: Session): Session {
    s.(activeStatement := true)
  }

  lemma BusyReadsHeaderAlike(s: Session)
    ensures ReadHeader(Busy(s)) == (ReadHeader(s).0, Busy(ReadHeader(s).1))
  {
    hide ReadExact;
  }

  lemma BusyReadsAlike(s: Session)
    ensures ReadOrDie(Busy(s)) == (ReadOrDie(s).0, Busy(ReadOrDie(s).1))
  {
    hide ReadExact, ReadHeader;
    BusyReadsHeaderAlike(s);
  }

  lemma ModeIsForgotten(first: seq<byte>, suppression: bool, utf8: Utf8Check)
    ensures InitFromFirst(FRESH_STMT.(mode := MODE_NEED_NEXT_FIRST), first, suppression, utf8)
         == InitFromFirst(FRESH_STMT, first, suppression, utf8)
  {
    hide DecodeOk, DecodeErr, DecodeColumnCount;
  }

  /** A query whose response is on the stream starts a statement that reports it. */
  lemma QueryReadsResponse(s: Session, sql: Sql, r: Response, end: nat)
    requires Answered(s, sql, r, end)
    ensures var (q, t) := Query(s, sql);
            q.Ok? && ReadsAs(Reader(t, q.value), Expected(r), StopAfter(r, s), end)
  {
    hide ReadAll, Valid, Expected, Packets, PacketsAt, KeepsGiving, StoppedAt;
    hide InitFromFirst, WritePacket, Advance, ReadOrDie;
    var asked := Asked(s, sql).1;
    var w := Reader(asked.(activeStatement := true), FRESH_STMT.(mode := MODE_NEED_NEXT_FIRST));
    ReadingResponse(w, r, end);
    FirstTurnGoesOn(w, r, end);
    AdvanceAgain(w);
    var (first, t) := ReadOrDie(asked);
    BusyReadsAlike(asked);
    ModeIsForgotten(first.value, s.suppression, s.utf8);
    assert TurnOf(w).1 == Reader(t.(activeStatement := true), Query(s, sql).0.value);
    ReadsAsBefore(w, TurnOf(w).1, Expected(r), StopAfter(r, s), end);
  }

  lemma ReadsAsBefore(w: Reader, w': Reader, report: Report, stop: Stop, end: nat)
    requires !w.st.consumed && !w'.st.consumed && !w.s.isClosed && !w'.s.isClosed && Advance(w) == Advance(w')
    requires ReadsAs(w, report, stop, end)
    ensures ReadsAs(w', report, stop, end)
  {
    hide Advance, StoppedAt;
  }

  lemma FirstTurnGoesOn(w: Reader, r: Response, end: nat)
    requires AtFirst(w) && !r.Nothing? && Valid(r, w.s.suppression, w.s.utf8)
    requires Facing(w.s, Packets(r, w.s.suppression), end)
    ensures TurnOf(w).0.Again? && !TurnOf(w).1.s.isClosed && !TurnOf(w).1.st.consumed
  {
    hide TurnOf, PacketsAt, KeepsGiving, RowPackets, DefPackets, EncodeColumnCount, EncodeOk, EncodeErr;
    match r
    case OkPart(ok, info, more) => FirstIsOk(w, ok, info, Packets(more, w.s.suppression), end);
    case ErrPart(err) =>
      assert Packets(r, w.s.suppression) == [EncodeErr(err)] + [];
      FirstIsErr(w, err, [], end);
    case SetPart(table, more) =>
      SetGoesOn(w, table, [EncodeEof(table.status, table.warnings)] + Packets(more, w.s.suppression), end);
    case CutPart(table, err) => SetGoesOn(w, table, [EncodeErr(err)], end);
  }

  lemma SetGoesOn(w: Reader, table: ResultSet, behind: Payloads, end: nat)
    requires AtFirst(w) && ValidSet(table, w.s.suppression, w.s.utf8)
    requires Facing(w.s, SetPackets(table, w.s.suppression, behind), end)
    ensures TurnOf(w).0.Again? && !TurnOf(w).1.s.isClosed && !TurnOf(w).1.st.consumed
  {
    hide TurnOf, PacketsAt, KeepsGiving, ValidColumnDef, ValidRow;
    var rows := RowPackets(table.rows, behind);
    FirstIsSet(w, |table.cols|, table.sendDefs,
               if table.sendDefs then DefPackets(table.cols, [table.defsEof] + rows) else rows, end);
  }

  // ------------------------------------------------------ dropping

  lemma {:induction false} ReadingIsSkipping(w: Reader)
    requires ReaderSound(w) && !w.st.consumed
    ensures ReadAll(w).1 == SkipRemaining(w).1
    ensures ReadAll(w).0.error.None? <==> SkipRemaining(w).0.Ok?
    ensures ReadAll(w).0.error.None? ==> !ReadAll(w).1.s.isClosed
    decreases Unread(w.s)
  {
    hide Advance;
    if !w.s.isClosed {
      AdvanceGood(w);
    }
    AdvanceMakesProgress(w);
    if NextEvent(w).0.Ok? && !EndsStatement(NextEvent(w).0.value) {
      ReadingIsSkipping(NextEvent(w).1);
    }
  }

  lemma {:induction false} ReadEventsKeep(w: Reader, k: nat)
    requires ReaderSound(w)
    ensures ReaderSound(ReadEvents(w, k).1)
    decreases k
  {
    hide NextEvent;
    NextEventErrorsKill(w);
    if k > 0 && !w.st.consumed && NextEvent(w).0.Ok? {
      ReadEventsKeep(NextEvent(w).1, k - 1);
    }
  }

  lemma DropIsSkipping(w: Reader)
    requires ReaderSound(w)
    ensures Destroy(w) == SkipRemaining(w).1.s
  {
    SkipRemainingSound(w);
  }

  /** A statement dropped after any number of events leaves its session where reading to the
      end would have: at rest behind what can be read of the response, or dead. */
  lemma DropReadsToTheEnd(w: Reader, k: nat)
    requires ReaderSound(w) && !w.st.consumed
    ensures Destroy(ReadEvents(w, k).1) == ReadAll(w).1.s
    ensures ReadAll(w).0.error.None? ==> Ready(ReadAll(w).1.s)
    ensures ReadAll(w).0.error.Some? ==> ReadAll(w).1.s.isClosed
  {
    hide ReadAll, SkipRemaining, Destroy, ReadEvents;
    ReadingIsSkipping(w);
    SkippingEqualsReading(w, k);
    ReadEventsKeep(w, k);
    DropIsSkipping(ReadEvents(w, k).1);
    SkipRemainingSound(w);
  }
}
