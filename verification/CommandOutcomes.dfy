/**
 When each command succeeds, when it is refused, and what it leaves mirrored: the outcomes
 in terms of the session before the call and of the packets that come back.
 */
module CommandOutcomes {
  import opened Basics
  import opened Commands
  import opened CommitOutcomes
  import opened PacketCodec
  import opened PacketHeaders
  import opened PoolReuse
  import opened ServerResponses
  import opened SessionRuns
  import opened SessionTheorems
  import opened Sockets
  import opened Statements
  import opened Transport
  import opened WireErrors
  import opened WireTypes

  /** The transaction commands in plain text. */
  lemma CommandTexts()
    ensures COMMIT == Ascii("COMMIT") && ROLLBACK == Ascii("ROLLBACK")
    ensures SetAutocommitSql(true) == Ascii("SET autocommit=1")
    ensures SetAutocommitSql(false) == Ascii("SET autocommit=0")
  {}

  // ------------------------------------------------------ refusals

  /** A command starts unless the session is dead or busy, and says which. */
  ghost predicate RefusedExactly<T>(s: Session, r: Result<T, Tag>, t: Session) {
    && (r == Err(SessionClosed) <==> s.isClosed)
    && (r == Err(ActiveStatementPresent) <==> !s.isClosed && s.activeStatement)
    && r != Err(SessionNotReusable)
    && (s.isClosed || s.activeStatement ==> t == s)
  }

  lemma SendReceiveErrors(s: Session, command: seq<byte>)
    ensures var r := SendReceive(s, command).0;
            r.Err? ==>
              r.error in {WireWriteFailed, InvalidPayloadLen, WireReadFailed, WireReadEof, WireSequenceMismatch}
  {
    hide WriteAll, ReadPacket;
  }

  lemma QueryRefusals(s: Session, sql: Sql)
    requires Sound(s)
    ensures RefusedExactly(s, Query(s, sql).0, Query(s, sql).1)
  {
    hide SendReceive, InitFromFirst;
    SendReceiveErrors(s, [COM_QUERY] + sql);
    var (r, t) := SendReceive(s, [COM_QUERY] + sql);
    if r.Ok? {
      InitErrors(FRESH_STMT, r.value, t.suppression, t.utf8);
    }
  }

  lemma TxCommandRefusals(s: Session, sql: Sql)
    requires Sound(s)
    ensures RefusedExactly(s, TxCommand(s, sql).0, TxCommand(s, sql).1)
  {
    hide Query, Destroy, Advance;
    QueryRefusals(s, sql);
    QuerySound(s, sql);
    var (q, t) := Query(s, sql);
    if q.Ok? {
      AdvanceGood(Reader(t, q.value));
    }
  }

  lemma PingAndResetRefusals(s: Session)
    requires Sound(s)
    ensures RefusedExactly(s, Ping(s).0, Ping(s).1)
    ensures RefusedExactly(s, ResetConnection(s).0, ResetConnection(s).1)
  {
    hide SendReceive, AfterOk, DecodeErr;
    SendReceiveErrors(s, [COM_PING]);
    SendReceiveErrors(s, [COM_RESET_CONNECTION]);
  }

  // ------------------------------------------------------ ping and reset

  ghost predicate SameMirrors(s: Session, t: Session) {
    && t.lastStatus == s.lastStatus && t.lastWarnings == s.lastWarnings
    && t.autocommit == s.autocommit && t.inTransaction == s.inTransaction
  }

  /** The mirrors are an OK packet's: bit 0 says in a transaction, bit 1 autocommit. */
  ghost predicate MirrorsOk(ok: OkPacket, t: Session) {
    && t.lastStatus == ok.status && t.lastWarnings == ok.warnings
    && (t.inTransaction <==> ok.status % 2 == 1)
    && (t.autocommit <==> ok.status / 2 % 2 == 1)
  }

  /** After an OK header: what the packet says if it decodes, and otherwise what was there. */
  ghost predicate MirrorsAnswer(s: Session, p: seq<byte>, t: Session) {
    match DecodeOk(p)
    case Ok(ok) => MirrorsOk(ok, t)
    case Err(_) => SameMirrors(s, t)
  }

  lemma SendReceiveMirrors(s: Session, command: seq<byte>)
    ensures SendReceive(s, command).0.Ok? ==> SameMirrors(s, SendReceive(s, command).1)
  {
    hide WriteAll, ReadPacket;
  }

  lemma AfterOkMirrors(s: Session, p: seq<byte>)
    ensures MirrorsAnswer(s, p, AfterOk(s, p))
  {
    hide DecodeOk;
  }

  predicate StartsWith(p: Option<seq<byte>>, b: byte) {
    p.Some? && |p.value| >= 1 && p.value[0] == b
  }

  /** A ping succeeds if and only if an OK header comes back, and a ping that fails has
      found, or left, the session dead. */
  lemma PingIsExact(s: Session)
    requires Sound(s) && Ready(s)
    ensures var ((r, t), answer) := (Ping(s), AnswerTo(s, [COM_PING]));
            && (r.Ok? <==> StartsWith(answer, 0))
            && (r.Ok? ==> Ready(t) && MirrorsAnswer(s, answer.value, t))
            && (r.Err? ==> t.isClosed)
  {
    hide SendReceive, DecodeOk, AfterOk, MirrorsAnswer, SameMirrors;
    SendReceiveSound(s, [COM_PING]);
    SendReceiveMirrors(s, [COM_PING]);
    if StartsWith(AnswerTo(s, [COM_PING]), 0) {
      var t := SendReceive(s, [COM_PING]).1;
      AfterOkSound(t, AnswerTo(s, [COM_PING]).value);
      AfterOkMirrorsSince(s, t, AnswerTo(s, [COM_PING]).value);
    }
  }

  lemma AfterOkMirrorsSince(s: Session, t: Session, p: seq<byte>)
    requires SameMirrors(s, t)
    ensures MirrorsAnswer(s, p, AfterOk(t, p))
  {
    hide DecodeOk;
    AfterOkMirrors(t, p);
  }

  /** So does the reset command; an ERR leaves the session alive, and any other answer kills it. */
  lemma ResetConnectionIsExact(s: Session)
    requires Sound(s) && Ready(s)
    ensures var ((r, t), answer) := (ResetConnection(s), ResetAnswer(s));
            && (r.Ok? <==> StartsWith(answer, 0))
            && (r.Ok? ==> Ready(t) && MirrorsAnswer(s, answer.value, t))
            && (r.Err? ==> t.isClosed == !StartsWith(answer, 255))
            && (r.Err? && !t.isClosed ==> Ready(t) && SameMirrors(s, t))
  {
    hide SendReceive, DecodeOk, DecodeErr, AfterOk, MirrorsAnswer, SameMirrors;
    SendReceiveSound(s, [COM_RESET_CONNECTION]);
    SendReceiveMirrors(s, [COM_RESET_CONNECTION]);
    if StartsWith(ResetAnswer(s), 0) {
      var t := SendReceive(s, [COM_RESET_CONNECTION]).1;
      AfterOkSound(t, ResetAnswer(s).value);
      AfterOkMirrorsSince(s, t, ResetAnswer(s).value);
    }
  }

  // ------------------------------------------------------ transaction commands

  ghost predicate AnsweredOk(s: Session, sql: Sql) {
    Answer(s, sql).Some? && SaysOk(Answer(s, sql).value)
  }

  lemma PendingOkIsMirrored(w: Reader)
    requires Going(w) && w.st.mode == MODE_PENDING_OK
    ensures MirrorsOk(w.st.pendingOk, Destroy(NextEvent(w).1))
    ensures NextEvent(w).0 == Ok(StatementEnd(w.st.pendingOk))
  {}

  lemma InitKeepsOk(p: seq<byte>, suppression: bool, utf8: Utf8Check)
    requires SaysOk(p)
    ensures InitFromFirst(FRESH_STMT, p, suppression, utf8)
         == Ok(FRESH_STMT.(pendingOk := DecodeOk(p).value, mode := MODE_PENDING_OK))
  {}

  /** A transaction command succeeds if and only if it is answered by an OK packet; then it
      yields that packet, and its status is mirrored. */
  lemma TxCommandIsExact(s: Session, sql: Sql)
    requires Sound(s)
    ensures var (r, t) := TxCommand(s, sql);
            && (r.Ok? <==> AnsweredOk(s, sql))
            && (r.Ok? ==> Ok(r.value) == DecodeOk(Answer(s, sql).value) && Ready(t) && MirrorsOk(r.value, t))
  {
    hide SendReceive, InitFromFirst, Advance, SkipRemaining, SaysOk, SaysErr, DecodeOk, MirrorsOk;
    if Answer(s, sql).Some? {
      AnswerDecides(s, sql);
      TxCommandSound(s, sql);
      if SaysOk(Answer(s, sql).value) {
        OkIsYielded(s, sql);
      }
    }
  }

  lemma OkIsYielded(s: Session, sql: Sql)
    requires Sound(s) && AnsweredOk(s, sql)
    ensures var (r, t) := TxCommand(s, sql);
            r.Ok? && Ok(r.value) == DecodeOk(Answer(s, sql).value) && MirrorsOk(r.value, t)
  {
    hide SendReceive, InitFromFirst, Advance, SkipRemaining, DecodeOk, MirrorsOk;
    var (r, t) := SendReceive(s, [COM_QUERY] + sql);
    SendReceiveSound(s, [COM_QUERY] + sql);
    InitKeepsOk(r.value, t.suppression, t.utf8);
    QuerySound(s, sql);
    PendingOkIsMirrored(Reader(Query(s, sql).1, Query(s, sql).0.value));
  }

  // ------------------------------------------------------ commands read to their end

  /** What a report means to a caller who wants the statement to have succeeded. */
  function Verdict(report: Report): Result<(), SetupError>
    requires report.error.None? ==> report.events != []
  {
    match report.error
    case Some(e) => Err(NextEventFailed(e))
    case None =>
      if report.events[|report.events| - 1].StatementEnd? then Ok(()) else Err(ServerError)
  }

  /** Waiting for the end is reading everything and looking at the last event. */
  lemma {:induction false} AwaitEndJudges(w: Reader)
    ensures var (report, last) := ReadAll(w);
            && (report.error.None? ==> report.events != [])
            && AwaitEnd(w) == (Verdict(report), last)
    decreases Unread(w.s)
  {
    hide Advance;
    AdvanceMakesProgress(w);
    if NextEvent(w).0.Ok? && !EndsStatement(NextEvent(w).0.value) {
      AwaitEndJudges(NextEvent(w).1);
    }
  }

  /** The last part a reader gets to see says whether the statement succeeded. */
  function EndsWell(r: Response): bool {
    match r
    case OkPart(_, _, _) => true
    case SetPart(_, more) => more.Nothing? || EndsWell(more)
    case _ => false
  }

  function EndsInErr(r: Response): bool {
    match r
    case ErrPart(_) => true
    case SetPart(_, more) => EndsInErr(more)
    case _ => false
  }

  function LastEvent(report: Report): Option<Event> {
    if report.error.Some? || report.events == [] then None else Some(report.events[|report.events| - 1])
  }

  lemma {:induction false} RowEventsKeepLast(rows: seq<seq<Cell>>, behind: Report)
    requires behind.events != []
    ensures LastEvent(RowEvents(rows, behind)) == LastEvent(behind) && RowEvents(rows, behind).events != []
    decreases |rows|
  {
    if rows != [] {
      RowEventsKeepLast(rows[1..], behind);
    }
  }

  lemma {:induction false} LastEventTells(r: Response)
    requires !r.Nothing?
    ensures Expected(r).error.None? ==> Expected(r).events != []
    ensures EndsWell(r) <==> LastEvent(Expected(r)).Some? && LastEvent(Expected(r)).value.StatementEnd?
    ensures EndsInErr(r) <==> LastEvent(Expected(r)).Some? && LastEvent(Expected(r)).value.StatementErr?
    ensures EndsWell(r) || EndsInErr(r) || Expected(r).error.Some?
    decreases r
  {
    match r
    case SetPart(table, more) =>
      if more.Nothing? {
        var last := Report([StatementEnd(OkPacket(0, 0, table.status, table.warnings))], None);
        RowEventsKeepLast(table.rows, Then(ResultSetEnd, last));
      } else {
        LastEventTells(more);
        if Expected(more).error.Some? {
          RowEventsKeepError(table.rows, Then(ResultSetEnd, Expected(more)));
        } else {
          RowEventsKeepLast(table.rows, Then(ResultSetEnd, Expected(more)));
          assert LastEvent(Then(ResultSetEnd, Expected(more))) == LastEvent(Expected(more));
        }
      }
    case CutPart(table, _) => RowEventsKeepError(table.rows, Report([], Some(LenencInvalidPrefix)));
    case _ =>
  }

  /** For every response: the query of a set-up succeeds if and only if the response ends in
      an OK or in a resultset, and is the server's error if and only if it ends in an ERR. */
  lemma ExecJudgesResponse(s: Session, sql: Sql, r: Response, end: nat)
    requires Answered(s, sql, r, end)
    ensures var outcome := ExecExpectOk(s, sql).0;
            (outcome.Ok? <==> EndsWell(r)) && (outcome == Err(ServerError) <==> EndsInErr(r))
  {
    hide ReadAll, Valid, Expected, Packets, PacketsAt, KeepsGiving, Query, AwaitEnd, Destroy, ReadsAs, StopOf;
    QueryReadsResponse(s, sql, r, end);
    var w := Reader(Query(s, sql).1, Query(s, sql).0.value);
    AwaitEndJudges(w);
    ReportIsExpected(w, r, StopAfter(r, s), end);
    LastEventTells(r);
  }

  lemma ReportIsExpected(w: Reader, r: Response, stop: Stop, end: nat)
    requires ReadsAs(w, Expected(r), stop, end)
    ensures ReadAll(w).0 == Expected(r)
  {}

  /** What a transaction command makes of a response: its first event decides. */
  function TxVerdict(r: Response): Result<OkPacket, Tag>
    requires !r.Nothing?
  {
    match r
    case OkPart(ok, _, _) => Ok(ok)
    case ErrPart(_) => Err(TxCommandServerErr)
    case SetPart(table, _) =>
      Err(if table.rows == [] then UnexpectedResultsetInTxCommand else UnexpectedRowInTxCommand)
    case CutPart(table, _) => Err(if table.rows == [] then LenencInvalidPrefix else UnexpectedRowInTxCommand)
  }

  lemma FirstOfReport(w: Reader)
    ensures var report := ReadAll(w).0;
            NextEvent(w).0 == if report.events != [] then Ok(report.events[0])
                              else if report.error.Some? then Err(report.error.value) else NextEvent(w).0
    ensures ReadAll(w).0.events == [] ==> ReadAll(w).0.error.Some?
  {
    hide Advance;
  }

  lemma FirstIsExpected(r: Response)
    requires !r.Nothing?
    ensures TxVerdict(r)
         == TxOutcome(if Expected(r).events != [] then Ok(Expected(r).events[0])
                      else Err(Expected(r).error.value))
  {}

  /**
   For every response to a transaction command: an OK yields it, an ERR, a row or a resultset
   fails in its own way; and the response is read on to where reading to the end would stop,
   so that the session is ready again, or dead.
   */
  lemma TxJudgesResponse(s: Session, sql: Sql, r: Response, end: nat)
    requires Answered(s, sql, r, end)
    ensures var (outcome, t) := TxCommand(s, sql);
            && outcome == TxVerdict(r)
            && if Expected(r).error.None? then Ready(t) && Facing(t, StopAfter(r, s).left, end) else t.isClosed
  {
    hide ReadAll, Valid, Packets, PacketsAt, KeepsGiving, Query, Destroy, StopOf, Expected, NextEvent, TxVerdict;
    QueryReadsResponse(s, sql, r, end);
    QuerySound(s, sql);
    var w := Reader(Query(s, sql).1, Query(s, sql).0.value);
    FirstOfReport(w);
    FirstIsExpected(r);
    DropReadsToTheEnd(w, 1);
    OneEvent(w);
  }

  lemma OneEvent(w: Reader)
    requires !w.st.consumed
    ensures ReadEvents(w, 1).1 == NextEvent(w).1
  {
    hide NextEvent;
  }

  // ------------------------------------------------------ setting a connection up

  /** The query starts, is read to its end without an error, and ends well. */
  ghost predicate Accepted(s: Session, sql: Sql) {
    var (q, t) := Query(s, sql);
    && q.Ok?
    && var report := ReadAll(Reader(t, q.value)).0;
       report.error.None? && LastEvent(report).Some? && LastEvent(report).value.StatementEnd?
  }

  lemma ExecIsExact(s: Session, sql: Sql)
    requires Sound(s)
    ensures var (r, t) := ExecExpectOk(s, sql);
            && (r.Ok? <==> Accepted(s, sql))
            && r != Err(DeadlineExceeded)
            && (r.Ok? ==> Ready(t) && Sound(t))
  {
    hide Query, ReadAll, AwaitEnd, Destroy;
    ExecExpectOkSound(s, sql);
    var (q, t) := Query(s, sql);
    if q.Ok? {
      AwaitEndJudges(Reader(t, q.value));
    }
  }

  /** The session after SET NAMES. */
  function Named(s: Session, setNames: Sql): Session {
    ExecExpectOk(s, setNames).1
  }

  /** SET NAMES succeeded and there is still time to go on. */
  ghost predicate NamesDone(s: Session, setNames: Sql, budget: Budget) {
    !budget.beforeNames && Accepted(s, setNames) && !budget.beforeAutocommit
  }

  /**
   Set-up succeeds if and only if there is time before each command, SET NAMES is read to a
   good end, and SET autocommit with the configured value is answered by an OK, whose status
   is then mirrored. Otherwise the session is closed, and the deadline is blamed exactly when
   the budget was spent where set-up stopped.
   */
  lemma SetUpIsExact(s: Session, setNames: Sql, autocommit: bool, budget: Budget)
    requires Sound(s) && Ready(s)
    ensures var ((r, t), named) := (SetUp(s, setNames, autocommit, budget), Named(s, setNames));
            var sql := SetAutocommitSql(autocommit);
            && (r.Ok? <==> NamesDone(s, setNames, budget) && AnsweredOk(named, sql))
            && (r.Ok? ==> Ready(t) && Ok(TxCommand(named, sql).0.value) == DecodeOk(Answer(named, sql).value)
                          && MirrorsOk(DecodeOk(Answer(named, sql).value).value, t))
            && (r.Err? ==> t.isClosed)
            && (r == Err(DeadlineExceeded) <==>
                  if budget.beforeNames then true
                  else if !Accepted(s, setNames) then budget.namesFailed
                  else if budget.beforeAutocommit then true
                  else !AnsweredOk(named, sql) && budget.autocommitFailed)
  {
    hide ExecExpectOk, TxCommand, Close, Accepted, AnsweredOk, DecodeOk, MirrorsOk, Answer;
    SetUpLeavesReadyOrClosed(s, setNames, autocommit, budget);
    ExecIsExact(s, setNames);
    if Accepted(s, setNames) {
      TxCommandIsExact(Named(s, setNames), SetAutocommitSql(autocommit));
    }
  }

  /** What went wrong, deadlines apart. */
  function CauseOfFailure(s: Session, setNames: Sql, autocommit: bool): SetupError {
    match ExecExpectOk(s, setNames)
    case (Err(e), _) => e
    case (Ok(_), named) =>
      match TxCommand(named, SetAutocommitSql(autocommit)).0
      case Err(e) => SetAutocommitFailed(e)
      case Ok(_) => DeadlineExceeded
  }

  /** A failed set-up reports the deadline or what went wrong, and nothing else. */
  lemma SetUpReportsItsCause(s: Session, setNames: Sql, autocommit: bool, budget: Budget)
    requires SetUp(s, setNames, autocommit, budget).0.Err?
    ensures SetUp(s, setNames, autocommit, budget).0.error in
              {DeadlineExceeded, CauseOfFailure(s, setNames, autocommit)}
  {
    hide ExecExpectOk, TxCommand, Close;
  }

  lemma {:induction false} ReadAllWritesNothing(w: Reader)
    ensures WroteNothing(w.s, ReadAll(w).1.s)
    decreases Unread(w.s)
  {
    hide Advance;
    AdvanceWritesNothing(w);
    AdvanceMakesProgress(w);
    if NextEvent(w).0.Ok? && !EndsStatement(NextEvent(w).0.value) {
      ReadAllWritesNothing(NextEvent(w).1);
    }
  }

  lemma ExecSends(s: Session, sql: Sql)
    requires Sound(s) && ExecExpectOk(s, sql).0.Ok?
    ensures Sent(s, ExecExpectOk(s, sql).1, QueryCommand(sql))
  {
    hide SendReceive, InitFromFirst, ReadAll, AwaitEnd, SkipRemaining;
    SendReceiveSends(s, [COM_QUERY] + sql);
    var (q, t) := Query(s, sql);
    var w := Reader(t, q.value);
    AwaitEndJudges(w);
    ReadAllWritesNothing(w);
    SkipWritesNothing(ReadAll(w).1);
  }

  lemma SetUpIsBothCommands(s: Session, setNames: Sql, autocommit: bool, budget: Budget)
    requires SetUp(s, setNames, autocommit, budget).0.Ok?
    ensures ExecExpectOk(s, setNames).0.Ok?
    ensures var tx := TxCommand(Named(s, setNames), SetAutocommitSql(autocommit));
            tx.0.Ok? && SetUp(s, setNames, autocommit, budget).1 == tx.1
  {
    hide ExecExpectOk, TxCommand;
  }

  /** A successful set-up has sent both commands and nothing else, with the configured value. */
  lemma SetUpSends(s: Session, setNames: Sql, autocommit: bool, budget: Budget)
    requires Sound(s) && Ready(s) && SetUp(s, setNames, autocommit, budget).0.Ok?
    ensures Sent(s, SetUp(s, setNames, autocommit, budget).1,
                 QueryCommand(setNames) + QueryCommand(SetAutocommitSql(autocommit)))
  {
    hide SetUp, ExecExpectOk, TxCommand, QueryCommand, Accepted, Sent;
    SetUpIsBothCommands(s, setNames, autocommit, budget);
    ExecSends(s, setNames);
    ExecIsExact(s, setNames);
    var named := Named(s, setNames);
    TxCommandSends(named, SetAutocommitSql(autocommit));
    SentTwice(s, named, SetUp(s, setNames, autocommit, budget).1,
              QueryCommand(setNames), QueryCommand(SetAutocommitSql(autocommit)));
  }

  lemma SentTwice(s: Session, t: Session, u: Session, a: seq<byte>, b: seq<byte>)
    requires Sent(s, t, a) && Sent(t, u, b)
    ensures Sent(s, u, a + b)
  {
    assert s.stream.accepted + a + b == s.stream.accepted + (a + b);
  }

  // ------------------------------------------------------ reset before reuse

  /** Each step that the flags call for is answered by an OK, and so is the ping. */
  ghost predicate ManualResetAnswered(s: Session) {
    && (s.inTransaction ==> AnsweredOk(s, ROLLBACK))
    && var t := RolledBack(s);
       && (!t.autocommit ==> AnsweredOk(t, SetAutocommitSql(true)))
       && var u := ManualStep(t, !t.autocommit, SetAutocommitSql(true)).1;
          StartsWith(AnswerTo(u, [COM_PING]), 0)
  }

  lemma ManualStepIsExact(s: Session, needed: bool, sql: Sql)
    requires Sound(s) && Ready(s)
    ensures var (r, t) := ManualStep(s, needed, sql);
            && (r.Ok? <==> (needed ==> AnsweredOk(s, sql)))
            && (r.Ok? ==> Sound(t) && Ready(t))
  {
    hide TxCommand, AnsweredOk, MirrorsOk;
    TxCommandIsExact(s, sql);
    TxCommandSound(s, sql);
  }

  lemma ManualResetIsExact(s: Session)
    requires Sound(s) && Ready(s)
    ensures ManualReset(s).0.Ok? <==> ManualResetAnswered(s)
  {
    hide ManualStep, Ping, AnsweredOk, AnswerTo, MirrorsAnswer;
    ManualStepIsExact(s, s.inTransaction, ROLLBACK);
    var (r, t) := ManualStep(s, s.inTransaction, ROLLBACK);
    if r.Ok? {
      ManualStepIsExact(t, !t.autocommit, SetAutocommitSql(true));
      var (r', u) := ManualStep(t, !t.autocommit, SetAutocommitSql(true));
      if r'.Ok? {
        PingIsExact(u);
        PingSound(u);
      }
    }
  }

  /** The session after a reset command that the server does not know. */
  function Refused(s: Session): Session {
    ResetConnection(s).1.(resetSupported := false)
  }

  /**
   A session is made fit for reuse if and only if it was ready, and the reset command is
   answered by an OK header, or is refused as unknown (now or earlier) and every step of the
   manual reset is answered by an OK.
   */
  lemma ResetForPoolReuseIsExact(s: Session)
    requires Sound(s)
    ensures ResetForPoolReuse(s).0.Ok?
       <==> && Ready(s)
            && if !s.resetSupported then ManualResetAnswered(s)
               else || StartsWith(ResetAnswer(s), 0)
                    || (StartsWith(ResetAnswer(s), 255) && SaysUnknownCommand(ResetAnswer(s).value, s.utf8)
                        && ManualResetAnswered(Refused(s)))
  {
    hide ResetConnection, ManualReset, ManualResetAnswered, SaysUnknownCommand, ResetAnswer, MirrorsAnswer, SameMirrors;
    if Ready(s) {
      if s.resetSupported {
        ResetConnectionIsExact(s);
        ResetConnectionRefusals(s);
        ResetConnectionSound(s);
        var (r, t) := ResetConnection(s);
        if r.Err? && !t.isClosed {
          ManualResetIsExact(Refused(s));
        }
      } else {
        ManualResetIsExact(s);
      }
    }
  }

  lemma SendReceiveKeepsSupport(s: Session, command: seq<byte>)
    ensures SendReceive(s, command).1.resetSupported == s.resetSupported
  {
    hide WritePacket, ReadOrDie;
    ReadOrDieWritesNothing(WritePacket(s.(expectedSeq := 0), command).1);
  }

  lemma TxCommandKeepsSupport(s: Session, sql: Sql)
    ensures TxCommand(s, sql).1.resetSupported == s.resetSupported
  {
    hide SendReceive, InitFromFirst, Advance, SkipRemaining;
    SendReceiveKeepsSupport(s, [COM_QUERY] + sql);
    var (q, t) := Query(s, sql);
    if q.Ok? {
      AdvanceWritesNothing(Reader(t, q.value));
      SkipWritesNothing(NextEvent(Reader(t, q.value)).1);
    }
  }

  lemma PingKeepsSupport(s: Session)
    ensures Ping(s).1.resetSupported == s.resetSupported
    ensures ResetConnection(s).1.resetSupported == s.resetSupported
  {
    hide SendReceive, DecodeOk, DecodeErr;
    SendReceiveKeepsSupport(s, [COM_PING]);
    SendReceiveKeepsSupport(s, [COM_RESET_CONNECTION]);
  }

  lemma ManualResetKeepsSupport(s: Session)
    ensures ManualReset(s).1.resetSupported == s.resetSupported
  {
    hide TxCommand, Ping;
    TxCommandKeepsSupport(s, ROLLBACK);
    var t := ManualStep(s, s.inTransaction, ROLLBACK).1;
    TxCommandKeepsSupport(t, SetAutocommitSql(true));
    PingKeepsSupport(ManualStep(t, !t.autocommit, SetAutocommitSql(true)).1);
  }

  /** A refusal as unknown is remembered, so that the reset command is not tried again;
      nothing else that a reset meets is held against it. */
  lemma RefusalIsRemembered(s: Session)
    requires Sound(s)
    ensures ResetForPoolReuse(s).1.resetSupported
       <==> && s.resetSupported
            && !(Ready(s) && StartsWith(ResetAnswer(s), 255) && SaysUnknownCommand(ResetAnswer(s).value, s.utf8))
  {
    hide ResetConnection, ManualReset, SaysUnknownCommand, ResetAnswer, MirrorsAnswer, SameMirrors;
    if Ready(s) {
      PingKeepsSupport(s);
      ManualResetKeepsSupport(s);
      if s.resetSupported {
        ResetConnectionIsExact(s);
        ResetConnectionRefusals(s);
        ResetConnectionSound(s);
        ManualResetKeepsSupport(Refused(s));
      }
    }
  }

  // ------------------------------------------------------ closing

  /** Closing a live session says goodbye as far as the peer takes it and closes for good; its
      result is the socket's. Closing again does nothing. */
  lemma CloseSaysGoodbye(s: Session)
    ensures s.isClosed ==> Close(s) == (Ok(()), s)
    ensures !s.isClosed ==>
              var (r, t) := Close(s);
              && t.isClosed && !t.reusable && !t.activeStatement && !t.stream.isOpen
              && (r == if s.stream.closeFails then Err(CloseFailed) else Ok(()))
              && s.stream.accepted <= t.stream.accepted <= s.stream.accepted + Command([COM_QUIT])
              && (KeepsTaking(s.stream, 5) ==> Sent(s, t, Command([COM_QUIT])))
  {
    hide WriteAll;
    if !s.isClosed && KeepsTaking(s.stream, 5) {
      WriteAllSucceeds(s.stream, Command([COM_QUIT]), 0);
    }
  }
}
