/**
 What a caller asks of a wire session: queries, transaction commands, pings, the resets
 before reuse, closing, and the two set-up queries that follow the handshake.
 */
module Commands {
  import opened Basics
  import opened PacketCodec
  import opened Sockets
  import opened Statements
  import opened Transport
  import opened WireErrors
  import opened WireTypes

  const COM_QUIT: byte := 1
  const COM_QUERY: byte := 3
  const COM_PING: byte := 14
  const COM_RESET_CONNECTION: byte := 31

  const ER_UNKNOWN_COM_ERROR := 1047

  type Sql = seq<byte>

  const COMMIT: Sql := [67, 79, 77, 77, 73, 84]
  const ROLLBACK: Sql := [82, 79, 76, 76, 66, 65, 67, 75]
  const SET_AUTOCOMMIT: Sql := [83, 69, 84, 32, 97, 117, 116, 111, 99, 111, 109, 109, 105, 116, 61]

  function SetAutocommitSql(enabled: bool): Sql {
    SET_AUTOCOMMIT + [if enabled then 49 else 48]
  }

  /** Why a command may not start, if it may not. */
  function RequireReady(s: Session): Option<Tag> {
    if s.isClosed then Some(SessionClosed)
    else if !s.reusable then Some(SessionNotReusable)
    else if s.activeStatement then Some(ActiveStatementPresent)
    else None
  }

  /** Sends a command as the first packet of a new sequence and reads one packet. */
  function SendReceive(s: Session, command: seq<byte>): (Result<seq<byte>, Tag>, Session) {
    match WritePacket(s.(expectedSeq := 0), command)
    case (Err(e), t) => (Err(e), MarkDead(t))
    case (Ok(_), t) => ReadOrDie(t)
  }

  method DoSendReceive(session: WireSession, command: seq<byte>) returns (r: Result<seq<byte>, Tag>)
    modifies session, session.stream
    ensures (r, session.View()) == SendReceive(old(session.View()), command)
  {
    session.expectedSeq := 0;
    var w := SessionWritePacket(session, command);
    if w.Err? {
      DoMarkDead(session);
      return Err(w.error);
    }
    r := DoReadOrDie(session);
  }

  function CheckReady(s: Session): Result<(), Tag> {
    match RequireReady(s)
    case None => Ok(())
    case Some(e) => Err(e)
  }

  method DoRequireReady(session: WireSession) returns (r: Result<(), Tag>)
    ensures r == CheckReady(session.View())
  {
    if session.isClosed {
      return Err(SessionClosed);
    }
    if !session.reusable {
      return Err(SessionNotReusable);
    }
    if session.activeStatement {
      return Err(ActiveStatementPresent);
    }
    return Ok(());
  }

  // ------------------------------------------------------ queries

  function Query(s: Session, sql: Sql): (Result<Stmt, Tag>, Session) {
    match RequireReady(s)
    case Some(e) => (Err(e), s)
    case None =>
      match SendReceive(s, [COM_QUERY] + sql)
      case (Err(e), t) => (Err(e), t)
      case (Ok(first), t) =>
        match InitFromFirst(FRESH_STMT, first, t.suppression, t.utf8)
        case Err(e) => (Err(e), MarkDead(t))
        case Ok(st) => (Ok(st), t.(activeStatement := true))
  }

  /** Dropping a statement whose session is dead has nothing left to do. */
  lemma DropOnClosed(w: Reader)
    requires MarkDead(w.s) == w.s
    ensures Destroy(w) == w.s
  {
    hide Advance;
  }

  /** A statement that fails to start is dropped, which finds its session closed already. */
  method DoQuery(session: WireSession, sql: Sql) returns (r: Result<Statement, Tag>)
    modifies session, session.stream
    ensures match Query(old(session.View()), sql)
            case (Err(e), t) => r == Err(e) && session.View() == t
            case (Ok(st), t) =>
              r.Ok? && fresh(r.value) && r.value.session == session && r.value.View() == st && session.View() == t
  {
    hide WritePacket, ReadOrDie, InitFromFirst, Destroy;
    var ready := DoRequireReady(session);
    if ready.Err? {
      return Err(ready.error);
    }
    var first := DoSendReceive(session, [COM_QUERY] + sql);
    if first.Err? {
      return Err(first.error);
    }
    session.activeStatement := true;
    var st := new Statement(session);
    var init := DoInitFromFirst(st, first.value);
    if init.Err? {
      DoMarkDead(session);
      session.activeStatement := false;
      DropOnClosed(ReaderOf(st));
      DoDestroy(st);
      return Err(init.error);
    }
    return Ok(st);
  }

  /** What a transaction command makes of the first event of its response. */
  function TxOutcome(ev: Result<Event, Tag>): Result<OkPacket, Tag> {
    match ev
    case Err(e) => Err(e)
    case Ok(Row(_)) => Err(UnexpectedRowInTxCommand)
    case Ok(ResultSetEnd) => Err(UnexpectedResultsetInTxCommand)
    case Ok(StatementErr(_)) => Err(TxCommandServerErr)
    case Ok(StatementEnd(ok)) => Ok(ok)
  }

  /** One event decides; the statement is dropped on the way out. */
  function QueryExpectOk(s: Session, sql: Sql): (Result<OkPacket, Tag>, Session) {
    match Query(s, sql)
    case (Err(e), t) => (Err(e), t)
    case (Ok(st), t) =>
      var (ev, w) := NextEvent(Reader(t, st));
      (TxOutcome(ev), Destroy(w))
  }

  method DoQueryExpectOk(session: WireSession, sql: Sql) returns (r: Result<OkPacket, Tag>)
    modifies session, session.stream
    ensures (r, session.View()) == QueryExpectOk(old(session.View()), sql)
  {
    var q := DoQuery(session, sql);
    if q.Err? {
      return Err(q.error);
    }
    var st := q.value;
    var ev := DoNextEvent(st);
    DoDestroy(st);
    return TxOutcome(ev);
  }

  function TxCommand(s: Session, sql: Sql): (Result<OkPacket, Tag>, Session) {
    match RequireReady(s)
    case Some(e) => (Err(e), s)
    case None => QueryExpectOk(s, sql)
  }

  /** `commit`, `rollback` and `set_autocommit`, which differ in their SQL alone. */
  method DoTxCommand(session: WireSession, sql: Sql) returns (r: Result<OkPacket, Tag>)
    modifies session, session.stream
    ensures (r, session.View()) == TxCommand(old(session.View()), sql)
  {
    var ready := DoRequireReady(session);
    if ready.Err? {
      return Err(ready.error);
    }
    r := DoQueryExpectOk(session, sql);
  }

  // ------------------------------------------------------ ping and reset

  function AfterOk(s: Session, resp: seq<byte>): Session {
    match DecodeOk(resp)
    case Ok(ok) => ApplyStatus(s, ok.status, ok.warnings)
    case Err(_) => s
  }

  function Ping(s: Session): (Result<(), Tag>, Session) {
    match RequireReady(s)
    case Some(e) => (Err(e), s)
    case None =>
      match SendReceive(s, [COM_PING])
      case (Err(e), t) => (Err(e), t)
      case (Ok(resp), t) =>
        if |resp| < 1 || resp[0] != 0 then (Err(PingUnexpectedResponse), MarkDead(t))
        else (Ok(()), AfterOk(t, resp))
  }

  method DoAfterOk(session: WireSession, resp: seq<byte>)
    modifies session`lastStatus, session`lastWarnings, session`autocommit, session`inTransaction
    ensures session.View() == AfterOk(old(session.View()), resp)
  {
    var ok := DecodeOk(resp);
    if ok.Ok? {
      DoApplyStatus(session, ok.value.status, ok.value.warnings);
    }
  }

  method DoPing(session: WireSession) returns (r: Result<(), Tag>)
    modifies session, session.stream
    ensures (r, session.View()) == Ping(old(session.View()))
  {
    var ready := DoRequireReady(session);
    if ready.Err? {
      return Err(ready.error);
    }
    var resp := DoSendReceive(session, [COM_PING]);
    if resp.Err? {
      return Err(resp.error);
    }
    if |resp.value| < 1 || resp.value[0] != 0 {
      DoMarkDead(session);
      return Err(PingUnexpectedResponse);
    }
    DoAfterOk(session, resp.value);
    return Ok(());
  }

  /** An ERR answer refuses the reset and leaves the session as it is. */
  function ResetRefusal(resp: seq<byte>, utf8: Utf8Check): Tag {
    match DecodeErr(resp, utf8)
    case Ok(err) => if err.code == ER_UNKNOWN_COM_ERROR then ResetConnectionUnsupported else ResetConnectionServerErr
    case Err(_) => ResetConnectionServerErr
  }

  function ResetConnection(s: Session): (Result<(), Tag>, Session) {
    match RequireReady(s)
    case Some(e) => (Err(e), s)
    case None =>
      match SendReceive(s, [COM_RESET_CONNECTION])
      case (Err(e), t) => (Err(e), t)
      case (Ok(resp), t) =>
        if |resp| < 1 then (Err(ResetConnectionEmptyResponse), MarkDead(t))
        else if resp[0] == 0 then (Ok(()), AfterOk(t, resp))
        else if resp[0] == 255 then (Err(ResetRefusal(resp, t.utf8)), t)
        else (Err(ResetConnectionUnexpectedResponse), MarkDead(t))
  }

  method DoResetConnection(session: WireSession) returns (r: Result<(), Tag>)
    modifies session, session.stream
    ensures (r, session.View()) == ResetConnection(old(session.View()))
  {
    var ready := DoRequireReady(session);
    if ready.Err? {
      return Err(ready.error);
    }
    var resp := DoSendReceive(session, [COM_RESET_CONNECTION]);
    if resp.Err? {
      return Err(resp.error);
    }
    if |resp.value| < 1 {
      DoMarkDead(session);
      return Err(ResetConnectionEmptyResponse);
    }
    if resp.value[0] == 0 {
      DoAfterOk(session, resp.value);
      return Ok(());
    }
    if resp.value[0] == 255 {
      return Err(ResetRefusal(resp.value, session.utf8));
    }
    DoMarkDead(session);
    return Err(ResetConnectionUnexpectedResponse);
  }

  /** One step of the manual reset: skipped when not needed, deadly when it fails. */
  function ManualStep(s: Session, needed: bool, sql: Sql): (Result<(), Tag>, Session) {
    if !needed then (Ok(()), s)
    else match TxCommand(s, sql)
      case (Err(e), t) => (Err(e), MarkDead(t))
      case (Ok(_), t) => (Ok(()), t)
  }

  method DoManualStep(session: WireSession, needed: bool, sql: Sql) returns (r: Result<(), Tag>)
    modifies session, session.stream
    ensures (r, session.View()) == ManualStep(old(session.View()), needed, sql)
  {
    if !needed {
      return Ok(());
    }
    var tx := DoTxCommand(session, sql);
    if tx.Err? {
      DoMarkDead(session);
      return Err(tx.error);
    }
    return Ok(());
  }

  function PingForReuse(s: Session): (Result<(), Tag>, Session) {
    match Ping(s)
    case (Err(e), t) => (Err(e), MarkDead(t))
    case (Ok(_), t) => if t.reusable then (Ok(()), t) else (Err(SessionNotReusable), t)
  }

  /** ROLLBACK when in a transaction, SET autocommit=1 when it is off, then a ping. */
  function ManualReset(s: Session): (Result<(), Tag>, Session) {
    match ManualStep(s, s.inTransaction, ROLLBACK)
    case (Err(e), t) => (Err(e), t)
    case (Ok(_), t) =>
      match ManualStep(t, !t.autocommit, SetAutocommitSql(true))
      case (Err(e), u) => (Err(e), u)
      case (Ok(_), u) => PingForReuse(u)
  }

  function ResetForPoolReuse(s: Session): (Result<(), Tag>, Session) {
    if s.isClosed then (Err(SessionClosed), s)
    else if s.activeStatement then (Err(ActiveStatementPresent), s)
    else if !s.resetSupported then ManualReset(s)
    else match ResetConnection(s)
      case (Ok(_), t) => if t.reusable then (Ok(()), t) else (Err(SessionNotReusable), t)
      case (Err(e), t) =>
        if t.isClosed || !t.reusable then (Err(SessionNotReusable), t)
        else if e == ResetConnectionUnsupported then ManualReset(t.(resetSupported := false))
        else (Err(e), t)
  }

  method DoPingForReuse(session: WireSession) returns (r: Result<(), Tag>)
    modifies session, session.stream
    ensures (r, session.View()) == PingForReuse(old(session.View()))
  {
    var p := DoPing(session);
    if p.Err? {
      DoMarkDead(session);
      return Err(p.error);
    }
    if !session.reusable {
      return Err(SessionNotReusable);
    }
    return Ok(());
  }

  method DoManualReset(session: WireSession) returns (r: Result<(), Tag>)
    modifies session, session.stream
    ensures (r, session.View()) == ManualReset(old(session.View()))
  {
    r := DoManualStep(session, session.inTransaction, ROLLBACK);
    if r.Err? {
      return;
    }
    r := DoManualStep(session, !session.autocommit, SetAutocommitSql(true));
    if r.Err? {
      return;
    }
    r := DoPingForReuse(session);
  }

  method DoResetForPoolReuse(session: WireSession) returns (r: Result<(), Tag>)
    modifies session, session.stream
    ensures (r, session.View()) == ResetForPoolReuse(old(session.View()))
  {
    hide ResetConnection, ManualReset;
    if session.isClosed {
      return Err(SessionClosed);
    }
    if session.activeStatement {
      return Err(ActiveStatementPresent);
    }
    if session.resetSupported {
      var reset := DoResetConnection(session);
      if reset.Ok? {
        if !session.reusable {
          return Err(SessionNotReusable);
        }
        return Ok(());
      }
      if session.isClosed || !session.reusable {
        return Err(SessionNotReusable);
      }
      if reset.error != ResetConnectionUnsupported {
        return Err(reset.error);
      }
      session.resetSupported := false;
    }
    r := DoManualReset(session);
  }

  // ------------------------------------------------------ closing

  /** Says goodbye, heard or not, and closes; a second close has nothing to do. */
  function Close(s: Session): (Result<(), Tag>, Session) {
    if s.isClosed then (Ok(()), s)
    else
      var down := s.(activeStatement := false, isClosed := true, reusable := false, expectedSeq := 0);
      var (_, t) := WritePacket(down, [COM_QUIT]);
      (if t.stream.closeFails then Err(CloseFailed) else Ok(()), t.(stream := t.stream.(isOpen := false)))
  }

  method DoClose(session: WireSession) returns (r: Result<(), Tag>)
    modifies session, session.stream
    ensures (r, session.View()) == Close(old(session.View()))
  {
    hide WritePacket;
    if session.isClosed {
      return Ok(());
    }
    session.activeStatement := false;
    session.isClosed := true;
    session.reusable := false;
    session.expectedSeq := 0;
    var _ := SessionWritePacket(session, [COM_QUIT]);
    var closed := session.stream.Close();
    if closed {
      return Ok(());
    }
    return Err(CloseFailed);
  }

  // ------------------------------------------------------ setting a connection up

  datatype SetupError =
    | DeadlineExceeded
    | QueryFailed(tag: Tag) | NextEventFailed(tag: Tag) | ServerError | SetAutocommitFailed(tag: Tag)

  /** Whether the connect budget is spent, at each of the places where the program looks. */
  datatype Budget = Budget(beforeNames: bool, namesFailed: bool, beforeAutocommit: bool, autocommitFailed: bool)

  const NO_BUDGET := Budget(false, false, false, false)

  /** Events until the terminal one, rows and all; the statement is dropped afterwards. */
  function AwaitEnd(w: Reader): (Result<(), SetupError>, Reader)
    decreases Unread(w.s)
  {
    AdvanceMakesProgress(w);
    match NextEvent(w)
    case (Err(e), w') => (Err(NextEventFailed(e)), w')
    case (Ok(ev), w') =>
      if ev.StatementEnd? then (Ok(()), w')
      else if ev.StatementErr? then (Err(ServerError), w')
      else AwaitEnd(w')
  }

  function ExecExpectOk(s: Session, sql: Sql): (Result<(), SetupError>, Session) {
    match Query(s, sql)
    case (Err(e), t) => (Err(QueryFailed(e)), t)
    case (Ok(st), t) =>
      var (r, w) := AwaitEnd(Reader(t, st));
      (r, Destroy(w))
  }

  /** A failed set-up closes the session; a spent budget takes the blame. */
  function GiveUp(s: Session, spent: bool, e: SetupError): (Result<(), SetupError>, Session) {
    (Err(if spent then DeadlineExceeded else e), Close(s).1)
  }

  function SetUpAutocommit(s: Session, autocommit: bool, budget: Budget): (Result<(), SetupError>, Session) {
    if budget.beforeAutocommit then GiveUp(s, true, DeadlineExceeded)
    else match TxCommand(s, SetAutocommitSql(autocommit))
      case (Err(e), t) => GiveUp(t, budget.autocommitFailed, SetAutocommitFailed(e))
      case (Ok(_), t) => (Ok(()), t)
  }

  /** SET NAMES and SET autocommit on a fresh session, which is closed if either fails. */
  function SetUp(s: Session, setNames: Sql, autocommit: bool, budget: Budget): (Result<(), SetupError>, Session) {
    if budget.beforeNames then GiveUp(s, true, DeadlineExceeded)
    else match ExecExpectOk(s, setNames)
      case (Err(e), t) => GiveUp(t, budget.namesFailed, e)
      case (Ok(_), t) => SetUpAutocommit(t, autocommit, budget)
  }

  method DoExecExpectOk(session: WireSession, sql: Sql) returns (r: Result<(), SetupError>)
    modifies session, session.stream
    ensures (r, session.View()) == ExecExpectOk(old(session.View()), sql)
  {
    var q := DoQuery(session, sql);
    if q.Err? {
      return Err(QueryFailed(q.error));
    }
    r := DoAwaitEnd(q.value);
    DoDestroy(q.value);
  }

  method DoAwaitEnd(st: Statement) returns (r: Result<(), SetupError>)
    modifies st, st.session, st.session.stream
    ensures (r, ReaderOf(st)) == AwaitEnd(old(ReaderOf(st)))
  {
    while true
      invariant AwaitEnd(ReaderOf(st)) == AwaitEnd(old(ReaderOf(st)))
      decreases Unread(st.session.View())
    {
      AdvanceMakesProgress(ReaderOf(st));
      var ev := DoNextEvent(st);
      if ev.Err? {
        return Err(NextEventFailed(ev.error));
      }
      if ev.value.StatementEnd? {
        return Ok(());
      }
      if ev.value.StatementErr? {
        return Err(ServerError);
      }
    }
  }

  method DoGiveUp(session: WireSession, spent: bool, e: SetupError) returns (r: Result<(), SetupError>)
    modifies session, session.stream
    ensures (r, session.View()) == GiveUp(old(session.View()), spent, e)
  {
    var _ := DoClose(session);
    if spent {
      return Err(DeadlineExceeded);
    }
    return Err(e);
  }

  method DoSetUpAutocommit(session: WireSession, autocommit: bool, budget: Budget)
    returns (r: Result<(), SetupError>)
    modifies session, session.stream
    ensures (r, session.View()) == SetUpAutocommit(old(session.View()), autocommit, budget)
  {
    hide TxCommand, Close;
    if budget.beforeAutocommit {
      r := DoGiveUp(session, true, DeadlineExceeded);
      return;
    }
    var tx := DoTxCommand(session, SetAutocommitSql(autocommit));
    if tx.Err? {
      r := DoGiveUp(session, budget.autocommitFailed, SetAutocommitFailed(tx.error));
      return;
    }
    return Ok(());
  }

  method DoSetUp(session: WireSession, setNames: Sql, autocommit: bool, budget: Budget)
    returns (r: Result<(), SetupError>)
    modifies session, session.stream
    ensures (r, session.View()) == SetUp(old(session.View()), setNames, autocommit, budget)
  {
    hide ExecExpectOk, Close, SetUpAutocommit;
    if budget.beforeNames {
      r := DoGiveUp(session, true, DeadlineExceeded);
      return;
    }
    var names := DoExecExpectOk(session, setNames);
    if names.Err? {
      r := DoGiveUp(session, budget.namesFailed, names.error);
      return;
    }
    r := DoSetUpAutocommit(session, autocommit, budget);
  }
}
