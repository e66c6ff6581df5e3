/**
 Runs: any calls on one session, in any order, against any packets and any stream. Calls
 that the compiler's borrow rules would refuse (a command while a statement lives) are
 included; they find the session busy.
 */
module SessionRuns {
  import opened Basics
  import opened Commands
  import opened PacketCodec
  import opened SessionTheorems
  import opened Sockets
  import opened Statements
  import opened Transport
  import opened WireErrors
  import opened WireTypes

  /** A session and the statement a caller holds on it. */
  datatype Client = Client(s: Session, held: Option<Stmt>)

  datatype Call =
    | CallQuery(sql: Sql) | CallNextEvent | CallSkipResult | CallSkipRemaining | CallDrop
    | CallTx(sql: Sql)     // commit, rollback, set_autocommit
    | CallPing | CallResetConnection | CallResetForPoolReuse | CallClose

  function Holding(w: Reader): Client {
    Client(w.s, Some(w.st))
  }

  /** A new statement replaces the one held, which has ended by then. */
  function PerformQuery(c: Client, sql: Sql): Client {
    match Query(c.s, sql)
    case (Ok(st), s) => Client(s, Some(st))
    case (Err(_), s) => c.(s := s)
  }

  function PerformOnStatement(c: Client, call: Call): Client
    requires c.held.Some?
  {
    var w := Reader(c.s, c.held.value);
    match call
    case CallNextEvent => Holding(NextEvent(w).1)
    case CallSkipResult => Holding(SkipResult(w).1)
    case CallSkipRemaining => Holding(SkipRemaining(w).1)
    case CallDrop => Client(Destroy(w), None)
    case _ => c
  }

  function PerformOnSession(s: Session, call: Call): Session {
    match call
    case CallTx(sql) => TxCommand(s, sql).1
    case CallPing => Ping(s).1
    case CallResetConnection => ResetConnection(s).1
    case CallResetForPoolReuse => ResetForPoolReuse(s).1
    case CallClose => Close(s).1
    case _ => s
  }

  predicate NeedsStatement(call: Call) {
    call.CallNextEvent? || call.CallSkipResult? || call.CallSkipRemaining? || call.CallDrop?
  }

  function Perform(c: Client, call: Call): Client {
    if call.CallQuery? then PerformQuery(c, call.sql)
    else if NeedsStatement(call) then (if c.held.Some? then PerformOnStatement(c, call) else c)
    else c.(s := PerformOnSession(c.s, call))
  }

  ghost predicate ClientSound(c: Client) {
    && Sound(c.s)
    && (c.held.None? ==> !c.s.isClosed ==> !c.s.activeStatement)
    && (c.held.Some? ==> StmtSound(c.s, c.held.value))
  }

  // ------------------------------------------------------ every call keeps the invariant

  /** After a command that holds no statement, a session that lives is ready. */
  ghost predicate Settled(s: Session, t: Session) {
    Sound(t) && (t.isClosed || t == s || (Ready(s) && Ready(t)))
  }

  lemma SendReceiveSound(s: Session, command: seq<byte>)
    requires Sound(s) && Ready(s)
    ensures var (r, t) := SendReceive(s, command);
            Sound(t) && !t.activeStatement && (r.Ok? <==> !t.isClosed)
  {
    hide WriteAll, ReadPacket;
  }

  lemma QuerySound(s: Session, sql: Sql)
    requires Sound(s)
    ensures var (r, t) := Query(s, sql);
            && Sound(t)
            && (r.Ok? ==> Going(Reader(t, r.value)))
            && (r.Err? ==> if Ready(s) then t.isClosed else t == s)
  {
    hide SendReceive, InitFromFirst;
    if Ready(s) {
      SendReceiveSound(s, [COM_QUERY] + sql);
      var (r, t) := SendReceive(s, [COM_QUERY] + sql);
      if r.Ok? {
        InitErrors(FRESH_STMT, r.value, t.suppression, t.utf8);
      }
    }
  }

  lemma TxCommandSound(s: Session, sql: Sql)
    requires Sound(s)
    ensures Settled(s, TxCommand(s, sql).1)
    ensures TxCommand(s, sql).0.Ok? ==> Ready(TxCommand(s, sql).1)
  {
    hide Query, Destroy, Advance;
    QuerySound(s, sql);
    var (r, t) := Query(s, sql);
    if r.Ok? {
      AdvanceGood(Reader(t, r.value));
      AdvanceMakesProgress(Reader(t, r.value));
      var (ev, w) := NextEvent(Reader(t, r.value));
      DropLeavesReadyOrDead(w);
      if w.st.consumed {
        DropOfEnded(w);
      }
    }
  }

  lemma DropOfEnded(w: Reader)
    requires w.st.consumed
    ensures Destroy(w) == w.s
  {}

  lemma AfterOkSound(s: Session, resp: seq<byte>)
    requires Sound(s) && Ready(s)
    ensures Sound(AfterOk(s, resp)) && Ready(AfterOk(s, resp))
  {}

  lemma PingSound(s: Session)
    requires Sound(s)
    ensures Settled(s, Ping(s).1) && (Ping(s).0.Ok? ==> Ready(Ping(s).1))
  {
    hide SendReceive, AfterOk;
    if Ready(s) {
      SendReceiveSound(s, [COM_PING]);
      var (r, t) := SendReceive(s, [COM_PING]);
      if r.Ok? {
        AfterOkSound(t, r.value);
      }
    }
  }

  lemma ResetConnectionSound(s: Session)
    requires Sound(s)
    ensures var (r, t) := ResetConnection(s);
            && Settled(s, t) && (r.Ok? ==> Ready(t))
            && (r.Err? && !t.isClosed && Ready(s) ==> Ready(t) && ResetRefused(r.error))
  {
    hide SendReceive, AfterOk, DecodeErr;
    if Ready(s) {
      SendReceiveSound(s, [COM_RESET_CONNECTION]);
      var (r, t) := SendReceive(s, [COM_RESET_CONNECTION]);
      if r.Ok? {
        AfterOkSound(t, r.value);
      }
    }
  }

  predicate ResetRefused(e: Tag) {
    e == ResetConnectionUnsupported || e == ResetConnectionServerErr
  }

  lemma ManualResetSound(s: Session)
    requires Sound(s) && Ready(s)
    ensures var (r, t) := ManualReset(s);
            Sound(t) && (r.Ok? ==> Ready(t)) && (r.Err? ==> t.isClosed)
  {
    hide TxCommand, Ping;
    TxCommandSound(s, ROLLBACK);
    var (r, t) := ManualStep(s, s.inTransaction, ROLLBACK);
    if r.Ok? {
      TxCommandSound(t, SetAutocommitSql(true));
      var (r', u) := ManualStep(t, !t.autocommit, SetAutocommitSql(true));
      if r'.Ok? {
        PingSound(u);
      }
    }
  }

  /** The packet that comes back to a command, if it goes out whole and one can be read. */
  function AnswerTo(s: Session, command: seq<byte>): Option<seq<byte>> {
    match SendReceive(s, command)
    case (Ok(p), _) => Some(p)
    case (Err(_), _) => None
  }

  function ResetAnswer(s: Session): Option<seq<byte>> {
    AnswerTo(s, [COM_RESET_CONNECTION])
  }

  /** A readable ERR packet that says the server does not know the command. */
  predicate SaysUnknownCommand(p: seq<byte>, utf8: Utf8Check) {
    DecodeErr(p, utf8).Ok? && DecodeErr(p, utf8).value.code == ER_UNKNOWN_COM_ERROR
  }

  /** The session tried a reset and was refused, but not as an unknown command. */
  predicate RefusedOtherwise(s: Session) {
    && RequireReady(s) == None && s.resetSupported
    && match ResetAnswer(s)
       case None => false
       case Some(p) => |p| >= 1 && p[0] == 255 && !SaysUnknownCommand(p, s.utf8)
  }

  lemma ResetConnectionRefusals(s: Session)
    requires Sound(s) && Ready(s)
    ensures var (r, t) := ResetConnection(s);
            r.Err? && !t.isClosed <==>
              ResetAnswer(s).Some? && |ResetAnswer(s).value| >= 1 && ResetAnswer(s).value[0] == 255
    ensures var (r, t) := ResetConnection(s);
            r.Err? && !t.isClosed ==>
              r.error == if SaysUnknownCommand(ResetAnswer(s).value, s.utf8) then ResetConnectionUnsupported
                         else ResetConnectionServerErr
  {
    hide SendReceive, AfterOk, DecodeErr;
    SendReceiveSound(s, [COM_RESET_CONNECTION]);
    SendReceiveKeepsUtf8(s, [COM_RESET_CONNECTION]);
    if ResetAnswer(s).Some? {
      AfterOkSound(SendReceive(s, [COM_RESET_CONNECTION]).1, ResetAnswer(s).value);
    }
  }

  lemma ReadOrDieKeepsUtf8(s: Session)
    ensures ReadOrDie(s).1.utf8 == s.utf8
  {
    hide ReadPacket;
  }

  lemma SendReceiveKeepsUtf8(s: Session, command: seq<byte>)
    ensures SendReceive(s, command).1.utf8 == s.utf8
  {
    hide WritePacket, ReadOrDie;
    ReadOrDieKeepsUtf8(WritePacket(s.(expectedSeq := 0), command).1);
  }

  /**
   A successful reset leaves a ready session. A failed one leaves a session alive if and only
   if it was busy, or tried the reset and got an ERR other than a readable "unknown command";
   then it is left as ready, or as busy, as it was.
   */
  lemma ResetForPoolReuseOutcome(s: Session)
    requires Sound(s)
    ensures Settled(s, ResetForPoolReuse(s).1)
    ensures ResetForPoolReuse(s).0.Ok? ==> Ready(ResetForPoolReuse(s).1)
    ensures ResetForPoolReuse(s).0.Err? && !ResetForPoolReuse(s).1.isClosed
       <==> (!s.isClosed && s.activeStatement) || RefusedOtherwise(s)
  {
    hide ResetConnection, ManualReset, SaysUnknownCommand, SendReceive;
    if Ready(s) {
      if s.resetSupported {
        ResetConnectionSound(s);
        ResetConnectionRefusals(s);
        var (r, t) := ResetConnection(s);
        if r.Err? && !t.isClosed && r.error == ResetConnectionUnsupported {
          var u := t.(resetSupported := false);
          ManualResetSound(u);
          assert ResetForPoolReuse(s) == ManualReset(u);
          assert Settled(s, ManualReset(u).1);
        } else {
          assert Settled(s, t);
          assert ResetForPoolReuse(s).1 == t;
        }
      } else {
        ManualResetSound(s);
      }
    }
  }

  lemma CloseSound(s: Session)
    requires Sound(s)
    ensures Sound(Close(s).1) && Close(s).1.isClosed
  {
    hide WriteAll;
  }

  lemma PerformOnSessionSound(s: Session, call: Call)
    requires Sound(s)
    ensures Settled(s, PerformOnSession(s, call))
  {
    hide TxCommand, Ping, ResetConnection, ResetForPoolReuse, Close;
    match call {
      case CallTx(sql) => TxCommandSound(s, sql);
      case CallPing => PingSound(s);
      case CallResetConnection => ResetConnectionSound(s);
      case CallResetForPoolReuse => ResetForPoolReuseOutcome(s);
      case CallClose => CloseSound(s);
      case _ =>
    }
  }

  lemma PerformOnStatementSound(c: Client, call: Call)
    requires ClientSound(c) && c.held.Some?
    ensures ClientSound(PerformOnStatement(c, call))
  {
    hide Advance, SkipRows, SkipRemaining, Destroy;
    var w := Reader(c.s, c.held.value);
    NextEventErrorsKill(w);
    SkipResultSound(w);
    SkipRemainingSound(w);
    DropLeavesReadyOrDead(w);
  }

  lemma PerformSound(c: Client, call: Call)
    requires ClientSound(c)
    ensures ClientSound(Perform(c, call))
  {
    hide Query, PerformOnStatement, PerformOnSession;
    if call.CallQuery? {
      QuerySound(c.s, call.sql);
    } else if NeedsStatement(call) {
      if c.held.Some? {
        PerformOnStatementSound(c, call);
      }
    } else {
      PerformOnSessionSound(c.s, call);
    }
  }

  // ------------------------------------------------------ runs

  function Run(c: Client, calls: seq<Call>): Client
    decreases |calls|
  {
    if calls == [] then c else Run(Perform(c, calls[0]), calls[1..])
  }

  /** A session fresh from `connect`. */
  ghost predicate Connected(c: Client) {
    Sound(c.s) && Ready(c.s) && c.held.None?
  }

  lemma {:induction false} RunSound(c: Client, calls: seq<Call>)
    requires ClientSound(c)
    ensures ClientSound(Run(c, calls))
    decreases |calls|
  {
    hide Perform;
    if calls != [] {
      PerformSound(c, calls[0]);
      RunSound(Perform(c, calls[0]), calls[1..]);
    }
  }

  /**
   From `connect` on, whatever is called and whatever arrives: a session is reusable exactly
   while it is not closed, a live one is busy exactly while the statement held on it has not
   ended, and the mirrored flags are those of the last status seen.
   */
  lemma SessionSafety(c: Client, calls: seq<Call>)
    requires Connected(c)
    ensures var last := Run(c, calls);
            && (last.s.reusable <==> !last.s.isClosed)
            && (!last.s.isClosed ==> (last.s.activeStatement <==> last.held.Some? && !last.held.value.consumed))
            && last.s.autocommit == HasBit(last.s.lastStatus, STATUS_AUTOCOMMIT)
            && last.s.inTransaction == HasBit(last.s.lastStatus, STATUS_IN_TRANS)
  {
    RunSound(c, calls);
  }

  /** In any run, an event call fails only on an ended statement or by the session's death. */
  lemma EventErrorsInRuns(c: Client, calls: seq<Call>)
    requires Connected(c) && Run(c, calls).held.Some?
    ensures var last := Run(c, calls);
            var (ev, w) := NextEvent(Reader(last.s, last.held.value));
            && ev != Err(StatementInvalidMode)
            && (ev.Err? ==> ev.error == StatementConsumed || w.s.isClosed)
  {
    RunSound(c, calls);
    NextEventErrorsKill(Reader(Run(c, calls).s, Run(c, calls).held.value));
  }

  lemma PerformStaysClosed(c: Client, call: Call)
    requires ClientSound(c) && c.s.isClosed
    ensures Perform(c, call).s == c.s
  {
    hide Advance, SendReceive, QueryExpectOk, ManualReset, WritePacket;
    if call.CallDrop? && c.held.Some? {
      assert MarkDead(c.s) == c.s;
      assert Destroy(Reader(c.s, c.held.value)) == c.s;
    } else if NeedsStatement(call) && c.held.Some? {
      assert PerformOnStatement(c, call).s == c.s;
    }
  }

  /** Death is final: no call revives a closed session, reads from it or writes to it. */
  lemma {:induction false} ClosedStaysClosed(c: Client, calls: seq<Call>)
    requires ClientSound(c) && c.s.isClosed
    ensures Run(c, calls).s == c.s
    decreases |calls|
  {
    hide Perform;
    if calls != [] {
      PerformStaysClosed(c, calls[0]);
      PerformSound(c, calls[0]);
      ClosedStaysClosed(Perform(c, calls[0]), calls[1..]);
    }
  }

  // ------------------------------------------------------ setting a connection up

  lemma {:induction false} AwaitEndGood(w: Reader)
    requires Going(w)
    ensures var (r, w') := AwaitEnd(w);
            ReaderSound(w') && (r.Ok? ==> w'.st.consumed && !w'.s.isClosed)
    decreases Unread(w.s)
  {
    hide Advance;
    AdvanceGood(w);
    AdvanceMakesProgress(w);
    var (ev, w') := NextEvent(w);
    if ev.Ok? && !EndsStatement(ev.value) {
      AwaitEndGood(w');
    }
  }

  lemma ExecExpectOkSound(s: Session, sql: Sql)
    requires Sound(s)
    ensures var (r, t) := ExecExpectOk(s, sql);
            Sound(t) && (r.Ok? ==> Ready(t))
  {
    hide Query, AwaitEnd, Destroy;
    QuerySound(s, sql);
    var (r, t) := Query(s, sql);
    if r.Ok? {
      AwaitEndGood(Reader(t, r.value));
      var w := AwaitEnd(Reader(t, r.value)).1;
      DropLeavesReadyOrDead(w);
      if w.st.consumed {
        DropOfEnded(w);
      }
    }
  }

  /** A connection comes out of set-up ready for its first command, or closed. */
  lemma SetUpLeavesReadyOrClosed(s: Session, setNames: Sql, autocommit: bool, budget: Budget)
    requires Sound(s) && Ready(s)
    ensures var (r, t) := SetUp(s, setNames, autocommit, budget);
            Sound(t) && (if r.Ok? then Ready(t) else t.isClosed)
  {
    hide ExecExpectOk, TxCommand, Close;
    ExecExpectOkSound(s, setNames);
    var (r, t) := ExecExpectOk(s, setNames);
    TxCommandSound(t, SetAutocommitSql(autocommit));
    CloseSound(TxCommand(t, SetAutocommitSql(autocommit)).1);
    CloseSound(t);
    CloseSound(s);
  }
}
