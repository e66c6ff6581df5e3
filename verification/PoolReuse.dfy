/** What a reset before reuse has sent by the time it succeeds, and a refusal that surfaces. */
module PoolReuse {
  import opened Basics
  import opened Commands
  import opened CommitOutcomes
  import opened PacketCodec
  import opened PacketHeaders
  import ServerResponses
  import opened SessionRuns
  import opened SessionTheorems
  import opened Sockets
  import StaleAnswers
  import opened Statements
  import opened Transport
  import opened WireErrors
  import opened WireTypes

  /** A command as it stands on the wire: the first packet of a new sequence. */
  function Command(payload: seq<byte>): seq<byte> {
    PacketBytes(payload, 0)
  }

  function QueryCommand(sql: Sql): seq<byte> {
    Command([COM_QUERY] + sql)
  }

  ghost predicate Sent(s: Session, t: Session, bytes: seq<byte>) {
    t.stream.accepted == s.stream.accepted + bytes
  }

  lemma SendReceiveSends(s: Session, payload: seq<byte>)
    requires SendReceive(s, payload).0.Ok?
    ensures Sent(s, SendReceive(s, payload).1, Command(payload))
  {
    hide WriteAll, ReadOrDie;
    ReadOrDieWritesNothing(WritePacket(s.(expectedSeq := 0), payload).1);
  }

  lemma TxCommandSends(s: Session, sql: Sql)
    requires Sound(s) && TxCommand(s, sql).0.Ok?
    ensures Sent(s, TxCommand(s, sql).1, QueryCommand(sql))
  {
    hide SendReceive, InitFromFirst, Advance, SkipRemaining;
    SendReceiveSends(s, [COM_QUERY] + sql);
    var (q, t) := Query(s, sql);
    AdvanceWritesNothing(Reader(t, q.value));
    SkipWritesNothing(NextEvent(Reader(t, q.value)).1);
  }

  lemma PingSends(s: Session)
    requires Ping(s).0.Ok?
    ensures Sent(s, Ping(s).1, Command([COM_PING]))
  {
    hide SendReceive;
    SendReceiveSends(s, [COM_PING]);
  }

  /** The session between the two steps of the manual reset. */
  function RolledBack(s: Session): Session {
    ManualStep(s, s.inTransaction, ROLLBACK).1
  }

  /** Exactly the commands the session's flags call for, in this order. */
  function ManualCommands(s: Session): seq<byte> {
    (if s.inTransaction then QueryCommand(ROLLBACK) else [])
    + (if !RolledBack(s).autocommit then QueryCommand(SetAutocommitSql(true)) else [])
    + Command([COM_PING])
  }

  lemma ManualStepSends(s: Session, needed: bool, sql: Sql)
    requires Sound(s) && ManualStep(s, needed, sql).0.Ok?
    ensures Sound(ManualStep(s, needed, sql).1)
    ensures Sent(s, ManualStep(s, needed, sql).1, if needed then QueryCommand(sql) else [])
  {
    hide TxCommand;
    if needed {
      TxCommandSends(s, sql);
      TxCommandSound(s, sql);
    }
  }

  lemma SentInTurn(s: Session, t: Session, u: Session, v: Session, a: seq<byte>, b: seq<byte>, c: seq<byte>)
    requires Sent(s, t, a) && Sent(t, u, b) && Sent(u, v, c)
    ensures Sent(s, v, a + b + c)
  {
    assert s.stream.accepted + a + b + c == s.stream.accepted + (a + b + c);
  }

  lemma ManualResetSends(s: Session)
    requires Sound(s) && ManualReset(s).0.Ok?
    ensures Sent(s, ManualReset(s).1, ManualCommands(s))
  {
    hide ManualStep, Ping, QueryCommand, Command, Sent, Sound;
    ManualStepSends(s, s.inTransaction, ROLLBACK);
    var t := RolledBack(s);
    ManualStepSends(t, !t.autocommit, SetAutocommitSql(true));
    var u := ManualStep(t, !t.autocommit, SetAutocommitSql(true)).1;
    PingSends(u);
    SentInTurn(s, t, u, Ping(u).1,
               if s.inTransaction then QueryCommand(ROLLBACK) else [],
               if !t.autocommit then QueryCommand(SetAutocommitSql(true)) else [],
               Command([COM_PING]));
  }

  lemma ResetConnectionSends(s: Session)
    requires Sound(s) && Ready(s)
    requires ResetConnection(s).0.Ok? || !ResetConnection(s).1.isClosed
    ensures Sent(s, ResetConnection(s).1, Command([COM_RESET_CONNECTION]))
  {
    hide SendReceive, DecodeErr;
    SendReceiveSound(s, [COM_RESET_CONNECTION]);
    if SendReceive(s, [COM_RESET_CONNECTION]).0.Ok? {
      SendReceiveSends(s, [COM_RESET_CONNECTION]);
    }
  }

  /** Was COM_RESET_CONNECTION tried and refused as unknown? */
  predicate FellBack(s: Session) {
    s.resetSupported && ResetConnection(s).0.Err?
  }

  /**
   A successful reset has sent the reset command (unless it is known to be unsupported) and,
   exactly when that was not what succeeded, the manual sequence: ROLLBACK if a transaction
   was open, SET autocommit=1 if it was then off, and a ping.
   */
  lemma SuccessfulResetSent(s: Session)
    requires Sound(s) && ResetForPoolReuse(s).0.Ok?
    ensures var t := ResetForPoolReuse(s).1;
            if !s.resetSupported then Sent(s, t, ManualCommands(s))
            else if FellBack(s) then
              var u := ResetConnection(s).1.(resetSupported := false);
              Sent(s, t, Command([COM_RESET_CONNECTION]) + ManualCommands(u))
            else Sent(s, t, Command([COM_RESET_CONNECTION]))
  {
    hide ResetConnection, ManualReset, ManualCommands;
    if !s.resetSupported {
      ManualResetSends(s);
    } else {
      ResetConnectionSound(s);
      ResetConnectionSends(s);
      if FellBack(s) {
        var u := ResetConnection(s).1.(resetSupported := false);
        ManualResetSends(u);
        var (a, b) := (Command([COM_RESET_CONNECTION]), ManualCommands(u));
        assert s.stream.accepted + a + b == s.stream.accepted + (a + b);
      }
    }
  }

  /** An ERR packet with code 1047 whose SQL state is cut off. */
  const CUT_REFUSAL: seq<byte> := [255, 23, 4, 35]

  lemma CutRefusalDoesNotDecode(utf8: Utf8Check)
    ensures CUT_REFUSAL[0] == 255 && U16At(CUT_REFUSAL, 1) == ER_UNKNOWN_COM_ERROR
    ensures !SaysUnknownCommand(CUT_REFUSAL, utf8)
  {}

  /** The code alone does not bring on the fallback: answered with this packet, the reset
      fails on a session that stays ready and goes on trusting COM_RESET_CONNECTION. */
  lemma UnreadableRefusalSurfaces(suppression: bool, utf8: Utf8Check) returns (s: Session)
    ensures Sound(s) && Ready(s) && s.resetSupported && ResetAnswer(s) == Some(CUT_REFUSAL)
    ensures var (r, t) := ResetForPoolReuse(s);
            r == Err(ResetConnectionServerErr) && Ready(t) && t.resetSupported
  {
    hide DecodeErr, SaysUnknownCommand, SendReceive, StaleAnswers.Sent, ServerResponses.Facing, KeepsTaking;
    var end;
    s, end := ServerResponses.PacketsCanBeServed([CUT_REFUSAL], suppression, utf8, 5);
    assert s.(expectedSeq := 1) == s;
    StaleAnswers.CommandGoesOut(s, [COM_RESET_CONNECTION], [CUT_REFUSAL], end, 0);
    AnswerComesBack(s, end);
    CutRefusalDoesNotDecode(utf8);
    ResetConnectionRefusals(s);
  }

  lemma AnswerComesBack(s: Session, end: nat)
    requires Ready(s)
    requires var (written, asked) := StaleAnswers.Sent(s, [COM_RESET_CONNECTION]);
             written.Ok? && ServerResponses.Facing(asked, [CUT_REFUSAL], end)
    ensures var (r, t) := SendReceive(s, [COM_RESET_CONNECTION]);
            r == Ok(CUT_REFUSAL) && Ready(t) && t.resetSupported == s.resetSupported && t.utf8 == s.utf8
  {
    var asked := StaleAnswers.Sent(s, [COM_RESET_CONNECTION]).1;
    assert [CUT_REFUSAL] == [CUT_REFUSAL] + [];
    ServerResponses.TakePacket(asked, CUT_REFUSAL, [], end);
  }
}
