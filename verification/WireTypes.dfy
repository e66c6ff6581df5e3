/** The wire session and the statement that borrows it: their values and their objects. */
module WireTypes {
  import opened Basics
  import opened PacketCodec
  import opened Sockets

  datatype Session = Session(
    stream: Stream,
    expectedSeq: byte,
    isClosed: bool,
    activeStatement: bool,
    resetSupported: bool,     // COM_RESET_CONNECTION not yet refused with error 1047
    suppression: bool,        // the server may leave column definitions out
    utf8: Utf8Check,
    reusable: bool, autocommit: bool, inTransaction: bool, lastStatus: nat, lastWarnings: nat)

  const MODE_PENDING_OK := 1
  const MODE_PENDING_ERR := 2
  const MODE_RESULTSET := 3
  const MODE_NEED_NEXT_FIRST := 4
  const MODE_DONE := 5

  datatype Stmt = Stmt(
    mode: int,
    columnCount: int,
    defsRemaining: int,
    defs: seq<ColumnDef>,
    awaitingTerminator: bool,
    pendingOk: OkPacket,
    pendingErr: ErrPacket,
    consumed: bool)

  const EMPTY_OK := OkPacket(0, 0, 0, 0)
  const EMPTY_ERR := ErrPacket(0, [], [])
  const FRESH_STMT := Stmt(MODE_DONE, 0, 0, [], false, EMPTY_OK, EMPTY_ERR, false)

  datatype Event =
    | Row(cells: seq<Cell>)
    | ResultSetEnd
    | StatementEnd(ok: OkPacket)
    | StatementErr(err: ErrPacket)

  class WireSession {
    const stream: TcpStream
    var expectedSeq: byte
    var isClosed: bool
    var activeStatement: bool
    var resetSupported: bool
    const suppression: bool
    const utf8: Utf8Check
    var reusable: bool
    var autocommit: bool
    var inTransaction: bool
    var lastStatus: nat
    var lastWarnings: nat

    ghost function View(): Session
      reads this, stream
    {
      Session(stream.state, expectedSeq, isClosed, activeStatement, resetSupported, suppression, utf8,
              reusable, autocommit, inTransaction, lastStatus, lastWarnings)
    }

    /** What `connect` builds once the server's OK has ended the handshake. */
    constructor (stream: TcpStream, suppression: bool, utf8: Utf8Check, greeting: OkPacket)
      ensures this.stream == stream
      ensures View() == Session(stream.state, 0, false, false, true, suppression, utf8, true,
                                HasBit(greeting.status, 2), HasBit(greeting.status, 1),
                                greeting.status, greeting.warnings)
    {
      this.stream, this.suppression, this.utf8 := stream, suppression, utf8;
      expectedSeq, isClosed, activeStatement, resetSupported, reusable := 0, false, false, true, true;
      autocommit, inTransaction := HasBit(greeting.status, 2), HasBit(greeting.status, 1);
      lastStatus, lastWarnings := greeting.status, greeting.warnings;
    }
  }

  /** Is the bit of value `bit` (a power of two) set in `flags`? */
  predicate HasBit(flags: nat, bit: nat)
    requires bit > 0
  {
    flags / bit % 2 == 1
  }

  class Statement {
    const session: WireSession
    var mode: int
    var columnCount: int
    var defsRemaining: int
    var defs: seq<ColumnDef>
    var awaitingTerminator: bool
    var pendingOk: OkPacket
    var pendingErr: ErrPacket
    var consumed: bool

    ghost function View(): Stmt
      reads this
    {
      Stmt(mode, columnCount, defsRemaining, defs, awaitingTerminator, pendingOk, pendingErr, consumed)
    }

    constructor (session: WireSession)
      ensures this.session == session && View() == FRESH_STMT
    {
      this.session := session;
      mode, columnCount, defsRemaining, defs, awaitingTerminator := MODE_DONE, 0, 0, [], false;
      pendingOk, pendingErr, consumed := EMPTY_OK, EMPTY_ERR, false;
    }
  }
}
