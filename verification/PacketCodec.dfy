/**
 Payload contents: length-encoded integers and strings, OK and ERR packets, column
 definitions, column counts and text rows. Decoders are what the client runs; the
 encoders are what a server writes, and each decoder is proved to undo its encoder.
 */
module PacketCodec {
  import opened Basics
  import opened WireErrors

  // ------------------------------------------------------ little-endian numbers

  function Pow256(n: nat): (p: nat)
    ensures p > 0
  {
    if n == 0 then 1 else 256 * Pow256(n - 1)
  }

  function ToLe(v: nat, n: nat): (bs: seq<byte>)
    ensures |bs| == n
  {
    if n == 0 then [] else [v % 256] + ToLe(v / 256, n - 1)
  }

  function FromLe(bs: seq<byte>): nat {
    if bs == [] then 0 else bs[0] + 256 * FromLe(bs[1..])
  }

  lemma {:induction false} FromLeToLe(v: nat, n: nat)
    requires v < Pow256(n)
    ensures FromLe(ToLe(v, n)) == v
  {
    if n > 0 {
      FromLeToLe(v / 256, n - 1);
      assert ToLe(v, n)[1..] == ToLe(v / 256, n - 1);
    }
  }

  lemma PowersOf256()
    ensures Pow256(2) == 65536 && Pow256(3) == 16777216 && Pow256(4) == 4294967296
    ensures Pow256(8) == 0x1_0000_0000_0000_0000
  {
    assert Pow256(4) == 256 * Pow256(3) && Pow256(3) == 256 * Pow256(2) && Pow256(2) == 256 * Pow256(1);
    assert Pow256(1) == 256 * Pow256(0);
    assert Pow256(8) == 256 * Pow256(7) && Pow256(7) == 256 * Pow256(6) && Pow256(6) == 256 * Pow256(5);
    assert Pow256(5) == 256 * Pow256(4);
  }

  const UINT_LIMIT := 0x1_0000_0000_0000_0000

  /** The signed 64-bit value of an unsigned one: what `cast<Int>` yields. */
  function ToInt(v: nat): int {
    if v < 0x8000_0000_0000_0000 then v else v - UINT_LIMIT
  }

  // ------------------------------------------------------ length-encoded values

  function EncodeInt(v: nat): seq<byte> {
    if v < 251 then [v]
    else if v <= 65535 then [252] + ToLe(v, 2)
    else if v <= 16777215 then [253] + ToLe(v, 3)
    else [254] + ToLe(v, 8)
  }

  /** Reads an integer off the front of `p`; the rest comes back with it. */
  function TakeInt(p: seq<byte>): (r: Result<(nat, seq<byte>), Tag>)
    ensures r.Ok? ==> |r.value.1| < |p|
  {
    if p == [] then Err(LenencOutOfBounds)
    else if p[0] < 251 then Ok((p[0], p[1..]))
    else if p[0] == 251 then Err(LenencNull)
    else if p[0] == 255 then Err(LenencInvalidPrefix)
    else
      var n := if p[0] == 252 then 2 else if p[0] == 253 then 3 else 8;
      if |p| < 1 + n then Err(LenencTruncated) else Ok((FromLe(p[1..1 + n]), p[1 + n..]))
  }

  lemma TakeEncodedInt(v: nat, rest: seq<byte>)
    requires v < UINT_LIMIT
    ensures TakeInt(EncodeInt(v) + rest) == Ok((v, rest))
  {
    PowersOf256();
    if v >= 251 {
      var n := if v <= 65535 then 2 else if v <= 16777215 then 3 else 8;
      FromLeToLe(v, n);
      assert (EncodeInt(v) + rest)[1..1 + n] == ToLe(v, n);
      assert (EncodeInt(v) + rest)[1 + n..] == rest;
    }
  }

  function EncodeBytes(b: seq<byte>): seq<byte> {
    EncodeInt(|b|) + b
  }

  function TakeBytes(p: seq<byte>): (r: Result<(seq<byte>, seq<byte>), Tag>)
    ensures r.Ok? ==> |r.value.1| < |p|
  {
    match TakeInt(p)
    case Err(e) => Err(e)
    case Ok((v, rest)) =>
      var len := ToInt(v);
      if len < 0 then Err(LenencInvalidLength)
      else if len > |rest| then Err(LenencTruncated)
      else Ok((rest[..len], rest[len..]))
  }

  lemma TakeEncodedBytes(b: seq<byte>, rest: seq<byte>)
    requires |b| < 0x8000_0000_0000_0000
    ensures TakeBytes(EncodeBytes(b) + rest) == Ok((b, rest))
  {
    TakeEncodedInt(|b|, b + rest);
    assert EncodeBytes(b) + rest == EncodeInt(|b|) + (b + rest);
    assert (b + rest)[..|b|] == b && (b + rest)[|b|..] == rest;
  }

  function U16(v: nat): seq<byte> {
    ToLe(v, 2)
  }

  function U16At(p: seq<byte>, i: nat): nat
    requires i + 2 <= |p|
  {
    p[i] as int + p[i + 1] as int * 256
  }

  lemma U16AtToLe(p: seq<byte>, i: nat, v: nat)
    requires v < 65536 && i + 2 <= |p| && p[i..i + 2] == U16(v)
    ensures U16At(p, i) == v
  {
    PowersOf256();
    FromLeToLe(v, 2);
    var d := p[i..i + 2];
    assert d[1..][1..] == [];
    assert FromLe(d) == d[0] + 256 * FromLe(d[1..]) && FromLe(d[1..]) == d[1] + 256 * FromLe(d[1..][1..]);
  }

  // ------------------------------------------------------ OK and ERR

  datatype OkPacket = OkPacket(affectedRows: nat, lastInsertId: nat, status: nat, warnings: nat) {
    predicate Valid() {
      affectedRows < UINT_LIMIT && lastInsertId < UINT_LIMIT && status < 65536 && warnings < 65536
    }
  }

  /** `info` is the text a server may append; the client does not read it. */
  function EncodeOk(ok: OkPacket, info: seq<byte>): seq<byte> {
    [0] + (EncodeInt(ok.affectedRows) + (EncodeInt(ok.lastInsertId) + (U16(ok.status) + U16(ok.warnings) + info)))
  }

  function DecodeOk(p: seq<byte>): Result<OkPacket, Tag> {
    if p == [] then Err(ShortOkPacket)
    else if p[0] != 0 then Err(InvalidOkHeader)
    else match TakeInt(p[1..])
      case Err(e) => Err(e)
      case Ok((affected, rest)) =>
        match TakeInt(rest)
        case Err(e) => Err(e)
        case Ok((lastId, tail)) =>
          if |tail| < 4 then Err(OkMissingStatusOrWarnings)
          else Ok(OkPacket(affected, lastId, U16At(tail, 0), U16At(tail, 2)))
  }

  lemma DecodeEncodedOk(ok: OkPacket, info: seq<byte>)
    requires ok.Valid()
    ensures DecodeOk(EncodeOk(ok, info)) == Ok(ok)
  {
    var tail := U16(ok.status) + U16(ok.warnings) + info;
    var rest := EncodeInt(ok.lastInsertId) + tail;
    TakeEncodedInt(ok.affectedRows, rest);
    TakeEncodedInt(ok.lastInsertId, tail);
    assert EncodeOk(ok, info)[1..] == EncodeInt(ok.affectedRows) + rest;
    assert tail[0..2] == U16(ok.status) && tail[2..4] == U16(ok.warnings);
    U16AtToLe(tail, 0, ok.status);
    U16AtToLe(tail, 2, ok.warnings);
  }

  /** Texts stay bytes; which byte strings are text is `utf8`'s business. */
  type Utf8Check = seq<byte> -> bool

  datatype ErrPacket = ErrPacket(code: nat, sqlState: seq<byte>, message: seq<byte>)

  const ERR_SQLSTATE_MARKER: byte := 35

  function EncodeErr(e: ErrPacket): seq<byte> {
    [255] + U16(e.code) + [ERR_SQLSTATE_MARKER] + e.sqlState + e.message
  }

  ghost predicate ValidErr(e: ErrPacket, utf8: Utf8Check) {
    e.code < 65536 && |e.sqlState| == 5 && utf8(e.sqlState) && utf8(e.message)
  }

  function DecodeErr(p: seq<byte>, utf8: Utf8Check): Result<ErrPacket, Tag> {
    if |p| < 3 then Err(ShortErrPacket)
    else if p[0] != 255 then Err(InvalidErrHeader)
    else
      var code := U16At(p, 1);
      if |p| > 3 && p[3] == ERR_SQLSTATE_MARKER then
        if 9 > |p| then Err(TruncatedSqlState)
        else if !utf8(p[4..9]) then Err(ErrSqlstateUtf8)
        else if !utf8(p[9..]) then Err(ErrMessageUtf8)
        else Ok(ErrPacket(code, p[4..9], p[9..]))
      else if !utf8(p[3..]) then Err(ErrMessageUtf8)
      else Ok(ErrPacket(code, [], p[3..]))
  }

  lemma DecodeEncodedErr(e: ErrPacket, utf8: Utf8Check)
    requires ValidErr(e, utf8)
    ensures DecodeErr(EncodeErr(e), utf8) == Ok(e)
  {
    var p := EncodeErr(e);
    assert p[1..3] == U16(e.code) && p[4..9] == e.sqlState && p[9..] == e.message;
    U16AtToLe(p, 1, e.code);
  }

  // ------------------------------------------------------ end-of-rows markers

  predicate IsEofTerminator(p: seq<byte>) {
    |p| > 0 && p[0] == 254 && |p| < 9
  }

  function EncodeEof(status: nat, warnings: nat): seq<byte> {
    [254] + U16(warnings) + U16(status)
  }

  lemma EofReadsBack(status: nat, warnings: nat)
    requires status < 65536 && warnings < 65536
    ensures var p := EncodeEof(status, warnings);
            IsEofTerminator(p) && |p| == 5 && U16At(p, 1) == warnings && U16At(p, 3) == status
  {
    var p := EncodeEof(status, warnings);
    assert p[1..3] == U16(warnings) && p[3..5] == U16(status);
    U16AtToLe(p, 1, warnings);
    U16AtToLe(p, 3, status);
  }

  // ------------------------------------------------------ rows

  datatype Cell = Null | Value(bytes: seq<byte>)

  function EncodeCell(c: Cell): seq<byte> {
    match c
    case Null => [251]
    case Value(b) => EncodeBytes(b)
  }

  function EncodeRow(row: seq<Cell>): seq<byte> {
    if row == [] then [] else EncodeCell(row[0]) + EncodeRow(row[1..])
  }

  ghost predicate ValidRow(row: seq<Cell>) {
    forall c :: c in row && c.Value? ==> |c.bytes| < 0x8000_0000_0000_0000
  }

  function TakeCell(p: seq<byte>): (r: Result<(Cell, seq<byte>), Tag>)
    ensures r.Ok? ==> |r.value.1| < |p|
  {
    if p == [] then Err(RowTruncated)
    else if p[0] == 251 then Ok((Null, p[1..]))
    else match TakeBytes(p)
      case Err(e) => Err(e)
      case Ok((b, rest)) => Ok((Value(b), rest))
  }

  /** Exactly `count` cells (none for a negative count) and nothing behind them. */
  function DecodeRow(p: seq<byte>, count: int): Result<seq<Cell>, Tag>
    decreases |p|
  {
    if count <= 0 then (if p == [] then Ok([]) else Err(RowTrailingBytes))
    else match TakeCell(p)
      case Err(e) => Err(e)
      case Ok((c, rest)) =>
        match DecodeRow(rest, count - 1)
        case Err(e) => Err(e)
        case Ok(row) => Ok([c] + row)
  }

  lemma TakeEncodedCell(c: Cell, rest: seq<byte>)
    requires c.Value? ==> |c.bytes| < 0x8000_0000_0000_0000
    ensures TakeCell(EncodeCell(c) + rest) == Ok((c, rest))
  {
    if c.Value? {
      TakeEncodedBytes(c.bytes, rest);
    }
  }

  lemma DecodeOneMore(c: Cell, p: seq<byte>, row: seq<Cell>)
    requires c.Value? ==> |c.bytes| < 0x8000_0000_0000_0000
    requires DecodeRow(p, |row|) == Ok(row)
    ensures DecodeRow(EncodeCell(c) + p, |row| + 1) == Ok([c] + row)
  {
    hide TakeCell, EncodeCell;
    TakeEncodedCell(c, p);
  }

  lemma {:induction false} DecodeEncodedRow(row: seq<Cell>)
    requires ValidRow(row)
    ensures DecodeRow(EncodeRow(row), |row|) == Ok(row)
  {
    if row != [] {
      hide DecodeRow;
      var (c, more) := (row[0], row[1..]);
      assert c in row;
      DecodeEncodedRow(more);
      DecodeOneMore(c, EncodeRow(more), more);
      assert row == [c] + more;
    }
  }

  /** A row is never mistaken for the end of the rows. */
  lemma RowIsNoTerminator(row: seq<Cell>)
    requires ValidRow(row)
    ensures !IsEofTerminator(EncodeRow(row))
  {}

  /** The client's row decoder: walks an offset through the payload. */
  method DecodeTextRow(payload: seq<byte>, columnCount: int) returns (r: Result<seq<Cell>, Tag>)
    ensures r == DecodeRow(payload, columnCount)
  {
    var row: seq<Cell> := [];
    var idx := 0;
    var col := 0;
    assert payload[0..] == payload;
    PrependNothing(DecodeRow(payload, columnCount));
    while col < columnCount
      invariant 0 <= idx <= |payload|
      invariant DecodeRow(payload, columnCount) == Prepend(row, DecodeRow(payload[idx..], columnCount - col))
      decreases columnCount - col
    {
      var cell := DecodeCellAt(payload, idx);
      DecodeRowStep(payload[idx..], columnCount - col, row);
      if cell.Err? {
        return Err(cell.error);
      }
      row := row + [cell.value.0];
      idx := cell.value.1;
      col := col + 1;
    }
    PrependToLast(row, payload[idx..], columnCount - col);
    if idx != |payload| {
      return Err(RowTrailingBytes);
    }
    return Ok(row);
  }

  /** One cell at an offset, and the offset behind it. */
  method DecodeCellAt(payload: seq<byte>, idx: nat) returns (r: Result<(Cell, nat), Tag>)
    requires idx <= |payload|
    ensures match TakeCell(payload[idx..])
            case Err(e) => r == Err(e)
            case Ok((c, rest)) =>
              r.Ok? && r.value.0 == c && idx < r.value.1 <= |payload| && payload[r.value.1..] == rest
  {
    if idx >= |payload| {
      return Err(RowTruncated);
    }
    if payload[idx] == 251 {
      assert payload[idx..][1..] == payload[idx + 1..];
      return Ok((Null, idx + 1));
    }
    match TakeBytes(payload[idx..]) {
      case Err(e) => return Err(e);
      case Ok((b, rest)) =>
        TakeBytesLeavesSuffix(payload[idx..]);
        assert payload[|payload| - |rest|..] == rest;
        return Ok((Value(b), |payload| - |rest|));
    }
  }

  /** Reading one more cell moves it from the part to be read to the part read. */
  lemma DecodeRowStep(p: seq<byte>, count: int, row: seq<Cell>)
    requires count > 0
    ensures match TakeCell(p)
            case Err(e) => DecodeRow(p, count) == Err(e)
            case Ok((c, rest)) =>
              Prepend(row, DecodeRow(p, count)) == Prepend(row + [c], DecodeRow(rest, count - 1))
  {
    match TakeCell(p)
    case Err(_) =>
    case Ok((c, rest)) => PrependPlus(row, c, DecodeRow(rest, count - 1));
  }

  lemma PrependToLast(row: seq<Cell>, p: seq<byte>, count: int)
    requires count <= 0
    ensures Prepend(row, DecodeRow(p, count)) == if p == [] then Ok(row) else Err(RowTrailingBytes)
  {
    assert row + [] == row;
  }

  function Prepend(row: seq<Cell>, r: Result<seq<Cell>, Tag>): Result<seq<Cell>, Tag> {
    match r
    case Err(e) => Err(e)
    case Ok(more) => Ok(row + more)
  }

  lemma PrependNothing(r: Result<seq<Cell>, Tag>)
    ensures Prepend([], r) == r
  {
    if r.Ok? {
      assert [] + r.value == r.value;
    }
  }

  lemma PrependPlus(row: seq<Cell>, c: Cell, r: Result<seq<Cell>, Tag>)
    ensures Prepend(row + [c], r) == Prepend(row, Prepend([c], r))
  {
    if r.Ok? {
      assert row + [c] + r.value == row + ([c] + r.value);
    }
  }

  lemma TakeBytesLeavesSuffix(p: seq<byte>)
    requires TakeBytes(p).Ok?
    ensures var rest := TakeBytes(p).value.1; rest == p[|p| - |rest|..]
  {}

  // ------------------------------------------------------ column counts and definitions

  datatype ColumnCount = ColumnCount(count: int, metadataFollows: bool)

  /** `flag` is present when metadata suppression was negotiated. */
  function EncodeColumnCount(n: nat, flag: Option<bool>): seq<byte> {
    EncodeInt(n) + match flag
                   case None => []
                   case Some(follows) => if follows then [1] else [0]
  }

  function DecodeColumnCount(p: seq<byte>, negotiated: bool): Result<ColumnCount, Tag> {
    match TakeInt(p)
    case Err(e) => Err(e)
    case Ok((n, rest)) =>
      if rest == [] then Ok(ColumnCount(ToInt(n), true))
      else match TakeInt(rest)
        case Err(_) => Err(InvalidColumnCountPacket)
        case Ok((flag, tail)) =>
          if tail != [] then Err(InvalidColumnCountPacket)
          else Ok(ColumnCount(ToInt(n), !negotiated || flag != 0))
  }

  lemma DecodeEncodedColumnCount(n: nat, flag: Option<bool>)
    requires n < 0x8000_0000_0000_0000
    ensures DecodeColumnCount(EncodeColumnCount(n, flag), flag.Some?)
         == Ok(ColumnCount(n, flag.None? || flag.value))
  {
    var rest: seq<byte> := match flag
      case None => []
      case Some(follows) => if follows then [1] else [0];
    TakeEncodedInt(n, rest);
  }

  /** A column count of at least one is routed as a resultset. */
  lemma ColumnCountLooksLikeResultSet(n: nat, flag: Option<bool>)
    requires n >= 1
    ensures var p := EncodeColumnCount(n, flag); |p| >= 1 && p[0] != 0 && p[0] != 255 && p[0] != 251
  {}

  datatype ColumnDef = ColumnDef(
    texts: seq<seq<byte>>,   // catalog, schema, table, original table, name, original name
    charset: nat, length: nat, columnType: byte, flags: nat, decimals: byte)

  ghost predicate ValidColumnDef(d: ColumnDef, utf8: Utf8Check) {
    && |d.texts| == 6 && AreTexts(d.texts, utf8)
    && d.charset < 65536 && d.length < 4294967296 && d.flags < 65536
  }

  function EncodeTexts(ts: seq<seq<byte>>): seq<byte> {
    if ts == [] then [] else EncodeBytes(ts[0]) + EncodeTexts(ts[1..])
  }

  function TakeText(p: seq<byte>, utf8: Utf8Check): Result<(seq<byte>, seq<byte>), Tag> {
    match TakeBytes(p)
    case Err(e) => Err(e)
    case Ok((t, rest)) => if utf8(t) then Ok((t, rest)) else Err(Utf8)
  }

  function TakeTexts(p: seq<byte>, n: nat, utf8: Utf8Check): Result<(seq<seq<byte>>, seq<byte>), Tag>
    decreases n
  {
    if n == 0 then Ok(([], p))
    else match TakeText(p, utf8)
      case Err(e) => Err(e)
      case Ok((t, rest)) =>
        match TakeTexts(rest, n - 1, utf8)
        case Err(e) => Err(e)
        case Ok((ts, tail)) => Ok(([t] + ts, tail))
  }

  ghost predicate AreTexts(ts: seq<seq<byte>>, utf8: Utf8Check) {
    forall t :: t in ts ==> utf8(t) && |t| < 0x8000_0000_0000_0000
  }

  lemma TakeOneText(t: seq<byte>, p: seq<byte>, ts: seq<seq<byte>>, rest: seq<byte>, utf8: Utf8Check)
    requires utf8(t) && |t| < 0x8000_0000_0000_0000
    requires TakeTexts(p, |ts|, utf8) == Ok((ts, rest))
    ensures TakeTexts(EncodeBytes(t) + p, |ts| + 1, utf8) == Ok(([t] + ts, rest))
  {
    TakeEncodedBytes(t, p);
  }

  lemma {:induction false} TakeEncodedTexts(ts: seq<seq<byte>>, rest: seq<byte>, utf8: Utf8Check)
    requires AreTexts(ts, utf8)
    ensures TakeTexts(EncodeTexts(ts) + rest, |ts|, utf8) == Ok((ts, rest))
  {
    if ts == [] {
      assert EncodeTexts(ts) + rest == rest;
    } else {
      var (t, more) := (ts[0], ts[1..]);
      assert t in ts && AreTexts(more, utf8);
      TakeEncodedTexts(more, rest, utf8);
      TakeOneText(t, EncodeTexts(more) + rest, more, rest, utf8);
      EncodeTextsStep(t, more, rest);
      assert ts == [t] + more;
    }
  }

  lemma EncodeTextsStep(t: seq<byte>, more: seq<seq<byte>>, rest: seq<byte>)
    ensures EncodeTexts([t] + more) + rest == EncodeBytes(t) + (EncodeTexts(more) + rest)
  {
    assert ([t] + more)[1..] == more;
  }

  function EncodeColumnDef(d: ColumnDef): seq<byte> {
    EncodeTexts(d.texts)
    + ([12] + U16(d.charset) + ToLe(d.length, 4) + [d.columnType] + U16(d.flags) + [d.decimals] + [0, 0])
  }

  function DecodeColumnDef(p: seq<byte>, utf8: Utf8Check): Result<ColumnDef, Tag> {
    match TakeTexts(p, 6, utf8)
    case Err(e) => Err(e)
    case Ok((texts, f)) =>
      if |f| < 12 then Err(ColdefTruncatedFixedFields)
      else if f[0] != 12 then Err(ColdefBadFixedLengthMarker)
      else Ok(ColumnDef(texts, U16At(f, 1), FromLe(f[3..7]), f[7], U16At(f, 8), f[10]))
  }

  lemma DecodeEncodedColumnDef(d: ColumnDef, utf8: Utf8Check)
    requires ValidColumnDef(d, utf8)
    ensures DecodeColumnDef(EncodeColumnDef(d), utf8) == Ok(d)
  {
    var f := [12] + U16(d.charset) + ToLe(d.length, 4) + [d.columnType] + U16(d.flags) + [d.decimals] + [0, 0];
    TakeEncodedTexts(d.texts, f, utf8);
    FixedFieldsReadBack(d, f);
  }

  lemma FixedFieldsReadBack(d: ColumnDef, f: seq<byte>)
    requires d.charset < 65536 && d.length < 4294967296 && d.flags < 65536
    requires f == [12] + U16(d.charset) + ToLe(d.length, 4) + [d.columnType] + U16(d.flags) + [d.decimals] + [0, 0]
    ensures |f| == 13 && f[0] == 12 && U16At(f, 1) == d.charset && FromLe(f[3..7]) == d.length
    ensures f[7] == d.columnType && U16At(f, 8) == d.flags && f[10] == d.decimals
  {
    PowersOf256();
    assert f[1..3] == U16(d.charset) && f[3..7] == ToLe(d.length, 4) && f[8..10] == U16(d.flags);
    U16AtToLe(f, 1, d.charset);
    U16AtToLe(f, 8, d.flags);
    FromLeToLe(d.length, 4);
  }

  // ------------------------------------------------------ routing the first response

  datatype Route = OkRoute | ErrRoute | ResultSetRoute

  function RouteOf(p: seq<byte>): Result<Route, Tag> {
    if p == [] then Err(ShortResponsePayload)
    else if p[0] == 0 then Ok(OkRoute)
    else if p[0] == 255 then Ok(ErrRoute)
    else if p[0] == 251 then Err(UnsupportedLocalInfile)
    else Ok(ResultSetRoute)
  }
}
