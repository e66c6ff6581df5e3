/**
 The payloads the client accepts, stated as a grammar, and the proof that the decoders accept
 these and no others. From it follows which packet kills a session in which state of a
 statement. The grammar is wider than what the encoders write: an integer need not be in its
 shortest form, an ERR may lack its SQL state, and an OK may carry anything behind it.
 */
module PacketGrammar {
  import opened Basics
  import opened PacketCodec
  import opened SessionTheorems
  import opened Sockets
  import opened Statements
  import opened Transport
  import opened WireErrors
  import opened WireTypes

  // ------------------------------------------------------ integers and byte strings

  function Word(p: seq<byte>, i: nat): nat
    requires i + 2 <= |p|
  {
    p[i] as int + 256 * p[i + 1] as int
  }

  /** `p` is an integer of value `v` in one of its four forms, and then `rest`. */
  ghost predicate IntThen(p: seq<byte>, v: nat, rest: seq<byte>) {
    || (|p| >= 1 && p[0] <= 250 && v == p[0] && rest == p[1..])
    || (|p| >= 3 && p[0] == 252 && v == Word(p, 1) && rest == p[3..])
    || (|p| >= 4 && p[0] == 253 && v == Word(p, 1) + 65536 * p[3] as int && rest == p[4..])
    || (|p| >= 9 && p[0] == 254 && rest == p[9..]
        && v == Word(p, 1) + 65536 * Word(p, 3) + 0x1_0000_0000 * Word(p, 5) + 0x1_0000_0000_0000 * Word(p, 7))
  }

  lemma FromTwo(bs: seq<byte>)
    requires |bs| >= 2
    ensures FromLe(bs) == Word(bs, 0) + 65536 * FromLe(bs[2..])
  {
    assert bs[1..][1..] == bs[2..];
    assert FromLe(bs) == bs[0] + 256 * FromLe(bs[1..]) && FromLe(bs[1..]) == bs[1] + 256 * FromLe(bs[2..]);
  }

  lemma FromEight(bs: seq<byte>)
    requires |bs| == 8
    ensures FromLe(bs)
         == Word(bs, 0) + 65536 * Word(bs, 2) + 0x1_0000_0000 * Word(bs, 4) + 0x1_0000_0000_0000 * Word(bs, 6)
  {
    var (b, c, d) := (bs[2..], bs[4..], bs[6..]);
    FromTwo(bs);
    FromTwo(b);
    FromTwo(c);
    FromTwo(d);
    assert b[2..] == c && c[2..] == d && d[2..] == [];
  }

  lemma IntIsExact(p: seq<byte>, v: nat, rest: seq<byte>)
    ensures TakeInt(p) == Ok((v, rest)) <==> IntThen(p, v, rest)
  {
    if |p| >= 3 && p[0] == 252 {
      FromTwo(p[1..3]);
      assert p[1..3][2..] == [];
    } else if |p| >= 4 && p[0] == 253 {
      FromTwo(p[1..4]);
      assert p[1..4][2..] == [p[3]] && [p[3]][1..] == [];
      assert FromLe([p[3]]) == p[3] + 256 * FromLe([]);
    } else if |p| >= 9 && p[0] == 254 {
      FromEight(p[1..9]);
    }
  }

  /** A length and that many bytes; a length with the sign bit set is none. */
  ghost predicate BytesThen(p: seq<byte>, b: seq<byte>, rest: seq<byte>) {
    |b| < 0x8000_0000_0000_0000 && IntThen(p, |b|, b + rest)
  }

  lemma BytesAreExact(p: seq<byte>, b: seq<byte>, rest: seq<byte>)
    ensures TakeBytes(p) == Ok((b, rest)) <==> BytesThen(p, b, rest)
  {
    hide TakeInt, IntThen;
    IntIsExact(p, |b|, b + rest);
    if TakeBytes(p) == Ok((b, rest)) {
      var after := TakeInt(p).value.1;
      assert after == after[..|b|] + after[|b|..];
      IntIsBelowLimit(p);
    }
    if BytesThen(p, b, rest) {
      assert (b + rest)[..|b|] == b && (b + rest)[|b|..] == rest;
    }
  }

  lemma IntIsBelowLimit(p: seq<byte>)
    ensures TakeInt(p).Ok? ==> TakeInt(p).value.0 < UINT_LIMIT
  {
    if TakeInt(p).Ok? {
      IntIsExact(p, TakeInt(p).value.0, TakeInt(p).value.1);
    }
  }

  // ------------------------------------------------------ rows

  ghost predicate CellThen(p: seq<byte>, c: Cell, rest: seq<byte>) {
    match c
    case Null => p == [251] + rest
    case Value(b) => BytesThen(p, b, rest)
  }

  lemma CellIsExact(p: seq<byte>, c: Cell, rest: seq<byte>)
    ensures TakeCell(p) == Ok((c, rest)) <==> CellThen(p, c, rest)
  {
    hide TakeBytes, IntThen;
    match c
    case Null =>
      if p != [] && p[0] == 251 {
        assert p == [251] + p[1..];
      }
    case Value(b) =>
      BytesAreExact(p, b, rest);
      NullIsNoLength(p, |b|, b + rest);
  }

  lemma NullIsNoLength(p: seq<byte>, v: nat, rest: seq<byte>)
    ensures IntThen(p, v, rest) ==> p != [] && p[0] != 251
  {}

  /** One cell behind the other and nothing else. */
  ghost predicate IsRow(p: seq<byte>, row: seq<Cell>)
    decreases |row|
  {
    if row == [] then p == [] else exists rest :: CellThen(p, row[0], rest) && IsRow(rest, row[1..])
  }

  /** A row for so many columns; none for a count that is not positive. */
  ghost predicate IsRowOf(p: seq<byte>, count: int, row: seq<Cell>) {
    IsRow(p, row) && |row| == if count > 0 then count else 0
  }

  /** The row decoder accepts rows of the given number of cells, and nothing else. */
  lemma {:induction false} RowIsExact(p: seq<byte>, count: int, row: seq<Cell>)
    ensures DecodeRow(p, count) == Ok(row) <==> IsRowOf(p, count, row)
    decreases |row|
  {
    hide TakeCell, CellThen;
    if count <= 0 {
      if row == [] {
        assert IsRow(p, row) <==> p == [];
      }
    } else if row != [] {
      RowIsExactStep(p, count, row);
    }
  }

  lemma {:induction false} RowIsExactStep(p: seq<byte>, count: int, row: seq<Cell>)
    requires row != [] && count > 0
    ensures DecodeRow(p, count) == Ok(row) <==> IsRow(p, row) && |row| == count
    decreases |row|, 0
  {
    hide TakeCell, CellThen;
    if DecodeRow(p, count) == Ok(row) {
      var (c, rest) := TakeCell(p).value;
      var more := DecodeRow(rest, count - 1).value;
      assert row[0] == c && row[1..] == more;
      CellIsExact(p, c, rest);
      RowIsExact(rest, count - 1, more);
    }
    if IsRow(p, row) && |row| == count {
      var rest :| CellThen(p, row[0], rest) && IsRow(rest, row[1..]);
      CellIsExact(p, row[0], rest);
      RowIsExact(rest, count - 1, row[1..]);
      assert row == [row[0]] + row[1..];
    }
  }

  // ------------------------------------------------------ OK and ERR

  /** Header 0, two integers, status and warnings; what follows does not matter. */
  ghost predicate IsOk(p: seq<byte>, ok: OkPacket) {
    exists p1, p2 :: OkParts(p, ok, p1, p2)
  }

  ghost predicate OkParts(p: seq<byte>, ok: OkPacket, p1: seq<byte>, p2: seq<byte>) {
    && p != [] && p[0] == 0
    && IntThen(p[1..], ok.affectedRows, p1) && IntThen(p1, ok.lastInsertId, p2)
    && |p2| >= 4 && ok.status == Word(p2, 0) && ok.warnings == Word(p2, 2)
  }

  lemma OkIsExact(p: seq<byte>, ok: OkPacket)
    ensures DecodeOk(p) == Ok(ok) <==> IsOk(p, ok)
  {
    hide TakeInt, IntThen;
    if DecodeOk(p) == Ok(ok) {
      var (_, p1) := TakeInt(p[1..]).value;
      var (_, p2) := TakeInt(p1).value;
      IntIsExact(p[1..], ok.affectedRows, p1);
      IntIsExact(p1, ok.lastInsertId, p2);
      assert OkParts(p, ok, p1, p2);
    }
    if IsOk(p, ok) {
      var p1, p2 :| OkParts(p, ok, p1, p2);
      IntIsExact(p[1..], ok.affectedRows, p1);
      IntIsExact(p1, ok.lastInsertId, p2);
    }
  }

  /** Header 255, the code, a marked SQL state of five bytes or none, and the message. */
  ghost predicate IsErr(p: seq<byte>, e: ErrPacket, utf8: Utf8Check) {
    && |p| >= 3 && p[0] == 255 && e.code == Word(p, 1) && utf8(e.message)
    && if |p| > 3 && p[3] == 35
       then |e.sqlState| == 5 && utf8(e.sqlState) && p[4..] == e.sqlState + e.message
       else e.sqlState == [] && p[3..] == e.message
  }

  lemma ErrIsExact(p: seq<byte>, e: ErrPacket, utf8: Utf8Check)
    ensures DecodeErr(p, utf8) == Ok(e) <==> IsErr(p, e, utf8)
  {
    if |p| >= 9 && p[3] == 35 {
      assert p[4..] == p[4..9] + p[9..];
      if IsErr(p, e, utf8) {
        assert p[4..9] == p[4..][..5] && p[9..] == p[4..][5..];
      }
    }
  }

  // ------------------------------------------------------ column counts and definitions

  /** A count, and after it nothing or one integer: the metadata flag. */
  ghost predicate IsCount(p: seq<byte>, cc: ColumnCount, negotiated: bool) {
    exists n, rest :: CountParts(p, cc, negotiated, n, rest)
  }

  ghost predicate CountParts(p: seq<byte>, cc: ColumnCount, negotiated: bool, n: nat, rest: seq<byte>) {
    && IntThen(p, n, rest) && cc.count == (if n < 0x8000_0000_0000_0000 then n else n - 0x1_0000_0000_0000_0000)
    && if rest == [] then cc.metadataFollows
       else exists flag :: IntThen(rest, flag, []) && (cc.metadataFollows <==> !negotiated || flag != 0)
  }

  lemma CountIsExact(p: seq<byte>, cc: ColumnCount, negotiated: bool)
    ensures DecodeColumnCount(p, negotiated) == Ok(cc) <==> IsCount(p, cc, negotiated)
  {
    hide TakeInt, IntThen;
    if DecodeColumnCount(p, negotiated) == Ok(cc) {
      var (n, rest) := TakeInt(p).value;
      IntIsExact(p, n, rest);
      if rest != [] {
        IntIsExact(rest, TakeInt(rest).value.0, []);
      }
      assert CountParts(p, cc, negotiated, n, rest);
    }
    if IsCount(p, cc, negotiated) {
      var n, rest :| CountParts(p, cc, negotiated, n, rest);
      IntIsExact(p, n, rest);
      if rest != [] {
        var flag :| IntThen(rest, flag, []) && (cc.metadataFollows <==> !negotiated || flag != 0);
        IntIsExact(rest, flag, []);
      }
    }
  }

  ghost predicate TextsThen(p: seq<byte>, ts: seq<seq<byte>>, rest: seq<byte>, utf8: Utf8Check)
    decreases |ts|
  {
    if ts == [] then p == rest
    else utf8(ts[0]) && exists mid :: BytesThen(p, ts[0], mid) && TextsThen(mid, ts[1..], rest, utf8)
  }

  lemma {:induction false} TextsAreExact(p: seq<byte>, n: nat, ts: seq<seq<byte>>, rest: seq<byte>, utf8: Utf8Check)
    ensures TakeTexts(p, n, utf8) == Ok((ts, rest)) <==> TextsThen(p, ts, rest, utf8) && |ts| == n
    decreases n
  {
    hide TakeBytes, BytesThen;
    if n > 0 {
      if TakeTexts(p, n, utf8) == Ok((ts, rest)) {
        var (t, mid) := TakeText(p, utf8).value;
        assert ts[0] == t && ts[1..] == TakeTexts(mid, n - 1, utf8).value.0;
        BytesAreExact(p, t, mid);
        TextsAreExact(mid, n - 1, ts[1..], rest, utf8);
      }
      if TextsThen(p, ts, rest, utf8) && |ts| == n {
        var mid :| BytesThen(p, ts[0], mid) && TextsThen(mid, ts[1..], rest, utf8);
        BytesAreExact(p, ts[0], mid);
        TextsAreExact(mid, n - 1, ts[1..], rest, utf8);
        assert ts == [ts[0]] + ts[1..];
      }
    }
  }

  /** Six texts, a length byte of 12, and fixed fields of at least eleven bytes. */
  ghost predicate IsColumnDef(p: seq<byte>, d: ColumnDef, utf8: Utf8Check) {
    exists f :: |d.texts| == 6 && TextsThen(p, d.texts, f, utf8) && AreFixedFields(f, d)
  }

  ghost predicate AreFixedFields(f: seq<byte>, d: ColumnDef) {
    && |f| >= 12 && f[0] == 12 && d.charset == Word(f, 1)
    && d.length == Word(f, 3) + 65536 * Word(f, 5)
    && d.columnType == f[7] && d.flags == Word(f, 8) && d.decimals == f[10]
  }

  lemma FromFour(f: seq<byte>)
    requires |f| >= 12
    ensures FromLe(f[3..7]) == Word(f, 3) + 65536 * Word(f, 5)
  {
    var bs := f[3..7];
    FromTwo(bs);
    FromTwo(bs[2..]);
    assert bs[2..][2..] == [];
  }

  lemma ColumnDefIsExact(p: seq<byte>, d: ColumnDef, utf8: Utf8Check)
    ensures DecodeColumnDef(p, utf8) == Ok(d) <==> IsColumnDef(p, d, utf8)
  {
    hide TakeTexts, TextsThen;
    if DecodeColumnDef(p, utf8) == Ok(d) {
      var f := TakeTexts(p, 6, utf8).value.1;
      TextsAreExact(p, 6, d.texts, f, utf8);
      FromFour(f);
      assert TextsThen(p, d.texts, f, utf8) && AreFixedFields(f, d);
    }
    if IsColumnDef(p, d, utf8) {
      var f :| |d.texts| == 6 && TextsThen(p, d.texts, f, utf8) && AreFixedFields(f, d);
      TextsAreExact(p, 6, d.texts, f, utf8);
      FromFour(f);
    }
  }

  // ------------------------------------------------------ what a statement accepts when

  /** A short packet with header 254. */
  ghost predicate IsMarker(p: seq<byte>) {
    1 <= |p| <= 8 && p[0] == 254
  }

  /** The first packet of a result: OK, ERR, or a column count; no request for a local file. */
  ghost predicate FitsFirst(p: seq<byte>, suppression: bool, utf8: Utf8Check) {
    p != []
    && if p[0] == 0 then exists ok :: IsOk(p, ok)
       else if p[0] == 255 then exists e :: IsErr(p, e, utf8)
       else p[0] != 251 && exists cc :: IsCount(p, cc, suppression)
  }

  /** What the statement can take next. */
  ghost predicate Fits(st: Stmt, p: seq<byte>, suppression: bool, utf8: Utf8Check) {
    if st.mode == MODE_NEED_NEXT_FIRST then FitsFirst(p, suppression, utf8)
    else if st.defsRemaining > 0 then exists d :: IsColumnDef(p, d, utf8)
    else if st.awaitingTerminator then IsMarker(p)
    else IsMarker(p) || exists row :: IsRowOf(p, st.columnCount, row)
  }

  lemma FirstFitsExactly(st: Stmt, p: seq<byte>, suppression: bool, utf8: Utf8Check)
    ensures InitFromFirst(st, p, suppression, utf8).Ok? <==> FitsFirst(p, suppression, utf8)
    ensures p != [] && p[0] == 251 ==> InitFromFirst(st, p, suppression, utf8) == Err(UnsupportedLocalInfile)
  {
    hide DecodeOk, DecodeErr, DecodeColumnCount, IsOk, IsErr, IsCount;
    if p != [] {
      if p[0] == 0 {
        OkFits(p);
      } else if p[0] == 255 {
        ErrFits(p, utf8);
      } else {
        CountFits(p, suppression);
      }
    }
  }

  /** What a first packet makes of the statement. */
  ghost predicate FirstMakes(st: Stmt, p: seq<byte>, suppression: bool, utf8: Utf8Check, next: Stmt) {
    p != []
    && if p[0] == 0 then exists ok :: IsOk(p, ok) && next == st.(pendingOk := ok, mode := MODE_PENDING_OK)
       else if p[0] == 255 then
         exists e :: IsErr(p, e, utf8) && next == st.(pendingErr := e, mode := MODE_PENDING_ERR)
       else
         p[0] != 251 && exists cc :: IsCount(p, cc, suppression) && next == BeforeRows(st, cc)
  }

  /** At the head of a resultset: with metadata the definitions and their marker come first. */
  function BeforeRows(st: Stmt, cc: ColumnCount): Stmt {
    st.(mode := MODE_RESULTSET, columnCount := cc.count, defs := [],
        defsRemaining := if cc.metadataFollows then cc.count else 0, awaitingTerminator := cc.metadataFollows)
  }

  /** The first packet of a result moves the statement to where the grammar says. */
  lemma FirstMovesExactly(st: Stmt, p: seq<byte>, suppression: bool, utf8: Utf8Check, next: Stmt)
    ensures InitFromFirst(st, p, suppression, utf8) == Ok(next) <==> FirstMakes(st, p, suppression, utf8, next)
  {
    hide DecodeOk, DecodeErr, DecodeColumnCount, IsOk, IsErr, IsCount;
    if p != [] && p[0] == 0 {
      forall ok
        ensures DecodeOk(p) == Ok(ok) <==> IsOk(p, ok)
      {
        OkIsExact(p, ok);
      }
    } else if p != [] && p[0] == 255 {
      forall e
        ensures DecodeErr(p, utf8) == Ok(e) <==> IsErr(p, e, utf8)
      {
        ErrIsExact(p, e, utf8);
      }
    } else {
      forall cc
        ensures DecodeColumnCount(p, suppression) == Ok(cc) <==> IsCount(p, cc, suppression)
      {
        CountIsExact(p, cc, suppression);
      }
    }
  }

  lemma OkFits(p: seq<byte>)
    ensures DecodeOk(p).Ok? <==> exists ok :: IsOk(p, ok)
  {
    hide DecodeOk, IsOk;
    forall ok
      ensures DecodeOk(p) == Ok(ok) <==> IsOk(p, ok)
    {
      OkIsExact(p, ok);
    }
    if DecodeOk(p).Ok? {
      assert IsOk(p, DecodeOk(p).value);
    }
  }

  lemma ErrFits(p: seq<byte>, utf8: Utf8Check)
    ensures DecodeErr(p, utf8).Ok? <==> exists e :: IsErr(p, e, utf8)
  {
    hide DecodeErr, IsErr;
    forall e
      ensures DecodeErr(p, utf8) == Ok(e) <==> IsErr(p, e, utf8)
    {
      ErrIsExact(p, e, utf8);
    }
    if DecodeErr(p, utf8).Ok? {
      assert IsErr(p, DecodeErr(p, utf8).value, utf8);
    }
  }

  lemma CountFits(p: seq<byte>, negotiated: bool)
    ensures DecodeColumnCount(p, negotiated).Ok? <==> exists cc :: IsCount(p, cc, negotiated)
  {
    hide DecodeColumnCount, IsCount;
    forall cc
      ensures DecodeColumnCount(p, negotiated) == Ok(cc) <==> IsCount(p, cc, negotiated)
    {
      CountIsExact(p, cc, negotiated);
    }
    if DecodeColumnCount(p, negotiated).Ok? {
      assert IsCount(p, DecodeColumnCount(p, negotiated).value, negotiated);
    }
  }

  lemma ColumnDefFits(p: seq<byte>, utf8: Utf8Check)
    ensures DecodeColumnDef(p, utf8).Ok? <==> exists d :: IsColumnDef(p, d, utf8)
  {
    hide DecodeColumnDef, IsColumnDef;
    forall d
      ensures DecodeColumnDef(p, utf8) == Ok(d) <==> IsColumnDef(p, d, utf8)
    {
      ColumnDefIsExact(p, d, utf8);
    }
    if DecodeColumnDef(p, utf8).Ok? {
      assert IsColumnDef(p, DecodeColumnDef(p, utf8).value, utf8);
    }
  }

  lemma RowFits(p: seq<byte>, count: int)
    ensures DecodeRow(p, count).Ok? <==> exists row :: IsRowOf(p, count, row)
  {
    hide DecodeRow, IsRowOf;
    forall row
      ensures DecodeRow(p, count) == Ok(row) <==> IsRowOf(p, count, row)
    {
      RowIsExact(p, count, row);
    }
    if DecodeRow(p, count).Ok? {
      assert IsRowOf(p, count, DecodeRow(p, count).value);
    }
  }

  /** The statement is at a point where it reads a packet. */
  predicate ReadsNext(st: Stmt) {
    st.mode == MODE_NEED_NEXT_FIRST || st.mode == MODE_RESULTSET
  }

  /**
   A packet that has been read kills the session if and only if the statement cannot take it
   where it stands; what can be taken never does.
   */
  lemma PacketKillsExactlyUnlessItFits(w: Reader, p: seq<byte>)
    requires Going(w) && ReadsNext(w.st) && ReadOrDie(w.s).0 == Ok(p)
    ensures TurnOf(w).1.s.isClosed <==> !Fits(w.st, p, w.s.suppression, w.s.utf8)
  {
    hide ReadOrDie, DecodeColumnDef, DecodeRow, InitFromFirst, IsColumnDef, IsRow, FitsFirst, EofStatus, HasBit;
    ReadOrDieSound(w.s);
    ReadOrDieOnlyReads(w.s);
    FirstFitsExactly(w.st, p, w.s.suppression, w.s.utf8);
    ColumnDefFits(p, w.s.utf8);
    RowFits(p, w.st.columnCount);
  }

  /** Where rows are due, a packet is reported as a row if and only if it is no marker and is a
      row of as many cells as there are columns; and as that row. */
  lemma RowIsReportedExactly(w: Reader, p: seq<byte>, row: seq<Cell>)
    requires Going(w) && w.st.mode == MODE_RESULTSET && w.st.defsRemaining <= 0 && !w.st.awaitingTerminator
    requires ReadOrDie(w.s).0 == Ok(p)
    ensures NextEvent(w).0 == Ok(Row(row)) <==> !IsMarker(p) && IsRowOf(p, w.st.columnCount, row)
    ensures NextEvent(w).0 == Ok(ResultSetEnd) <==> IsMarker(p)
  {
    hide ReadOrDie, DecodeRow, IsRowOf, EofStatus, HasBit;
    RowIsExact(p, w.st.columnCount, row);
    assert TurnOf(w) == RowTurn(w);
  }

  /** The end of the rows mirrors the marker's status, 0 when it is too short for one; bit 3
      says that another result follows. */
  lemma MarkerEndsRows(w: Reader, p: seq<byte>)
    requires Going(w) && w.st.mode == MODE_RESULTSET && w.st.defsRemaining <= 0 && !w.st.awaitingTerminator
    requires ReadOrDie(w.s).0 == Ok(p) && IsMarker(p)
    ensures var w' := NextEvent(w).1;
            var (status, warnings) := if |p| >= 5 then (Word(p, 3), Word(p, 1)) else (0, 0);
            && !w'.s.isClosed && w'.s.lastStatus == status && w'.s.lastWarnings == warnings
            && (w'.s.inTransaction <==> status % 2 == 1) && (w'.s.autocommit <==> status / 2 % 2 == 1)
            && w'.st == if status / 8 % 2 == 1 then w.st.(mode := MODE_NEED_NEXT_FIRST)
                        else w.st.(mode := MODE_PENDING_OK, pendingOk := OkPacket(0, 0, status, warnings))
  {
    hide ReadOrDie, DecodeRow;
    ReadOrDieSound(w.s);
    assert TurnOf(w) == RowTurn(w);
  }

  lemma ReadOrDieOnlyReads(s: Session)
    ensures ReadOrDie(s).0.Ok? ==> OnlyReadPacket(s, ReadOrDie(s).1)
  {}
}
