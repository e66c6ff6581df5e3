/**
 The text of a CALL statement, built from a procedure name and arguments, and the scanner
 that reads it back under the literal rules of ISO/IEC 9075-2, section 5.3: in a quoted
 string a doubled quote stands for a quote, and nothing else is special.
 */
module CallText {
  import opened Basics

  type Text = seq<byte>

  const QUOTE: byte := 39
  const OPEN: byte := 40
  const CLOSE: byte := 41
  const COMMA: byte := 44
  const SPACE: byte := 32
  const MINUS: byte := 45

  const CALL: Text := [67, 65, 76, 76, 32]
  const NULL: Text := [78, 85, 76, 76]

  // ------------------------------------------------------ procedure names

  predicate IsIdentChar(b: byte) {
    48 <= b <= 57 || 65 <= b <= 90 || 97 <= b <= 122 || b == 95
  }

  predicate IsValidProcName(name: Text) {
    name != [] && forall i :: 0 <= i < |name| ==> IsIdentChar(name[i])
  }

  method CheckProcName(name: Text) returns (ok: bool)
    ensures ok == IsValidProcName(name)
  {
    if |name| <= 0 {
      return false;
    }
    var i := 0;
    while i < |name|
      invariant i <= |name|
      invariant forall k :: 0 <= k < i ==> IsIdentChar(name[k])
    {
      if !IsIdentChar(name[i]) {
        return false;
      }
      i := i + 1;
    }
    return true;
  }

  // ------------------------------------------------------ literals

  /** `s` with every quote doubled. */
  function Doubled(s: Text): Text {
    if s == [] then []
    else (if s[0] == QUOTE then [QUOTE, QUOTE] else [s[0]]) + Doubled(s[1..])
  }

  function Quoted(s: Text): Text {
    [QUOTE] + Doubled(s) + [QUOTE]
  }

  lemma {:induction false} DoubledPlus(s: Text, b: byte)
    ensures Doubled(s + [b]) == Doubled(s) + if b == QUOTE then [QUOTE, QUOTE] else [b]
  {
    if s == [] {
      assert [b][1..] == [];
    } else {
      assert (s + [b])[1..] == s[1..] + [b];
      DoubledPlus(s[1..], b);
    }
  }

  method QuoteString(s: Text) returns (out: Text)
    ensures out == Quoted(s)
  {
    out := [QUOTE];
    var i := 0;
    assert s[..0] == [];
    while i < |s|
      invariant i <= |s| && out == [QUOTE] + Doubled(s[..i])
    {
      DoubledPlus(s[..i], s[i]);
      assert s[..i + 1] == s[..i] + [s[i]];
      if s[i] == QUOTE {
        out := out + [QUOTE, QUOTE];
      } else {
        out := out + [s[i]];
      }
      i := i + 1;
    }
    assert s[..i] == s;
    out := out + [QUOTE];
  }

  function HexDigit(v: nat): (d: byte)
    requires v < 16
    ensures 48 <= d <= 57 || 65 <= d <= 70
  {
    if v <= 9 then 48 + v else 65 + (v - 10)
  }

  function HexDigits(bytes: seq<byte>): Text {
    if bytes == [] then []
    else [HexDigit(bytes[0] / 16 % 16), HexDigit(bytes[0] % 16)] + HexDigits(bytes[1..])
  }

  function HexLiteral(bytes: seq<byte>): Text {
    [48, 120] + HexDigits(bytes)
  }

  lemma {:induction false} HexDigitsPlus(bytes: seq<byte>, b: byte)
    ensures HexDigits(bytes + [b]) == HexDigits(bytes) + [HexDigit(b / 16 % 16), HexDigit(b % 16)]
  {
    if bytes == [] {
      assert [b][1..] == [];
    } else {
      assert (bytes + [b])[1..] == bytes[1..] + [b];
      HexDigitsPlus(bytes[1..], b);
    }
  }

  method BuildHexLiteral(bytes: seq<byte>) returns (out: Text)
    ensures out == HexLiteral(bytes)
  {
    out := [48, 120];
    var i := 0;
    assert bytes[..0] == [];
    while i < |bytes|
      invariant i <= |bytes| && out == [48, 120] + HexDigits(bytes[..i])
    {
      HexDigitsPlus(bytes[..i], bytes[i]);
      assert bytes[..i + 1] == bytes[..i] + [bytes[i]];
      var hi := bytes[i] / 16 % 16;
      var lo := bytes[i] % 16;
      out := out + [HexDigit(hi)];
      out := out + [HexDigit(lo)];
      i := i + 1;
    }
    assert bytes[..i] == bytes;
  }

  function Decimal(n: nat): (t: Text)
    ensures t != []
  {
    (if n < 10 then [] else Decimal(n / 10)) + [48 + n % 10]
  }

  function FormatInt(v: int): Text {
    if v < 0 then [MINUS] + Decimal(-v) else Decimal(v)
  }

  // ------------------------------------------------------ the statement

  /** `ArgFloat` carries the text the formatting library gives for the number. */
  datatype Arg =
    | ArgNull | ArgBool(flag: bool) | ArgInt(number: int) | ArgFloat(text: Text)
    | ArgString(str: Text) | ArgBytes(bytes: seq<byte>)

  function EncodeArg(a: Arg): Text {
    match a
    case ArgNull => NULL
    case ArgBool(flag) => if flag then [49] else [48]
    case ArgInt(number) => FormatInt(number)
    case ArgFloat(text) => text
    case ArgString(str) => Quoted(str)
    case ArgBytes(bytes) => HexLiteral(bytes)
  }

  method BuildArg(a: Arg) returns (out: Text)
    ensures out == EncodeArg(a)
  {
    match a {
      case ArgString(str) => out := QuoteString(str);
      case ArgBytes(bytes) => out := BuildHexLiteral(bytes);
      case _ => out := EncodeArg(a);
    }
  }

  /** The arguments behind the first one, each behind its comma, and the closing parenthesis. */
  function MoreArgs(args: seq<Arg>): Text {
    if args == [] then [CLOSE] else [COMMA, SPACE] + (EncodeArg(args[0]) + MoreArgs(args[1..]))
  }

  function ArgList(args: seq<Arg>): Text {
    if args == [] then [CLOSE] else EncodeArg(args[0]) + MoreArgs(args[1..])
  }

  function CallSql(name: Text, args: seq<Arg>): Text {
    CALL + (name + ([OPEN] + ArgList(args)))
  }

  datatype CallError = InvalidProcName(name: Text)

  method BuildCallSql(name: Text, args: seq<Arg>) returns (r: Result<Text, CallError>)
    ensures r == if IsValidProcName(name) then Ok(CallSql(name, args)) else Err(InvalidProcName(name))
    ensures r.Ok? && FloatsAreBare(args) ==> ReadCall(r.value) == Some((name, Meanings(args)))
  {
    hide ReadCall, Meanings;
    var ok := CheckProcName(name);
    if !ok {
      return Err(InvalidProcName(name));
    }
    var sql := CALL + name + [OPEN];
    var i := 0;
    assert CallSql(name, args) == sql + Unwritten(args, 0);
    while i < |args|
      invariant i <= |args| && CallSql(name, args) == sql + Unwritten(args, i)
    {
      hide CallSql, Unwritten;
      UnwrittenStep(args, i, sql);
      if i > 0 {
        sql := sql + [COMMA, SPACE];
      }
      var v := BuildArg(args[i]);
      sql := sql + v;
      i := i + 1;
    }
    NothingUnwritten(args);
    sql := sql + [CLOSE];
    if FloatsAreBare(args) {
      CallMeansItsArguments(name, args);
    }
    return Ok(sql);
  }

  /** What is still to come once `i` arguments have been written. */
  function Unwritten(args: seq<Arg>, i: nat): Text
    requires i <= |args|
  {
    if i == 0 then ArgList(args) else MoreArgs(args[i..])
  }

  lemma UnwrittenStep(args: seq<Arg>, i: nat, sql: Text)
    requires i < |args|
    ensures sql + Unwritten(args, i)
         == (if i > 0 then sql + [COMMA, SPACE] else sql) + EncodeArg(args[i]) + Unwritten(args, i + 1)
  {
    hide EncodeArg;
    assert args[i..][1..] == args[i + 1..];
    var (v, more) := (EncodeArg(args[i]), MoreArgs(args[i + 1..]));
    if i > 0 {
      assert sql + ([COMMA, SPACE] + (v + more)) == sql + [COMMA, SPACE] + v + more;
    } else {
      assert sql + (v + more) == sql + v + more;
    }
  }

  lemma NothingUnwritten(args: seq<Arg>)
    ensures Unwritten(args, |args|) == [CLOSE]
  {}

  // ------------------------------------------------------ reading it back

  /** A literal as the scanner sees it: the content of a quoted string, or bare text. */
  datatype Literal = QuotedLiteral(content: Text) | BareLiteral(text: Text)

  /** The content up to the closing quote, and what follows it. */
  function ScanQuoted(p: Text): Option<(Text, Text)> {
    if p == [] then None
    else if p[0] != QUOTE then
      match ScanQuoted(p[1..])
      case None => None
      case Some((content, rest)) => Some(([p[0]] + content, rest))
    else if |p| > 1 && p[1] == QUOTE then
      match ScanQuoted(p[2..])
      case None => None
      case Some((content, rest)) => Some(([QUOTE] + content, rest))
    else Some(([], p[1..]))
  }

  /** Text up to a comma or a closing parenthesis. */
  function ScanBare(p: Text): (r: (Text, Text))
    ensures |r.1| <= |p|
  {
    if p == [] || p[0] == COMMA || p[0] == CLOSE then ([], p)
    else
      var (text, rest) := ScanBare(p[1..]);
      ([p[0]] + text, rest)
  }

  function ScanLiteral(p: Text): Option<(Literal, Text)> {
    if p != [] && p[0] == QUOTE then
      match ScanQuoted(p[1..])
      case None => None
      case Some((content, rest)) => Some((QuotedLiteral(content), rest))
    else
      var (text, rest) := ScanBare(p);
      if text == [] then None else Some((BareLiteral(text), rest))
  }

  /** Literals with commas between them, the closing parenthesis, and nothing behind it. */
  function ScanLiterals(p: Text): Option<seq<Literal>>
    decreases |p|
  {
    match ScanLiteral(p)
    case None => None
    case Some((l, rest)) =>
      if rest == [CLOSE] then Some([l])
      else if 2 <= |rest| < |p| && rest[..2] == [COMMA, SPACE] then
        match ScanLiterals(rest[2..])
        case None => None
        case Some(more) => Some([l] + more)
      else None
  }

  function ScanArgList(p: Text): Option<seq<Literal>> {
    if p == [CLOSE] then Some([]) else ScanLiterals(p)
  }

  function ScanName(p: Text): (Text, Text) {
    if p == [] || !IsIdentChar(p[0]) then ([], p)
    else
      var (name, rest) := ScanName(p[1..]);
      ([p[0]] + name, rest)
  }

  function ScanCall(p: Text): Option<(Text, seq<Literal>)> {
    if |p| < 5 || p[..5] != Ascii("CALL ") then None
    else
      var (name, rest) := ScanName(p[5..]);
      if name == [] || rest == [] || rest[0] != OPEN then None
      else match ScanArgList(rest[1..])
        case None => None
        case Some(ls) => Some((name, ls))
  }

  /** The literal an argument becomes. */
  function LiteralOf(a: Arg): Literal {
    if a.ArgString? then QuotedLiteral(a.str) else BareLiteral(EncodeArg(a))
  }

  function LiteralsOf(args: seq<Arg>): seq<Literal> {
    if args == [] then [] else [LiteralOf(args[0])] + LiteralsOf(args[1..])
  }

  /** Bare text that does not end before its end. */
  predicate IsBare(t: Text) {
    t != [] && t[0] != QUOTE && forall i :: 0 <= i < |t| ==> t[i] != COMMA && t[i] != CLOSE
  }

  /** Formatted floats are bare text; for the other arguments it is proved. */
  predicate FloatsAreBare(args: seq<Arg>) {
    forall i :: 0 <= i < |args| && args[i].ArgFloat? ==> IsBare(args[i].text)
  }

  lemma {:induction false} HexDigitsAreBare(bytes: seq<byte>)
    ensures forall i :: 0 <= i < |HexDigits(bytes)| ==> HexDigits(bytes)[i] >= 48
  {
    if bytes != [] {
      HexDigitsAreBare(bytes[1..]);
    }
  }

  lemma {:induction false} DecimalIsBare(n: nat)
    ensures forall i :: 0 <= i < |Decimal(n)| ==> 48 <= Decimal(n)[i] <= 57
  {
    if n >= 10 {
      DecimalIsBare(n / 10);
    }
  }

  lemma EncodedIsBare(a: Arg)
    requires !a.ArgString? && (a.ArgFloat? ==> IsBare(a.text))
    ensures IsBare(EncodeArg(a))
  {
    match a
    case ArgInt(number) => DecimalIsBare(if number < 0 then -number else number);
    case ArgBytes(bytes) => HexDigitsAreBare(bytes);
    case _ =>
  }

  lemma ScanOneMore(b: byte, q: Text)
    requires ScanQuoted(q).Some?
    ensures ScanQuoted((if b == QUOTE then [QUOTE, QUOTE] else [b]) + q)
         == Some(([b] + ScanQuoted(q).value.0, ScanQuoted(q).value.1))
  {
    var p := (if b == QUOTE then [QUOTE, QUOTE] else [b]) + q;
    assert p[(if b == QUOTE then 2 else 1)..] == q;
  }

  lemma DoubledInFront(s: Text, behind: Text)
    requires s != []
    ensures Doubled(s) + behind == (if s[0] == QUOTE then [QUOTE, QUOTE] else [s[0]]) + (Doubled(s[1..]) + behind)
  {}

  lemma {:induction false} ScanDoubled(s: Text, rest: Text)
    requires rest == [] || rest[0] != QUOTE
    ensures ScanQuoted(Doubled(s) + ([QUOTE] + rest)) == Some((s, rest))
  {
    if s == [] {
      assert Doubled(s) + ([QUOTE] + rest) == [QUOTE] + rest;
    } else {
      hide ScanQuoted;
      var q := Doubled(s[1..]) + ([QUOTE] + rest);
      ScanDoubled(s[1..], rest);
      ScanOneMore(s[0], q);
      DoubledInFront(s, [QUOTE] + rest);
      assert s == [s[0]] + s[1..];
    }
  }

  lemma {:induction false} ScanBareText(t: Text, rest: Text)
    requires forall i :: 0 <= i < |t| ==> t[i] != COMMA && t[i] != CLOSE
    requires rest != [] && (rest[0] == COMMA || rest[0] == CLOSE)
    ensures ScanBare(t + rest) == (t, rest)
  {
    if t == [] {
      assert t + rest == rest;
    } else {
      ScanBareText(t[1..], rest);
      assert (t + rest)[1..] == t[1..] + rest;
      assert t == [t[0]] + t[1..];
    }
  }

  lemma ScanEncodedArg(a: Arg, rest: Text)
    requires a.ArgFloat? ==> IsBare(a.text)
    requires rest != [] && (rest[0] == COMMA || rest[0] == CLOSE)
    ensures ScanLiteral(EncodeArg(a) + rest) == Some((LiteralOf(a), rest))
  {
    if a.ArgString? {
      ScanDoubled(a.str, rest);
      assert (Quoted(a.str) + rest)[1..] == Doubled(a.str) + ([QUOTE] + rest);
    } else {
      EncodedIsBare(a);
      ScanBareText(EncodeArg(a), rest);
    }
  }

  lemma {:induction false} ScanEncodedArgs(args: seq<Arg>)
    requires args != [] && FloatsAreBare(args)
    ensures ScanLiterals(ArgList(args)) == Some(LiteralsOf(args))
    decreases |args|
  {
    hide EncodeArg, ScanLiteral, LiteralOf;
    var (a, more) := (args[0], args[1..]);
    var rest := MoreArgs(more);
    ScanEncodedArg(a, rest);
    EncodedIsSomething(a);
    if more == [] {
      assert LiteralsOf(more) == [] && LiteralsOf(args) == [LiteralOf(a)];
    } else {
      ScanEncodedArgs(more);
      assert rest[..2] == [COMMA, SPACE] && rest[2..] == ArgList(more);
    }
  }

  lemma EncodedIsSomething(a: Arg)
    requires a.ArgFloat? ==> IsBare(a.text)
    ensures EncodeArg(a) != []
  {}

  lemma {:induction false} ScanNameInFront(name: Text, rest: Text)
    requires forall i :: 0 <= i < |name| ==> IsIdentChar(name[i])
    requires rest == [] || !IsIdentChar(rest[0])
    ensures ScanName(name + rest) == (name, rest)
  {
    if name == [] {
      assert name + rest == rest;
    } else {
      ScanNameInFront(name[1..], rest);
      assert (name + rest)[1..] == name[1..] + rest;
      assert name == [name[0]] + name[1..];
    }
  }

  lemma ArgListIsNotEmptyList(args: seq<Arg>)
    requires args != [] && FloatsAreBare(args)
    ensures ArgList(args) != [CLOSE]
  {
    var t := EncodeArg(args[0]);
    EncodedIsSomething(args[0]);
    assert |MoreArgs(args[1..])| >= 1;
    assert |ArgList(args)| >= 2;
  }

  /**
   The text reads back uniquely: scanning it recovers the procedure name, the number of
   arguments, the content of every string and the text of every other literal.
   */
  lemma CallReadsBack(name: Text, args: seq<Arg>)
    requires IsValidProcName(name) && FloatsAreBare(args)
    ensures ScanCall(CallSql(name, args)) == Some((name, LiteralsOf(args)))
  {
    hide ArgList, ScanLiterals, LiteralsOf, ScanName;
    var p := CallSql(name, args);
    var rest := [OPEN] + ArgList(args);
    assert p[..5] == CALL == Ascii("CALL ") && p[5..] == name + rest;
    ScanNameInFront(name, rest);
    assert rest[1..] == ArgList(args);
    if args == [] {
      NoArgs();
    } else {
      ScanEncodedArgs(args);
      ArgListIsNotEmptyList(args);
    }
  }

  lemma NoArgs()
    ensures ArgList([]) == [CLOSE] && LiteralsOf([]) == []
  {}

  // ------------------------------------------------------ what the literals mean

  function HexValue(d: byte): Option<nat> {
    if 48 <= d <= 57 then Some(d - 48) else if 65 <= d <= 70 then Some(d - 55) else None
  }

  function ReadHexDigits(t: Text): Option<seq<byte>> {
    if t == [] then Some([])
    else if |t| < 2 then None
    else match (HexValue(t[0]), HexValue(t[1]))
      case (Some(hi), Some(lo)) =>
        (match ReadHexDigits(t[2..])
         case None => None
         case Some(more) => Some([(hi * 16 + lo) % 256] + more))
      case _ => None
  }

  /** The bytes a literal stands for, when it is a string or a hexadecimal literal. */
  function BytesOf(l: Literal): Option<seq<byte>> {
    match l
    case QuotedLiteral(content) => Some(content)
    case BareLiteral(text) => if |text| >= 2 && text[..2] == [48, 120] then ReadHexDigits(text[2..]) else None
  }

  lemma HexDigitReadsBack(v: nat)
    requires v < 16
    ensures HexValue(HexDigit(v)) == Some(v)
  {}

  lemma TwoDigits(b: byte)
    ensures 0 <= b / 16 % 16 < 16 && (b / 16 % 16 * 16 + b % 16) % 256 == b
  {}

  lemma ReadHexStep(b: byte, more: Text)
    requires ReadHexDigits(more).Some?
    ensures ReadHexDigits([HexDigit(b / 16 % 16), HexDigit(b % 16)] + more) == Some([b] + ReadHexDigits(more).value)
  {
    hide HexValue, HexDigit;
    TwoDigits(b);
    HexDigitReadsBack(b / 16 % 16);
    HexDigitReadsBack(b % 16);
    assert ([HexDigit(b / 16 % 16), HexDigit(b % 16)] + more)[2..] == more;
  }

  lemma {:induction false} HexReadsBack(bytes: seq<byte>)
    ensures ReadHexDigits(HexDigits(bytes)) == Some(bytes)
  {
    if bytes != [] {
      hide ReadHexDigits, HexDigit;
      HexReadsBack(bytes[1..]);
      ReadHexStep(bytes[0], HexDigits(bytes[1..]));
      assert bytes == [bytes[0]] + bytes[1..];
    }
  }

  /** String and byte arguments come back as the very bytes they were. */
  lemma ContentSurvives(a: Arg)
    ensures a.ArgString? ==> BytesOf(LiteralOf(a)) == Some(a.str)
    ensures a.ArgBytes? ==> BytesOf(LiteralOf(a)) == Some(a.bytes)
  {
    if a.ArgBytes? {
      HexReadsBack(a.bytes);
      assert HexLiteral(a.bytes)[2..] == HexDigits(a.bytes);
      assert HexLiteral(a.bytes)[..2] == [48, 120];
    }
  }

  predicate IsDigits(t: Text) {
    t != [] && forall i :: 0 <= i < |t| ==> 48 <= t[i] <= 57
  }

  function ReadDecimal(t: Text): nat
    requires forall i :: 0 <= i < |t| ==> 48 <= t[i] <= 57
  {
    if t == [] then 0 else ReadDecimal(t[..|t| - 1]) * 10 + (t[|t| - 1] - 48)
  }

  lemma {:induction false} DecimalReadsBack(n: nat)
    ensures IsDigits(Decimal(n)) && ReadDecimal(Decimal(n)) == n
  {
    DecimalIsBare(n);
    var t := Decimal(n);
    if n >= 10 {
      DecimalReadsBack(n / 10);
      assert t[..|t| - 1] == Decimal(n / 10);
    } else {
      assert t[..|t| - 1] == [];
    }
  }

  // ------------------------------------------------------ what the server makes of them

  /** The value of a literal; a number that is not an integer stays text. */
  datatype Value = NullValue | IntegerValue(number: int) | BytesValue(bytes: seq<byte>) | NumberText(text: Text)

  /** An optional sign and decimal digits, the word NULL, or a hexadecimal literal. */
  function ReadBare(text: Text): Value {
    if text == Ascii("NULL") then NullValue
    else if IsDigits(text) then IntegerValue(ReadDecimal(text))
    else if text != [] && text[0] == 45 && IsDigits(text[1..]) then IntegerValue(0 - ReadDecimal(text[1..]))
    else match BytesOf(BareLiteral(text))
      case Some(bytes) => BytesValue(bytes)
      case None => NumberText(text)
  }

  function ReadLiteral(l: Literal): Value {
    match l
    case QuotedLiteral(content) => BytesValue(content)
    case BareLiteral(text) => ReadBare(text)
  }

  function ReadLiterals(ls: seq<Literal>): seq<Value> {
    seq(|ls|, i requires 0 <= i < |ls| => ReadLiteral(ls[i]))
  }

  /** The name and the values that the text of a call gives the server. */
  function ReadCall(p: Text): Option<(Text, seq<Value>)> {
    match ScanCall(p)
    case None => None
    case Some((name, ls)) => Some((name, ReadLiterals(ls)))
  }

  /** What a caller means by an argument. */
  function Meaning(a: Arg): Value {
    match a
    case ArgNull => NullValue
    case ArgBool(flag) => IntegerValue(if flag then 1 else 0)
    case ArgInt(number) => IntegerValue(number)
    case ArgFloat(text) => ReadBare(text)
    case ArgString(str) => BytesValue(str)
    case ArgBytes(bytes) => BytesValue(bytes)
  }

  function Meanings(args: seq<Arg>): seq<Value> {
    seq(|args|, i requires 0 <= i < |args| => Meaning(args[i]))
  }

  lemma IntegerReadsBack(v: int)
    ensures ReadBare(FormatInt(v)) == IntegerValue(v)
  {
    hide Decimal, ReadDecimal;
    if v < 0 {
      DecimalReadsBack(-v);
      assert FormatInt(v)[1..] == Decimal(-v);
    } else {
      DecimalReadsBack(v);
    }
    assert Ascii("NULL")[0] == 78;
  }

  lemma HexIsNoNumber(bytes: seq<byte>)
    ensures ReadBare(HexLiteral(bytes)) == BytesValue(bytes)
  {
    var t := HexLiteral(bytes);
    assert t[1] == 120 && t[0] == 48;
    assert Ascii("NULL")[0] == 78;
    ContentSurvives(ArgBytes(bytes));
  }

  /** Each literal has the value its argument means, whatever the argument. */
  lemma MeaningSurvives(a: Arg)
    ensures ReadLiteral(LiteralOf(a)) == Meaning(a)
  {
    match a
    case ArgNull => assert NULL == Ascii("NULL");
    case ArgBool(flag) => BoolIsANumber(flag);
    case ArgInt(number) => IntegerReadsBack(number);
    case ArgBytes(bytes) => HexIsNoNumber(bytes);
    case _ =>
  }

  lemma BoolIsANumber(flag: bool)
    ensures EncodeArg(ArgBool(flag)) == FormatInt(if flag then 1 else 0)
    ensures ReadBare(EncodeArg(ArgBool(flag))) == IntegerValue(if flag then 1 else 0)
  {
    IntegerReadsBack(if flag then 1 else 0);
  }

  /**
   The server gets the call that was meant: the procedure, and for every argument its value;
   null for null, 1 or 0 for a boolean, the number for an integer of either sign, the bytes
   of a string or a byte array.
   */
  lemma CallMeansItsArguments(name: Text, args: seq<Arg>)
    requires IsValidProcName(name) && FloatsAreBare(args)
    ensures ReadCall(CallSql(name, args)) == Some((name, Meanings(args)))
  {
    hide ScanCall, CallSql, ReadLiteral, LiteralOf, Meaning;
    CallReadsBack(name, args);
    LiteralCount(args);
    var ls := LiteralsOf(args);
    forall i | 0 <= i < |args|
      ensures ReadLiteral(ls[i]) == Meaning(args[i])
    {
      LiteralsByIndex(args, i);
      MeaningSurvives(args[i]);
    }
    assert ReadLiterals(ls) == Meanings(args);
  }

  lemma {:induction false} LiteralsByIndex(args: seq<Arg>, i: nat)
    requires i < |args|
    ensures |LiteralsOf(args)| == |args| && LiteralsOf(args)[i] == LiteralOf(args[i])
    decreases |args|
  {
    if i > 0 {
      LiteralsByIndex(args[1..], i - 1);
    } else if |args| > 1 {
      LiteralsByIndex(args[1..], 0);
    }
  }

  /** So two calls with the same text have the same name and the same arguments, literal for literal. */
  lemma SameTextSameCall(name: Text, args: seq<Arg>, name': Text, args': seq<Arg>, i: nat)
    requires IsValidProcName(name) && FloatsAreBare(args) && IsValidProcName(name') && FloatsAreBare(args')
    requires CallSql(name, args) == CallSql(name', args')
    ensures name == name' && |args| == |args'|
    ensures i < |args| ==> LiteralOf(args[i]) == LiteralOf(args'[i])
    ensures i < |args| && args[i].ArgString? ==> args'[i] == args[i]
    ensures Meanings(args) == Meanings(args')
  {
    hide CallSql, LiteralsOf, ReadCall, Meanings;
    CallReadsBack(name, args);
    CallReadsBack(name', args');
    CallMeansItsArguments(name, args);
    CallMeansItsArguments(name', args');
    LiteralCount(args);
    LiteralCount(args');
    if i < |args| {
      LiteralsByIndex(args, i);
      LiteralsByIndex(args', i);
    }
  }

  lemma {:induction false} LiteralCount(args: seq<Arg>)
    ensures |LiteralsOf(args)| == |args|
  {
    if args != [] {
      LiteralCount(args[1..]);
    }
  }
}
