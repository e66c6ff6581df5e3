/**
 Packet framing: the whole-stream parser, and the proxy's byte-at-a-time framer that
 must agree with it however the stream is cut into chunks.
 */
module Framing {
  import opened Basics
  import opened PacketHeaders

  const COM_QUERY: byte := 3
  const MAX_OBSERVE_PAYLOAD := 4096

  // ------------------------------------------------------ the COMMIT test

  predicate IsWs(b: byte) {
    b == 32 || b == 9 || b == 10 || b == 13
  }

  predicate CiEq(b: byte, upper: byte) {
    b == upper || b == (upper + 32) % 256
  }

  predicate IsCommitWord(t: seq<byte>, i: nat) {
    && i + 6 <= |t|
    && CiEq(t[i], 67) && CiEq(t[i + 1], 79) && CiEq(t[i + 2], 77)
    && CiEq(t[i + 3], 77) && CiEq(t[i + 4], 73) && CiEq(t[i + 5], 84)
  }

  function Upper(b: byte): byte {
    if 97 <= b <= 122 then b - 32 else b
  }

  function Uppered(t: seq<byte>): seq<byte> {
    seq(|t|, i requires 0 <= i < |t| => Upper(t[i]))
  }

  /** The word is COMMIT once its letters are raised, whichever of them were small. */
  lemma CommitWordIsSpelled(t: seq<byte>, i: nat)
    ensures IsCommitWord(t, i) <==> i + 6 <= |t| && Uppered(t[i..i + 6]) == Ascii("COMMIT")
  {
    if i + 6 <= |t| {
      var (u, c) := (Uppered(t[i..i + 6]), Ascii("COMMIT"));
      assert c == [67, 79, 77, 77, 73, 84];
      assert u == [Upper(t[i]), Upper(t[i + 1]), Upper(t[i + 2]), Upper(t[i + 3]), Upper(t[i + 4]), Upper(t[i + 5])];
    }
  }

  /** Blanks are the space, the tab, the newline and the carriage return. */
  lemma BlanksAreSpelled(b: byte)
    ensures IsWs(b) <==> b in Ascii(" \t\n\r")
  {
    var blanks := Ascii(" \t\n\r");
    assert blanks == [32, 9, 10, 13];
  }

  /** Only blanks from `a` up to `b`. */
  predicate Blank(t: seq<byte>, a: nat, b: nat)
    requires a <= b <= |t|
  {
    forall k :: a <= k < b ==> IsWs(t[k])
  }

  /** ws* [; ws*] from `a` to the end. */
  ghost predicate IsTrailer(t: seq<byte>, a: nat)
    requires a <= |t|
  {
    Blank(t, a, |t|) || exists j :: a <= j < |t| && SemicolonAt(t, a, j)
  }

  predicate SemicolonAt(t: seq<byte>, a: nat, j: nat)
    requires a <= j < |t|
  {
    Blank(t, a, j) && t[j] == 59 && Blank(t, j + 1, |t|)
  }

  ghost predicate CommitAt(t: seq<byte>, i: nat) {
    IsCommitWord(t, i) && Blank(t, 0, i) && IsTrailer(t, i + 6)
  }

  /** ws* COMMIT ws* [; ws*] in any letter case. */
  ghost predicate IsCommitText(t: seq<byte>) {
    exists i: nat :: CommitAt(t, i)
  }

  ghost predicate IsCommitPayload(p: seq<byte>) {
    |p| >= 1 && p[0] == COM_QUERY && IsCommitText(p[1..])
  }

  /** How trimming cuts the text at `a .. b`: blanks up to `lo`, blanks from `end`, and
      between them the part `lo .. hi`, followed by at most one semicolon (at `end - 1`)
      after blanks. */
  predicate TrimmedIn(t: seq<byte>, a: nat, b: nat, lo: nat, hi: nat, end: nat) {
    && a <= lo <= hi <= end <= b <= |t|
    && Blank(t, a, lo) && (lo < end ==> !IsWs(t[lo]))
    && Blank(t, end, b) && (lo < end ==> !IsWs(t[end - 1]))
    && if lo < end && t[end - 1] == 59
       then hi < end && Blank(t, hi, end - 1) && (lo < hi ==> !IsWs(t[hi - 1]))
       else hi == end
  }

  predicate Trimmed(t: seq<byte>, lo: nat, hi: nat, end: nat) {
    TrimmedIn(t, 0, |t|, lo, hi, end)
  }

  lemma TrimmedSlice(buf: seq<byte>, a: nat, b: nat, lo: nat, hi: nat, end: nat)
    requires TrimmedIn(buf, a, b, lo, hi, end)
    ensures Trimmed(buf[a..b], lo - a, hi - a, end - a)
    ensures hi == lo + 6 ==> (IsCommitWord(buf[a..b], lo - a) <==> IsCommitWord(buf, lo))
  {}

  lemma TrimmedWord(t: seq<byte>, lo: nat, hi: nat, end: nat)
    requires Trimmed(t, lo, hi, end) && hi == lo + 6 && IsCommitWord(t, lo)
    ensures CommitAt(t, lo)
  {
    if hi < end {
      assert SemicolonAt(t, lo + 6, end - 1);
    }
  }

  lemma CommitIsTrimmed(t: seq<byte>, lo: nat, hi: nat, end: nat, i: nat)
    requires Trimmed(t, lo, hi, end) && CommitAt(t, i)
    ensures i == lo && hi == lo + 6
  {
    assert !IsWs(t[i]) && !IsWs(t[i + 5]) && t[i + 5] != 59;
    assert i == lo;
    if !Blank(t, i + 6, |t|) {
      var j :| i + 6 <= j < |t| && SemicolonAt(t, i + 6, j);
      assert !IsWs(t[j]);
      assert end == j + 1;
    }
  }

  /** Testing what is left after trimming decides the grammar. */
  lemma TrimmingDecides(t: seq<byte>, lo: nat, hi: nat, end: nat)
    requires Trimmed(t, lo, hi, end)
    ensures IsCommitText(t) <==> hi == lo + 6 && IsCommitWord(t, lo)
  {
    if IsCommitText(t) {
      var i: nat :| CommitAt(t, i);
      CommitIsTrimmed(t, lo, hi, end, i);
    }
    if hi == lo + 6 && IsCommitWord(t, lo) {
      TrimmedWord(t, lo, hi, end);
    }
  }

  /** Tests the payload at `start .. start + len` of the buffer. */
  method TestCommitPayload(buf: seq<byte>, start: nat, len: nat) returns (r: bool)
    requires start + len <= |buf|
    ensures r <==> IsCommitPayload(buf[start..start + len])
  {
    if len < 1 {
      return false;
    }
    ghost var payload := buf[start..start + len];
    if buf[start] != COM_QUERY {
      return false;
    }
    var lo := start + 1;
    var hi := start + len;
    while lo < hi && IsWs(buf[lo])
      invariant start + 1 <= lo <= hi && Blank(buf, start + 1, lo)
    {
      lo := lo + 1;
    }
    while hi > lo && IsWs(buf[hi - 1])
      invariant lo <= hi <= start + len && Blank(buf, hi, start + len)
      invariant lo < hi ==> !IsWs(buf[lo])
    {
      hi := hi - 1;
    }
    ghost var end := hi;
    if hi > lo && buf[hi - 1] == 59 {
      hi := hi - 1;
      while hi > lo && IsWs(buf[hi - 1])
        invariant lo <= hi < end && Blank(buf, hi, end - 1)
      {
        hi := hi - 1;
      }
    }
    TrimmedDecidesInBuffer(buf, start, len, lo, hi, end);
    if hi - lo != 6 {
      return false;
    }
    r := && CiEq(buf[lo], 67) && CiEq(buf[lo + 1], 79) && CiEq(buf[lo + 2], 77)
         && CiEq(buf[lo + 3], 77) && CiEq(buf[lo + 4], 73) && CiEq(buf[lo + 5], 84);
  }

  lemma TrimmedDecidesInBuffer(buf: seq<byte>, start: nat, len: nat, lo: nat, hi: nat, end: nat)
    requires len >= 1 && start + len <= |buf| && buf[start] == COM_QUERY
    requires TrimmedIn(buf, start + 1, start + len, lo, hi, end)
    ensures IsCommitPayload(buf[start..start + len]) <==> hi == lo + 6 && IsCommitWord(buf, lo)
  {
    assert buf[start..start + len][1..] == buf[start + 1..start + len];
    TrimmedSlice(buf, start + 1, start + len, lo, hi, end);
    TrimmingDecides(buf[start + 1..start + len], lo - start - 1, hi - start - 1, end - start - 1);
  }

  // ------------------------------------------------------ whole-stream parsing

  /** `s` begins with a complete packet. */
  predicate HasPacket(s: seq<byte>) {
    |s| >= 4 && |s| >= 4 + Declared(s)
  }

  /** The first packet of `s`, and the bytes behind it. */
  function Front(s: seq<byte>): Packet
    requires HasPacket(s)
  {
    Packet(s[3], s[4..4 + Declared(s)])
  }

  function Rest(s: seq<byte>): seq<byte>
    requires HasPacket(s)
  {
    s[4 + Declared(s)..]
  }

  /** The complete packets at the front of `s`. */
  function Packets(s: seq<byte>): seq<Packet>
    decreases |s|
  {
    if HasPacket(s) then [Front(s)] + Packets(Rest(s)) else []
  }

  /** What is left of `s` after its complete packets. */
  function Tail(s: seq<byte>): (t: seq<byte>)
    ensures !HasPacket(t) && |t| <= |s|
    decreases |s|
  {
    if HasPacket(s) then Tail(Rest(s)) else s
  }

  function TotalSize(ps: seq<Packet>): nat {
    if ps == [] then 0 else 4 + |ps[0].payload| + TotalSize(ps[1..])
  }

  /** The end offsets of the COMMIT packets among `ps` with at most `limit` payload bytes;
      the first packet starts at `base`. */
  ghost function CommitEnds(ps: seq<Packet>, base: nat, limit: nat): seq<nat> {
    if ps == [] then []
    else
      var p := ps[0].payload;
      var end := base + 4 + |p|;
      if |p| <= limit && IsCommitPayload(p) then [end] + CommitEnds(ps[1..], end, limit)
      else CommitEnds(ps[1..], end, limit)
  }

  lemma FrontStays(s: seq<byte>, x: seq<byte>)
    requires HasPacket(s)
    ensures HasPacket(s + x) && Front(s + x) == Front(s) && Rest(s + x) == Rest(s) + x
    ensures |s| == 4 + |Front(s).payload| + |Rest(s)|
  {
    assert Declared(s + x) == Declared(s);
  }

  /** Parsing a longer stream continues from the tail of the shorter one. */
  lemma {:induction false} ParseContinues(s: seq<byte>, x: seq<byte>)
    ensures Packets(s + x) == Packets(s) + Packets(Tail(s) + x)
    ensures Tail(s + x) == Tail(Tail(s) + x)
    decreases |s|
  {
    if HasPacket(s) {
      FrontStays(s, x);
      ParseContinues(Rest(s), x);
      ConcatAssociates([Front(s)], Packets(Rest(s)), Packets(Tail(s) + x));
    } else {
      assert Packets(s) == [];
    }
  }

  lemma {:induction false} SizesAddUp(s: seq<byte>)
    ensures |s| == TotalSize(Packets(s)) + |Tail(s)|
    decreases |s|
  {
    if HasPacket(s) {
      FrontStays(s, []);
      SizesAddUp(Rest(s));
      assert Packets(s)[1..] == Packets(Rest(s));
    }
  }

  lemma ConcatAssociates<T>(a: seq<T>, b: seq<T>, c: seq<T>)
    ensures a + (b + c) == (a + b) + c
  {}

  lemma {:induction false} CommitEndsConcat(ps: seq<Packet>, qs: seq<Packet>, base: nat, limit: nat)
    ensures CommitEnds(ps + qs, base, limit)
         == CommitEnds(ps, base, limit) + CommitEnds(qs, base + TotalSize(ps), limit)
  {
    if ps == [] {
      assert ps + qs == qs;
    } else {
      assert (ps + qs)[1..] == ps[1..] + qs;
      CommitEndsConcat(ps[1..], qs, base + 4 + |ps[0].payload|, limit);
    }
  }

  /** Packet `k` is a COMMIT of at most `limit` bytes and ends at `e`. */
  ghost predicate CommitEndsAt(ps: seq<Packet>, base: nat, limit: nat, k: nat, e: nat) {
    && k < |ps| && |ps[k].payload| <= limit && IsCommitPayload(ps[k].payload)
    && e == base + TotalSize(ps[..k + 1])
  }

  lemma CommitEndsAtShift(ps: seq<Packet>, base: nat, limit: nat, k: nat, e: nat)
    requires ps != []
    ensures CommitEndsAt(ps, base, limit, k + 1, e)
       <==> CommitEndsAt(ps[1..], base + 4 + |ps[0].payload|, limit, k, e)
    ensures TotalSize(ps[..1]) == 4 + |ps[0].payload|
  {
    assert ps[..1][1..] == [];
    if k + 1 < |ps| {
      assert ps[..k + 2][1..] == ps[1..][..k + 1];
    }
  }

  /** The ends are exactly the COMMIT packets' ends. */
  lemma {:induction false} CommitEndsAreCommits(ps: seq<Packet>, base: nat, limit: nat, e: nat)
    ensures e in CommitEnds(ps, base, limit) <==> exists k: nat :: CommitEndsAt(ps, base, limit, k, e)
  {
    hide IsCommitPayload, TotalSize;
    if ps != [] {
      var end := base + 4 + |ps[0].payload|;
      CommitEndsAreCommits(ps[1..], end, limit, e);
      CommitEndsAtShift(ps, base, limit, 0, e);
      if e in CommitEnds(ps[1..], end, limit) {
        var k: nat :| CommitEndsAt(ps[1..], end, limit, k, e);
        CommitEndsAtShift(ps, base, limit, k, e);
        assert CommitEndsAt(ps, base, limit, k + 1, e);
      } else if e in CommitEnds(ps, base, limit) {
        assert CommitEndsAt(ps, base, limit, 0, e);
      }
      if k: nat :| CommitEndsAt(ps, base, limit, k, e) && k > 0 {
        CommitEndsAtShift(ps, base, limit, k - 1, e);
      }
    }
  }

  ghost predicate Increasing(es: seq<nat>) {
    forall i, j :: 0 <= i < j < |es| ==> es[i] < es[j]
  }

  /** They come in increasing order. */
  lemma {:induction false} CommitEndsIncrease(ps: seq<Packet>, base: nat, limit: nat)
    ensures forall e :: e in CommitEnds(ps, base, limit) ==> base < e
    ensures Increasing(CommitEnds(ps, base, limit))
  {
    if ps != [] {
      var end := base + 4 + |ps[0].payload|;
      CommitEndsIncrease(ps[1..], end, limit);
      var rest := CommitEnds(ps[1..], end, limit);
      assert forall i :: 0 <= i < |rest| ==> rest[i] in rest;
    }
  }

  /** The framer does not look into payloads over its limit, so it reports every COMMIT
      exactly when no COMMIT is padded beyond that limit. */
  lemma {:induction false} NothingMissedUnlessOversized(ps: seq<Packet>, base: nat, limit: nat)
    requires forall p :: p in ps ==> |p.payload| <= MAX_PAYLOAD_LEN
    requires limit <= MAX_PAYLOAD_LEN
    ensures |CommitEnds(ps, base, limit)| <= |CommitEnds(ps, base, MAX_PAYLOAD_LEN)|
    ensures CommitEnds(ps, base, limit) == CommitEnds(ps, base, MAX_PAYLOAD_LEN) <==>
            forall p :: p in ps && IsCommitPayload(p.payload) ==> |p.payload| <= limit
  {
    if ps != [] {
      var end := base + 4 + |ps[0].payload|;
      NothingMissedUnlessOversized(ps[1..], end, limit);
      assert ps == [ps[0]] + ps[1..];
      var (few, all) := (CommitEnds(ps[1..], end, limit), CommitEnds(ps[1..], end, MAX_PAYLOAD_LEN));
      assert [end] + few == [end] + all ==> ([end] + few)[1..] == ([end] + all)[1..];
    }
  }

  /** Such a COMMIT exists: the word behind enough blanks. */
  lemma PaddedCommitIsMissed() returns (p: seq<byte>)
    ensures IsCommitPayload(p) && MAX_OBSERVE_PAYLOAD < |p| <= MAX_PAYLOAD_LEN
  {
    var t: seq<byte> := seq(4096, i => 32) + [67, 79, 77, 77, 73, 84];
    p := [COM_QUERY] + t;
    assert CommitAt(t, 4096);
    assert p[1..] == t;
  }

  /** A stream is nothing but its packets and its tail, each packet under its header. */
  lemma {:induction false} PacketsAreTheStream(s: seq<byte>)
    ensures s == Unparse(Packets(s)) + Tail(s)
    decreases |s|
  {
    if HasPacket(s) {
      PacketsAreTheStream(Rest(s));
      FrontIsTheStream(s);
      assert Packets(s)[1..] == Packets(Rest(s));
      ConcatAssociates(Framed(Front(s)), Unparse(Packets(Rest(s))), Tail(s));
    }
  }

  lemma FrontIsTheStream(s: seq<byte>)
    requires HasPacket(s)
    ensures s == Framed(Front(s)) + Rest(s)
  {
    HeaderBytes(s);
    assert s == s[..4] + s[4..4 + Declared(s)] + Rest(s);
  }

  function Framed(p: Packet): seq<byte> {
    Header(|p.payload|, p.sequenceId) + p.payload
  }

  function Unparse(ps: seq<Packet>): seq<byte> {
    if ps == [] then []
    else Framed(ps[0]) + Unparse(ps[1..])
  }

  datatype ParseError =
    | TruncatedHeader(offset: nat)
    | NonPlainStream(offset: nat)
    | TruncatedPayload(offset: nat, need: nat, have: nat)

  predicate LooksLikeTls(s: seq<byte>, off: nat) {
    || (off + 5 <= |s| && TlsPrefix(s, off))
    || (off >= 4 && off + 1 <= |s| && TlsPrefix(s, off - 4))
  }

  predicate TlsPrefix(s: seq<byte>, off: nat)
    requires off + 5 <= |s|
  {
    20 <= s[off] <= 23 && s[off + 1] == 3 && s[off + 2] <= 4
  }

  lemma ParseAt(stream: seq<byte>, off: nat)
    requires off + 4 <= |stream|
    ensures var rest := stream[off..];
            var len := stream[off] as int + stream[off + 1] as int * 256 + stream[off + 2] as int * 65536;
            && Declared(rest) == len
            && (off + 4 + len <= |stream| ==>
                  && Packets(rest) == [Packet(stream[off + 3], stream[off + 4..off + 4 + len])]
                                      + Packets(stream[off + 4 + len..])
                  && Tail(rest) == Tail(stream[off + 4 + len..]))
            && (off + 4 + len > |stream| ==> Tail(rest) == rest)
  {
    var rest := stream[off..];
    var len := Declared(rest);
    if off + 4 + len <= |stream| {
      assert rest[4..4 + len] == stream[off + 4..off + 4 + len];
      assert rest[4 + len..] == stream[off + 4 + len..];
    }
  }

  /** `error` names the place where the complete packets of the stream end, and why. */
  predicate Explains(stream: seq<byte>, error: ParseError) {
    var off := |stream| - |Tail(stream)|;
    match error
    case TruncatedHeader(at) => at == off && 0 < |Tail(stream)| < 4
    case NonPlainStream(at) => at == off + 4 && |Tail(stream)| >= 4 && LooksLikeTls(stream, at)
    case TruncatedPayload(at, need, have) =>
      && at == off + 4 && |Tail(stream)| >= 4 && !LooksLikeTls(stream, at)
      && need == Declared(Tail(stream)) && have == |stream| - at && have < need
  }

  /** The whole-stream parser: all packets, or where the stream stops making sense. */
  method Packetize(stream: seq<byte>) returns (r: Result<seq<Packet>, ParseError>)
    ensures r.Ok? <==> Tail(stream) == []
    ensures r.Ok? ==> r.value == Packets(stream)
    ensures r.Err? ==> Explains(stream, r.error)
  {
    hide LooksLikeTls;
    var packets: seq<Packet> := [];
    var off := 0;
    assert stream[0..] == stream;
    while off < |stream|
      invariant 0 <= off <= |stream|
      invariant Packets(stream) == packets + Packets(stream[off..])
      invariant Tail(stream) == Tail(stream[off..])
    {
      if off + 4 > |stream| {
        assert Tail(stream) == stream[off..];
        return Err(TruncatedHeader(off));
      }
      ParseAt(stream, off);
      var len := stream[off] as int + stream[off + 1] as int * 256 + stream[off + 2] as int * 65536;
      if off + 4 + len > |stream| {
        assert Tail(stream) == stream[off..];
        if LooksLikeTls(stream, off + 4) {
          return Err(NonPlainStream(off + 4));
        }
        return Err(TruncatedPayload(off + 4, len, |stream| - off - 4));
      }
      var packet := Packet(stream[off + 3], stream[off + 4..off + 4 + len]);
      off := off + 4 + len;
      ConcatAssociates(packets, [packet], Packets(stream[off..]));
      packets := packets + [packet];
    }
    return Ok(packets);
  }

  // ------------------------------------------------------ the framer

  /** The end of every COMMIT in `s` that is not too long for the framer to look at. */
  ghost function SeenIn(s: seq<byte>): seq<nat> {
    CommitEnds(Packets(s), 0, MAX_OBSERVE_PAYLOAD)
  }

  /** The framer's state stands for an incomplete packet `t`. */
  ghost predicate Represents(buf: seq<byte>, skip: nat, t: seq<byte>) {
    if |t| >= 4 && Declared(t) > MAX_OBSERVE_PAYLOAD
    then buf == [] && skip == 4 + Declared(t) - |t|
    else buf == t && skip == 0
  }

  /** Bytes that do not complete the packet in progress only lengthen the tail. */
  lemma NoPacketYet(history: seq<byte>, x: seq<byte>)
    requires !HasPacket(Tail(history) + x)
    ensures Packets(history + x) == Packets(history)
    ensures Tail(history + x) == Tail(history) + x
  {
    ParseContinues(history, x);
  }

  /** `t` is a complete packet. */
  predicate IsWhole(t: seq<byte>) {
    |t| >= 4 && |t| == 4 + Declared(t)
  }

  /** What a packet `t` ending at `end` adds to the COMMITs seen. */
  ghost function CompletedBy(t: seq<byte>, end: nat): seq<nat> {
    if IsWhole(t) && Declared(t) <= MAX_OBSERVE_PAYLOAD && IsCommitPayload(t[4..]) then [end] else []
  }

  /** Bytes that complete it exactly add one packet, ending at the end of the stream. */
  lemma PacketCompleted(history: seq<byte>, x: seq<byte>)
    requires IsWhole(Tail(history) + x)
    ensures Tail(history + x) == []
    ensures SeenIn(history + x) == SeenIn(history) + CompletedBy(Tail(history) + x, |history| + |x|)
  {
    hide Packets, Tail, CommitEnds, TotalSize;
    ParseContinues(history, x);
    SizesAddUp(history);
    var t := Tail(history) + x;
    OnePacket(t, TotalSize(Packets(history)));
    CommitEndsConcat(Packets(history), Packets(t), 0, MAX_OBSERVE_PAYLOAD);
  }

  lemma OnePacket(t: seq<byte>, base: nat)
    requires IsWhole(t)
    ensures Packets(t) == [Packet(t[3], t[4..])] && Tail(t) == []
    ensures CommitEnds(Packets(t), base, MAX_OBSERVE_PAYLOAD) == CompletedBy(t, base + |t|)
  {
    assert t[4..|t|] == t[4..];
    assert t[|t|..] == [];
    assert Packets(t[|t|..]) == [];
    assert Packets(t)[1..] == [];
    assert CommitEnds([], base + |t|, MAX_OBSERVE_PAYLOAD) == [];
  }

  lemma SkipStep(history: seq<byte>, buf: seq<byte>, skip: nat, x: seq<byte>)
    requires Represents(buf, skip, Tail(history)) && 0 < |x| <= skip
    ensures Represents(buf, skip - |x|, Tail(history + x))
    ensures SeenIn(history + x)
         == SeenIn(history)
  {
    if |x| < skip {
      NoPacketYet(history, x);
    } else {
      PacketCompleted(history, x);
    }
  }

  lemma BufferIsTail(history: seq<byte>, buf: seq<byte>)
    requires Represents(buf, 0, Tail(history))
    ensures buf == Tail(history) && (|buf| >= 4 ==> Declared(buf) <= MAX_OBSERVE_PAYLOAD)
  {}

  /** The framer's state after one more byte of the packet in progress. */
  function Pushed(t: seq<byte>): (seq<byte>, nat) {
    if |t| == 4 && Declared(t) > MAX_OBSERVE_PAYLOAD then ([], Declared(t))
    else if IsWhole(t) then ([], 0)
    else (t, 0)
  }

  lemma SameHeader(t: seq<byte>, b: byte)
    requires |t| >= 4
    ensures Declared(t + [b]) == Declared(t)
  {}

  lemma ByteStepState(history: seq<byte>, buf: seq<byte>, b: byte)
    requires buf == Tail(history) && |buf| < 4 + MAX_OBSERVE_PAYLOAD
    requires |buf| >= 4 ==> Declared(buf) <= MAX_OBSERVE_PAYLOAD
    ensures var (buf', skip') := Pushed(buf + [b]);
            Represents(buf', skip', Tail(history + [b])) && |buf'| < 4 + MAX_OBSERVE_PAYLOAD
  {
    if |buf| >= 4 {
      SameHeader(buf, b);
    }
    if IsWhole(buf + [b]) {
      PacketCompleted(history, [b]);
    } else {
      NotYetComplete(buf, b);
      NoPacketYet(history, [b]);
    }
  }

  lemma ByteStepEnds(history: seq<byte>, buf: seq<byte>, b: byte)
    requires buf == Tail(history)
    ensures SeenIn(history + [b])
         == SeenIn(history) + CompletedBy(buf + [b], |history| + 1)
  {
    if IsWhole(buf + [b]) {
      PacketCompleted(history, [b]);
    } else {
      NotYetComplete(buf, b);
      NoPacketYet(history, [b]);
    }
  }

  lemma NotYetComplete(t: seq<byte>, b: byte)
    requires !HasPacket(t)
    requires !IsWhole(t + [b])
    ensures !HasPacket(t + [b])
  {
    if |t| >= 4 {
      SameHeader(t, b);
    }
  }

  function Shifted(ends: seq<nat>, base: nat): (r: seq<nat>)
    ensures |r| == |ends|
  {
    seq(|ends|, i requires 0 <= i < |ends| => base + ends[i])
  }

  lemma ChunkStep(before: seq<byte>, chunk: seq<byte>, i: nat, j: nat)
    requires i < j <= |chunk|
    ensures before + chunk[..i] + chunk[i..j] == before + chunk[..j]
  {}

  lemma ShiftedPlus(seen: seq<nat>, ends: seq<nat>, e: nat, base: nat)
    ensures seen + Shifted(ends + [e], base) == seen + Shifted(ends, base) + [base + e]
  {
    assert Shifted(ends + [e], base) == Shifted(ends, base) + [base + e];
  }

  class PacketFramer {
    var buf: seq<byte>
    var skip: nat
    /** Every byte fed so far, and the end of every COMMIT reported. */
    ghost var history: seq<byte>
    ghost var seen: seq<nat>

    /** Whatever the chunking was, the reports are what the whole-stream parser finds. */
    ghost predicate Valid()
      reads this
    {
      && Represents(buf, skip, Tail(history)) && |buf| < 4 + MAX_OBSERVE_PAYLOAD
      && seen == SeenIn(history)
    }

    constructor ()
      ensures Valid() && history == [] && seen == []
    {
      buf, skip, history, seen := [], 0, [], [];
    }

    /** Discards `take` bytes of an oversized payload. */
    method Discard(take: nat, ghost x: seq<byte>)
      requires Valid() && 0 < take <= skip && |x| == take
      modifies this
      ensures Valid() && history == old(history) + x && seen == old(seen)
    {
      SkipStep(history, buf, skip, x);
      history := history + x;
      skip := skip - take;
    }

    /** Buffers one byte; true if it completes a COMMIT. */
    method Push(b: byte) returns (found: bool)
      requires Valid() && skip == 0
      modifies this
      ensures Valid() && history == old(history) + [b]
      ensures seen == old(seen) + if found then [|history|] else []
    {
      hide SeenIn, Tail, IsCommitPayload, HasPacket;
      BufferIsTail(history, buf);
      ByteStepState(history, buf, b);
      ByteStepEnds(history, buf, b);
      buf := buf + [b];
      history := history + [b];
      seen := seen + CompletedBy(buf, |history|);
      found := false;
      if |buf| >= 4 {
        var len := buf[0] as int + buf[1] as int * 256 + buf[2] as int * 65536;
        if |buf| == 4 && len > MAX_OBSERVE_PAYLOAD {
          skip := len;
          buf := [];
        } else {
          var total := 4 + len;
          if |buf| == total {
            assert buf[4..4 + len] == buf[4..];
            found := TestCommitPayload(buf, 4, len);
            buf := [];
          }
        }
      }
    }

    /** One round of the feeding loop, from offset `i` to offset `j` of the chunk. */
    method Advance(chunk: seq<byte>, i: nat, n: nat) returns (j: nat, found: bool)
      requires Valid() && i < n <= |chunk|
      modifies this
      ensures Valid() && i < j <= n && history == old(history) + chunk[i..j]
      ensures seen == old(seen) + if found then [|history|] else []
    {
      if skip > 0 {
        var take := skip;
        var avail := n - i;
        if avail < take {
          take := avail;
        }
        Discard(take, chunk[i..i + take]);
        j, found := i + take, false;
      } else {
        assert chunk[i..i + 1] == [chunk[i]];
        found := Push(chunk[i]);
        j := i + 1;
      }
    }

    /** Reports the chunk-relative end of every COMMIT packet completed by this chunk:
        joined to all earlier reports, exactly those the whole-stream parser finds. */
    method FeedAndLocateCommits(chunk: seq<byte>, n: nat) returns (commits: nat, commitEnds: seq<nat>)
      requires Valid() && n <= |chunk|
      modifies this
      ensures Valid() && history == old(history) + chunk[..n]
      ensures commits == |commitEnds|
      ensures seen == old(seen) + Shifted(commitEnds, |old(history)|)
      ensures forall i :: 0 <= i < commits ==> 0 < commitEnds[i] <= n
    {
      commits, commitEnds := 0, [];
      var i := 0;
      ghost var (before, seenBefore) := (history, seen);
      while i < n
        invariant 0 <= i <= n && Valid()
        invariant history == before + chunk[..i]
        invariant commits == |commitEnds|
        invariant seen == seenBefore + Shifted(commitEnds, |before|)
        invariant forall k :: 0 <= k < commits ==> 0 < commitEnds[k] <= i
      {
        var j, found := Advance(chunk, i, n);
        ChunkStep(before, chunk, i, j);
        i := j;
        if found {
          ShiftedPlus(seenBefore, commitEnds, i, |before|);
          commits := commits + 1;
          commitEnds := commitEnds + [i];
        }
      }
    }
  }
}
