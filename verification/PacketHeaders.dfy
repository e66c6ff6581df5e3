/** The 4-byte header in front of every packet: payload length and sequence id. */
module PacketHeaders {
  import opened Basics

  /** The longest payload a header can declare. */
  const MAX_PAYLOAD_LEN := 16777215

  datatype Packet = Packet(sequenceId: byte, payload: seq<byte>)

  function Header(len: nat, seqId: byte): seq<byte> {
    [len % 256, (len / 256) % 256, (len / 65536) % 256, seqId]
  }

  /** The payload length a header declares. */
  function Declared(h: seq<byte>): nat
    requires |h| >= 3
  {
    h[0] as int + h[1] as int * 256 + h[2] as int * 65536
  }

  /** Reading a header back gives the length written. */
  lemma HeaderDeclares(len: nat, seqId: byte)
    requires len <= MAX_PAYLOAD_LEN
    ensures Declared(Header(len, seqId)) == len && Header(len, seqId)[3] == seqId
  {
    var (a, b) := (len % 256, len / 256);
    assert len == a + 256 * b;
    assert len / 65536 == b / 256;
  }

  /** Writing back what a header says reproduces it. */
  lemma HeaderBytes(s: seq<byte>)
    requires |s| >= 4
    ensures Header(Declared(s), s[3]) == s[..4]
  {
    ThreeDigits(s[0], s[1], s[2]);
  }

  lemma ThreeDigits(a: int, b: int, c: int)
    requires 0 <= a < 256 && 0 <= b < 256 && 0 <= c < 256
    ensures var n := a + b * 256 + c * 65536;
            n % 256 == a && (n / 256) % 256 == b && (n / 65536) % 256 == c
  {
    var n := a + b * 256 + c * 65536;
    assert n / 256 == b + c * 256;
    assert n / 65536 == c;
  }
}
