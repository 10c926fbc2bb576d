/** The protocol headers of Headers.h as bytes.

    A header is a C record of a 4-byte `int hlp`, an `otherInfo` array and a 4-byte `int length`,
    with no padding.  Integers are stored as the host stores them (two's complement, least
    significant byte first); both ends of the wire run on the same host. */
module Headers {
  import Ints

  type byte = b: int | 0 <= b < 256
  type int32 = Ints.int32
  type Bytes = seq<byte>

  const IP_ID: int32 := 2
  const TCP_ID: int32 := 3
  const UDP_ID: int32 := 4

  datatype App = Ftp | Telnet | Rdp | Dns

  /** The four kinds of layer; the outermost header on the wire is Eth. */
  datatype Layer = Eth | Ip | Tcp | Udp | AppLayer(app: App)

  function AppId(a: App): int32 {
    match a case Ftp => 5 case Telnet => 6 case Rdp => 7 case Dns => 8
  }

  function TransportOf(a: App): Layer {
    if a.Ftp? || a.Telnet? then Tcp else Udp
  }

  function TransportId(a: App): int32 {
    if TransportOf(a).Tcp? then TCP_ID else UDP_ID
  }

  /** The size of the `otherInfo` array of each header record. */
  function InfoSize(l: Layer): nat {
    match l
    case Eth => 8
    case Ip => 12
    case Tcp => 4
    case Udp => 4
    case AppLayer(a) => if a.Rdp? then 12 else 8
  }

  /** sizeof of the header record. */
  function HeaderSize(l: Layer): nat {
    InfoSize(l) + 8
  }

  datatype Header = Header(hlp: int32, otherInfo: Bytes, length: int32)

  function IntBytes(v: int32): (b: Bytes)
    ensures |b| == 4
  {
    var u := if v < 0 then v + 0x1_0000_0000 else v;
    [u % 0x100, u / 0x100 % 0x100, u / 0x1_0000 % 0x100, u / 0x100_0000]
  }

  /** The unsigned reading of four bytes. */
  function Word(b: Bytes): (u: int)
    requires |b| == 4
    ensures 0 <= u < 0x1_0000_0000
  {
    var b0: int, b1: int, b2: int, b3: int := b[0], b[1], b[2], b[3];
    b0 + 0x100 * b1 + 0x1_0000 * b2 + 0x100_0000 * b3
  }

  function BytesInt(b: Bytes): int32
    requires |b| == 4
  {
    var u := Word(b);
    if u >= 0x8000_0000 then u - 0x1_0000_0000 else u
  }

  lemma IntRoundTrip(v: int32)
    ensures BytesInt(IntBytes(v)) == v
  {
    var u := if v < 0 then v + 0x1_0000_0000 else v;
    assert u / 0x1_0000 == u / 0x100 / 0x100;
    assert u / 0x100_0000 == u / 0x1_0000 / 0x100;
  }

  lemma BytesRoundTrip(b: Bytes)
    requires |b| == 4
    ensures IntBytes(BytesInt(b)) == b
  {
    var u := Word(b);
    var b1: int, b2: int, b3: int := b[1], b[2], b[3];
    assert u / 0x100 == b1 + 0x100 * b2 + 0x1_0000 * b3;
    assert u / 0x1_0000 == b2 + 0x100 * b3;
    assert u / 0x100_0000 == b[3];
  }

  function Encode(h: Header): (b: Bytes)
    ensures |b| == |h.otherInfo| + 8
  {
    IntBytes(h.hlp) + h.otherInfo + IntBytes(h.length)
  }

  function Decode(b: Bytes): Header
    requires |b| >= 8
  {
    Header(BytesInt(b[..4]), b[4..|b| - 4], BytesInt(b[|b| - 4..]))
  }

  /** The value of four bytes, least significant first, is the integer modulo 2^32. */
  predicate Shows(b: Bytes, v: int32) {
    |b| == 4 && (b[0] + 0x100 * b[1] + 0x1_0000 * b[2] + 0x100_0000 * b[3] - v) % 0x1_0000_0000 == 0
  }

  lemma IntBytesShow(v: int32)
    ensures Shows(IntBytes(v), v)
  {
    var u := if v < 0 then v + 0x1_0000_0000 else v;
    assert u / 0x1_0000 == u / 0x100 / 0x100;
    assert u / 0x100_0000 == u / 0x1_0000 / 0x100;
  }

  /** The layout of a header record: `hlp` first, `length` last, `otherInfo` between them. */
  lemma Layout(h: Header)
    ensures var b, n := Encode(h), |h.otherInfo|;
            |b| == 4 + n + 4 && Shows(b[..4], h.hlp) && b[4..4 + n] == h.otherInfo && Shows(b[4 + n..], h.length)
  {
    var b, n := Encode(h), |h.otherInfo|;
    IntBytesShow(h.hlp);
    IntBytesShow(h.length);
    assert b[..4] == IntBytes(h.hlp) && b[4..4 + n] == h.otherInfo && b[4 + n..] == IntBytes(h.length);
  }

  /** A small non-negative integer is its own first byte. */
  lemma SmallBytes(v: int32)
    requires 0 <= v < 256
    ensures IntBytes(v) == [v, 0, 0, 0]
  {
  }

  lemma DecodeEncode(h: Header)
    ensures Decode(Encode(h)) == h
  {
    var b := Encode(h);
    assert b[..4] == IntBytes(h.hlp);
    assert b[4..|b| - 4] == h.otherInfo;
    assert b[|b| - 4..] == IntBytes(h.length);
    IntRoundTrip(h.hlp);
    IntRoundTrip(h.length);
  }

  lemma EncodeDecode(b: Bytes)
    requires |b| >= 8
    ensures Encode(Decode(b)) == b
  {
    BytesRoundTrip(b[..4]);
    BytesRoundTrip(b[|b| - 4..]);
    assert b == b[..4] + b[4..|b| - 4] + b[|b| - 4..];
  }
}
