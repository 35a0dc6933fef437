/**
 * The two header layouts on the wire and the tag that chooses between them.
 *
 * Flags are put into a 16-bit word by shifting and or-ing single bits into disjoint places; the word is
 * written here as the sum of those shifted bits, and reading a bit back as a division and a remainder.
 */
module PacketFormat {
  import opened Chunking

  datatype Option<+T> = None | Some(value: T)

  datatype PacketSaw = PacketSaw(
    sequenceNumber: int, isAck: bool, isSyn: bool, isFin: bool, port: int, payloadLength: int, data: Bytes)

  datatype PacketGbn = PacketGbn(
    sequenceNumber: int, ackNumber: int, isAck: bool, isSyn: bool, isFin: bool, port: int, payloadLength: int,
    data: Bytes)

  /** What the parser returns: a packet together with the protocol its tag names. */
  datatype Parsed = Saw(saw: PacketSaw) | Gbn(gbn: PacketGbn)

  const MAX_USHORT: nat := 0x1_0000
  const MAX_UINT: nat := 0x1_0000_0000

  function Bit(b: bool): nat { if b then 1 else 0 }

  /** Whether bit `weight` (a power of two) of `word` is set. */
  predicate HasBit(word: nat, weight: nat)
    requires weight > 0
  {
    word / weight % 2 == 1
  }

  /** Python's slice, which stops at the end of the sequence instead of failing. */
  function Slice(bs: Bytes, lo: nat, hi: nat): Bytes {
    if lo >= |bs| || hi <= lo then [] else if hi <= |bs| then bs[lo..hi] else bs[lo..]
  }

  /** Big-endian bytes to an integer, for any number of bytes. */
  function FromBytes(bs: Bytes): nat {
    if bs == [] then 0 else FromBytes(bs[..|bs| - 1]) * 256 + bs[|bs| - 1]
  }

  function UShort(n: nat): Bytes
    requires n < MAX_USHORT
  {
    [n / 256, n % 256]
  }

  function UInt(n: nat): Bytes
    requires n < MAX_UINT
  {
    UShort(n / MAX_USHORT) + UShort(n % MAX_USHORT)
  }

  function SawFlags(p: PacketSaw): nat {
    Bit(p.sequenceNumber == 1) * 0x2000 + Bit(p.isAck) * 0x1000 + Bit(p.isSyn) * 0x800 + Bit(p.isFin) * 0x400
  }

  function GbnFlags(p: PacketGbn): nat {
    0x4000 + Bit(p.isAck) * 0x2000 + Bit(p.isSyn) * 0x1000 + Bit(p.isFin) * 0x800
  }

  /** `None` is the error that packing raises when a field does not fit. */
  function ComposeSaw(p: PacketSaw): Option<Bytes> {
    if 0 <= p.port < MAX_USHORT && 0 <= p.payloadLength < MAX_USHORT
    then Some(UShort(SawFlags(p)) + UShort(p.port) + UShort(p.payloadLength) + p.data)
    else None
  }

  function ComposeGbn(p: PacketGbn): Option<Bytes> {
    if 0 <= p.port < MAX_USHORT && 0 <= p.payloadLength < MAX_UINT
       && 0 <= p.sequenceNumber < MAX_UINT && 0 <= p.ackNumber < MAX_UINT
    then Some(UShort(GbnFlags(p)) + UShort(p.port) + UInt(p.payloadLength)
              + UInt(p.sequenceNumber) + UInt(p.ackNumber) + p.data)
    else None
  }

  function Compose(p: Parsed): Option<Bytes> {
    match p
    case Saw(saw) => ComposeSaw(saw)
    case Gbn(gbn) => ComposeGbn(gbn)
  }

  function ParseSaw(header: nat, raw: Bytes): PacketSaw {
    var payloadLength := FromBytes(Slice(raw, 4, 6));
    PacketSaw(
      if HasBit(header, 0x2000) then 1 else 0,
      HasBit(header, 0x1000), HasBit(header, 0x800), HasBit(header, 0x400),
      FromBytes(Slice(raw, 2, 4)), payloadLength, Slice(raw, 6, 6 + payloadLength))
  }

  function ParseGbn(header: nat, raw: Bytes): PacketGbn {
    var payloadLength := FromBytes(Slice(raw, 4, 8));
    PacketGbn(
      FromBytes(Slice(raw, 8, 12)), FromBytes(Slice(raw, 12, 16)),
      HasBit(header, 0x2000), HasBit(header, 0x1000), HasBit(header, 0x800),
      FromBytes(Slice(raw, 2, 4)), payloadLength, Slice(raw, 16, 16 + payloadLength))
  }

  /** Parsing is total: any byte string, however short, is read as one of the two packets. */
  function Parse(raw: Bytes): Parsed {
    var header := FromBytes(Slice(raw, 0, 2));
    if header / 0x4000 % 4 == 1 then Gbn(ParseGbn(header, raw)) else Saw(ParseSaw(header, raw))
  }

  // ----- integers and bytes

  lemma FromBytesUShort(b0: byte, b1: byte)
    ensures FromBytes([b0, b1]) == b0 * 256 + b1
  {
    assert [b0, b1][..1] == [b0];
    assert FromBytes([b0]) == b0;
  }

  lemma FromBytesUInt(b0: byte, b1: byte, b2: byte, b3: byte)
    ensures FromBytes([b0, b1, b2, b3]) == ((b0 * 256 + b1) * 256 + b2) * 256 + b3
  {
    FromBytesUShort(b0, b1);
    assert [b0, b1, b2][..2] == [b0, b1];
    assert [b0, b1, b2, b3][..3] == [b0, b1, b2];
  }

  lemma UShortRoundTrip(n: nat)
    requires n < MAX_USHORT
    ensures FromBytes(UShort(n)) == n
  {
    FromBytesUShort(n / 256, n % 256);
  }

  lemma UIntRoundTrip(n: nat)
    requires n < MAX_UINT
    ensures FromBytes(UInt(n)) == n
  {
    var hi, lo := n / MAX_USHORT, n % MAX_USHORT;
    assert UInt(n) == [hi / 256, hi % 256, lo / 256, lo % 256];
    FromBytesUInt(hi / 256, hi % 256, lo / 256, lo % 256);
  }

  lemma UShortOfBytes(bs: Bytes)
    requires |bs| == 2
    ensures FromBytes(bs) < MAX_USHORT && UShort(FromBytes(bs)) == bs
  {
    assert bs == [bs[0], bs[1]];
    FromBytesUShort(bs[0], bs[1]);
  }

  lemma UIntOfBytes(bs: Bytes)
    requires |bs| == 4
    ensures FromBytes(bs) < MAX_UINT && UInt(FromBytes(bs)) == bs
  {
    assert bs == [bs[0], bs[1], bs[2], bs[3]];
    FromBytesUInt(bs[0], bs[1], bs[2], bs[3]);
    var b0: int, b1: int, b2: int, b3: int := bs[0], bs[1], bs[2], bs[3];
    var hi, lo := b0 * 256 + b1, b2 * 256 + b3;
    var n := FromBytes(bs);
    assert n == hi * MAX_USHORT + lo;
    assert n / MAX_USHORT == hi && n % MAX_USHORT == lo;
  }

  // ----- parsing what was composed

  /** The sequence number of a stop-and-wait packet is one bit; the data must not be longer than announced. */
  predicate FieldsSurviveSaw(p: PacketSaw) {
    (p.sequenceNumber == 0 || p.sequenceNumber == 1) && |p.data| <= p.payloadLength
  }

  predicate FieldsSurviveGbn(p: PacketGbn) {
    |p.data| <= p.payloadLength
  }

  lemma SawFlagBits(p: PacketSaw)
    ensures var flags := SawFlags(p);
            && flags < 0x4000
            && HasBit(flags, 0x2000) == (p.sequenceNumber == 1) && HasBit(flags, 0x1000) == p.isAck
            && HasBit(flags, 0x800) == p.isSyn && HasBit(flags, 0x400) == p.isFin
  {
  }

  lemma GbnFlagBits(p: PacketGbn)
    ensures var flags := GbnFlags(p);
            && flags / 0x4000 == 1
            && HasBit(flags, 0x2000) == p.isAck && HasBit(flags, 0x1000) == p.isSyn && HasBit(flags, 0x800) == p.isFin
  {
  }

  /** Where the header fields of a composed packet lie. */
  lemma SawSlices(p: PacketSaw)
    requires ComposeSaw(p).Some?
    ensures var raw := ComposeSaw(p).value;
            && Slice(raw, 0, 2) == UShort(SawFlags(p))
            && Slice(raw, 2, 4) == UShort(p.port)
            && Slice(raw, 4, 6) == UShort(p.payloadLength)
  {
  }

  lemma GbnSlices(p: PacketGbn)
    requires ComposeGbn(p).Some?
    ensures var raw := ComposeGbn(p).value;
            && Slice(raw, 0, 2) == UShort(GbnFlags(p))
            && Slice(raw, 2, 4) == UShort(p.port)
            && Slice(raw, 4, 8) == UInt(p.payloadLength)
            && Slice(raw, 8, 12) == UInt(p.sequenceNumber)
            && Slice(raw, 12, 16) == UInt(p.ackNumber)
  {
  }

  function Octet(raw: Bytes, at: nat): int
    requires at < |raw|
  {
    raw[at]
  }

  /** Byte by byte: two flag bytes, then port and length, the higher byte first, then the data. */
  lemma SawLayout(p: PacketSaw)
    requires ComposeSaw(p).Some?
    ensures var raw := ComposeSaw(p).value;
            && |raw| == 6 + |p.data| && raw[6..] == p.data && Octet(raw, 1) == 0
            && Octet(raw, 0) == (if p.sequenceNumber == 1 then 32 else 0) + (if p.isAck then 16 else 0)
                         + (if p.isSyn then 8 else 0) + (if p.isFin then 4 else 0)
            && Octet(raw, 2) * 256 + Octet(raw, 3) == p.port && Octet(raw, 4) * 256 + Octet(raw, 5) == p.payloadLength
  {
    var raw := ComposeSaw(p).value;
    assert raw[..6] == UShort(SawFlags(p)) + UShort(p.port) + UShort(p.payloadLength);
  }

  /** In go-back-N the tag is 64, and length, sequence and acknowledgement number take four bytes each. */
  lemma GbnLayout(p: PacketGbn)
    requires ComposeGbn(p).Some?
    ensures var raw := ComposeGbn(p).value;
            && |raw| == 16 + |p.data| && raw[16..] == p.data && Octet(raw, 1) == 0
            && Octet(raw, 0)
               == 64 + (if p.isAck then 32 else 0) + (if p.isSyn then 16 else 0) + (if p.isFin then 8 else 0)
            && Octet(raw, 2) * 256 + Octet(raw, 3) == p.port
            && ((Octet(raw, 4) * 256 + Octet(raw, 5)) * 256 + Octet(raw, 6)) * 256 + Octet(raw, 7) == p.payloadLength
            && ((Octet(raw, 8) * 256 + Octet(raw, 9)) * 256 + Octet(raw, 10)) * 256 + Octet(raw, 11) == p.sequenceNumber
            && ((Octet(raw, 12) * 256 + Octet(raw, 13)) * 256 + Octet(raw, 14)) * 256 + Octet(raw, 15) == p.ackNumber
  {
    var raw := ComposeGbn(p).value;
    assert raw[..16] == UShort(GbnFlags(p)) + UShort(p.port) + UInt(p.payloadLength)
                        + UInt(p.sequenceNumber) + UInt(p.ackNumber);
    UIntBytes(p.payloadLength);
    UIntBytes(p.sequenceNumber);
    UIntBytes(p.ackNumber);
    assert raw[4..8] == UInt(p.payloadLength) && raw[8..12] == UInt(p.sequenceNumber);
    assert raw[12..16] == UInt(p.ackNumber);
  }

  lemma UIntBytes(n: nat)
    requires n < MAX_UINT
    ensures var bs := UInt(n);
            |bs| == 4 && ((Octet(bs, 0) * 256 + Octet(bs, 1)) * 256 + Octet(bs, 2)) * 256 + Octet(bs, 3) == n
  {
    var hi, lo := n / MAX_USHORT, n % MAX_USHORT;
    assert UInt(n) == [hi / 256, hi % 256, lo / 256, lo % 256];
  }

  /** With its headers, 60 bytes of IP and 8 of UDP, a full chunk fills 1500 bytes, and no chunk more. */
  lemma ChunksFillTheMtu(saw: PacketSaw, gbn: PacketGbn)
    requires ComposeSaw(saw).Some? && ComposeGbn(gbn).Some?
    ensures |saw.data| <= FILE_CHUNK_SIZE_SAW <==> |ComposeSaw(saw).value| + 60 + 8 <= 1500
    ensures |gbn.data| <= FILE_CHUNK_SIZE_GBN <==> |ComposeGbn(gbn).value| + 60 + 8 <= 1500
  {
    SawLayout(saw);
    GbnLayout(gbn);
  }

  /** Which fields come back from the wire, for every packet that can be composed. */
  lemma SawFieldsOnWire(p: PacketSaw)
    requires ComposeSaw(p).Some?
    ensures Parse(ComposeSaw(p).value)
            == Saw(p.(sequenceNumber := if p.sequenceNumber == 1 then 1 else 0,
                      data := p.data[..Min(|p.data|, p.payloadLength)]))
  {
    var raw := ComposeSaw(p).value;
    var flags := SawFlags(p);
    SawSlices(p);
    SawFlagBits(p);
    UShortRoundTrip(flags);
    UShortRoundTrip(p.port);
    UShortRoundTrip(p.payloadLength);
    assert Slice(raw, 6, 6 + p.payloadLength) == p.data[..Min(|p.data|, p.payloadLength)];
  }

  lemma GbnFieldsOnWire(p: PacketGbn)
    requires ComposeGbn(p).Some?
    ensures Parse(ComposeGbn(p).value) == Gbn(p.(data := p.data[..Min(|p.data|, p.payloadLength)]))
  {
    var raw := ComposeGbn(p).value;
    var flags := GbnFlags(p);
    GbnSlices(p);
    GbnFlagBits(p);
    UShortRoundTrip(flags);
    UShortRoundTrip(p.port);
    UIntRoundTrip(p.payloadLength);
    UIntRoundTrip(p.sequenceNumber);
    UIntRoundTrip(p.ackNumber);
    assert Slice(raw, 16, 16 + p.payloadLength) == p.data[..Min(|p.data|, p.payloadLength)];
  }

  /**
   * A composed packet parses back to itself, fields and protocol, exactly when its fields survive: in both
   * layouts the data may be no longer than the announced length, and stop-and-wait has a one-bit number.
   */
  lemma ComposedPacketParsesBack(p: Parsed)
    requires Compose(p).Some?
    ensures Parse(Compose(p).value) == p
            <==> (match p case Saw(saw) => FieldsSurviveSaw(saw) case Gbn(gbn) => FieldsSurviveGbn(gbn))
  {
    match p {
      case Saw(saw) =>
        SawFieldsOnWire(saw);
        assert |saw.data| <= saw.payloadLength ==> saw.data[..Min(|saw.data|, saw.payloadLength)] == saw.data;
      case Gbn(gbn) =>
        GbnFieldsOnWire(gbn);
        assert |gbn.data| <= gbn.payloadLength ==> gbn.data[..Min(|gbn.data|, gbn.payloadLength)] == gbn.data;
    }
  }

  // ----- composing what was parsed

  /** Byte strings that some packet composes to. */
  predicate Canonical(raw: Bytes) {
    var header := FromBytes(Slice(raw, 0, 2));
    if header / 0x4000 % 4 == 1 then
      && |raw| >= GBN_PROTOCOL_HEADER_SIZE
      && header % 0x800 == 0
      && |raw| <= GBN_PROTOCOL_HEADER_SIZE + FromBytes(Slice(raw, 4, 8))
    else
      && header / 0x4000 % 4 == 0
      && |raw| >= SAW_PROTOCOL_HEADER_SIZE
      && header % 0x400 == 0
      && |raw| <= SAW_PROTOCOL_HEADER_SIZE + FromBytes(Slice(raw, 4, 6))
  }

  lemma {:induction false} FromBytesBound(bs: Bytes)
    ensures |bs| <= 2 ==> FromBytes(bs) < MAX_USHORT
    ensures |bs| <= 4 ==> FromBytes(bs) < MAX_UINT
  {
    if |bs| == 1 {
      assert bs[..0] == [];
    } else if |bs| == 2 {
      UShortOfBytes(bs);
    } else if |bs| == 3 {
      UShortOfBytes(bs[..2]);
    } else if |bs| == 4 {
      UIntOfBytes(bs);
    }
  }

  /** Whatever was parsed can be composed again. */
  lemma ParsedIsComposable(raw: Bytes)
    ensures Compose(Parse(raw)).Some?
  {
    FromBytesBound(Slice(raw, 2, 4));
    FromBytesBound(Slice(raw, 4, 6));
    FromBytesBound(Slice(raw, 4, 8));
    FromBytesBound(Slice(raw, 8, 12));
    FromBytesBound(Slice(raw, 12, 16));
  }

  lemma SawWordFromBits(header: nat)
    requires header < 0x4000 && header % 0x400 == 0
    ensures header == Bit(HasBit(header, 0x2000)) * 0x2000 + Bit(HasBit(header, 0x1000)) * 0x1000
                      + Bit(HasBit(header, 0x800)) * 0x800 + Bit(HasBit(header, 0x400)) * 0x400
  {
  }

  lemma GbnWordFromBits(header: nat)
    requires 0x4000 <= header < 0x8000 && header % 0x800 == 0
    ensures header == 0x4000 + Bit(HasBit(header, 0x2000)) * 0x2000 + Bit(HasBit(header, 0x1000)) * 0x1000
                      + Bit(HasBit(header, 0x800)) * 0x800
  {
  }

  lemma CanonicalSawRecomposes(raw: Bytes)
    requires Canonical(raw) && Parse(raw).Saw?
    ensures Compose(Parse(raw)) == Some(raw)
  {
    ParsedIsComposable(raw);
    var header := FromBytes(Slice(raw, 0, 2));
    UShortOfBytes(raw[0..2]);
    UShortOfBytes(raw[2..4]);
    UShortOfBytes(raw[4..6]);
    SawWordFromBits(header);
    var p := ParseSaw(header, raw);
    assert SawFlags(p) == header;
    assert p.data == raw[6..];
    assert raw == raw[0..2] + raw[2..4] + raw[4..6] + raw[6..];
  }

  lemma CanonicalGbnRecomposes(raw: Bytes)
    requires Canonical(raw) && Parse(raw).Gbn?
    ensures Compose(Parse(raw)) == Some(raw)
  {
    ParsedIsComposable(raw);
    var header := FromBytes(Slice(raw, 0, 2));
    UShortOfBytes(raw[0..2]);
    UShortOfBytes(raw[2..4]);
    UIntOfBytes(raw[4..8]);
    UIntOfBytes(raw[8..12]);
    UIntOfBytes(raw[12..16]);
    GbnWordFromBits(header);
    var p := ParseGbn(header, raw);
    assert GbnFlags(p) == header;
    assert p.data == raw[16..];
    assert raw == raw[0..2] + raw[2..4] + raw[4..8] + raw[8..12] + raw[12..16] + raw[16..];
  }

  lemma ComposedIsCanonical(p: Parsed)
    requires Compose(p).Some?
    requires match p case Saw(saw) => FieldsSurviveSaw(saw) case Gbn(gbn) => FieldsSurviveGbn(gbn)
    ensures Canonical(Compose(p).value)
  {
    var raw := Compose(p).value;
    match p {
      case Saw(saw) =>
        assert Slice(raw, 0, 2) == UShort(SawFlags(saw));
        assert Slice(raw, 4, 6) == UShort(saw.payloadLength);
        UShortRoundTrip(SawFlags(saw));
        UShortRoundTrip(saw.payloadLength);
      case Gbn(gbn) =>
        assert Slice(raw, 0, 2) == UShort(GbnFlags(gbn));
        assert Slice(raw, 4, 8) == UInt(gbn.payloadLength);
        UShortRoundTrip(GbnFlags(gbn));
        UIntRoundTrip(gbn.payloadLength);
    }
  }

  /** Composing a parsed byte string gives the same bytes back exactly when the string is canonical. */
  lemma ParsedBytesComposeBack(raw: Bytes)
    ensures Compose(Parse(raw)) == Some(raw) <==> Canonical(raw)
  {
    ParsedIsComposable(raw);
    if Canonical(raw) {
      if Parse(raw).Saw? { CanonicalSawRecomposes(raw); } else { CanonicalGbnRecomposes(raw); }
    }
    if Compose(Parse(raw)) == Some(raw) {
      ComposedPacketParsesBack(Parse(raw));
      ComposedIsCanonical(Parse(raw));
    }
  }
}
