/** The part of SLAMTEC's RPLIDAR serial protocol the host uses: the 7-byte
    response descriptor that answers the SCAN request (A5 20) and the 5-byte
    measurement records that follow it. */
module Rplidar {
  import opened Wrappers

  /** A byte as Python's `bytes` indexing yields it.  The source's bit
      operations on non-negative values are written arithmetically:
      `b & 0x01` is `b % 2`, `(b >> 2) & 0x3F` is `b / 4 % 64` for a byte,
      `w >> 1` is `w / 2`, and `w & 0x3FFFFFFF` is `w % 0x4000_0000`. */
  newtype Byte = x: int | 0 <= x < 256

  const PacketSize: nat := 5
  const DescriptorSize: nat := 7
  /** `& 0x3FFFFFFF` keeps the low 30 bits of the descriptor's length word. */
  const LengthModulus: nat := 0x4000_0000

  /** One measurement, in protocol units: quality 0..63, angle in 1/64
      degree, distance in 1/4 mm. */
  datatype Measurement = Measurement(startFlag: bool, quality: int, angleQ6: int, distanceQ2: int)

  predicate InRange(m: Measurement) {
    0 <= m.quality < 64 && 0 <= m.angleQ6 < 0x8000 && 0 <= m.distanceQ2 < 0x1_0000
  }

  /** `struct.unpack('<H', ...)` */
  function LeU16(lo: Byte, hi: Byte): (w: nat)
    ensures w < 0x1_0000
  {
    hi as nat * 0x100 + lo as nat
  }

  /** `struct.unpack('<I', ...)` */
  function LeU32(b0: Byte, b1: Byte, b2: Byte, b3: Byte): (w: nat)
    ensures w < 0x1_0000_0000
  {
    b3 as nat * 0x100_0000 + b2 as nat * 0x1_0000 + b1 as nat * 0x100 + b0 as nat
  }

  /** Decoding one 5-byte record: start flag in bit 0 of byte 0, quality in
      bits 2..7, angle in the upper 15 bits of the first little-endian word,
      distance in the second word. */
  function DecodeMeasurement(data: seq<Byte>): (m: Measurement)
    requires |data| == PacketSize
    ensures InRange(m)
  {
    var byte0 := data[0] as nat;
    Measurement(
      byte0 % 2 != 0,
      byte0 / 4 % 64,
      LeU16(data[1], data[2]) / 2,
      LeU16(data[3], data[4]))
  }

  /** What the device sends for a measurement: the inverted start flag in
      bit 1 and the check bit (always 1) in bit 0 of the angle word. */
  function EncodeMeasurement(m: Measurement): (data: seq<Byte>)
    requires InRange(m)
    ensures |data| == PacketSize
  {
    var angleWord := m.angleQ6 * 2 + 1;
    [ (m.quality * 4 + if m.startFlag then 1 else 2) as Byte,
      (angleWord % 0x100) as Byte, (angleWord / 0x100) as Byte,
      (m.distanceQ2 % 0x100) as Byte, (m.distanceQ2 / 0x100) as Byte ]
  }

  /** A record as the protocol requires it: bit 1 of byte 0 is the
      complement of the start flag and the check bit (bit 0 of byte 1) is
      set. */
  predicate WellFormedPacket(data: seq<Byte>)
    requires |data| == PacketSize
  {
    (data[0] % 4 == 1 || data[0] % 4 == 2) && data[1] % 2 == 1
  }

  /** Decoding loses nothing of a measurement. */
  lemma DecodeEncode(m: Measurement)
    requires InRange(m)
    ensures DecodeMeasurement(EncodeMeasurement(m)) == m
  {
    var data := EncodeMeasurement(m);
    assert LeU16(data[1], data[2]) == m.angleQ6 * 2 + 1;
    assert LeU16(data[3], data[4]) == m.distanceQ2;
  }

  /** On a well-formed record the decoder drops only the two redundant bits
      (inverted start flag and check bit), so re-encoding restores it. */
  lemma EncodeDecode(data: seq<Byte>)
    requires |data| == PacketSize && WellFormedPacket(data)
    ensures EncodeMeasurement(DecodeMeasurement(data)) == data
  {
    var m := DecodeMeasurement(data);
    assert m.angleQ6 * 2 + 1 == LeU16(data[1], data[2]);
    var e := EncodeMeasurement(m);
    assert e[0] == data[0] && e[1] == data[1] && e[2] == data[2] && e[3] == data[3] && e[4] == data[4];
  }

  // ---------------------------------------------------------------------
  // Response descriptor

  datatype DescriptorError =
    | Incomplete(received: nat)        // fewer (or more) than 7 bytes arrived
    | InvalidStartFlags                // the descriptor does not begin A5 5A
    | UnexpectedLength(length: int)    // the records announced are not 5 bytes

  /** The checks made on the descriptor that answers SCAN, in order. */
  function CheckScanDescriptor(descriptor: seq<Byte>): Result<(), DescriptorError> {
    if |descriptor| != DescriptorSize then Err(Incomplete(|descriptor|))
    else if descriptor[0..2] != [0xA5, 0x5A] then Err(InvalidStartFlags)
    else
      var lengthWord := LeU32(descriptor[2], descriptor[3], descriptor[4], descriptor[5]);
      var responseLength := lengthWord % LengthModulus;
      if responseLength != PacketSize then Err(UnexpectedLength(responseLength)) else Ok(())
  }

  /** The descriptor a device sends: start flags, a 30-bit length with the
      2-bit send mode above it, and the data type byte. */
  function MakeDescriptor(length: nat, sendMode: nat, dataType: Byte): (d: seq<Byte>)
    requires length < 0x4000_0000 && sendMode < 4
    ensures |d| == DescriptorSize
  {
    var word := sendMode * LengthModulus + length;
    var w1 := word / 0x100;
    var w2 := w1 / 0x100;
    [0xA5, 0x5A, (word % 0x100) as Byte, (w1 % 0x100) as Byte,
     (w2 % 0x100) as Byte, (w2 / 0x100) as Byte, dataType]
  }

  /** A descriptor is accepted exactly when it announces 5-byte records,
      whatever its send mode and data type; otherwise the announced length is
      reported. */
  lemma DescriptorAcceptsLengthFive(length: nat, sendMode: nat, dataType: Byte)
    requires length < 0x4000_0000 && sendMode < 4
    ensures CheckScanDescriptor(MakeDescriptor(length, sendMode, dataType))
         == if length == 5 then Ok(()) else Err(UnexpectedLength(length))
  {
    var d := MakeDescriptor(length, sendMode, dataType);
    var word := sendMode * LengthModulus + length;
    assert d[0..2] == [0xA5, 0x5A];
    WordBytes(word);
    assert LeU32(d[2], d[3], d[4], d[5]) == word;
    LowBits(sendMode, length);
  }

  /** The four bytes of a 32-bit word, low byte first, give it back. */
  lemma WordBytes(word: nat)
    requires word < 0x1_0000_0000
    ensures var w1 := word / 0x100; var w2 := w1 / 0x100;
      LeU32((word % 0x100) as Byte, (w1 % 0x100) as Byte, (w2 % 0x100) as Byte, (w2 / 0x100) as Byte) == word
  {
    var w1 := word / 0x100;
    var w2 := w1 / 0x100;
    assert w1 == w2 * 0x100 + w1 % 0x100;
    assert word == w1 * 0x100 + word % 0x100;
    assert w2 == (w2 / 0x100) * 0x100 + w2 % 0x100;
  }

  /** Masking with 0x3FFFFFFF drops the send mode above the length. */
  lemma LowBits(sendMode: nat, length: nat)
    requires length < LengthModulus
    ensures (sendMode * LengthModulus + length) % LengthModulus == length
  {
  }

  /** The descriptor an RPLIDAR A1 answers SCAN with passes the check. */
  lemma StandardScanDescriptor()
    ensures CheckScanDescriptor([0xA5, 0x5A, 0x05, 0x00, 0x00, 0x40, 0x81]).Ok?
  {
    DescriptorAcceptsLengthFive(5, 1, 0x81);
    assert MakeDescriptor(5, 1, 0x81) == [0xA5, 0x5A, 0x05, 0x00, 0x00, 0x40, 0x81];
  }

  // ---------------------------------------------------------------------
  // The measurement stream

  /** The measurements carried by a byte stream read 5 bytes at a time; a
      trailing short read carries none. */
  function Packets(bytes: seq<Byte>): (ms: seq<Measurement>)
    ensures |ms| == |bytes| / PacketSize
  {
    seq(|bytes| / PacketSize, k requires 0 <= k < |bytes| / PacketSize =>
      DecodeMeasurement(bytes[PacketSize * k..PacketSize * k + PacketSize]))
  }

  /** Reading one more full record extends the decoded stream by one. */
  lemma PacketsSnoc(bytes: seq<Byte>, chunk: seq<Byte>)
    requires |bytes| % PacketSize == 0 && |chunk| == PacketSize
    ensures Packets(bytes + chunk) == Packets(bytes) + [DecodeMeasurement(chunk)]
  {
    var whole := bytes + chunk;
    var n := |bytes| / PacketSize;
    assert |whole| / PacketSize == n + 1;
    forall k | 0 <= k < n
      ensures whole[PacketSize * k..PacketSize * k + PacketSize] == bytes[PacketSize * k..PacketSize * k + PacketSize]
    {
    }
    assert whole[PacketSize * n..PacketSize * n + PacketSize] == chunk;
  }

  /** A short read adds no record. */
  lemma PacketsShort(bytes: seq<Byte>, chunk: seq<Byte>)
    requires |bytes| % PacketSize == 0 && |chunk| < PacketSize
    ensures Packets(bytes + chunk) == Packets(bytes)
  {
    var whole := bytes + chunk;
    assert |whole| / PacketSize == |bytes| / PacketSize;
    forall k | 0 <= k < |bytes| / PacketSize
      ensures whole[PacketSize * k..PacketSize * k + PacketSize] == bytes[PacketSize * k..PacketSize * k + PacketSize]
    {
    }
  }

  /** The records of a prefix are a prefix of the records. */
  lemma PacketsPrefix(bytes: seq<Byte>, n: nat)
    requires n <= |bytes|
    ensures Packets(bytes[..n]) <= Packets(bytes)
  {
    forall k | 0 <= k < n / PacketSize
      ensures bytes[..n][PacketSize * k..PacketSize * k + PacketSize] == bytes[PacketSize * k..PacketSize * k + PacketSize]
    {
    }
  }
}

/** A serial port seen from the host: everything the device sends, and how
    far the host has read. */
module Serial {
  import opened Rplidar

  class SerialPort {
    const data: seq<Byte>
    var cursor: nat

    ghost predicate Valid()
      reads this
    {
      cursor <= |data|
    }

    constructor (data: seq<Byte>)
      ensures Valid() && this.data == data && cursor == 0
    {
      this.data := data;
      cursor := 0;
    }

    /** `ser.read(n)`: up to n bytes; fewer only when the device has sent
        no more before the timeout. */
    method Read(n: nat) returns (chunk: seq<Byte>)
      requires Valid()
      modifies this`cursor
      ensures Valid()
      ensures |chunk| <= n
      ensures old(cursor) + |chunk| == cursor
      ensures chunk == data[old(cursor)..cursor]
      ensures |chunk| < n ==> cursor == |data|
    {
      var end := if cursor + n <= |data| then cursor + n else |data|;
      chunk := data[cursor..end];
      cursor := end;
    }
  }
}
