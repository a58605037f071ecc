// The 26-byte telemetry frame: little-endian fields and a trailing CRC.
module Codec {
  import opened Reals
  import opened Wrappers
  import opened Crc

  const FRAME_SIZE := 26
  const MICRO := 1_000_000.0

  datatype Reading = Reading(nodeId: int, sequenceId: int, timestamp: int, latitude: real, longitude: real,
                             altitude: int, flags: int, risk: real, rssi: int, battery: int)

  datatype Packet = Packet(nodeId: int, sequenceId: int, timestamp: int, latitude: real, longitude: real,
                           altitude: int, flags: int, riskByte: int, rssi: int, battery: int, crcValid: bool)

  // ---------- struct.pack and struct.unpack ----------

  function Span(n: nat): (s: int)
    ensures s > 0
  {
    if n == 0 then 1 else 256 * Span(n - 1)
  }

  predicate FitsUnsigned(v: int, n: nat) { 0 <= v < Span(n) }

  predicate FitsSigned(v: int, n: nat) { -Span(n) <= 2 * v < Span(n) }

  // The n bytes of v, least significant first.
  function Pack(v: nat, n: nat): (b: seq<Byte>)
    ensures |b| == n
  {
    if n == 0 then [] else [v % 256] + Pack(v / 256, n - 1)
  }

  function Unpack(b: seq<Byte>): (v: nat)
    ensures v < Span(|b|)
  {
    if b == [] then 0 else b[0] + 256 * Unpack(b[1..])
  }

  lemma {:induction false} UnpackPack(v: nat, n: nat)
    requires v < Span(n)
    ensures Unpack(Pack(v, n)) == v
  {
    if n > 0 { UnpackPack(v / 256, n - 1); }
  }

  lemma {:induction false} PackUnpack(b: seq<Byte>)
    ensures Pack(Unpack(b), |b|) == b
  {
    if b != [] {
      PackUnpack(b[1..]);
      FirstByte(b[0], Unpack(b[1..]));
      assert b == [b[0]] + b[1..];
    }
  }

  lemma FirstByte(low: Byte, high: nat)
    ensures (low + 256 * high) % 256 == low && (low + 256 * high) / 256 == high
  {
  }

  // Two's complement.
  function PackSigned(v: int, n: nat): (b: seq<Byte>)
    requires FitsSigned(v, n)
    ensures |b| == n
  {
    Pack(if v < 0 then v + Span(n) else v, n)
  }

  function UnpackSigned(b: seq<Byte>): (v: int)
    requires b != []
    ensures FitsSigned(v, |b|)
  {
    var u := Unpack(b);
    if 2 * u < Span(|b|) then u else u - Span(|b|)
  }

  lemma UnpackPackSigned(v: int, n: nat)
    requires n > 0 && FitsSigned(v, n)
    ensures UnpackSigned(PackSigned(v, n)) == v
  {
    UnpackPack(if v < 0 then v + Span(n) else v, n);
  }

  lemma PackUnpackSigned(b: seq<Byte>)
    requires b != []
    ensures PackSigned(UnpackSigned(b), |b|) == b
  {
    PackUnpack(b);
  }

  // ---------- Encode and decode ----------

  function RiskByte(risk: real): (b: int)
    ensures 0 <= b <= 255
  {
    var clamped := Max(0.0, Min(1.0, risk));
    RoundMonotone(0.0, clamped * 255.0);
    RoundMonotone(clamped * 255.0, 255.0);
    RoundExact(0);
    RoundExact(255);
    Round(clamped * 255.0)
  }

  function BatteryByte(battery: int): (b: int)
    ensures 0 <= b <= 100
  {
    if battery < 0 then 0 else if battery > 100 then 100 else battery
  }

  // What the packer demands of its arguments.
  predicate Packable(x: Reading) {
    && FitsUnsigned(x.nodeId, 2) && FitsUnsigned(x.sequenceId, 4) && FitsUnsigned(x.timestamp, 4)
    && FitsSigned(Round(x.latitude * MICRO), 4) && FitsSigned(Round(x.longitude * MICRO), 4)
    && FitsSigned(x.altitude, 2) && FitsUnsigned(x.flags, 1) && FitsSigned(x.rssi, 1)
  }

  function Header(x: Reading): (h: seq<Byte>)
    requires Packable(x)
    ensures |h| == 24
  {
    Pack(x.nodeId, 2) + Pack(x.sequenceId, 4) + Pack(x.timestamp, 4)
    + PackSigned(Round(x.latitude * MICRO), 4) + PackSigned(Round(x.longitude * MICRO), 4)
    + PackSigned(x.altitude, 2) + Pack(x.flags, 1) + Pack(RiskByte(x.risk), 1)
    + PackSigned(x.rssi, 1) + Pack(BatteryByte(x.battery), 1)
  }

  function Encode(x: Reading): Result<seq<Byte>, string> {
    if Packable(x) then Ok(Header(x) + Pack(Feed(PRESET, Header(x)), 2)) else Err("struct.error")
  }

  predicate CrcValid(frame: seq<Byte>)
    requires |frame| == FRAME_SIZE
  {
    Feed(PRESET, frame[..24]) == Unpack(frame[24..])
  }

  function Decode(frame: seq<Byte>): Result<Packet, string> {
    if |frame| != FRAME_SIZE then Err("Invalid frame size") else
      Ok(Packet(Unpack(frame[0..2]), Unpack(frame[2..6]), Unpack(frame[6..10]),
                UnpackSigned(frame[10..14]) as real / MICRO, UnpackSigned(frame[14..18]) as real / MICRO,
                UnpackSigned(frame[18..20]), Unpack(frame[20..21]), Unpack(frame[21..22]),
                UnpackSigned(frame[22..23]), Unpack(frame[23..24]), CrcValid(frame)))
  }

  // ---------- The CRC closes the frame ----------

  lemma WideFits(r: nat)
    requires Wide(r)
    ensures r < 65536
  {
    hide Drop;
    DropEight(r, 8);
    DropEight(r / 256, 0);
    DropNothing(r / 256 / 256);
  }

  lemma DropNothing(x: nat)
    ensures Drop(x, 0) == x
  {
  }

  lemma {:induction false} FeedWide(r: nat, data: seq<Byte>)
    requires Wide(r)
    ensures Wide(Feed(r, data))
  {
    hide Feed, FeedBits;
    FeedIsFeedBits(r, data);
    FeedBitsWide(r, Bits(data));
  }

  lemma PresetWide()
    ensures Wide(PRESET)
  {
    hide Drop;
    DropEight(PRESET, 8);
    DropEight(255, 0);
    DropNothing(0);
  }

  lemma {:induction false} LowBitsSplit(x: nat, m: nat, n: nat)
    ensures LowBits(x, m + n) == LowBits(x, m) + LowBits(Drop(x, m), n)
    decreases m
  {
    if m > 0 { LowBitsSplit(x / 2, m - 1, n); }
  }

  // z has n trailing zero digits.
  predicate Trailing(z: nat, n: nat)
    decreases n
  {
    n == 0 || (z % 2 == 0 && Trailing(z / 2, n - 1))
  }

  lemma {:induction false} LowBitsOfSum(x: nat, z: nat, n: nat)
    requires Trailing(z, n)
    ensures LowBits(x + z, n) == LowBits(x, n)
    decreases n
  {
    if n > 0 {
      assert (x + z) / 2 == x / 2 + z / 2;
      LowBitsOfSum(x / 2, z / 2, n - 1);
    }
  }

  lemma DoubleTrails(z: nat, n: nat)
    requires Trailing(z, n)
    ensures Trailing(2 * z, n + 1)
  {
    assert 2 * z / 2 == z;
  }

  lemma HighByteTrails(hi: nat)
    ensures Trailing(256 * hi, 8)
  {
    assert Trailing(hi, 0);
    hide Trailing;
    DoubleTrails(hi, 0); DoubleTrails(2 * hi, 1); DoubleTrails(4 * hi, 2); DoubleTrails(8 * hi, 3);
    DoubleTrails(16 * hi, 4); DoubleTrails(32 * hi, 5); DoubleTrails(64 * hi, 6); DoubleTrails(128 * hi, 7);
  }

  lemma TwoBytesBits(lo: Byte, hi: Byte)
    ensures Bits([lo, hi]) == LowBits(lo, 8) + LowBits(hi, 8)
  {
    hide LowBits;
    assert [lo, hi][1..] == [hi] && [hi][1..] == [];
    assert Bits([]) == [] && Bits([hi]) == LowBits(hi, 8) + Bits([]);
  }

  lemma TwoBytesAreSixteenBits(lo: Byte, hi: Byte)
    ensures Bits([lo, hi]) == LowBits(lo + 256 * hi, 16)
    ensures Drop(lo + 256 * hi, 16) == 0
  {
    hide LowBits, Drop, Trailing, Bits;
    var v := lo + 256 * hi;
    assert v / 256 == hi && (hi as int) / 256 == 0;
    TwoBytesBits(lo, hi);
    LowBitsSplit(v, 8, 8);
    HighByteTrails(hi);
    LowBitsOfSum(lo, 256 * hi, 8);
    DropEight(v, 0);
    DropNothing(hi);
    DropEight(v, 8);
    DropEight(hi, 0);
    DropNothing(0);
  }

  // Two more bytes bring the register to zero exactly when they are its contents.
  lemma ClosingBytes(r: nat, lo: Byte, hi: Byte)
    requires Wide(r)
    ensures Feed(r, [lo, hi]) == 0 <==> r == lo + 256 * hi
  {
    var v := lo + 256 * hi;
    hide Feed, FeedBits, Bits, LowBits, Drop, Shifts, Xor, Wide;
    FeedIsFeedBits(r, [lo, hi]);
    TwoBytesAreSixteenBits(lo, hi);
    FeedLowBits(r, v, 16);
    XorZero(FeedBits(r, LowBits(v, 16)));
    assert Wide(Xor(r, v)) by { XorOfWide(r, v); }
    ShiftsWide(Xor(r, v), 16);
    XorSelf(r, v);
  }

  lemma {:induction false} FeedAppend(r: nat, a: seq<Byte>, b: seq<Byte>)
    ensures Feed(r, a + b) == Feed(Feed(r, a), b)
    decreases |a|
  {
    if a == [] {
      assert a + b == b;
    } else {
      hide FeedByte;
      assert (a + b)[1..] == a[1..] + b;
      FeedAppend(FeedByte(r, a[0]), a[1..], b);
    }
  }

  lemma UnpackTwo(b: seq<Byte>)
    requires |b| == 2
    ensures Unpack(b) == b[0] as int + 256 * (b[1] as int)
  {
    assert Unpack(b[1..][1..]) == 0;
  }

  // A frame is valid exactly when the register run over all 26 bytes ends at zero.
  lemma ValidIffZero(frame: seq<Byte>)
    requires |frame| == FRAME_SIZE
    ensures CrcValid(frame) <==> Feed(PRESET, frame) == 0
  {
    hide Feed, Unpack, Wide;
    var payload, crc := frame[..24], frame[24..];
    assert frame == payload + crc && crc == [crc[0], crc[1]];
    FeedAppend(PRESET, payload, crc);
    PresetWide();
    FeedWide(PRESET, payload);
    ClosingBytes(Feed(PRESET, payload), crc[0], crc[1]);
    UnpackTwo(crc);
  }

  // ---------- Error detection ----------

  // The difference of the two runs is the run of the flipped bits from zero.
  lemma FlippedFrame(a: seq<Byte>, b: seq<Byte>)
    requires |a| == |b| == FRAME_SIZE && CrcValid(a)
    ensures CrcValid(b) <==> FeedBits(0, Flips(Bits(a), Bits(b))) == 0
  {
    hide Feed, FeedBits, Bits, CrcValid, Xor;
    ValidIffZero(a);
    ValidIffZero(b);
    FeedIsFeedBits(PRESET, a);
    FeedIsFeedBits(PRESET, b);
    DifferenceRun(PRESET, PRESET, Bits(a), Bits(b));
    XorSelf(PRESET, PRESET);
    XorCommutes(0, Feed(PRESET, b));
    XorZero(Feed(PRESET, b));
  }

  // Every burst of at most sixteen bits, every odd number of flipped bits and
  // any two flipped bits turn a valid frame into an invalid one; in particular
  // one, two or three flipped bits never pass.
  lemma ErrorsDetected(a: seq<Byte>, b: seq<Byte>)
    requires |a| == |b| == FRAME_SIZE && CrcValid(a)
    requires var e := Flips(Bits(a), Bits(b)); IsBurst(e) || Count(e) % 2 == 1 || Count(e) == 2
    ensures !CrcValid(b)
  {
    hide FeedBits, Bits, CrcValid, Count;
    var e := Flips(Bits(a), Bits(b));
    FlippedFrame(a, b);
    if IsBurst(e) {
      BurstSurvives(e);
    } else if Count(e) == 2 {
      TwoSetBitsArePair(e);
      TwoFlipsSurvive(e);
    } else {
      OddCountSurvives(e);
    }
  }

  // ---------- Round trips ----------

  // Where the fields of a frame stand.
  ghost predicate HasFields(f: seq<Byte>, x: Reading)
    requires Packable(x)
  {
    && |f| >= 24
    && f[0..2] == Pack(x.nodeId, 2) && f[2..6] == Pack(x.sequenceId, 4) && f[6..10] == Pack(x.timestamp, 4)
    && f[10..14] == PackSigned(Round(x.latitude * MICRO), 4) && f[14..18] == PackSigned(Round(x.longitude * MICRO), 4)
    && f[18..20] == PackSigned(x.altitude, 2) && f[20..21] == Pack(x.flags, 1) && f[21..22] == Pack(RiskByte(x.risk), 1)
    && f[22..23] == PackSigned(x.rssi, 1) && f[23..24] == Pack(BatteryByte(x.battery), 1)
  }

  lemma Join(f: seq<Byte>, i: nat, j: nat)
    requires i <= j <= |f|
    ensures f[0..i] + f[i..j] == f[0..j]
  {
  }

  lemma JoinFields(f: seq<Byte>)
    requires |f| >= 24
    ensures f[..24] == f[0..2] + f[2..6] + f[6..10] + f[10..14] + f[14..18] + f[18..20] + f[20..21] + f[21..22] + f[22..23] + f[23..24]
  {
    Join(f, 2, 6);
    Join(f, 6, 10);
    Join(f, 10, 14);
    Join(f, 14, 18);
    Join(f, 18, 20);
    Join(f, 20, 21);
    Join(f, 21, 22);
    Join(f, 22, 23);
    Join(f, 23, 24);
  }

  // The last field of a prefix, and the prefix before it.
  lemma Peel(f: seq<Byte>, p: seq<Byte>, field: seq<Byte>, i: nat, j: nat)
    requires j <= |f| && f[..j] == p + field && |p| == i
    ensures i <= j && f[i..j] == field && f[..i] == p
  {
    assert f[i..j] == f[..j][i..] && f[..i] == f[..j][..i];
  }

  // A header is determined by its fields.
  lemma HeaderIffFields(f: seq<Byte>, x: Reading)
    requires Packable(x) && |f| >= 24
    ensures HasFields(f, x) <==> f[..24] == Header(x)
  {
    hide Pack, PackSigned, Round, RiskByte, BatteryByte, FitsSigned, FitsUnsigned;
    JoinFields(f);
    if f[..24] == Header(x) { HeaderHasFields(f, x); }
  }

  lemma HeaderHasFields(f: seq<Byte>, x: Reading)
    requires Packable(x) && |f| >= 24 && f[..24] == Header(x)
    ensures HasFields(f, x)
  {
    hide Pack, PackSigned, Round, RiskByte, BatteryByte, FitsSigned, Span;
    var p2, p3 := Pack(x.nodeId, 2) + Pack(x.sequenceId, 4), Pack(x.timestamp, 4);
    var p4, p5 := PackSigned(Round(x.latitude * MICRO), 4), PackSigned(Round(x.longitude * MICRO), 4);
    var p6, p7, p8 := PackSigned(x.altitude, 2), Pack(x.flags, 1), Pack(RiskByte(x.risk), 1);
    var p9, p10 := PackSigned(x.rssi, 1), Pack(BatteryByte(x.battery), 1);
    Peel(f, p2 + p3 + p4 + p5 + p6 + p7 + p8 + p9, p10, 23, 24);
    Peel(f, p2 + p3 + p4 + p5 + p6 + p7 + p8, p9, 22, 23);
    Peel(f, p2 + p3 + p4 + p5 + p6 + p7, p8, 21, 22);
    Peel(f, p2 + p3 + p4 + p5 + p6, p7, 20, 21);
    Peel(f, p2 + p3 + p4 + p5, p6, 18, 20);
    Peel(f, p2 + p3 + p4, p5, 14, 18);
    Peel(f, p2 + p3, p4, 10, 14);
    Peel(f, p2, p3, 6, 10);
    Peel(f, Pack(x.nodeId, 2), Pack(x.sequenceId, 4), 2, 6);
  }

  // The scaling error of a coordinate is half a millionth.
  lemma MicroError(x: real)
    ensures -0.0000005 <= Round(x * MICRO) as real / MICRO - x <= 0.0000005
  {
    var n := Round(x * MICRO) as real;
    assert n / MICRO - x == (n - x * MICRO) / MICRO;
  }

  lemma RiskError(risk: real)
    ensures -1.0 / 510.0 <= RiskByte(risk) as real / 255.0 - Max(0.0, Min(1.0, risk)) <= 1.0 / 510.0
  {
    var clamped := Max(0.0, Min(1.0, risk));
    var n := RiskByte(risk) as real;
    assert n / 255.0 - clamped == (n - clamped * 255.0) / 255.0;
  }

  // The integers read back from a frame with the fields of x.
  ghost predicate SameIntegers(p: Packet, x: Reading) {
    && p.nodeId == x.nodeId && p.sequenceId == x.sequenceId && p.timestamp == x.timestamp
    && p.altitude == x.altitude && p.flags == x.flags && p.rssi == x.rssi
    && p.battery == BatteryByte(x.battery) && p.riskByte == RiskByte(x.risk)
    && p.latitude == Round(x.latitude * MICRO) as real / MICRO
    && p.longitude == Round(x.longitude * MICRO) as real / MICRO
  }

  lemma ByteFits(v: int)
    requires 0 <= v < 256
    ensures v < Span(1)
  {
    assert Span(0) == 1;
  }

  lemma FieldsReadBack(f: seq<Byte>, x: Reading)
    requires |f| == FRAME_SIZE && Packable(x) && HasFields(f, x)
    ensures SameIntegers(Decode(f).value, x)
  {
    hide Pack, Unpack, PackSigned, UnpackSigned, Round, RiskByte, BatteryByte, CrcValid, Span;
    UnpackPack(x.nodeId, 2);
    UnpackPack(x.sequenceId, 4);
    UnpackPack(x.timestamp, 4);
    UnpackPackSigned(Round(x.latitude * MICRO), 4);
    UnpackPackSigned(Round(x.longitude * MICRO), 4);
    UnpackPackSigned(x.altitude, 2);
    UnpackPack(x.flags, 1);
    ByteFits(RiskByte(x.risk));
    UnpackPack(RiskByte(x.risk), 1);
    UnpackPackSigned(x.rssi, 1);
    ByteFits(BatteryByte(x.battery));
    UnpackPack(BatteryByte(x.battery), 1);
  }

  lemma EncodedCrc(x: Reading)
    requires Packable(x)
    ensures var f := Encode(x).value; |f| == FRAME_SIZE && f[..24] == Header(x) && CrcValid(f)
  {
    hide Pack, Unpack, Feed, Header, Packable, Wide;
    var h := Header(x);
    var crc := Feed(PRESET, h);
    PresetWide();
    FeedWide(PRESET, h);
    WideFits(crc);
    assert Span(2) == 65536 by { assert Span(1) == 256 && Span(0) == 1; }
    UnpackPack(crc, 2);
    var f := h + Pack(crc, 2);
    assert f[..24] == h && f[24..] == Pack(crc, 2);
  }

  // Decoding an encoded reading gives a valid packet with the same integers (the
  // battery clamped), coordinates to half a millionth, and the risk to 1/510.
  lemma DecodeEncode(x: Reading)
    requires Encode(x).Ok?
    ensures Decode(Encode(x).value).Ok?
    ensures var p := Decode(Encode(x).value).value;
            && p.crcValid
            && p.nodeId == x.nodeId && p.sequenceId == x.sequenceId && p.timestamp == x.timestamp
            && p.altitude == x.altitude && p.flags == x.flags && p.rssi == x.rssi
            && p.battery == BatteryByte(x.battery)
            && -0.0000005 <= p.latitude - x.latitude <= 0.0000005
            && -0.0000005 <= p.longitude - x.longitude <= 0.0000005
            && -1.0 / 510.0 <= p.riskByte as real / 255.0 - Max(0.0, Min(1.0, x.risk)) <= 1.0 / 510.0
  {
    EncodedCrc(x);
    var f := Encode(x).value;
    hide Encode, Header, Round, RiskByte, BatteryByte, HasFields, CrcValid, Unpack, UnpackSigned;
    HeaderIffFields(f, x);
    FieldsReadBack(f, x);
    MicroError(x.latitude);
    MicroError(x.longitude);
    RiskError(x.risk);
  }

  // The reading that a packet describes.
  function Reread(p: Packet): Reading {
    Reading(p.nodeId, p.sequenceId, p.timestamp, p.latitude, p.longitude, p.altitude, p.flags,
            p.riskByte as real / 255.0, p.rssi, p.battery)
  }

  lemma MicroExact(n: int)
    ensures Round(n as real / MICRO * MICRO) == n
  {
    assert n as real / MICRO * MICRO == n as real;
    RoundExact(n);
  }

  lemma RiskExact(b: int)
    requires 0 <= b <= 255
    ensures RiskByte(b as real / 255.0) == b
  {
    var risk := b as real / 255.0;
    assert 0.0 <= risk <= 1.0;
    assert risk * 255.0 == b as real;
    RoundExact(b);
  }

  lemma UnpackByte(b: seq<Byte>)
    requires |b| == 1
    ensures 0 <= Unpack(b) <= 255 && Span(1) == 256
  {
    assert Span(0) == 1;
  }

  lemma RereadPackable(f: seq<Byte>)
    requires |f| == FRAME_SIZE
    ensures Packable(Reread(Decode(f).value))
  {
    hide Unpack, UnpackSigned, Span, Round, CrcValid;
    MicroExact(UnpackSigned(f[10..14]));
    MicroExact(UnpackSigned(f[14..18]));
  }

  lemma RereadFields(f: seq<Byte>)
    requires |f| == FRAME_SIZE && Packable(Reread(Decode(f).value))
    ensures HasFields(f, Reread(Decode(f).value)) <==> Unpack(f[23..24]) <= 100
  {
    hide Pack, Unpack, PackSigned, UnpackSigned, Span, Round, RiskByte, CrcValid;
    MicroExact(UnpackSigned(f[10..14]));
    MicroExact(UnpackSigned(f[14..18]));
    PackUnpack(f[0..2]);
    PackUnpack(f[2..6]);
    PackUnpack(f[6..10]);
    PackUnpackSigned(f[10..14]);
    PackUnpackSigned(f[14..18]);
    PackUnpackSigned(f[18..20]);
    PackUnpack(f[20..21]);
    UnpackByte(f[21..22]);
    RiskExact(Unpack(f[21..22]));
    PackUnpack(f[21..22]);
    PackUnpackSigned(f[22..23]);
    UnpackByte(f[23..24]);
    PackUnpack(f[23..24]);
    if Unpack(f[23..24]) > 100 {
      UnpackPack(100, 1);
    }
  }

  // Encoding what was decoded gives the frame back exactly when its CRC is valid
  // and its battery byte is a percentage.
  lemma EncodeDecode(f: seq<Byte>)
    requires |f| == FRAME_SIZE
    ensures Encode(Reread(Decode(f).value)) == Ok(f) <==> CrcValid(f) && Unpack(f[23..24]) <= 100
  {
    RereadPackable(f);
    var x := Reread(Decode(f).value);
    hide Decode, Reread;
    RereadFields(f);
    HeaderIffFields(f, x);
    EncodedCrc(x);
    var g := Encode(x).value;
    if f[..24] == Header(x) && CrcValid(f) {
      hide Pack, Unpack, Feed;
      PackUnpack(f[24..]);
      PackUnpack(g[24..]);
      assert f == f[..24] + f[24..] && g == g[..24] + g[24..];
    }
  }
}
