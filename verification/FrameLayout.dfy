// The telemetry frame byte by byte.
module FrameLayout {
  import opened Reals
  import opened Wrappers
  import opened Crc
  import opened Codec

  // The low byte first.
  function Two(v: int): (b: seq<Byte>)
    requires 0 <= v < 65536
  {
    [v % 256, v / 256]
  }

  function Four(v: int): (b: seq<Byte>)
    requires 0 <= v < 4294967296
  {
    [v % 256, v / 256 % 256, v / 65536 % 256, v / 16777216]
  }

  // Two's complement.
  function Unsigned(v: int, span: int): int { if v < 0 then v + span else v }

  lemma PackOne(v: nat)
    requires v < 256
    ensures Pack(v, 1) == [v]
  {
    assert Pack(v / 256, 0) == [];
  }

  lemma PackTwo(v: nat)
    requires v < 65536
    ensures Pack(v, 2) == Two(v)
  {
    assert Pack(v / 256, 1) == [v / 256] by { PackOne(v / 256); }
  }

  lemma PackStep(v: nat, n: nat)
    requires n > 0
    ensures Pack(v, n) == [v % 256] + Pack(v / 256, n - 1)
  {
  }

  lemma PackFour(v: nat)
    requires v < 4294967296
    ensures Pack(v, 4) == Four(v)
  {
    PackStep(v, 4);
    PackStep(v / 256, 3);
    PackTwo(v / 65536);
    hide Pack;
    assert v / 256 / 256 == v / 65536 && v / 65536 / 256 == v / 16777216;
  }

  lemma Spans()
    ensures Span(0) == 1 && Span(1) == 256 && Span(2) == 65536 && Span(4) == 4294967296
  {
    assert Span(3) == 16777216;
  }

  // What the packer takes.
  lemma PackableMeans(x: Reading)
    ensures Packable(x) <==>
      && 0 <= x.nodeId < 65536 && 0 <= x.sequenceId < 4294967296 && 0 <= x.timestamp < 4294967296
      && -2147483648 <= Round(x.latitude * 1000000.0) < 2147483648 && -2147483648 <= Round(x.longitude * 1000000.0) < 2147483648
      && -32768 <= x.altitude < 32768 && 0 <= x.flags < 256 && -128 <= x.rssi < 128
  {
    Spans();
    hide Span, Round;
  }

  lemma SignedTwo(v: int)
    requires -32768 <= v < 32768
    ensures FitsSigned(v, 2) && PackSigned(v, 2) == Two(Unsigned(v, 65536))
  {
    Spans();
    hide Span;
    PackTwo(Unsigned(v, 65536));
  }

  lemma SignedFour(v: int)
    requires -2147483648 <= v < 2147483648
    ensures FitsSigned(v, 4) && PackSigned(v, 4) == Four(Unsigned(v, 4294967296))
  {
    Spans();
    hide Span;
    PackFour(Unsigned(v, 4294967296));
  }

  lemma SignedOne(v: int)
    requires -128 <= v < 128
    ensures FitsSigned(v, 1) && PackSigned(v, 1) == [Unsigned(v, 256)]
  {
    Spans();
    hide Span;
    PackOne(Unsigned(v, 256));
  }

  lemma ScaledRisk(risk: real)
    ensures RiskByte(risk) == Round((if risk < 0.0 then 0.0 else if risk > 1.0 then 1.0 else risk) * 255.0)
  {
    hide Round;
  }

  // Every byte before the checksum.
  lemma HeaderBytes(x: Reading)
    requires Packable(x)
    ensures 0 <= RiskByte(x.risk) < 256 && 0 <= BatteryByte(x.battery) < 256
    ensures var lat, lon := Round(x.latitude * 1000000.0), Round(x.longitude * 1000000.0);
            && -2147483648 <= lat < 2147483648 && -2147483648 <= lon < 2147483648
            && Header(x) == Two(x.nodeId) + Four(x.sequenceId) + Four(x.timestamp)
                          + Four(Unsigned(lat, 4294967296)) + Four(Unsigned(lon, 4294967296))
                          + Two(Unsigned(x.altitude, 65536)) + [x.flags] + [RiskByte(x.risk)]
                          + [Unsigned(x.rssi, 256)] + [BatteryByte(x.battery)]
  {
    PackableMeans(x);
    hide Round, Pack, PackSigned, RiskByte, BatteryByte, FitsSigned, FitsUnsigned, Two, Four, Packable;
    PackTwo(x.nodeId);
    PackFour(x.sequenceId);
    PackFour(x.timestamp);
    SignedFour(Round(x.latitude * 1000000.0));
    SignedFour(Round(x.longitude * 1000000.0));
    SignedTwo(x.altitude);
    PackOne(x.flags);
    PackOne(RiskByte(x.risk));
    SignedOne(x.rssi);
    PackOne(BatteryByte(x.battery));
  }

  // The frame is the header and the two bytes of its checksum, the low one first.
  lemma FrameBytes(x: Reading)
    requires Packable(x)
    ensures var crc := Feed(0xFFFF, Header(x));
            0 <= crc < 65536 && Encode(x) == Ok(Header(x) + Two(crc))
  {
    PresetWide();
    FeedWide(PRESET, Header(x));
    hide Header, Feed, Pack, Two;
    WideFits(Feed(PRESET, Header(x)));
    PackTwo(Feed(PRESET, Header(x)));
  }
}
