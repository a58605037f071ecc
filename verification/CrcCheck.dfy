// The published check value of this CRC, and its preset.
module CrcCheck {
  import opened Crc

  predicate Next(r: nat, next: nat) { r < 65536 && next == Arithmetic(r) }

  ghost predicate IsXor(x: nat, b: nat, z: nat) { Xor(x, b) == z }

  lemma IsXorZero(x: nat)
    ensures IsXor(x, 0, x)
  {
    XorZero(x);
  }

  // One more binary digit below.
  lemma IsXorNext(x: nat, b: nat, z: nat, p: nat, q: nat)
    requires IsXor(x, b, z) && p < 2 && q < 2
    ensures IsXor(2 * x + p, 2 * b + q, 2 * z + if p == q then 0 else 1)
  {
    XorHalves(2 * x + p, 2 * b + q);
    hide Xor;
  }

  // The eight shifts of one byte.
  lemma OneByte(r: nat, b: Byte, x: nat, c1: nat, c2: nat, c3: nat, c4: nat, c5: nat, c6: nat, c7: nat, c8: nat)
    requires IsXor(r, b, x) && Next(x, c1) && Next(c1, c2) && Next(c2, c3) && Next(c3, c4)
    requires Next(c4, c5) && Next(c5, c6) && Next(c6, c7) && Next(c7, c8)
    ensures FeedByte(r, b) == c8
  {
    hide Xor, Shift, Arithmetic;
    ShiftArithmetic(x);
    ShiftArithmetic(c1);
    ShiftArithmetic(c2);
    ShiftArithmetic(c3);
    ShiftArithmetic(c4);
    ShiftArithmetic(c5);
    ShiftArithmetic(c6);
    ShiftArithmetic(c7);
    EightShifts(x);
  }

  lemma EightShifts(x: nat)
    ensures Shifts(x, 8) == Shift(Shift(Shift(Shift(Shift(Shift(Shift(Shift(x))))))))
  {
    hide Shift;
  }

  lemma Digit1()
    ensures FeedByte(0xFFFF, 0x31) == 0x947E
  {
    hide Xor, Shift, FeedByte, IsXor;
    IsXorZero(0x03FF);
    IsXorNext(0x03FF, 0x00, 0x03FF, 1, 1);
    IsXorNext(0x07FF, 0x01, 0x07FE, 1, 1);
    IsXorNext(0x0FFF, 0x03, 0x0FFC, 1, 0);
    IsXorNext(0x1FFF, 0x06, 0x1FF9, 1, 0);
    IsXorNext(0x3FFF, 0x0C, 0x3FF3, 1, 0);
    IsXorNext(0x7FFF, 0x18, 0x7FE7, 1, 1);
    OneByte(0xFFFF, 0x31, 0xFFCE, 0x7FE7, 0x9FF2, 0x4FF9, 0x87FD, 0xE3FF, 0xD1FE, 0x68FF, 0x947E);
  }

  lemma Digit2()
    ensures FeedByte(0x947E, 0x32) == 0xF595
  {
    hide Xor, Shift, FeedByte, IsXor;
    IsXorZero(0x0251);
    IsXorNext(0x0251, 0x00, 0x0251, 1, 1);
    IsXorNext(0x04A3, 0x01, 0x04A2, 1, 1);
    IsXorNext(0x0947, 0x03, 0x0944, 1, 0);
    IsXorNext(0x128F, 0x06, 0x1289, 1, 0);
    IsXorNext(0x251F, 0x0C, 0x2513, 1, 1);
    IsXorNext(0x4A3F, 0x19, 0x4A26, 0, 0);
    OneByte(0x947E, 0x32, 0x944C, 0x4A26, 0x2513, 0xB288, 0x5944, 0x2CA2, 0x1651, 0xAB29, 0xF595);
  }

  lemma Digit3()
    ensures FeedByte(0xF595, 0x33) == 0x7A75
  {
    hide Xor, Shift, FeedByte, IsXor;
    IsXorZero(0x03D6);
    IsXorNext(0x03D6, 0x00, 0x03D6, 0, 1);
    IsXorNext(0x07AC, 0x01, 0x07AD, 1, 1);
    IsXorNext(0x0F59, 0x03, 0x0F5A, 0, 0);
    IsXorNext(0x1EB2, 0x06, 0x1EB4, 1, 0);
    IsXorNext(0x3D65, 0x0C, 0x3D69, 0, 1);
    IsXorNext(0x7ACA, 0x19, 0x7AD3, 1, 1);
    OneByte(0xF595, 0x33, 0xF5A6, 0x7AD3, 0x9D68, 0x4EB4, 0x275A, 0x13AD, 0xA9D7, 0xF4EA, 0x7A75);
  }

  lemma Digit4()
    ensures FeedByte(0x7A75, 0x34) == 0x30BA
  {
    hide Xor, Shift, FeedByte, IsXor;
    IsXorZero(0x01E9);
    IsXorNext(0x01E9, 0x00, 0x01E9, 1, 1);
    IsXorNext(0x03D3, 0x01, 0x03D2, 1, 1);
    IsXorNext(0x07A7, 0x03, 0x07A4, 0, 0);
    IsXorNext(0x0F4E, 0x06, 0x0F48, 1, 1);
    IsXorNext(0x1E9D, 0x0D, 0x1E90, 0, 0);
    IsXorNext(0x3D3A, 0x1A, 0x3D20, 1, 0);
    OneByte(0x7A75, 0x34, 0x7A41, 0x9D21, 0xEE91, 0xD749, 0xCBA5, 0xC5D3, 0xC2E8, 0x6174, 0x30BA);
  }

  lemma Digit5()
    ensures FeedByte(0x30BA, 0x35) == 0xA471
  {
    hide Xor, Shift, FeedByte, IsXor;
    IsXorZero(0x00C2);
    IsXorNext(0x00C2, 0x00, 0x00C2, 1, 1);
    IsXorNext(0x0185, 0x01, 0x0184, 1, 1);
    IsXorNext(0x030B, 0x03, 0x0308, 1, 0);
    IsXorNext(0x0617, 0x06, 0x0611, 0, 1);
    IsXorNext(0x0C2E, 0x0D, 0x0C23, 1, 0);
    IsXorNext(0x185D, 0x1A, 0x1847, 0, 1);
    OneByte(0x30BA, 0x35, 0x308F, 0xB846, 0x5C23, 0x8E10, 0x4708, 0x2384, 0x11C2, 0x08E1, 0xA471);
  }

  lemma Digit6()
    ensures FeedByte(0xA471, 0x36) == 0x32E4
  {
    hide Xor, Shift, FeedByte, IsXor;
    IsXorZero(0x0291);
    IsXorNext(0x0291, 0x00, 0x0291, 1, 1);
    IsXorNext(0x0523, 0x01, 0x0522, 1, 1);
    IsXorNext(0x0A47, 0x03, 0x0A44, 0, 0);
    IsXorNext(0x148E, 0x06, 0x1488, 0, 1);
    IsXorNext(0x291C, 0x0D, 0x2911, 0, 1);
    IsXorNext(0x5238, 0x1B, 0x5223, 1, 0);
    OneByte(0xA471, 0x36, 0xA447, 0xF222, 0x7911, 0x9C89, 0xEE45, 0xD723, 0xCB90, 0x65C8, 0x32E4);
  }

  lemma Digit7()
    ensures FeedByte(0x32E4, 0x37) == 0x9D73
  {
    hide Xor, Shift, FeedByte, IsXor;
    IsXorZero(0x00CB);
    IsXorNext(0x00CB, 0x00, 0x00CB, 1, 1);
    IsXorNext(0x0197, 0x01, 0x0196, 0, 1);
    IsXorNext(0x032E, 0x03, 0x032D, 0, 0);
    IsXorNext(0x065C, 0x06, 0x065A, 1, 1);
    IsXorNext(0x0CB9, 0x0D, 0x0CB4, 0, 1);
    IsXorNext(0x1972, 0x1B, 0x1969, 0, 1);
    OneByte(0x32E4, 0x37, 0x32D3, 0xB968, 0x5CB4, 0x2E5A, 0x172D, 0xAB97, 0xF5CA, 0x7AE5, 0x9D73);
  }

  lemma Digit8()
    ensures FeedByte(0x9D73, 0x38) == 0x37DD
  {
    hide Xor, Shift, FeedByte, IsXor;
    IsXorZero(0x0275);
    IsXorNext(0x0275, 0x00, 0x0275, 1, 1);
    IsXorNext(0x04EB, 0x01, 0x04EA, 1, 1);
    IsXorNext(0x09D7, 0x03, 0x09D4, 0, 1);
    IsXorNext(0x13AE, 0x07, 0x13A9, 0, 0);
    IsXorNext(0x275C, 0x0E, 0x2752, 1, 0);
    IsXorNext(0x4EB9, 0x1C, 0x4EA5, 1, 0);
    OneByte(0x9D73, 0x38, 0x9D4B, 0xEEA4, 0x7752, 0x3BA9, 0xBDD5, 0xFEEB, 0xDF74, 0x6FBA, 0x37DD);
  }

  lemma Digit9()
    ensures FeedByte(0x37DD, 0x39) == 0x4B37
  {
    hide Xor, Shift, FeedByte, IsXor;
    IsXorZero(0x00DF);
    IsXorNext(0x00DF, 0x00, 0x00DF, 0, 1);
    IsXorNext(0x01BE, 0x01, 0x01BF, 1, 1);
    IsXorNext(0x037D, 0x03, 0x037E, 1, 1);
    IsXorNext(0x06FB, 0x07, 0x06FC, 1, 0);
    IsXorNext(0x0DF7, 0x0E, 0x0DF9, 0, 0);
    IsXorNext(0x1BEE, 0x1C, 0x1BF2, 1, 1);
    OneByte(0x37DD, 0x39, 0x37E4, 0x1BF2, 0x0DF9, 0xA6FD, 0xF37F, 0xD9BE, 0x6CDF, 0x966E, 0x4B37);
  }

  lemma FeedNext(r: nat, b: Byte, data: seq<Byte>)
    ensures Feed(r, [b] + data) == Feed(FeedByte(r, b), data)
  {
    assert ([b] + data)[1..] == data;
    hide FeedByte;
  }

  lemma FeedNone(r: nat)
    ensures Feed(r, []) == r
  {
  }

  // No data leaves the preset, and the digits from one to nine give the check value.
  lemma CheckValue()
    ensures Feed(PRESET, []) == 0xFFFF
    ensures Feed(PRESET, [0x31] + ([0x32] + ([0x33] + ([0x34] + ([0x35] + ([0x36] + ([0x37] + ([0x38] + ([0x39] + []))))))))) == 0x4B37
  {
    hide Feed, FeedByte;
    FeedNone(0xFFFF);
    FeedNone(0x4B37);
    Digit1();
    FeedNext(0xFFFF, 0x31, [0x32] + ([0x33] + ([0x34] + ([0x35] + ([0x36] + ([0x37] + ([0x38] + ([0x39] + []))))))));
    Digit2();
    FeedNext(0x947E, 0x32, [0x33] + ([0x34] + ([0x35] + ([0x36] + ([0x37] + ([0x38] + ([0x39] + [])))))));
    Digit3();
    FeedNext(0xF595, 0x33, [0x34] + ([0x35] + ([0x36] + ([0x37] + ([0x38] + ([0x39] + []))))));
    Digit4();
    FeedNext(0x7A75, 0x34, [0x35] + ([0x36] + ([0x37] + ([0x38] + ([0x39] + [])))));
    Digit5();
    FeedNext(0x30BA, 0x35, [0x36] + ([0x37] + ([0x38] + ([0x39] + []))));
    Digit6();
    FeedNext(0xA471, 0x36, [0x37] + ([0x38] + ([0x39] + [])));
    Digit7();
    FeedNext(0x32E4, 0x37, [0x38] + ([0x39] + []));
    Digit8();
    FeedNext(0x9D73, 0x38, [0x39] + []);
    Digit9();
    FeedNext(0x37DD, 0x39, []);
  }
}
