// The bit-serial CRC of the telemetry frame: polynomial 0x8005 reflected to
// 0xA001, register preset to 0xFFFF, least significant bit first. Registers and
// bytes are naturals, with xor defined on their binary digits.
module Crc {
  type Byte = b: int | 0 <= b < 256

  const PRESET: nat := 0xFFFF
  const POLYNOMIAL: nat := 0xA001

  // a ^ b, digit by digit.
  function Xor(a: nat, b: nat): nat
    decreases a + b
  {
    if a == 0 && b == 0 then 0
    else 2 * Xor(a / 2, b / 2) + (if a % 2 == b % 2 then 0 else 1)
  }

  // One shift of the register.
  function Shift(r: nat): nat {
    if r % 2 == 1 then Xor(r / 2, POLYNOMIAL) else r / 2
  }

  function Shifts(r: nat, n: nat): nat
    decreases n
  {
    if n == 0 then r else Shifts(Shift(r), n - 1)
  }

  function FeedByte(r: nat, b: Byte): nat { Shifts(Xor(r, b), 8) }

  // The register after a run over the bytes.
  function Feed(r: nat, data: seq<Byte>): nat
    decreases |data|
  {
    if data == [] then r else Feed(FeedByte(r, data[0]), data[1..])
  }

  // The two nested loops over the bytes and their bits.
  method ComputeCrc16(data: seq<Byte>) returns (crc: nat)
    ensures crc == Feed(PRESET, data)
  {
    crc := PRESET;
    for i := 0 to |data|
      invariant Feed(crc, data[i..]) == Feed(PRESET, data)
    {
      hide Xor;
      assert data[i..][0] == data[i] && data[i..][1..] == data[i + 1..];
      ghost var after := FeedByte(crc, data[i]);
      crc := Xor(crc, data[i]);
      for k := 0 to 8
        invariant Shifts(crc, 8 - k) == after
      {
        if crc % 2 == 1 {
          crc := Xor(crc / 2, POLYNOMIAL);
        } else {
          crc := crc / 2;
        }
      }
    }
  }

  // ---------- Digits of naturals ----------

  function Drop(x: nat, n: nat): nat
    decreases n
  {
    if n == 0 then x else Drop(x / 2, n - 1)
  }

  function Bit(b: bool): nat { if b then 1 else 0 }

  lemma XorHalves(a: nat, b: nat)
    ensures Xor(a, b) / 2 == Xor(a / 2, b / 2)
    ensures Xor(a, b) % 2 == (if a % 2 == b % 2 then 0 else 1)
  {
  }

  lemma {:induction false} XorZero(a: nat)
    ensures Xor(a, 0) == a
  {
    if a > 0 { XorZero(a / 2); }
  }

  lemma {:induction false} XorCommutes(a: nat, b: nat)
    ensures Xor(a, b) == Xor(b, a)
    decreases a + b
  {
    if a + b > 0 { XorCommutes(a / 2, b / 2); }
  }

  lemma {:induction false} XorAssociates(a: nat, b: nat, c: nat)
    ensures Xor(Xor(a, b), c) == Xor(a, Xor(b, c))
    decreases a + b + c
  {
    if a + b + c > 0 {
      XorHalves(a, b);
      XorHalves(b, c);
      XorAssociates(a / 2, b / 2, c / 2);
    }
  }

  lemma {:induction false} XorSelf(a: nat, b: nat)
    ensures Xor(a, b) == 0 <==> a == b
    decreases a + b
  {
    if a + b > 0 { XorSelf(a / 2, b / 2); }
  }

  // xor of two sums, regrouped.
  lemma XorShuffle(a: nat, x: nat, b: nat, y: nat)
    ensures Xor(Xor(a, x), Xor(b, y)) == Xor(Xor(a, b), Xor(x, y))
  {
    hide Xor;
    XorAssociates(a, x, Xor(b, y));
    XorAssociates(x, b, y);
    XorCommutes(x, b);
    XorAssociates(b, x, y);
    XorAssociates(a, b, Xor(x, y));
  }

  lemma {:induction false} DropXor(a: nat, b: nat, n: nat)
    ensures Drop(Xor(a, b), n) == Xor(Drop(a, n), Drop(b, n))
    decreases n
  {
    if n > 0 {
      XorHalves(a, b);
      hide Xor;
      DropXor(a / 2, b / 2, n - 1);
    }
  }

  lemma {:induction false} DropMore(x: nat, m: nat, n: nat)
    requires m <= n && Drop(x, m) == 0
    ensures Drop(x, n) == 0
    decreases n
  {
    if n > 0 { DropMore(if m == 0 then 0 else x / 2, if m == 0 then 0 else m - 1, n - 1); }
  }

  lemma DropFour(x: nat, n: nat)
    ensures Drop(x, n + 4) == Drop(x / 16, n)
  {
    assert Drop(x, n + 4) == Drop(x / 2, n + 3) == Drop(x / 2 / 2, n + 2) == Drop(x / 2 / 2 / 2, n + 1);
    assert x / 2 / 2 / 2 / 2 == x / 16;
  }

  lemma DropEight(x: nat, n: nat)
    ensures Drop(x, n + 8) == Drop(x / 256, n)
  {
    hide Drop;
    DropFour(x, n + 4);
    DropFour(x / 16, n);
    assert x / 16 / 16 == x / 256;
  }

  lemma DropByte(b: Byte)
    ensures Drop(b, 8) == 0
  {
    assert Drop(b, 8) == Drop(b / 2 / 2 / 2 / 2, 4);
  }

  // ---------- The shift is linear and loses nothing ----------

  lemma ShiftLinear(r: nat, s: nat)
    ensures Shift(Xor(r, s)) == Xor(Shift(r), Shift(s))
  {
    XorHalves(r, s);
    hide Xor;
    var p, h, k := POLYNOMIAL, r / 2, s / 2;
    XorShuffle(h, p, k, p);
    XorSelf(p, p);
    XorZero(Xor(h, k));
    XorAssociates(h, k, p);
    XorCommutes(k, p);
    XorAssociates(h, p, k);
  }

  // A sixteen-bit register.
  predicate Wide(r: nat) { Drop(r, 16) == 0 }

  lemma PolynomialTop()
    ensures Drop(POLYNOMIAL, 15) == 1 && Drop(POLYNOMIAL, 16) == 0
  {
    DropEight(0xA001, 7);
    DropEight(0xA001, 8);
    DropEight(0xA0, 0);
    assert Drop(0xA0, 7) == Drop(0x14, 4) == Drop(0x2, 1) == Drop(1, 0);
  }

  // A shift that dropped a one sets the top bit.
  lemma OddShiftTop(r: nat)
    requires Wide(r) && r % 2 == 1
    ensures Drop(Shift(r), 15) == 1
  {
    DropXor(r / 2, POLYNOMIAL, 15);
    PolynomialTop();
    assert Drop(r, 16) == Drop(r / 2, 15);
  }

  lemma ShiftWide(r: nat)
    requires Wide(r)
    ensures Wide(Shift(r)) && (Shift(r) == 0 <==> r == 0)
  {
    assert Drop(r, 16) == Drop(r / 2, 15);
    DropMore(r / 2, 15, 16);
    if r % 2 == 1 {
      OddShiftTop(r);
      DropXor(r / 2, POLYNOMIAL, 16);
      PolynomialTop();
      assert Drop(0, 15) == 0 by { DropMore(0, 0, 15); }
    }
  }

  lemma {:induction false} ShiftsWide(r: nat, n: nat)
    requires Wide(r)
    ensures Wide(Shifts(r, n)) && (Shifts(r, n) == 0 <==> r == 0)
    decreases n
  {
    if n > 0 {
      hide Shift, Wide;
      ShiftWide(r);
      ShiftsWide(Shift(r), n - 1);
    }
  }

  // ---------- The same run, bit by bit ----------

  function FeedBit(r: nat, b: bool): nat { Shift(Xor(r, Bit(b))) }

  function FeedBits(r: nat, bits: seq<bool>): nat
    decreases |bits|
  {
    if bits == [] then r else FeedBits(FeedBit(r, bits[0]), bits[1..])
  }

  // The n lowest digits of x, least significant first.
  function LowBits(x: nat, n: nat): (bits: seq<bool>)
    ensures |bits| == n
    decreases n
  {
    if n == 0 then [] else [x % 2 == 1] + LowBits(x / 2, n - 1)
  }

  function Bits(data: seq<Byte>): (bits: seq<bool>)
    ensures |bits| == 8 * |data|
  {
    if data == [] then [] else LowBits(data[0], 8) + Bits(data[1..])
  }

  // Splitting the lowest digit off what is added to the register.
  lemma FeedLowBit(r: nat, x: nat)
    ensures Shift(Xor(r, x)) == Xor(FeedBit(r, x % 2 == 1), x / 2)
  {
    var low, high := Bit(x % 2 == 1), 2 * (x / 2);
    assert Xor(low, high) == x by { XorHalves(low, high); XorCommutes(0, x / 2); XorZero(x / 2); }
    hide Xor;
    XorAssociates(r, low, high);
    ShiftLinear(Xor(r, low), high);
    assert Shift(high) == x / 2;
  }

  lemma {:induction false} FeedLowBits(r: nat, x: nat, n: nat)
    ensures Shifts(Xor(r, x), n) == Xor(FeedBits(r, LowBits(x, n)), Drop(x, n))
    decreases n
  {
    if n > 0 {
      hide Xor, Shift, FeedBit;
      FeedLowBit(r, x);
      FeedLowBits(FeedBit(r, x % 2 == 1), x / 2, n - 1);
      assert LowBits(x, n)[1..] == LowBits(x / 2, n - 1);
    }
  }

  lemma {:induction false} FeedBitsAppend(r: nat, a: seq<bool>, b: seq<bool>)
    ensures FeedBits(r, a + b) == FeedBits(FeedBits(r, a), b)
    decreases |a|
  {
    if a == [] {
      assert a + b == b;
    } else {
      hide FeedBit;
      assert (a + b)[1..] == a[1..] + b;
      FeedBitsAppend(FeedBit(r, a[0]), a[1..], b);
    }
  }

  // The byte loop is the bit loop over the same data.
  lemma {:induction false} FeedIsFeedBits(r: nat, data: seq<Byte>)
    ensures Feed(r, data) == FeedBits(r, Bits(data))
    decreases |data|
  {
    if data == [] {
      assert Bits(data) == [];
    } else {
      hide Shifts, FeedBits, LowBits, Drop, Xor;
      FeedLowBits(r, data[0], 8);
      DropByte(data[0]);
      XorZero(FeedBits(r, LowBits(data[0], 8)));
      FeedIsFeedBits(FeedByte(r, data[0]), data[1..]);
      FeedBitsAppend(r, LowBits(data[0], 8), Bits(data[1..]));
    }
  }

  // ---------- Flipping bits ----------

  function Flips(a: seq<bool>, b: seq<bool>): (d: seq<bool>)
    requires |a| == |b|
    ensures |d| == |a| && forall i :: 0 <= i < |d| ==> d[i] == (a[i] != b[i])
  {
    seq(|a|, i requires 0 <= i < |a| => a[i] != b[i])
  }

  lemma FeedBitLinear(r: nat, s: nat, a: bool, b: bool)
    ensures Xor(FeedBit(r, a), FeedBit(s, b)) == FeedBit(Xor(r, s), a != b)
  {
    XorShuffle(r, Bit(a), s, Bit(b));
    assert Xor(Bit(a), Bit(b)) == Bit(a != b);
    hide Xor, Bit;
    ShiftLinear(Xor(r, Bit(a)), Xor(s, Bit(b)));
  }

  // Two runs differ by the run of the flipped bits.
  lemma {:induction false} DifferenceRun(r: nat, s: nat, a: seq<bool>, b: seq<bool>)
    requires |a| == |b|
    ensures Xor(FeedBits(r, a), FeedBits(s, b)) == FeedBits(Xor(r, s), Flips(a, b))
    decreases |a|
  {
    if a != [] {
      hide FeedBit, Xor;
      assert Flips(a, b)[1..] == Flips(a[1..], b[1..]);
      FeedBitLinear(r, s, a[0], b[0]);
      DifferenceRun(FeedBit(r, a[0]), FeedBit(s, b[0]), a[1..], b[1..]);
    }
  }

  ghost predicate AllFalse(bits: seq<bool>) { forall i :: 0 <= i < |bits| ==> !bits[i] }

  lemma {:induction false} ZeroBitsShift(r: nat, bits: seq<bool>)
    requires AllFalse(bits)
    ensures FeedBits(r, bits) == Shifts(r, |bits|)
    decreases |bits|
  {
    if bits != [] {
      XorZero(r);
      hide Shift, Xor;
      ZeroBitsShift(Shift(r), bits[1..]);
    }
  }

  lemma FeedBitWide(r: nat, b: bool)
    requires Wide(r)
    ensures Wide(FeedBit(r, b))
  {
    DropXor(r, Bit(b), 16);
    DropByte(Bit(b));
    DropMore(Bit(b), 8, 16);
    hide Xor, Shift, Drop, Wide;
    assert Wide(Xor(r, Bit(b))) by { XorOfWide(r, Bit(b)); }
    ShiftWide(Xor(r, Bit(b)));
  }

  lemma XorOfWide(r: nat, s: nat)
    requires Wide(r) && Drop(s, 16) == 0
    ensures Wide(Xor(r, s))
  {
    DropXor(r, s, 16);
  }

  // A shift that leaves the top bit clear dropped a zero.
  lemma EvenBeforeShift(r: nat, b: bool)
    requires Wide(r) && Drop(FeedBit(r, b), 15) == 0
    ensures (r % 2 == 1) == b && FeedBit(r, b) == r / 2
  {
    var x := Xor(r, Bit(b));
    XorHalves(r, Bit(b));
    XorZero(r / 2);
    XorOfWide(r, Bit(b)) by { DropByte(Bit(b)); DropMore(Bit(b), 8, 16); }
    if x % 2 == 1 { OddShiftTop(x); }
  }

  lemma DigitsUnfold(r: nat, n: nat)
    ensures LowBits(r, n + 1) == [r % 2 == 1] + LowBits(r / 2, n) && Drop(r, n + 1) == Drop(r / 2, n)
  {
  }

  // Backwards from zero: at most sixteen bits that clear the register are the
  // register's own contents.
  lemma {:induction false} ClearedByItself(r: nat, w: seq<bool>)
    requires Wide(r) && |w| <= 16 && FeedBits(r, w) == 0
    ensures LowBits(r, |w|) == w && Drop(r, |w|) == 0
    decreases |w|
  {
    if w != [] {
      FeedBitWide(r, w[0]);
      hide FeedBit, Wide, Drop, LowBits;
      ClearedByItself(FeedBit(r, w[0]), w[1..]);
      hide FeedBits;
      DropMore(FeedBit(r, w[0]), |w| - 1, 15);
      EvenBeforeShift(r, w[0]);
      DigitsUnfold(r, |w| - 1);
      assert w == [w[0]] + w[1..];
    }
  }

  lemma SetBitSurvives(window: seq<bool>)
    requires 0 < |window| <= 16 && window[0]
    ensures FeedBits(0, window) != 0
  {
    hide FeedBits;
    assert !LowBits(0, |window|)[0];
    DropMore(0, 0, 16);
    if FeedBits(0, window) == 0 { ClearedByItself(0, window); }
  }

  lemma {:induction false} FeedBitsWide(r: nat, bits: seq<bool>)
    requires Wide(r)
    ensures Wide(FeedBits(r, bits))
    decreases |bits|
  {
    if bits != [] {
      hide FeedBit, Wide;
      FeedBitWide(r, bits[0]);
      FeedBitsWide(FeedBit(r, bits[0]), bits[1..]);
    }
  }

  // Leading and trailing zeros do not decide whether the register ends at zero.
  lemma PaddingIrrelevant(head: seq<bool>, window: seq<bool>, tail: seq<bool>)
    requires AllFalse(head) && AllFalse(tail)
    ensures FeedBits(0, head + window + tail) == 0 <==> FeedBits(0, window) == 0
  {
    hide FeedBits, Shifts, Wide;
    assert head + window + tail == head + (window + tail);
    FeedBitsAppend(0, head, window + tail);
    ZeroBitsShift(0, head);
    ZeroIsWide();
    ShiftsWide(0, |head|);
    FeedBitsAppend(0, window, tail);
    ZeroBitsShift(FeedBits(0, window), tail);
    FeedBitsWide(0, window);
    ShiftsWide(FeedBits(0, window), |tail|);
  }

  lemma ZeroIsWide()
    ensures Wide(0)
  {
    DropMore(0, 0, 16);
  }

  // A burst: at least one bit is set and all set bits lie among sixteen consecutive ones.
  ghost predicate IsBurst(e: seq<bool>) {
    exists k :: 0 <= k < |e| && e[k] && AllFalse(e[..k]) && forall i :: k + 16 <= i < |e| ==> !e[i]
  }

  lemma BurstSurvives(e: seq<bool>)
    requires IsBurst(e)
    ensures FeedBits(0, e) != 0
  {
    hide FeedBits;
    var k :| 0 <= k < |e| && e[k] && AllFalse(e[..k]) && forall i :: k + 16 <= i < |e| ==> !e[i];
    var m := if k + 16 <= |e| then k + 16 else |e|;
    assert e == e[..k] + e[k..m] + e[m..];
    PaddingIrrelevant(e[..k], e[k..m], e[m..]);
    SetBitSurvives(e[k..m]);
  }

  // ---------- Odd numbers of flipped bits ----------

  function Count(bits: seq<bool>): nat {
    if bits == [] then 0 else Bit(bits[0]) + Count(bits[1..])
  }

  // Whether x has an odd number of ones.
  predicate Parity(x: nat) {
    x > 0 && ((x % 2 == 1) != Parity(x / 2))
  }

  lemma {:induction false} ParityLinear(a: nat, b: nat)
    ensures Parity(Xor(a, b)) == (Parity(a) != Parity(b))
    decreases a + b
  {
    if a + b > 0 {
      XorHalves(a, b);
      hide Xor;
      ParityLinear(a / 2, b / 2);
    }
  }

  // The polynomial has three ones: a shift keeps the parity of the register.
  lemma ShiftKeepsParity(r: nat)
    ensures Parity(Shift(r)) == Parity(r)
  {
    hide Xor;
    assert Parity(0x5) == false && Parity(0xA) == false && Parity(0xA0) == Parity(0x14) == Parity(0x5);
    assert Parity(0xA001);
    ParityLinear(r / 2, POLYNOMIAL);
  }

  lemma CountParity(bits: seq<bool>)
    requires bits != []
    ensures (Count(bits) % 2 == 1) == (bits[0] != (Count(bits[1..]) % 2 == 1))
  {
    OddSum(bits[0], Count(bits[1..]), Count(bits));
  }

  lemma OddSum(b: bool, rest: nat, total: nat)
    requires total == Bit(b) + rest
    ensures (total % 2 == 1) == (b != (rest % 2 == 1))
  {
  }

  lemma BitParity(b: bool)
    ensures Parity(Bit(b)) == b
  {
  }

  lemma {:induction false} RunParity(r: nat, bits: seq<bool>)
    ensures Parity(FeedBits(r, bits)) == (Parity(r) != (Count(bits) % 2 == 1))
    decreases |bits|
  {
    if bits != [] {
      CountParity(bits);
      BitParity(bits[0]);
      hide Parity, Shift, Xor, Count, Bit;
      ShiftKeepsParity(Xor(r, Bit(bits[0])));
      ParityLinear(r, Bit(bits[0]));
      RunParity(FeedBit(r, bits[0]), bits[1..]);
    }
  }

  lemma OddCountSurvives(e: seq<bool>)
    requires Count(e) % 2 == 1
    ensures FeedBits(0, e) != 0
  {
    RunParity(0, e);
  }

  // ---------- Two flipped bits ----------

  // The register does not return to one within n shifts.
  predicate Away(r: nat, n: nat)
    decreases n
  {
    n == 0 || (Shift(r) != 1 && Away(Shift(r), n - 1))
  }

  // A shift by ordinary arithmetic: the polynomial is 2^15 + 2^13 + 1.
  function Arithmetic(r: nat): nat
    requires r < 65536
  {
    var h := r / 2;
    if r % 2 == 0 then h
    else h + 32768 + (if h / 8192 % 2 == 0 then 8192 else -8192) + (if h % 2 == 0 then 1 else -1)
  }

  lemma XorDouble(x: nat, c: nat)
    ensures Xor(x, 2 * c) == 2 * Xor(x / 2, c) + x % 2
  {
    XorHalves(x, 2 * c);
  }

  lemma XorTimes16(x: nat, c: nat)
    ensures Xor(x, 16 * c) == 16 * Xor(x / 16, c) + x % 16
  {
    hide Xor;
    XorDouble(x, 8 * c);
    XorDouble(x / 2, 4 * c);
    XorDouble(x / 4, 2 * c);
    XorDouble(x / 8, c);
  }

  lemma XorTimes256(x: nat, c: nat)
    ensures Xor(x, 256 * c) == 256 * Xor(x / 256, c) + x % 256
  {
    hide Xor;
    XorTimes16(x, 16 * c);
    XorTimes16(x / 16, c);
  }

  lemma XorTimes4096(x: nat, c: nat)
    ensures Xor(x, 4096 * c) == 4096 * Xor(x / 4096, c) + x % 4096
  {
    hide Xor;
    XorTimes16(x, 256 * c);
    XorTimes256(x / 16, c);
  }

  lemma XorPolynomialHigh(x: nat)
    requires x < 4
    ensures Xor(x, 5) == (if x % 2 == 0 then x + 1 else x - 1) + 4
  {
    XorHalves(x, 5);
    XorHalves(x / 2, 2);
    XorCommutes(0, 1);
    XorZero(1);
    hide Xor;
  }

  lemma ShiftArithmetic(r: nat)
    requires r < 65536
    ensures Shift(r) == Arithmetic(r) < 65536
  {
    if r % 2 == 1 {
      var h := r / 2;
      XorHalves(h, POLYNOMIAL);
      hide Xor;
      XorTimes4096(h / 2, 5);
      XorPolynomialHigh(h / 2 / 4096);
    }
  }

  // next is one shift after r, and not one.
  predicate Follows(r: nat, next: nat) {
    r < 65536 && next == Arithmetic(r) && next != 1
  }

  lemma OneAway(r: nat, next: nat, n: nat)
    requires Follows(r, next) && Away(next, n)
    ensures Away(r, n + 1)
  {
    ShiftArithmetic(r);
  }

  lemma EightAway(r: nat, a: nat, b: nat, c: nat, d: nat, e: nat, f: nat, g: nat, end: nat, n: nat)
    requires Follows(r, a) && Follows(a, b) && Follows(b, c) && Follows(c, d)
    requires Follows(d, e) && Follows(e, f) && Follows(f, g) && Follows(g, end) && Away(end, n)
    ensures Away(r, n + 8)
  {
    hide Follows, Away;
    OneAway(g, end, n);
    OneAway(f, g, n + 1);
    OneAway(e, f, n + 2);
    OneAway(d, e, n + 3);
    OneAway(c, d, n + 4);
    OneAway(b, c, n + 5);
    OneAway(a, b, n + 6);
    OneAway(r, a, n + 7);
  }

  lemma NoneAway(r: nat)
    ensures Away(r, 0)
  {
  }

  lemma {:induction false} AwayMeansNotOne(r: nat, n: nat, d: nat)
    requires Away(r, n) && 1 <= d <= n
    ensures Shifts(r, d) != 1
    decreases n
  {
    if d > 1 { AwayMeansNotOne(Shift(r), n - 1, d - 1); } else { assert Shifts(Shift(r), 0) == Shift(r); }
  }

  // Two set bits at distance d clear the register only if a lone one returns to
  // one after d shifts.
  lemma PairSurvives(gap: seq<bool>)
    requires AllFalse(gap) && |gap| < 208
    ensures FeedBits(0, [true] + gap + [true]) != 0
  {
    var d := |gap| + 1;
    OneStaysAway();
    AwayMeansNotOne(1, 208, d);
    hide Away, Shift, Xor;
    assert [true] + gap + [true] == [true] + (gap + [true]);
    FeedBitsAppend(0, [true], gap + [true]);
    FeedBitsAppend(FeedBits(0, [true]), gap, [true]);
    assert FeedBits(0, [true]) == Shift(1) by { LoneOne(); }
    ZeroBitsShift(Shift(1), gap);
    var r := Shifts(1, d);
    assert FeedBits(0, [true] + gap + [true]) == FeedBit(r, true) by { OneBit(r, true); }
    LoneOneWide(d);
    XorSelf(r, 1);
    assert Wide(Xor(r, 1)) by { DropByte(1); DropMore(1, 8, 16); XorOfWide(r, 1); }
    ShiftWide(Xor(r, 1));
  }

  lemma OneBit(r: nat, b: bool)
    ensures FeedBits(r, [b]) == FeedBit(r, b)
  {
    assert FeedBits(FeedBit(r, b), [b][1..]) == FeedBit(r, b);
  }

  lemma LoneOne()
    ensures FeedBits(0, [true]) == Shift(1)
  {
    OneBit(0, true);
    XorCommutes(0, 1);
    XorZero(1);
  }

  lemma LoneOneWide(d: nat)
    ensures Wide(Shifts(1, d))
  {
    DropByte(1);
    DropMore(1, 8, 16);
    ShiftsWide(1, d);
  }

  ghost predicate PairAt(e: seq<bool>, i: nat, j: nat) {
    && i < j < |e| && j - i <= 208 && e[i] && e[j]
    && AllFalse(e[..i]) && AllFalse(e[i + 1..j]) && AllFalse(e[j + 1..])
  }

  // Exactly two set bits, at most 208 apart.
  ghost predicate IsPair(e: seq<bool>) { exists i: nat, j: nat :: PairAt(e, i, j) }

  lemma TwoFlipsSurvive(e: seq<bool>)
    requires IsPair(e)
    ensures FeedBits(0, e) != 0
  {
    hide FeedBits, AllFalse;
    var i: nat, j: nat :| PairAt(e, i, j);
    assert e == e[..i] + ([true] + e[i + 1..j] + [true]) + e[j + 1..];
    PaddingIrrelevant(e[..i], [true] + e[i + 1..j] + [true], e[j + 1..]);
    PairSurvives(e[i + 1..j]);
  }

  lemma {:induction false} FirstSet(e: seq<bool>) returns (i: nat)
    requires Count(e) > 0
    ensures i < |e| && e[i] && AllFalse(e[..i]) && Count(e[i + 1..]) == Count(e) - 1
  {
    if e[0] {
      i := 0;
    } else {
      var k := FirstSet(e[1..]);
      i := k + 1;
      assert e[1..][k + 1..] == e[i + 1..];
      assert forall m :: 0 < m < i ==> e[..i][m] == e[1..][..k][m - 1];
    }
  }

  lemma {:induction false} CountZero(e: seq<bool>)
    requires Count(e) == 0
    ensures AllFalse(e)
  {
    if e != [] {
      CountZero(e[1..]);
      assert forall m :: 0 < m < |e| ==> e[m] == e[1..][m - 1];
    }
  }

  // In at most 208 bits any two set bits are a pair.
  lemma TwoSetBitsArePair(e: seq<bool>)
    requires Count(e) == 2 && |e| <= 208
    ensures IsPair(e)
  {
    hide Count, AllFalse;
    var i := FirstSet(e);
    var k := FirstSet(e[i + 1..]);
    var j := i + 1 + k;
    CountZero(e[i + 1..][k + 1..]);
    assert e[i + 1..][..k] == e[i + 1..j] && e[i + 1..][k + 1..] == e[j + 1..];
    assert PairAt(e, i, j);
  }

  // The first 208 registers after a lone one, eight to a line.
  lemma OneStaysAway()
    ensures Away(0x0001, 208)
  {
    OneStaysAway16();
    hide Away, Shift;
    EightAway(0xC0C1, 0xC061, 0xC031, 0xC019, 0xC00D, 0xC007, 0xC002, 0x6001, 0x9001, 192);
    EightAway(0x0001, 0xA001, 0xF001, 0xD801, 0xCC01, 0xC601, 0xC301, 0xC181, 0xC0C1, 200);
  }

  lemma OneStaysAway16()
    ensures Away(0x9001, 192)
  {
    OneStaysAway24();
    hide Away, Shift;
    EightAway(0x9001, 0xE801, 0xD401, 0xCA01, 0xC501, 0xC281, 0xC141, 0xC0A1, 0xC051, 184);
  }

  lemma OneStaysAway24()
    ensures Away(0xC051, 184)
  {
    OneStaysAway48();
    hide Away, Shift;
    EightAway(0xC03D, 0xC01F, 0xC00E, 0x6007, 0x9002, 0x4801, 0x8401, 0xE201, 0xD101, 160);
    EightAway(0xFC01, 0xDE01, 0xCF01, 0xC781, 0xC3C1, 0xC1E1, 0xC0F1, 0xC079, 0xC03D, 168);
    EightAway(0xC051, 0xC029, 0xC015, 0xC00B, 0xC004, 0x6002, 0x3001, 0xB801, 0xFC01, 176);
  }

  lemma OneStaysAway48()
    ensures Away(0xD101, 160)
  {
    OneStaysAway72();
    hide Away, Shift;
    EightAway(0xCCC1, 0xC661, 0xC331, 0xC199, 0xC0CD, 0xC067, 0xC032, 0x6019, 0x900D, 136);
    EightAway(0xC010, 0x6008, 0x3004, 0x1802, 0x0C01, 0xA601, 0xF301, 0xD981, 0xCCC1, 144);
    EightAway(0xD101, 0xC881, 0xC441, 0xC221, 0xC111, 0xC089, 0xC045, 0xC023, 0xC010, 152);
  }

  lemma OneStaysAway72()
    ensures Away(0x900D, 136)
  {
    OneStaysAway96();
    hide Away, Shift;
    EightAway(0xFC04, 0x7E02, 0x3F01, 0xBF81, 0xFFC1, 0xDFE1, 0xCFF1, 0xC7F9, 0xC3FD, 112);
    EightAway(0xC551, 0xC2A9, 0xC155, 0xC0AB, 0xC054, 0x602A, 0x3015, 0xB80B, 0xFC04, 120);
    EightAway(0x900D, 0xE807, 0xD402, 0x6A01, 0x9501, 0xEA81, 0xD541, 0xCAA1, 0xC551, 128);
  }

  lemma OneStaysAway96()
    ensures Away(0xC3FD, 112)
  {
    OneStaysAway120();
    hide Away, Shift;
    EightAway(0xC100, 0x6080, 0x3040, 0x1820, 0x0C10, 0x0608, 0x0304, 0x0182, 0x00C1, 88);
    EightAway(0x8102, 0x4081, 0x8041, 0xE021, 0xD011, 0xC809, 0xC405, 0xC203, 0xC100, 96);
    EightAway(0xC3FD, 0xC1FF, 0xC0FE, 0x607F, 0x903E, 0x481F, 0x840E, 0x4207, 0x8102, 104);
  }

  lemma OneStaysAway120()
    ensures Away(0x00C1, 88)
  {
    OneStaysAway144();
    hide Away, Shift;
    EightAway(0x9051, 0xE829, 0xD415, 0xCA0B, 0xC504, 0x6282, 0x3141, 0xB8A1, 0xFC51, 64);
    EightAway(0x90C1, 0xE861, 0xD431, 0xCA19, 0xC50D, 0xC287, 0xC142, 0x60A1, 0x9051, 72);
    EightAway(0x00C1, 0xA061, 0xF031, 0xD819, 0xCC0D, 0xC607, 0xC302, 0x6181, 0x90C1, 80);
  }

  lemma OneStaysAway144()
    ensures Away(0xFC51, 64)
  {
    OneStaysAway168();
    hide Away, Shift;
    EightAway(0xD13D, 0xC89F, 0xC44E, 0x6227, 0x9112, 0x4889, 0x8445, 0xE223, 0xD110, 40);
    EightAway(0xFC3D, 0xDE1F, 0xCF0E, 0x6787, 0x93C2, 0x49E1, 0x84F1, 0xE279, 0xD13D, 48);
    EightAway(0xFC51, 0xDE29, 0xCF15, 0xC78B, 0xC3C4, 0x61E2, 0x30F1, 0xB879, 0xFC3D, 56);
  }

  lemma OneStaysAway168()
    ensures Away(0xD110, 40)
  {
    OneStaysAway192();
    hide Away, Shift;
    EightAway(0x9CCD, 0xEE67, 0xD732, 0x6B99, 0x95CD, 0xEAE7, 0xD572, 0x6AB9, 0x955D, 16);
    EightAway(0xCCD0, 0x6668, 0x3334, 0x199A, 0x0CCD, 0xA667, 0xF332, 0x7999, 0x9CCD, 24);
    EightAway(0xD110, 0x6888, 0x3444, 0x1A22, 0x0D11, 0xA689, 0xF345, 0xD9A3, 0xCCD0, 32);
  }

  lemma OneStaysAway192()
    ensures Away(0x955D, 16)
  {
    hide Away, Shift;
    NoneAway(0xFFF8);
    EightAway(0xF954, 0x7CAA, 0x3E55, 0xBF2B, 0xFF94, 0x7FCA, 0x3FE5, 0xBFF3, 0xFFF8, 0);
    EightAway(0x955D, 0xEAAF, 0xD556, 0x6AAB, 0x9554, 0x4AAA, 0x2555, 0xB2AB, 0xF954, 8);
  }
}
