/** The bitwise CRC-8 checker of app/src/shtc3.c, lines 80 to 103. */
module Crc8 {
  import opened Gf2

  const CRC_POLYNOMIAL: bv16 := 0x131
  const SHTC3_NO_ERROR: bv8 := 0
  /** -1 returned through a uint8_t */
  const SHTC3_CHECKSUM_ERROR: bv8 := 0xFF

  /** One turn of the inner loop. C shifts and xors in int and then truncates to uint8_t. */
  function Shift(crc: bv8): bv8 {
    if crc & 0x80 != 0
    then ((((crc as bv16) << 1) ^ CRC_POLYNOMIAL) & 0xFF) as bv8
    else (((crc as bv16) << 1) & 0xFF) as bv8
  }

  function Shifts(crc: bv8, k: nat): bv8 {
    if k == 0 then crc else Shift(Shifts(crc, k - 1))
  }

  function Crc(data: seq<bv8>): bv8 {
    if data == [] then 0xFF else Shifts(Crc(data[..|data| - 1]) ^ data[|data| - 1], 8)
  }

  /** data followed by its checksum, as it comes over the wire */
  predicate Accepts(word: seq<bv8>) {
    word != [] && Crc(word[..|word| - 1]) == word[|word| - 1]
  }

  // ----- bytes as polynomials -----

  function Mask(i: nat): bv8 {
    if i == 0 then 0x01 else if i == 1 then 0x02 else if i == 2 then 0x04 else if i == 3 then 0x08
    else if i == 4 then 0x10 else if i == 5 then 0x20 else if i == 6 then 0x40 else 0x80
  }

  predicate Bit(b: bv8, i: nat) {
    i < 8 && b & Mask(i) != 0
  }

  function Bits(b: bv8): (r: Poly)
    ensures forall i: nat {:trigger i in r} :: i in r <==> Bit(b, i)
  {
    set i: nat | i < 8 && Bit(b, i)
  }

  /** The bits of data, most significant bit of the first byte first, as the coefficients of a
      polynomial: exponent e is bit e % 8 of the byte that is e / 8 bytes before the last. */
  function Coefficients(data: seq<bv8>): (r: Poly)
    ensures forall e: nat {:trigger e in r} ::
      e in r <==> e < 8 * |data| && Bit(data[|data| - 1 - e / 8], e % 8)
  {
    set e: nat | e < 8 * |data| && Bit(data[|data| - 1 - e / 8], e % 8)
  }

  /** What the checker divides: D(x) * x^8 plus the preset 0xFF in front of the first byte. */
  function Dividend(data: seq<bv8>): Poly {
    Add(Times(Coefficients(data), 8), Times(Bits(0xFF), 8 * |data|))
  }

  /** Truncating the int to uint8_t never drops a set bit. */
  lemma TruncationIsLossless(crc: bv8)
    ensures Shift(crc) as bv16 ==
            if crc & 0x80 != 0 then ((crc as bv16) << 1) ^ CRC_POLYNOMIAL else (crc as bv16) << 1
  {
  }

  lemma ShiftBit(crc: bv8, i: nat)
    ensures Bit(Shift(crc), i) <==>
            (0 < i < 8 && Bit(crc, i - 1)) != (Bit(crc, 7) && (i == 0 || i == 4 || i == 5))
  {
  }

  lemma XorMask(b: bv8, c: bv8, m: bv8)
    requires m & (m - 1) == 0
    ensures (b ^ c) & m != 0 <==> (b & m != 0) != (c & m != 0)
  {
    assert (b ^ c) & m == (b & m) ^ (c & m);
  }

  lemma XorBit(b: bv8, c: bv8, i: nat)
    ensures Bit(b ^ c, i) <==> Bit(b, i) != Bit(c, i)
  {
    XorMask(b, c, Mask(i));
  }

  lemma BitsInjective(b: bv8, c: bv8)
    requires Bits(b) == Bits(c)
    ensures b == c
  {
    forall i: nat | i < 8 ensures Bit(b, i) == Bit(c, i) {
      assert i in Bits(b) <==> i in Bits(c);
    }
    SameBits(b, c);
  }

  lemma SameBits(b: bv8, c: bv8)
    requires forall i: nat :: i < 8 ==> Bit(b, i) == Bit(c, i)
    ensures b == c
  {
    assert Bit(b, 0) == Bit(c, 0) && Bit(b, 1) == Bit(c, 1) && Bit(b, 2) == Bit(c, 2) && Bit(b, 3) == Bit(c, 3);
    assert Bit(b, 4) == Bit(c, 4) && Bit(b, 5) == Bit(c, 5) && Bit(b, 6) == Bit(c, 6) && Bit(b, 7) == Bit(c, 7);
  }

  /** One turn of the inner loop multiplies by x modulo P. */
  lemma ShiftMultiplies(crc: bv8)
    ensures Congruent(Times(Bits(crc), 1), Bits(Shift(crc)))
  {
    hide Add, Times, Bits;
    var q: Poly := if Bit(crc, 7) then {0} else {};
    var a := Add(Times(Bits(crc), 1), Bits(Shift(crc)));
    forall e: nat ensures e in a <==> e in TimesP(q) {
      ShiftBit(crc, e);
      if e < 1 {
        assert !Bit(crc, 8);
      }
    }
    assert a == TimesP(q);
  }

  lemma {:induction false} ShiftsMultiply(crc: bv8, k: nat)
    ensures Congruent(Times(Bits(crc), k), Bits(Shifts(crc, k)))
  {
    hide Add, Times, Bits, Shift, TimesP;
    if k == 0 {
      assert Times(Bits(crc), 0) == Bits(crc);
      CongruentRefl(Bits(crc));
    } else {
      ShiftsMultiply(crc, k - 1);
      CongruentTimes(Times(Bits(crc), k - 1), Bits(Shifts(crc, k - 1)), 1);
      assert Times(Times(Bits(crc), k - 1), 1) == Times(Bits(crc), k);
      ShiftMultiplies(Shifts(crc, k - 1));
      CongruentTrans(Times(Bits(crc), k), Times(Bits(Shifts(crc, k - 1)), 1), Bits(Shifts(crc, k)));
    }
  }

  lemma Horner(init: seq<bv8>, last: bv8)
    ensures Dividend(init + [last]) == Times(Add(Dividend(init), Bits(last)), 8)
  {
    hide Add, Times, Bits, Mask, Coefficients;
    var data := init + [last];
    forall e: nat ensures e in Coefficients(data) <==> e in Add(Times(Coefficients(init), 8), Bits(last)) {
      if e < 8 {
        assert data[|data| - 1 - e / 8] == last;
      } else {
        assert e < 8 * |data| ==> data[|data| - 1 - e / 8] == init[|init| - 1 - (e - 8) / 8];
      }
    }
    assert Dividend(data) == Times(Add(Dividend(init), Bits(last)), 8);
  }

  lemma BitsXor(b: bv8, c: bv8)
    ensures Add(Bits(b), Bits(c)) == Bits(b ^ c)
  {
    hide Add, Bits, Mask;
    forall e: nat ensures e in Add(Bits(b), Bits(c)) <==> e in Bits(b ^ c) {
      XorBit(b, c, e);
    }
  }

  lemma EmptyDividend()
    ensures Dividend([]) == Bits(0xFF)
  {
    hide Add, Times, Bits, Mask, Coefficients;
  }

  lemma {:induction false} CrcCongruent(data: seq<bv8>)
    ensures Congruent(Dividend(data), Bits(Crc(data)))
  {
    hide Congruent, Dividend, Shifts, Add, Times, Bits;
    if data == [] {
      EmptyDividend();
      CongruentRefl(Bits(0xFF));
    } else {
      var init, last := data[..|data| - 1], data[|data| - 1];
      assert data == init + [last];
      CrcCongruent(init);
      CongruentAdd(Dividend(init), Bits(Crc(init)), Bits(last));
      BitsXor(Crc(init), last);
      CongruentTimes(Add(Dividend(init), Bits(last)), Bits(Crc(init) ^ last), 8);
      Horner(init, last);
      ShiftsMultiply(Crc(init) ^ last, 8);
      CongruentTrans(Dividend(data), Times(Bits(Crc(init) ^ last), 8), Bits(Crc(data)));
    }
  }

  /** The checker computes the remainder of D(x) * x^8 + 0xFF * x^(8n) modulo P. */
  lemma CrcIsRemainder(data: seq<bv8>)
    ensures IsRemainder(Dividend(data), Bits(Crc(data)))
  {
    hide Dividend, Congruent, Shifts, Crc, Mask;
    CrcCongruent(data);
  }

  lemma {:induction false} ShiftsZero(crc: bv8, k: nat)
    ensures Shifts(crc, k) == 0 <==> crc == 0
  {
    if k > 0 {
      ShiftsZero(crc, k - 1);
    }
  }

  /** Checking data against its checksum is running on over the checksum and ending at 0, ... */
  lemma AcceptsIffZero(word: seq<bv8>)
    requires word != []
    ensures Accepts(word) <==> Crc(word) == 0
  {
    var x := Crc(word[..|word| - 1]) ^ word[|word| - 1];
    ShiftsZero(x, 8);
    assert x == 0 <==> Crc(word[..|word| - 1]) == word[|word| - 1];
  }

  /** ... which is divisibility by P. */
  lemma AcceptsIffMultiple(word: seq<bv8>)
    requires word != []
    ensures Accepts(word) <==> IsMultiple(Dividend(word))
  {
    hide Add, Times, TimesP, Mask, Shift, Coefficients;
    AcceptsIffZero(word);
    CrcIsRemainder(word);
    var a, r := Dividend(word), Bits(Crc(word));
    assert Bits(0) == {} by { NoBits(); }
    assert Add(a, {}) == a;
    if IsMultiple(a) {
      RemainderUnique(a, r, {});
      BitsInjective(Crc(word), 0);
    }
  }

  lemma NoBits()
    ensures Bits(0) == {}
  {
  }

  // ----- what the checksum detects -----

  /** The flipped bits between two words: position 0 is the last bit of the checksum. */
  function Flipped(v: seq<bv8>, w: seq<bv8>): Poly {
    Add(Coefficients(v), Coefficients(w))
  }

  lemma FlippedNone(v: seq<bv8>, w: seq<bv8>)
    requires |v| == |w|
    ensures Flipped(v, w) == {} <==> v == w
  {
    hide Mask, Coefficients, Bits;
    if Flipped(v, w) == {} {
      forall i | 0 <= i < |v| ensures v[i] == w[i] {
        forall j: nat | j < 8 ensures Bit(v[i], j) == Bit(w[i], j) {
          var e := 8 * (|v| - 1 - i) + j;
          assert e !in Flipped(v, w);
          assert e / 8 == |v| - 1 - i && e % 8 == j;
        }
        SameBits(v[i], w[i]);
      }
    }
  }

  /** An error goes undetected exactly when its bit positions form a multiple of P. */
  lemma UndetectedIffMultiple(v: seq<bv8>, w: seq<bv8>)
    requires |v| == |w| && Accepts(v)
    ensures Accepts(w) <==> IsMultiple(Flipped(v, w))
  {
    hide Add, Times, TimesP, Coefficients, Bits;
    AcceptsIffMultiple(v);
    AcceptsIffMultiple(w);
    var f := Times(Flipped(v, w), 8);
    assert Add(Dividend(v), Dividend(w)) == f;
    if IsMultiple(Flipped(v, w)) {
      MultipleTimes(Flipped(v, w), 8);
      MultipleAdd(Dividend(v), f);
      assert Add(Dividend(v), f) == Dividend(w);
    }
    if Accepts(w) {
      MultipleAdd(Dividend(v), Dividend(w));
      DivideByX(Flipped(v, w), 8);
    }
  }

  /** A burst of flipped bits inside 8 consecutive positions is detected at any length. */
  lemma BurstDetected(v: seq<bv8>, w: seq<bv8>, lo: nat)
    requires |v| == |w| && v != w && Accepts(v)
    requires forall e :: e in Flipped(v, w) ==> lo <= e < lo + 8
    ensures !Accepts(w)
  {
    hide Flipped;
    UndetectedIffMultiple(v, w);
    FlippedNone(v, w);
    if Accepts(w) {
      var a, b := MultipleSpan(Flipped(v, w));
    }
  }

  /** An odd number of flipped bits is detected at any length. */
  lemma OddDetected(v: seq<bv8>, w: seq<bv8>)
    requires |v| == |w| && Accepts(v)
    requires |Flipped(v, w)| % 2 == 1
    ensures !Accepts(w)
  {
    hide Flipped;
    UndetectedIffMultiple(v, w);
    if Accepts(w) {
      MultipleEven(Flipped(v, w));
    }
  }

  lemma {:induction false} ShiftsAdd(crc: bv8, j: nat, k: nat)
    ensures Shifts(crc, j + k) == Shifts(Shifts(crc, j), k)
  {
    if k > 0 {
      ShiftsAdd(crc, j, k - 1);
    }
  }

  // ----- the order of x modulo P -----

  /** The walk c, Shift(c), ... meets 1 for the first time after k turns. */
  predicate FirstReaches1(c: bv8, k: nat)
    decreases k
  {
    if k == 0 then c == 1 else c != 1 && FirstReaches1(Shift(c), k - 1)
  }

  lemma {:induction false} FirstReaches1Means(c: bv8, k: nat, j: nat)
    requires FirstReaches1(c, k) && j <= k
    ensures Shifts(c, j) == 1 <==> j == k
    decreases k
  {
    hide Shift;
    if j > 0 {
      FirstReaches1Means(Shift(c), k - 1, j - 1);
      ShiftsAdd(c, 1, j - 1);
      assert Shifts(c, 1) == Shift(Shifts(c, 0));
    }
  }

  function Shift4(c: bv8): bv8 {
    Shift(Shift(Shift(Shift(c))))
  }

  lemma WalkBack4(c: bv8, k: nat)
    requires FirstReaches1(Shift4(c), k)
    requires c != 1 && Shift(c) != 1 && Shift(Shift(c)) != 1 && Shift(Shift(Shift(c))) != 1
    ensures FirstReaches1(c, k + 4)
  {
    hide Shift;
    assert FirstReaches1(Shift(Shift(Shift(c))), k + 1);
    assert FirstReaches1(Shift(Shift(c)), k + 2);
    assert FirstReaches1(Shift(c), k + 3);
  }

  lemma WalkBack8(c: bv8, k: nat)
    requires FirstReaches1(Shift4(Shift4(c)), k)
    requires c != 1 && Shift(c) != 1 && Shift(Shift(c)) != 1 && Shift(Shift(Shift(c))) != 1
    requires var d := Shift4(c);
             d != 1 && Shift(d) != 1 && Shift(Shift(d)) != 1 && Shift(Shift(Shift(d))) != 1
    ensures FirstReaches1(c, k + 8)
  {
    hide Shift, Shift4;
    WalkBack4(Shift4(c), k);
    WalkBack4(c, k + 4);
  }

  lemma SecondHalf()
    ensures FirstReaches1(0xE3, 70)
  {
    assert FirstReaches1(1, 0);
    assert FirstReaches1(0xD0, 6) by {
      assert FirstReaches1(0x4C, 2);
      WalkBack4(0xD0, 2);
    }
    WalkBack8(0xC7, 6); WalkBack8(0x58, 14); WalkBack8(0xCE, 22);
    WalkBack8(0xFD, 30); WalkBack8(0x94, 38); WalkBack8(0x5B, 46);
    WalkBack8(0x92, 54); WalkBack8(0xE3, 62);
  }

  lemma OrderIs127()
    ensures FirstReaches1(2, 126)
  {
    SecondHalf();
    WalkBack8(0xAE, 70); WalkBack8(0x97, 78); WalkBack8(0x07, 86);
    WalkBack8(0x8C, 94); WalkBack8(0xD9, 102); WalkBack8(0x62, 110);
    WalkBack8(0x02, 118);
  }

  /** x has order 127 modulo P: x^d leaves the remainder 1 exactly at the multiples of 127. */
  lemma {:induction false} OrderOfX(d: nat)
    ensures Shifts(1, d) == 1 <==> d % 127 == 0
  {
    hide FirstReaches1, Shift;
    if d == 0 {
    } else {
      OrderIs127();
      assert Shifts(1, 1) == 2 by { ShiftOf1(); }
      if d <= 127 {
        FirstReaches1Means(2, 126, d - 1);
        ShiftsAdd(1, 1, d - 1);
      } else {
        FirstReaches1Means(2, 126, 126);
        ShiftsAdd(1, 1, 126);
        ShiftsAdd(1, 127, d - 127);
        OrderOfX(d - 127);
      }
    }
  }

  lemma ShiftOf1()
    ensures Shifts(1, 1) == 2
  {
    assert Shifts(1, 1) == Shift(Shifts(1, 0));
  }

  lemma BitsOf1()
    ensures Bits(1) == {0}
  {
    forall i: nat ensures i in Bits(1) <==> i == 0 {
    }
  }

  /** Two flipped bits go undetected exactly when a multiple of 127 positions lies between them. */
  lemma TwoBitsUndetectedIff(v: seq<bv8>, w: seq<bv8>, a: nat, b: nat)
    requires |v| == |w| && Accepts(v)
    requires a < b && Flipped(v, w) == {a, b}
    ensures Accepts(w) <==> (b - a) % 127 == 0
  {
    hide Flipped, Bits, Shifts, IsMultiple;
    var d := b - a;
    var f: Poly := {0, d};
    UndetectedIffMultiple(v, w);
    assert {a, b} == Times(f, a);
    assert IsMultiple({a, b}) <==> IsMultiple(f) by {
      if IsMultiple(f) { MultipleTimes(f, a); }
      if IsMultiple({a, b}) { DivideByX(f, a); }
    }
    MultipleIffPowerIs1(d);
    OrderOfX(d);
  }

  lemma MultipleIffPowerIs1(d: nat)
    requires d > 0
    ensures IsMultiple({0, d}) <==> Shifts(1, d) == 1
  {
    hide Bits, Shifts, IsMultiple, Mask;
    var xd := Times({0}, d);
    assert xd == {d};
    BitsOf1();
    ShiftsMultiply(1, d);
    assert {0, d} == Add(xd, {0});
    if IsMultiple({0, d}) {
      assert Congruent(xd, {0});
      RemainderUnique(xd, {0}, Bits(Shifts(1, d)));
      BitsInjective(Shifts(1, d), 1);
    }
  }

  lemma TwoElements(f: Poly) returns (a: nat, b: nat)
    requires |f| == 2
    ensures a < b && f == {a, b}
  {
    var x :| x in f;
    assert |f - {x}| == 1;
    var y :| y in f - {x};
    assert |f - {x} - {y}| == 0;
    a, b := if x < y then x else y, if x < y then y else x;
  }

  lemma FlippedBound(v: seq<bv8>, w: seq<bv8>, e: nat)
    requires |v| == |w| && e in Flipped(v, w)
    ensures e < 8 * |v|
  {
    hide Bit, Coefficients;
  }

  /** Up to three flipped bits are always detected in words of up to 15 bytes. */
  lemma UpToThreeBitsDetected(v: seq<bv8>, w: seq<bv8>)
    requires |v| == |w| <= 15 && Accepts(v)
    requires 1 <= |Flipped(v, w)| <= 3
    ensures !Accepts(w)
  {
    hide Flipped, Coefficients;
    var f := Flipped(v, w);
    if |f| == 2 {
      var a, b := TwoElements(f);
      FlippedBound(v, w, b);
      TwoBitsUndetectedIff(v, w, a, b);
    } else {
      OddDetected(v, w);
    }
  }

  /** shtc3_checkcrc, on the nbrOfBytes bytes that data points to */
  method CheckCrc(data: seq<bv8>, nbrOfBytes: nat, checksum: bv8) returns (status: bv8)
    requires nbrOfBytes <= |data| && nbrOfBytes < 256
    ensures status == SHTC3_NO_ERROR || status == SHTC3_CHECKSUM_ERROR
    ensures status == if Crc(data[..nbrOfBytes]) == checksum then 0 else 0xFF
    ensures status == SHTC3_NO_ERROR <==> IsRemainder(Dividend(data[..nbrOfBytes]), Bits(checksum))
    ensures status == SHTC3_NO_ERROR <==> Accepts(data[..nbrOfBytes] + [checksum])
  {
    hide Dividend, Bits, Congruent, IsRemainder, Mask, Coefficients;
    var crc: bv8 := 0xFF;
    var byteCtr := 0;
    while byteCtr < nbrOfBytes
      invariant 0 <= byteCtr <= nbrOfBytes
      invariant crc == Crc(data[..byteCtr])
    {
      crc := crc ^ data[byteCtr];
      ghost var start := crc;
      var bitmask := 8;
      while bitmask > 0
        invariant 0 <= bitmask <= 8
        invariant crc == Shifts(start, 8 - bitmask)
      {
        if crc & 0x80 != 0 {
          crc := ((((crc as bv16) << 1) ^ CRC_POLYNOMIAL) & 0xFF) as bv8;
        } else {
          crc := (((crc as bv16) << 1) & 0xFF) as bv8;
        }
        bitmask := bitmask - 1;
      }
      assert data[..byteCtr + 1][..byteCtr] == data[..byteCtr];
      byteCtr := byteCtr + 1;
    }
    ghost var word := data[..nbrOfBytes] + [checksum];
    assert word[..|word| - 1] == data[..nbrOfBytes];
    CrcAcceptsRemainder(data[..nbrOfBytes], checksum);
    if crc != checksum {
      return SHTC3_CHECKSUM_ERROR;
    } else {
      return SHTC3_NO_ERROR;
    }
  }

  lemma CrcAcceptsRemainder(data: seq<bv8>, checksum: bv8)
    ensures Crc(data) == checksum <==> IsRemainder(Dividend(data), Bits(checksum))
  {
    hide Dividend, Congruent, Mask, Crc;
    CrcIsRemainder(data);
    if IsRemainder(Dividend(data), Bits(checksum)) {
      RemainderUnique(Dividend(data), Bits(Crc(data)), Bits(checksum));
      BitsInjective(Crc(data), checksum);
    }
  }

  /** Three checksums, by value: the preset, and one byte and two bytes behind it */
  lemma SampleChecksums()
    ensures Crc([]) == 0xFF && Crc([0x00]) == 0xAC && Crc([0xBE, 0xEF]) == 0x92
  {
    assert Shifts(0xFF, 1) == 0xCF && Shifts(0xFF, 2) == 0xAF && Shifts(0xFF, 3) == 0x6F && Shifts(0xFF, 4) == 0xDE;
    assert Shifts(0xFF, 5) == 0x8D && Shifts(0xFF, 6) == 0x2B && Shifts(0xFF, 7) == 0x56 && Shifts(0xFF, 8) == 0xAC;
    assert Shifts(0x41, 1) == 0x82 && Shifts(0x41, 2) == 0x35 && Shifts(0x41, 3) == 0x6A && Shifts(0x41, 4) == 0xD4;
    assert Shifts(0x41, 5) == 0x99 && Shifts(0x41, 6) == 0x03 && Shifts(0x41, 7) == 0x06 && Shifts(0x41, 8) == 0x0C;
    assert Shifts(0xE3, 1) == 0xF7 && Shifts(0xE3, 2) == 0xDF && Shifts(0xE3, 3) == 0x8F && Shifts(0xE3, 4) == 0x2F;
    assert Shifts(0xE3, 5) == 0x5E && Shifts(0xE3, 6) == 0xBC && Shifts(0xE3, 7) == 0x49 && Shifts(0xE3, 8) == 0x92;
    assert [0xBE, 0xEF][..1] == [0xBE] && [0xBE][..0] == [] && [0x00][..0] == [];
    assert Crc([0xBE]) == 0x0C;
  }
}
