/** The 16-bit key hash of lib/framework/sys_cfg.c, lines 11 to 22. */
module ConfigHash {
  const SEED: bv16 := 0x1234

  /** A char promoted to int and cut to 16 bits again; whether char is signed depends on the target. */
  function Promote(c: bv8, charIsSigned: bool): bv16 {
    if charIsSigned && c & 0x80 != 0 then 0xFF00 | (c as bv16) else c as bv16
  }

  /** h ^= *str */
  function Xor(h: bv16, p: bv16): bv16 {
    h ^ p
  }

  /** h *= 0x5bd1: uint16_t operands are multiplied as int, then truncated */
  function Multiply(h: bv16): bv16 {
    (((h as bv32) * 0x5bd1) & 0xFFFF) as bv16
  }

  /** h ^= h >> 7 */
  function Mix(h: bv16): bv16 {
    h ^ (h >> 7)
  }

  function Round(h: bv16, c: bv8, charIsSigned: bool): bv16 {
    Mix(Multiply(Xor(h, Promote(c, charIsSigned))))
  }

  function Hash(key: seq<bv8>, h: bv16, charIsSigned: bool): bv16 {
    if key == [] then h else Hash(key[1..], Round(h, key[0], charIsSigned), charIsSigned)
  }

  // ----- the way back -----

  function Divide(h: bv16): bv16 {
    h * 0xDD31
  }

  function Unmix(h: bv16): bv16 {
    h ^ (h >> 7) ^ (h >> 14)
  }

  function Unround(h: bv16, c: bv8, charIsSigned: bool): bv16 {
    Xor(Divide(Unmix(h)), Promote(c, charIsSigned))
  }

  /** The seed from which key hashes to h */
  function Unhash(key: seq<bv8>, h: bv16, charIsSigned: bool): bv16 {
    if key == [] then h else Unround(Unhash(key[1..], h, charIsSigned), key[0], charIsSigned)
  }

  /** The promoted product stays below 2^31, so the int multiplication never overflows. */
  lemma ProductFitsInt(h: bv16)
    ensures (h as int) * 0x5bd1 < 0x8000_0000
  {
  }

  lemma MultiplyIsBv(h: bv16)
    ensures Multiply(h) == h * 0x5bd1
  {
  }

  lemma DivideMultiply(h: bv16)
    ensures Divide(Multiply(h)) == h && Multiply(Divide(h)) == h
  {
    MultiplyIsBv(h);
    MultiplyIsBv(Divide(h));
  }

  lemma UnmixMix(h: bv16)
    ensures Unmix(Mix(h)) == h && Mix(Unmix(h)) == h
  {
  }

  lemma UnroundRound(h: bv16, c: bv8, charIsSigned: bool)
    ensures Unround(Round(h, c, charIsSigned), c, charIsSigned) == h
    ensures Round(Unround(h, c, charIsSigned), c, charIsSigned) == h
  {
    hide Xor, Multiply, Divide, Mix, Unmix, Promote;
    var p := Promote(c, charIsSigned);
    UnmixMix(Multiply(Xor(h, p)));
    DivideMultiply(Xor(h, p));
    DivideMultiply(Unmix(h));
    UnmixMix(h);
    XorTwice(h, p);
    XorTwice(Divide(Unmix(h)), p);
  }

  lemma XorTwice(h: bv16, p: bv16)
    ensures Xor(Xor(h, p), p) == h
  {
  }

  /** For every key, the map from seed to id is a bijection of the 16-bit values: Unhash inverts it
      on both sides. */
  lemma {:induction false} HashIsBijective(key: seq<bv8>, h: bv16, charIsSigned: bool)
    ensures Unhash(key, Hash(key, h, charIsSigned), charIsSigned) == h
    ensures Hash(key, Unhash(key, h, charIsSigned), charIsSigned) == h
  {
    hide Round, Unround;
    if key != [] {
      HashIsBijective(key[1..], Round(h, key[0], charIsSigned), charIsSigned);
      UnroundRound(h, key[0], charIsSigned);
      HashIsBijective(key[1..], h, charIsSigned);
      UnroundRound(Unhash(key[1..], h, charIsSigned), key[0], charIsSigned);
    }
  }

  lemma {:induction false} HashConcat(a: seq<bv8>, b: seq<bv8>, h: bv16, charIsSigned: bool)
    ensures Hash(a + b, h, charIsSigned) == Hash(b, Hash(a, h, charIsSigned), charIsSigned)
  {
    hide Round;
    if a == [] {
      assert a + b == b;
    } else {
      assert (a + b)[1..] == a[1..] + b;
      HashConcat(a[1..], b, Round(h, a[0], charIsSigned), charIsSigned);
    }
  }

  /** A common ending neither creates nor removes a collision. */
  lemma SuffixKeepsCollisions(a: seq<bv8>, b: seq<bv8>, suffix: seq<bv8>, h: bv16, charIsSigned: bool)
    ensures Hash(a + suffix, h, charIsSigned) == Hash(b + suffix, h, charIsSigned) <==>
            Hash(a, h, charIsSigned) == Hash(b, h, charIsSigned)
  {
    hide Hash, Unhash;
    HashConcat(a, suffix, h, charIsSigned);
    HashConcat(b, suffix, h, charIsSigned);
    HashIsBijective(suffix, Hash(a, h, charIsSigned), charIsSigned);
    HashIsBijective(suffix, Hash(b, h, charIsSigned), charIsSigned);
  }

  lemma PromoteInjective(c: bv8, d: bv8, charIsSigned: bool)
    ensures Promote(c, charIsSigned) == Promote(d, charIsSigned) <==> c == d
  {
  }

  lemma XorCancel(h: bv16, p: bv16, q: bv16)
    ensures Xor(h, p) == Xor(h, q) <==> p == q
  {
  }

  lemma RoundInjective(h: bv16, c: bv8, d: bv8, charIsSigned: bool)
    ensures Round(h, c, charIsSigned) == Round(h, d, charIsSigned) <==> c == d
  {
    hide Xor, Multiply, Divide, Mix, Unmix, Promote;
    var p, q := Promote(c, charIsSigned), Promote(d, charIsSigned);
    UnmixMix(Multiply(Xor(h, p)));
    UnmixMix(Multiply(Xor(h, q)));
    DivideMultiply(Xor(h, p));
    DivideMultiply(Xor(h, q));
    XorCancel(h, p, q);
    PromoteInjective(c, d, charIsSigned);
  }

  /** Two keys of equal length that differ in exactly one character never share an id. */
  lemma OneCharacterApart(a: seq<bv8>, b: seq<bv8>, i: nat, h: bv16, charIsSigned: bool)
    requires |a| == |b| && i < |a| && a[i] != b[i]
    requires forall k | 0 <= k < |a| && k != i :: a[k] == b[k]
    ensures Hash(a, h, charIsSigned) != Hash(b, h, charIsSigned)
  {
    hide Round;
    var prefix, suffix := a[..i], a[i + 1..];
    assert a == prefix + [a[i]] + suffix;
    assert b == prefix + [b[i]] + suffix;
    SuffixKeepsCollisions(prefix + [a[i]], prefix + [b[i]], suffix, h, charIsSigned);
    HashConcat(prefix, [a[i]], h, charIsSigned);
    HashConcat(prefix, [b[i]], h, charIsSigned);
    RoundInjective(Hash(prefix, h, charIsSigned), a[i], b[i], charIsSigned);
  }

  // ----- the loop -----

  /** The characters in front of the terminating NUL */
  function CString(buffer: seq<bv8>): (s: seq<bv8>)
    ensures s <= buffer && 0 !in s && (|s| < |buffer| ==> buffer[|s|] == 0)
  {
    if buffer == [] || buffer[0] == 0 then [] else [buffer[0]] + CString(buffer[1..])
  }

  /** MurmurOATT_16 on a NUL-terminated buffer */
  method MurmurOATT16(str: seq<bv8>, seed: bv16, charIsSigned: bool) returns (h: bv16)
    requires 0 in str
    ensures h == Hash(CString(str), seed, charIsSigned)
  {
    hide Round, Hash, Xor, Multiply, Mix, Promote;
    h := seed;
    var i := 0;
    while str[i] != 0
      invariant 0 <= i < |str| && 0 in str[i..]
      invariant Hash(CString(str), seed, charIsSigned) == Hash(CString(str[i..]), h, charIsSigned)
      decreases |str| - i
    {
      HashStep(str[i..], h, charIsSigned);
      assert str[i..][1..] == str[i + 1..];
      h := Xor(h, Promote(str[i], charIsSigned));
      h := Multiply(h);
      h := Mix(h);
      i := i + 1;
    }
    EmptyHash(str[i..], h, charIsSigned);
  }

  lemma HashStep(str: seq<bv8>, h: bv16, charIsSigned: bool)
    requires str != [] && str[0] != 0
    ensures Hash(CString(str), h, charIsSigned)
         == Hash(CString(str[1..]), Mix(Multiply(Xor(h, Promote(str[0], charIsSigned)))), charIsSigned)
  {
    hide Xor, Mix, Multiply, Promote;
    assert CString(str)[1..] == CString(str[1..]);
  }

  lemma EmptyHash(str: seq<bv8>, h: bv16, charIsSigned: bool)
    requires str != [] && str[0] == 0
    ensures Hash(CString(str), h, charIsSigned) == h
  {
  }
}
