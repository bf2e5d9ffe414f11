/** The parts of snprintf and atoi that the application uses: decimal numbers in C strings. */
module Decimal {
  import opened ConfigHash
  import opened Settings

  const MINUS: bv8 := 0x2D

  function DigitChar(d: nat): bv8
    requires d < 10
  {
    if d == 0 then 0x30 else if d == 1 then 0x31 else if d == 2 then 0x32 else if d == 3 then 0x33
    else if d == 4 then 0x34 else if d == 5 then 0x35 else if d == 6 then 0x36 else if d == 7 then 0x37
    else if d == 8 then 0x38 else 0x39
  }

  function DigitValue(c: bv8): nat {
    if c == 0x31 then 1 else if c == 0x32 then 2 else if c == 0x33 then 3 else if c == 0x34 then 4
    else if c == 0x35 then 5 else if c == 0x36 then 6 else if c == 0x37 then 7 else if c == 0x38 then 8
    else if c == 0x39 then 9 else 0
  }

  predicate IsDigit(c: bv8) {
    0x30 <= c <= 0x39
  }

  predicate IsSpace(c: bv8) {
    c == 0x20 || 0x09 <= c <= 0x0D
  }

  /** %u and %hu */
  function Digits(n: nat): (s: Bytes)
    ensures s != [] && forall i :: 0 <= i < |s| ==> IsDigit(s[i])
  {
    if n < 10 then [DigitChar(n)] else Digits(n / 10) + [DigitChar(n % 10)]
  }

  /** %d */
  function FormatInt(i: int): Bytes {
    if i < 0 then [MINUS] + Digits(-i) else Digits(i)
  }

  /** snprintf(buffer, sizeof(buffer), ...) of a text: what does not fit in front of the NUL is cut */
  function Snprintf(buffer: Bytes, text: Bytes): (r: Bytes)
    requires buffer != []
    ensures |r| == |buffer|
  {
    if |text| < |buffer| then text + [0] + buffer[|text| + 1..] else text[..|buffer| - 1] + [0]
  }

  function ScanDigits(s: Bytes, acc: nat): nat {
    if s == [] || !IsDigit(s[0]) then acc else ScanDigits(s[1..], 10 * acc + DigitValue(s[0]))
  }

  /** atoi on the characters of a C string */
  function Atoi(s: Bytes): int {
    if s == [] then 0
    else if IsSpace(s[0]) then Atoi(s[1..])
    else if s[0] == MINUS then -(ScanDigits(s[1..], 0) as int)
    else if s[0] == 0x2B then ScanDigits(s[1..], 0)
    else ScanDigits(s, 0)
  }

  lemma {:induction false} ScanConcat(s: Bytes, t: Bytes, acc: nat)
    requires forall i :: 0 <= i < |s| ==> IsDigit(s[i])
    ensures ScanDigits(s + t, acc) == ScanDigits(t, ScanDigits(s, acc))
  {
    hide IsDigit, DigitValue;
    if s == [] {
      assert s + t == t;
    } else {
      assert (s + t)[1..] == s[1..] + t;
      ScanConcat(s[1..], t, 10 * acc + DigitValue(s[0]));
    }
  }

  lemma DigitValueChar(d: nat)
    requires d < 10
    ensures DigitValue(DigitChar(d)) == d && IsDigit(DigitChar(d))
  {
  }

  lemma {:induction false} ScanOfDigits(n: nat)
    ensures ScanDigits(Digits(n), 0) == n
  {
    hide IsDigit, DigitValue, DigitChar;
    var last := [DigitChar(n % 10)];
    DigitValueChar(n % 10);
    assert last[1..] == [];
    if n < 10 {
      assert ScanDigits(last, 0) == n % 10;
    } else {
      ScanOfDigits(n / 10);
      ScanConcat(Digits(n / 10), last, 0);
      assert ScanDigits(last, n / 10) == 10 * (n / 10) + n % 10;
    }
  }

  lemma DigitIsPlain(c: bv8)
    requires IsDigit(c)
    ensures c != 0 && c != MINUS && c != 0x2B && !IsSpace(c)
  {
  }

  /** atoi reads back what %u or %hu wrote. */
  lemma AtoiOfDigits(n: nat)
    ensures Atoi(Digits(n)) == n && 0 !in Digits(n)
  {
    hide IsDigit, DigitValue, DigitChar, IsSpace;
    ScanOfDigits(n);
    forall i | 0 <= i < |Digits(n)| ensures Digits(n)[i] != 0 {
      DigitIsPlain(Digits(n)[i]);
    }
    DigitIsPlain(Digits(n)[0]);
  }

  /** atoi reads back what %d wrote. */
  lemma AtoiOfInt(i: int)
    ensures Atoi(FormatInt(i)) == i && 0 !in FormatInt(i)
  {
    hide IsDigit, DigitValue, DigitChar, Digits;
    AtoiOfDigits(if i < 0 then -i else i);
    if i < 0 {
      ScanOfDigits(-i);
      assert FormatInt(i)[1..] == Digits(-i);
      assert forall c | c in FormatInt(i) :: c == MINUS || c in Digits(-i);
    }
  }

  lemma {:induction false} DigitsLength(n: nat, k: nat, bound: nat)
    requires k > 0 && bound == Power10(k) && n < bound
    ensures |Digits(n)| <= k
    decreases k
  {
    hide IsDigit, DigitChar;
    if n >= 10 {
      DigitsLength(n / 10, k - 1, Power10(k - 1));
    }
  }

  function Power10(k: nat): nat {
    if k == 0 then 1 else 10 * Power10(k - 1)
  }

  lemma {:induction false} CStringOfPrefix(text: Bytes, rest: Bytes)
    requires 0 !in text && (rest == [] || rest[0] == 0)
    ensures CString(text + rest) == text
  {
    if text == [] {
      assert text + rest == rest;
    } else {
      assert (text + rest)[1..] == text[1..] + rest;
      CStringOfPrefix(text[1..], rest);
    }
  }

  /** A text that fits is the C string that snprintf leaves in the buffer, whatever was there before. */
  lemma CStringOfSnprintf(buffer: Bytes, text: Bytes)
    requires |text| < |buffer| && 0 !in text
    ensures CString(Snprintf(buffer, text)) == text && 0 in Snprintf(buffer, text)
  {
    var rest := [0] + buffer[|text| + 1..];
    assert Snprintf(buffer, text) == text + rest;
    CStringOfPrefix(text, rest);
    assert Snprintf(buffer, text)[|text|] == 0;
  }

  function Zeros(n: nat): (r: Bytes)
    ensures |r| == n && forall i :: 0 <= i < n ==> r[i] == 0
  {
    if n == 0 then [] else [0] + Zeros(n - 1)
  }

  /** A record copied into a zeroed buffer that is longer than it is a C string. */
  lemma CStringOfRecord(record: Bytes, n: nat)
    requires |record| < n && 0 !in record
    ensures CString(CopyInto(record, Zeros(n))) == record
  {
    CStringOfPrefix(record, Zeros(n)[|record|..]);
  }

  // ----- what the texts look like -----

  /** n without its last i decimal places */
  function Tenths(n: nat, i: nat): nat {
    if i == 0 then n else Tenths(n / 10, i - 1)
  }

  lemma DigitCharIs(d: nat)
    requires d < 10
    ensures DigitChar(d) == 0x30 + d as bv8
  {
  }

  /** The decimal text of n, character by character: the i-th from the right is the digit of 10^i, and only
      "0" begins with a zero. */
  lemma {:induction false} DigitsAt(n: nat, i: nat)
    requires i < |Digits(n)|
    ensures Digits(n)[|Digits(n)| - 1 - i] == 0x30 + (Tenths(n, i) % 10) as bv8
    ensures Tenths(n, |Digits(n)|) == 0
    ensures Digits(n)[0] == 0x30 ==> n == 0 && |Digits(n)| == 1
  {
    DigitCharIs(n % 10);
    hide IsDigit, DigitChar;
    if n >= 10 {
      DigitsAt(n / 10, if i > 0 then i - 1 else 0);
    }
  }

  /** The text of a negative number, and of no other, begins with a minus. */
  lemma FormatIntSign(i: int)
    ensures i < 0 ==> FormatInt(i) == [0x2D] + Digits(-i)
    ensures i >= 0 ==> FormatInt(i) == Digits(i) && FormatInt(i)[0] != 0x2D
  {
    hide Digits;
    if i >= 0 {
      DigitIsPlain(Digits(i)[0]);
    }
  }

  /** Blanks of C: space, tab, newline, vertical tab, form feed, carriage return */
  predicate AllBlank(s: Bytes) {
    forall i :: 0 <= i < |s| ==> s[i] == 0x20 || 0x09 <= s[i] <= 0x0D
  }

  lemma ScanStops(s: Bytes, rest: Bytes)
    requires forall i :: 0 <= i < |s| ==> IsDigit(s[i])
    requires rest == [] || !(0x30 <= rest[0] <= 0x39)
    ensures ScanDigits(s + rest, 0) == ScanDigits(s, 0)
  {
    ScanConcat(s, rest, 0);
    hide DigitValue;
  }

  /** atoi skips blanks, takes one sign, reads the digits, and ignores what follows them. */
  lemma {:induction false} AtoiOfText(blanks: Bytes, sign: Bytes, n: nat, rest: Bytes)
    requires AllBlank(blanks) && (sign == [] || sign == [0x2D] || sign == [0x2B])
    requires rest == [] || !(0x30 <= rest[0] <= 0x39)
    ensures Atoi(blanks + (sign + (Digits(n) + rest))) == if sign == [0x2D] then -(n as int) else n
  {
    hide DigitValue, Digits, DigitChar;
    var text := sign + (Digits(n) + rest);
    if blanks == [] {
      assert blanks + text == text;
      ScanOfDigits(n);
      ScanStops(Digits(n), rest);
      DigitIsPlain(Digits(n)[0]);
      hide IsDigit, ScanDigits;
      assert sign == [] ==> text == Digits(n) + rest;
      assert sign != [] ==> text[1..] == Digits(n) + rest;
    } else {
      assert (blanks + text)[1..] == blanks[1..] + text;
      hide ScanDigits, IsDigit;
      AtoiOfText(blanks[1..], sign, n, rest);
    }
  }

  /** snprintf always leaves a C string, and cuts the text to what fits. */
  lemma SnprintfCuts(buffer: Bytes, text: Bytes)
    requires |text| >= |buffer| > 0 && 0 !in text
    ensures CString(Snprintf(buffer, text)) == text[..|buffer| - 1]
  {
    CStringOfPrefix(text[..|buffer| - 1], [0]);
  }
}
