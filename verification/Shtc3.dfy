/** Reading temperature and humidity from the SHTC3 sensor, app/src/shtc3.c, lines 47 to 78. */
module Shtc3 {
  import opened Crc8

  const SHTC3_NO_RETRIES := 100
  /** -2 returned through a uint8_t */
  const SHTC3_I2C_ERROR: bv8 := 0xFE

  /** What one i2c_read call returns and leaves in its 6-byte buffer: two bytes and a checksum for
      the temperature, then the same for the humidity. */
  type Buffer = b: seq<bv8> | |b| == 6 witness [0, 0, 0, 0, 0, 0]
  datatype BusRead = BusRead(ret: int, buffer: Buffer)

  function BigEndian(hi: bv8, lo: bv8): bv16 {
    ((hi as bv16) << 8) | (lo as bv16)
  }

  /** A 16-bit load on the little-endian processor */
  function LoadWord(first: bv8, second: bv8): bv16 {
    ((second as bv16) << 8) | (first as bv16)
  }

  function ByteSwap(x: bv16): bv16 {
    (x << 8) | (x >> 8)
  }

  lemma SwappedLoadIsBigEndian(first: bv8, second: bv8)
    ensures ByteSwap(LoadWord(first, second)) == BigEndian(first, second)
    ensures BigEndian(first, second) >> 8 == first as bv16 && BigEndian(first, second) & 0xFF == second as bv16
  {
  }

  /** What an output holds after the three bytes of its word arrived */
  function Decoded(word: seq<bv8>, before: bv16): bv16
    requires |word| == 3
  {
    if Accepts(word) then BigEndian(word[0], word[1]) else before
  }

  /** For the word that begins at lo: its first two bytes, the higher first, if the third is their CRC, and what was
      there before if not. */
  lemma DecodedIs(buffer: Buffer, lo: nat, before: bv16)
    requires lo == 0 || lo == 3
    ensures var r := Decoded(buffer[lo..lo + 3], before);
            if Crc(buffer[lo..lo + 2]) == buffer[lo + 2]
            then r == BigEndian(buffer[lo], buffer[lo + 1])
            else r == before
  {
    var word := buffer[lo..lo + 3];
    assert word[..2] == buffer[lo..lo + 2] && word[2] == buffer[lo + 2];
    hide BigEndian, Crc;
  }

  /** shtc3_GetTempAndHumidity. bus(k) is the outcome of the k-th i2c_read; calls counts them.
      The outputs are passed in with the values their pointers refer to before the call. */
  method GetTempAndHumidity(bus: nat -> BusRead, temperatureBefore: bv16, humidityBefore: bv16)
    returns (status: bv8, temperature: bv16, humidity: bv16, calls: nat)
    ensures 1 <= calls <= SHTC3_NO_RETRIES
    ensures forall k: nat :: k < calls - 1 ==> bus(k).ret != 0
    ensures calls < SHTC3_NO_RETRIES ==> bus(calls - 1).ret == 0
    ensures status == SHTC3_I2C_ERROR <==> forall k: nat :: k < SHTC3_NO_RETRIES ==> bus(k).ret != 0
    ensures status == SHTC3_I2C_ERROR ==> temperature == temperatureBefore && humidity == humidityBefore
    ensures status == SHTC3_NO_ERROR ==>
              temperature == Decoded(bus(calls - 1).buffer[..3], temperatureBefore) &&
              humidity == Decoded(bus(calls - 1).buffer[3..], humidityBefore)
    ensures status == 0 || (status == 0xFE && calls == 100)
  {
    hide Accepts, Decoded, BigEndian, LoadWord, ByteSwap, Crc;
    temperature, humidity := temperatureBefore, humidityBefore;
    var read := bus(0);
    var error := 1;
    while read.ret != 0 && error < SHTC3_NO_RETRIES
      invariant 1 <= error <= SHTC3_NO_RETRIES
      invariant read == bus(error - 1)
      invariant forall k: nat :: k < error - 1 ==> bus(k).ret != 0
      decreases SHTC3_NO_RETRIES - error
    {
      read := bus(error);
      error := error + 1;
    }
    calls := error;
    if read.ret != 0 {
      assert forall k: nat :: k < SHTC3_NO_RETRIES ==> bus(k).ret != 0;
      return SHTC3_I2C_ERROR, temperature, humidity, calls;
    }
    assert bus(calls - 1).ret == 0;
    var data := read.buffer;
    assert data[0..3] == data[..3] && data[0..2] == data[..2] && data[3..6] == data[3..];

    status := CheckCrc(data, 2, data[2]);
    if status == SHTC3_NO_ERROR {
      temperature := ByteSwap(LoadWord(data[0], data[1]));
    }
    OutputIsDecoded(data, 0, temperatureBefore, status, temperature);

    status := CheckCrc(data[3..], 2, data[5]);
    assert data[3..][..2] == data[3..5];
    if status == SHTC3_NO_ERROR {
      humidity := ByteSwap(LoadWord(data[3], data[4]));
    }
    OutputIsDecoded(data, 3, humidityBefore, status, humidity);
    status := SHTC3_NO_ERROR;
  }

  /** The branch after a check makes of an output what its word says. */
  lemma OutputIsDecoded(buffer: Buffer, lo: nat, before: bv16, status: bv8, output: bv16)
    requires lo == 0 || lo == 3
    requires status == if Crc(buffer[lo..lo + 2]) == buffer[lo + 2] then 0 else 0xFF
    requires output == if status == 0 then ByteSwap(LoadWord(buffer[lo], buffer[lo + 1])) else before
    ensures output == Decoded(buffer[lo..lo + 3], before)
  {
    DecodedIs(buffer, lo, before);
    SwappedLoadIsBigEndian(buffer[lo], buffer[lo + 1]);
    assert buffer[lo..lo + 3][..2] == buffer[lo..lo + 2];
    hide BigEndian, LoadWord, ByteSwap, Crc;
  }

  /** A word that left the sensor intact and lost one to three bits, or a burst of up to 8, on the
      way never reaches an output. */
  lemma DamagedWordIsIgnored(sent: seq<bv8>, received: seq<bv8>, before: bv16, lo: nat)
    requires |sent| == |received| == 3 && Accepts(sent) && sent != received
    requires |Flipped(sent, received)| <= 3 || forall e :: e in Flipped(sent, received) ==> lo <= e < lo + 8
    ensures Decoded(received, before) == before
  {
    hide Flipped, Accepts;
    FlippedNone(sent, received);
    if |Flipped(sent, received)| <= 3 {
      assert |Flipped(sent, received)| != 0;
      UpToThreeBitsDetected(sent, received);
    } else {
      BurstDetected(sent, received, lo);
    }
  }
}
