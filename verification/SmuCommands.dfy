/** Packing a per-core offset into the SMU's 32-bit command word, and back. */
module SmuCommands {
  import opened Wrappers
  import opened Bits

  const SLOTS_PER_CCD := 8
  const WORD_LIMIT := 0x1_0000_0000

  /** CCD in bits 31:28, core in bits 23:20, the margin in the low 16 bits as two's
      complement. Absent fields are derived from the core id. */
  function EncodeCoArg(coreId: nat, value: int, ccd: Option<nat>, slot: Option<nat>): nat {
    var margin := value % 0x1_0000;
    var detectedCcd := if ccd.Some? then ccd.value else coreId / SLOTS_PER_CCD;
    var coreInCcd := if slot.Some? then slot.value else coreId % SLOTS_PER_CCD;
    BitOr(BitOr(detectedCcd * 0x1000_0000, coreInCcd * 0x10_0000), margin)
  }

  function DecodeCoArg(response: nat): int {
    var raw := response % 0x1_0000;
    if raw < 0x8000 then raw else raw - 0x1_0000
  }

  predicate Int16(v: int) {
    -0x8000 <= v < 0x8000
  }

  // ----- how the firmware reads a word -----

  function WordCcd(word: nat): nat {
    word / 0x1000_0000 % 16
  }

  function WordSlot(word: nat): nat {
    word / 0x10_0000 % 16
  }

  function WordMargin(word: nat): nat {
    word % 0x1_0000
  }

  lemma PowersOfTwo()
    ensures Pow2(4) == 16 && Pow2(8) == 0x100 && Pow2(16) == 0x1_0000
    ensures Pow2(20) == 0x10_0000 && Pow2(28) == 0x1000_0000
  {
    assert Pow2(4) == 16;
    assert Pow2(8) == 0x100;
    assert Pow2(12) == 0x1000;
    assert Pow2(16) == 0x1_0000;
    assert Pow2(20) == 0x10_0000;
    assert Pow2(24) == 0x100_0000;
  }

  /** The three fields never overlap, so the word is their sum. */
  lemma WordIsSum(ccd: nat, slot: nat, value: int)
    requires slot < 16
    ensures EncodeCoArg(0, value, Some(ccd), Some(slot)) ==
      ccd * 0x1000_0000 + slot * 0x10_0000 + value % 0x1_0000
  {
    PowersOfTwo();
    BitOrOfDisjointFields(ccd, 28, slot * 0x10_0000);
    var high := ccd * 0x100 + slot;
    assert high * 0x10_0000 == ccd * 0x1000_0000 + slot * 0x10_0000;
    BitOrOfDisjointFields(high, 20, value % 0x1_0000);
  }

  lemma SmallMultiple(d: nat, e: int)
    ensures 0 - d < d * e < d ==> e == 0
  {
    if e >= 1 {
      assert d * e == d + d * (e - 1);
    } else if e <= -1 {
      assert d * e == d * (e + 1) - d;
    }
  }

  lemma Quotient(q: nat, d: nat, r: nat)
    requires r < d
    ensures (q * d + r) / d == q && (q * d + r) % d == r
  {
    var x := q * d + r;
    assert x == d * (x / d) + x % d;
    SmallMultiple(d, q - x / d);
    assert d * (q - x / d) == d * q - d * (x / d);
  }

  lemma FieldsOfSum(ccd: nat, slot: nat, margin: nat)
    requires slot < 16 && margin < 0x1_0000
    ensures var word := ccd * 0x1000_0000 + slot * 0x10_0000 + margin;
      word / 0x1000_0000 == ccd && word / 0x10_0000 == ccd * 0x100 + slot && word % 0x1_0000 == margin
  {
    Quotient(ccd, 0x1000_0000, slot * 0x10_0000 + margin);
    Quotient(ccd * 0x100 + slot, 0x10_0000, margin);
    Quotient(ccd * 0x1000 + slot * 0x10, 0x1_0000, margin);
  }

  /** The firmware reads back every field of the word, for every 16-bit margin. */
  lemma WordCarriesFields(coreId: nat, ccd: nat, slot: nat, value: int)
    requires slot < 16
    ensures var word := EncodeCoArg(coreId, value, Some(ccd), Some(slot));
      && (word < WORD_LIMIT <==> ccd < 16)
      && (ccd < 16 ==> WordCcd(word) == ccd)
      && WordSlot(word) == slot
      && WordMargin(word) == value % 0x1_0000
  {
    WordIsSum(ccd, slot, value);
    FieldsOfSum(ccd, slot, value % 0x1_0000);
    Quotient(ccd * 0x10, 16, slot);
  }

  /** A margin survives the trip exactly when it fits 16 bits. */
  lemma MarginRoundTrip(value: int)
    ensures DecodeCoArg(value % 0x1_0000) == value <==> Int16(value)
    ensures Int16(DecodeCoArg(value % 0x1_0000))
  {
  }

  lemma DecodeReadsTheMargin(word: nat)
    ensures DecodeCoArg(word) == DecodeCoArg(WordMargin(word))
  {
  }

  /** An offset written into a word is decoded from it exactly when it fits 16 bits. */
  lemma EncodeDecode(coreId: nat, ccd: nat, slot: nat, value: int)
    requires slot < 16
    ensures DecodeCoArg(EncodeCoArg(coreId, value, Some(ccd), Some(slot))) == value <==> Int16(value)
  {
    WordCarriesFields(coreId, ccd, slot, value);
    DecodeReadsTheMargin(EncodeCoArg(coreId, value, Some(ccd), Some(slot)));
    MarginRoundTrip(value);
  }
}
