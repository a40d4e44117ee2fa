/** The committed score: 64 hex digits of a reduced BN254 scalar, decoded by the guest byte by byte and
    by the CLI as a number. */
module ScoreFelt {
  import opened Results
  import opened ByteStrings
  import opened Hex
  import Utf8

  const SCORE_LEN := 32

  /** The modulus as the CLI writes it, and the guest's big-endian table. */
  const MODULUS: nat := 0x30644E72E131A029B85045B68181585D2833E84879B9709143E1F593F0000001

  const MODULUS_BE: Bytes := [
    0x30, 0x64, 0x4e, 0x72, 0xe1, 0x31, 0xa0, 0x29, 0xb8, 0x50, 0x45, 0xb6, 0x81, 0x81, 0x58, 0x5d,
    0x28, 0x33, 0xe8, 0x48, 0x79, 0xb9, 0x70, 0x91, 0x43, 0xe1, 0xf5, 0x93, 0xf0, 0x00, 0x00, 0x01]

  datatype ScoreError = InvalidHexDigit | WrongLength(digits: nat) | NotReduced

  // ----- the table is the modulus

  function BigEndian(b: Bytes): nat {
    if b == [] then 0 else 256 * BigEndian(b[..|b| - 1]) + b[|b| - 1]
  }

  function Reversed(b: Bytes): (r: Bytes)
    ensures |r| == |b| && forall i :: 0 <= i < |b| ==> r[i] == b[|b| - 1 - i]
  {
    seq(|b|, i requires 0 <= i < |b| => b[|b| - 1 - i])
  }

  lemma {:induction false} ReversedValue(b: Bytes)
    ensures FromLittleEndian(Reversed(b)) == BigEndian(b)
  {
    if b != [] {
      ReversedValue(b[..|b| - 1]);
      assert Reversed(b)[1..] == Reversed(b[..|b| - 1]);
    }
  }

  /** Four bytes of a big-endian value, appended to the value before them. */
  function Append(value: nat, b0: nat, b1: nat, b2: nat, b3: nat): nat {
    0x1_0000_0000 * value + 0x100_0000 * b0 + 0x1_0000 * b1 + 0x100 * b2 + b3
  }

  lemma WordValue(b: Bytes, n: nat)
    requires n + 4 <= |b|
    ensures BigEndian(b[..n + 4]) == Append(BigEndian(b[..n]), b[n], b[n + 1], b[n + 2], b[n + 3])
  {
    assert b[..n + 4][..n + 3] == b[..n + 3] && b[..n + 3][..n + 2] == b[..n + 2];
    assert b[..n + 2][..n + 1] == b[..n + 1] && b[..n + 1][..n] == b[..n];
    assert BigEndian(b[..n + 1]) == 256 * BigEndian(b[..n]) + b[n];
    assert BigEndian(b[..n + 2]) == 256 * BigEndian(b[..n + 1]) + b[n + 1];
    assert BigEndian(b[..n + 3]) == 256 * BigEndian(b[..n + 2]) + b[n + 2];
  }

  lemma UpperHalf()
    ensures BigEndian(MODULUS_BE[..16]) == 0x30644e72e131a029b85045b68181585d
  {
    assert MODULUS_BE[..0] == [];
    WordValue(MODULUS_BE, 0);
    WordValue(MODULUS_BE, 4);
    WordValue(MODULUS_BE, 8);
    WordValue(MODULUS_BE, 12);
    hide BigEndian;
  }

  lemma LowerHalf()
    ensures BigEndian(MODULUS_BE[..32]) == 0x1_0000_0000_0000_0000_0000_0000_0000_0000 * BigEndian(MODULUS_BE[..16]) + 0x2833e84879b9709143e1f593f0000001
  {
    hide BigEndian;
    WordValue(MODULUS_BE, 16);
    WordValue(MODULUS_BE, 20);
    WordValue(MODULUS_BE, 24);
    WordValue(MODULUS_BE, 28);
  }

  lemma TableIsModulus()
    ensures |MODULUS_BE| == 32 && BigEndian(MODULUS_BE) == MODULUS
  {
    hide BigEndian;
    UpperHalf();
    LowerHalf();
    assert MODULUS_BE[..32] == MODULUS_BE;
  }

  // ----- the byte-wise comparison

  /** Little-endian values that agree above `k` compare as their bytes at `k`. */
  lemma {:induction false} MostSignificantDecides(a: Bytes, b: Bytes, k: nat)
    requires |a| == |b| && k < |a| && a[k + 1..] == b[k + 1..] && a[k] < b[k]
    ensures FromLittleEndian(a) < FromLittleEndian(b)
  {
    if k > 0 {
      assert a[1..][k..] == a[k + 1..] && b[1..][k..] == b[k + 1..];
      MostSignificantDecides(a[1..], b[1..], k - 1);
    } else {
      assert a[1..] == b[1..];
    }
  }

  /** `is_reduced_le`. */
  method IsReducedLe(value: Bytes) returns (r: bool)
    requires |value| == SCORE_LEN
    ensures r == (FromLittleEndian(value) < MODULUS)
  {
    TableIsModulus();
    ReversedValue(MODULUS_BE);
    ghost var modulus := Reversed(MODULUS_BE);
    var index: nat := SCORE_LEN;
    while index > 0
      invariant index <= SCORE_LEN && value[index..] == modulus[index..]
    {
      index := index - 1;
      var valueByte, modulusByte := value[index], MODULUS_BE[SCORE_LEN - 1 - index];
      assert modulusByte == modulus[index];
      if valueByte != modulusByte {
        if valueByte < modulusByte {
          MostSignificantDecides(value, modulus, index);
        } else {
          MostSignificantDecides(modulus, value, index);
        }
        return valueByte < modulusByte;
      }
      assert value[index..] == [value[index]] + value[index + 1..];
      assert modulus[index..] == [modulus[index]] + modulus[index + 1..];
    }
    assert value[0..] == value && modulus[0..] == modulus;
    return false;
  }

  // ----- the two decoders

  /** `encode("ascii", errors="replace")`. */
  function Ascii(text: string): (r: Bytes)
    ensures |r| == |text|
  {
    seq(|text|, i requires 0 <= i < |text| => if text[i] as int < 128 then text[i] as int else 63)
  }

  predicate AllHex(digits: Bytes) {
    forall i :: 0 <= i < |digits| ==> Nibble(digits[i]).Some?
  }

  /** The CLI's `decode_score_felt`. */
  function DecodeScore(text: string): Result<Bytes, ScoreError> {
    var digits := Ascii(text);
    if !AllHex(digits) then Err(InvalidHexDigit)
    else if |digits| != 2 * SCORE_LEN then Err(WrongLength(|digits|))
    else
      match DecodeHex(digits)
      case None => Err(InvalidHexDigit)
      case Some(score) => if FromLittleEndian(score) >= MODULUS then Err(NotReduced) else Ok(score)
  }

  lemma {:induction false} HexDecodes(digits: Bytes)
    requires AllHex(digits) && |digits| % 2 == 0
    ensures DecodeHex(digits).Some?
    ensures var b := DecodeHex(digits).value;
            && |b| == |digits| / 2
            && forall i :: 0 <= i < |b| ==> b[i] == 16 * Nibble(digits[2 * i]).value + Nibble(digits[2 * i + 1]).value
    decreases |digits|
  {
    if digits != [] {
      var rest := digits[2..];
      HexDecodes(rest);
      var b, tail := DecodeHex(digits).value, DecodeHex(rest).value;
      forall i | 0 <= i < |b| ensures b[i] == 16 * Nibble(digits[2 * i]).value + Nibble(digits[2 * i + 1]).value {
        if i > 0 {
          assert b[i] == tail[i - 1];
          assert rest[2 * (i - 1)] == digits[2 * i] && rest[2 * (i - 1) + 1] == digits[2 * i + 1];
        }
      }
    }
  }

  /** UTF-8 and the ASCII replacement spell a text of hex digits alike, and agree on which texts are. */
  lemma SpellingsAgree(text: string)
    ensures AllHex(Utf8.Encode(text)) == AllHex(Ascii(text))
    ensures AllHex(Ascii(text)) ==> Utf8.Encode(text) == Ascii(text)
  {
    if i :| 0 <= i < |text| && Nibble(text[i] as int).None? {
      var k := BadCharacterEncodesBadly(text, i);
      assert Nibble(Ascii(text)[i]).None?;
    } else {
      AsciiEncodesToItself(text);
    }
  }

  /** The guest's `decode_score_felt`: it walks the UTF-8 bytes, fills the score byte by byte, and
      compares byte by byte, yet accepts the same texts as the CLI, with the same bytes, and reports the
      same first error. */
  method DecodeScoreFelt(text: string) returns (r: Result<Bytes, ScoreError>)
    ensures r == DecodeScore(text)
  {
    SpellingsAgree(text);
    var digits := Utf8.Encode(text);
    var nibbles: seq<nat> := [];
    for i := 0 to |digits|
      invariant |nibbles| == i
      invariant forall k :: 0 <= k < i ==> Nibble(digits[k]) == Some(nibbles[k])
    {
      var nibble := Nibble(digits[i]);
      if nibble.None? {
        return Err(InvalidHexDigit);
      }
      nibbles := nibbles + [nibble.value];
    }
    if |nibbles| != SCORE_LEN * 2 {
      return Err(WrongLength(|nibbles|));
    }
    HexDecodes(digits);
    ghost var expected := DecodeHex(digits).value;
    var score := new byte[SCORE_LEN](_ => 0);
    for index := 0 to SCORE_LEN
      invariant forall k :: 0 <= k < index ==> score[k] == expected[k]
    {
      NibbleBound(digits[2 * index]);
      NibbleBound(digits[2 * index + 1]);
      score[index] := 16 * nibbles[2 * index] + nibbles[2 * index + 1];
    }
    assert score[..] == expected;
    var reduced := IsReducedLe(score[..]);
    return if reduced then Ok(score[..]) else Err(NotReduced);
  }

  lemma NibbleBound(code: int)
    ensures Nibble(code).Some? ==> Nibble(code).value < 16
  {
  }

  // ----- what the decoder means

  /** A decoded score is a reduced element and the text is its only spelling. */
  lemma DecodedScore(text: string)
    requires DecodeScore(text).Ok?
    ensures var score := DecodeScore(text).value;
            |score| == SCORE_LEN && FromLittleEndian(score) < MODULUS && Utf8.Encode(text) == EncodeHex(score)
  {
    SpellingsAgree(text);
    HexDecodes(Ascii(text));
    HexSingleSpelling(Ascii(text));
  }

  /** Every reduced element has a text that decodes to its little-endian bytes. */
  lemma EveryElementDecodes(x: nat)
    requires x < MODULUS
    ensures var score := LittleEndian(x, SCORE_LEN);
            DecodeScore(HexText(score)) == Ok(score) && FromLittleEndian(score) == x
  {
    var score := LittleEndian(x, SCORE_LEN);
    ModulusFits();
    LittleEndianRoundTrip(x, SCORE_LEN);
    HexRoundTrip(score);
    EncodedIsHex(score);
    assert Ascii(HexText(score)) == EncodeHex(score);
  }

  lemma {:induction false} BigEndianBound(b: Bytes)
    ensures BigEndian(b) < Pow256(|b|)
  {
    if b != [] {
      BigEndianBound(b[..|b| - 1]);
    }
  }

  lemma ModulusFits()
    ensures MODULUS < Pow256(SCORE_LEN)
  {
    TableIsModulus();
    BigEndianBound(MODULUS_BE);
  }

  /** A lowercase hex digit. */
  predicate HexDigit(c: char) {
    '0' <= c <= '9' || 'a' <= c <= 'f'
  }

  /** The number that 64 digits denote, two digits a byte, the least significant byte first. */
  function ValueOf(text: string): nat
    requires |text| % 2 == 0 && forall i :: 0 <= i < |text| ==> HexDigit(text[i])
  {
    if text == [] then 0 else 16 * DigitValue(text[0]) + DigitValue(text[1]) + 256 * ValueOf(text[2..])
  }

  function DigitValue(c: char): nat
    requires HexDigit(c)
  {
    if c <= '9' then c as int - '0' as int else c as int - 'a' as int + 10
  }

  lemma DigitsAre(text: string)
    ensures AllHex(Ascii(text)) <==> forall i :: 0 <= i < |text| ==> HexDigit(text[i])
  {
    forall i | 0 <= i < |text| ensures Nibble(Ascii(text)[i]).Some? <==> HexDigit(text[i]) {
    }
  }

  lemma {:induction false} ValueDecoded(text: string)
    requires |text| % 2 == 0 && forall i :: 0 <= i < |text| ==> HexDigit(text[i])
    ensures DecodeHex(Ascii(text)).Some? && FromLittleEndian(DecodeHex(Ascii(text)).value) == ValueOf(text)
    decreases |text|
  {
    if text != [] {
      ValueDecoded(text[2..]);
      assert Ascii(text)[2..] == Ascii(text[2..]);
      var b := DecodeHex(Ascii(text)).value;
      assert b[1..] == DecodeHex(Ascii(text[2..])).value;
    }
  }

  /** The verdict on any text: a character that is no digit comes before a wrong number of digits, and that before
      a value that is not below the modulus. */
  lemma ScoreVerdict(text: string)
    ensures var r := DecodeScore(text);
            if !(forall i :: 0 <= i < |text| ==> HexDigit(text[i])) then r == Err(InvalidHexDigit)
            else if |text| != 64 then r == Err(WrongLength(|text|))
            else if ValueOf(text) >= MODULUS then r == Err(NotReduced)
            else r.Ok? && |r.value| == 32 && FromLittleEndian(r.value) == ValueOf(text)
  {
    DigitsAre(text);
    if |text| == 64 && forall i :: 0 <= i < |text| ==> HexDigit(text[i]) {
      ValueDecoded(text);
      HexDecodes(Ascii(text));
    }
    hide DecodeHex, ValueOf, FromLittleEndian, AllHex;
  }
}
