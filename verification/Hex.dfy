/** Lowercase hex: the guest's byte-wise decoder, the CLI's character-wise one, and one spelling. */
module Hex {
  import opened Results
  import opened ByteStrings
  import Utf8

  /** `hex_nibble`. */
  function Nibble(code: int): Option<nat> {
    if 48 <= code <= 57 then Some(code - 48)
    else if 97 <= code <= 102 then Some(code - 87)
    else None
  }

  function Digit(n: nat): (d: byte)
    requires n < 16
    ensures Nibble(d) == Some(n)
  {
    if n < 10 then 48 + n else 87 + n
  }

  /** The guest's `decode_hex`, over the bytes of the text. */
  function DecodeHex(digits: Bytes): Option<Bytes> {
    if digits == [] then Some([])
    else if |digits| == 1 || Nibble(digits[0]).None? || Nibble(digits[1]).None? then None
    else
      match DecodeHex(digits[2..])
      case None => None
      case Some(rest) => Some([16 * Nibble(digits[0]).value + Nibble(digits[1]).value] + rest)
  }

  function EncodeHex(b: Bytes): (r: Bytes)
    ensures |r| == 2 * |b|
  {
    if b == [] then [] else [Digit(b[0] / 16), Digit(b[0] % 16)] + EncodeHex(b[1..])
  }

  /** The CLI's `_hex_bytes`: an even number of characters, all of them lowercase hex digits. */
  function HexBytes(text: string): Option<Bytes> {
    if |text| % 2 != 0 || exists i :: 0 <= i < |text| && Nibble(text[i] as int).None? then None
    else DecodeHex(seq(|text|, i requires 0 <= i < |text| => text[i] as int % 256))
  }

  /** `bytes.hex()`: the digits as characters. */
  function HexText(b: Bytes): (r: string)
    ensures |r| == 2 * |b|
  {
    var digits := EncodeHex(b);
    seq(|digits|, i requires 0 <= i < |digits| => digits[i] as char)
  }

  lemma {:induction false} HexRoundTrip(b: Bytes)
    ensures DecodeHex(EncodeHex(b)) == Some(b)
  {
    if b != [] {
      HexRoundTrip(b[1..]);
      assert EncodeHex(b)[2..] == EncodeHex(b[1..]);
      assert [b[0]] + b[1..] == b;
    }
  }

  lemma {:induction false} EncodedIsHex(b: Bytes)
    ensures forall i :: 0 <= i < |EncodeHex(b)| ==> Nibble(EncodeHex(b)[i]).Some? && EncodeHex(b)[i] < 128
  {
    if b != [] {
      EncodedIsHex(b[1..]);
    }
  }

  lemma HexTextRoundTrip(b: Bytes)
    ensures HexBytes(HexText(b)) == Some(b)
  {
    EncodedIsHex(b);
    HexRoundTrip(b);
    var text := HexText(b);
    assert seq(|text|, i requires 0 <= i < |text| => text[i] as int % 256) == EncodeHex(b);
    assert forall i :: 0 <= i < |text| ==> text[i] as int == EncodeHex(b)[i];
  }

  /** The digits of each byte, the high one first. */
  lemma {:induction false} EncodedDigits(b: Bytes, i: nat)
    requires i < |b|
    ensures EncodeHex(b)[2 * i] == Digit(b[i] / 16) && EncodeHex(b)[2 * i + 1] == Digit(b[i] % 16)
  {
    if i > 0 {
      EncodedDigits(b[1..], i - 1);
      assert EncodeHex(b)[2..] == EncodeHex(b[1..]);
      assert EncodeHex(b)[2 * i] == EncodeHex(b)[2..][2 * (i - 1)] && EncodeHex(b)[2 * i + 1] == EncodeHex(b)[2..][2 * (i - 1) + 1];
    }
  }

  lemma HexTextDigits(b: Bytes, i: nat)
    requires i < |b|
    ensures HexText(b)[2 * i] == "0123456789abcdef"[b[i] / 16] && HexText(b)[2 * i + 1] == "0123456789abcdef"[b[i] % 16]
  {
    EncodedDigits(b, i);
  }

  lemma HexCharacters(text: string, i: nat)
    requires HexBytes(text).Some? && i < |text|
    ensures 48 <= text[i] as int <= 102
  {
    hide DecodeHex;
    assert Nibble(text[i] as int).Some?;
  }

  lemma HexBytesOfText(text: string, b: Bytes)
    requires HexBytes(text) == Some(b)
    ensures text == HexText(b)
  {
    var digits: Bytes := seq(|text|, i requires 0 <= i < |text| => text[i] as int % 256);
    HexSingleSpelling(digits);
    forall i | 0 <= i < |text| ensures text[i] as int == digits[i] {
      HexCharacters(text, i);
    }
    hide HexBytes, DecodeHex, EncodeHex, Nibble;
    assert EncodeHex(b) == digits;
  }

  /** The characters decode to `b` exactly when they are its digits. */
  lemma HexBytesExactly(text: string, b: Bytes)
    ensures HexBytes(text) == Some(b) <==> text == HexText(b)
  {
    HexTextRoundTrip(b);
    if HexBytes(text) == Some(b) {
      HexBytesOfText(text, b);
    }
  }

  lemma DigitsOfByte(high: byte, low: byte)
    requires Nibble(high).Some? && Nibble(low).Some?
    ensures var b := 16 * Nibble(high).value + Nibble(low).value;
            b < 256 && Digit(b / 16) == high && Digit(b % 16) == low
  {
  }

  /** No second spelling: what decodes is the encoding of what it decodes to. */
  lemma {:induction false} HexSingleSpelling(digits: Bytes)
    requires DecodeHex(digits).Some?
    ensures EncodeHex(DecodeHex(digits).value) == digits
    decreases |digits|
  {
    if digits != [] {
      var b, rest := DecodeHex(digits).value, DecodeHex(digits[2..]).value;
      HexSingleSpelling(digits[2..]);
      DigitsOfByte(digits[0], digits[1]);
      assert b == [16 * Nibble(digits[0]).value + Nibble(digits[1]).value] + rest;
      hide Nibble, Digit;
      assert b[1..] == rest;
      assert digits == [digits[0], digits[1]] + digits[2..];
    }
  }

  lemma {:induction false} BadDigitFails(digits: Bytes, i: nat)
    requires i < |digits| && Nibble(digits[i]).None?
    ensures DecodeHex(digits) == None
    decreases |digits|
  {
    if i >= 2 {
      BadDigitFails(digits[2..], i - 2);
    }
  }

  lemma {:induction false} OddLengthFails(digits: Bytes)
    requires |digits| % 2 != 0
    ensures DecodeHex(digits) == None
    decreases |digits|
  {
    if |digits| >= 2 {
      OddLengthFails(digits[2..]);
    }
  }

  lemma {:induction false} AsciiEncodesToItself(text: string)
    requires forall i :: 0 <= i < |text| ==> text[i] as int < 128
    ensures Utf8.Encode(text) == seq(|text|, i requires 0 <= i < |text| => text[i] as int % 256)
  {
    if text != [] {
      AsciiEncodesToItself(text[1..]);
    }
  }

  lemma {:induction false} BadCharacterEncodesBadly(text: string, i: nat) returns (k: nat)
    requires i < |text| && Nibble(text[i] as int).None?
    ensures k < |Utf8.Encode(text)| && Nibble(Utf8.Encode(text)[k]).None?
  {
    if i == 0 {
      k := 0;
    } else {
      var j := BadCharacterEncodesBadly(text[1..], i - 1);
      k := |Utf8.EncodeScalar(text[0])| + j;
    }
  }

  /** The guest, which sees UTF-8 bytes, and the CLI, which sees characters, decode alike. */
  lemma HexDecodersAgree(text: string)
    ensures DecodeHex(Utf8.Encode(text)) == HexBytes(text)
  {
    if i :| 0 <= i < |text| && Nibble(text[i] as int).None? {
      var k := BadCharacterEncodesBadly(text, i);
      BadDigitFails(Utf8.Encode(text), k);
    } else {
      AsciiEncodesToItself(text);
      if |text| % 2 != 0 {
        OddLengthFails(Utf8.Encode(text));
      }
    }
  }

  /** The decoding loop, two digits at a time. */
  method DecodeHexLoop(digits: Bytes) returns (r: Option<Bytes>)
    ensures r == DecodeHex(digits)
  {
    if |digits| % 2 != 0 {
      OddLengthFails(digits);
      return None;
    }
    var out: Bytes := [];
    var i := 0;
    assert digits[0..] == digits;
    while i < |digits|
      invariant 0 <= i <= |digits| && i % 2 == 0
      invariant DecodeHex(digits).Some? == DecodeHex(digits[i..]).Some?
      invariant DecodeHex(digits).Some? ==> DecodeHex(digits).value == out + DecodeHex(digits[i..]).value
    {
      var high, low := Nibble(digits[i]), Nibble(digits[i + 1]);
      if high.None? || low.None? {
        return None;
      }
      assert digits[i..][2..] == digits[i + 2..];
      var b := 16 * high.value + low.value;
      ghost var rest := DecodeHex(digits[i + 2..]);
      assert rest.Some? ==> out + ([b] + rest.value) == (out + [b]) + rest.value;
      out := out + [b];
      i := i + 2;
    }
    assert digits[i..] == [] && out + [] == out;
    r := Some(out);
  }
}
