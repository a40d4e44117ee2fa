/** The canonical line of combiner parameters: decimal digits, and why the line has one reading. */
module CombinerParams {
  import opened Results
  import opened ByteStrings
  import Utf8

  const ZERO: byte := 48
  const BAR: byte := 124

  predicate IsDigit(b: byte) {
    48 <= b <= 57
  }

  ghost predicate AllDigits(d: Bytes) {
    forall i :: 0 <= i < |d| ==> IsDigit(d[i])
  }

  /** Decimal text without leading zeros, "0" for zero: `str(n)`. */
  function Decimal(n: nat): (d: Bytes)
    ensures d != [] && AllDigits(d)
  {
    if n < 10 then [ZERO + n] else Decimal(n / 10) + [ZERO + n % 10]
  }

  /** The number a digit string denotes. */
  function DecimalValue(d: Bytes): int {
    if d == [] then 0 else 10 * DecimalValue(d[..|d| - 1]) + (d[|d| - 1] - ZERO)
  }

  lemma {:induction false} DecimalRoundTrip(n: nat)
    ensures DecimalValue(Decimal(n)) == n
  {
    var d := Decimal(n);
    if n < 10 {
      assert d[..|d| - 1] == [];
    } else {
      assert d[..|d| - 1] == Decimal(n / 10);
      DecimalRoundTrip(n / 10);
    }
  }

  function Reversed(b: Bytes): (r: Bytes)
    ensures |r| == |b|
    ensures forall i :: 0 <= i < |b| ==> r[i] == b[|b| - 1 - i]
  {
    seq(|b|, i requires 0 <= i < |b| => b[|b| - 1 - i])
  }

  function Pow10(k: nat): (r: nat)
    ensures r > 0
  {
    if k == 0 then 1 else 10 * Pow10(k - 1)
  }

  lemma Pow10Of20()
    ensures Pow10(20) == 100_000_000_000_000_000_000
  {
    assert Pow10(5) == 100_000 by {
      assert Pow10(2) == 100 && Pow10(3) == 1_000 && Pow10(4) == 10_000;
    }
    assert Pow10(10) == 10_000_000_000 by {
      assert Pow10(6) == 1_000_000 && Pow10(7) == 10_000_000 && Pow10(8) == 100_000_000 && Pow10(9) == 1_000_000_000;
    }
    assert Pow10(15) == 1_000_000_000_000_000 by {
      assert Pow10(11) == 100_000_000_000 && Pow10(12) == 1_000_000_000_000;
      assert Pow10(13) == 10_000_000_000_000 && Pow10(14) == 100_000_000_000_000;
    }
    assert Pow10(16) == 10_000_000_000_000_000 && Pow10(17) == 100_000_000_000_000_000;
    assert Pow10(18) == 1_000_000_000_000_000_000 && Pow10(19) == 10_000_000_000_000_000_000;
  }

  /** The guest's `push_u64`: digits into a 20-byte buffer, least significant first, then reversed.
      The buffer never overflows. */
  method PushU64(out: Bytes, number: nat) returns (r: Bytes)
    requires number < U64_LIMIT
    ensures r == out + Decimal(number)
  {
    if number == 0 {
      return out + [ZERO];
    }
    var value: nat := number;
    var digits := new byte[20];
    var length := 0;
    Pow10Of20();
    hide Decimal;
    while value > 0
      invariant 0 <= length <= 20
      invariant value < Pow10(20 - length)
      invariant Decimal(number) == DecimalOrNothing(value) + Reversed(digits[..length])
      decreases value
    {
      ghost var written := digits[..length];
      assert |written| == length;
      DigitStep(value, written);
      digits[length] := ZERO + value % 10;
      assert digits[..length + 1] == written + [ZERO + value % 10];
      value := value / 10;
      length := length + 1;
    }
    r := out;
    var index := length;
    while index > 0
      invariant 0 <= index <= length
      invariant r == out + Reversed(digits[..length])[..length - index]
    {
      index := index - 1;
      r := r + [digits[index]];
    }
    assert Reversed(digits[..length])[..length] == Decimal(number);
  }

  function DecimalOrNothing(n: nat): Bytes {
    if n > 0 then Decimal(n) else []
  }

  lemma DigitStep(value: nat, written: Bytes)
    requires value > 0
    ensures DecimalOrNothing(value) + Reversed(written)
         == DecimalOrNothing(value / 10) + Reversed(written + [ZERO + value % 10])
  {
    var digit := ZERO + value % 10;
    assert Decimal(value) == DecimalOrNothing(value / 10) + [digit];
    assert Reversed(written + [digit]) == [digit] + Reversed(written);
  }

  // ----- the line

  function IdLabel(): Bytes {
    Utf8.Encode("kswarm-combiner-params-v1|combiner_id=")
  }

  function TrimLabel(): Bytes {
    Utf8.Encode("|trim_bps=")
  }

  function DictionaryLabel(): Bytes {
    Utf8.Encode("|category_dictionary_size=")
  }

  function ParamsLine(combinerId: nat, trimBps: nat, dictionarySize: nat): Bytes {
    IdLabel() + (Decimal(combinerId) + (TrimLabel() + (Decimal(trimBps) + (DictionaryLabel() + Decimal(dictionarySize)))))
  }

  method PushParamsLine(combinerId: nat, trimBps: nat, dictionarySize: nat) returns (r: Bytes)
    requires combinerId < 0x100 && trimBps < U32_LIMIT && dictionarySize < U32_LIMIT
    ensures r == ParamsLine(combinerId, trimBps, dictionarySize)
  {
    ghost var id, trim, size := Decimal(combinerId), Decimal(trimBps), Decimal(dictionarySize);
    ghost var line := ParamsLine(combinerId, trimBps, dictionarySize);
    assert line == IdLabel() + (id + (TrimLabel() + (trim + (DictionaryLabel() + size))));
    hide IdLabel, TrimLabel, DictionaryLabel, Decimal, ParamsLine;
    r := PushU64(IdLabel(), combinerId);
    r := PushU64(r + TrimLabel(), trimBps);
    r := PushU64(r + DictionaryLabel(), dictionarySize);
    Regroup(IdLabel(), id, TrimLabel(), trim, DictionaryLabel(), size);
  }

  lemma Regroup(a: Bytes, b: Bytes, c: Bytes, d: Bytes, e: Bytes, f: Bytes)
    ensures a + b + c + d + e + f == a + (b + (c + (d + (e + f))))
  {
  }

  /** A run of digits that a non-digit ends can be read off the front. */
  lemma {:induction false} DigitsEnd(d: Bytes, x: Bytes, e: Bytes, y: Bytes)
    requires AllDigits(d) && AllDigits(e)
    requires x == [] || !IsDigit(x[0])
    requires y == [] || !IsDigit(y[0])
    requires d + x == e + y
    ensures d == e && x == y
  {
    assert d == [] ==> d + x == x;
    assert e == [] ==> e + y == y;
    assert d != [] ==> (d + x)[0] == d[0];
    assert e != [] ==> (e + y)[0] == e[0];
    if d != [] && e != [] {
      assert d[1..] + x == (d + x)[1..] == (e + y)[1..] == e[1..] + y;
      DigitsEnd(d[1..], x, e[1..], y);
      assert d == [d[0]] + d[1..] && e == [e[0]] + e[1..];
    }
  }

  lemma LabelsStartWithBar()
    ensures TrimLabel() != [] && TrimLabel()[0] == BAR
    ensures DictionaryLabel() != [] && DictionaryLabel()[0] == BAR
  {
    var t, d := "|trim_bps=", "|category_dictionary_size=";
    assert t[0] == '|' && d[0] == '|';
    assert Utf8.EncodeScalar('|') == [BAR];
  }

  lemma DropPrefix(p: Bytes, x: Bytes, y: Bytes)
    requires p + x == p + y
    ensures x == y
  {
    assert x == (p + x)[|p|..] && y == (p + y)[|p|..];
  }

  lemma DecimalInjective(m: nat, n: nat)
    requires Decimal(m) == Decimal(n)
    ensures m == n
  {
    DecimalRoundTrip(m);
    DecimalRoundTrip(n);
  }

  /** The line determines every parameter in it. */
  lemma ParamsLineInjective(id: nat, trim: nat, size: nat, id': nat, trim': nat, size': nat)
    requires ParamsLine(id, trim, size) == ParamsLine(id', trim', size')
    ensures id == id' && trim == trim' && size == size'
  {
    LabelsStartWithBar();
    var a2, b2 := DictionaryLabel() + Decimal(size), DictionaryLabel() + Decimal(size');
    var a1, b1 := TrimLabel() + (Decimal(trim) + a2), TrimLabel() + (Decimal(trim') + b2);
    hide TrimLabel, DictionaryLabel, IdLabel, Decimal;
    DropPrefix(IdLabel(), Decimal(id) + a1, Decimal(id') + b1);
    DigitsEnd(Decimal(id), a1, Decimal(id'), b1);
    DropPrefix(TrimLabel(), Decimal(trim) + a2, Decimal(trim') + b2);
    DigitsEnd(Decimal(trim), a2, Decimal(trim'), b2);
    DropPrefix(DictionaryLabel(), Decimal(size), Decimal(size'));
    DecimalInjective(id, id');
    DecimalInjective(trim, trim');
    DecimalInjective(size, size');
  }

  // ----- reading the line back

  /** No leading zero: the numeral is the only one its number has. */
  lemma {:induction false} NoLeadingZero(n: nat)
    ensures Decimal(n)[0] != ZERO || Decimal(n) == [ZERO]
  {
    if n >= 10 {
      NoLeadingZero(n / 10);
      assert Decimal(n)[0] == Decimal(n / 10)[0];
    }
  }

  /** How many digits `b` starts with. */
  function DigitCount(b: Bytes): (n: nat)
    ensures n <= |b| && AllDigits(b[..n])
    ensures n == |b| || !IsDigit(b[n])
  {
    if b == [] || !IsDigit(b[0]) then 0
    else
      assert forall i :: 0 < i <= DigitCount(b[1..]) ==> b[i] == b[1..][i - 1];
      1 + DigitCount(b[1..])
  }

  /** The number after a label at the start of `b`, and what follows it. */
  function NumberAfter(words: string, b: Bytes): Option<(int, Bytes)> {
    var prefix := Utf8.Encode(words);
    if prefix <= b then
      var rest := b[|prefix|..];
      var n := DigitCount(rest);
      if n == 0 then None else Some((DecimalValue(rest[..n]), rest[n..]))
    else None
  }

  lemma NumberAfterReads(words: string, n: nat, rest: Bytes)
    requires rest == [] || !IsDigit(rest[0])
    ensures NumberAfter(words, Utf8.Encode(words) + (Decimal(n) + rest)) == Some((n, rest))
  {
    var prefix, digits := Utf8.Encode(words), Decimal(n);
    var b := prefix + (digits + rest);
    assert prefix <= b && b[|prefix|..] == digits + rest;
    var k := DigitCount(digits + rest);
    hide Decimal, Utf8.Encode;
    assert (digits + rest)[..k] + (digits + rest)[k..] == digits + rest;
    DigitsEnd((digits + rest)[..k], (digits + rest)[k..], digits, rest);
    DecimalRoundTrip(n);
  }

  lemma LineRests(id: nat, trim: nat, size: nat, rest1: Bytes, rest2: Bytes)
    requires rest2 == DictionaryLabel() + (Decimal(size) + []) && rest1 == TrimLabel() + (Decimal(trim) + rest2)
    ensures ParamsLine(id, trim, size) == IdLabel() + (Decimal(id) + rest1)
  {
    hide Decimal, TrimLabel, DictionaryLabel, IdLabel;
    assert Decimal(size) + [] == Decimal(size);
  }

  /** The line says the combiner's id, then the trim fraction, then the dictionary size, each after its label,
      and nothing more. */
  lemma ParamsLineReads(id: nat, trim: nat, size: nat)
    ensures var line := ParamsLine(id, trim, size);
            && NumberAfter("kswarm-combiner-params-v1|combiner_id=", line).Some?
            && var first := NumberAfter("kswarm-combiner-params-v1|combiner_id=", line).value;
            && first.0 == id && NumberAfter("|trim_bps=", first.1).Some?
            && var second := NumberAfter("|trim_bps=", first.1).value;
            && second.0 == trim && NumberAfter("|category_dictionary_size=", second.1) == Some((size, []))
  {
    LabelsStartWithBar();
    hide Decimal, NumberAfter, Utf8.Encode, ParamsLine;
    var rest2 := DictionaryLabel() + (Decimal(size) + []);
    var rest1 := TrimLabel() + (Decimal(trim) + rest2);
    LineRests(id, trim, size, rest1, rest2);
    NumberAfterReads("kswarm-combiner-params-v1|combiner_id=", id, rest1);
    NumberAfterReads("|trim_bps=", trim, rest2);
    NumberAfterReads("|category_dictionary_size=", size, []);
  }
}
