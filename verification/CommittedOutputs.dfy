/** The 73 committed bytes, the framed input and the journal hash. */
module CommittedOutputs {
  import opened ByteStrings
  import opened Reduction

  const OUTPUTS_LENGTH := 1 + 32 + 4 + 4 + 32

  function Outputs(r: AggregateReduction): (b: Bytes)
    ensures |b| == OUTPUTS_LENGTH
  {
    [r.combinerId % 256] + r.paramsDigest + LittleEndian(r.resultValue, 4) + LittleEndian(r.branchCount, 4) + r.merkleRoot
  }

  /** `framed_input`: the length as eight little-endian bytes, then the payload. */
  function FramedInput(payload: Bytes): Bytes {
    LittleEndian(|payload|, 8) + payload
  }

  function FramedInputDigest(h: Hash, payload: Bytes): Digest {
    h(FramedInput(payload))
  }

  /** `sha256(input_digest || committed_outputs)`. */
  function JournalHash(h: Hash, inputDigest: Digest, outputs: Bytes): Digest {
    h(inputDigest + outputs)
  }

  lemma Pow256Of8()
    ensures Pow256(8) == U64_LIMIT
  {
    Pow256Small();
    assert Pow256(5) == 256 * Pow256(4) && Pow256(6) == 256 * Pow256(5) && Pow256(7) == 256 * Pow256(6);
  }

  /** A frame is never a proper prefix of another: the length in it decides where it ends. */
  lemma FramesArePrefixFree(p: Bytes, q: Bytes)
    requires |p| < U64_LIMIT && |q| < U64_LIMIT
    requires FramedInput(p) <= FramedInput(q)
    ensures p == q
  {
    Pow256Of8();
    LittleEndianRoundTrip(|p|, 8);
    LittleEndianRoundTrip(|q|, 8);
    assert FramedInput(p)[..8] == LittleEndian(|p|, 8) && FramedInput(q)[..8] == LittleEndian(|q|, 8);
    assert FramedInput(p)[..8] == FramedInput(q)[..8];
    assert p == FramedInput(p)[8..] && q == FramedInput(q)[8..];
  }

  /** The frame says how long the payload is, in eight bytes, least significant first, and then is the payload. */
  lemma FramedInputLayout(payload: Bytes)
    requires |payload| < U64_LIMIT
    ensures var frame := FramedInput(payload);
            |frame| == 8 + |payload| && FromLittleEndian(frame[..8]) == |payload| && frame[8..] == payload
  {
    Pow256Of8();
    LittleEndianRoundTrip(|payload|, 8);
    hide LittleEndian;
    assert FramedInput(payload)[..8] == LittleEndian(|payload|, 8);
  }

  predicate Packs(r: AggregateReduction) {
    r.combinerId < 256 && r.resultValue < U32_LIMIT && r.branchCount < U32_LIMIT
  }

  /** The 73 bytes determine every field they carry. */
  lemma OutputsInjective(r: AggregateReduction, q: AggregateReduction)
    requires Packs(r) && Packs(q) && Outputs(r) == Outputs(q)
    ensures r.combinerId == q.combinerId && r.paramsDigest == q.paramsDigest && r.resultValue == q.resultValue
    ensures r.branchCount == q.branchCount && r.merkleRoot == q.merkleRoot
  {
    OutputSlices(r);
    OutputSlices(q);
    hide Outputs;
    U32RoundTrip(r.resultValue);
    U32RoundTrip(q.resultValue);
    U32RoundTrip(r.branchCount);
    U32RoundTrip(q.branchCount);
  }

  lemma OutputSlices(r: AggregateReduction)
    ensures var b := Outputs(r);
            && b[0] == r.combinerId % 256 && b[1..33] == r.paramsDigest
            && b[33..37] == LittleEndian(r.resultValue, 4) && b[37..41] == LittleEndian(r.branchCount, 4)
            && b[41..] == r.merkleRoot
  {
    hide LittleEndian;
  }

  /** Where each committed field stands, and how its number is spelled. */
  lemma OutputsLayout(r: AggregateReduction)
    requires Packs(r)
    ensures var b := Outputs(r);
            && |b| == 73 && b[0] == r.combinerId && b[1..33] == r.paramsDigest && b[41..73] == r.merkleRoot
            && r.resultValue == b[33] as int + 256 * b[34] as int + 65_536 * b[35] as int + 16_777_216 * b[36] as int
            && r.branchCount == b[37] as int + 256 * b[38] as int + 65_536 * b[39] as int + 16_777_216 * b[40] as int
  {
    OutputSlices(r);
    U32RoundTrip(r.resultValue);
    U32RoundTrip(r.branchCount);
    hide Outputs, FromLittleEndian, LittleEndian;
    LittleEndianDigits(LittleEndian(r.resultValue, 4));
    LittleEndianDigits(LittleEndian(r.branchCount, 4));
    assert Outputs(r)[33..37][0] == Outputs(r)[33] && Outputs(r)[37..41][0] == Outputs(r)[37];
  }

  /** The guest's form: a fixed buffer, filled field by field. */
  method AggregateCommittedOutputs(r: AggregateReduction) returns (out: array<byte>)
    requires Packs(r)
    ensures fresh(out) && out.Length == OUTPUTS_LENGTH
    ensures out[..] == Outputs(r)
  {
    out := new byte[OUTPUTS_LENGTH];
    var value, count := LittleEndian(r.resultValue, 4), LittleEndian(r.branchCount, 4);
    out[0] := r.combinerId;
    forall i | 0 <= i < 32 { out[1 + i] := r.paramsDigest[i]; }
    forall i | 0 <= i < 4 { out[33 + i] := value[i]; }
    forall i | 0 <= i < 4 { out[37 + i] := count[i]; }
    forall i | 0 <= i < 32 { out[41 + i] := r.merkleRoot[i]; }
    OutputSlices(r);
    hide Outputs, LittleEndian;
    var b := Outputs(r);
    assert out[1..33] == r.paramsDigest && out[33..37] == value && out[37..41] == count && out[41..] == r.merkleRoot;
    assert out[..] == [out[0]] + out[1..33] + out[33..37] + out[37..41] + out[41..];
    assert b == [b[0]] + b[1..33] + b[33..37] + b[37..41] + b[41..];
  }
}
