/** The guest and the CLI accept the same artifacts, up to integers the guest cannot hold, and commit
    the same bytes for them. */
module GuestAgreement {
  import opened Results
  import opened ByteStrings
  import opened Json
  import opened Mfb2Parsers
  import opened Reduction
  import opened ReductionFacts
  import Hex
  import Mfb2

  lemma UnsignedFieldsAgree(v: Json, field: string, n: nat)
    ensures UnsignedField(Guest, v, field) == Ok(n) <==> UnsignedField(Unbounded, v, field) == Ok(n) && n < U64_LIMIT
  {
  }

  lemma IndexFieldsAgree(v: Json, field: string, n: nat)
    ensures IndexField(Guest, v, field) == Ok(n) <==> IndexField(Unbounded, v, field) == Ok(n) && n < U32_LIMIT
  {
    UnsignedFieldsAgree(v, field, n);
    if IndexField(Guest, v, field).Ok? {
      UnsignedFieldsAgree(v, field, IndexField(Guest, v, field).value);
    }
  }

  lemma StringFieldsAgree(v: Json, field: string, text: string)
    ensures StringField(Guest, v, field) == Ok(text) <==> StringField(Unbounded, v, field) == Ok(text)
  {
  }

  lemma IdFieldsAgree(v: Json, id: nat)
    requires CombinerName(id).Some?
    ensures IdField(Guest, v) == Ok(id) <==> IdField(Unbounded, v) == Ok(id)
  {
    UnsignedFieldsAgree(v, "combiner_id", id);
    if IdField(Guest, v).Ok? {
      UnsignedFieldsAgree(v, "combiner_id", IdField(Guest, v).value);
    }
    hide UnsignedField;
  }

  /** Both hex decoders read the same bytes off the same field. */
  lemma HexFieldsAgree(v: Json, field: string, b: Bytes)
    ensures HexField(Guest, v, field) == Ok(b) <==> HexField(Unbounded, v, field) == Ok(b)
  {
    forall text: string ensures StringField(Guest, v, field) == Ok(text) <==> StringField(Unbounded, v, field) == Ok(text) {
      StringFieldsAgree(v, field, text);
    }
    if StringField(Unbounded, v, field).Ok? {
      Hex.HexDecodersAgree(StringField(Unbounded, v, field).value);
    }
    hide StringField;
  }

  lemma ParametersAgree(v: Json, field: string, n: nat)
    ensures Parameter(Guest, v, field) == Ok(n) <==> Parameter(Unbounded, v, field) == Ok(n) && n < U32_LIMIT
  {
    IndexFieldsAgree(v, field, n);
    hide IndexField;
  }

  lemma ReadParametersAgree(v: Json, id: nat, header: Header)
    ensures ReadParameters(Guest, v, id) == Ok(header)
       <==> ReadParameters(Unbounded, v, id) == Ok(header) && header.trimBps < U32_LIMIT && header.dictionarySize < U32_LIMIT
  {
    var parameters := v.Get("combiner_parameters");
    if parameters.Some? {
      ParametersAgree(parameters.value, "trim_bps", header.trimBps);
      ParametersAgree(parameters.value, "category_dictionary_size", header.dictionarySize);
    }
    hide Parameter;
  }

  lemma HeadersAgree(v: Json, header: Header)
    ensures ReadHeader(Guest, v) == Ok(header)
       <==> ReadHeader(Unbounded, v) == Ok(header) && header.trimBps < U32_LIMIT && header.dictionarySize < U32_LIMIT
  {
    UnsignedFieldsAgree(v, "schema_version", 3);
    forall id: nat | CombinerName(id).Some?
      ensures IdField(Guest, v) == Ok(id) <==> IdField(Unbounded, v) == Ok(id)
    {
      IdFieldsAgree(v, id);
    }
    forall field: string, text: string
      ensures StringField(Guest, v, field) == Ok(text) <==> StringField(Unbounded, v, field) == Ok(text)
    {
      StringFieldsAgree(v, field, text);
    }
    forall id: nat
      ensures ReadParameters(Guest, v, id) == Ok(header)
         <==> ReadParameters(Unbounded, v, id) == Ok(header) && header.trimBps < U32_LIMIT && header.dictionarySize < U32_LIMIT
    {
      ReadParametersAgree(v, id, header);
    }
    hide UnsignedField, IdField, ReadParameters, StringField, CombinerName;
  }

  /** The weight of a branch, when it is one, fits u64. */
  predicate WeightFits(branch: Json) {
    UnsignedField(Unbounded, branch, "weight").Ok? ==> UnsignedField(Unbounded, branch, "weight").value < U64_LIMIT
  }

  /** Every number of the artifact fits the guest's integers: parameters u32, weights u64.  A branch
      index needs no clause, since it must equal the u32 its receipt carries. */
  predicate FitsGuest(v: Json) {
    var header := ReadHeader(Unbounded, v);
    header.Ok? ==>
      && header.value.trimBps < U32_LIMIT && header.value.dictionarySize < U32_LIMIT
      && forall i :: 0 <= i < |header.value.branches| ==> WeightFits(header.value.branches[i])
  }

  lemma HashFieldsAgree(v: Json, field: string, d: Digest)
    ensures HashField(Guest, v, field) == Ok(d) <==> HashField(Unbounded, v, field) == Ok(d)
  {
    HexFieldsAgree(v, field, d);
    if HexField(Guest, v, field).Ok? {
      HexFieldsAgree(v, field, HexField(Guest, v, field).value);
    }
    hide HexField;
  }

  lemma AddBranchFrom(h: Hash, w: Width, header: Header, c: Collected, branch: Json,
                      declared: nat, receiptBytes: Bytes, receipt: Mfb2.BranchResult, weight: nat)
    requires branch.Obj?
    requires IndexField(w, branch, "branch_index") == Ok(declared)
    requires c.previous.None? || c.previous.value < declared
    requires HexField(w, branch, "result_bytes") == Ok(receiptBytes)
    requires StrictParse(h, receiptBytes) == Ok(receipt) && receipt.branchIndex == declared
    requires HashField(w, branch, "result_hash") == Ok(receipt.resultHash)
    requires UnsignedField(w, branch, "weight") == Ok(weight)
    ensures AddBranch(h, w, header, c, branch) == AddReceipt(header, c, declared, receiptBytes, receipt, weight)
  {
    hide IndexField, HexField, StrictParse, HashField, UnsignedField, AddReceipt;
  }

  lemma BranchAgrees(h: Hash, header: Header, c: Collected, branch: Json, next: Collected)
    ensures AddBranch(h, Guest, header, c, branch) == Ok(next)
       <==> AddBranch(h, Unbounded, header, c, branch) == Ok(next) && WeightFits(branch)
  {
    hide AddBranch, AddReceipt, StrictParse, IndexField, HexField, HashField, UnsignedField;
    if AddBranch(h, Guest, header, c, branch) == Ok(next) {
      var declared, receiptBytes, receipt, weight := AddBranchParts(h, Guest, header, c, branch);
      IndexFieldsAgree(branch, "branch_index", declared);
      HexFieldsAgree(branch, "result_bytes", receiptBytes);
      HashFieldsAgree(branch, "result_hash", receipt.resultHash);
      UnsignedFieldsAgree(branch, "weight", weight);
      AddBranchFrom(h, Unbounded, header, c, branch, declared, receiptBytes, receipt, weight);
    }
    if AddBranch(h, Unbounded, header, c, branch) == Ok(next) && WeightFits(branch) {
      var declared, receiptBytes, receipt, weight := AddBranchParts(h, Unbounded, header, c, branch);
      ParsedReceiptInRange(h, receiptBytes);
      IndexFieldsAgree(branch, "branch_index", declared);
      HexFieldsAgree(branch, "result_bytes", receiptBytes);
      HashFieldsAgree(branch, "result_hash", receipt.resultHash);
      UnsignedFieldsAgree(branch, "weight", weight);
      AddBranchFrom(h, Guest, header, c, branch, declared, receiptBytes, receipt, weight);
    }
  }

  lemma {:induction false} BranchesAgree(h: Hash, header: Header, c: Collected, branches: seq<Json>, end: Collected)
    ensures AddBranches(h, Guest, header, c, branches) == Ok(end)
       <==> && AddBranches(h, Unbounded, header, c, branches) == Ok(end)
            && forall i :: 0 <= i < |branches| ==> WeightFits(branches[i])
    decreases |branches|
  {
    if branches != [] {
      var guest, python := AddBranch(h, Guest, header, c, branches[0]), AddBranch(h, Unbounded, header, c, branches[0]);
      hide AddBranch, WeightFits;
      if guest.Ok? {
        BranchAgrees(h, header, c, branches[0], guest.value);
      }
      if python.Ok? {
        BranchAgrees(h, header, c, branches[0], python.value);
        BranchesAgree(h, header, python.value, branches[1..], end);
        assert (forall i :: 0 <= i < |branches| ==> WeightFits(branches[i]))
          <==> WeightFits(branches[0]) && forall i :: 0 <= i < |branches[1..]| ==> WeightFits(branches[1..][i]);
      }
    }
  }

  /** The guest accepts exactly the artifacts the CLI accepts whose numbers fit it, with the same
      reduction; in particular nothing the guest computes can overflow. */
  lemma GuestAcceptsWhatFits(h: Hash, v: Json, r: AggregateReduction)
    ensures Reduce(h, Guest, v) == Ok(r) <==> Reduce(h, Unbounded, v) == Ok(r) && FitsGuest(v)
  {
    hide Finish, AddBranches, ReadHeader, WeightFits;
    if Reduce(h, Guest, v) == Ok(r) {
      var header := ReadHeader(Guest, v).value;
      HeadersAgree(v, header);
      var c := AddBranches(h, Guest, header, NothingCollected(), header.branches).value;
      BranchesAgree(h, header, NothingCollected(), header.branches, c);
    }
    if Reduce(h, Unbounded, v) == Ok(r) && FitsGuest(v) {
      var header := ReadHeader(Unbounded, v).value;
      HeadersAgree(v, header);
      var c := AddBranches(h, Unbounded, header, NothingCollected(), header.branches).value;
      BranchesAgree(h, header, NothingCollected(), header.branches, c);
    }
  }
}
