/** The aggregate reduction over a parsed artifact.  The CLI and the guest take the same steps; they
    differ in the width of the integers they read, in how they read hex, and in how they name a field they
    cannot read: `Width` selects. */
module Reduction {
  import opened Results
  import opened ByteStrings
  import opened Json
  import opened Combiners
  import opened Trimming
  import opened CombinerParams
  import opened Merkle
  import opened Mfb2Parsers
  import Mfb2
  import Hex
  import Utf8

  const WEIGHTED_MEAN := 1
  const TRIMMED_MEAN := 2
  const MAJORITY_VOTE := 3
  const MAX_BRANCHES := 128

  /** `Unbounded` reads Python integers, `Guest` reads u64 and u32 fields. */
  datatype Width = Unbounded | Guest

  /** What went wrong.  Of a field the guest says whether it is missing or mistyped; the CLI says what it
      should have been.  `UnknownCombinerId` is also the guest's combiner error of that name. */
  datatype AggregateError =
    | NotAnObject
    | MissingField(field: string)
    | WrongType(field: string)
    | NotAString(field: string)
    | NotUnsigned(field: string)
    | UnknownSchema
    | UnknownSchemaVersion
    | UnknownCombinerId
    | CombinerNameMismatch
    | ParametersNotObject
    | BranchesNotArray
    | NoBranchesGiven
    | TooManyBranches
    | BranchNotObject
    | IndexNotIncreasing
    | BadHex(field: string)
    | BadReceipt(receiptError: Mfb2.Mfb2Error)
    | IndexMismatch
    | ResultHashMismatch
    | WeightIsZero
    | NonUniformWeight
    | MissingLabel
    | DictionarySizeMissing
    | LabelOutsideDictionary
    | MissingScalar
    | Combiner(combinerError: CombinerError)

  type Checked<T> = Result<T, AggregateError>

  // ----- field readers

  function Missing(w: Width, field: string, cli: AggregateError): AggregateError {
    if w.Guest? then MissingField(field) else cli
  }

  function Mistyped(w: Width, field: string, cli: AggregateError): AggregateError {
    if w.Guest? then WrongType(field) else cli
  }

  function StringField(w: Width, v: Json, field: string): Checked<string> {
    match v.Get(field)
    case None => Err(Missing(w, field, NotAString(field)))
    case Some(found) => if found.Str? then Ok(found.s) else Err(Mistyped(w, field, NotAString(field)))
  }

  function Unsigned(w: Width, v: Json): Option<nat> {
    if w.Unbounded? then AsUnsigned(v) else AsU64(v)
  }

  function UnsignedField(w: Width, v: Json, field: string): Checked<nat> {
    match v.Get(field)
    case None => Err(Missing(w, field, NotUnsigned(field)))
    case Some(found) =>
      if Unsigned(w, found).Some? then Ok(Unsigned(w, found).value) else Err(Mistyped(w, field, NotUnsigned(field)))
  }

  /** `u32_field` in the guest; any non-negative integer in the CLI. */
  function IndexField(w: Width, v: Json, field: string): Checked<nat> {
    var n :- UnsignedField(w, v, field);
    if w.Guest? && n >= U32_LIMIT then Err(WrongType(field)) else Ok(n)
  }

  /** `combiner_id`, which the guest narrows to a byte. */
  function IdField(w: Width, v: Json): Checked<nat> {
    var n :- UnsignedField(w, v, "combiner_id");
    if w.Guest? && n > 0xFF then Err(WrongType("combiner_id")) else Ok(n)
  }

  /** A parameter that may be absent or null, which both read as 0. */
  function Parameter(w: Width, parameters: Json, field: string): Checked<nat> {
    match parameters.Get(field)
    case None => Ok(0)
    case Some(found) => if found.Null? then Ok(0) else IndexField(w, parameters, field)
  }

  /** The guest decodes the UTF-8 bytes of the text, the CLI its characters. */
  function HexOf(w: Width, text: string): Option<Bytes> {
    if w.Guest? then Hex.DecodeHex(Utf8.Encode(text)) else Hex.HexBytes(text)
  }

  function HexField(w: Width, v: Json, field: string): Checked<Bytes> {
    var text :- StringField(w, v, field);
    match HexOf(w, text)
    case None => Err(BadHex(field))
    case Some(b) => Ok(b)
  }

  /** `decode_hex_array` in the guest: the wrong length is a hex error, not a mismatch. */
  function HashField(w: Width, v: Json, field: string): Checked<Bytes> {
    var b :- HexField(w, v, field);
    if w.Guest? && |b| != 32 then Err(BadHex(field)) else Ok(b)
  }

  function CombinerName(id: nat): Option<string> {
    if id == WEIGHTED_MEAN then Some("weighted-mean")
    else if id == TRIMMED_MEAN then Some("trimmed-mean")
    else if id == MAJORITY_VOTE then Some("majority-vote")
    else None
  }

  // ----- the head of the artifact

  datatype Header = Header(combinerId: nat, trimBps: nat, dictionarySize: nat, branches: seq<Json>)

  function ReadHeader(w: Width, v: Json): Checked<Header> {
    if !v.Obj? then Err(NotAnObject)
    else
      var schema :- StringField(w, v, "schema");
      if schema != "MFA3" then Err(UnknownSchema)
      else
        var version :- UnsignedField(w, v, "schema_version");
        if version != 3 then Err(UnknownSchemaVersion)
        else
          var id :- IdField(w, v);
          if CombinerName(id).None? then Err(UnknownCombinerId)
          else
            var name :- StringField(w, v, "combiner");
            if name != CombinerName(id).value then Err(CombinerNameMismatch)
            else ReadParameters(w, v, id)
  }

  function ReadParameters(w: Width, v: Json, id: nat): Checked<Header> {
    match v.Get("combiner_parameters")
    case None => Err(Missing(w, "combiner_parameters", ParametersNotObject))
    case Some(parameters) =>
      if !parameters.Obj? then Err(Mistyped(w, "combiner_parameters", ParametersNotObject))
      else
        var trim :- Parameter(w, parameters, "trim_bps");
        var size :- Parameter(w, parameters, "category_dictionary_size");
        match v.Get("branches")
        case None => Err(Missing(w, "branches", BranchesNotArray))
        case Some(branches) =>
          if !branches.Arr? then Err(Mistyped(w, "branches", BranchesNotArray))
          else if branches.items == [] then Err(NoBranchesGiven)
          else if |branches.items| > MAX_BRANCHES then Err(TooManyBranches)
          else Ok(Header(id, trim, size, branches.items))
  }

  // ----- the branches

  /** What the loop over the branches has collected. */
  datatype Collected = Collected(
    receipts: seq<Bytes>,
    scalars: seq<Weighted>,
    votes: seq<Vote>,
    previous: Option<nat>)

  function NothingCollected(): Collected {
    Collected([], [], [], None)
  }

  /** What one element of `branches` declares, checked against the receipt it carries. */
  datatype BranchRead = BranchRead(declared: nat, receiptBytes: Bytes, receipt: Mfb2.BranchResult, weight: nat)

  function ReadBranch(h: Hash, w: Width, previous: Option<nat>, branch: Json): Checked<BranchRead> {
    if !branch.Obj? then Err(Mistyped(w, "branches[]", BranchNotObject))
    else
      var declared :- IndexField(w, branch, "branch_index");
      if previous.Some? && declared <= previous.value then Err(IndexNotIncreasing)
      else
        var receiptBytes :- HexField(w, branch, "result_bytes");
        match StrictParse(h, receiptBytes)
        case Err(e) => Err(BadReceipt(e))
        case Ok(receipt) =>
          if receipt.branchIndex != declared then Err(IndexMismatch)
          else
            var declaredHash :- HashField(w, branch, "result_hash");
            if declaredHash != receipt.resultHash then Err(ResultHashMismatch)
            else
              var weight :- UnsignedField(w, branch, "weight");
              Ok(BranchRead(declared, receiptBytes, receipt, weight))
  }

  function AddBranch(h: Hash, w: Width, header: Header, c: Collected, branch: Json): Checked<Collected> {
    var read :- ReadBranch(h, w, c.previous, branch);
    AddReceipt(header, c, read.declared, read.receiptBytes, read.receipt, read.weight)
  }

  function AddReceipt(header: Header, c: Collected, declared: nat, receiptBytes: Bytes, receipt: Mfb2.BranchResult, weight: nat): Checked<Collected> {
    if weight == 0 then Err(WeightIsZero)
    else if header.combinerId == TRIMMED_MEAN && weight != 1 then Err(NonUniformWeight)
    else if header.combinerId == MAJORITY_VOTE then
      if receipt.category.None? then Err(MissingLabel)
      else if header.dictionarySize == 0 then Err(DictionarySizeMissing)
      else if receipt.category.value >= header.dictionarySize then Err(LabelOutsideDictionary)
      else Ok(Collected(c.receipts + [receiptBytes], c.scalars, c.votes + [Vote(receipt.category.value, weight)], Some(declared)))
    else if receipt.kind.Categorical? || receipt.scalar.None? then Err(MissingScalar)
    else Ok(Collected(c.receipts + [receiptBytes], c.scalars + [Weighted(receipt.scalar.value, weight)], c.votes, Some(declared)))
  }

  function AddBranches(h: Hash, w: Width, header: Header, c: Collected, branches: seq<Json>): Checked<Collected>
    decreases |branches|
  {
    if branches == [] then Ok(c)
    else
      var next :- AddBranch(h, w, header, c, branches[0]);
      AddBranches(h, w, header, next, branches[1..])
  }

  // ----- the result

  datatype AggregateReduction = AggregateReduction(
    combinerId: nat,
    trimBps: nat,
    dictionarySize: nat,
    paramsDigest: Digest,
    resultValue: nat,
    branchCount: nat,
    branchHashes: seq<Digest>,
    merkleRoot: Digest)

  function HashAll(h: Hash, receipts: seq<Bytes>): (r: seq<Digest>)
    ensures |r| == |receipts|
    ensures forall i :: 0 <= i < |r| ==> r[i] == h(receipts[i])
  {
    seq(|receipts|, i requires 0 <= i < |receipts| => h(receipts[i]))
  }

  function Combine(header: Header, c: Collected): Result<nat, CombinerError> {
    if header.combinerId == WEIGHTED_MEAN then WeightedMean(c.scalars)
    else if header.combinerId == TRIMMED_MEAN then
      var count :- TrimCount(|c.scalars|, header.trimBps);
      TrimmedMean(ValuesOf(c.scalars), count)
    else MajorityResult(c.votes)
  }

  function Finish(h: Hash, header: Header, c: Collected): Checked<AggregateReduction> {
    match Combine(header, c)
    case Err(e) => Err(Combiner(e))
    case Ok(value) =>
      if c.receipts == [] then Err(Combiner(EmptyBranches))
      else Ok(AggregateReduction(
             header.combinerId, header.trimBps, header.dictionarySize,
             h(ParamsLine(header.combinerId, header.trimBps, header.dictionarySize)),
             value, |c.receipts|, HashAll(h, c.receipts), SortedRoot(h, HashAll(h, c.receipts))))
  }

  /** `reduce_aggregate_artifact`. */
  function Reduce(h: Hash, w: Width, v: Json): Checked<AggregateReduction> {
    var header :- ReadHeader(w, v);
    var c :- AddBranches(h, w, header, NothingCollected(), header.branches);
    Finish(h, header, c)
  }
}
