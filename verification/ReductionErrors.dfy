/** Why an artifact is refused: the first check that fails, in the order of the checks, in the CLI's words and in
    the guest's. */
module ReductionErrors {
  import opened Results
  import opened ByteStrings
  import opened Json
  import opened Mfb2Parsers
  import opened Reduction
  import opened ReductionFacts
  import opened ReductionMeaning
  import opened Combiners
  import Mfb2
  import Hex
  import Merkle
  import CombinerParams

  // ----- the words

  /** Of a field that is not as it should be the CLI says what it should be, the guest whether it is there. */
  function Unread(w: Width, v: Json, field: string, cli: AggregateError): AggregateError {
    if w.Unbounded? then cli else if v.Get(field) == None then MissingField(field) else WrongType(field)
  }

  /** A number that fits: any in the CLI, a u64 in the guest. */
  function NumberWithin(w: Width, v: Json, field: string): Option<nat> {
    match NumberAt(v, field)
    case None => None
    case Some(n) => if w.Guest? && n >= 0x1_0000_0000_0000_0000 then None else Some(n)
  }

  predicate FitsU32(w: Width, n: nat) {
    w.Unbounded? || n < 0x1_0000_0000
  }

  lemma TextReads(w: Width, v: Json, field: string)
    ensures StringField(w, v, field)
            == if TextAt(v, field).Some? then Ok(TextAt(v, field).value) else Err(Unread(w, v, field, NotAString(field)))
  {
  }

  lemma NumberReads(w: Width, v: Json, field: string)
    ensures UnsignedField(w, v, field)
            == if NumberWithin(w, v, field).Some? then Ok(NumberWithin(w, v, field).value) else Err(Unread(w, v, field, NotUnsigned(field)))
  {
  }

  lemma IndexReads(w: Width, v: Json, field: string)
    ensures IndexField(w, v, field)
            == if NumberWithin(w, v, field).None? then Err(Unread(w, v, field, NotUnsigned(field)))
               else if !FitsU32(w, NumberWithin(w, v, field).value) then Err(WrongType(field))
               else Ok(NumberWithin(w, v, field).value)
  {
    NumberReads(w, v, field);
    hide UnsignedField, NumberWithin, Unread;
  }

  lemma BytesReads(w: Width, v: Json, field: string)
    ensures HexField(w, v, field)
            == if TextAt(v, field).None? then Err(Unread(w, v, field, NotAString(field)))
               else if BytesAt(v, field).None? then Err(BadHex(field)) else Ok(BytesAt(v, field).value)
  {
    TextReads(w, v, field);
    if TextAt(v, field).Some? {
      Hex.HexDecodersAgree(TextAt(v, field).value);
    }
    hide StringField, TextAt, Unread, Hex.HexBytes, Hex.DecodeHex;
  }

  lemma HashReads(w: Width, v: Json, field: string)
    ensures HashField(w, v, field)
            == if TextAt(v, field).None? then Err(Unread(w, v, field, NotAString(field)))
               else if BytesAt(v, field).None? || (w.Guest? && |BytesAt(v, field).value| != 32) then Err(BadHex(field))
               else Ok(BytesAt(v, field).value)
  {
    BytesReads(w, v, field);
    hide HexField, TextAt, BytesAt, Unread;
  }

  // ----- the head

  /** A parameter that is absent or null, or a number that fits u32 in the guest. */
  predicate ParameterFits(w: Width, fields: map<string, Json>, field: string) {
    field in fields && fields[field] != Null ==>
      NumberWithin(w, Obj(fields), field).Some? && FitsU32(w, NumberWithin(w, Obj(fields), field).value)
  }

  function ParameterFault(w: Width, field: string): AggregateError {
    if w.Guest? then WrongType(field) else NotUnsigned(field)
  }

  lemma ParameterReads(w: Width, fields: map<string, Json>, field: string)
    ensures Parameter(w, Obj(fields), field).Ok? <==> ParameterFits(w, fields, field)
    ensures Parameter(w, Obj(fields), field).Err? ==> Parameter(w, Obj(fields), field).error == ParameterFault(w, field)
  {
    IndexReads(w, Obj(fields), field);
    hide IndexField;
  }

  ghost predicate ParametersFail(w: Width, v: Json, e: AggregateError) {
    match v.Get("combiner_parameters")
    case Some(Obj(fields)) =>
      if !ParameterFits(w, fields, "trim_bps") then e == ParameterFault(w, "trim_bps")
      else if !ParameterFits(w, fields, "category_dictionary_size") then e == ParameterFault(w, "category_dictionary_size")
      else if ItemsAt(v).None? then e == Unread(w, v, "branches", BranchesNotArray)
      else if ItemsAt(v).value == [] then e == NoBranchesGiven
      else e == TooManyBranches && |ItemsAt(v).value| > 128
    case _ => e == Unread(w, v, "combiner_parameters", ParametersNotObject)
  }

  ghost predicate CombinerFails(w: Width, v: Json, e: AggregateError) {
    var id := NumberWithin(w, v, "combiner_id");
    if id.None? then e == Unread(w, v, "combiner_id", NotUnsigned("combiner_id"))
    else if w.Guest? && id.value > 255 then e == WrongType("combiner_id")
    else if id.value !in {1, 2, 3} then e == UnknownCombinerId
    else if TextAt(v, "combiner").None? then e == Unread(w, v, "combiner", NotAString("combiner"))
    else if !Names(id.value, TextAt(v, "combiner").value) then e == CombinerNameMismatch
    else ParametersFail(w, v, e)
  }

  ghost predicate HeadFails(w: Width, v: Json, e: AggregateError) {
    if !v.Obj? then e == NotAnObject
    else if TextAt(v, "schema").None? then e == Unread(w, v, "schema", NotAString("schema"))
    else if TextAt(v, "schema").value != "MFA3" then e == UnknownSchema
    else if NumberWithin(w, v, "schema_version").None? then e == Unread(w, v, "schema_version", NotUnsigned("schema_version"))
    else if NumberWithin(w, v, "schema_version").value != 3 then e == UnknownSchemaVersion
    else CombinerFails(w, v, e)
  }

  lemma ParametersFirstError(w: Width, v: Json, id: nat)
    requires ReadParameters(w, v, id).Err?
    ensures ParametersFail(w, v, ReadParameters(w, v, id).error)
  {
    match v.Get("combiner_parameters")
    case Some(Obj(fields)) =>
      ParameterReads(w, fields, "trim_bps");
      ParameterReads(w, fields, "category_dictionary_size");
    case _ =>
    hide Parameter, ParameterFits, ParameterFault;
  }

  lemma KnownIds(id: nat)
    ensures CombinerName(id).Some? <==> id in {1, 2, 3}
    ensures CombinerName(id).Some? ==> forall name: string :: name == CombinerName(id).value <==> Names(id, name)
  {
  }

  lemma HeadFirstError(w: Width, v: Json)
    requires ReadHeader(w, v).Err?
    ensures HeadFails(w, v, ReadHeader(w, v).error)
  {
    TextReads(w, v, "schema");
    NumberReads(w, v, "schema_version");
    NumberReads(w, v, "combiner_id");
    TextReads(w, v, "combiner");
    var id := NumberWithin(w, v, "combiner_id");
    if id.Some? {
      KnownIds(id.value);
      if ReadParameters(w, v, id.value).Err? {
        ParametersFirstError(w, v, id.value);
      }
    }
    hide StringField, UnsignedField, ReadParameters, CombinerName, Names, ParametersFail, Unread, NumberWithin, TextAt;
  }

  // ----- the branches

  ghost predicate ValueFails(id: nat, dictionarySize: nat, receipt: Mfb2.BranchResult, weight: nat, e: AggregateError) {
    if weight == 0 then e == WeightIsZero
    else if id == 2 && weight != 1 then e == NonUniformWeight
    else if id != 3 then e == MissingScalar && (receipt.kind == Mfb2.Categorical || receipt.scalar == None)
    else if receipt.category == None then e == MissingLabel
    else if dictionarySize == 0 then e == DictionarySizeMissing
    else e == LabelOutsideDictionary && receipt.category.value >= dictionarySize
  }

  ghost predicate ReceiptFails(h: Hash, w: Width, id: nat, dictionarySize: nat, item: Json, bytes: Bytes, receipt: Mfb2.BranchResult, e: AggregateError) {
    if NumberAt(item, "branch_index") != Some(receipt.branchIndex) then e == IndexMismatch
    else if TextAt(item, "result_hash").None? then e == Unread(w, item, "result_hash", NotAString("result_hash"))
    else if BytesAt(item, "result_hash").None? || (w.Guest? && |BytesAt(item, "result_hash").value| != 32) then e == BadHex("result_hash")
    else if BytesAt(item, "result_hash").value != h(bytes) then e == ResultHashMismatch
    else if NumberWithin(w, item, "weight").None? then e == Unread(w, item, "weight", NotUnsigned("weight"))
    else ValueFails(id, dictionarySize, receipt, NumberWithin(w, item, "weight").value, e)
  }

  ghost predicate BranchFails(h: Hash, w: Width, id: nat, dictionarySize: nat, previous: Option<nat>, item: Json, e: AggregateError) {
    var index := NumberWithin(w, item, "branch_index");
    if !item.Obj? then e == (if w.Guest? then WrongType("branches[]") else BranchNotObject)
    else if index.None? then e == Unread(w, item, "branch_index", NotUnsigned("branch_index"))
    else if !FitsU32(w, index.value) then e == WrongType("branch_index")
    else if previous.Some? && index.value <= previous.value then e == IndexNotIncreasing
    else if TextAt(item, "result_bytes").None? then e == Unread(w, item, "result_bytes", NotAString("result_bytes"))
    else
      match BytesAt(item, "result_bytes")
      case None => e == BadHex("result_bytes")
      case Some(bytes) =>
        match StrictParse(h, bytes)
        case Err(fault) => e == BadReceipt(fault)
        case Ok(receipt) => ReceiptFails(h, w, id, dictionarySize, item, bytes, receipt, e)
  }

  lemma ValueFirstError(header: Header, c: Collected, declared: nat, bytes: Bytes, receipt: Mfb2.BranchResult, weight: nat)
    requires AddReceipt(header, c, declared, bytes, receipt, weight).Err?
    ensures ValueFails(header.combinerId, header.dictionarySize, receipt, weight, AddReceipt(header, c, declared, bytes, receipt, weight).error)
  {
  }

  lemma BranchFirstError(h: Hash, w: Width, header: Header, c: Collected, item: Json)
    requires AddBranch(h, w, header, c, item).Err?
    ensures BranchFails(h, w, header.combinerId, header.dictionarySize, c.previous, item, AddBranch(h, w, header, c, item).error)
  {
    IndexReads(w, item, "branch_index");
    BytesReads(w, item, "result_bytes");
    HashReads(w, item, "result_hash");
    NumberReads(w, item, "weight");
    if BytesAt(item, "result_bytes").Some? && StrictParse(h, BytesAt(item, "result_bytes").value).Ok? {
      ParsedReceiptInRange(h, BytesAt(item, "result_bytes").value);
    }
    forall declared: nat, bytes: Bytes, receipt: Mfb2.BranchResult, weight: nat | AddReceipt(header, c, declared, bytes, receipt, weight).Err?
      ensures ValueFails(header.combinerId, header.dictionarySize, receipt, weight, AddReceipt(header, c, declared, bytes, receipt, weight).error)
    {
      ValueFirstError(header, c, declared, bytes, receipt, weight);
    }
    hide IndexField, HexField, HashField, UnsignedField, StrictParse, AddReceipt, ValueFails, Unread, BytesAt, TextAt;
  }

  lemma AddedIndex(h: Hash, w: Width, header: Header, c: Collected, item: Json)
    requires AddBranch(h, w, header, c, item).Ok?
    ensures AddBranch(h, w, header, c, item).value.previous == NumberAt(item, "branch_index")
  {
    var declared, receiptBytes, receipt, weight := AddBranchParts(h, w, header, c, item);
    IndexReads(w, item, "branch_index");
    hide IndexField, AddBranch, StrictParse, HexField, HashField, UnsignedField;
  }

  /** The index before the branch at `k`: that of the branch before it, if there is one. */
  function IndexBefore(previous: Option<nat>, items: seq<Json>, k: nat): Option<nat>
    requires k <= |items|
  {
    if k == 0 then previous else NumberAt(items[k - 1], "branch_index")
  }

  lemma {:induction false} BranchesFirstError(h: Hash, w: Width, header: Header, c: Collected, items: seq<Json>) returns (k: nat)
    requires AddBranches(h, w, header, c, items).Err?
    ensures k < |items| && AddBranches(h, w, header, c, items[..k]).Ok?
    ensures BranchFails(h, w, header.combinerId, header.dictionarySize, IndexBefore(c.previous, items, k), items[k],
                        AddBranches(h, w, header, c, items).error)
    decreases |items|
  {
    hide AddBranch, BranchFails, NumberAt;
    var next := AddBranch(h, w, header, c, items[0]);
    if next.Err? {
      k := 0;
      assert items[..0] == [];
      BranchFirstError(h, w, header, c, items[0]);
    } else {
      AddedIndex(h, w, header, c, items[0]);
      var later := BranchesFirstError(h, w, header, next.value, items[1..]);
      k := later + 1;
      assert items[..k][0] == items[0] && items[..k][1..] == items[1..][..later];
    }
  }

  /** Every refusal of either party: the head's first failing check; or, with the branches before it accepted, a
      branch's first failing check; or a trim fraction of the whole or more. */
  lemma ReduceFirstError(h: Hash, w: Width, v: Json) returns (k: nat)
    requires Reduce(h, w, v).Err?
    ensures var e, header := Reduce(h, w, v).error, ReadHeader(w, v);
            if header.Err? then HeadFails(w, v, e)
            else if AddBranches(h, w, header.value, NothingCollected(), header.value.branches).Ok? then
              e == Combiner(CombinerError.ValueOutOfRange) && header.value.combinerId == 2 && header.value.trimBps >= 10_000
            else
              && k < |header.value.branches| && AddBranches(h, w, header.value, NothingCollected(), header.value.branches[..k]).Ok?
              && BranchFails(h, w, header.value.combinerId, header.value.dictionarySize,
                             IndexBefore(None, header.value.branches, k), header.value.branches[k], e)
  {
    hide ReadHeader, AddBranches, Finish, HeadFails, BranchFails;
    k := 0;
    var header := ReadHeader(w, v);
    if header.Err? {
      HeadFirstError(w, v);
    } else if AddBranches(h, w, header.value, NothingCollected(), header.value.branches).Err? {
      k := BranchesFirstError(h, w, header.value, NothingCollected(), header.value.branches);
    } else {
      LateError(h, w, v, header.value);
    }
  }

  lemma LateError(h: Hash, w: Width, v: Json, header: Header)
    requires ReadHeader(w, v) == Ok(header) && Reduce(h, w, v).Err?
    requires AddBranches(h, w, header, NothingCollected(), header.branches).Ok?
    ensures Reduce(h, w, v).error == Combiner(CombinerError.ValueOutOfRange) && header.combinerId == 2 && header.trimBps >= 10_000
  {
    HeaderFacts(w, v);
    AllBranchesGathered(h, w, header);
    FinishErrors(h, header, AddBranches(h, w, header, NothingCollected(), header.branches).value);
    hide ReadHeader, AddBranches, Finish;
    OnlyTrimFractionFailsLate(h, w, v);
  }

  lemma FinishErrors(h: Hash, header: Header, c: Collected)
    ensures Finish(h, header, c).Err? ==> Finish(h, header, c).error.Combiner?
  {
    hide Reduction.Combine, Merkle.SortedRoot, CombinerParams.ParamsLine;
  }
}
