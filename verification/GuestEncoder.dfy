/** The guest's MFB2 encoder over the JSON document, and why both encoders write the same bytes. */
module GuestEncoder {
  import opened Results
  import opened ByteStrings
  import opened Json
  import opened Mfb2
  import opened BranchEncoders
  import Mfb2Parsers
  import Utf8

  datatype GuestEncodeError =
    | MissingField(field: string)
    | WrongType(field: string)
    | UnknownKindName(name: string)
    | OutOfRange(field: string)
    | ShapeMismatch(field: string)
    | TooManyNarrativeScores(count: nat)
    | GuestResultTooLong(length: int)
    | SelfCheck(error: Mfb2Error)

  type Checked<T> = Result<T, GuestEncodeError>

  function StringField(doc: Json, field: string): Checked<string> {
    match doc.Get(field)
    case None => Err(MissingField(field))
    case Some(v) => if v.Str? then Ok(v.s) else Err(WrongType(field))
  }

  function U64Field(doc: Json, field: string): Checked<nat> {
    match doc.Get(field)
    case None => Err(MissingField(field))
    case Some(v) => if AsU64(v).Some? then Ok(AsU64(v).value) else Err(WrongType(field))
  }

  function OptionalU64(doc: Json, field: string): Checked<Option<nat>> {
    match doc.Get(field)
    case None => Ok(None)
    case Some(v) =>
      if v.Null? then Ok(None)
      else if AsU64(v).Some? then Ok(Some(AsU64(v).value))
      else Err(WrongType(field))
  }

  function OptionalBpsField(doc: Json, field: string): Checked<Option<nat>> {
    var raw :- OptionalU64(doc, field);
    if raw.Some? && raw.value > BPS_MAX then Err(OutOfRange(field)) else Ok(raw)
  }

  function OptionalLabel(doc: Json): Checked<Option<nat>> {
    var raw :- OptionalU64(doc, "categorical_label_index");
    if raw.Some? && raw.value >= 256 then Err(OutOfRange("categorical_label_index")) else Ok(raw)
  }

  function KindNamed(name: string): Option<OutputKind> {
    if name == "scalar" then Some(Scalar)
    else if name == "categorical" then Some(Categorical)
    else if name == "narrative_with_scalar" then Some(NarrativeWithScalar)
    else None
  }

  function KindName(kind: OutputKind): string {
    match kind
    case Scalar => "scalar"
    case Categorical => "categorical"
    case NarrativeWithScalar => "narrative_with_scalar"
  }

  function GuestScores(h: Hash, fields: map<string, Json>, keys: seq<string>): Checked<seq<Score>>
    requires forall k :: k in keys ==> k in fields
  {
    if keys == [] then Ok([])
    else
      var v := AsU64(fields[keys[0]]);
      if v.None? then Err(WrongType("narrative_scores"))
      else if v.value > BPS_MAX then Err(OutOfRange("narrative_scores"))
      else
        var more :- GuestScores(h, fields, keys[1..]);
        Ok([ScoreOf(h, keys[0], v.value)] + more)
  }

  /** `narrative_scores`: the entries in the byte order of their keys. */
  ghost function NarrativeScores(h: Hash, doc: Json): Checked<seq<Score>> {
    match doc.Get("narrative_scores")
    case None => Ok([])
    case Some(v) =>
      if v.Null? then Ok([])
      else if !v.Obj? then Err(WrongType("narrative_scores"))
      else
        KeyOrdersAgree(v.fields);
        GuestScores(h, v.fields, ByteOrderedKeys(v.fields))
  }

  function ShapeError(kind: OutputKind, scalar: Option<nat>, lower: Option<nat>, upper: Option<nat>, category: Option<nat>,
                      scores: seq<Score>): Option<GuestEncodeError>
  {
    if kind.Scalar? && scalar.None? then Some(ShapeMismatch("scalar_value_bps"))
    else if kind.Categorical? && category.None? then Some(ShapeMismatch("categorical_label_index"))
    else if kind.NarrativeWithScalar? && scores == [] then Some(ShapeMismatch("narrative_scores"))
    else if lower.Some? && upper.Some? && lower.value > upper.value then Some(OutOfRange("scalar_confidence_lower_bps"))
    else if |scores| > MAX_SCORES then Some(GuestEncodeError.TooManyNarrativeScores(|scores|))
    else None
  }

  /** What the guest encodes for a document, or the first check that fails. */
  ghost function DocumentReceipt(h: Hash, doc: Json, canonical: Digest): Checked<Receipt> {
    var name :- StringField(doc, "output_kind");
    if KindNamed(name).None? then Err(UnknownKindName(name))
    else
      var index :- U64Field(doc, "branch_index");
      if index >= U32_LIMIT then Err(OutOfRange("branch_index"))
      else
        var scalar :- OptionalBpsField(doc, "scalar_value_bps");
        var lower :- OptionalBpsField(doc, "scalar_confidence_lower_bps");
        var upper :- OptionalBpsField(doc, "scalar_confidence_upper_bps");
        var category :- OptionalLabel(doc);
        var scores :- NarrativeScores(h, doc);
        var kind := KindNamed(name).value;
        var shape := ShapeError(kind, scalar, lower, upper, category, scores);
        if shape.Some? then Err(shape.value)
        else Ok(Receipt(kind, index, scalar, lower, upper, category, if scores == [] then None else Some(scores), canonical))
  }

  lemma {:induction false} GuestScoresOk(h: Hash, fields: map<string, Json>, keys: seq<string>)
    requires forall k :: k in keys ==> k in fields
    requires GuestScores(h, fields, keys).Ok?
    ensures |GuestScores(h, fields, keys).value| == |keys|
    ensures forall i :: 0 <= i < |keys| ==> ScoreOk(GuestScores(h, fields, keys).value[i])
  {
    if keys != [] {
      GuestScoresOk(h, fields, keys[1..]);
    }
  }

  lemma NarrativeScoresOk(h: Hash, doc: Json)
    requires NarrativeScores(h, doc).Ok?
    ensures var scores := NarrativeScores(h, doc).value; forall i :: 0 <= i < |scores| ==> ScoreOk(scores[i])
  {
    var v := doc.Get("narrative_scores");
    if v.Some? && v.value.Obj? {
      KeyOrdersAgree(v.value.fields);
      GuestScoresOk(h, v.value.fields, ByteOrderedKeys(v.value.fields));
    }
  }

  lemma DocumentReceiptWellFormed(h: Hash, doc: Json, canonical: Digest)
    requires DocumentReceipt(h, doc, canonical).Ok?
    ensures WellFormed(DocumentReceipt(h, doc, canonical).value)
  {
    NarrativeScoresOk(h, doc);
    hide NarrativeScores;
  }

  // ----- which documents are encoded, and as what

  /** An optional number: absent or null is none; anything but a number up to the limit does not fit. */
  function OptionalNumber(doc: Json, field: string, limit: nat): Option<Option<nat>> {
    match doc.Get(field)
    case None => Some(None)
    case Some(Null) => Some(None)
    case Some(Int(n)) => if 0 <= n <= limit then Some(Some(n)) else None
    case _ => None
  }

  /** The score object, empty if absent or null. */
  function ScoreFields(doc: Json): Option<map<string, Json>> {
    match doc.Get("narrative_scores")
    case None => Some(map[])
    case Some(Null) => Some(map[])
    case Some(Obj(fields)) => Some(fields)
    case _ => None
  }

  predicate FieldInRange(fields: map<string, Json>, key: string) {
    key in fields && fields[key].Int? && 0 <= fields[key].n <= 10_000
  }

  predicate HeadFits(doc: Json) {
    && TextAt(doc, "output_kind").Some? && TextAt(doc, "output_kind").value in {"scalar", "categorical", "narrative_with_scalar"}
    && NumberAt(doc, "branch_index").Some? && NumberAt(doc, "branch_index").value < 0x1_0000_0000
  }

  /** The document has a kind, an index, and numbers that fit. */
  predicate FieldsFit(doc: Json) {
    && HeadFits(doc) && OptionalNumber(doc, "scalar_value_bps", 10_000).Some? && OptionalNumber(doc, "scalar_confidence_lower_bps", 10_000).Some?
    && OptionalNumber(doc, "scalar_confidence_upper_bps", 10_000).Some? && OptionalNumber(doc, "categorical_label_index", 255).Some?
    && ScoreFields(doc).Some? && AllInRange(ScoreFields(doc).value)
  }

  /** The numbers of a document whose fields fit. */
  datatype Numbers = Numbers(scalar: Option<nat>, lower: Option<nat>, upper: Option<nat>, category: Option<nat>, scores: nat)

  function NumbersOf(doc: Json): Numbers
    requires FieldsFit(doc)
  {
    Numbers(OptionalNumber(doc, "scalar_value_bps", 10_000).value, OptionalNumber(doc, "scalar_confidence_lower_bps", 10_000).value,
            OptionalNumber(doc, "scalar_confidence_upper_bps", 10_000).value, OptionalNumber(doc, "categorical_label_index", 255).value,
            |ScoreFields(doc).value|)
  }

  function NameOf(doc: Json): string
    requires FieldsFit(doc)
  {
    TextAt(doc, "output_kind").value
  }

  /** The value its kind needs is there, the bounds are in order, and there are not too many scores. */
  predicate ShapeFits(name: string, n: Numbers) {
    && (name == "scalar" ==> n.scalar.Some?) && (name == "categorical" ==> n.category.Some?)
    && (name == "narrative_with_scalar" ==> n.scores > 0)
    && (n.lower.Some? && n.upper.Some? ==> n.lower.value <= n.upper.value)
    && n.scores <= 32
  }

  /** The first shape check that fails. */
  ghost predicate FailsShape(name: string, n: Numbers, e: GuestEncodeError) {
    if name == "scalar" && n.scalar.None? then e == ShapeMismatch("scalar_value_bps")
    else if name == "categorical" && n.category.None? then e == ShapeMismatch("categorical_label_index")
    else if name == "narrative_with_scalar" && n.scores == 0 then e == ShapeMismatch("narrative_scores")
    else if n.lower.Some? && n.upper.Some? && n.lower.value > n.upper.value then e == OutOfRange("scalar_confidence_lower_bps")
    else e == GuestEncodeError.TooManyNarrativeScores(n.scores)
  }

  ghost predicate GuestLists(h: Hash, fields: map<string, Json>, keys: seq<string>, list: seq<Score>) {
    |list| == |keys| && forall i :: 0 <= i < |keys| ==> FieldInRange(fields, keys[i]) && IsScore(h, list[i], keys[i], fields[keys[i]].n)
  }

  /** The score list of the object: its keys in ascending order, each with its value. */
  ghost predicate ListsFields(h: Hash, fields: map<string, Json>, list: seq<Score>) {
    exists keys ::
      && (forall key :: key in keys <==> key in fields) && |keys| == |fields|
      && (forall i, j :: 0 <= i < j < |keys| ==> Utf8.CodePointLeq(keys[i], keys[j]))
      && GuestLists(h, fields, keys, list)
  }

  /** The receipt says what the document says. */
  ghost predicate SaysDocument(h: Hash, doc: Json, canonical: Digest, w: Receipt)
    requires FieldsFit(doc)
  {
    var n := NumbersOf(doc);
    && w.kind == KindFor(NameOf(doc)) && w.branchIndex == NumberAt(doc, "branch_index").value
    && w.scalar == n.scalar && w.lower == n.lower && w.upper == n.upper && w.category == n.category && w.canonicalHash == canonical
    && (if n.scores == 0 then w.scores == None else w.scores.Some? && ListsFields(h, ScoreFields(doc).value, w.scores.value))
  }

  lemma {:induction false} GuestScoresVerdict(h: Hash, fields: map<string, Json>, keys: seq<string>)
    requires forall k :: k in keys ==> k in fields
    ensures var r := GuestScores(h, fields, keys);
            && (r.Ok? <==> forall i :: 0 <= i < |keys| ==> FieldInRange(fields, keys[i]))
            && (r.Ok? ==> GuestLists(h, fields, keys, r.value))
            && (r.Err? ==> r.error in {WrongType("narrative_scores"), OutOfRange("narrative_scores")})
  {
    if keys != [] {
      var rest := keys[1..];
      GuestScoresVerdict(h, fields, rest);
      hide GuestLists;
      var r, tail := GuestScores(h, fields, keys), GuestScores(h, fields, rest);
      assert forall i :: 0 < i < |keys| ==> keys[i] == rest[i - 1];
      if r.Ok? {
        assert r.value == [ScoreOf(h, keys[0], fields[keys[0]].n)] + tail.value;
        GuestListsOne(h, fields, keys, tail.value);
      }
    }
  }

  lemma GuestListsOne(h: Hash, fields: map<string, Json>, keys: seq<string>, tail: seq<Score>)
    requires keys != [] && FieldInRange(fields, keys[0]) && GuestLists(h, fields, keys[1..], tail)
    ensures GuestLists(h, fields, keys, [ScoreOf(h, keys[0], fields[keys[0]].n)] + tail)
  {
    hide Utf8.Encode;
    assert forall i :: 0 < i < |keys| ==> keys[i] == keys[1..][i - 1];
  }

  predicate AllInRange(fields: map<string, Json>) {
    forall key :: key in fields ==> FieldInRange(fields, key)
  }

  lemma FieldsListed(h: Hash, fields: map<string, Json>)
    requires forall k :: k in ByteOrderedKeys(fields) ==> k in fields
    ensures var r := GuestScores(h, fields, ByteOrderedKeys(fields));
            && (r.Ok? <==> AllInRange(fields))
            && (r.Ok? ==> |r.value| == |fields| && ListsFields(h, fields, r.value))
            && (r.Err? ==> r.error in {WrongType("narrative_scores"), OutOfRange("narrative_scores")})
  {
    hide ByteOrderedKeys, SortedKeys, Utf8.CodePointLeq, GuestScores, FieldInRange, IsScore;
    KeyOrdersAgree(fields);
    var keys := ByteOrderedKeys(fields);
    SortedKeysAscend(fields);
    GuestScoresVerdict(h, fields, keys);
    assert forall key :: key in keys <==> key in fields;
    KeysCover(fields, keys);
  }

  lemma KeysCover(fields: map<string, Json>, keys: seq<string>)
    requires forall key :: key in keys <==> key in fields
    ensures (forall i :: 0 <= i < |keys| ==> FieldInRange(fields, keys[i])) <==> AllInRange(fields)
  {
    hide FieldInRange;
    if forall i :: 0 <= i < |keys| ==> FieldInRange(fields, keys[i]) {
      forall key | key in fields ensures FieldInRange(fields, key) {
        assert key in keys;
      }
    }
  }

  lemma NarrativeScoresVerdict(h: Hash, doc: Json)
    ensures var r, fields := NarrativeScores(h, doc), ScoreFields(doc);
            && (r.Ok? <==> fields.Some? && AllInRange(fields.value))
            && (r.Ok? ==> |r.value| == |fields.value| && (fields.value != map[] ==> ListsFields(h, fields.value, r.value)))
            && (r.Err? ==> r.error in {WrongType("narrative_scores"), OutOfRange("narrative_scores")})
  {
    hide GuestScores, ByteOrderedKeys, SortedKeys, ListsFields, NarrativeScores, FieldInRange;
    if doc.Get("narrative_scores").Some? && doc.Get("narrative_scores").value.Obj? {
      ScoresOfObject(h, doc, doc.Get("narrative_scores").value.fields);
    } else {
      NoScores(h, doc);
    }
  }

  lemma ScoresOfObject(h: Hash, doc: Json, fields: map<string, Json>)
    requires doc.Get("narrative_scores") == Some(Obj(fields))
    ensures ScoreFields(doc) == Some(fields)
    ensures var r := NarrativeScores(h, doc);
            && (r.Ok? <==> AllInRange(fields)) && (r.Ok? ==> |r.value| == |fields| && ListsFields(h, fields, r.value))
            && (r.Err? ==> r.error in {WrongType("narrative_scores"), OutOfRange("narrative_scores")})
  {
    hide GuestScores, SortedKeys, ListsFields, AllInRange, ByteOrderedKeys;
    KeyOrdersAgree(fields);
    FieldsListed(h, fields);
    NarrativeScoresOfFields(h, doc, fields);
  }

  lemma NoScores(h: Hash, doc: Json)
    requires doc.Get("narrative_scores").Some? ==> !doc.Get("narrative_scores").value.Obj?
    ensures NarrativeScores(h, doc) == if ScoreFields(doc).Some? then Ok([]) else Err(WrongType("narrative_scores"))
    ensures ScoreFields(doc).Some? ==> ScoreFields(doc).value == map[]
  {
  }

  function Absent(doc: Json, field: string): GuestEncodeError {
    if doc.Get(field) == None then MissingField(field) else WrongType(field)
  }

  /** A number that is too large is out of range, anything else of the wrong type. */
  function Unfit(doc: Json, field: string): GuestEncodeError {
    match doc.Get(field)
    case Some(Int(n)) => if 0 <= n < 0x1_0000_0000_0000_0000 then OutOfRange(field) else WrongType(field)
    case _ => WrongType(field)
  }

  lemma OptionalVerdict(doc: Json, field: string)
    ensures OptionalBpsField(doc, field)
            == if OptionalNumber(doc, field, 10_000).None? then Err(Unfit(doc, field)) else Ok(OptionalNumber(doc, field, 10_000).value)
  {
  }

  lemma LabelVerdict(doc: Json)
    ensures OptionalLabel(doc)
            == if OptionalNumber(doc, "categorical_label_index", 255).None? then Err(Unfit(doc, "categorical_label_index"))
               else Ok(OptionalNumber(doc, "categorical_label_index", 255).value)
  {
  }

  /** The first check of the guest's encoder that a document fails, up to its fields. */
  ghost predicate FailsFields(doc: Json, e: GuestEncodeError) {
    if TextAt(doc, "output_kind").None? then e == Absent(doc, "output_kind")
    else if TextAt(doc, "output_kind").value !in {"scalar", "categorical", "narrative_with_scalar"} then e == UnknownKindName(TextAt(doc, "output_kind").value)
    else if NumberAt(doc, "branch_index").None? then e == Absent(doc, "branch_index")
    else if NumberAt(doc, "branch_index").value >= 0x1_0000_0000 then e in {OutOfRange("branch_index"), WrongType("branch_index")}
    else if OptionalNumber(doc, "scalar_value_bps", 10_000).None? then e == Unfit(doc, "scalar_value_bps")
    else if OptionalNumber(doc, "scalar_confidence_lower_bps", 10_000).None? then e == Unfit(doc, "scalar_confidence_lower_bps")
    else if OptionalNumber(doc, "scalar_confidence_upper_bps", 10_000).None? then e == Unfit(doc, "scalar_confidence_upper_bps")
    else if OptionalNumber(doc, "categorical_label_index", 255).None? then e == Unfit(doc, "categorical_label_index")
    else e in {WrongType("narrative_scores"), OutOfRange("narrative_scores")}
  }

  lemma KindsNamed(name: string)
    ensures KindNamed(name).Some? <==> name in {"scalar", "categorical", "narrative_with_scalar"}
    ensures KindNamed(name).Some? ==> KindNamed(name).value == KindFor(name)
    ensures KindNamed(name) == Some(Scalar) <==> name == "scalar"
    ensures KindNamed(name) == Some(Categorical) <==> name == "categorical"
    ensures KindNamed(name) == Some(NarrativeWithScalar) <==> name == "narrative_with_scalar"
  {
    assert "categorical"[0] != "scalar"[0];
    assert "narrative_with_scalar"[0] != "scalar"[0] && "narrative_with_scalar"[0] != "categorical"[0];
  }

  /** The kind a name stands for. */
  function KindFor(name: string): OutputKind {
    match name case "scalar" => Scalar case "categorical" => Categorical case _ => NarrativeWithScalar
  }

  lemma ShapeVerdict(name: string, kind: OutputKind, n: Numbers, scores: seq<Score>)
    requires KindNamed(name) == Some(kind) && |scores| == n.scores
    ensures var shape := ShapeError(kind, n.scalar, n.lower, n.upper, n.category, scores);
            (shape == None <==> ShapeFits(name, n)) && (shape.Some? ==> FailsShape(name, n, shape.value))
  {
    KindsNamed(name);
    hide KindNamed;
  }

  /** A document whose fields fit is judged by its shape alone. */
  lemma FittingDocument(h: Hash, doc: Json, canonical: Digest)
    requires FieldsFit(doc)
    ensures NarrativeScores(h, doc).Ok?
    ensures var kind, scores, n := KindFor(NameOf(doc)), NarrativeScores(h, doc).value, NumbersOf(doc);
            var shape := ShapeError(kind, n.scalar, n.lower, n.upper, n.category, scores);
            DocumentReceipt(h, doc, canonical)
            == if shape.Some? then Err(shape.value)
               else Ok(Receipt(kind, NumberAt(doc, "branch_index").value, n.scalar, n.lower, n.upper, n.category, if scores == [] then None else Some(scores), canonical))
  {
    NarrativeScoresVerdict(h, doc);
    OptionalVerdict(doc, "scalar_value_bps");
    OptionalVerdict(doc, "scalar_confidence_lower_bps");
    OptionalVerdict(doc, "scalar_confidence_upper_bps");
    LabelVerdict(doc);
    KindsNamed(TextAt(doc, "output_kind").value);
    HeadRead(doc);
    hide NarrativeScores, OptionalBpsField, OptionalLabel, OptionalNumber, KindNamed, ListsFields, AllInRange, Unfit, ShapeError, StringField, U64Field, TextAt, NumberAt, ScoreFields;
  }

  lemma HeadRead(doc: Json)
    ensures StringField(doc, "output_kind") == if TextAt(doc, "output_kind").Some? then Ok(TextAt(doc, "output_kind").value) else Err(Absent(doc, "output_kind"))
    ensures NumberAt(doc, "branch_index").Some? && NumberAt(doc, "branch_index").value < 0x1_0000_0000_0000_0000 ==>
              U64Field(doc, "branch_index") == Ok(NumberAt(doc, "branch_index").value)
    ensures NumberAt(doc, "branch_index").Some? && NumberAt(doc, "branch_index").value >= 0x1_0000_0000_0000_0000 ==>
              U64Field(doc, "branch_index") == Err(WrongType("branch_index"))
    ensures NumberAt(doc, "branch_index").None? ==> U64Field(doc, "branch_index") == Err(Absent(doc, "branch_index"))
  {
  }

  lemma UnfitHead(h: Hash, doc: Json, canonical: Digest)
    requires !HeadFits(doc)
    ensures DocumentReceipt(h, doc, canonical).Err? && FailsFields(doc, DocumentReceipt(h, doc, canonical).error)
  {
    hide NarrativeScores, OptionalBpsField, OptionalLabel, OptionalNumber, KindNamed, Unfit, ShapeError, StringField, U64Field, TextAt, NumberAt, Absent;
    if TextAt(doc, "output_kind").Some? {
      KindsNamed(TextAt(doc, "output_kind").value);
    }
    HeadRead(doc);
  }

  lemma UnfitNumbers(h: Hash, doc: Json, canonical: Digest)
    requires HeadFits(doc) && !FieldsFit(doc)
    ensures DocumentReceipt(h, doc, canonical).Err? && FailsFields(doc, DocumentReceipt(h, doc, canonical).error)
  {
    hide NarrativeScores, OptionalBpsField, OptionalLabel, OptionalNumber, KindNamed, ListsFields, AllInRange, Unfit, ShapeError, StringField, U64Field, TextAt, NumberAt, Absent, ScoreFields;
    KindsNamed(TextAt(doc, "output_kind").value);
    HeadRead(doc);
    NarrativeScoresVerdict(h, doc);
    OptionalVerdict(doc, "scalar_value_bps");
    OptionalVerdict(doc, "scalar_confidence_lower_bps");
    OptionalVerdict(doc, "scalar_confidence_upper_bps");
    LabelVerdict(doc);
  }

  /** Every document: the guest takes it if and only if its fields and its shape fit, and then encodes what it says;
      otherwise it names the first check that fails. */
  lemma DocumentEncodes(h: Hash, doc: Json, canonical: Digest)
    ensures var r := DocumentReceipt(h, doc, canonical);
            if FieldsFit(doc) then
              && (r.Ok? <==> ShapeFits(NameOf(doc), NumbersOf(doc)))
              && (r.Ok? ==> SaysDocument(h, doc, canonical, r.value))
              && (r.Err? ==> FailsShape(NameOf(doc), NumbersOf(doc), r.error))
            else r.Err? && FailsFields(doc, r.error)
  {
    hide DocumentReceipt, ShapeFits, FailsShape, SaysDocument, FailsFields, HeadFits, FieldsFit;
    if FieldsFit(doc) {
      FittingVerdict(h, doc, canonical);
    } else if HeadFits(doc) {
      UnfitNumbers(h, doc, canonical);
    } else {
      UnfitHead(h, doc, canonical);
    }
  }

  lemma FittingVerdict(h: Hash, doc: Json, canonical: Digest)
    requires FieldsFit(doc)
    ensures var r := DocumentReceipt(h, doc, canonical);
            && (r.Ok? <==> ShapeFits(NameOf(doc), NumbersOf(doc))) && (r.Ok? ==> SaysDocument(h, doc, canonical, r.value))
            && (r.Err? ==> FailsShape(NameOf(doc), NumbersOf(doc), r.error))
  {
    hide DocumentReceipt, NarrativeScores, OptionalNumber, ListsFields, AllInRange, TextAt, NumberAt, ShapeFits, FailsShape, ShapeError, KindNamed;
    FittingDocument(h, doc, canonical);
    NarrativeScoresVerdict(h, doc);
    KindsNamed(NameOf(doc));
    NoFields(ScoreFields(doc).value);
    ShapeVerdict(NameOf(doc), KindFor(NameOf(doc)), NumbersOf(doc), NarrativeScores(h, doc).value);
    hide ScoreFields, KindFor, FieldsFit, HeadFits;
  }

  lemma NoFields(fields: map<string, Json>)
    ensures |fields| == 0 <==> fields == map[]
  {
  }

  // ----- one document, one receipt

  /** What the backend's `BranchOutput` model enforces on the fields the encoders read. */
  predicate Validated(o: BranchOutput) {
    && o.branchIndex >= 0
    && (o.scalar.Some? ==> Bps(o.scalar.value))
    && (o.lower.Some? ==> Bps(o.lower.value))
    && (o.upper.Some? ==> Bps(o.upper.value))
    && (o.category.Some? ==> 0 <= o.category.value < 256)
    && (o.kind.Scalar? ==> o.scalar.Some?)
    && (o.kind.Categorical? ==> o.category.Some?)
    && (o.kind.NarrativeWithScalar? ==> o.scores.Some? && o.scores.value != map[])
    && (o.lower.Some? && o.upper.Some? ==> o.lower.value <= o.upper.value)
    && (o.scores.Some? ==> forall k :: k in o.scores.value ==> Bps(o.scores.value[k]))
  }

  function OptionalInt(o: Option<int>): Json {
    if o.Some? then Int(o.value) else Null
  }

  function ScoreObject(o: Option<map<string, int>>): Json {
    if o.Some? then Obj(map k | k in o.value :: Int(o.value[k])) else Null
  }

  /** `doc` is the JSON dump of `o`, whatever further fields it has. */
  predicate Dumps(doc: Json, o: BranchOutput) {
    && doc.Get("output_kind") == Some(Str(KindName(o.kind)))
    && doc.Get("branch_index") == Some(Int(o.branchIndex))
    && doc.Get("scalar_value_bps") == Some(OptionalInt(o.scalar))
    && doc.Get("scalar_confidence_lower_bps") == Some(OptionalInt(o.lower))
    && doc.Get("scalar_confidence_upper_bps") == Some(OptionalInt(o.upper))
    && doc.Get("categorical_label_index") == Some(OptionalInt(o.category))
    && doc.Get("narrative_scores") == Some(ScoreObject(o.scores))
  }

  lemma {:induction false} ScoreListsAgree(h: Hash, fields: map<string, Json>, scores: map<string, int>, keys: seq<string>)
    requires forall k :: k in keys ==> k in scores && k in fields && fields[k] == Int(scores[k]) && Bps(scores[k])
    ensures CheckScores(h, scores, keys).Ok?
    ensures GuestScores(h, fields, keys) == Ok(CheckScores(h, scores, keys).value)
  {
    if keys != [] {
      ScoreListsAgree(h, fields, scores, keys[1..]);
    }
  }

  lemma KindNamesRoundTrip(kind: OutputKind)
    ensures KindNamed(KindName(kind)) == Some(kind)
  {
    assert "categorical"[0] != "scalar"[0];
    assert "narrative_with_scalar"[0] != "scalar"[0] && "narrative_with_scalar"[0] != "categorical"[0];
  }

  lemma ScoreMapsAgree(h: Hash, scores: map<string, int>, fields: map<string, Json>)
    requires fields.Keys == scores.Keys && forall k :: k in scores ==> fields[k] == Int(scores[k]) && Bps(scores[k])
    ensures CheckScores(h, scores, SortedKeys(scores)).Ok?
    ensures |CheckScores(h, scores, SortedKeys(scores)).value| == |scores|
    ensures ByteOrderedKeys(fields) == SortedKeys(scores)
    ensures GuestScores(h, fields, ByteOrderedKeys(fields)) == Ok(CheckScores(h, scores, SortedKeys(scores)).value)
  {
    KeyOrdersAgree(fields);
    var keys := SortedKeys(scores);
    assert keys == ByteOrderedKeys(fields);
    ScoreListsAgree(h, fields, scores, keys);
    CheckScoresOk(h, scores, keys);
  }

  lemma CheckedScoreMap(h: Hash, scores: map<string, int>)
    requires CheckScores(h, scores, SortedKeys(scores)).Ok? && |CheckScores(h, scores, SortedKeys(scores)).value| == |scores|
    ensures CheckScoreMap(h, scores)
         == if |scores| > MAX_SCORES then Err(TooManyScores)
            else if CheckScores(h, scores, SortedKeys(scores)).value == [] then Ok(None)
            else Ok(Some(CheckScores(h, scores, SortedKeys(scores)).value))
  {
    hide CheckScores, SortedKeys;
    assert |scores| == 0 <==> scores == map[];
  }

  lemma NarrativeScoresAgree(h: Hash, doc: Json, o: BranchOutput)
    requires Validated(o) && Dumps(doc, o)
    ensures NarrativeScores(h, doc).Ok?
    ensures |NarrativeScores(h, doc).value| == |ScoresOrEmpty(o)|
    ensures CheckScoreMap(h, ScoresOrEmpty(o))
         == if |ScoresOrEmpty(o)| > MAX_SCORES then Err(TooManyScores)
            else if NarrativeScores(h, doc).value == [] then Ok(None)
            else Ok(Some(NarrativeScores(h, doc).value))
  {
    if o.scores.Some? {
      var fields := ScoresOfDump(doc, o);
      hide Validated, Dumps, CheckScores, GuestScores, SortedKeys, ByteOrderedKeys, CheckScoreMap, NarrativeScores;
      ScoreMapsAgree(h, o.scores.value, fields);
      CheckedScoreMap(h, o.scores.value);
      NarrativeScoresOfFields(h, doc, fields);
    } else {
      hide Validated;
      assert doc.Get("narrative_scores") == Some(Null);
    }
  }

  lemma ScoresOfDump(doc: Json, o: BranchOutput) returns (fields: map<string, Json>)
    requires Validated(o) && Dumps(doc, o) && o.scores.Some?
    ensures doc.Get("narrative_scores") == Some(Obj(fields)) && fields.Keys == o.scores.value.Keys
    ensures forall k :: k in o.scores.value ==> fields[k] == Int(o.scores.value[k]) && Bps(o.scores.value[k])
  {
    fields := map k | k in o.scores.value :: Int(o.scores.value[k]);
  }

  lemma NarrativeScoresOfFields(h: Hash, doc: Json, fields: map<string, Json>)
    requires doc.Get("narrative_scores") == Some(Obj(fields))
    ensures ByteOrderedKeys(fields) == SortedKeys(fields)
    ensures NarrativeScores(h, doc) == GuestScores(h, fields, ByteOrderedKeys(fields))
  {
    KeyOrdersAgree(fields);
    hide GuestScores, ByteOrderedKeys, SortedKeys;
  }

  /** For every validated output and its document, the guest and the backend accept together, and then
      they encode the same receipt: the order of the score keys is the same on both sides. */
  lemma EncodersAgree(h: Hash, o: BranchOutput, doc: Json, canonical: Digest)
    requires Validated(o) && Dumps(doc, o)
    ensures DocumentReceipt(h, doc, canonical).Ok? <==> OutputReceipt(h, o, canonical).Ok?
    ensures OutputReceipt(h, o, canonical).Ok? <==> o.branchIndex < U32_LIMIT && |ScoresOrEmpty(o)| <= MAX_SCORES
    ensures OutputReceipt(h, o, canonical).Ok? ==>
              DocumentReceipt(h, doc, canonical).value == OutputReceipt(h, o, canonical).value
  {
    var scalar, lower, upper, category := AsNat(o.scalar), AsNat(o.lower), AsNat(o.upper), AsNat(o.category);
    var scores := NarrativeScores(h, doc);
    NarrativeScoresAgree(h, doc, o);
    OutputReceiptFrom(h, o, canonical, scalar, lower, upper, category, scores.value);
    KindNamesRoundTrip(o.kind);
    assert ShapeError(o.kind, scalar, lower, upper, category, scores.value)
        == if |scores.value| > MAX_SCORES then Some(GuestEncodeError.TooManyNarrativeScores(|scores.value|)) else None;
    DocumentReceiptFrom(h, doc, canonical, o, scalar, lower, upper, category, scores.value);
    hide OutputReceipt, DocumentReceipt, CheckScoreMap, NarrativeScores, ScoresOrEmpty, Validated, Dumps;
  }

  function AsNat(o: Option<int>): Option<nat>
    requires o.Some? ==> o.value >= 0
  {
    if o.Some? then Some(o.value) else None
  }

  lemma OutputReceiptFrom(h: Hash, o: BranchOutput, canonical: Digest, scalar: Option<nat>, lower: Option<nat>,
                          upper: Option<nat>, category: Option<nat>, scores: seq<Score>)
    requires Validated(o)
    requires scalar == AsNat(o.scalar) && lower == AsNat(o.lower) && upper == AsNat(o.upper) && category == AsNat(o.category)
    requires CheckScoreMap(h, ScoresOrEmpty(o))
          == if |scores| > MAX_SCORES then Err(TooManyScores) else if scores == [] then Ok(None) else Ok(Some(scores))
    ensures OutputReceipt(h, o, canonical)
         == if o.branchIndex >= U32_LIMIT then Err(IndexDoesNotFit)
            else if |scores| > MAX_SCORES then Err(TooManyScores)
            else Ok(Receipt(o.kind, o.branchIndex, scalar, lower, upper, category, if scores == [] then None else Some(scores), canonical))
  {
    assert CheckBps(o.scalar, "scalar_value_bps") == Ok(scalar);
    assert CheckBps(o.lower, "scalar_confidence_lower_bps") == Ok(lower);
    assert CheckBps(o.upper, "scalar_confidence_upper_bps") == Ok(upper);
    assert CheckCategory(o.category) == Ok(category);
    hide CheckBps, CheckCategory, CheckScoreMap, ScoresOrEmpty;
  }

  lemma DocumentReceiptFrom(h: Hash, doc: Json, canonical: Digest, o: BranchOutput, scalar: Option<nat>, lower: Option<nat>,
                            upper: Option<nat>, category: Option<nat>, scores: seq<Score>)
    requires Validated(o) && Dumps(doc, o)
    requires scalar == AsNat(o.scalar) && lower == AsNat(o.lower) && upper == AsNat(o.upper) && category == AsNat(o.category)
    requires NarrativeScores(h, doc) == Ok(scores)
    requires ShapeError(o.kind, scalar, lower, upper, category, scores).Some? <==> |scores| > MAX_SCORES
    ensures DocumentReceipt(h, doc, canonical).Ok? <==> o.branchIndex < U32_LIMIT && |scores| <= MAX_SCORES
    ensures DocumentReceipt(h, doc, canonical).Ok? ==>
              DocumentReceipt(h, doc, canonical).value
              == Receipt(o.kind, o.branchIndex, scalar, lower, upper, category, if scores == [] then None else Some(scores), canonical)
  {
    KindNamesRoundTrip(o.kind);
    DumpFields(doc, o);
    hide StringField, U64Field, OptionalBpsField, OptionalLabel, NarrativeScores, KindNamed, KindName, ShapeError, Dumps, Validated;
  }

  lemma OptionalBpsOfDump(doc: Json, field: string, o: Option<int>)
    requires doc.Get(field) == Some(OptionalInt(o)) && (o.Some? ==> Bps(o.value))
    ensures OptionalBpsField(doc, field) == Ok(AsNat(o))
  {
  }

  lemma DumpFields(doc: Json, o: BranchOutput)
    requires Validated(o) && Dumps(doc, o)
    ensures StringField(doc, "output_kind") == Ok(KindName(o.kind))
    ensures o.branchIndex < U64_LIMIT ==> U64Field(doc, "branch_index") == Ok(o.branchIndex)
    ensures o.branchIndex >= U64_LIMIT ==> U64Field(doc, "branch_index").Err?
    ensures OptionalBpsField(doc, "scalar_value_bps") == Ok(AsNat(o.scalar))
    ensures OptionalBpsField(doc, "scalar_confidence_lower_bps") == Ok(AsNat(o.lower))
    ensures OptionalBpsField(doc, "scalar_confidence_upper_bps") == Ok(AsNat(o.upper))
    ensures OptionalLabel(doc) == Ok(AsNat(o.category))
  {
    OptionalBpsOfDump(doc, "scalar_value_bps", o.scalar);
    OptionalBpsOfDump(doc, "scalar_confidence_lower_bps", o.lower);
    OptionalBpsOfDump(doc, "scalar_confidence_upper_bps", o.upper);
    hide KindName, OptionalBpsField;
  }

  /** Every string an encoder produces is read back by the strict parser with the same fields, and is
      at most 243 bytes long. */
  lemma EncodedOutputParses(h: Hash, o: BranchOutput, canonical: Digest)
    requires OutputReceipt(h, o, canonical).Ok?
    ensures var w := OutputReceipt(h, o, canonical).value;
            && |Encode(w)| <= 243
            && Mfb2Parsers.StrictParse(h, Encode(w))
               == Ok(BranchResult(o.branchIndex, o.kind, w.scalar, w.category, canonical, h(Encode(w))))
            && (w.scalar.Some? <==> o.scalar.Some?) && (o.scalar.Some? ==> w.scalar.value == o.scalar.value)
            && (w.category.Some? <==> o.category.Some?) && (o.category.Some? ==> w.category.value == o.category.value)
  {
    var w := OutputReceipt(h, o, canonical).value;
    OutputReceiptWellFormed(h, o, canonical);
    EncodingLength(w);
    ParseOfEncode(w);
    hide CheckScoreMap, Encode, Parse, WellFormed, ScoresOrEmpty;
  }

  // ----- the guest's encoder as it runs

  method ReadNarrativeScores(h: Hash, doc: Json) returns (r: Checked<seq<Score>>)
    ensures r == NarrativeScores(h, doc)
  {
    var raw := doc.Get("narrative_scores");
    if raw.None? || raw.value.Null? {
      return Ok([]);
    }
    if !raw.value.Obj? {
      return Err(WrongType("narrative_scores"));
    }
    var fields := raw.value.fields;
    var keys := ListKeys(fields);
    KeyOrdersAgree(fields);
    var scores: seq<Score> := [];
    ContinueNothing(GuestScores(h, fields, keys));
    assert keys[0..] == keys;
    var i := 0;
    while i < |keys|
      invariant 0 <= i <= |keys|
      invariant GuestScores(h, fields, keys) == Continue(scores, GuestScores(h, fields, keys[i..]))
    {
      var key := keys[i];
      assert keys[i..][1..] == keys[i + 1..];
      var v := AsU64(fields[key]);
      if v.None? {
        return Err(WrongType("narrative_scores"));
      }
      if v.value > BPS_MAX {
        return Err(OutOfRange("narrative_scores"));
      }
      ghost var tail := GuestScores(h, fields, keys[i + 1..]);
      assert GuestScores(h, fields, keys[i..]) == Continue([ScoreOf(h, key, v.value)], tail);
      ContinueOne(scores, ScoreOf(h, key, v.value), tail);
      scores := scores + [ScoreOf(h, key, v.value)];
      i := i + 1;
    }
    assert scores + [] == scores;
    r := Ok(scores);
  }

  lemma ScoreListStep(scores: seq<Score>, i: nat)
    requires i < |scores|
    ensures ScoreListBytes(scores[..i + 1]) == ScoreListBytes(scores[..i]) + (scores[i].keyHash + LittleEndian(scores[i].bps, 2))
  {
    assert scores[..i + 1] == scores[..i] + [scores[i]];
    ScoreListAppend(scores[..i], scores[i]);
  }

  /** Pushes the header and the fields of a receipt, in the order of the layout. */
  method PushReceipt(kind: OutputKind, index: nat, scalar: Option<nat>, lower: Option<nat>, upper: Option<nat>,
                     category: Option<nat>, scores: seq<Score>, canonical: Digest)
    returns (out: Bytes)
    requires |scores| <= MAX_SCORES && (category.Some? ==> category.value < 256)
    ensures out == Encode(Receipt(kind, index, scalar, lower, upper, category, if scores == [] then None else Some(scores), canonical))
  {
    ghost var w := Receipt(kind, index, scalar, lower, upper, category, if scores == [] then None else Some(scores), canonical);
    var flags := 0;
    if scalar.Some? { flags := flags + 1; }
    if lower.Some? { flags := flags + 2; }
    if upper.Some? { flags := flags + 4; }
    if category.Some? { flags := flags + 8; }
    if scores != [] { flags := flags + 16; }
    assert flags == Flags(w);
    out := Magic() + [2, KindId(kind)] + LittleEndian(index, 4) + [flags];
    assert out == HeaderBytes(w);
    out := out + BpsBytes(scalar) + BpsBytes(lower) + BpsBytes(upper);
    out := out + CategoryBytes(category);
    EncodeRegrouped(w);
    hide HeaderBytes, BpsBytes, CategoryBytes, Encode, Flags;
    var section := PushScoreSection(scores);
    out := out + section + canonical;
  }

  method PushScoreSection(scores: seq<Score>) returns (out: Bytes)
    requires |scores| <= MAX_SCORES
    ensures out == ScoresBytes(if scores == [] then None else Some(scores))
  {
    out := [];
    if scores != [] {
      var i := 0;
      while i < |scores|
        invariant 0 <= i <= |scores|
        invariant out == ScoreListBytes(scores[..i])
      {
        ScoreListStep(scores, i);
        out := out + (scores[i].keyHash + LittleEndian(scores[i].bps, 2));
        i := i + 1;
      }
      assert scores[..i] == scores;
      out := [|scores| % 256] + out;
    }
  }

  /** `encode_branch_result_bytes`: the fields are read and checked, then the bytes are pushed. */
  method EncodeBranchResultBytes(h: Hash, doc: Json, canonical: Digest) returns (r: Checked<Bytes>)
    ensures r == Encoded(DocumentReceipt(h, doc, canonical))
  {
    hide StringField, KindNamed, U64Field, OptionalBpsField, OptionalLabel, NarrativeScores, ShapeError, Encode;
    var name := StringField(doc, "output_kind");
    if name.Err? { return Err(name.error); }
    var kind := KindNamed(name.value);
    if kind.None? { return Err(UnknownKindName(name.value)); }
    var index := U64Field(doc, "branch_index");
    if index.Err? { return Err(index.error); }
    if index.value >= U32_LIMIT { return Err(OutOfRange("branch_index")); }
    var scalar := OptionalBpsField(doc, "scalar_value_bps");
    if scalar.Err? { return Err(scalar.error); }
    var lower := OptionalBpsField(doc, "scalar_confidence_lower_bps");
    if lower.Err? { return Err(lower.error); }
    var upper := OptionalBpsField(doc, "scalar_confidence_upper_bps");
    if upper.Err? { return Err(upper.error); }
    var category := OptionalLabel(doc);
    if category.Err? { return Err(category.error); }
    var scores := ReadNarrativeScores(h, doc);
    if scores.Err? { return Err(scores.error); }
    BpsFieldOk(doc, "scalar_value_bps");
    BpsFieldOk(doc, "scalar_confidence_lower_bps");
    BpsFieldOk(doc, "scalar_confidence_upper_bps");
    LabelFieldOk(doc);
    NarrativeScoresOk(h, doc);
    r := EncodeChecked(kind.value, index.value, scalar.value, lower.value, upper.value, category.value, scores.value, canonical);
  }

  lemma BpsFieldOk(doc: Json, field: string)
    ensures OptionalBpsField(doc, field).Ok? ==> BpsOk(OptionalBpsField(doc, field).value)
  {
    hide OptionalU64;
  }

  lemma LabelFieldOk(doc: Json)
    ensures OptionalLabel(doc).Ok? && OptionalLabel(doc).value.Some? ==> OptionalLabel(doc).value.value < 256
  {
    hide OptionalU64;
  }

  method EncodeChecked(kind: OutputKind, index: nat, scalar: Option<nat>, lower: Option<nat>, upper: Option<nat>,
                       category: Option<nat>, scores: seq<Score>, canonical: Digest)
    returns (r: Checked<Bytes>)
    requires index < U32_LIMIT && BpsOk(scalar) && BpsOk(lower) && BpsOk(upper)
    requires category.Some? ==> category.value < 256
    requires forall i :: 0 <= i < |scores| ==> ScoreOk(scores[i])
    ensures var shape := ShapeError(kind, scalar, lower, upper, category, scores);
            r == if shape.Some? then Err(shape.value)
                 else Ok(Encode(Receipt(kind, index, scalar, lower, upper, category, if scores == [] then None else Some(scores), canonical)))
  {
    var shape := ShapeError(kind, scalar, lower, upper, category, scores);
    if shape.Some? {
      return Err(shape.value);
    }
    assert |scores| <= MAX_SCORES;
    hide ShapeError, Encode;
    var out := PushReceipt(kind, index, scalar, lower, upper, category, scores, canonical);
    EncodingLength(Receipt(kind, index, scalar, lower, upper, category, if scores == [] then None else Some(scores), canonical));
    if |out| > MAX_RESULT_BYTES {
      return Err(GuestResultTooLong(|out|));
    }
    r := Ok(out);
  }

  /** The guest's self-check, parsing back what it just encoded, cannot fail. */
  lemma SelfCheckPasses(h: Hash, doc: Json, canonical: Digest)
    requires DocumentReceipt(h, doc, canonical).Ok?
    ensures Parse(Encode(DocumentReceipt(h, doc, canonical).value)) == Ok(DocumentReceipt(h, doc, canonical).value)
  {
    DocumentReceiptWellFormed(h, doc, canonical);
    ParseOfEncode(DocumentReceipt(h, doc, canonical).value);
  }
}
