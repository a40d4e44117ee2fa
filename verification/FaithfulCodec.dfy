/** Some codec round-trips every JSON value, so the results that suppose one are about something.  The code
    words are prefix-free: lengths and numbers are written in unary. */
module FaithfulCodec {
  import opened Results
  import opened ByteStrings
  import opened Json
  import opened Agreement
  import BranchEncoders

  function Unary(n: nat): Bytes {
    if n == 0 then [0] else [1] + Unary(n - 1)
  }

  lemma {:induction false} UnarySplits(m: nat, n: nat, x: Bytes, y: Bytes)
    requires Unary(m) + x == Unary(n) + y
    ensures m == n && x == y
  {
    assert (Unary(m) + x)[0] == Unary(m)[0] && (Unary(n) + y)[0] == Unary(n)[0];
    if m == 0 {
      assert x == (Unary(m) + x)[1..] && y == (Unary(n) + y)[1..];
    } else {
      assert Unary(m - 1) + x == (Unary(m) + x)[1..] && Unary(n - 1) + y == (Unary(n) + y)[1..];
      UnarySplits(m - 1, n - 1, x, y);
    }
  }

  function Chars(s: string): Bytes {
    if s == [] then [] else Unary(s[0] as int) + Chars(s[1..])
  }

  lemma {:induction false} CharsSplit(s: string, t: string, x: Bytes, y: Bytes)
    requires |s| == |t| && Chars(s) + x == Chars(t) + y
    ensures s == t && x == y
  {
    if s != [] {
      assert Chars(s) + x == Unary(s[0] as int) + (Chars(s[1..]) + x);
      assert Chars(t) + y == Unary(t[0] as int) + (Chars(t[1..]) + y);
      UnarySplits(s[0] as int, t[0] as int, Chars(s[1..]) + x, Chars(t[1..]) + y);
      CharsSplit(s[1..], t[1..], x, y);
      assert s == [s[0]] + s[1..] && t == [t[0]] + t[1..];
    } else {
      assert Chars(s) + x == x && Chars(t) + y == y;
    }
  }

  function Text(s: string): Bytes {
    Unary(|s|) + Chars(s)
  }

  lemma TextSplits(s: string, t: string, x: Bytes, y: Bytes)
    requires Text(s) + x == Text(t) + y
    ensures s == t && x == y
  {
    assert Text(s) + x == Unary(|s|) + (Chars(s) + x) && Text(t) + y == Unary(|t|) + (Chars(t) + y);
    UnarySplits(|s|, |t|, Chars(s) + x, Chars(t) + y);
    CharsSplit(s, t, x, y);
  }

  function Tag(v: Json): byte {
    match v
    case Null => 0
    case Bool(_) => 1
    case Int(n) => if n >= 0 then 2 else 3
    case Fraction => 4
    case Str(_) => 5
    case Arr(_) => 6
    case Obj(_) => 7
  }

  ghost function Encode(v: Json): Bytes
    decreases v, 1
  {
    [Tag(v)] + Body(v)
  }

  ghost function Body(v: Json): Bytes
    decreases v, 0
  {
    match v
    case Null => []
    case Bool(b) => Unary(if b then 1 else 0)
    case Int(n) => Unary(if n >= 0 then n else -n)
    case Fraction => []
    case Str(s) => Text(s)
    case Arr(items) => Unary(|items|) + Items(items)
    case Obj(fields) =>
      var keys := BranchEncoders.SortedKeys(fields);
      Unary(|keys|) + Entries(v, keys)
  }

  ghost function Items(items: seq<Json>): Bytes
    decreases items, 2
  {
    if items == [] then [] else Encode(items[0]) + Items(items[1..])
  }

  ghost function Entries(v: Json, keys: seq<string>): Bytes
    requires v.Obj? && forall k :: k in keys ==> k in v.fields
    decreases v, 0, |keys|
  {
    if keys == [] then [] else Text(keys[0]) + (Encode(v.fields[keys[0]]) + Entries(v, keys[1..]))
  }

  /** No code word is a proper prefix of another, and none stands for two values. */
  lemma {:induction false} EncodeSplits(v: Json, w: Json, x: Bytes, y: Bytes)
    requires Encode(v) + x == Encode(w) + y
    ensures v == w && x == y
    decreases v, 1
  {
    hide Body;
    var p, q := Body(v), Body(w);
    assert (Encode(v) + x)[0] == Tag(v) && (Encode(w) + y)[0] == Tag(w);
    assert p + x == (Encode(v) + x)[1..] && q + y == (Encode(w) + y)[1..];
    BodySplits(v, w, x, y);
  }

  lemma {:induction false} BodySplits(v: Json, w: Json, x: Bytes, y: Bytes)
    requires Tag(v) == Tag(w) && Body(v) + x == Body(w) + y
    ensures v == w && x == y
    decreases v, 0
  {
    hide Encode, Items, Entries, Text, Unary;
    match v
    case Null => assert [] + x == x && [] + y == y;
    case Fraction => assert [] + x == x && [] + y == y;
    case Bool(b) => UnarySplits(if b then 1 else 0, if w.b then 1 else 0, x, y);
    case Int(n) => UnarySplits(if n >= 0 then n else -n, if w.n >= 0 then w.n else -w.n, x, y);
    case Str(s) => TextSplits(s, w.s, x, y);
    case Arr(items) => ItemsAfterCount(items, w.items, x, y);
    case Obj(fields) => FieldsSplit(v, w, x, y);
  }

  lemma Regroup(p: Bytes, q: Bytes, x: Bytes)
    ensures (p + q) + x == p + (q + x)
  {
  }

  lemma {:induction false} ItemsAfterCount(a: seq<Json>, b: seq<Json>, x: Bytes, y: Bytes)
    requires (Unary(|a|) + Items(a)) + x == (Unary(|b|) + Items(b)) + y
    ensures a == b && x == y
    decreases a, 3
  {
    hide Items, Unary, Encode;
    Regroup(Unary(|a|), Items(a), x);
    Regroup(Unary(|b|), Items(b), y);
    UnarySplits(|a|, |b|, Items(a) + x, Items(b) + y);
    ItemsSplit(a, b, x, y);
  }

  lemma {:induction false} FieldsSplit(v: Json, w: Json, x: Bytes, y: Bytes)
    requires v.Obj? && w.Obj? && Body(v) + x == Body(w) + y
    ensures v == w && x == y
    decreases v, 0, 0, 1
  {
    var keys, keys' := BranchEncoders.SortedKeys(v.fields), BranchEncoders.SortedKeys(w.fields);
    var p, q := Entries(v, keys), Entries(w, keys');
    assert Body(v) == Unary(|keys|) + p && Body(w) == Unary(|keys'|) + q;
    hide Body, Entries, Unary, Encode;
    Regroup(Unary(|keys|), p, x);
    Regroup(Unary(|keys'|), q, y);
    UnarySplits(|keys|, |keys'|, p + x, q + y);
    EntriesSplit(v, w, keys, keys', x, y);
    SameFields(v.fields, w.fields, keys);
  }

  lemma SameFields(a: map<string, Json>, b: map<string, Json>, keys: seq<string>)
    requires forall k :: k in keys <==> k in a
    requires forall k :: k in keys <==> k in b
    requires forall k :: k in keys ==> a[k] == b[k]
    ensures a == b
  {
    forall k ensures k in a <==> k in b {
      assert k in a <==> k in keys;
    }
  }

  lemma ItemsFirst(a: seq<Json>, x: Bytes)
    requires a != []
    ensures Items(a) + x == Encode(a[0]) + (Items(a[1..]) + x)
  {
    hide Encode;
    Regroup(Encode(a[0]), Items(a[1..]), x);
  }

  lemma {:induction false} ItemsSplit(a: seq<Json>, b: seq<Json>, x: Bytes, y: Bytes)
    requires |a| == |b| && Items(a) + x == Items(b) + y
    ensures a == b && x == y
    decreases a, 2
  {
    if a != [] {
      hide Encode, Items;
      ItemsFirst(a, x);
      ItemsFirst(b, y);
      EncodeSplits(a[0], b[0], Items(a[1..]) + x, Items(b[1..]) + y);
      ItemsSplit(a[1..], b[1..], x, y);
      assert a == [a[0]] + a[1..] && b == [b[0]] + b[1..];
    } else {
      assert Items(a) + x == x && Items(b) + y == y;
    }
  }

  lemma EntriesFirst(v: Json, keys: seq<string>, x: Bytes)
    requires v.Obj? && keys != [] && forall k :: k in keys ==> k in v.fields
    ensures Entries(v, keys) + x == Text(keys[0]) + (Encode(v.fields[keys[0]]) + (Entries(v, keys[1..]) + x))
  {
    hide Encode, Text;
    var t, e, rest := Text(keys[0]), Encode(v.fields[keys[0]]), Entries(v, keys[1..]);
    Regroup(t, e + rest, x);
    Regroup(e, rest, x);
  }

  lemma {:induction false} EntriesSplit(v: Json, w: Json, keys: seq<string>, keys': seq<string>, x: Bytes, y: Bytes)
    requires v.Obj? && forall k :: k in keys ==> k in v.fields
    requires w.Obj? && forall k :: k in keys' ==> k in w.fields
    requires |keys| == |keys'| && Entries(v, keys) + x == Entries(w, keys') + y
    ensures keys == keys' && x == y && forall k :: k in keys ==> v.fields[k] == w.fields[k]
    decreases v, 0, 0, 0, |keys|
  {
    if keys != [] {
      hide Encode, Text, Entries;
      EntriesFirst(v, keys, x);
      EntriesFirst(w, keys', y);
      var rest, rest' := Entries(v, keys[1..]) + x, Entries(w, keys'[1..]) + y;
      FirstEntrySplits(v, w, keys[0], keys'[0], rest, rest');
      EntriesSplit(v, w, keys[1..], keys'[1..], x, y);
      assert keys == [keys[0]] + keys[1..] && keys' == [keys'[0]] + keys'[1..];
    } else {
      assert Entries(v, keys) + x == x && Entries(w, keys') + y == y;
    }
  }

  lemma {:induction false} FirstEntrySplits(v: Json, w: Json, k: string, k': string, x: Bytes, y: Bytes)
    requires v.Obj? && k in v.fields && w.Obj? && k' in w.fields
    requires Text(k) + (Encode(v.fields[k]) + x) == Text(k') + (Encode(w.fields[k']) + y)
    ensures k == k' && v.fields[k] == w.fields[k'] && x == y
    decreases v, 0, 0, 0, 0
  {
    hide Encode, Text;
    TextSplits(k, k', Encode(v.fields[k]) + x, Encode(w.fields[k']) + y);
    EncodeSplits(v.fields[k], w.fields[k'], x, y);
  }

  ghost function Decode(b: Bytes): Option<Json> {
    if exists v :: Encode(v) == b then var v :| Encode(v) == b; Some(v) else None
  }

  /** A faithful codec exists. */
  lemma FaithfulCodecExists() returns (codec: Codec)
    ensures codec.Faithful()
  {
    codec := Codec(v => Encode(v), b => Decode(b));
    forall v: Json ensures codec.dec(codec.enc(v)) == Some(v) {
      assert Encode(v) == Encode(v);
      var w := Decode(Encode(v)).value;
      assert Encode(w) + [] == Encode(v) + [];
      hide Encode;
      EncodeSplits(w, v, [], []);
    }
  }
}
