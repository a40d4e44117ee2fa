/** The brace scanner that salvages a JSON object from text a model wrote around it. */
module JsonScanner {
  import opened Results

  const QUOTE := '\"'
  const BACKSLASH := '\\'
  const OPEN := '{'
  const CLOSE := '}'

  /** A span of the text, as `text[from..stop]`. */
  datatype Span = Span(from: nat, stop: nat)

  /** Where a position lies with respect to string literals. */
  datatype Lex = Outside | Inside | Escape

  datatype Scan = Scan(lex: Lex, depth: nat, start: Option<nat>, spans: seq<Span>)

  const INITIAL := Scan(Outside, 0, None, [])

  // ----- one character

  function NextLex(lex: Lex, c: char): Lex {
    match lex
    case Escape => Inside
    case Inside => if c == BACKSLASH then Escape else if c == QUOTE then Outside else Inside
    case Outside => if c == QUOTE then Inside else Outside
  }

  function Step(st: Scan, i: nat, c: char): Scan {
    var moved := st.(lex := NextLex(st.lex, c));
    if st.lex != Outside then moved
    else if c == OPEN then moved.(depth := st.depth + 1, start := if st.depth == 0 then Some(i) else st.start)
    else if c == CLOSE && st.depth > 0 then
      if st.depth == 1 && st.start.Some? then Scan(moved.lex, 0, None, st.spans + [Span(st.start.value, i + 1)])
      else moved.(depth := st.depth - 1)
    else moved
  }

  /** The scan of `s`, which starts at position `base` of the text. */
  function Scanned(st: Scan, base: nat, s: string): Scan {
    if s == [] then st else Step(Scanned(st, base, s[..|s| - 1]), base + |s| - 1, s[|s| - 1])
  }

  function At(text: string, i: nat): Scan
    requires i <= |text|
  {
    Scanned(INITIAL, 0, text[..i])
  }

  function Spans(text: string): seq<Span> {
    At(text, |text|).spans
  }

  lemma AtStep(text: string, i: nat)
    requires i < |text|
    ensures At(text, i + 1) == Step(At(text, i), i, text[i])
  {
    assert text[..i + 1][..i] == text[..i];
  }

  lemma {:induction false} ScannedConcat(st: Scan, base: nat, s: string, t: string)
    ensures Scanned(st, base, s + t) == Scanned(Scanned(st, base, s), base + |s|, t)
    decreases |t|
  {
    if t == [] {
      assert s + t == s;
    } else {
      ScannedConcat(st, base, s, t[..|t| - 1]);
      assert (s + t)[..|s + t| - 1] == s + t[..|t| - 1];
    }
  }

  lemma ScannedOne(st: Scan, base: nat, c: char)
    ensures Scanned(st, base, [c]) == Step(st, base, c)
  {
    assert [c][..0] == [];
    assert Scanned(st, base, []) == st;
  }

  // ----- objects: the lexical rules of strings and braces

  datatype StringChar = Ordinary(c: char) | Escaped(c: char)

  /** What stands between the braces of a JSON object text (section 7 of RFC 8259 for its strings): string
      literals, objects, and any other characters, among them numbers, names, commas, brackets, space. */
  datatype Item = Plain(c: char) | Literal(chars: seq<StringChar>) | Nested(items: seq<Item>)

  predicate WellFormed(items: seq<Item>) {
    forall i :: 0 <= i < |items| ==>
      match items[i]
      case Plain(c) => c !in [QUOTE, OPEN, CLOSE]
      case Literal(chars) => forall k :: 0 <= k < |chars| ==> chars[k].Ordinary? ==> chars[k].c !in [QUOTE, BACKSLASH]
      case Nested(inner) => WellFormed(inner)
  }

  function RenderChars(chars: seq<StringChar>): string {
    if chars == [] then []
    else RenderChars(chars[..|chars| - 1]) + match chars[|chars| - 1] case Ordinary(c) => [c] case Escaped(c) => [BACKSLASH, c]
  }

  function RenderItem(item: Item): string
    decreases item, 1
  {
    match item
    case Plain(c) => [c]
    case Literal(chars) => [QUOTE] + RenderChars(chars) + [QUOTE]
    case Nested(items) => [OPEN] + Render(items) + [CLOSE]
  }

  function Render(items: seq<Item>): string
    decreases items, 0
  {
    if items == [] then [] else RenderItem(items[0]) + Render(items[1..])
  }

  function ObjectText(items: seq<Item>): string {
    [OPEN] + Render(items) + [CLOSE]
  }

  lemma {:induction false} CharsStayInside(st: Scan, base: nat, chars: seq<StringChar>)
    requires st.lex == Inside
    requires forall k :: 0 <= k < |chars| ==> chars[k].Ordinary? ==> chars[k].c !in [QUOTE, BACKSLASH]
    ensures Scanned(st, base, RenderChars(chars)) == st
  {
    if chars != [] {
      var before, last := RenderChars(chars[..|chars| - 1]), chars[|chars| - 1];
      CharsStayInside(st, base, chars[..|chars| - 1]);
      match last
      case Ordinary(c) =>
        ScannedConcat(st, base, before, [c]);
        ScannedOne(st, base + |before|, c);
      case Escaped(c) =>
        ScannedConcat(st, base, before, [BACKSLASH, c]);
        ScannedConcat(st, base + |before|, [BACKSLASH], [c]);
        assert [BACKSLASH] + [c] == [BACKSLASH, c];
        ScannedOne(st, base + |before|, BACKSLASH);
        ScannedOne(Scanned(st, base + |before|, [BACKSLASH]), base + |before| + 1, c);
    }
  }

  lemma LiteralKeepsState(st: Scan, base: nat, chars: seq<StringChar>)
    requires st.lex == Outside
    requires forall k :: 0 <= k < |chars| ==> chars[k].Ordinary? ==> chars[k].c !in [QUOTE, BACKSLASH]
    ensures Scanned(st, base, RenderItem(Literal(chars))) == st
  {
    var inside := st.(lex := Inside);
    ScannedConcat(st, base, [QUOTE] + RenderChars(chars), [QUOTE]);
    ScannedConcat(st, base, [QUOTE], RenderChars(chars));
    ScannedOne(st, base, QUOTE);
    CharsStayInside(inside, base + 1, chars);
    ScannedOne(inside, base + 1 + |RenderChars(chars)|, QUOTE);
  }

  /** What stands between braces leaves the scan of an open object as it found it. */
  lemma {:induction false} ItemsKeepState(st: Scan, base: nat, items: seq<Item>)
    requires st.lex == Outside && st.depth > 0 && WellFormed(items)
    ensures Scanned(st, base, Render(items)) == st
    decreases items, 0
  {
    if items != [] {
      ItemKeepsState(st, base, items[0]);
      ScannedConcat(st, base, RenderItem(items[0]), Render(items[1..]));
      ItemsKeepState(st, base + |RenderItem(items[0])|, items[1..]);
    }
  }

  lemma {:induction false} ItemKeepsState(st: Scan, base: nat, item: Item)
    requires st.lex == Outside && st.depth > 0 && WellFormed([item])
    ensures Scanned(st, base, RenderItem(item)) == st
    decreases item, 1
  {
    assert [item][0] == item;
    match item
    case Plain(c) => ScannedOne(st, base, c);
    case Literal(chars) => LiteralKeepsState(st, base, chars);
    case Nested(items) =>
      ScannedConcat(st, base, [OPEN] + Render(items), [CLOSE]);
      ScannedConcat(st, base, [OPEN], Render(items));
      ScannedOne(st, base, OPEN);
      var deeper := st.(depth := st.depth + 1);
      ItemsKeepState(deeper, base + 1, items);
      ScannedOne(deeper, base + 1 + |Render(items)|, CLOSE);
  }

  lemma {:induction false} PrefixKeepsState(s: string)
    requires QUOTE !in s && OPEN !in s
    ensures Scanned(INITIAL, 0, s) == INITIAL
  {
    if s != [] {
      PrefixKeepsState(s[..|s| - 1]);
      assert s[|s| - 1] in s;
    }
  }

  lemma {:induction false} SuffixKeepsSpans(st: Scan, base: nat, s: string)
    requires st.depth == 0 && OPEN !in s
    ensures Scanned(st, base, s).depth == 0 && Scanned(st, base, s).spans == st.spans
  {
    if s != [] {
      SuffixKeepsSpans(st, base, s[..|s| - 1]);
      assert s[|s| - 1] in s;
    }
  }

  /** An object placed after text with no quote or open brace and before text with no open brace is the
      one span the scanner finds, whatever strings and nested objects it holds. */
  lemma ObjectIsTheOnlySpan(prefix: string, items: seq<Item>, suffix: string)
    requires QUOTE !in prefix && OPEN !in prefix && OPEN !in suffix && WellFormed(items)
    ensures var text := prefix + ObjectText(items) + suffix;
            Spans(text) == [Span(|prefix|, |prefix| + |ObjectText(items)|)]
  {
    var text := prefix + ObjectText(items) + suffix;
    assert text[..|text|] == text;
    ScannedConcat(INITIAL, 0, prefix + ObjectText(items), suffix);
    ScannedConcat(INITIAL, 0, prefix, ObjectText(items));
    PrefixKeepsState(prefix);
    var n := |prefix|;
    ScannedConcat(INITIAL, n, [OPEN] + Render(items), [CLOSE]);
    ScannedConcat(INITIAL, n, [OPEN], Render(items));
    ScannedOne(INITIAL, n, OPEN);
    var begun := Scan(Outside, 1, Some(n), []);
    ItemsKeepState(begun, n + 1, items);
    ScannedOne(begun, n + 1 + |Render(items)|, CLOSE);
    SuffixKeepsSpans(Scanned(INITIAL, 0, prefix + ObjectText(items)), |prefix + ObjectText(items)|, suffix);
  }

  // ----- any text: the spans are the outermost balanced groups

  function LexAt(text: string, i: nat): Lex
    requires i <= |text|
  {
    if i == 0 then Outside else NextLex(LexAt(text, i - 1), text[i - 1])
  }

  /** A brace outside string literals counts one up or down. */
  function Weight(text: string, i: nat): int
    requires i < |text|
  {
    if LexAt(text, i) != Outside then 0 else if text[i] == OPEN then 1 else if text[i] == CLOSE then -1 else 0
  }

  function Net(text: string, from: nat, stop: nat): int
    requires from <= stop <= |text|
    decreases stop
  {
    if from == stop then 0 else Net(text, from, stop - 1) + Weight(text, stop - 1)
  }

  ghost predicate StaysOpen(text: string, from: nat, stop: nat)
    requires from <= stop <= |text|
  {
    forall j :: from < j <= stop ==> Net(text, from, j) >= 1
  }

  /** `text[from..stop]` is an open brace, what it encloses, and the brace that closes it. */
  ghost predicate Balanced(text: string, from: nat, stop: nat) {
    from < stop <= |text| && Net(text, from, stop) == 0 && StaysOpen(text, from, stop - 1) && Weight(text, from) == 1
  }

  /** Every brace opened before `i` is closed by then. */
  ghost predicate AllClosed(text: string, i: nat)
    requires i <= |text|
  {
    forall a :: 0 <= a < i && Weight(text, a) == 1 ==> exists b: nat :: b <= i && Balanced(text, a, b)
  }

  ghost predicate Outermost(text: string, span: Span) {
    Balanced(text, span.from, span.stop) && AllClosed(text, span.from)
  }

  lemma {:induction false} NetSplits(text: string, from: nat, mid: nat, stop: nat)
    requires from <= mid <= stop <= |text|
    ensures Net(text, from, stop) == Net(text, from, mid) + Net(text, mid, stop)
    decreases stop - mid
  {
    if mid < stop {
      NetSplits(text, from, mid, stop - 1);
    }
  }

  /** A brace whose group has dropped below one by `stop` was closed before. */
  lemma {:induction false} ClosesBefore(text: string, a: nat, j: nat, stop: nat) returns (b: nat)
    requires a < j <= stop <= |text| && Weight(text, a) == 1
    requires StaysOpen(text, a, j) && Net(text, a, stop) <= 0
    ensures j < b <= stop && Balanced(text, a, b)
    decreases stop - j
  {
    if Net(text, a, j + 1) >= 1 {
      b := ClosesBefore(text, a, j + 1, stop);
    } else {
      b := j + 1;
    }
  }

  /** The braces inside a balanced group are closed inside it. */
  lemma GroupClosesItsBraces(text: string, from: nat, stop: nat, a: nat) returns (b: nat)
    requires Balanced(text, from, stop) && from <= a < stop && Weight(text, a) == 1
    ensures b <= stop && Balanced(text, a, b)
  {
    if a == from {
      b := stop;
    } else {
      NetSplits(text, from, a, stop);
      assert Net(text, a, a) == 0;
      assert Net(text, a, a + 1) == 1;
      b := ClosesBefore(text, a, a + 1, stop);
    }
  }

  /** What the scan knows before position `i`. */
  ghost predicate Knows(text: string, i: nat, st: Scan)
    requires i <= |text|
  {
    && st.lex == LexAt(text, i)
    && (forall span :: span in st.spans <==> span.stop <= i && Outermost(text, span))
    && (forall p, q :: 0 <= p < q < |st.spans| ==> st.spans[p].stop <= st.spans[q].from)
    && (st.depth == 0 ==> st.start == None && AllClosed(text, i))
    && (st.depth > 0 ==>
          && st.start.Some? && st.start.value < i
          && Weight(text, st.start.value) == 1 && AllClosed(text, st.start.value)
          && StaysOpen(text, st.start.value, i) && Net(text, st.start.value, i) == st.depth
          && forall p :: 0 <= p < |st.spans| ==> st.spans[p].stop <= st.start.value)
  }

  /** A group that ends here ends with a closing brace and was one open brace deep. */
  lemma EndsWithClose(text: string, i: nat, from: nat)
    requires i < |text| && Balanced(text, from, i + 1)
    ensures from < i && Weight(text, i) == -1 && Net(text, from, i) == 1 && StaysOpen(text, from, i)
  {
    assert Net(text, from, i + 1) == Net(text, from, i) + Weight(text, i);
    assert Net(text, i, i) == 0;
  }

  /** A brace that stays open up to `i` is not closed by any earlier point. */
  lemma OpenIsNotClosed(text: string, a: nat, k: nat, i: nat)
    requires a < k <= i <= |text| && Weight(text, a) == 1 && StaysOpen(text, a, i)
    ensures !AllClosed(text, k)
  {
    forall b: nat | b <= k ensures !Balanced(text, a, b) {
      assert a < b ==> Net(text, a, b) >= 1;
    }
  }

  /** Of the groups that end at a brace, the outermost is the one the scan has open, at depth one. */
  lemma WhatEndsHere(text: string, i: nat, st: Scan, span: Span)
    requires i < |text| && Knows(text, i, st)
    ensures span.stop == i + 1 && Outermost(text, span) <==> st.depth == 1 && Weight(text, i) == -1 && span == Span(st.start.value, i + 1)
  {
    var start: nat := if st.depth > 0 then st.start.value else 0;
    if span.stop == i + 1 && Outermost(text, span) {
      EndsWithClose(text, i, span.from);
      if st.depth == 0 {
        OpenIsNotClosed(text, span.from, i, i);
      } else if span.from < start {
        OpenIsNotClosed(text, span.from, start, i);
      } else if start < span.from {
        OpenIsNotClosed(text, start, span.from, i);
      }
    }
  }

  lemma StepKnowsSpans(text: string, i: nat, st: Scan)
    requires i < |text| && Knows(text, i, st)
    ensures var next := Step(st, i, text[i]);
            && (forall span :: span in next.spans <==> span.stop <= i + 1 && Outermost(text, span))
            && (forall p, q :: 0 <= p < q < |next.spans| ==> next.spans[p].stop <= next.spans[q].from)
  {
    var next := Step(st, i, text[i]);
    hide Outermost;
    assert next.spans == if st.depth == 1 && Weight(text, i) == -1 then st.spans + [Span(st.start.value, i + 1)] else st.spans;
    forall span ensures span in next.spans <==> span.stop <= i + 1 && Outermost(text, span) {
      WhatEndsHere(text, i, st, span);
    }
  }

  lemma StepKnowsDepth(text: string, i: nat, st: Scan)
    requires i < |text| && Knows(text, i, st)
    ensures var next := Step(st, i, text[i]);
            && (next.depth == 0 ==> next.start == None && AllClosed(text, i + 1))
            && (next.depth > 0 ==>
                  && next.start.Some? && next.start.value < i + 1
                  && Weight(text, next.start.value) == 1 && AllClosed(text, next.start.value)
                  && StaysOpen(text, next.start.value, i + 1) && Net(text, next.start.value, i + 1) == next.depth
                  && forall p :: 0 <= p < |next.spans| ==> next.spans[p].stop <= next.start.value)
  {
    assert Net(text, i, i) == 0;
    var next := Step(st, i, text[i]);
    if st.depth == 1 && next.depth == 0 {
      var s := st.start.value;
      assert Balanced(text, s, i + 1);
      forall a | 0 <= a < i + 1 && Weight(text, a) == 1 ensures exists b: nat :: b <= i + 1 && Balanced(text, a, b) {
        if a >= s {
          var b := GroupClosesItsBraces(text, s, i + 1, a);
        }
      }
    }
  }

  lemma {:induction false} ScanKnows(text: string, i: nat)
    requires i <= |text|
    ensures Knows(text, i, At(text, i))
  {
    if i > 0 {
      ScanKnows(text, i - 1);
      AtStep(text, i - 1);
      StepKnowsSpans(text, i - 1, At(text, i - 1));
      StepKnowsDepth(text, i - 1, At(text, i - 1));
    }
  }

  /** On any text, the spans are exactly the balanced groups before which every brace is closed; they do
      not overlap and come in order. */
  lemma SpansAreTheOutermostGroups(text: string)
    ensures forall span :: span in Spans(text) <==> Outermost(text, span)
    ensures forall p, q :: 0 <= p < q < |Spans(text)| ==> Spans(text)[p].stop <= Spans(text)[q].from
  {
    ScanKnows(text, |text|);
  }

  // ----- the scanner and the choice among its spans

  function SpanText(text: string, span: Span): string {
    if span.from <= span.stop <= |text| then text[span.from..span.stop] else []
  }

  /** The last span that parses, if any does. */
  ghost predicate LastParsed<T(!new)>(text: string, parse: string -> Option<T>, r: Option<T>) {
    var spans := Spans(text);
    || (r == None && forall k :: 0 <= k < |spans| ==> parse(SpanText(text, spans[k])) == None)
    || (exists k :: 0 <= k < |spans| && r.Some? && parse(SpanText(text, spans[k])) == r
          && forall j :: k < j < |spans| ==> parse(SpanText(text, spans[j])) == None)
  }

  /** `_salvage_json_object`, with the JSON parser as a parameter. */
  method SalvageJsonObject<T(!new)>(text: string, parse: string -> Option<T>) returns (r: Option<T>)
    ensures LastParsed(text, parse, r)
  {
    var spans: seq<Span> := [];
    var depth: nat := 0;
    var start: Option<nat> := None;
    var inString, escaped := false, false;
    for i := 0 to |text|
      invariant !inString ==> !escaped
      invariant At(text, i) == Scan(if escaped then Escape else if inString then Inside else Outside, depth, start, spans)
    {
      AtStep(text, i);
      var ch := text[i];
      if inString {
        if escaped {
          escaped := false;
        } else if ch == BACKSLASH {
          escaped := true;
        } else if ch == QUOTE {
          inString := false;
        }
        continue;
      }
      if ch == QUOTE {
        inString := true;
      } else if ch == OPEN {
        if depth == 0 {
          start := Some(i);
        }
        depth := depth + 1;
      } else if ch == CLOSE && depth > 0 {
        depth := depth - 1;
        if depth == 0 && start.Some? {
          spans := spans + [Span(start.value, i + 1)];
          start := None;
        }
      }
    }
    assert Spans(text) == spans;
    var k := |spans|;
    while k > 0
      invariant 0 <= k <= |spans|
      invariant forall j :: k <= j < |spans| ==> parse(SpanText(text, spans[j])) == None
    {
      k := k - 1;
      var parsed := parse(SpanText(text, spans[k]));
      if parsed.Some? {
        return parsed;
      }
    }
    return None;
  }

  /** An object between such a prefix and suffix is salvaged whenever it parses. */
  lemma ObjectIsSalvaged<T(!new)>(prefix: string, items: seq<Item>, suffix: string, parse: string -> Option<T>, r: Option<T>)
    requires QUOTE !in prefix && OPEN !in prefix && OPEN !in suffix && WellFormed(items)
    requires LastParsed(prefix + ObjectText(items) + suffix, parse, r)
    ensures r == parse(ObjectText(items))
  {
    var text := prefix + ObjectText(items) + suffix;
    ObjectIsTheOnlySpan(prefix, items, suffix);
    var span := Spans(text)[0];
    assert SpanText(text, span) == ObjectText(items);
  }
}
