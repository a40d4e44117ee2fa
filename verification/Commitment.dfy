/** What the 73 committed bytes bind: the combiner, its parameters, the result and every receipt. */
module Commitment {
  import opened ByteStrings
  import opened Sorting
  import opened Json
  import opened CombinerParams
  import opened Merkle
  import opened Mfb2Parsers
  import opened Reduction
  import opened ReductionFacts
  import opened CommittedOutputs

  ghost function HeaderOf(h: Hash, w: Width, v: Json): Header
    requires Reduce(h, w, v).Ok?
  {
    ReadHeader(w, v).value
  }

  /** The receipt bytes of an accepted artifact, in its order. */
  ghost function ReceiptsOf(h: Hash, w: Width, v: Json): seq<Bytes>
    requires Reduce(h, w, v).Ok?
  {
    AddBranches(h, w, HeaderOf(h, w, v), NothingCollected(), HeaderOf(h, w, v).branches).value.receipts
  }

  ghost function Elements(s: seq<Bytes>): set<Bytes> {
    set i | 0 <= i < |s| :: s[i]
  }

  ghost function StringsOf(h: Hash, header: Header, receipts: seq<Bytes>): set<Bytes> {
    {ParamsLine(header.combinerId, header.trimBps, header.dictionarySize)}
    + Elements(receipts)
    + (if receipts == [] then {} else RootStrings(h, HashAll(h, receipts)))
  }

  /** Every string hashed on the way to the committed outputs: the parameter line, the receipts, and
      the leaves and nodes of the Merkle tree. */
  ghost function HashedStrings(h: Hash, w: Width, v: Json): set<Bytes>
    requires Reduce(h, w, v).Ok?
  {
    StringsOf(h, HeaderOf(h, w, v), ReceiptsOf(h, w, v))
  }

  lemma {:induction false} HashesBindReceipts(h: Hash, a: seq<Bytes>, b: seq<Bytes>)
    requires multiset(HashAll(h, a)) == multiset(HashAll(h, b))
    ensures multiset(a) == multiset(b) || Collide(h, Elements(a), Elements(b))
    decreases |a|
  {
    if a == [] {
      assert |multiset(HashAll(h, b))| == |b|;
    } else {
      assert HashAll(h, a)[0] in multiset(HashAll(h, b));
      var j :| 0 <= j < |b| && HashAll(h, b)[j] == HashAll(h, a)[0];
      if a[0] != b[j] {
        assert a[0] in Elements(a) && b[j] in Elements(b) && h(a[0]) == h(b[j]);
      } else {
        var a', b' := Without(a, 0), Without(b, j);
        assert HashAll(h, a') == Without(HashAll(h, a), 0);
        assert HashAll(h, b') == Without(HashAll(h, b), j);
        HashesBindReceipts(h, a', b');
        if multiset(a') == multiset(b') {
          WithoutRestores(a, 0);
          WithoutRestores(b, j);
        } else {
          ElementsWithout(a, 0);
          ElementsWithout(b, j);
          CollideMonotone(h, Elements(a'), Elements(b'), Elements(a), Elements(b));
        }
      }
    }
  }

  lemma ElementsWithout(s: seq<Bytes>, j: nat)
    requires j < |s|
    ensures Elements(Without(s, j)) <= Elements(s)
  {
    forall i | 0 <= i < |s| - 1 ensures Without(s, j)[i] in Elements(s) {
      assert Without(s, j)[i] == s[if i < j then i else i + 1];
    }
  }

  lemma SameFirst(h: Hash, a: seq<Bytes>, b: seq<Bytes>)
    requires ReceiptsInOrder(h, a) && ReceiptsInOrder(h, b) && a != [] && b != []
    requires multiset(a) == multiset(b)
    ensures a[0] == b[0]
  {
    hide StrictParse;
    assert a[0] in multiset(b) && b[0] in multiset(a);
    var i :| 0 <= i < |b| && b[i] == a[0];
    var j :| 0 <= j < |a| && a[j] == b[0];
  }

  lemma OrderOfTail(h: Hash, a: seq<Bytes>)
    requires ReceiptsInOrder(h, a) && a != []
    ensures ReceiptsInOrder(h, a[1..])
  {
    hide StrictParse;
  }

  /** Receipts in strictly increasing branch order are determined by their multiset. */
  lemma {:induction false} OrderDetermined(h: Hash, a: seq<Bytes>, b: seq<Bytes>)
    requires ReceiptsInOrder(h, a) && ReceiptsInOrder(h, b)
    requires multiset(a) == multiset(b)
    ensures a == b
  {
    if a == [] {
      assert |multiset(b)| == 0;
    } else {
      hide StrictParse;
      assert |multiset(a)| == |a| && |multiset(b)| == |b|;
      SameFirst(h, a, b);
      hide ReceiptsInOrder;
      OrderOfTail(h, a);
      OrderOfTail(h, b);
      assert a == [a[0]] + a[1..] && b == [b[0]] + b[1..];
      assert a[1..] == Without(a, 0) && b[1..] == Without(b, 0);
      OrderDetermined(h, a[1..], b[1..]);
    }
  }

  ghost predicate SameClaim(h: Hash, w: Width, v: Json, w': Width, v': Json)
    requires Reduce(h, w, v).Ok? && Reduce(h, w', v').Ok?
  {
    && HeaderOf(h, w, v).combinerId == HeaderOf(h, w', v').combinerId
    && HeaderOf(h, w, v).trimBps == HeaderOf(h, w', v').trimBps
    && HeaderOf(h, w, v).dictionarySize == HeaderOf(h, w', v').dictionarySize
    && Reduce(h, w, v).value == Reduce(h, w', v').value
    && ReceiptsOf(h, w, v) == ReceiptsOf(h, w', v')
  }

  /** If two accepted artifacts commit the same bytes, they make the same claim: the same combiner and
      parameters, the same result, the same receipts in the same order.  Otherwise two different
      strings hashed for them have the same digest. */
  lemma CommitmentBinds(h: Hash, w: Width, v: Json, w': Width, v': Json)
    requires Reduce(h, w, v).Ok? && Reduce(h, w', v').Ok?
    requires Outputs(Reduce(h, w, v).value) == Outputs(Reduce(h, w', v').value)
    ensures SameClaim(h, w, v, w', v') || Collide(h, HashedStrings(h, w, v), HashedStrings(h, w', v'))
  {
    hide Reduce, HeaderOf, ReceiptsOf, ReceiptsInOrder, ParamsLine, SortedRoot, Outputs, Collide, StringsOf;
    ClaimParts(h, w, v);
    ClaimParts(h, w', v');
    OutputsInjective(Reduce(h, w, v).value, Reduce(h, w', v').value);
    PiecesBind(h, HeaderOf(h, w, v), ReceiptsOf(h, w, v), HeaderOf(h, w', v'), ReceiptsOf(h, w', v'));
  }

  /** The committed fields, in terms of the header and the receipts. */
  lemma ClaimParts(h: Hash, w: Width, v: Json)
    requires Reduce(h, w, v).Ok?
    ensures Packs(Reduce(h, w, v).value)
    ensures ReceiptsOf(h, w, v) != [] && ReceiptsInOrder(h, ReceiptsOf(h, w, v))
    ensures var r, header := Reduce(h, w, v).value, HeaderOf(h, w, v);
            && r.combinerId == header.combinerId && r.trimBps == header.trimBps && r.dictionarySize == header.dictionarySize
            && r.paramsDigest == h(ParamsLine(header.combinerId, header.trimBps, header.dictionarySize))
    ensures var r, receipts := Reduce(h, w, v).value, ReceiptsOf(h, w, v);
            && r.branchCount == |receipts| && r.branchHashes == HashAll(h, receipts)
            && r.merkleRoot == SortedRoot(h, HashAll(h, receipts))
  {
    hide ParamsLine, SortedRoot, StrictParse, Combine, Finish, ReadHeader, AddBranches, Reduce, ReceiptsInOrder;
    var header, c, value := AcceptedParts(h, w, v);
    ReductionInRange(h, w, v);
    FinishCombines(h, header, c);
  }

  lemma PiecesBind(h: Hash, header: Header, receipts: seq<Bytes>, header': Header, receipts': seq<Bytes>)
    requires receipts != [] && ReceiptsInOrder(h, receipts)
    requires receipts' != [] && ReceiptsInOrder(h, receipts')
    requires h(ParamsLine(header.combinerId, header.trimBps, header.dictionarySize))
          == h(ParamsLine(header'.combinerId, header'.trimBps, header'.dictionarySize))
    requires SortedRoot(h, HashAll(h, receipts)) == SortedRoot(h, HashAll(h, receipts'))
    ensures || Collide(h, StringsOf(h, header, receipts), StringsOf(h, header', receipts'))
            || (&& header.combinerId == header'.combinerId && header.trimBps == header'.trimBps
                && header.dictionarySize == header'.dictionarySize && receipts == receipts')
  {
    hide ParamsLine, SortedRoot, Collide, StringsOf, RootStrings, Elements, ReceiptsInOrder, HashAll;
    var line := ParamsLine(header.combinerId, header.trimBps, header.dictionarySize);
    var line' := ParamsLine(header'.combinerId, header'.trimBps, header'.dictionarySize);
    var strings, strings' := StringsOf(h, header, receipts), StringsOf(h, header', receipts');
    StringsCover(h, header, receipts);
    StringsCover(h, header', receipts');
    if line != line' {
      CollideOn(h, strings, strings', line, line');
    } else {
      ParamsLineInjective(header.combinerId, header.trimBps, header.dictionarySize,
                          header'.combinerId, header'.trimBps, header'.dictionarySize);
      RootsBind(h, receipts, receipts', strings, strings');
    }
  }

  lemma StringsCover(h: Hash, header: Header, receipts: seq<Bytes>)
    requires receipts != []
    ensures ParamsLine(header.combinerId, header.trimBps, header.dictionarySize) in StringsOf(h, header, receipts)
    ensures Elements(receipts) <= StringsOf(h, header, receipts)
    ensures RootStrings(h, HashAll(h, receipts)) <= StringsOf(h, header, receipts)
  {
    hide ParamsLine, RootStrings, Elements;
  }

  lemma RootsBind(h: Hash, receipts: seq<Bytes>, receipts': seq<Bytes>, strings: set<Bytes>, strings': set<Bytes>)
    requires receipts != [] && ReceiptsInOrder(h, receipts)
    requires receipts' != [] && ReceiptsInOrder(h, receipts')
    requires SortedRoot(h, HashAll(h, receipts)) == SortedRoot(h, HashAll(h, receipts'))
    requires Elements(receipts) <= strings && RootStrings(h, HashAll(h, receipts)) <= strings
    requires Elements(receipts') <= strings' && RootStrings(h, HashAll(h, receipts')) <= strings'
    ensures Collide(h, strings, strings') || receipts == receipts'
  {
    hide SortedRoot, Collide, RootStrings, Elements, ReceiptsInOrder;
    var hashes, hashes' := HashAll(h, receipts), HashAll(h, receipts');
    SortedRootBinds(h, hashes, hashes');
    if multiset(hashes) != multiset(hashes') {
      CollideMonotone(h, RootStrings(h, hashes), RootStrings(h, hashes'), strings, strings');
    } else {
      HashesBindReceipts(h, receipts, receipts');
      if multiset(receipts) == multiset(receipts') {
        OrderDetermined(h, receipts, receipts');
      } else {
        CollideMonotone(h, Elements(receipts), Elements(receipts'), strings, strings');
      }
    }
  }

  lemma CollideOn(h: Hash, xs: set<Bytes>, ys: set<Bytes>, x: Bytes, y: Bytes)
    requires x in xs && y in ys && x != y && h(x) == h(y)
    ensures Collide(h, xs, ys)
  {
  }
}
