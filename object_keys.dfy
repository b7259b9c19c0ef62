/**
 * The order in which a JavaScript object lists its own string keys
 * (`Object.entries`, `Object.keys`, `for ... in`), as section 10.1.11.1
 * (OrdinaryOwnPropertyKeys) of ECMA-262 fixes it: first the keys that are
 * array indices, in ascending numeric order, then the other keys in the
 * order they were created. `Object.fromEntries` creates its keys in the
 * order of the entries it receives, so the object it returns lists them in
 * this order too.
 */
module ObjectKeys {
  import opened StableSort
  import DT = DataTransformer

  /** The largest array index, 2^32 - 2. */
  const MaxArrayIndex: nat := 4294967294

  /**
   * An array index: the canonical decimal string of an integer in
   * 0 .. 2^32 - 2, that is "0" or digits without a leading zero.
   */
  predicate IsArrayIndex(k: string) {
    && |k| > 0
    && (forall i :: 0 <= i < |k| ==> DT.IsDigit(k[i]))
    && (k[0] == '0' ==> |k| == 1)
    && DT.Value(k, false) <= MaxArrayIndex
  }

  /** The numeric value of an array index; other keys have none and rank 0. */
  function IndexValue(k: string): nat {
    if IsArrayIndex(k) then DT.Value(k, false) else 0
  }

  /** The entries whose keys are array indices, in their order. */
  function IndexPart(es: seq<Scored<string>>): (r: seq<Scored<string>>)
    ensures forall i :: 0 <= i < |r| ==> IsArrayIndex(r[i].item)
  {
    if es == [] then []
    else (if IsArrayIndex(es[0].item) then [es[0]] else []) + IndexPart(es[1..])
  }

  /** The entries whose keys are not array indices, in their order. */
  function OtherPart(es: seq<Scored<string>>): (r: seq<Scored<string>>)
    ensures forall i :: 0 <= i < |r| ==> !IsArrayIndex(r[i].item)
  {
    if es == [] then []
    else (if IsArrayIndex(es[0].item) then [] else [es[0]]) + OtherPart(es[1..])
  }

  /** Array indices in non-decreasing numeric order. */
  predicate AscendingIndices(s: seq<Scored<string>>) {
    forall i, j :: 0 <= i < j < |s| ==> IndexValue(s[i].item) <= IndexValue(s[j].item)
  }

  /** Puts `e` in front of the first entry whose index is not smaller. */
  function InsertByIndex(e: Scored<string>, s: seq<Scored<string>>): (r: seq<Scored<string>>)
    ensures |r| == |s| + 1
    ensures multiset(r) == multiset(s) + multiset{e}
  {
    if s == [] || IndexValue(e.item) <= IndexValue(s[0].item) then [e] + s
    else
      assert s == [s[0]] + s[1..];
      [s[0]] + InsertByIndex(e, s[1..])
  }

  /** The entries sorted by ascending array index. */
  function SortByIndex(s: seq<Scored<string>>): (r: seq<Scored<string>>)
    ensures |r| == |s|
    ensures multiset(r) == multiset(s)
  {
    if s == [] then []
    else
      assert s == [s[0]] + s[1..];
      InsertByIndex(s[0], SortByIndex(s[1..]))
  }

  /**
   * The order in which an object whose keys were created in the order of
   * `es` lists its entries: array indices ascending, then the rest in
   * creation order.
   */
  function ObjectOrder(es: seq<Scored<string>>): (r: seq<Scored<string>>)
    ensures |r| == |es|
    ensures multiset(r) == multiset(es)
  {
    PartsSplit(es);
    SortByIndex(IndexPart(es)) + OtherPart(es)
  }

  /** Every entry goes to exactly one of the two parts. */
  lemma {:induction false} PartsSplit(es: seq<Scored<string>>)
    ensures |IndexPart(es)| + |OtherPart(es)| == |es|
    ensures multiset(IndexPart(es)) + multiset(OtherPart(es)) == multiset(es)
  {
    if es != [] {
      PartsSplit(es[1..]);
      assert es == [es[0]] + es[1..];
    }
  }

  lemma {:induction false} InsertAscending(e: Scored<string>, s: seq<Scored<string>>)
    requires AscendingIndices(s)
    ensures AscendingIndices(InsertByIndex(e, s))
  {
    if s != [] && IndexValue(e.item) > IndexValue(s[0].item) {
      InsertAscending(e, s[1..]);
      InsertAbove(e, s[1..], IndexValue(s[0].item));
      AscendingCons(s[0], InsertByIndex(e, s[1..]));
    }
  }

  /** Inserting an entry above a bound into entries above it keeps every entry above it. */
  lemma {:induction false} InsertAbove(e: Scored<string>, s: seq<Scored<string>>, bound: nat)
    requires bound <= IndexValue(e.item)
    requires forall k :: 0 <= k < |s| ==> bound <= IndexValue(s[k].item)
    ensures forall k :: 0 <= k < |InsertByIndex(e, s)| ==> bound <= IndexValue(InsertByIndex(e, s)[k].item)
  {
    if s != [] && IndexValue(e.item) > IndexValue(s[0].item) {
      InsertAbove(e, s[1..], bound);
    }
  }

  lemma AscendingCons(x: Scored<string>, s: seq<Scored<string>>)
    requires AscendingIndices(s)
    requires forall k :: 0 <= k < |s| ==> IndexValue(x.item) <= IndexValue(s[k].item)
    ensures AscendingIndices([x] + s)
  {
    var r := [x] + s;
    forall i, j | 0 <= i < j < |r| ensures IndexValue(r[i].item) <= IndexValue(r[j].item) {
      assert r[j] == s[j - 1];
      if i > 0 {
        assert r[i] == s[i - 1];
      }
    }
  }

  lemma {:induction false} SortByIndexAscending(s: seq<Scored<string>>)
    ensures AscendingIndices(SortByIndex(s))
  {
    if s != [] {
      SortByIndexAscending(s[1..]);
      InsertAscending(s[0], SortByIndex(s[1..]));
    }
  }

  /** Filtering out the array indices distributes over concatenation. */
  lemma {:induction false} OtherPartAppend(a: seq<Scored<string>>, b: seq<Scored<string>>)
    ensures OtherPart(a + b) == OtherPart(a) + OtherPart(b)
  {
    if a == [] {
      assert a + b == b;
    } else {
      var ab := a + b;
      assert ab[0] == a[0] && ab[1..] == a[1..] + b;
      OtherPartAppend(a[1..], b);
      assert OtherPart(a) == (if IsArrayIndex(a[0].item) then [] else [a[0]]) + OtherPart(a[1..]);
    }
  }

  /** Entries that are all array indices leave nothing; entries with none are kept whole. */
  lemma {:induction false} OtherPartOf(s: seq<Scored<string>>)
    ensures (forall i :: 0 <= i < |s| ==> IsArrayIndex(s[i].item)) ==> OtherPart(s) == []
    ensures (forall i :: 0 <= i < |s| ==> !IsArrayIndex(s[i].item)) ==> OtherPart(s) == s && IndexPart(s) == []
  {
    if s != [] {
      OtherPartOf(s[1..]);
      assert s == [s[0]] + s[1..];
    }
  }

  /** The sorted indices are still array indices. */
  lemma SortedIndices(es: seq<Scored<string>>)
    ensures forall i :: 0 <= i < |SortByIndex(IndexPart(es))| ==> IsArrayIndex(SortByIndex(IndexPart(es))[i].item)
  {
    var idx := SortByIndex(IndexPart(es));
    forall i | 0 <= i < |idx| ensures IsArrayIndex(idx[i].item) {
      assert idx[i] in multiset(IndexPart(es));
      var m :| 0 <= m < |IndexPart(es)| && IndexPart(es)[m] == idx[i];
    }
  }

  /** Every array index comes before every other key, the indices ascending. */
  predicate IndicesFirst(r: seq<Scored<string>>) {
    forall i, j :: 0 <= i < j < |r| && IsArrayIndex(r[j].item) ==>
      IsArrayIndex(r[i].item) && IndexValue(r[i].item) <= IndexValue(r[j].item)
  }

  /** The listing of an object puts every array index before every other key, the indices ascending. */
  lemma ObjectOrderIndicesFirst(es: seq<Scored<string>>)
    ensures IndicesFirst(ObjectOrder(es))
  {
    var idx := SortByIndex(IndexPart(es));
    var r := ObjectOrder(es);
    assert r == idx + OtherPart(es);
    SortByIndexAscending(IndexPart(es));
    SortedIndices(es);
    forall i, j | 0 <= i < j < |r| && IsArrayIndex(r[j].item)
      ensures IsArrayIndex(r[i].item) && IndexValue(r[i].item) <= IndexValue(r[j].item)
    {
      assert r[i] == idx[i] && r[j] == idx[j];
    }
  }

  /**
   * The other keys keep their creation order, and an object without array
   * indices lists its keys in creation order.
   */
  lemma ObjectOrderOthers(es: seq<Scored<string>>)
    ensures OtherPart(ObjectOrder(es)) == OtherPart(es)
    ensures (forall i :: 0 <= i < |es| ==> !IsArrayIndex(es[i].item)) ==> ObjectOrder(es) == es
  {
    var idx := SortByIndex(IndexPart(es));
    assert ObjectOrder(es) == idx + OtherPart(es);
    SortedIndices(es);
    OtherPartAppend(idx, OtherPart(es));
    OtherPartOf(idx);
    OtherPartOf(OtherPart(es));
    OtherPartOf(es);
  }

  /** A subsequence of a descending sequence is descending: the other keys of a sorted listing stay sorted. */
  lemma {:induction false} OtherPartDescending(s: seq<Scored<string>>)
    requires Descending(s)
    ensures Descending(OtherPart(s))
  {
    if s != [] {
      OtherPartDescending(s[1..]);
      var rest := OtherPart(s[1..]);
      if !IsArrayIndex(s[0].item) {
        forall j | 0 <= j < |rest| ensures s[0].score >= rest[j].score {
          OtherPartFrom(s[1..], j);
        }
      }
    }
  }

  /** Every entry kept by the filter comes from the filtered sequence. */
  lemma {:induction false} OtherPartFrom(s: seq<Scored<string>>, j: nat)
    requires j < |OtherPart(s)|
    ensures OtherPart(s)[j] in s
  {
    if !IsArrayIndex(s[0].item) && j == 0 {
    } else {
      var k := if IsArrayIndex(s[0].item) then j else j - 1;
      OtherPartFrom(s[1..], k);
    }
  }

  /**
   * `Object.fromEntries` of entries sorted by descending score: the same
   * entries, array indices first and ascending, the other keys still in
   * descending order.
   */
  lemma FromSortedEntries(s: seq<Scored<string>>)
    requires Descending(s)
    ensures multiset(ObjectOrder(s)) == multiset(s)
    ensures IndicesFirst(ObjectOrder(s))
    ensures Descending(OtherPart(ObjectOrder(s)))
  {
    ObjectOrderIndicesFirst(s);
    ObjectOrderOthers(s);
    OtherPartDescending(s);
  }
}
