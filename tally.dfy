/**
 * The count dictionaries of the analyzer: a JavaScript object mapping a key to
 * the number of times it was seen. `Object.entries` lists its array-index keys
 * first, in ascending numeric order, then the other keys in insertion order.
 */
module Tallies {
  import opened StableSort
  import opened ObjectKeys

  /**
   * A JavaScript object used as a dictionary of counts: the counts as a multiset
   * and the keys in insertion order, from which `Object.entries` derives its order.
   */
  datatype Tally = Tally(order: seq<string>, counts: multiset<string>) {

    ghost predicate Valid() {
      && (forall i, j :: 0 <= i < j < |order| ==> order[i] != order[j])
      && (forall k :: k in counts <==> k in order)
    }

    /** `dict[k] = (dict[k] || 0) + 1`: a new key is appended to the order. */
    function Add(k: string): Tally {
      if k in counts then Tally(order, counts + multiset{k})
      else Tally(order + [k], counts + multiset{k})
    }
  }

  function EmptyTally(): Tally {
    Tally([], multiset{})
  }

  /** The dictionary `t` after incrementing the keys of `s` one after the other. */
  function AddAll(t: Tally, s: seq<string>): Tally {
    if s == [] then t else AddAll(t, s[..|s| - 1]).Add(s[|s| - 1])
  }

  /** The dictionary built from nothing by the increments `s`. */
  function TallyOf(s: seq<string>): Tally {
    AddAll(EmptyTally(), s)
  }

  lemma AddAllSnoc(t: Tally, s: seq<string>, k: string)
    ensures AddAll(t, s + [k]) == AddAll(t, s).Add(k)
  {
    assert (s + [k])[..|s|] == s;
  }

  /** Incrementing by `a` then by `b` is incrementing by `a + b`. */
  lemma {:induction false} AddAllAppend(t: Tally, a: seq<string>, b: seq<string>)
    ensures AddAll(t, a + b) == AddAll(AddAll(t, a), b)
    decreases |b|
  {
    if b == [] {
      assert a + b == a;
    } else {
      var b', k := b[..|b| - 1], b[|b| - 1];
      assert b == b' + [k];
      assert a + b == (a + b') + [k];
      AddAllAppend(t, a, b');
      AddAllSnoc(t, a + b', k);
      AddAllSnoc(AddAll(t, a), b', k);
    }
  }

  /** An increment keeps the keys listed once each, and exactly the keys with a count. */
  lemma AddValid(t: Tally, k: string)
    requires t.Valid()
    ensures t.Add(k).Valid()
  {
    if k !in t.counts {
      var o := t.order + [k];
      forall i, j | 0 <= i < j < |o| ensures o[i] != o[j] {
        if j == |t.order| {
          assert o[i] == t.order[i];
          assert t.order[i] in t.order;
        }
      }
      forall x ensures x in t.counts + multiset{k} <==> x in o {
        assert x in o <==> x in t.order || x == k;
      }
    }
  }

  lemma {:induction false} AddAllValid(t: Tally, s: seq<string>)
    requires t.Valid()
    ensures AddAll(t, s).Valid()
  {
    if s != [] {
      AddAllValid(t, s[..|s| - 1]);
      AddValid(AddAll(t, s[..|s| - 1]), s[|s| - 1]);
    }
  }

  /** Increments add exactly their keys to the counts. */
  lemma {:induction false} AddAllCounts(t: Tally, s: seq<string>)
    ensures AddAll(t, s).counts == t.counts + multiset(s)
  {
    if s != [] {
      var init, k := s[..|s| - 1], s[|s| - 1];
      AddAllCounts(t, init);
      assert s == init + [k];
      assert multiset(s) == multiset(init) + multiset{k};
    }
  }

  /** The dictionary holds exactly the multiplicities of the keys, each key listed once. */
  lemma TallyOfCounts(s: seq<string>)
    ensures TallyOf(s).Valid()
    ensures TallyOf(s).counts == multiset(s)
  {
    AddAllValid(EmptyTally(), s);
    AddAllCounts(EmptyTally(), s);
  }

  /** The largest count among `keys`; 0 when there are none. */
  function MaxOver(keys: seq<string>, counts: multiset<string>): (m: nat)
    ensures forall k :: k in keys ==> counts[k] <= m
    ensures keys != [] ==> exists k :: k in keys && counts[k] == m
  {
    if keys == [] then 0
    else
      var rest := MaxOver(keys[1..], counts);
      assert forall k :: k in keys ==> k == keys[0] || k in keys[1..];
      if counts[keys[0]] >= rest then counts[keys[0]] else rest
  }

  /** `Math.max(...Object.values(dict))`; 0 stands for the `-Infinity` of an empty dictionary, which no entry ever meets. */
  function MaxCount(t: Tally): (m: nat)
    ensures forall k :: k in t.order ==> t.counts[k] <= m
    ensures t.order != [] ==> exists k :: k in t.order && t.counts[k] == m
  {
    MaxOver(t.order, t.counts)
  }

  /** A listed key has been counted at least once, and no more often than the largest count. */
  lemma CountedBounds(t: Tally, k: string)
    requires t.Valid() && k in t.order
    ensures 1 <= t.counts[k] <= MaxCount(t)
  {
  }

  /**
   * The dictionary built by the increments `s`: valid, holding their
   * multiplicities, empty exactly when `s` is, and with a positive maximum
   * otherwise.
   */
  lemma TallyOfShape(s: seq<string>)
    ensures TallyOf(s).Valid() && TallyOf(s).counts == multiset(s)
    ensures TallyOf(s).order == [] <==> s == []
    ensures forall k :: k in TallyOf(s).order <==> k in s
    ensures s == [] || MaxCount(TallyOf(s)) > 0
  {
    TallyOfCounts(s);
    var t := TallyOf(s);
    forall k ensures k in t.order <==> k in s {
      assert k in s <==> k in multiset(s);
    }
    if s != [] {
      assert s[0] in multiset(s);
      assert t.order != [];
      var k :| k in t.order && t.counts[k] == MaxCount(t);
      CountedBounds(t, k);
    } else {
      assert t.order == [];
    }
  }

  /** A non-empty dictionary of increments has a positive maximum: the weight loops can divide by it. */
  lemma TallyOfPositive(s: seq<string>)
    ensures TallyOf(s).order == [] || MaxCount(TallyOf(s)) > 0
  {
    TallyOfShape(s);
  }

  /** The maximum of the dictionary built by `s` is the largest multiplicity of a key of `s`. */
  lemma TallyOfMax(s: seq<string>)
    ensures forall k :: k in s ==> multiset(s)[k] <= MaxCount(TallyOf(s))
    ensures s != [] ==> exists k :: k in s && multiset(s)[k] == MaxCount(TallyOf(s))
  {
    TallyOfShape(s);
    var t := TallyOf(s);
    forall k | k in s ensures multiset(s)[k] <= MaxCount(t) {
      assert k in multiset(s);
    }
    if s != [] {
      var k :| k in t.order && t.counts[k] == MaxCount(t);
      assert k in multiset(s);
    }
  }

  /** The sum of the counts over the keys. */
  function SumCounts(order: seq<string>, counts: multiset<string>): nat {
    if order == [] then 0 else counts[order[0]] + SumCounts(order[1..], counts)
  }

  lemma {:induction false} SumCountsFrame(order: seq<string>, a: multiset<string>, b: multiset<string>)
    requires forall k :: k in order ==> a[k] == b[k]
    ensures SumCounts(order, a) == SumCounts(order, b)
  {
    if order != [] {
      SumCountsFrame(order[1..], a, b);
    }
  }

  /** Summing the counts of a valid dictionary over its keys counts every increment once. */
  lemma {:induction false} SumCountsIsSize(order: seq<string>, counts: multiset<string>)
    requires forall i, j :: 0 <= i < j < |order| ==> order[i] != order[j]
    requires forall k :: k in counts <==> k in order
    ensures SumCounts(order, counts) == |counts|
  {
    if order == [] {
      assert forall k :: counts[k] == 0;
      assert counts == multiset{};
    } else {
      var k := order[0];
      var rest := counts[k := 0];
      forall x | x in order[1..] ensures rest[x] == counts[x] {
        var j :| 0 <= j < |order[1..]| && order[1..][j] == x;
        assert order[j + 1] == x;
      }
      SumCountsFrame(order[1..], rest, counts);
      forall x ensures x in rest <==> x in order[1..] {
        if x in order[1..] {
          var j :| 0 <= j < |order[1..]| && order[1..][j] == x;
          assert order[j + 1] == x;
        }
      }
      assert forall i, j :: 0 <= i < j < |order[1..]| ==> order[1..][i] != order[1..][j] by {
        forall i, j | 0 <= i < j < |order[1..]| ensures order[1..][i] != order[1..][j] {
          assert order[1..][i] == order[i + 1] && order[1..][j] == order[j + 1];
        }
      }
      SumCountsIsSize(order[1..], rest);
      assert counts == rest + multiset{}[k := counts[k]];
    }
  }

  /** The keys in insertion order, each with its count as a sort score. */
  function Created(t: Tally): (r: seq<Scored<string>>)
    ensures |r| == |t.order|
    ensures forall i :: 0 <= i < |r| ==> r[i] == Scored(t.order[i], t.counts[t.order[i]] as real)
  {
    seq(|t.order|, i requires 0 <= i < |t.order| => Scored(t.order[i], t.counts[t.order[i]] as real))
  }

  /** Entries drawn from the keys in insertion order are listed keys carrying their counts. */
  lemma DrawnCreated(t: Tally, r: seq<Scored<string>>)
    requires multiset(r) <= multiset(Created(t))
    ensures forall i :: 0 <= i < |r| ==> r[i].item in t.order && r[i].score == t.counts[r[i].item] as real
  {
    forall i | 0 <= i < |r| ensures r[i].item in t.order && r[i].score == t.counts[r[i].item] as real {
      assert r[i] in multiset(r);
      assert r[i] in Created(t);
      var m :| 0 <= m < |Created(t)| && Created(t)[m] == r[i];
    }
  }

  /**
   * `Object.entries(dict)` with each count as a sort score: the same entries
   * as in insertion order, listed as the object lists its keys.
   */
  function Entries(t: Tally): (r: seq<Scored<string>>)
    ensures |r| == |t.order|
    ensures multiset(r) == multiset(Created(t))
  {
    ObjectOrder(Created(t))
  }

  /** The keys as `Object.entries` lists them. */
  function Listed(t: Tally): (r: seq<string>)
    ensures |r| == |t.order|
    ensures forall i :: 0 <= i < |r| ==> r[i] == Entries(t)[i].item
  {
    seq(|t.order|, i requires 0 <= i < |t.order| => Entries(t)[i].item)
  }

  /** A listed key's entry sits somewhere in `Object.entries`. */
  lemma EntryOf(t: Tally, k: string) returns (m: nat)
    requires k in t.order
    ensures m < |t.order| && Entries(t)[m] == Scored(k, t.counts[k] as real)
  {
    var c :| 0 <= c < |t.order| && t.order[c] == k;
    var e := Created(t)[c];
    assert e in multiset(Created(t));
    assert e in multiset(Entries(t));
    m :| 0 <= m < |t.order| && Entries(t)[m] == e;
  }

  /** The entries of a valid dictionary list every key once. */
  lemma EntriesDistinct(t: Tally)
    requires t.Valid()
    ensures Distinct(Entries(t))
  {
    var c := Created(t);
    forall i, j | 0 <= i < j < |c| ensures c[i] != c[j] {
      assert c[i].item == t.order[i] && c[j].item == t.order[j];
    }
    PermutationDistinct(c, Entries(t));
  }

  /** `Object.entries` lists exactly the keys of the dictionary, each once when it is valid. */
  lemma ListedKeys(t: Tally)
    ensures forall k :: k in Listed(t) <==> k in t.order
    ensures t.Valid() ==> Distinct(Listed(t))
  {
    ItemsOf(t, Entries(t), Listed(t));
    if t.Valid() {
      EntriesDistinct(t);
      ItemsDistinct(t, Entries(t), Listed(t));
    }
  }

  /** The keys of a rearrangement of the entries are the keys of the dictionary. */
  lemma ItemsOf(t: Tally, s: seq<Scored<string>>, l: seq<string>)
    requires multiset(s) == multiset(Created(t))
    requires |l| == |s| && forall i :: 0 <= i < |l| ==> l[i] == s[i].item
    ensures forall k :: k in l <==> k in t.order
  {
    DrawnCreated(t, s);
    forall k | k in t.order ensures k in l {
      var c :| 0 <= c < |t.order| && t.order[c] == k;
      assert Created(t)[c] in multiset(s);
      var m :| 0 <= m < |s| && s[m] == Created(t)[c];
      assert l[m] == k;
    }
  }

  /** Distinct entries of a valid dictionary have distinct keys: the count is a function of the key. */
  lemma ItemsDistinct(t: Tally, s: seq<Scored<string>>, l: seq<string>)
    requires multiset(s) == multiset(Created(t)) && Distinct(s)
    requires |l| == |s| && forall i :: 0 <= i < |l| ==> l[i] == s[i].item
    ensures Distinct(l)
  {
    DrawnCreated(t, s);
    forall i, j | 0 <= i < j < |l| ensures l[i] != l[j] {
      assert s[i] != s[j];
    }
  }

  /**
   * The order of `Object.entries`: array-index keys before all others and
   * ascending, the other keys in insertion order, and insertion order
   * throughout when no key is an array index.
   */
  lemma ListedOrder(t: Tally)
    ensures IndicesFirst(Entries(t))
    ensures OtherPart(Entries(t)) == OtherPart(Created(t))
    ensures (forall k :: k in t.order ==> !IsArrayIndex(k)) ==> Listed(t) == t.order
  {
    ObjectOrderIndicesFirst(Created(t));
    ObjectOrderOthers(Created(t));
    if forall k :: k in t.order ==> !IsArrayIndex(k) {
      assert forall i :: 0 <= i < |Created(t)| ==> Created(t)[i].item == t.order[i];
    }
  }

  /** An entry drawn from the entries is a listed key carrying its count. */
  lemma DrawnEntry(t: Tally, r: seq<Scored<string>>, i: nat)
    requires multiset(r) <= multiset(Entries(t)) && i < |r|
    ensures r[i].item in t.order && r[i].score == t.counts[r[i].item] as real
  {
    DrawnCreated(t, r);
  }

  /** A listed key's entry sits somewhere in any sort of the same entries. */
  lemma SortedEntryIn(t: Tally, s: seq<Scored<string>>, k: string) returns (q: nat)
    requires multiset(s) == multiset(Created(t)) && k in t.order
    ensures q < |s| && SortDescending(s)[q] == Scored(k, t.counts[k] as real)
  {
    var c :| 0 <= c < |t.order| && t.order[c] == k;
    var e := Created(t)[c];
    assert e in multiset(Created(t));
    assert e in multiset(SortDescending(s));
    q :| 0 <= q < |s| && SortDescending(s)[q] == e;
  }

  /** A listed key's entry sits somewhere in the sorted entries. */
  lemma SortedEntryOf(t: Tally, k: string) returns (q: nat)
    requires k in t.order
    ensures q < |t.order| && SortDescending(Entries(t))[q] == Scored(k, t.counts[k] as real)
  {
    q := SortedEntryIn(t, Entries(t), k);
  }

  /** The first `k` entries by count (`.sort(...).slice(0, k)`) are listed keys with their counts. */
  lemma TopItems(t: Tally, k: nat)
    ensures var top := Top(Entries(t), k);
      forall i :: 0 <= i < |top| ==> top[i].item in t.order && top[i].score == t.counts[top[i].item] as real
  {
    var top := Top(Entries(t), k);
    TopDominates(Entries(t), k);
    forall i | 0 <= i < |top| ensures top[i].item in t.order && top[i].score == t.counts[top[i].item] as real {
      DrawnEntry(t, top, i);
    }
  }

  /** The first `k` entries by count come in non-increasing count order, each key at most once. */
  lemma TopOrdered(t: Tally, k: nat)
    requires t.Valid()
    ensures var top := Top(Entries(t), k);
      forall i, j :: 0 <= i < j < |top| ==> t.counts[top[i].item] >= t.counts[top[j].item] && top[i].item != top[j].item
  {
    EntriesDistinct(t);
    TopOrderedIn(t, Entries(t), k);
  }

  /** `TopOrdered` for any listing of the entries that names no key twice. */
  lemma TopOrderedIn(t: Tally, s: seq<Scored<string>>, k: nat)
    requires multiset(s) == multiset(Created(t)) && Distinct(s)
    ensures var top := Top(s, k);
      forall i, j :: 0 <= i < j < |top| ==> t.counts[top[i].item] >= t.counts[top[j].item] && top[i].item != top[j].item
  {
    var sorted := SortDescending(s);
    var top := Top(s, k);
    TopDominates(s, k);
    DrawnCreated(t, top);
    PermutationDistinct(s, sorted);
    assert forall i :: 0 <= i < |top| ==> top[i] == sorted[i];
  }

  /**
   * No key left out of the first `k` entries counts more than a key kept,
   * and fewer than `k` are kept only when every key is.
   */
  lemma TopKeepsMostFrequent(t: Tally, k: nat)
    ensures var top := Top(Entries(t), k);
      forall x :: x in t.order && (forall i :: 0 <= i < |top| ==> top[i].item != x) ==>
        |top| == k && forall i :: 0 <= i < k ==> t.counts[x] <= t.counts[top[i].item]
  {
    var top := Top(Entries(t), k);
    forall x | x in t.order && (forall i :: 0 <= i < |top| ==> top[i].item != x)
      ensures |top| == k && forall i :: 0 <= i < k ==> t.counts[x] <= t.counts[top[i].item]
    {
      LeftOutBelow(t, Entries(t), k, x);
    }
  }

  /** A key left out of the first `k` entries by count leaves `k` kept, none counting less than it. */
  lemma LeftOutBelow(t: Tally, s: seq<Scored<string>>, k: nat, x: string)
    requires multiset(s) == multiset(Created(t)) && x in t.order
    requires forall i :: 0 <= i < |Top(s, k)| ==> Top(s, k)[i].item != x
    ensures |Top(s, k)| == k
    ensures forall i :: 0 <= i < k ==> t.counts[x] <= t.counts[Top(s, k)[i].item]
  {
    var sorted := SortDescending(s);
    var top := Top(s, k);
    assert forall i :: 0 <= i < |top| ==> top[i] == sorted[i];
    var q := SortedEntryIn(t, s, x);
    assert q >= |top|;
    TopDominates(s, k);
    DrawnCreated(t, sorted);
    forall i | 0 <= i < k ensures t.counts[x] <= t.counts[top[i].item] {
      assert top[i] == sorted[i];
      assert sorted[i].score >= sorted[q].score;
    }
  }

  /**
   * The head of the entries sorted by count (`.sort(...)[0]`): a key of the
   * largest count, and among those the one `Object.entries` lists first.
   */
  lemma SortedHead(t: Tally)
    requires t.order != []
    ensures var name := SortDescending(Entries(t))[0].item;
      && name in t.order
      && (forall k :: k in t.order ==> t.counts[k] <= t.counts[name])
      && exists i :: 0 <= i < |Listed(t)| && Listed(t)[i] == name && forall j :: 0 <= j < i ==> t.counts[Listed(t)[j]] < t.counts[name]
  {
    var s := Entries(t);
    DrawnCreated(t, s);
    HeadIsFirstMax(s);
    var i := FirstMax(s);
    var name := s[i].item;
    assert SortDescending(s)[0].item == name;
    forall k | k in t.order ensures t.counts[k] <= t.counts[name] {
      var m := EntryOf(t, k);
      assert s[m].score <= s[i].score;
    }
    forall j | 0 <= j < i ensures t.counts[Listed(t)[j]] < t.counts[name] {
      assert s[j].score < s[i].score;
    }
    assert Listed(t)[i] == name;
  }

  /**
   * `Object.fromEntries(Object.entries(dict).sort(...))`: every entry, the
   * array-index keys first and ascending, the other keys most frequent first.
   */
  lemma SortedObject(t: Tally)
    ensures var r := ObjectOrder(SortDescending(Entries(t)));
      multiset(r) == multiset(Entries(t)) && IndicesFirst(r) && Descending(OtherPart(r))
  {
    SortIsDescending(Entries(t));
    FromSortedEntries(SortDescending(Entries(t)));
  }

  /**
   * `Object.fromEntries(Object.entries(dict).sort(...).slice(0, k))`: at most
   * `k` of the entries, the array-index keys first and ascending, the other
   * keys most frequent first.
   */
  lemma TopObject(t: Tally, k: nat)
    ensures var r := ObjectOrder(Top(Entries(t), k));
      |r| <= k && multiset(r) <= multiset(Entries(t)) && IndicesFirst(r) && Descending(OtherPart(r))
  {
    TopDominates(Entries(t), k);
    FromSortedEntries(Top(Entries(t), k));
  }
}
