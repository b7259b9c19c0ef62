/**
 * `entries.sort((a, b) => b.score - a.score)`: JavaScript's `Array.prototype.sort`
 * is stable, so this orders by descending score and keeps the original order
 * among equal scores. Both the frequency prediction of the analyzer and the
 * per-slot ranking of the predictor take a prefix of such a sort.
 */
module StableSort {

  datatype Scored<T> = Scored(item: T, score: real)

  /** Non-increasing scores. */
  predicate Descending<T>(s: seq<Scored<T>>) {
    forall i, j :: 0 <= i < j < |s| ==> s[i].score >= s[j].score
  }

  /** Puts `e` in front of the first entry that does not score strictly more than it. */
  function Insert<T>(e: Scored<T>, s: seq<Scored<T>>): (r: seq<Scored<T>>)
    ensures |r| == |s| + 1
    ensures multiset(r) == multiset(s) + multiset{e}
  {
    if s == [] then [e]
    else if s[0].score <= e.score then [e] + s
    else
      assert s == [s[0]] + s[1..];
      [s[0]] + Insert(e, s[1..])
  }

  /** Insertion sort from the back: an earlier entry goes before later entries of equal score. */
  function SortDescending<T>(s: seq<Scored<T>>): (r: seq<Scored<T>>)
    ensures |r| == |s|
    ensures multiset(r) == multiset(s)
  {
    if s == [] then []
    else
      assert s == [s[0]] + s[1..];
      Insert(s[0], SortDescending(s[1..]))
  }

  /** The first `k` entries of the sorted order, as `.slice(0, k)` gives them. */
  function Top<T>(s: seq<Scored<T>>, k: nat): (r: seq<Scored<T>>)
    ensures |r| == if k <= |s| then k else |s|
  {
    var sorted := SortDescending(s);
    if k <= |sorted| then sorted[..k] else sorted
  }

  /** The index of the first entry whose score is maximal: the reference for "ties go to the earliest". */
  function FirstMax<T>(s: seq<Scored<T>>): (i: nat)
    requires |s| > 0
    ensures i < |s|
    ensures forall j :: 0 <= j < |s| ==> s[j].score <= s[i].score
    ensures forall j :: 0 <= j < i ==> s[j].score < s[i].score
  {
    if |s| == 1 then 0
    else
      var j := FirstMax(s[1..]) + 1;
      if s[0].score >= s[j].score then 0 else j
  }

  lemma {:induction false} InsertDescending<T>(e: Scored<T>, s: seq<Scored<T>>)
    requires Descending(s)
    ensures Descending(Insert(e, s))
  {
    if s != [] && s[0].score > e.score {
      InsertDescending(e, s[1..]);
      var r := Insert(e, s[1..]);
      forall x | x in r ensures x.score <= s[0].score {
        assert x in multiset(r);
        if x != e {
          assert x in multiset(s[1..]);
        }
      }
      forall i, j | 0 <= i < j < |[s[0]] + r|
        ensures ([s[0]] + r)[i].score >= ([s[0]] + r)[j].score
      {
        if i == 0 {
          assert ([s[0]] + r)[j] == r[j - 1];
          assert r[j - 1] in r;
        }
      }
    }
  }

  /** The sort yields a descending arrangement of the input. */
  lemma {:induction false} SortIsDescending<T>(s: seq<Scored<T>>)
    ensures Descending(SortDescending(s))
  {
    if s != [] {
      SortIsDescending(s[1..]);
      InsertDescending(s[0], SortDescending(s[1..]));
    }
  }

  /** Stability at the head: the first sorted entry is the earliest entry of maximal score. */
  lemma {:induction false} HeadIsFirstMax<T>(s: seq<Scored<T>>)
    requires |s| > 0
    ensures SortDescending(s)[0] == s[FirstMax(s)]
  {
    if |s| > 1 {
      HeadIsFirstMax(s[1..]);
      var rest := SortDescending(s[1..]);
      assert rest[0] == s[1..][FirstMax(s[1..])];
    }
  }

  /** The first entry `Top` keeps is the earliest entry of maximal score. */
  lemma TopHead<T>(s: seq<Scored<T>>, k: nat)
    requires 0 < k && |s| > 0
    ensures Top(s, k)[0] == s[FirstMax(s)]
  {
    HeadIsFirstMax(s);
  }

  /** Every entry kept by `Top` scores at least as much as every entry it drops. */
  lemma {:induction false} TopDominates<T>(s: seq<Scored<T>>, k: nat)
    ensures Descending(Top(s, k))
    ensures k <= |s| ==> forall i, j :: 0 <= i < k <= j < |s| ==> SortDescending(s)[i].score >= SortDescending(s)[j].score
    ensures multiset(Top(s, k)) <= multiset(s)
  {
    SortIsDescending(s);
    var sorted := SortDescending(s);
    if k <= |sorted| {
      var top := sorted[..k];
      assert Descending(top) by {
        forall i, j | 0 <= i < j < |top| ensures top[i].score >= top[j].score {
          assert top[i] == sorted[i] && top[j] == sorted[j];
        }
      }
      assert sorted == top + sorted[k..];
      assert multiset(sorted) == multiset(top) + multiset(sorted[k..]);
    }
  }

  /** No element occurs twice. */
  predicate Distinct<T(==)>(s: seq<T>) {
    forall i, j :: 0 <= i < j < |s| ==> s[i] != s[j]
  }

  lemma {:induction false} DistinctOnce<T>(s: seq<T>, x: T)
    requires Distinct(s)
    ensures multiset(s)[x] <= 1
  {
    if s != [] {
      assert s == [s[0]] + s[1..];
      assert Distinct(s[1..]) by {
        forall i, j | 0 <= i < j < |s[1..]| ensures s[1..][i] != s[1..][j] {
          assert s[1..][i] == s[i + 1] && s[1..][j] == s[j + 1];
        }
      }
      DistinctOnce(s[1..], x);
      if x == s[0] {
        assert x !in s[1..] by {
          forall k | 0 <= k < |s[1..]| ensures s[1..][k] != x {
            assert s[1..][k] == s[k + 1];
          }
        }
      }
    }
  }

  lemma RepeatTwice<T>(s: seq<T>, i: nat, j: nat)
    requires i < j < |s| && s[i] == s[j]
    ensures multiset(s)[s[i]] >= 2
  {
    assert s == s[..j] + [s[j]] + s[j + 1..];
    assert s[i] in s[..j];
  }

  /** A rearrangement of a sequence without repetitions has none either. */
  lemma PermutationDistinct<T>(s: seq<T>, r: seq<T>)
    requires Distinct(s) && multiset(r) == multiset(s)
    ensures Distinct(r)
  {
    forall i, j | 0 <= i < j < |r| ensures r[i] != r[j] {
      if r[i] == r[j] {
        RepeatTwice(r, i, j);
        DistinctOnce(s, r[i]);
      }
    }
  }
}
