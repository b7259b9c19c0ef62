/**
 * The key under which the analyzer counts a pair of players:
 * `[id1, id2].sort().join('-')`, with the ids compared as strings.
 */
module PairKeys {
  import DT = DataTransformer

  /** `String(i)`. */
  function IntString(i: int): string {
    if i < 0 then "-" + DT.DecimalString(-i) else DT.DecimalString(i)
  }

  /** String comparison `a < b` (code unit by code unit). */
  predicate LexLess(a: string, b: string) {
    if b == [] then false
    else if a == [] then true
    else if a[0] != b[0] then a[0] < b[0]
    else LexLess(a[1..], b[1..])
  }

  lemma {:induction false} LexTotal(a: string, b: string)
    ensures a != b ==> LexLess(a, b) || LexLess(b, a)
    ensures !(LexLess(a, b) && LexLess(b, a))
  {
    if a != [] && b != [] && a[0] == b[0] {
      LexTotal(a[1..], b[1..]);
      if a != b {
        assert a == [a[0]] + a[1..] && b == [b[0]] + b[1..];
      }
    }
  }

  /** `[id1, id2].sort().join('-')`: the default sort compares the ids as strings. */
  function PairKey(id1: int, id2: int): string {
    var s1, s2 := IntString(id1), IntString(id2);
    if LexLess(s2, s1) then s2 + "-" + s1 else s1 + "-" + s2
  }

  /** The key of a pair does not depend on which player comes first. */
  lemma PairKeySymmetric(a: int, b: int)
    ensures PairKey(a, b) == PairKey(b, a)
  {
    LexTotal(IntString(a), IntString(b));
  }

  /** The order is lexicographic, not numeric: players 9 and 10 give "10-9". */
  lemma PairKeyLexicographic()
    ensures PairKey(9, 10) == "10-9" && PairKey(10, 9) == "10-9"
  {
    assert DT.DecimalString(10) == DT.DecimalString(1) + [DT.DigitChar(0)];
    assert DT.DigitChar(1) == '1' && DT.DigitChar(0) == '0' && DT.DigitChar(9) == '9';
    assert IntString(10) == "10";
    assert IntString(9) == "9";
    assert LexLess("10", "9");
  }
}
