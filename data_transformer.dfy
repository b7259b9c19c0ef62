/**
 * `transformRawData`: each tab-separated line of the raw draw file becomes a
 * 12-digit record string, two zero-padded digits per number, or is skipped.
 * The file is given as its lines (the read and the split on newlines are not
 * part of this model).
 */
module DataTransformer {
  import opened Wrappers

  /** A record of the transformed data: `{ numberString }`. */
  datatype RawResult = RawResult(numberString: string)

  // ---------------------------------------------------------------------------
  // The JavaScript string primitives the line parser relies on
  // ---------------------------------------------------------------------------

  /** ECMAScript WhiteSpace and LineTerminator code points: what `trim` and `parseInt` skip. */
  predicate IsSpace(c: char) {
    || c in {'\t', '\n', '\U{000B}', '\U{000C}', '\r', ' ', '\U{00A0}', '\U{1680}'}
    || c in {'\U{2028}', '\U{2029}', '\U{202F}', '\U{205F}', '\U{3000}', '\U{FEFF}'}
    || ('\U{2000}' <= c <= '\U{200A}')
  }

  /** `String.prototype.trimStart`. */
  function TrimStart(s: string): (r: string)
    ensures |r| <= |s| && r == s[|s| - |r|..]
    ensures r == [] || !IsSpace(r[0])
    ensures forall k :: 0 <= k < |s| - |r| ==> IsSpace(s[k])
  {
    if s == [] || !IsSpace(s[0]) then s else TrimStart(s[1..])
  }

  /** `String.prototype.trimEnd`. */
  function TrimEnd(s: string): (r: string)
    ensures |r| <= |s| && r == s[..|r|]
    ensures r == [] || !IsSpace(r[|r| - 1])
    ensures forall k :: |r| <= k < |s| ==> IsSpace(s[k])
  {
    if s == [] || !IsSpace(s[|s| - 1]) then s else TrimEnd(s[..|s| - 1])
  }

  /** `String.prototype.trim`. */
  function Trim(s: string): string {
    TrimEnd(TrimStart(s))
  }

  /** A string is blank (`!line.trim()`) exactly when every character is white space. */
  lemma {:induction false} TrimEmptyIffBlank(s: string)
    ensures Trim(s) == [] <==> forall k :: 0 <= k < |s| ==> IsSpace(s[k])
  {
    var t := TrimStart(s);
    if Trim(s) != [] {
      var r := Trim(s);
      assert r == TrimEnd(t);
      assert |t| >= |r| > 0;
      assert r[0] == t[0];
      var k := |s| - |t|;
      assert t[0] == s[k];
      assert !IsSpace(s[k]);
    }
  }

  /** `str.split(sep)` with a one-character separator. */
  function Split(s: string, sep: char): (r: seq<string>)
    ensures |r| >= 1
    ensures forall k :: 0 <= k < |r| ==> sep !in r[k]
  {
    if s == [] then [[]]
    else
      var rest := Split(s[1..], sep);
      if s[0] == sep then [[]] + rest else [[s[0]] + rest[0]] + rest[1..]
  }

  /** `parts.join(sep)`: the inverse of `Split`. */
  function Join(parts: seq<string>, sep: char): string
    requires |parts| >= 1
  {
    if |parts| == 1 then parts[0] else parts[0] + [sep] + Join(parts[1..], sep)
  }

  /** Splitting and joining on the same separator gives back the line. */
  lemma {:induction false} JoinSplit(s: string, sep: char)
    ensures Join(Split(s, sep), sep) == s
  {
    if s != [] {
      var rest := Split(s[1..], sep);
      JoinSplit(s[1..], sep);
      if s[0] != sep {
        if |rest| == 1 {
        } else {
          assert ([[s[0]] + rest[0]] + rest[1..])[1..] == rest[1..];
        }
      } else {
        assert ([[]] + rest)[1..] == rest;
      }
    }
  }

  predicate IsDigit(c: char) { '0' <= c <= '9' }

  predicate IsHexDigit(c: char) { IsDigit(c) || 'a' <= c <= 'f' || 'A' <= c <= 'F' }

  function HexDigitValue(c: char): (v: nat)
    requires IsHexDigit(c)
    ensures v < 16
  {
    if IsDigit(c) then c as int - '0' as int
    else if 'a' <= c <= 'f' then c as int - 'a' as int + 10
    else c as int - 'A' as int + 10
  }

  /** The longest prefix whose characters satisfy the digit test of the radix. */
  function DigitPrefix(s: string, hex: bool): (r: string)
    ensures |r| <= |s| && r == s[..|r|]
    ensures forall k :: 0 <= k < |r| ==> if hex then IsHexDigit(r[k]) else IsDigit(r[k])
  {
    if s == [] || !(if hex then IsHexDigit(s[0]) else IsDigit(s[0])) then []
    else [s[0]] + DigitPrefix(s[1..], hex)
  }

  /** The value of a digit string in radix 10 or 16, most significant digit first. */
  function Value(ds: string, hex: bool): nat
    requires forall k :: 0 <= k < |ds| ==> IsHexDigit(ds[k])
  {
    if ds == [] then 0
    else Value(ds[..|ds| - 1], hex) * (if hex then 16 else 10) + HexDigitValue(ds[|ds| - 1])
  }

  /**
   * `parseInt(s)` with no radix: leading white space, an optional sign, a `0x`
   * prefix selecting radix 16, then the longest run of digits; `NaN` (None)
   * when that run is empty. Trailing characters are ignored.
   */
  function ParseInt(s: string): (r: Option<int>)
  {
    var t := TrimStart(s);
    var negative := |t| > 0 && t[0] == '-';
    var unsigned := if |t| > 0 && (t[0] == '-' || t[0] == '+') then t[1..] else t;
    var hex := |unsigned| >= 2 && unsigned[0] == '0' && (unsigned[1] == 'x' || unsigned[1] == 'X');
    var body := if hex then unsigned[2..] else unsigned;
    var ds := DigitPrefix(body, hex);
    if ds == [] then None
    else
      var v := Value(ds, hex);
      Some(if negative then -(v as int) else v)
  }

  /** `.map(n => n.trim()).map(n => parseInt(n)).filter(n => !isNaN(n))`. */
  function ParseFields(parts: seq<string>): (ns: seq<int>)
    ensures |ns| <= |parts|
  {
    if parts == [] then []
    else
      var v := ParseInt(Trim(parts[0]));
      (if v.Some? then [v.value] else []) + ParseFields(parts[1..])
  }

  /** The numbers of one line: its tab-separated fields that parse as integers, in order. */
  function Fields(line: string): seq<int> {
    ParseFields(Split(line, '\t'))
  }

  // ---------------------------------------------------------------------------
  // Validation and padding
  // ---------------------------------------------------------------------------

  /** Six numbers: five players in 1..47 and a goalie in 1..10. */
  predicate InRange(ns: seq<int>) {
    && |ns| == 6
    && (forall k :: 0 <= k < 5 ==> 1 <= ns[k] <= 47)
    && 1 <= ns[5] <= 10
  }

  function DigitChar(d: nat): (c: char)
    requires d < 10
    ensures IsDigit(c) && HexDigitValue(c) == d
  {
    ('0' as int + d) as char
  }

  /** `n.toString()` for a non-negative integer. */
  function DecimalString(n: nat): (s: string)
    ensures |s| >= 1
    ensures n < 10 <==> |s| == 1
  {
    if n < 10 then [DigitChar(n)] else DecimalString(n / 10) + [DigitChar(n % 10)]
  }

  /** `toString` writes decimal digits only. */
  lemma {:induction false} DecimalDigits(n: nat)
    ensures forall k :: 0 <= k < |DecimalString(n)| ==> IsDigit(DecimalString(n)[k])
  {
    if n >= 10 {
      DecimalDigits(n / 10);
    }
  }

  /** `n.toString().padStart(2, '0')`. */
  function Pad2(n: nat): string {
    var s := DecimalString(n);
    if |s| < 2 then "0" + s else s
  }

  /** Two digits spell a number below 100, and read back as it. */
  lemma Pad2Digits(n: nat)
    requires n < 100
    ensures |Pad2(n)| == 2 && IsDigit(Pad2(n)[0]) && IsDigit(Pad2(n)[1])
    ensures Value(Pad2(n), false) == n
  {
    var p := Pad2(n);
    if n < 10 {
      assert p == ['0', DigitChar(n)];
      assert p[..1] == ['0'];
      assert p[..1][..0] == [];
      assert Value(p[..1], false) == 0;
    } else {
      assert DecimalString(n / 10) == [DigitChar(n / 10)];
      assert p == [DigitChar(n / 10), DigitChar(n % 10)];
      assert p[..1] == [DigitChar(n / 10)];
      assert p[..1][..0] == [];
      assert Value(p[..1], false) == n / 10;
    }
  }

  /** `numbers.map(n => n.toString().padStart(2, '0')).join('')`. */
  function Pad(ns: seq<nat>): string {
    if ns == [] then [] else Pad2(ns[0]) + Pad(ns[1..])
  }

  /** Padding numbers below 100 takes two digits each, and each pair reads back as its number. */
  lemma {:induction false} PadShape(ns: seq<nat>)
    requires forall k :: 0 <= k < |ns| ==> ns[k] < 100
    ensures |Pad(ns)| == 2 * |ns|
    ensures forall k :: 0 <= k < 2 * |ns| ==> IsDigit(Pad(ns)[k])
    ensures forall k :: 0 <= k < |ns| ==> Pad(ns)[2 * k..2 * k + 2] == Pad2(ns[k])
  {
    if ns != [] {
      Pad2Digits(ns[0]);
      PadShape(ns[1..]);
      var p := Pad(ns);
      assert p == Pad2(ns[0]) + Pad(ns[1..]);
      forall k | 0 <= k < |ns| ensures p[2 * k..2 * k + 2] == Pad2(ns[k]) {
        if k > 0 {
          assert p[2 * k..2 * k + 2] == Pad(ns[1..])[2 * (k - 1)..2 * (k - 1) + 2];
        }
      }
    }
  }

  /** The numbers of a line that passed the range check, as naturals. */
  function Naturals(ns: seq<int>): (r: seq<nat>)
    requires InRange(ns)
    ensures |r| == 6 && forall k :: 0 <= k < 6 ==> r[k] == ns[k]
  {
    seq(6, k requires 0 <= k < 6 => ns[k] as nat)
  }

  /**
   * What one line contributes: nothing when it is blank, when it does not hold
   * exactly six integers, or when they are out of range; otherwise its record.
   */
  function LineRecord(line: string): (r: Option<RawResult>)
    ensures r.Some? <==> Trim(line) != [] && InRange(Fields(line))
  {
    if Trim(line) == [] then None
    else
      var numbers := Fields(line);
      if !InRange(numbers) then None else Some(RawResult(Pad(Naturals(numbers))))
  }

  /** Twelve decimal digits: the shape of a record's number string. */
  predicate TwelveDigits(s: string) {
    |s| == 12 && forall k :: 0 <= k < 12 ==> IsDigit(s[k])
  }

  /** The number spelled by the `k`-th pair of digits. */
  function PairValue(s: string, k: nat): nat
    requires TwelveDigits(s) && k < 6
  {
    Value(s[2 * k..2 * k + 2], false)
  }

  /**
   * An accepted line yields twelve digits, and the k-th pair of digits reads back
   * as the line's k-th number.
   */
  lemma RecordDigits(line: string)
    requires LineRecord(line).Some?
    ensures TwelveDigits(LineRecord(line).value.numberString)
    ensures forall k :: 0 <= k < 6 ==> PairValue(LineRecord(line).value.numberString, k) == Fields(line)[k]
  {
    PaddedDigits(Fields(line));
  }

  lemma PaddedDigits(ns: seq<int>)
    requires InRange(ns)
    ensures TwelveDigits(Pad(Naturals(ns)))
    ensures forall k :: 0 <= k < 6 ==> PairValue(Pad(Naturals(ns)), k) == ns[k]
  {
    var nat6 := Naturals(ns);
    var digits := Pad(nat6);
    PadShape(nat6);
    forall k | 0 <= k < 6 ensures PairValue(digits, k) == ns[k] {
      Pad2Digits(nat6[k]);
      assert digits[2 * k..2 * k + 2] == Pad2(nat6[k]);
    }
  }

  /** The values `f` gives the elements of `s`, in order, leaving out those it maps to `None`. */
  function Kept<T, U>(f: T -> Option<U>, s: seq<T>): (r: seq<U>)
    ensures |r| <= |s|
  {
    if s == [] then []
    else (if f(s[0]).Some? then [f(s[0]).value] else []) + Kept(f, s[1..])
  }

  lemma {:induction false} KeptAppend<T, U>(f: T -> Option<U>, a: seq<T>, b: seq<T>)
    ensures Kept(f, a + b) == Kept(f, a) + Kept(f, b)
  {
    if a != [] {
      assert (a + b)[1..] == a[1..] + b;
      assert (a + b)[0] == a[0];
      KeptAppend(f, a[1..], b);
    } else {
      assert a + b == b;
    }
  }

  /** The records of the lines in file order. */
  function Records(lines: seq<string>): (rs: seq<RawResult>)
    ensures |rs| <= |lines|
  {
    Kept(LineRecord, lines)
  }

  function Reverse<T>(s: seq<T>): (r: seq<T>)
    ensures |r| == |s|
  {
    if s == [] then [] else Reverse(s[1..]) + [s[0]]
  }

  lemma {:induction false} ReverseAppend<T>(a: seq<T>, b: seq<T>)
    ensures Reverse(a + b) == Reverse(b) + Reverse(a)
  {
    if a != [] {
      assert (a + b)[1..] == a[1..] + b;
      ReverseAppend(a[1..], b);
    } else {
      assert a + b == b;
    }
  }

  lemma RecordsAppend(a: seq<string>, b: seq<string>)
    ensures Records(a + b) == Records(a) + Records(b)
  {
    KeptAppend(LineRecord, a, b);
  }

  /**
   * `transformRawData` over the file's lines: walks them from the last to the
   * first, so the results are the records of the lines in reverse file order.
   */
  method TransformRawData(lines: seq<string>) returns (results: seq<RawResult>)
    ensures results == Reverse(Records(lines))
  {
    results := [];
    var i := |lines|;
    while i > 0
      invariant 0 <= i <= |lines|
      invariant results == Reverse(Records(lines[i..]))
    {
      i := i - 1;
      var line := lines[i];
      assert lines[i..] == [line] + lines[i + 1..];
      ghost var contributed := if LineRecord(line).Some? then [LineRecord(line).value] else [];
      assert Records(lines[i..]) == contributed + Records(lines[i + 1..]);
      ReverseAppend(contributed, Records(lines[i + 1..]));
      if Trim(line) == [] {
        continue;
      }
      var numbers := Fields(line);
      if |numbers| != 6 {
        continue;
      }
      var validPlayers := forall k :: 0 <= k < 5 ==> 1 <= numbers[k] <= 47;
      var validGoalie := 1 <= numbers[5] <= 10;
      if !validPlayers || !validGoalie {
        continue;
      }
      var numberString := Pad(Naturals(numbers));
      results := results + [RawResult(numberString)];
    }
    assert lines[0..] == lines;
  }

  /** The number of records never exceeds the number of lines, and each is twelve digits. */
  lemma {:induction false} RecordsWellShaped(lines: seq<string>)
    ensures |Reverse(Records(lines))| <= |lines|
    ensures forall r :: r in Records(lines) ==> |r.numberString| == 12
  {
    if lines != [] {
      RecordsWellShaped(lines[1..]);
      if LineRecord(lines[0]).Some? {
        RecordDigits(lines[0]);
      }
    }
  }

  /** The last line of the file, when it is valid, gives the first result. */
  lemma LastValidLineFirst(lines: seq<string>)
    requires |lines| > 0 && LineRecord(lines[|lines| - 1]).Some?
    ensures |Reverse(Records(lines))| > 0 && Reverse(Records(lines))[0] == LineRecord(lines[|lines| - 1]).value
  {
    var n := |lines|;
    KeptLast(LineRecord, lines);
    ReverseSnoc(Records(lines[..n - 1]), LineRecord(lines[n - 1]).value);
  }

  /** An element `f` keeps, placed last, contributes the last value. */
  lemma KeptLast<T, U>(f: T -> Option<U>, s: seq<T>)
    requires s != [] && f(s[|s| - 1]).Some?
    ensures Kept(f, s) == Kept(f, s[..|s| - 1]) + [f(s[|s| - 1]).value]
  {
    var n := |s|;
    assert s == s[..n - 1] + [s[n - 1]];
    KeptAppend(f, s[..n - 1], [s[n - 1]]);
    assert [s[n - 1]][1..] == [];
  }

  lemma ReverseSnoc<T>(a: seq<T>, x: T)
    ensures Reverse(a + [x]) == [x] + Reverse(a)
  {
    ReverseAppend(a, [x]);
    assert Reverse([x]) == [x] by {
      assert [x][1..] == [];
    }
  }
}
