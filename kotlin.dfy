/** The pieces of the Kotlin standard library that the app's logic relies on,
    each with the behaviour the Kotlin documentation gives it, plus the partner
    definitions (split, parse) used to state what they compute. */
module Kotlin {

  datatype Option<+T> = None | Some(value: T) {
    /** `x ?: default` */
    function GetOr(default: T): T {
      if Some? then value else default
    }
  }

  /** Kotlin's `Int`: a 32-bit two's-complement integer. */
  type Int32 = x: int | -0x8000_0000 <= x < 0x8000_0000

  const INT32_MAX: Int32 := 0x7fff_ffff
  const INT32_MIN: Int32 := -0x8000_0000

  /** `x++` on an `Int`: adds one, wrapping from the largest value to the smallest. */
  function Increment(x: Int32): (r: Int32)
    ensures r != x
    ensures x < INT32_MAX ==> r == x + 1
    ensures x == INT32_MAX ==> r == INT32_MIN
  {
    if x == INT32_MAX then INT32_MIN else x + 1
  }

  // ---------------------------------------------------------------------------
  // substringAfterLast

  /** Position of the last `c` in `s`, or -1 when `c` does not occur in `s`. */
  function LastIndexOf(s: string, c: char): (r: int)
    ensures -1 <= r < |s|
    ensures r >= 0 ==> s[r] == c
    ensures forall k :: r < k < |s| ==> s[k] != c
  {
    if |s| == 0 then -1
    else if s[|s| - 1] == c then |s| - 1
    else LastIndexOf(s[..|s| - 1], c)
  }

  predicate IsSuffix(a: string, b: string)
  {
    |a| <= |b| && a == b[|b| - |a|..]
  }

  /** `s.substringAfterLast(d)`: what follows the last `d`, or the whole of `s`
      when `d` does not occur. The four clauses pin the result down: it is the
      longest suffix of `s` free of `d`. */
  function SubstringAfterLast(s: string, d: char): (r: string)
    ensures d !in r
    ensures IsSuffix(r, s)
    ensures d !in s ==> r == s
    ensures d in s ==> s[|s| - |r| - 1] == d
  {
    var i := LastIndexOf(s, d);
    if i < 0 then s else s[i + 1..]
  }

  /** `urls.map { it.substringAfterLast("/") }` */
  function AfterLastSlashAll(urls: seq<string>): (r: seq<string>)
    ensures |r| == |urls|
    ensures forall i :: 0 <= i < |r| ==> r[i] == SubstringAfterLast(urls[i], '/')
  {
    seq(|urls|, i requires 0 <= i < |urls| => SubstringAfterLast(urls[i], '/'))
  }

  /** Stripping is idempotent: an already stripped list is left as it is. */
  lemma AfterLastSlashIdempotent(urls: seq<string>)
    ensures AfterLastSlashAll(AfterLastSlashAll(urls)) == AfterLastSlashAll(urls)
  {
    var once := AfterLastSlashAll(urls);
    forall i | 0 <= i < |once|
      ensures SubstringAfterLast(once[i], '/') == once[i]
    {
      assert '/' !in once[i];
    }
  }

  // ---------------------------------------------------------------------------
  // joinToString and its inverse

  /** `parts.joinToString(sep)` */
  function Join(parts: seq<string>, sep: char): string
  {
    if |parts| == 0 then ""
    else if |parts| == 1 then parts[0]
    else parts[0] + [sep] + Join(parts[1..], sep)
  }

  /** Splitting at every `sep`; the inverse of `Join` on separator-free parts. */
  function Split(s: string, sep: char): (r: seq<string>)
    ensures |r| >= 1
  {
    if |s| == 0 then [""]
    else
      var rest := Split(s[1..], sep);
      if s[0] == sep then [""] + rest else [[s[0]] + rest[0]] + rest[1..]
  }

  predicate FreeOf(parts: seq<string>, sep: char)
  {
    forall i :: 0 <= i < |parts| ==> sep !in parts[i]
  }

  lemma {:induction false} SplitWithoutSeparator(a: string, sep: char)
    requires sep !in a
    ensures Split(a, sep) == [a]
  {
    if |a| > 0 {
      SplitWithoutSeparator(a[1..], sep);
      assert [a[0]] + a[1..] == a;
    }
  }

  lemma {:induction false} SplitAtFirstSeparator(a: string, b: string, sep: char)
    requires sep !in a
    ensures Split(a + [sep] + b, sep) == [a] + Split(b, sep)
  {
    if |a| == 0 {
      assert a + [sep] + b == [sep] + b;
      assert ([sep] + b)[1..] == b;
    } else {
      SplitAtFirstSeparator(a[1..], b, sep);
      assert (a + [sep] + b)[1..] == a[1..] + [sep] + b;
      assert [a[0]] + a[1..] == a;
    }
  }

  /** Round trip: splitting a joined, non-empty list of separator-free parts gives the parts back. */
  lemma {:induction false} SplitJoin(parts: seq<string>, sep: char)
    requires |parts| >= 1 && FreeOf(parts, sep)
    ensures Split(Join(parts, sep), sep) == parts
  {
    if |parts| == 1 {
      SplitWithoutSeparator(parts[0], sep);
    } else {
      SplitJoin(parts[1..], sep);
      SplitAtFirstSeparator(parts[0], Join(parts[1..], sep), sep);
      assert [parts[0]] + parts[1..] == parts;
    }
  }

  // ---------------------------------------------------------------------------
  // Int.toString and its inverse

  function DigitChar(d: nat): (c: char)
    requires d < 10
    ensures '0' <= c <= '9'
  {
    (48 + d) as char
  }

  function DigitValue(c: char): (d: nat)
    requires '0' <= c <= '9'
    ensures d < 10
  {
    c as int - 48
  }

  predicate IsDigits(s: string)
  {
    forall i :: 0 <= i < |s| ==> '0' <= s[i] <= '9'
  }

  /** A decimal numeral as `toString` writes it: digits only, and no leading
      zero unless the numeral is "0" itself. */
  predicate CanonicalDigits(s: string)
  {
    |s| >= 1 && IsDigits(s) && (|s| == 1 || s[0] != '0')
  }

  /** An optionally signed numeral as `Int.toString` writes it: "-0" is not one. */
  predicate CanonicalInt(s: string)
  {
    CanonicalDigits(s) || (|s| >= 2 && s[0] == '-' && CanonicalDigits(s[1..]) && s[1] != '0')
  }

  /** Decimal digits of `n`, most significant first, no leading zeros. */
  function NatToString(n: nat): (s: string)
    ensures CanonicalDigits(s)
    ensures s[0] == '0' <==> n == 0
    decreases n
  {
    if n < 10 then [DigitChar(n)] else NatToString(n / 10) + [DigitChar(n % 10)]
  }

  /** The number a string of decimal digits denotes. */
  function DigitsToNat(s: string): nat
    requires IsDigits(s)
  {
    if |s| == 0 then 0 else DigitsToNat(s[..|s| - 1]) * 10 + DigitValue(s[|s| - 1])
  }

  lemma {:induction false} NatToStringRoundTrip(n: nat)
    ensures DigitsToNat(NatToString(n)) == n
    decreases n
  {
    if n >= 10 {
      NatToStringRoundTrip(n / 10);
      var s := NatToString(n);
      assert s[..|s| - 1] == NatToString(n / 10);
    }
  }

  /** `n.toString()` for an `Int`: a minus sign for negative values, then the digits. */
  function IntToString(n: int): (s: string)
    ensures CanonicalInt(s)
    ensures s[0] == '-' <==> n < 0
    ensures n >= 0 ==> IsDigits(s)
  {
    if n < 0 then "-" + NatToString(-n) else NatToString(n)
  }

  /** Reading back an optionally signed decimal string. */
  function ParseInt(s: string): Option<int>
  {
    if |s| >= 2 && s[0] == '-' && IsDigits(s[1..]) then Some(0 - DigitsToNat(s[1..]) as int)
    else if |s| >= 1 && IsDigits(s) then Some(DigitsToNat(s))
    else None
  }

  /** Round trip: the decimal rendering of every integer reads back as that integer. */
  lemma IntToStringRoundTrip(n: int)
    ensures ParseInt(IntToString(n)) == Some(n)
  {
    if n < 0 {
      var digits := NatToString(-n);
      var s := "-" + digits;
      assert s == IntToString(n);
      assert s[0] == '-' && s[1..] == digits;
      NatToStringRoundTrip(-n);
      assert ParseInt(s) == Some(0 - DigitsToNat(digits) as int);
    } else {
      NatToStringRoundTrip(n);
    }
  }

  /** A numeral with a non-zero leading digit denotes a positive number. */
  lemma {:induction false} LeadingDigitPositive(s: string)
    requires |s| >= 1 && IsDigits(s) && s[0] != '0'
    ensures DigitsToNat(s) >= 1
    decreases |s|
  {
    if |s| > 1 {
      var p := s[..|s| - 1];
      assert p[0] == s[0];
      LeadingDigitPositive(p);
    }
  }

  /** There is one canonical numeral per natural number: the one `NatToString` writes. */
  lemma {:induction false} CanonicalDigitsUnique(s: string)
    requires CanonicalDigits(s)
    ensures s == NatToString(DigitsToNat(s))
    decreases |s|
  {
    var n := DigitsToNat(s);
    if |s| > 1 {
      var p := s[..|s| - 1];
      assert p[0] == s[0];
      LeadingDigitPositive(p);
      CanonicalDigitsUnique(p);
      var d := DigitValue(s[|s| - 1]);
      assert n == DigitsToNat(p) * 10 + d;
      assert n / 10 == DigitsToNat(p) && n % 10 == d;
      assert DigitChar(d) == s[|s| - 1];
      assert s == p + [s[|s| - 1]];
    } else {
      assert DigitChar(DigitValue(s[0])) == s[0];
    }
  }

  /** `Int.toString` is determined by the value it renders: the only canonical
      numeral that reads back as `n` is `IntToString(n)`. */
  lemma IntToStringUnique(s: string, n: int)
    requires CanonicalInt(s) && ParseInt(s) == Some(n)
    ensures s == IntToString(n)
  {
    if CanonicalDigits(s) {
      assert s[0] != '-';
      CanonicalDigitsUnique(s);
    } else {
      var t := s[1..];
      LeadingDigitPositive(t);
      CanonicalDigitsUnique(t);
      assert s == "-" + t;
    }
  }

  // ---------------------------------------------------------------------------
  // filterNotNull / mapNotNull

  /** `xs.filterNotNull()`: the non-null entries, in their original order. */
  function FilterNotNull<T>(xs: seq<Option<T>>): (r: seq<T>)
    ensures |r| <= |xs|
    ensures forall i :: 0 <= i < |r| ==> Some(r[i]) in xs
    ensures forall j :: 0 <= j < |xs| && xs[j].Some? ==> xs[j].value in r
  {
    if |xs| == 0 then []
    else
      var rest := FilterNotNull(xs[1..]);
      if xs[0].Some? then [xs[0].value] + rest else rest
  }

  /** Filtering distributes over concatenation, so the kept entries keep their order. */
  lemma {:induction false} FilterNotNullAppend<T>(a: seq<Option<T>>, b: seq<Option<T>>)
    ensures FilterNotNull(a + b) == FilterNotNull(a) + FilterNotNull(b)
  {
    if |a| > 0 {
      FilterNotNullAppend(a[1..], b);
      assert (a + b)[1..] == a[1..] + b;
    } else {
      assert a + b == b;
    }
  }

  /** Nothing is dropped from a list without nulls. */
  lemma {:induction false} FilterNotNullKeepsAll<T>(xs: seq<Option<T>>)
    requires forall i :: 0 <= i < |xs| ==> xs[i].Some?
    ensures |FilterNotNull(xs)| == |xs|
    ensures forall i :: 0 <= i < |xs| ==> FilterNotNull(xs)[i] == xs[i].value
  {
    if |xs| > 0 {
      FilterNotNullKeepsAll(xs[1..]);
    }
  }
}
