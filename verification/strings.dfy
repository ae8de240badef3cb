/** String helpers shared by the row-derivation logic: prefixes, Java's
    `String.indexOf`, and the decimal rendering `StringBuilder.append(int)`
    uses for non-negative numbers.  Java strings are sequences of UTF-16
    code units; here a `char` stands for one code unit. */
module Strings {

  function Min(a: int, b: int): int
  {
    if a <= b then a else b
  }

  /** The first `min(|s|, n)` characters of `s`: the one notion of
      "cut to at most n characters" every truncation in the appenders means. */
  function Prefix(s: string, n: nat): (r: string)
    ensures |r| == Min(|s|, n)
    ensures r == s[..|r|]
  {
    s[..Min(|s|, n)]
  }

  /** `d` occurs in `s` starting at index `i`. */
  predicate OccursAt(s: string, d: string, i: int)
  {
    0 <= i && i + |d| <= |s| && s[i..i + |d|] == d
  }

  /** Scan for `d` from index `k` onwards, as `String.indexOf` does from 0. */
  function IndexFrom(s: string, d: string, k: nat): (r: int)
    requires k <= |s| + 1
    ensures r == -1 || (k <= r && OccursAt(s, d, r))
    ensures forall j :: k <= j && (r == -1 || j < r) ==> !OccursAt(s, d, j)
    decreases |s| + 1 - k
  {
    if k + |d| > |s| then -1
    else if s[k..k + |d|] == d then k
    else IndexFrom(s, d, k + 1)
  }

  /** `s.indexOf(d)`: the index of the FIRST occurrence of `d` in `s`,
      or -1 when there is none. */
  function IndexOf(s: string, d: string): (r: int)
    ensures r == -1 || OccursAt(s, d, r)
    ensures r >= 0 ==> forall j :: 0 <= j < r ==> !OccursAt(s, d, j)
    ensures r == -1 <==> forall j :: !OccursAt(s, d, j)
  {
    IndexFrom(s, d, 0)
  }

  /** A non-empty `d` whose first character is missing from `s` is not
      found. */
  lemma IndexOfAbsent(s: string, d: string)
    requires |d| > 0 && d[0] !in s
    ensures IndexOf(s, d) == -1
  {
    forall j | 0 <= j
      ensures !OccursAt(s, d, j)
    {
      if j + |d| <= |s| {
        assert s[j..j + |d|][0] == s[j];
      }
    }
  }

  /** `d` found at `k`, its first character absent before `k`: `IndexOf`
      answers `k`. */
  lemma IndexOfAt(s: string, d: string, k: nat)
    requires |d| > 0 && OccursAt(s, d, k) && d[0] !in s[..k]
    ensures IndexOf(s, d) == k
  {
    forall j | 0 <= j < k
      ensures !OccursAt(s, d, j)
    {
      if j + |d| <= |s| {
        assert s[j..j + |d|][0] == s[j];
        assert s[..k][j] == s[j];
      }
    }
  }

  /** A one-character delimiter occurs wherever its character is. */
  lemma {:induction false} CharOccursAt(s: string, c: char, i: nat)
    requires i < |s| && s[i] == c
    ensures OccursAt(s, [c], i)
  {
    assert s[i..i + 1] == [c];
  }

  function DigitChar(n: nat): char
    requires n < 10
  {
    "0123456789"[n]
  }

  predicate IsDigit(c: char)
  {
    '0' <= c <= '9'
  }

  /** Decimal rendering of a non-negative number, without sign or
      leading zeros, as Java renders an `int` that is not negative. */
  function NatToString(n: nat): (r: string)
    ensures |r| >= 1
    ensures forall i :: 0 <= i < |r| ==> IsDigit(r[i])
    ensures |r| > 1 ==> r[0] != '0'
  {
    if n < 10 then [DigitChar(n)]
    else NatToString(n / 10) + [DigitChar(n % 10)]
  }

  /** The number a string of decimal digits denotes. */
  function DecimalValue(s: string): nat
    requires forall i :: 0 <= i < |s| ==> IsDigit(s[i])
  {
    if s == [] then 0
    else
      assert IsDigit(s[|s| - 1]);
      10 * DecimalValue(s[..|s| - 1]) + (s[|s| - 1] as int - '0' as int) as nat
  }

  /** Reading back the rendered number gives the number: the omitted-lines
      count in a stack trace is faithful. */
  lemma {:induction false} NatToStringRoundTrip(n: nat)
    ensures DecimalValue(NatToString(n)) == n
  {
    var r := NatToString(n);
    if n < 10 {
      assert r == [DigitChar(n)];
    } else {
      var q := NatToString(n / 10);
      assert r == q + [DigitChar(n % 10)];
      assert r[..|r| - 1] == q;
      NatToStringRoundTrip(n / 10);
    }
  }

  // Small facts about sequence concatenation, stated once for every
  // element type.

  lemma ConcatAssoc<T>(a: seq<T>, b: seq<T>, c: seq<T>)
    ensures a + (b + c) == (a + b) + c
  {
  }

  lemma ConcatSplit<T>(xs: seq<T>, ys: seq<T>)
    requires xs != []
    ensures (xs + ys)[0] == xs[0] && (xs + ys)[1..] == xs[1..] + ys
  {
  }

  lemma ConsIndex<T>(x: T, s: seq<T>, i: nat)
    requires 1 <= i <= |s|
    ensures ([x] + s)[i] == s[i - 1]
  {
  }
}
