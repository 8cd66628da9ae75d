/** Small value types and string helpers shared by every other module. */
module Common {

  datatype Option<+T> = None | Some(value: T)

  datatype Result<+T, +E> = Ok(value: T) | Err(error: E)

  function Min(a: int, b: int): int {
    if a <= b then a else b
  }

  function Max(a: int, b: int): int {
    if a <= b then b else a
  }

  /** No value occurs at two positions. */
  ghost predicate NoRepeats<T>(s: seq<T>) {
    forall i, j :: 0 <= i < j < |s| ==> s[i] != s[j]
  }

  function Members<T>(s: seq<T>): set<T> {
    set x | x in s
  }

  /** Counting members is a test for repeats that does not depend on the order. */
  lemma {:induction false} NoRepeatsIffCounted<T>(s: seq<T>)
    ensures |Members(s)| <= |s|
    ensures NoRepeats(s) <==> |Members(s)| == |s|
  {
    if s == [] {
      assert Members(s) == {};
    } else {
      var last, front := s[|s| - 1], s[..|s| - 1];
      NoRepeatsIffCounted(front);
      assert s == front + [last];
      assert Members(s) == Members(front) + {last};
      if last in front {
        assert Members(s) == Members(front);
        var i :| 0 <= i < |front| && front[i] == last;
        assert s[i] == s[|s| - 1];
      } else {
        assert |Members(s)| == |Members(front)| + 1;
        assert NoRepeats(front) ==> NoRepeats(s);
        assert NoRepeats(s) ==> NoRepeats(front) by {
          assert forall i :: 0 <= i < |front| ==> front[i] == s[i];
        }
      }
    }
  }

  lemma {:induction false} NoRepeatsJoined<T>(a: seq<T>, b: seq<T>)
    ensures NoRepeats(a + b) <==> NoRepeats(a) && NoRepeats(b) && forall p :: p in a ==> p !in b
  {
    var all := a + b;
    assert forall i :: 0 <= i < |a| ==> all[i] == a[i];
    assert forall i :: 0 <= i < |b| ==> all[|a| + i] == b[i];
    if NoRepeats(all) {
      forall p | p in a
        ensures p !in b
      {
        var i :| 0 <= i < |a| && a[i] == p;
        assert forall m :: |a| <= m < |all| ==> all[i] != all[m];
      }
    } else {
      var i, j :| 0 <= i < j < |all| && all[i] == all[j];
      assert i < |a| <= j ==> a[i] in a && b[j - |a|] in b;
    }
  }

  /** A rearrangement of a sequence without repeats has no repeats. */
  lemma {:induction false} NoRepeatsRearranged<T>(s: seq<T>, t: seq<T>)
    requires NoRepeats(s)
    requires |s| == |t| && forall x :: x in s <==> x in t
    ensures NoRepeats(t)
  {
    NoRepeatsIffCounted(s);
    NoRepeatsIffCounted(t);
    assert Members(s) == Members(t);
  }
}

/** The fragments of JavaScript and Go string handling the model needs. */
module Text {
  predicate IsDigit(c: char) {
    '0' <= c <= '9'
  }

  predicate IsHexDigit(c: char) {
    IsDigit(c) || 'a' <= c <= 'f' || 'A' <= c <= 'F'
  }

  function LowerChar(c: char): char {
    if 'A' <= c <= 'Z' then (c as int + 32) as char else c
  }

  /** Lower-casing. Only ASCII letters occur in the identifiers it is applied to. */
  function Lower(s: string): (r: string)
    ensures |r| == |s|
    ensures forall i :: 0 <= i < |s| ==> r[i] == LowerChar(s[i])
  {
    seq(|s|, i requires 0 <= i < |s| => LowerChar(s[i]))
  }

  /** Each of the 26 capital letters becomes the small one, and nothing else changes. */
  lemma {:induction false} LowerIs(s: string, i: nat, letter: nat)
    requires i < |s| && letter < 26
    ensures s[i] == ('A' as int + letter) as char ==> Lower(s)[i] == ('a' as int + letter) as char
    ensures s[i] < 'A' || 'Z' < s[i] ==> Lower(s)[i] == s[i]
  {
  }

  predicate AllZero(s: string) {
    forall i :: 0 <= i < |s| ==> s[i] == '0'
  }

  /** `n` hexadecimal digits that are not all zero. */
  predicate NonZeroHex(s: string, n: nat) {
    && |s| == n
    && (forall i :: 0 <= i < |s| ==> IsHexDigit(s[i]))
    && !AllZero(s)
  }

  function DigitValue(c: char): nat
    requires IsDigit(c)
  {
    c as int - '0' as int
  }

  predicate AllDigits(s: string) {
    forall i :: 0 <= i < |s| ==> IsDigit(s[i])
  }

  /** The number a string of decimal digits denotes. */
  function DecimalValue(s: string): nat
    requires AllDigits(s)
  {
    if s == "" then 0
    else DecimalValue(s[..|s| - 1]) * 10 + DigitValue(s[|s| - 1])
  }

  function Decimal(n: nat): string {
    var last := ('0' as int + n % 10) as char;
    if n < 10 then [last] else Decimal(n / 10) + [last]
  }

  function Pow10(k: nat): nat {
    if k == 0 then 1 else 10 * Pow10(k - 1)
  }

  /** The digits of a number, the last one first removed. */
  lemma {:induction false} DecimalIs(n: nat)
    ensures n < 10 ==> Decimal(n) == ["0123456789"[n]]
    ensures n >= 10 ==> Decimal(n) == Decimal(n / 10) + ["0123456789"[n % 10]]
  {
  }

  /** Printing a number and reading it back gives the number. */
  lemma {:induction false} DecimalReadsBack(n: nat)
    ensures AllDigits(Decimal(n)) && |Decimal(n)| > 0
    ensures DecimalValue(Decimal(n)) == n
  {
    if n >= 10 {
      DecimalReadsBack(n / 10);
      var d := Decimal(n);
      assert d[..|d| - 1] == Decimal(n / 10);
    } else {
      var d := Decimal(n);
      assert d[..0] == "";
      assert DecimalValue(d[..0]) == 0;
    }
  }

  lemma {:induction false} DecimalLength(n: nat, k: nat)
    requires k > 0 && n < Pow10(k)
    ensures |Decimal(n)| <= k
  {
    if n >= 10 {
      assert k > 1;
      DecimalLength(n / 10, k - 1);
    }
  }
}

/** White space as Go and JavaScript trim it. */
module Whitespace {

  /** The code points both languages trim. */
  predicate IsCommonSpace(c: char) {
    || '\t' <= c <= '\r'
    || c in {' ', '\U{A0}', '\U{1680}', '\U{2028}', '\U{2029}', '\U{202F}', '\U{205F}', '\U{3000}'}
    || '\U{2000}' <= c <= '\U{200A}'
  }

  predicate IsGoSpace(c: char) {
    IsCommonSpace(c) || c == '\U{85}'
  }

  predicate IsJsSpace(c: char) {
    IsCommonSpace(c) || c == '\U{FEFF}'
  }

  /** The characters trimmed, one by one. */
  lemma {:induction false} SpacesAre(c: char)
    ensures IsGoSpace(c) && IsJsSpace(c) <==>
            c in {'\t', '\n', '\U{0B}', '\U{0C}', '\r', ' ', '\U{A0}', '\U{1680}', '\U{2000}', '\U{2001}', '\U{2002}',
                  '\U{2003}', '\U{2004}', '\U{2005}', '\U{2006}', '\U{2007}', '\U{2008}', '\U{2009}', '\U{200A}',
                  '\U{2028}', '\U{2029}', '\U{202F}', '\U{205F}', '\U{3000}'}
    ensures IsGoSpace(c) && !IsJsSpace(c) <==> c == '\U{85}'
    ensures IsJsSpace(c) && !IsGoSpace(c) <==> c == '\U{FEFF}'
  {
  }

  function TrimLeft(s: string, space: char -> bool): string {
    if s != "" && space(s[0]) then TrimLeft(s[1..], space) else s
  }

  function TrimRight(s: string, space: char -> bool): string {
    if s != "" && space(s[|s| - 1]) then TrimRight(s[..|s| - 1], space) else s
  }

  function Trim(s: string, space: char -> bool): string {
    TrimRight(TrimLeft(s, space), space)
  }

  predicate Trimmed(s: string, space: char -> bool) {
    s == "" || (!space(s[0]) && !space(s[|s| - 1]))
  }

  lemma {:induction false} TrimLeftCuts(s: string, space: char -> bool) returns (n: nat)
    ensures n <= |s| && TrimLeft(s, space) == s[n..] && forall i :: 0 <= i < n ==> space(s[i])
    ensures TrimLeft(s, space) == "" || !space(TrimLeft(s, space)[0])
  {
    if s != "" && space(s[0]) {
      var m := TrimLeftCuts(s[1..], space);
      n := m + 1;
      assert s[1..][m..] == s[n..];
      assert forall i :: 0 < i < n ==> s[i] == s[1..][i - 1];
    } else {
      n := 0;
      assert s[0..] == s;
    }
  }

  lemma {:induction false} TrimRightCuts(s: string, space: char -> bool) returns (n: nat)
    ensures n <= |s| && TrimRight(s, space) == s[..n] && forall i :: n <= i < |s| ==> space(s[i])
    ensures TrimRight(s, space) == "" || !space(TrimRight(s, space)[n - 1])
  {
    if s != "" && space(s[|s| - 1]) {
      n := TrimRightCuts(s[..|s| - 1], space);
      assert s[..|s| - 1][..n] == s[..n];
    } else {
      n := |s|;
      assert s[..n] == s;
    }
  }

  /** Trimming leaves what stands between the outer white space, and leaves trimmed text alone. */
  lemma {:induction false} TrimIsTrimmed(s: string, space: char -> bool)
    ensures Trimmed(Trim(s, space), space)
    ensures Trimmed(s, space) ==> Trim(s, space) == s
  {
    var m := TrimLeftCuts(s, space);
    var n := TrimRightCuts(TrimLeft(s, space), space);
    hide TrimLeft, TrimRight;
  }

  /** White space on either side makes no difference. */
  lemma {:induction false} TrimDrops(before: string, s: string, after: string, space: char -> bool)
    requires Trimmed(s, space)
    requires forall i :: 0 <= i < |before| ==> space(before[i])
    requires forall i :: 0 <= i < |after| ==> space(after[i])
    ensures Trim(before + s + after, space) == s
  {
    var t := before + s + after;
    var m := TrimLeftCuts(t, space);
    var n := TrimRightCuts(TrimLeft(t, space), space);
    hide TrimLeft, TrimRight;
    var u := t[m..];
    assert u != "" ==> u[0] == t[m];
    assert forall i :: 0 <= i < |before| ==> t[i] == before[i];
    assert forall i :: |before| + |s| <= i < |t| ==> t[i] == after[i - |before| - |s|];
    if s == "" {
      assert forall i :: 0 <= i < |t| ==> space(t[i]);
      assert u == "";
    } else {
      assert t[|before|] == s[0] && t[|before| + |s| - 1] == s[|s| - 1];
      assert m == |before|;
      assert u == s + after;
      assert forall i :: 0 <= i < |after| ==> u[|s| + i] == after[i];
      assert u[|s| - 1] == s[|s| - 1];
      assert n == |s|;
      assert u[..n] == s;
    }
  }
}

/** Go's 64-bit signed integers. */
module GoInts {

  const INT64_LIMIT := 0x8000_0000_0000_0000

  predicate IsInt64(x: int) {
    -INT64_LIMIT <= x < INT64_LIMIT
  }

  /** Two's-complement wrap-around of 64-bit arithmetic. */
  function Wrap64(x: int): (r: int)
    ensures IsInt64(r)
    ensures IsInt64(x) ==> r == x
  {
    (x + INT64_LIMIT) % (2 * INT64_LIMIT) - INT64_LIMIT
  }

  /** How often wrapping goes around. */
  function Laps(x: int): (k: int)
    ensures Wrap64(x) == x + k * (2 * INT64_LIMIT)
  {
    -((x + INT64_LIMIT) / (2 * INT64_LIMIT))
  }

  lemma {:induction false} WrapShift(x: int, k: int)
    ensures Wrap64(x + k * (2 * INT64_LIMIT)) == Wrap64(x)
  {
    var m := 2 * INT64_LIMIT;
    var q, r := (x + INT64_LIMIT) / m, (x + INT64_LIMIT) % m;
    assert x + k * m + INT64_LIMIT == (q + k) * m + r;
  }

  /** Wrapping early or late makes no difference to a sum. */
  lemma {:induction false} WrapSum(a: int, b: int)
    ensures Wrap64(Wrap64(a) + b) == Wrap64(a + b)
    ensures Wrap64(a + Wrap64(b)) == Wrap64(a + b)
    ensures Wrap64(a - Wrap64(b)) == Wrap64(a - b)
  {
    var p, q := Laps(a), Laps(b);
    hide Wrap64, Laps;
    WrapShift(a + b, p);
    WrapShift(a + b, q);
    WrapShift(a - b, -q);
  }
}
