/**
 * The JavaScript string operations the tracker relies on: `trim`, `replaceAll`,
 * `join`, decimal formatting with `padStart`, and the default order that
 * `Array.prototype.sort` puts strings in.
 */
module Strings {

  // ----- White space (ECMA-262 WhiteSpace and LineTerminator) -----

  /** The characters `String.prototype.trim` removes. */
  predicate IsJsSpace(c: char) {
    c == '\t' || c == '\n' || c == '\U{B}' || c == '\U{C}' || c == '\r' ||
    c == ' ' || c == '\U{A0}' || c == '\U{1680}' ||
    ('\U{2000}' <= c <= '\U{200A}') ||
    c == '\U{2028}' || c == '\U{2029}' || c == '\U{202F}' || c == '\U{205F}' ||
    c == '\U{3000}' || c == '\U{FEFF}'
  }

  predicate AllSpace(s: string) {
    forall i :: 0 <= i < |s| ==> IsJsSpace(s[i])
  }

  /** `s` without its leading white space. */
  function TrimStart(s: string): (r: string)
    ensures |r| <= |s|
  {
    if s != [] && IsJsSpace(s[0]) then TrimStart(s[1..]) else s
  }

  /** `s` without its trailing white space. */
  function TrimEnd(s: string): (r: string)
    ensures |r| <= |s|
  {
    if s != [] && IsJsSpace(s[|s| - 1]) then TrimEnd(s[..|s| - 1]) else s
  }

  /** `String.prototype.trim`. */
  function Trim(s: string): string {
    TrimEnd(TrimStart(s))
  }

  /** `TrimStart` drops exactly the leading run of white space. */
  lemma {:induction false} TrimStartSplits(s: string)
    ensures var r := TrimStart(s);
      r == s[|s| - |r|..] && AllSpace(s[..|s| - |r|]) && (r != [] ==> !IsJsSpace(r[0]))
  {
    if s != [] && IsJsSpace(s[0]) {
      TrimStartSplits(s[1..]);
      var r := TrimStart(s);
      assert s[..|s| - |r|] == [s[0]] + s[1..][..|s| - 1 - |r|];
    }
  }

  /** `TrimEnd` drops exactly the trailing run of white space. */
  lemma {:induction false} TrimEndSplits(s: string)
    ensures var r := TrimEnd(s);
      r == s[..|r|] && AllSpace(s[|r|..]) && (r != [] ==> !IsJsSpace(r[|r| - 1]))
  {
    if s != [] && IsJsSpace(s[|s| - 1]) {
      TrimEndSplits(s[..|s| - 1]);
      var r := TrimEnd(s);
      assert s[|r|..] == s[..|s| - 1][|r|..] + [s[|s| - 1]];
    }
  }

  /** A string is blank (trims to "") exactly when it is all white space. */
  lemma TrimEmptyIffAllSpace(s: string)
    ensures Trim(s) == "" <==> AllSpace(s)
  {
    var t := TrimStart(s);
    TrimStartSplits(s);
    TrimEndSplits(t);
    if Trim(s) == "" {
      assert t[0..] == t;
      assert t == [];
      assert s[..|s|] == s;
    } else {
      assert t != [];
      var i := |s| - |t|;
      assert s[i] == t[0];
    }
  }

  /** Trimming never leaves white space at either end. */
  lemma TrimHasNoOuterSpace(s: string)
    ensures Trim(s) != "" ==> !IsJsSpace(Trim(s)[0]) && !IsJsSpace(Trim(s)[|Trim(s)| - 1])
  {
    var t := TrimStart(s);
    var r := TrimEnd(t);
    TrimStartSplits(s);
    TrimEndSplits(t);
    if r != "" {
      assert t != [] && r[0] == t[0];
    }
  }

  // ----- replaceAll, join, filtering -----

  /** `s.replaceAll(c, rep)` for a one-character pattern `c`. */
  function ReplaceAll(s: string, c: char, rep: string): (r: string)
    ensures c !in rep ==> c !in r
    ensures c !in s ==> r == s
  {
    if s == [] then []
    else (if s[0] == c then rep else [s[0]]) + ReplaceAll(s[1..], c, rep)
  }

  /** `ReplaceAll` distributes over concatenation. */
  lemma {:induction false} ReplaceAllAppend(a: string, b: string, c: char, rep: string)
    ensures ReplaceAll(a + b, c, rep) == ReplaceAll(a, c, rep) + ReplaceAll(b, c, rep)
  {
    if a != [] {
      assert (a + b)[1..] == a[1..] + b;
      ReplaceAllAppend(a[1..], b, c, rep);
    } else {
      assert a + b == b;
    }
  }

  /** `parts.join(sep)`. */
  function Join(parts: seq<string>, sep: string): string {
    if |parts| == 0 then ""
    else if |parts| == 1 then parts[0]
    else parts[0] + sep + Join(parts[1..], sep)
  }

  /** `s.split(c).join("")`: `s` with every `c` removed. */
  function Remove(s: string, c: char): (r: string)
    ensures c !in r
  {
    if s == [] then []
    else (if s[0] == c then [] else [s[0]]) + Remove(s[1..], c)
  }

  /** Removing a character distributes over concatenation. */
  lemma {:induction false} RemoveAppend(a: string, b: string, c: char)
    ensures Remove(a + b, c) == Remove(a, c) + Remove(b, c)
  {
    if a != [] {
      assert (a + b)[1..] == a[1..] + b;
      RemoveAppend(a[1..], b, c);
    } else {
      assert a + b == b;
    }
  }

  /** Removing a character the string does not hold leaves it unchanged. */
  lemma {:induction false} RemoveAbsent(s: string, c: char)
    requires c !in s
    ensures Remove(s, c) == s
  {
    if s != [] {
      RemoveAbsent(s[1..], c);
    }
  }

  predicate StartsWith(s: string, prefix: string) {
    |prefix| <= |s| && s[..|prefix|] == prefix
  }

  // ----- Decimal digits -----

  predicate IsDigit(c: char) {
    '0' <= c <= '9'
  }

  predicate AllDigits(s: string) {
    forall i :: 0 <= i < |s| ==> IsDigit(s[i])
  }

  function DigitChar(d: int): (c: char)
    requires 0 <= d < 10
    ensures IsDigit(c) && c as int - '0' as int == d
  {
    ('0' as int + d) as char
  }

  function Pow10(k: nat): (p: nat)
    ensures p >= 1
  {
    if k == 0 then 1 else 10 * Pow10(k - 1)
  }

  /** The number a string of decimal digits denotes, read most significant digit first. */
  function DigitsValue(s: string): nat
    requires AllDigits(s)
  {
    if s == [] then 0
    else (s[0] as int - '0' as int) * Pow10(|s| - 1) + DigitsValue(s[1..])
  }

  lemma {:induction false} DigitsValueBound(s: string)
    requires AllDigits(s)
    ensures DigitsValue(s) < Pow10(|s|)
  {
    if s != [] {
      DigitsValueBound(s[1..]);
      var d := s[0] as int - '0' as int;
      var p := Pow10(|s| - 1);
      MulLess(d, 10, p);
    }
  }

  /** Reading a concatenation: the digits of `a` are shifted left by the length of `b`. */
  lemma {:induction false} DigitsValueAppend(a: string, b: string)
    requires AllDigits(a) && AllDigits(b)
    ensures AllDigits(a + b)
    ensures DigitsValue(a + b) == DigitsValue(a) * Pow10(|b|) + DigitsValue(b)
  {
    assert AllDigits(a + b) by {
      forall i | 0 <= i < |a + b| ensures IsDigit((a + b)[i]) {
        if i < |a| { assert (a + b)[i] == a[i]; } else { assert (a + b)[i] == b[i - |a|]; }
      }
    }
    if a != [] {
      assert (a + b)[1..] == a[1..] + b;
      DigitsValueAppend(a[1..], b);
      var d := a[0] as int - '0' as int;
      var p1, pb, rest := Pow10(|a| - 1), Pow10(|b|), DigitsValue(a[1..]);
      PowAdd(|a| - 1, |b|);
      assert DigitsValue(a + b) == d * Pow10(|a| - 1 + |b|) + DigitsValue(a[1..] + b);
      MulAssoc(d, p1, pb);
      Distrib(d * p1, rest, pb);
    } else {
      assert a + b == b;
    }
  }

  lemma MulAssoc(x: int, y: int, z: int)
    ensures x * (y * z) == (x * y) * z
  {
  }

  lemma Distrib(x: int, y: int, z: int)
    ensures (x + y) * z == x * z + y * z
  {
  }

  lemma MulLess(x: int, y: int, p: int)
    requires x < y && p > 0
    ensures x * p + p <= y * p
  {
    Distrib(x, 1, p);
    assert (y - (x + 1)) * p >= 0;
    Distrib(y - (x + 1), x + 1, p);
  }

  lemma {:induction false} PowAdd(i: nat, j: nat)
    ensures Pow10(i + j) == Pow10(i) * Pow10(j)
  {
    if i > 0 {
      PowAdd(i - 1, j);
      MulAssoc(10, Pow10(i - 1), Pow10(j));
    }
  }

  /** `String(n)` for a natural number. */
  function Decimal(n: nat): (s: string)
    ensures |s| >= 1 && AllDigits(s)
  {
    if n < 10 then [DigitChar(n)] else Decimal(n / 10) + [DigitChar(n % 10)]
  }

  /** Printing then reading a number gives the number back. */
  lemma {:induction false} DecimalValue(n: nat)
    ensures DigitsValue(Decimal(n)) == n
  {
    if n >= 10 {
      DecimalValue(n / 10);
      DigitsValueAppend(Decimal(n / 10), [DigitChar(n % 10)]);
      assert DigitsValue([DigitChar(n % 10)]) == n % 10;
    } else {
      assert DigitsValue([DigitChar(n)]) == n;
    }
  }

  lemma {:induction false} DecimalLength(n: nat, k: nat)
    requires k >= 1 && n < Pow10(k)
    ensures |Decimal(n)| <= k
  {
    if n >= 10 {
      DecimalLength(n / 10, k - 1);
    }
  }

  /** `k` copies of `c`. */
  function Fill(k: nat, c: char): (r: string)
    ensures |r| == k && forall i :: 0 <= i < k ==> r[i] == c
  {
    if k == 0 then [] else [c] + Fill(k - 1, c)
  }

  /** `s.padStart(w, c)`. */
  function PadStart(s: string, w: nat, c: char): (r: string)
    ensures |r| == if |s| < w then w else |s|
    ensures r == Fill(|r| - |s|, c) + s
  {
    if |s| < w then Fill(w - |s|, c) + s else s
  }

  /** `String(n).padStart(w, "0")`. */
  function ZeroPad(n: nat, w: nat): (s: string)
    ensures AllDigits(s) && |s| >= w
  {
    var r := PadStart(Decimal(n), w, '0');
    ZerosValue(|r| - |Decimal(n)|);
    DigitsValueAppend(Fill(|r| - |Decimal(n)|, '0'), Decimal(n));
    r
  }

  lemma {:induction false} ZerosValue(k: nat)
    ensures AllDigits(Fill(k, '0')) && DigitsValue(Fill(k, '0')) == 0
  {
    if k > 0 {
      ZerosValue(k - 1);
    }
  }

  /** Zero padding does not change the value, and a number below 10^w pads to exactly w digits. */
  lemma ZeroPadValue(n: nat, w: nat)
    ensures DigitsValue(ZeroPad(n, w)) == n
    ensures w >= 1 && n < Pow10(w) ==> |ZeroPad(n, w)| == w
  {
    var d := Decimal(n);
    var z := Fill(|ZeroPad(n, w)| - |d|, '0');
    assert ZeroPad(n, w) == z + d;
    ZerosValue(|z|);
    DigitsValueAppend(z, d);
    DecimalValue(n);
    assert DigitsValue(z + d) == 0 * Pow10(|d|) + n;
    if w >= 1 && n < Pow10(w) {
      DecimalLength(n, w);
    }
  }

  // ----- String order -----

  /**
   * The order `Array.prototype.sort` uses by default: lexicographic on
   * characters. (JavaScript compares UTF-16 code units; the two orders agree
   * on every character below U+E000, which includes every day key.)
   */
  predicate Lt(a: string, b: string) {
    if |a| == 0 then |b| > 0
    else if |b| == 0 then false
    else if a[0] != b[0] then a[0] < b[0]
    else Lt(a[1..], b[1..])
  }

  lemma {:induction false} LtIrreflexive(a: string)
    ensures !Lt(a, a)
  {
    if |a| > 0 { LtIrreflexive(a[1..]); }
  }

  lemma {:induction false} LtTransitive(a: string, b: string, c: string)
    requires Lt(a, b) && Lt(b, c)
    ensures Lt(a, c)
  {
    if |a| > 0 && |b| > 0 && |c| > 0 && a[0] == b[0] == c[0] {
      LtTransitive(a[1..], b[1..], c[1..]);
    }
  }

  lemma {:induction false} LtTotal(a: string, b: string)
    ensures a == b || Lt(a, b) || Lt(b, a)
  {
    if |a| > 0 && |b| > 0 && a[0] == b[0] {
      LtTotal(a[1..], b[1..]);
      if a[1..] == b[1..] {
        assert a == [a[0]] + a[1..] && b == [b[0]] + b[1..];
      }
    }
  }

  lemma LtAsymmetric(a: string, b: string)
    ensures !(Lt(a, b) && Lt(b, a))
  {
    if Lt(a, b) && Lt(b, a) {
      LtTransitive(a, b, a);
      LtIrreflexive(a);
    }
  }

  /** Comparing two strings that start with prefixes of equal length. */
  lemma {:induction false} LtConcat(p: string, s: string, q: string, t: string)
    requires |p| == |q|
    ensures Lt(p + s, q + t) <==> Lt(p, q) || (p == q && Lt(s, t))
  {
    if p == [] {
      assert p + s == s && q + t == t;
    } else {
      assert (p + s)[0] == p[0] && (q + t)[0] == q[0];
      assert (p + s)[1..] == p[1..] + s && (q + t)[1..] == q[1..] + t;
      LtConcat(p[1..], s, q[1..], t);
      if p[0] == q[0] {
        assert p == q <==> p[1..] == q[1..] by {
          assert p == [p[0]] + p[1..] && q == [q[0]] + q[1..];
        }
      }
      if p == q { LtIrreflexive(p); }
    }
  }

  /** On digit strings of equal length the string order is the numeric order. */
  lemma {:induction false} DigitsLt(a: string, b: string)
    requires |a| == |b| && AllDigits(a) && AllDigits(b)
    ensures Lt(a, b) <==> DigitsValue(a) < DigitsValue(b)
  {
    if a != [] {
      var p := Pow10(|a| - 1);
      var da, db := a[0] as int - '0' as int, b[0] as int - '0' as int;
      DigitsValueBound(a[1..]);
      DigitsValueBound(b[1..]);
      if da < db {
        MulLess(da, db, p);
      } else if db < da {
        MulLess(db, da, p);
      } else {
        DigitsLt(a[1..], b[1..]);
      }
    }
  }

  /** Two numbers below 10^w compare as their w-digit zero-padded forms do. */
  lemma ZeroPadLt(m: nat, n: nat, w: nat)
    requires w >= 1 && m < Pow10(w) && n < Pow10(w)
    ensures |ZeroPad(m, w)| == w && |ZeroPad(n, w)| == w
    ensures Lt(ZeroPad(m, w), ZeroPad(n, w)) <==> m < n
    ensures ZeroPad(m, w) == ZeroPad(n, w) <==> m == n
  {
    ZeroPadValue(m, w);
    ZeroPadValue(n, w);
    DigitsLt(ZeroPad(m, w), ZeroPad(n, w));
  }
}
