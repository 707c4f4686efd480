/**
 * String operations shared by the JavaScript and Python halves of the suite:
 * substring search (`includes` / `in`), prefixes and suffixes, `split(sep).pop()`,
 * the two languages' whitespace classes and trimming, and decimal rendering of
 * integers with `padStart(2, '0')` / `zfill(2)`.
 */
module Strings {

  datatype Option<T> = None | Some(value: T)

  // ---------------------------------------------------------------- search

  /** `sub` occurs in `s` starting at index `i`. */
  predicate OccursAt(s: string, sub: string, i: nat) {
    i + |sub| <= |s| && s[i..i + |sub|] == sub
  }

  /** JavaScript `s.includes(sub)` and Python `sub in s`. */
  predicate Contains(s: string, sub: string) {
    exists i: nat | i <= |s| :: OccursAt(s, sub, i)
  }

  /** `s.startsWith(p)` / `s.startswith(p)`. */
  predicate StartsWith(s: string, p: string) {
    p <= s
  }

  /** `s.endsWith(p)` / `s.endswith(p)`. */
  predicate EndsWith(s: string, p: string) {
    |p| <= |s| && s[|s| - |p|..] == p
  }

  /** `s.indexOf(sub, k)`: the first occurrence at or after `k`, or -1. */
  function IndexFrom(s: string, sub: string, k: nat): (r: int)
    decreases |s| - k
    ensures r == -1 || (k <= r && OccursAt(s, sub, r))
    ensures forall j: nat :: k <= j && (r == -1 || j < r) ==> !OccursAt(s, sub, j)
  {
    if k + |sub| > |s| then -1
    else if OccursAt(s, sub, k) then k
    else IndexFrom(s, sub, k + 1)
  }

  /** `s.indexOf(sub)`. */
  function IndexOf(s: string, sub: string): (r: int)
    ensures r == -1 <==> !Contains(s, sub)
    ensures r >= 0 ==> OccursAt(s, sub, r) && forall j: nat :: j < r ==> !OccursAt(s, sub, j)
  {
    IndexFrom(s, sub, 0)
  }

  /** An occurrence at `r` with none in `[k, r)` is what `indexOf(sub, k)` finds. */
  lemma IndexFromIs(s: string, sub: string, k: nat, r: nat)
    requires k <= r && OccursAt(s, sub, r)
    requires forall j: nat :: k <= j < r ==> !OccursAt(s, sub, j)
    ensures IndexFrom(s, sub, k) == r
  {
  }

  /** An occurrence wholly inside the middle part `b` of `a + b + c` sits `|a|` further on. */
  lemma OccursShift(a: string, b: string, c: string, sub: string, x: nat)
    requires x + |sub| <= |b|
    ensures OccursAt(a + b + c, sub, |a| + x) <==> OccursAt(b, sub, x)
  {
    assert (a + b + c)[|a| + x..|a| + x + |sub|] == b[x..x + |sub|];
  }

  /**
   * A search that succeeds inside the middle part `b` of `a + b + c` succeeds at
   * the shifted index in the whole string.
   */
  lemma IndexFromInside(a: string, b: string, c: string, sub: string, k: nat)
    requires IndexFrom(b, sub, k) >= 0
    ensures IndexFrom(a + b + c, sub, |a| + k) == |a| + IndexFrom(b, sub, k)
  {
    var r := IndexFrom(b, sub, k);
    forall j: nat | |a| + k <= j < |a| + r
      ensures !OccursAt(a + b + c, sub, j)
    {
      OccursShift(a, b, c, sub, j - |a|);
    }
    OccursShift(a, b, c, sub, r);
    IndexFromIs(a + b + c, sub, |a| + k, |a| + r);
  }

  /** What the middle part of `a + b + c` contains, the whole contains. */
  lemma ContainsMiddle(a: string, b: string, c: string, sub: string)
    requires Contains(b, sub)
    ensures Contains(a + b + c, sub)
  {
    var x: nat :| x <= |b| && OccursAt(b, sub, x);
    OccursShift(a, b, c, sub, x);
    ContainsWitness(a + b + c, sub, |a| + x);
  }

  /** Concatenation regrouped. */
  lemma Assoc(a: string, b: string, c: string)
    ensures a + b + c == a + (b + c)
  {
  }

  /** The text from an occurrence on is the occurrence, then what follows it. */
  lemma SplitAtOccurrence(s: string, sub: string, i: nat)
    requires OccursAt(s, sub, i)
    ensures s[i..] == sub + s[i + |sub|..]
  {
  }

  /** A suffix of `s` is a suffix of anything that ends with `s`. */
  lemma EndsWithExtend(a: string, s: string, p: string)
    requires EndsWith(s, p)
    ensures EndsWith(a + s, p)
  {
    assert (a + s)[|a + s| - |p|..] == s[|s| - |p|..];
  }

  /** A suffix of a suffix is a suffix. */
  lemma EndsWithTail(s: string, a: string, b: string)
    requires EndsWith(s, a + b)
    ensures EndsWith(s, b)
  {
    var k := |s| - |a + b|;
    assert s[k..] == a + b;
    assert s[|s| - |b|..] == s[k..][|a|..];
    assert (a + b)[|a|..] == b;
  }

  /** A string is what precedes an occurrence, the occurrence, and what follows it. */
  lemma AroundOccurrence(s: string, sub: string, i: nat)
    requires OccursAt(s, sub, i)
    ensures s[..i] + sub + s[i + |sub|..] == s
  {
    assert s == s[..i] + s[i..];
    SplitAtOccurrence(s, sub, i);
    Assoc(s[..i], sub, s[i + |sub|..]);
  }

  /** The head of `a + b + c` up to the end of `a`. */
  lemma HeadOfJoin(a: string, b: string, c: string)
    ensures (a + b + c)[..|a|] == a
  {
  }

  /** The tail of `a + b + c` from inside `b` on. */
  lemma TailFromMiddle(a: string, b: string, c: string, k: nat)
    requires k <= |b|
    ensures (a + b + c)[|a| + k..] == b[k..] + c
  {
  }

  /**
   * When `t` starts with a pattern whose first character does not recur in it,
   * and `p` does not contain the pattern, the first occurrence in `p + t` is at `|p|`.
   */
  lemma FirstAtJoin(p: string, t: string, pat: string)
    requires 0 < |pat| && pat <= t && !Contains(p, pat)
    requires forall k :: 0 < k < |pat| ==> pat[k] != pat[0]
    ensures IndexOf(p + t, pat) == |p|
  {
    var h := p + t;
    assert h[|p|..|p| + |pat|] == pat;
    forall j: nat | j < |p|
      ensures !OccursAt(h, pat, j)
    {
      if j + |pat| <= |p| {
        assert h[j..j + |pat|] == p[j..j + |pat|];
        if OccursAt(h, pat, j) {
          ContainsWitness(p, pat, j);
        }
      } else {
        Mismatch(h, pat, j, |p| - j);
      }
    }
    IndexFromIs(h, pat, 0, |p|);
  }

  /** Appending text made of one character not in the pattern adds no occurrence. */
  lemma ContainsAppendForeign(p: string, w: string, pat: string, c: char)
    requires 0 < |pat| && !Contains(p, pat)
    requires forall k :: 0 <= k < |w| ==> w[k] == c
    requires forall k :: 0 <= k < |pat| ==> pat[k] != c
    ensures !Contains(p + w, pat)
  {
    var h := p + w;
    forall j: nat | j <= |h|
      ensures !OccursAt(h, pat, j)
    {
      if j + |pat| <= |p| {
        assert h[j..j + |pat|] == p[j..j + |pat|];
        if OccursAt(h, pat, j) {
          ContainsWitness(p, pat, j);
        }
      } else if j + |pat| <= |h| {
        var q := if j >= |p| then j else |p|;
        Mismatch(h, pat, j, q - j);
      }
    }
  }

  /** A mismatching character rules out an occurrence at `i`. */
  lemma Mismatch(s: string, sub: string, i: nat, j: nat)
    requires j < |sub| && i + j < |s| && s[i + j] != sub[j]
    ensures !OccursAt(s, sub, i)
  {
  }

  lemma ContainsWitness(s: string, sub: string, i: nat)
    requires OccursAt(s, sub, i)
    ensures Contains(s, sub)
  {
  }

  lemma ContainsSelf(s: string)
    ensures Contains(s, s)
  {
    assert OccursAt(s, s, 0);
  }

  /** A string includes each of its prefixes and suffixes. */
  lemma ContainsPrefix(s: string, p: string)
    requires p <= s
    ensures Contains(s, p)
  {
    assert OccursAt(s, p, 0);
  }

  lemma ContainsSuffix(s: string, p: string)
    requires EndsWith(s, p)
    ensures Contains(s, p)
  {
    assert OccursAt(s, p, |s| - |p|);
  }

  /** Substring containment is transitive. */
  lemma ContainsTrans(a: string, b: string, c: string)
    requires Contains(a, b) && Contains(b, c)
    ensures Contains(a, c)
  {
    var i: nat :| i <= |a| && OccursAt(a, b, i);
    var j: nat :| j <= |b| && OccursAt(b, c, j);
    forall k | 0 <= k < |c|
      ensures a[i + j + k] == c[k]
    {
      assert a[i..i + |b|][j + k] == b[j + k];
      assert b[j..j + |c|][k] == c[k];
    }
    assert a[i + j..i + j + |c|] == c;
    assert OccursAt(a, c, i + j);
  }

  /** A containing string is at least as long as what it contains. */
  lemma ContainsLength(s: string, sub: string)
    requires Contains(s, sub)
    ensures |sub| <= |s|
  {
  }

  /** Containment both ways is equality. */
  lemma ContainsAntisym(a: string, b: string)
    requires Contains(a, b) && Contains(b, a)
    ensures a == b
  {
    var i: nat :| i <= |a| && OccursAt(a, b, i);
  }

  /** What follows an occurrence of `sub` in `s` still contains any later text. */
  lemma ContainsSlice(s: string, sub: string, k: nat)
    requires k <= |s| && Contains(s[k..], sub)
    ensures Contains(s, sub)
  {
    var i: nat :| i <= |s[k..]| && OccursAt(s[k..], sub, i);
    assert s[k + i..k + i + |sub|] == s[k..][i..i + |sub|];
    assert OccursAt(s, sub, k + i);
  }

  // ---------------------------------------------------------------- split

  /**
   * `s.split(sep).pop()`: the text after the last occurrence of `sep`, or `s`
   * itself when `sep` does not occur.  Occurrences are found left to right
   * without overlap, as `split` does.
   */
  function AfterLast(s: string, sep: string): (r: string)
    requires |sep| > 0
    decreases |s|
    ensures !Contains(r, sep)
    ensures !Contains(s, sep) ==> r == s
    ensures Contains(s, sep) ==> EndsWith(s, sep + r)
  {
    var i := IndexOf(s, sep);
    if i < 0 then s else AfterLast(s[i + |sep|..], sep)
  }

  // ---------------------------------------------------------------- whitespace

  /** JavaScript `\s` and the characters `String.prototype.trim` removes. */
  predicate JsSpace(c: char) {
    c == '\t' || c == '\n' || c == '\U{0B}' || c == '\U{0C}' || c == '\r' || c == ' '
    || c == '\U{00A0}' || c == '\U{1680}' || ('\U{2000}' <= c <= '\U{200A}')
    || c == '\U{2028}' || c == '\U{2029}' || c == '\U{202F}' || c == '\U{205F}'
    || c == '\U{3000}' || c == '\U{FEFF}'
  }

  /** Python `\s` (for `str` patterns) and the characters `str.strip()` removes. */
  predicate PySpace(c: char) {
    ('\t' <= c <= '\r') || ('\U{1C}' <= c <= '\U{1F}') || c == ' '
    || c == '\U{0085}' || c == '\U{00A0}' || c == '\U{1680}' || ('\U{2000}' <= c <= '\U{200A}')
    || c == '\U{2028}' || c == '\U{2029}' || c == '\U{202F}' || c == '\U{205F}'
    || c == '\U{3000}'
  }

  /** Drops leading characters satisfying `ws`. */
  function TrimStart(s: string, ws: char -> bool): (r: string)
    decreases |s|
    ensures EndsWith(s, r)
    ensures |r| == 0 || !ws(r[0])
    ensures forall k :: 0 <= k < |s| - |r| ==> ws(s[k])
  {
    if |s| > 0 && ws(s[0]) then TrimStart(s[1..], ws) else s
  }

  /** Drops trailing characters satisfying `ws`. */
  function TrimEnd(s: string, ws: char -> bool): (r: string)
    decreases |s|
    ensures r <= s
    ensures |r| == 0 || !ws(r[|r| - 1])
    ensures forall k :: |r| <= k < |s| ==> ws(s[k])
  {
    if |s| > 0 && ws(s[|s| - 1]) then TrimEnd(s[..|s| - 1], ws) else s
  }

  /** Where the trimmed text sits in `s`: after the leading run of `ws`, before the trailing one. */
  lemma TrimSplit(s: string, ws: char -> bool)
    ensures var t := TrimStart(s, ws); var u := TrimEnd(t, ws); var i := |s| - |t|;
      OccursAt(s, u, i) &&
      (forall k :: 0 <= k < i ==> ws(s[k])) && (forall k :: i + |u| <= k < |s| ==> ws(s[k]))
  {
    var t := TrimStart(s, ws);
    var u := TrimEnd(t, ws);
    PrefixOfSuffix(s, t, u);
    forall k | |s| - |t| + |u| <= k < |s| ensures ws(s[k]) {
      assert s[k] == t[k - (|s| - |t|)];
    }
  }

  /** A prefix `u` of a suffix `t` of `s` sits in `s` where `t` begins. */
  lemma PrefixOfSuffix(s: string, t: string, u: string)
    requires EndsWith(s, t) && u <= t
    ensures OccursAt(s, u, |s| - |t|)
    ensures forall k :: |s| - |t| <= k < |s| ==> s[k] == t[k - (|s| - |t|)]
  {
    var i := |s| - |t|;
    assert t == s[i..];
    forall k | 0 <= k < |u| ensures s[i..i + |u|][k] == u[k] {
      assert u[k] == t[k] == s[i + k];
    }
  }

  /** Removes both leading and trailing characters satisfying `ws`. */
  function Trim(s: string, ws: char -> bool): (r: string)
    ensures Contains(s, r)
    ensures |r| == 0 || (!ws(r[0]) && !ws(r[|r| - 1]))
    ensures exists i: nat :: (OccursAt(s, r, i) &&
      (forall k :: 0 <= k < i ==> ws(s[k])) && (forall k :: i + |r| <= k < |s| ==> ws(s[k])))
  {
    var t := TrimStart(s, ws);
    var u := TrimEnd(t, ws);
    TrimSplit(s, ws);
    var i: nat := |s| - |t|;
    assert OccursAt(s, u, i);
    u
  }

  /** A string with no whitespace at either end is its own trim. */
  lemma TrimFixed(s: string, ws: char -> bool)
    requires |s| == 0 || (!ws(s[0]) && !ws(s[|s| - 1]))
    ensures Trim(s, ws) == s
  {
  }

  /** JavaScript `s.trim()`. */
  function JsTrim(s: string): string { Trim(s, JsSpace) }

  /** Python `s.strip()`. */
  function PyStrip(s: string): string { Trim(s, PySpace) }

  /** A prefix not ending in `c` after which `s` holds only `c` is what `rstrip(c)` leaves. */
  lemma RStripUnique(s: string, c: char, r: string)
    requires r <= s && (|r| == 0 || r[|r| - 1] != c)
    requires forall k :: |r| <= k < |s| ==> s[k] == c
    ensures RStripAll(s, c) == r
  {
    var q := RStripAll(s, c);
    assert |q| == |r| by {
      assert |r| > 0 ==> r[|r| - 1] == s[|r| - 1];
      assert |q| > 0 ==> q[|q| - 1] == s[|q| - 1];
    }
    assert q == s[..|q|] && r == s[..|r|];
  }

  /** Python `s.rstrip(c)` for a single character `c`. */
  function RStripAll(s: string, c: char): (r: string)
    decreases |s|
    ensures r <= s
    ensures |r| == 0 || r[|r| - 1] != c
    ensures forall k :: |r| <= k < |s| ==> s[k] == c
  {
    if |s| > 0 && s[|s| - 1] == c then RStripAll(s[..|s| - 1], c) else s
  }

  // ---------------------------------------------------------------- digits

  predicate IsDigit(c: char) { '0' <= c <= '9' }

  function DigitChar(d: nat): (c: char)
    requires d < 10
    ensures IsDigit(c) && (c as int) - ('0' as int) == d
  {
    ['0', '1', '2', '3', '4', '5', '6', '7', '8', '9'][d]
  }

  /** Decimal rendering of a natural number (no leading zeros). */
  function NatToString(n: nat): (r: string)
    decreases n
    ensures |r| >= 1
    ensures forall k :: 0 <= k < |r| ==> IsDigit(r[k])
    ensures |r| == 1 <==> n < 10
    ensures |r| > 1 ==> r[0] != '0'
  {
    if n < 10 then [DigitChar(n)] else NatToString(n / 10) + [DigitChar(n % 10)]
  }

  predicate AllDigits(s: string) { forall k :: 0 <= k < |s| ==> IsDigit(s[k]) }

  /** The number a string of decimal digits denotes, most significant digit first. */
  function DigitsValue(s: string): nat
    requires AllDigits(s)
    decreases |s|
  {
    if |s| == 0 then 0 else DigitsValue(s[..|s| - 1]) * 10 + ((s[|s| - 1] as int) - ('0' as int))
  }

  /** The rendering of `n` reads back as `n`. */
  lemma {:induction false} NatToStringValue(n: nat)
    decreases n
    ensures DigitsValue(NatToString(n)) == n
  {
    var r := NatToString(n);
    if n < 10 {
      assert r[..0] == [];
    } else {
      assert r[..|r| - 1] == NatToString(n / 10);
      NatToStringValue(n / 10);
    }
  }

  /** `String(n)` / `str(n)` for an integer. */
  function IntToString(n: int): (r: string)
    ensures n >= 0 ==> r == NatToString(n)
    ensures n < 0 ==> r == "-" + NatToString(-n)
  {
    if n < 0 then "-" + NatToString(-n) else NatToString(n)
  }

  /**
   * `String(n)` is `-` exactly for a negative `n`, followed by digits without a
   * leading zero that read back as the magnitude of `n`.
   */
  lemma IntToStringDenotes(n: int)
    ensures var r := IntToString(n);
      |r| >= 1 && (r[0] == '-' <==> n < 0) &&
      (n >= 0 ==> AllDigits(r) && DigitsValue(r) == n && (|r| > 1 ==> r[0] != '0')) &&
      (n < 0 ==> AllDigits(r[1..]) && DigitsValue(r[1..]) == -n && (|r| > 2 ==> r[1] != '0'))
  {
    var a := if n < 0 then -n else n;
    NatToStringValue(a);
    if n < 0 {
      assert IntToString(n)[1..] == NatToString(a);
    }
  }

  /** A month or day below 100, padded, is two digits that read back as the number. */
  lemma PaddedValue(m: int)
    requires 0 <= m < 100
    ensures var p := PadStart2(IntToString(m)); |p| == 2 && AllDigits(p) && DigitsValue(p) == m
  {
    NatToStringValue(m);
    var p := PadStart2(IntToString(m));
    if m < 10 {
      assert p == ['0', DigitChar(m)];
      assert p[..1] == ['0'] && p[..1][..0] == [];
    } else {
      assert |NatToString(m)| == 2 by {
        assert NatToString(m) == NatToString(m / 10) + [DigitChar(m % 10)];
      }
    }
  }

  /** `s.padStart(2, '0')`. */
  function PadStart2(s: string): (r: string)
    ensures |s| >= 2 ==> r == s
    ensures |s| < 2 ==> |r| == 2 && EndsWith(r, s) && forall k :: 0 <= k < 2 - |s| ==> r[k] == '0'
  {
    if |s| >= 2 then s else if |s| == 1 then "0" + s else "00"
  }

  /** Python `s.zfill(2)`: zeros go after a leading sign. */
  function ZFill2(s: string): (r: string)
    ensures |s| >= 2 ==> r == s
    ensures |s| < 2 ==> |r| == 2
    ensures |s| == 1 && s[0] != '+' && s[0] != '-' ==> r == "0" + s
    ensures |s| == 1 && (s[0] == '+' || s[0] == '-') ==> r == [s[0], '0']
    ensures |s| == 0 ==> r == "00"
  {
    if |s| >= 2 then s
    else if |s| == 1 && (s[0] == '+' || s[0] == '-') then [s[0], '0']
    else if |s| == 1 then "0" + s
    else "00"
  }

  /** On the rendering of any integer the two padding rules agree. */
  lemma PadAgreesWithZFill(n: int)
    ensures PadStart2(IntToString(n)) == ZFill2(IntToString(n))
  {
    if n < 0 {
      assert |IntToString(n)| >= 2;
    } else if n < 10 {
      assert IntToString(n) == [DigitChar(n)];
    }
  }
}
