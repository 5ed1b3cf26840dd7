/**
  The string operations of Python that the pipeline builders and the log
  parser rely on: `find`, `lower`, `split`, `strip`, `os.path.basename`,
  `'%d'`/`'%.Nd'` formatting and `int()` on decimal strings.
*/
module Text {
  import opened Wrappers

  // ---------------------------------------------------------------- find

  /** The first index at or after `k` where `t` occurs in `s`, or -1. */
  function FindFrom(s: string, t: string, k: nat): int
    requires k <= |s| + 1
    decreases |s| + 1 - k
  {
    if k > |s| then -1
    else if t <= s[k..] then k
    else FindFrom(s, t, k + 1)
  }

  /** The search from `k` finds the first occurrence at or after `k`, and -1 exactly when there is none. */
  lemma {:induction false} FindFromSpec(s: string, t: string, k: nat)
    requires k <= |s| + 1
    ensures FindFrom(s, t, k) == -1 || k <= FindFrom(s, t, k) <= |s|
    ensures FindFrom(s, t, k) >= 0 ==> t <= s[FindFrom(s, t, k)..] && forall j :: k <= j < FindFrom(s, t, k) ==> !(t <= s[j..])
    ensures FindFrom(s, t, k) == -1 ==> forall j :: k <= j <= |s| ==> !(t <= s[j..])
    decreases |s| + 1 - k
  {
    if k <= |s| && !(t <= s[k..]) {
      FindFromSpec(s, t, k + 1);
    }
  }

  /** Python's `s.find(t)`: the least index where `t` occurs, -1 when it does not occur. */
  function Find(s: string, t: string): int {
    FindFrom(s, t, 0)
  }

  /** `Find` yields the least occurrence, and -1 exactly when `t` does not occur in `s`. */
  lemma FindSpec(s: string, t: string)
    ensures Find(s, t) == -1 || 0 <= Find(s, t) <= |s|
    ensures Find(s, t) >= 0 ==> t <= s[Find(s, t)..] && forall j :: 0 <= j < Find(s, t) ==> !(t <= s[j..])
    ensures Find(s, t) == -1 <==> forall j :: 0 <= j <= |s| ==> !(t <= s[j..])
  {
    FindFromSpec(s, t, 0);
  }

  /** `t` occurs in `s` (Python's `s.find(t) >= 0`). */
  predicate Contains(s: string, t: string) {
    Find(s, t) >= 0
  }

  /** An occurrence of `t` inside `u`, where `u` itself occurs in `s` at `a`, is an occurrence in `s`. */
  lemma ContainsThrough(s: string, u: string, t: string, a: nat)
    requires a <= |s| && u <= s[a..]
    requires Contains(u, t)
    ensures Contains(s, t)
  {
    FindSpec(u, t);
    FindSpec(s, t);
    var k := Find(u, t);
    assert t <= u[k..];
    assert t <= s[a + k..] by {
      forall i | 0 <= i < |t| ensures t[i] == s[a + k + i] {
        assert t[i] == u[k + i];
        assert u[k + i] == s[a..][k + i];
      }
    }
  }

  // ---------------------------------------------------------------- lower

  /** ASCII lower-casing of one character. */
  function LowerChar(c: char): (r: char)
    ensures 'A' <= c <= 'Z' ==> r as int == c as int + 32
    ensures !('A' <= c <= 'Z') ==> r == c
  {
    if 'A' <= c <= 'Z' then (c as int + 32) as char else c
  }

  /** Python's `s.lower()` on the ASCII range. */
  function Lower(s: string): (r: string)
    ensures |r| == |s|
    ensures forall i :: 0 <= i < |s| ==> r[i] == LowerChar(s[i])
  {
    seq(|s|, i requires 0 <= i < |s| => LowerChar(s[i]))
  }

  // ---------------------------------------------------------------- whitespace

  /** The whitespace of Python 2 byte strings' `split()` and `strip()`: space, tab, newline, vertical tab, form feed, carriage return. */
  predicate IsSpace(c: char) {
    c == ' ' || 9 <= c as int <= 13
  }

  predicate NoSpace(s: string) {
    forall i :: 0 <= i < |s| ==> !IsSpace(s[i])
  }

  /** The end of the run of non-space characters starting at `i`. */
  function WordEnd(s: string, i: nat): (r: nat)
    requires i <= |s|
    ensures i <= r <= |s|
    ensures r == |s| || IsSpace(s[r])
    ensures forall j :: i <= j < r ==> !IsSpace(s[j])
    decreases |s| - i
  {
    if i == |s| || IsSpace(s[i]) then i else WordEnd(s, i + 1)
  }

  /** Python's `s.split()`: the maximal runs of non-space characters, in order. */
  function Split(s: string): (r: seq<string>)
    ensures forall i :: 0 <= i < |r| ==> |r[i]| > 0 && NoSpace(r[i])
    decreases |s|
  {
    if s == [] then []
    else if IsSpace(s[0]) then Split(s[1..])
    else
      var k := WordEnd(s, 1);
      [s[..k]] + Split(s[k..])
  }

  /** Every token `split` returns occurs in the string it came from, at the returned index. */
  lemma {:induction false} SplitTokenAt(s: string, i: nat) returns (k: nat)
    requires i < |Split(s)|
    ensures k <= |s| && Split(s)[i] <= s[k..]
    decreases |s|
  {
    if IsSpace(s[0]) {
      var k' := SplitTokenAt(s[1..], i);
      k := k' + 1;
      assert s[1..][k'..] == s[k..];
    } else {
      var w := WordEnd(s, 1);
      if i == 0 {
        k := 0;
      } else {
        var k' := SplitTokenAt(s[w..], i - 1);
        k := w + k';
        assert s[w..][k'..] == s[k..];
      }
    }
  }

  /** Python's `s.lstrip()` on whitespace. */
  function StripStart(s: string): (r: string)
    ensures |r| <= |s| && r == s[|s| - |r|..]
    ensures r == [] || !IsSpace(r[0])
    decreases |s|
  {
    if s != [] && IsSpace(s[0]) then StripStart(s[1..]) else s
  }

  /** Python's `s.rstrip()` on whitespace. */
  function StripEnd(s: string): (r: string)
    ensures r <= s
    ensures r == [] || !IsSpace(r[|r| - 1])
    decreases |s|
  {
    if s != [] && IsSpace(s[|s| - 1]) then StripEnd(s[..|s| - 1]) else s
  }

  /** Python's `s.strip()`: whitespace removed at both ends. */
  function Strip(s: string): (r: string)
    ensures r == [] || (!IsSpace(r[0]) && !IsSpace(r[|r| - 1]))
  {
    StripEnd(StripStart(s))
  }

  /** What occurs in the stripped string occurs in the original. */
  lemma StripContains(s: string, t: string)
    requires Contains(Strip(s), t)
    ensures Contains(s, t)
  {
    var u := StripStart(s);
    var a := |s| - |u|;
    assert Strip(s) <= s[a..] by {
      assert Strip(s) <= u;
    }
    ContainsThrough(s, Strip(s), t, a);
  }

  /** A token of the stripped string occurs in the original string. */
  lemma TokenContained(s: string, i: nat)
    requires i < |Split(Strip(s))|
    ensures Contains(s, Split(Strip(s))[i])
  {
    var k := SplitTokenAt(Strip(s), i);
    FindSpec(Strip(s), Split(Strip(s))[i]);
    assert Find(Strip(s), Split(Strip(s))[i]) >= 0;
    StripContains(s, Split(Strip(s))[i]);
  }

  // ---------------------------------------------------------------- basename

  /** `os.path.basename(s)`, equally `s.split('/').pop()`: what follows the last '/'. */
  function Basename(s: string): (r: string)
    ensures '/' !in r
    ensures |r| <= |s| && s == s[..|s| - |r|] + r
    ensures |r| == |s| || s[|s| - |r| - 1] == '/'
    decreases |s|
  {
    if s == [] || s[|s| - 1] == '/' then []
    else Basename(s[..|s| - 1]) + [s[|s| - 1]]
  }

  // ---------------------------------------------------------------- decimal numbers

  predicate IsDigit(c: char) {
    '0' <= c <= '9'
  }

  predicate AllDigits(s: string) {
    forall i :: 0 <= i < |s| ==> IsDigit(s[i])
  }

  function DigitChar(d: nat): (c: char)
    requires d < 10
    ensures IsDigit(c) && c as int - '0' as int == d
  {
    (48 + d) as char
  }

  /** The value of a string of decimal digits, most significant first. */
  function Value(s: string): nat
    requires AllDigits(s)
  {
    if s == [] then 0 else 10 * Value(s[..|s| - 1]) + (s[|s| - 1] as int - '0' as int)
  }

  /** The decimal digits of `n` without leading zeros: `'%d' % n` for `n >= 0`. */
  function Digits(n: nat): (r: string)
    ensures |r| >= 1 && AllDigits(r)
    ensures |r| > 1 ==> r[0] != '0'
    decreases n
  {
    if n < 10 then [DigitChar(n)] else Digits(n / 10) + [DigitChar(n % 10)]
  }

  function Zeros(k: nat): (r: string)
    ensures |r| == k && AllDigits(r)
    ensures forall i :: 0 <= i < k ==> r[i] == '0'
  {
    seq(k, i => '0')
  }

  /** Python's `'%.<width>d' % n`: the digits of |n| left-padded with zeros to `width`, signed. */
  function ZeroPad(n: int, width: nat): string {
    var d := Digits(if n < 0 then -n else n);
    var body := Zeros(if |d| < width then width - |d| else 0) + d;
    if n < 0 then "-" + body else body
  }

  /** Python's `'%d' % n`. */
  function Decimal(n: int): string {
    ZeroPad(n, 0)
  }

  /** Python's `int(s)` on an optionally signed string of ASCII digits; anything else raises. */
  function ParseInt(s: string): Option<int> {
    if |s| > 1 && (s[0] == '-' || s[0] == '+') && AllDigits(s[1..]) then
      var v: int := Value(s[1..]);
      Some(if s[0] == '-' then -v else v)
    else if |s| > 0 && AllDigits(s) then Some(Value(s))
    else None
  }

  lemma {:induction false} ValueOfDigits(n: nat)
    ensures Value(Digits(n)) == n
    decreases n
  {
    if n >= 10 {
      ValueOfDigits(n / 10);
      var d := Digits(n);
      assert d[..|d| - 1] == Digits(n / 10);
    }
  }

  lemma {:induction false} ValueIgnoresLeadingZeros(k: nat, t: string)
    requires AllDigits(t)
    ensures Value(Zeros(k) + t) == Value(t)
    decreases |t|
  {
    var z := Zeros(k) + t;
    if t == [] {
      assert z == Zeros(k);
      ZerosValue(k);
    } else {
      assert z[..|z| - 1] == Zeros(k) + t[..|t| - 1];
      ValueIgnoresLeadingZeros(k, t[..|t| - 1]);
    }
  }

  lemma {:induction false} ZerosValue(k: nat)
    ensures Value(Zeros(k)) == 0
  {
    if k > 0 {
      assert Zeros(k)[..k - 1] == Zeros(k - 1);
      ZerosValue(k - 1);
    }
  }

  /** `int('%.<width>d' % n) == n`: zero-padded formatting is read back exactly. */
  lemma PadRoundTrip(n: int, width: nat)
    ensures ParseInt(ZeroPad(n, width)) == Some(n)
  {
    var m := if n < 0 then -n else n;
    var d := Digits(m);
    var z := if |d| < width then width - |d| else 0;
    var body := Zeros(z) + d;
    assert AllDigits(body);
    assert Value(body) == m by {
      ValueOfDigits(m);
      ValueIgnoresLeadingZeros(z, d);
    }
    if n < 0 {
      ParseSigned(body);
    } else {
      ParseUnsigned(body);
    }
  }

  lemma ParseUnsigned(body: string)
    requires |body| > 0 && AllDigits(body)
    ensures ParseInt(body) == Some(Value(body))
  {
    assert body[0] != '-' && body[0] != '+';
  }

  lemma ParseSigned(body: string)
    requires |body| > 0 && AllDigits(body)
    ensures ParseInt("-" + body) == Some(0 - Value(body) as int)
  {
    var p := "-" + body;
    assert p[1..] == body;
    assert !AllDigits(p) by { assert !IsDigit(p[0]); }
  }

  /** Zero-padding to `width` produces at least `width` digits after the sign, exactly `width` when `|n|` fits. */
  lemma PadLength(n: nat, width: nat)
    requires |Digits(n)| <= width
    ensures |ZeroPad(n, width)| == width && AllDigits(ZeroPad(n, width))
  {
  }

  /** Numbers below 10^5 have at most five digits. */
  lemma {:induction false} DigitsBelow(n: nat, w: nat, bound: nat)
    requires bound == Pow10(w) && n < bound
    ensures |Digits(n)| <= if w == 0 then 1 else w
    decreases w
  {
    if w > 1 && n >= 10 {
      DigitsBelow(n / 10, w - 1, Pow10(w - 1));
    }
  }

  function Pow10(w: nat): (r: nat)
    ensures r >= 1
  {
    if w == 0 then 1 else 10 * Pow10(w - 1)
  }
}
