/**
  The C library string routines the server relies on, as functions on
  `string`: `strstr` (substring containment), `index` (first occurrence of a
  character), `strcasecmp` against a fixed word, `isspace`, the `%s`
  conversion of `sscanf`, and the `%d` conversion of `sprintf`, together with
  the conversion of a wide integer to a 32-bit C `int`.
*/
module CString {
  import opened Wrappers

  // ---------------------------------------------------------------------
  // strstr

  /** `pat` occurs in `s` starting at index `i`. */
  predicate OccursAt(s: string, pat: string, i: nat) {
    i + |pat| <= |s| && s[i..i + |pat|] == pat
  }

  /** `strstr(s, pat) != NULL`: scan the start positions of `s` left to right. */
  predicate Contains(s: string, pat: string)
    decreases |s|
  {
    pat <= s || (|s| > 0 && Contains(s[1..], pat))
  }

  /** The scan finds `pat` exactly when it occurs at some index. */
  lemma {:induction false} ContainsIff(s: string, pat: string)
    ensures Contains(s, pat) <==> exists i: nat :: OccursAt(s, pat, i)
    decreases |s|
  {
    if pat <= s {
      assert OccursAt(s, pat, 0);
    } else if |s| > 0 {
      ContainsIff(s[1..], pat);
      if Contains(s[1..], pat) {
        var i: nat :| OccursAt(s[1..], pat, i);
        assert s[1..][i..i + |pat|] == s[i + 1..i + 1 + |pat|];
        assert OccursAt(s, pat, i + 1);
      } else {
        assert !OccursAt(s, pat, 0);
        forall i: nat | 0 < i ensures OccursAt(s, pat, i) ==> OccursAt(s[1..], pat, i - 1) {
          if i + |pat| <= |s| {
            assert s[1..][i - 1..i - 1 + |pat|] == s[i..i + |pat|];
          }
        }
      }
    }
  }

  /** An occurrence anywhere is found, not only at the start. */
  lemma ContainsAt(s: string, pat: string, i: nat)
    requires OccursAt(s, pat, i)
    ensures Contains(s, pat)
  {
    ContainsIff(s, pat);
  }

  /** Appending text keeps an occurrence. */
  lemma ContainsLeft(a: string, b: string, pat: string)
    requires Contains(a, pat)
    ensures Contains(a + b, pat)
  {
    ContainsIff(a, pat);
    var i: nat :| OccursAt(a, pat, i);
    assert (a + b)[i..i + |pat|] == a[i..i + |pat|];
    ContainsAt(a + b, pat, i);
  }

  /** Prepending text keeps an occurrence. */
  lemma ContainsRight(a: string, b: string, pat: string)
    requires Contains(b, pat)
    ensures Contains(a + b, pat)
  {
    ContainsIff(b, pat);
    var i: nat :| OccursAt(b, pat, i);
    assert (a + b)[|a| + i..|a| + i + |pat|] == b[i..i + |pat|];
    ContainsAt(a + b, pat, |a| + i);
  }

  /** Text ending in `pat` contains it. */
  lemma ContainsEnd(a: string, pat: string)
    ensures Contains(a + pat, pat)
  {
    assert (a + pat)[|a|..|a| + |pat|] == pat;
    ContainsAt(a + pat, pat, |a|);
  }

  /** `pat` occurs in `a + pat + b` whatever `a` and `b` are. */
  lemma ContainsInfix(a: string, pat: string, b: string)
    ensures Contains(a + pat + b, pat)
  {
    assert (a + pat + b)[|a|..|a| + |pat|] == pat;
    ContainsAt(a + pat + b, pat, |a|);
  }

  // ---------------------------------------------------------------------
  // index

  /** `c` occurs at `k` and nowhere before `k`. */
  predicate FirstAt(s: string, c: char, k: nat) {
    k < |s| && s[k] == c && forall i :: 0 <= i < k ==> s[i] != c
  }

  /** There is only one first occurrence. */
  lemma FirstAtUnique(s: string, c: char, j: nat, k: nat)
    requires FirstAt(s, c, j) && FirstAt(s, c, k)
    ensures j == k
  {
  }

  /** `index(s, c)`: the position of the first `c` in `s`, or none. */
  function FirstIndex(s: string, c: char): (r: Option<nat>)
    ensures r.None? <==> c !in s
    ensures r.Some? ==> FirstAt(s, c, r.value)
  {
    if s == [] then None
    else if s[0] == c then Some(0)
    else match FirstIndex(s[1..], c)
      case None => None
      case Some(k) => Some(k + 1)
  }

  // ---------------------------------------------------------------------
  // NUL-terminated strings

  const NUL: char := '\0'

  /**
    The C string a buffer holds: its characters up to the first NUL. Every
    string routine of the C library stops there.
  */
  function CStr(s: string): (r: string)
    ensures r <= s && NUL !in r
    ensures NUL in s ==> s[|r|] == NUL
    ensures NUL !in s ==> r == s
  {
    match FirstIndex(s, NUL)
    case None => s
    case Some(k) => s[..k]
  }

  /** What follows the first NUL is invisible to the C string routines. */
  lemma CStrStopsAtNul(s: string, rest: string)
    requires NUL !in s
    ensures CStr(s + [NUL] + rest) == s
  {
    var t := s + [NUL] + rest;
    var r := CStr(t);
    assert t[|s|] == NUL;
    assert forall i :: 0 <= i < |s| ==> t[i] == s[i];
    assert forall i :: 0 <= i < |r| ==> r[i] == t[i];
    assert t[..|s|] == s;
  }

  // ---------------------------------------------------------------------
  // strcasecmp

  /** `tolower` in the C locale: only the ASCII capitals change. */
  function ToLower(c: char): (r: char)
    ensures 'A' <= c <= 'Z' ==> r as int == c as int + 32
    ensures !('A' <= c <= 'Z') ==> r == c
  {
    if 'A' <= c <= 'Z' then (c as int + 32) as char else c
  }

  /** `strcasecmp(a, b) == 0`. */
  predicate EqualsIgnoreCase(a: string, b: string)
    ensures a == b ==> EqualsIgnoreCase(a, b)
    ensures EqualsIgnoreCase(a, b) ==> |a| == |b|
  {
    |a| == |b| && forall i :: 0 <= i < |a| ==> ToLower(a[i]) == ToLower(b[i])
  }

  /** Exactly the lower-case letter and its capital fold to a given lower-case ASCII letter. */
  lemma ToLowerIsLetter(c: char, lower: char)
    requires 'a' <= lower <= 'z'
    ensures ToLower(c) == lower <==> c == lower || c as int == lower as int - 32
  {
  }

  // ---------------------------------------------------------------------
  // isspace and sscanf's %s

  /** `isspace` in the C locale: space, \t, \n, \v, \f, \r. */
  predicate IsSpace(c: char) {
    c == ' ' || c == '\t' || c == '\n' || c == '\U{000B}' || c == '\U{000C}' || c == '\r'
  }

  predicate NoSpace(s: string) {
    forall i :: 0 <= i < |s| ==> !IsSpace(s[i])
  }

  /** What is left of `s` once its leading white space is skipped. */
  function SkipSpace(s: string): (r: string)
    ensures |r| <= |s| && r == s[|s| - |r|..]
    ensures r == [] || !IsSpace(r[0])
    ensures forall i :: 0 <= i < |s| - |r| ==> IsSpace(s[i])
  {
    if s != [] && IsSpace(s[0]) then SkipSpace(s[1..]) else s
  }

  /** The length of the longest prefix of `s` holding no white space. */
  function TokenLength(s: string): (n: nat)
    ensures n <= |s| && NoSpace(s[..n])
    ensures n < |s| ==> IsSpace(s[n])
  {
    if s != [] && !IsSpace(s[0]) then
      var n := 1 + TokenLength(s[1..]);
      assert s[..n] == [s[0]] + s[1..][..n - 1];
      n
    else 0
  }

  /**
    The strings that `sscanf(s, "%s %s ... %s", ...)` with `count`
    conversions stores, in order: every `%s` skips white space and takes the
    longest run of other characters; scanning stops at the end of the input,
    so fewer than `count` tokens can come back.
  */
  function ScanTokens(s: string, count: nat): (toks: seq<string>)
    ensures |toks| <= count
    ensures forall k :: 0 <= k < |toks| ==> toks[k] != [] && NoSpace(toks[k])
    decreases count
  {
    if count == 0 then []
    else
      var t := SkipSpace(s);
      if t == [] then []
      else
        var n := TokenLength(t);
        [t[..n]] + ScanTokens(t[n..], count - 1)
  }

  lemma SkipSpaceNone(s: string)
    requires s == [] || !IsSpace(s[0])
    ensures SkipSpace(s) == s
  {
  }

  lemma {:induction false} TokenLengthOf(t: string, rest: string)
    requires NoSpace(t)
    requires rest == [] || IsSpace(rest[0])
    ensures TokenLength(t + rest) == |t|
    decreases |t|
  {
    if t != [] {
      assert (t + rest)[1..] == t[1..] + rest;
      TokenLengthOf(t[1..], rest);
    }
  }

  /** One token followed by white space (or nothing) is scanned back as exactly that token. */
  lemma ScanFirst(t: string, rest: string, count: nat)
    requires t != [] && NoSpace(t)
    requires rest == [] || IsSpace(rest[0])
    requires count > 0
    ensures ScanTokens(t + rest, count) == [t] + ScanTokens(rest, count - 1)
  {
    SkipSpaceNone(t + rest);
    TokenLengthOf(t, rest);
    assert (t + rest)[..|t|] == t;
    assert (t + rest)[|t|..] == rest;
  }

  /** A run of white space only (possibly empty). */
  predicate AllSpace(w: string) {
    forall i :: 0 <= i < |w| ==> IsSpace(w[i])
  }

  lemma {:induction false} SkipSpaceRun(w: string, rest: string)
    requires AllSpace(w)
    ensures SkipSpace(w + rest) == SkipSpace(rest)
    decreases |w|
  {
    if w != [] {
      assert IsSpace((w + rest)[0]);
      assert (w + rest)[1..] == w[1..] + rest;
      assert AllSpace(w[1..]) by {
        forall i | 0 <= i < |w[1..]| ensures IsSpace(w[1..][i]) {
          assert w[1..][i] == w[i + 1];
        }
      }
      SkipSpaceRun(w[1..], rest);
    } else {
      assert w + rest == rest;
    }
  }

  /** A `%s` conversion skips a whole run of white space before its token. */
  lemma ScanSkipsRun(w: string, rest: string, count: nat)
    requires AllSpace(w)
    ensures ScanTokens(w + rest, count) == ScanTokens(rest, count)
  {
    SkipSpaceRun(w, rest);
  }

  /**
    Conversely, the first token scanned out of `s` sits between a run of
    white space and the remaining input, which is empty or starts with white
    space, and the remaining tokens are scanned out of that remainder.
  */
  lemma ScanSplit(s: string, count: nat) returns (lead: string, rest: string)
    requires ScanTokens(s, count) != []
    ensures AllSpace(lead)
    ensures rest == [] || IsSpace(rest[0])
    ensures s == lead + ScanTokens(s, count)[0] + rest
    ensures ScanTokens(s, count)[1..] == ScanTokens(rest, count - 1)
  {
    var t := SkipSpace(s);
    var n := TokenLength(t);
    var toks := ScanTokens(s, count);
    assert toks == [t[..n]] + ScanTokens(t[n..], count - 1);
    var k := |s| - |t|;
    lead := s[..k];
    rest := t[n..];
    assert AllSpace(lead) by {
      forall i | 0 <= i < |lead| ensures IsSpace(lead[i]) {
        assert lead[i] == s[i];
      }
    }
    ThreeParts(s, k, n);
  }

  lemma ThreeParts(s: string, k: nat, n: nat)
    requires k + n <= |s|
    ensures s == s[..k] + s[k..][..n] + s[k..][n..]
  {
    assert s[k..] == s[k..][..n] + s[k..][n..];
    assert s == s[..k] + s[k..];
  }

  // ---------------------------------------------------------------------
  // sprintf's %d, and the C int it prints

  predicate IsDigit(c: char) {
    '0' <= c <= '9'
  }

  predicate AllDigits(s: string) {
    forall i :: 0 <= i < |s| ==> IsDigit(s[i])
  }

  function DigitChar(d: nat): (c: char)
    requires d < 10
    ensures IsDigit(c) && (c as int - '0' as int) == d
  {
    (d + '0' as int) as char
  }

  /** `%d` of a non-negative value: decimal digits without leading zeros. */
  function NatToString(n: nat): (s: string)
    ensures s != [] && AllDigits(s)
    ensures s[0] == '0' ==> n == 0 && s == "0"
    decreases n
  {
    if n < 10 then [DigitChar(n)] else NatToString(n / 10) + [DigitChar(n % 10)]
  }

  /** `%d` of any value: a minus sign before the digits of a negative one. */
  function IntToString(i: int): (s: string)
    ensures i >= 0 ==> s != [] && AllDigits(s) && DecimalValue(s) == i
    ensures i < 0 ==> |s| >= 2 && s[0] == '-' && AllDigits(s[1..]) && DecimalValue(s[1..]) == -i
  {
    if i < 0 then
      var digits := NatToString(-i);
      DecimalRoundTrip(-i);
      assert ("-" + digits)[1..] == digits;
      "-" + digits
    else
      DecimalRoundTrip(i);
      NatToString(i)
  }


  /** The value a reader of the header gives a string of decimal digits. */
  function DecimalValue(s: string): nat
    requires AllDigits(s)
  {
    if s == [] then 0
    else DecimalValue(s[..|s| - 1]) * 10 + (s[|s| - 1] as int - '0' as int)
  }

  /** Reading back what `%d` printed gives the printed number. */
  lemma {:induction false} DecimalRoundTrip(n: nat)
    ensures DecimalValue(NatToString(n)) == n
    decreases n
  {
    var s := NatToString(n);
    if n >= 10 {
      DecimalRoundTrip(n / 10);
      assert s[..|s| - 1] == NatToString(n / 10);
    }
  }

  /** `%d` prints different numbers differently. */
  lemma NatToStringInjective(m: nat, n: nat)
    requires NatToString(m) == NatToString(n)
    ensures m == n
  {
    DecimalRoundTrip(m);
    DecimalRoundTrip(n);
  }

  const INT_MIN: int := -0x8000_0000
  const INT_MAX: int := 0x7FFF_FFFF

  /**
    Converting a wider integer to a 32-bit `int` (implementation-defined in
    C; every two's-complement compiler reduces it modulo 2^32).
  */
  function ToCInt(n: int): (r: int)
    ensures INT_MIN <= r <= INT_MAX
    ensures (r - n) % 0x1_0000_0000 == 0
    ensures INT_MIN <= n <= INT_MAX ==> r == n
  {
    (n - INT_MIN) % 0x1_0000_0000 + INT_MIN
  }
}
