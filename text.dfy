/** The few JavaScript string operations the sources rely on: `trim`, the `\s`
    and `\d` character classes, `includes`, `toLowerCase`, and rendering an integer
    into a template literal. Characters are Unicode code points. */
module Text {

  /** The characters matched by `\s` and removed by `String.prototype.trim`. */
  predicate IsWhitespace(c: char)
  {
    c == ' ' || c == '\t' || c == '\n' || c == '\U{000B}' || c == '\U{000C}' || c == '\r'
    || c == '\U{00A0}' || c == '\U{1680}' || ('\U{2000}' <= c <= '\U{200A}')
    || c == '\U{2028}' || c == '\U{2029}' || c == '\U{202F}' || c == '\U{205F}'
    || c == '\U{3000}' || c == '\U{FEFF}'
  }

  /** The characters matched by `\d` (ASCII digits only). */
  predicate IsDigit(c: char)
  {
    '0' <= c <= '9'
  }

  function TrimStart(s: string): (r: string)
    ensures |r| <= |s| && r == s[|s| - |r|..]
    ensures forall i :: 0 <= i < |s| - |r| ==> IsWhitespace(s[i])
    ensures r == [] || !IsWhitespace(r[0])
  {
    if s != [] && IsWhitespace(s[0]) then TrimStart(s[1..]) else s
  }

  function TrimEnd(s: string): (r: string)
    ensures |r| <= |s| && r == s[..|r|]
    ensures forall i :: |r| <= i < |s| ==> IsWhitespace(s[i])
    ensures r == [] || !IsWhitespace(r[|r| - 1])
  {
    if s != [] && IsWhitespace(s[|s| - 1]) then TrimEnd(s[..|s| - 1]) else s
  }

  /** `s.trim()`: the longest slice of `s` that neither starts nor ends with white
      space, everything cut off being white space. */
  function Trim(s: string): (r: string)
    ensures exists k :: TrimmedAt(s, r, k)
    ensures r == [] || (!IsWhitespace(r[0]) && !IsWhitespace(r[|r| - 1]))
  {
    var t := TrimStart(s);
    CutsBlanks(s, t, TrimEnd(t));
    TrimEnd(t)
  }

  /** `r` sits at index `k` of `s`, and everything before and after it is white space. */
  predicate TrimmedAt(s: string, r: string, k: int)
  {
    && SliceAt(s, r, k)
    && (forall i :: 0 <= i < k ==> IsWhitespace(s[i]))
    && (forall i :: k + |r| <= i < |s| ==> IsWhitespace(s[i]))
  }

  /** Cutting white space off the front of `s`, leaving `t`, and then off the back of
      `t`, leaving `r`, leaves `r` at index `|s| - |t|` with white space around it. */
  lemma CutsBlanks(s: string, t: string, r: string)
    requires |t| <= |s| && t == s[|s| - |t|..] && forall i :: 0 <= i < |s| - |t| ==> IsWhitespace(s[i])
    requires |r| <= |t| && r == t[..|r|] && forall i :: |r| <= i < |t| ==> IsWhitespace(t[i])
    ensures TrimmedAt(s, r, |s| - |t|)
  {
    var k := |s| - |t|;
    PrefixOfSuffix(s, k, |r|);
    forall i | k + |r| <= i < |s| ensures IsWhitespace(s[i]) {
      assert s[i] == t[i - k];
    }
  }

  lemma PrefixOfSuffix(s: string, k: nat, n: nat)
    requires k + n <= |s|
    ensures s[k..][..n] == s[k..k + n]
  {
    forall i | 0 <= i < n ensures s[k..][..n][i] == s[k..k + n][i] {
      assert s[k..][..n][i] == s[k + i];
    }
  }

  /** A string is blank when trimming leaves nothing: `!s.trim()`. */
  lemma {:induction false} TrimEmptyIffBlank(s: string)
    ensures Trim(s) == [] <==> forall i :: 0 <= i < |s| ==> IsWhitespace(s[i])
  {
    var t := TrimStart(s);
    if forall i :: 0 <= i < |s| ==> IsWhitespace(s[i]) {
      assert t == [];
    } else {
      var i :| 0 <= i < |s| && !IsWhitespace(s[i]);
      assert t != [];
      assert TrimEnd(t) != [];
    }
  }

  /** White space padding around a text that starts and ends with something else is
      exactly what `trim` removes. */
  lemma {:induction false} TrimPadded(pre: string, body: string, post: string)
    requires forall i :: 0 <= i < |pre| ==> IsWhitespace(pre[i])
    requires forall i :: 0 <= i < |post| ==> IsWhitespace(post[i])
    requires body != [] && !IsWhitespace(body[0]) && !IsWhitespace(body[|body| - 1])
    ensures Trim(pre + body + post) == body
  {
    var s := pre + body + post;
    var t := TrimStart(s);
    var k := |s| - |t|;
    assert !IsWhitespace(s[|pre|]);
    assert forall j :: 0 <= j < |pre| ==> s[j] == pre[j];
    assert k == |pre|;
    assert t == body + post;
    var u := TrimEnd(t);
    assert t[|body| - 1] == body[|body| - 1];
    assert forall j :: |body| <= j < |t| ==> t[j] == post[j - |body|];
    assert |u| == |body|;
    assert u == t[..|body|] == body;
  }

  function DigitChar(d: nat): (c: char)
    requires d < 10
    ensures IsDigit(c) && c as int - '0' as int == d
  {
    "0123456789"[d]
  }

  /** The decimal numeral of `n`, as JavaScript renders a non-negative integer. */
  function NatToString(n: nat): (r: string)
    ensures |r| > 0 && forall i :: 0 <= i < |r| ==> IsDigit(r[i])
  {
    if n < 10 then [DigitChar(n)] else NatToString(n / 10) + [DigitChar(n % 10)]
  }

  /** `${n}` for an integer `n`. */
  function IntToString(n: int): (r: string)
    ensures |r| > 0 && (r[0] == '-' || IsDigit(r[0])) && forall i :: 1 <= i < |r| ==> IsDigit(r[i])
  {
    if n < 0 then "-" + NatToString(-n) else NatToString(n)
  }

  /** The value of a string of decimal digits. */
  function DigitsValue(s: string): nat
    requires forall i :: 0 <= i < |s| ==> IsDigit(s[i])
  {
    if s == [] then 0
    else
      assert IsDigit(s[|s| - 1]);
      DigitsValue(s[..|s| - 1]) * 10 + (s[|s| - 1] as int - '0' as int)
  }

  /** `parseInt` of a numeral produced by `IntToString`. */
  function ParseInt(s: string): int
    requires |s| > 0
    requires forall i :: 1 <= i < |s| ==> IsDigit(s[i])
    requires s[0] == '-' || IsDigit(s[0])
  {
    if s[0] == '-' then -(DigitsValue(s[1..]) as int) else DigitsValue(s)
  }

  lemma {:induction false} NatToStringRoundTrip(n: nat)
    ensures DigitsValue(NatToString(n)) == n
  {
    if n >= 10 {
      NatToStringRoundTrip(n / 10);
      var s := NatToString(n);
      assert s[..|s| - 1] == NatToString(n / 10);
    }
  }

  /** Rendering an integer loses nothing: different numbers give different text. */
  lemma {:induction false} IntToStringRoundTrip(n: int)
    ensures ParseInt(IntToString(n)) == n
  {
    if n < 0 {
      NatToStringRoundTrip(-n);
      assert IntToString(n)[1..] == NatToString(-n);
    } else {
      NatToStringRoundTrip(n);
    }
  }

  /** `sub` occurs in `s` starting at index `k`. */
  predicate SliceAt(s: string, sub: string, k: int)
  {
    0 <= k <= |s| - |sub| && s[k..k + |sub|] == sub
  }

  /** `s.includes(sub)` */
  predicate Includes(s: string, sub: string)
  {
    exists k :: 0 <= k <= |s| - |sub| && SliceAt(s, sub, k)
  }

  /** A string includes its own prefix. */
  lemma IncludesHead(b: string, rest: string)
    ensures Includes(b + rest, b)
  {
    assert SliceAt(b + rest, b, 0);
  }

  /** Whatever a suffix includes, the whole string includes. */
  lemma IncludesAfter(a: string, rest: string, b: string)
    requires Includes(rest, b)
    ensures Includes(a + rest, b)
  {
    var k :| 0 <= k <= |rest| - |b| && SliceAt(rest, b, k);
    assert (a + rest)[|a| + k..|a| + k + |b|] == rest[k..k + |b|];
    assert SliceAt(a + rest, b, |a| + k);
  }

  lemma IncludesEmpty(s: string)
    ensures Includes(s, "")
  {
    assert SliceAt(s, "", 0);
  }

  function LowerChar(c: char): char
  {
    if 'A' <= c <= 'Z' then (c as int + 32) as char else c
  }

  /** `s.toLowerCase()` restricted to the ASCII letters. */
  function ToLower(s: string): (r: string)
    ensures |r| == |s|
    ensures forall i :: 0 <= i < |s| ==> r[i] == LowerChar(s[i])
  {
    if s == [] then [] else [LowerChar(s[0])] + ToLower(s[1..])
  }

  lemma ToLowerIdempotent(s: string)
    ensures ToLower(ToLower(s)) == ToLower(s)
  {
    assert forall i :: 0 <= i < |s| ==> LowerChar(LowerChar(s[i])) == LowerChar(s[i]);
  }
}
