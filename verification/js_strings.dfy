/** The few JavaScript string operations the modelled code relies on, over
    Dafny strings (sequences of Unicode scalar values):
    `trim`, `length` (which counts UTF-16 code units), `startsWith`,
    `includes`, `toLowerCase` on ASCII letters, the decimal text of an integer
    as produced by `Number.prototype.toString`, and `padStart`. */
module JsStrings {
  import opened Seqs

  /** The characters `String.prototype.trim` removes: the WhiteSpace and
      LineTerminator code points of section 12.2 and 12.3 of ECMA-262. */
  predicate IsJsWhitespace(c: char) {
    || c == '\t' || c == '\n' || c == '\U{000B}' || c == '\U{000C}' || c == '\r'
    || c == ' ' || c == '\U{00A0}' || c == '\U{1680}'
    || ('\U{2000}' <= c <= '\U{200A}')
    || c == '\U{2028}' || c == '\U{2029}' || c == '\U{202F}' || c == '\U{205F}'
    || c == '\U{3000}' || c == '\U{FEFF}'
  }

  ghost predicate AllWhitespace(s: string) {
    forall i :: 0 <= i < |s| ==> IsJsWhitespace(s[i])
  }

  /** Neither end of `s` is whitespace: what `trim` guarantees of its result. */
  predicate IsTrimmed(s: string) {
    s == [] || (!IsJsWhitespace(s[0]) && !IsJsWhitespace(s[|s| - 1]))
  }

  /** How many whitespace characters `s` starts with. */
  function LeadingWs(s: string): (n: nat)
    ensures n <= |s|
    ensures forall k :: 0 <= k < n ==> IsJsWhitespace(s[k])
    ensures n < |s| ==> !IsJsWhitespace(s[n])
  {
    if s != [] && IsJsWhitespace(s[0]) then
      var m := LeadingWs(s[1..]);
      assert forall k :: 1 <= k < m + 1 ==> s[k] == s[1..][k - 1];
      1 + m
    else 0
  }

  /** How many whitespace characters `s` ends with. */
  function TrailingWs(s: string): (n: nat)
    ensures n <= |s|
    ensures forall k :: |s| - n <= k < |s| ==> IsJsWhitespace(s[k])
    ensures n < |s| ==> !IsJsWhitespace(s[|s| - 1 - n])
  {
    if s != [] && IsJsWhitespace(s[|s| - 1]) then
      var m := TrailingWs(s[..|s| - 1]);
      assert forall k :: |s| - 1 - m <= k < |s| - 1 ==> s[k] == s[..|s| - 1][k];
      1 + m
    else 0
  }

  /** `s.trim()`: `s` minus its leading and trailing whitespace. */
  function Trim(s: string): (r: string)
    ensures IsTrimmed(r)
    ensures |r| <= |s|
  {
    var t := s[LeadingWs(s)..];
    t[..|t| - TrailingWs(t)]
  }

  /** What `trim` removed is whitespace, at the two ends only. */
  lemma TrimDecompose(s: string) returns (a: string, b: string)
    ensures s == a + Trim(s) + b
    ensures AllWhitespace(a) && AllWhitespace(b)
  {
    var n := LeadingWs(s);
    var t := s[n..];
    var m := TrailingWs(t);
    a := s[..n];
    b := t[|t| - m..];
    TrimParts(s, n, t, m);
    LeadingIsWhitespace(s);
    TrailingIsWhitespace(t);
  }

  lemma TrimParts(s: string, n: nat, t: string, m: nat)
    requires n == LeadingWs(s) && t == s[n..] && m == TrailingWs(t)
    ensures s == s[..n] + Trim(s) + t[|t| - m..]
  {
    assert Trim(s) == t[..|t| - m];
    Concat3(s, n, t, |t| - m);
  }

  lemma Concat3<T>(s: seq<T>, n: nat, t: seq<T>, j: nat)
    requires n <= |s| && t == s[n..] && j <= |t|
    ensures s == s[..n] + t[..j] + t[j..]
  {
    assert s == s[..n] + t;
    assert t == t[..j] + t[j..];
  }

  lemma LeadingIsWhitespace(s: string)
    ensures AllWhitespace(s[..LeadingWs(s)])
  {
    assert forall k :: 0 <= k < LeadingWs(s) ==> s[..LeadingWs(s)][k] == s[k];
  }

  lemma TrailingIsWhitespace(t: string)
    ensures AllWhitespace(t[|t| - TrailingWs(t)..])
  {
    var m := TrailingWs(t);
    var b := t[|t| - m..];
    assert forall k :: 0 <= k < m ==> b[k] == t[|t| - m + k];
  }

  /** The converse: whatever whitespace surrounds a trimmed string, `trim`
      takes exactly that whitespace away. With `TrimDecompose` this
      determines `Trim` completely. */
  lemma TrimPadded(a: string, t: string, b: string)
    requires AllWhitespace(a) && AllWhitespace(b) && IsTrimmed(t)
    ensures Trim(a + t + b) == t
  {
    var s := a + t + b;
    if t == [] {
      assert s == a + b;
      assert LeadingWs(s) == |s|;
    } else {
      assert s[|a|] == t[0];
      assert LeadingWs(s) == |a|;
      var u := s[|a|..];
      assert u == t + b;
      assert u[|t| - 1] == t[|t| - 1];
      assert TrailingWs(u) == |b|;
      assert u[..|t|] == t;
    }
  }

  lemma TrimIdempotent(s: string)
    ensures Trim(Trim(s)) == Trim(s)
  {
    TrimPadded([], Trim(s), []);
    assert [] + Trim(s) + [] == Trim(s);
  }

  /** `trim` leaves nothing exactly when there is nothing but whitespace. */
  lemma TrimEmpty(s: string)
    ensures Trim(s) == [] <==> AllWhitespace(s)
  {
    if AllWhitespace(s) {
      TrimPadded(s, [], []);
      assert s + [] + [] == s;
    } else {
      var a, b := TrimDecompose(s);
    }
  }

  /** UTF-16 code units in one character: 2 above the Basic Multilingual Plane. */
  function Utf16Units(c: char): nat {
    if c as int >= 0x1_0000 then 2 else 1
  }

  /** `s.length`, which counts UTF-16 code units, not characters. */
  function Utf16Length(s: string): (n: nat)
    ensures |s| <= n <= 2 * |s|
  {
    if s == [] then 0 else Utf16Units(s[0]) + Utf16Length(s[1..])
  }

  /** Below U+10000 every character is one code unit, so `length` is `|s|`. */
  lemma {:induction false} Utf16LengthBmp(s: string)
    requires forall i :: 0 <= i < |s| ==> s[i] as int < 0x1_0000
    ensures Utf16Length(s) == |s|
  {
    if s != [] {
      Utf16LengthBmp(s[1..]);
    }
  }

  lemma {:induction false} Utf16LengthAppend(a: string, b: string)
    ensures Utf16Length(a + b) == Utf16Length(a) + Utf16Length(b)
  {
    if a == [] {
      assert a + b == b;
    } else {
      assert (a + b)[1..] == a[1..] + b;
      Utf16LengthAppend(a[1..], b);
    }
  }

  /** `s.startsWith(p)`. */
  function StartsWith(s: string, p: string): (b: bool)
    ensures b <==> exists t :: s == p + t
  {
    PrefixSplit(s, p);
    |p| <= |s| && s[..|p|] == p
  }

  lemma PrefixSplit(s: string, p: string)
    ensures (exists t :: s == p + t) <==> |p| <= |s| && s[..|p|] == p
  {
    if |p| <= |s| && s[..|p|] == p {
      assert s == p + s[|p|..];
    }
    forall t | s == p + t
      ensures |p| <= |s| && s[..|p|] == p
    {
    }
  }

  /** `w` occurs somewhere in `s` as a contiguous piece. */
  ghost predicate Occurs(s: string, w: string) {
    exists i :: 0 <= i <= |s| && StartsWith(s[i..], w)
  }

  /** `s.includes(w)`. */
  function Contains(s: string, w: string): (b: bool)
    ensures b <==> Occurs(s, w)
    decreases |s|
  {
    if StartsWith(s, w) then
      assert s[0..] == s;
      true
    else if s == [] then
      false
    else
      OccursShift(s, w);
      Contains(s[1..], w)
  }

  /** An occurrence that is not at the front is an occurrence in the tail. */
  lemma OccursShift(s: string, w: string)
    requires s != [] && !StartsWith(s, w)
    ensures Occurs(s, w) <==> Occurs(s[1..], w)
  {
    if Occurs(s[1..], w) {
      var i :| 0 <= i <= |s| - 1 && StartsWith(s[1..][i..], w);
      assert s[1..][i..] == s[i + 1..];
    }
    if Occurs(s, w) {
      var i :| 0 <= i <= |s| && StartsWith(s[i..], w);
      assert i != 0;
      assert s[1..][i - 1..] == s[i..];
    }
  }

  /** `toLowerCase` on one character, for the ASCII letters only. */
  function LowerAscii(c: char): (d: char)
    ensures 'A' <= c <= 'Z' ==> d as int == c as int + 32
    ensures !('A' <= c <= 'Z') ==> d == c
  {
    if 'A' <= c <= 'Z' then (c as int + 32) as char else c
  }

  function ToLowerAscii(s: string): (r: string)
    ensures |r| == |s|
    ensures forall i :: 0 <= i < |s| ==> r[i] == LowerAscii(s[i])
  {
    seq(|s|, i requires 0 <= i < |s| => LowerAscii(s[i]))
  }

  /** Lower-casing twice is lower-casing once. */
  lemma ToLowerIdempotent(s: string)
    ensures ToLowerAscii(ToLowerAscii(s)) == ToLowerAscii(s)
  {
  }

  predicate IsDigit(c: char) {
    '0' <= c <= '9'
  }

  function DigitChar(d: nat): (c: char)
    requires d < 10
    ensures IsDigit(c) && c as int - '0' as int == d
  {
    ('0' as int + d) as char
  }

  /** The decimal text of a natural number, most significant digit first and
      without leading zeros: `n.toString()`. */
  function NatToString(n: nat): (s: string)
    ensures s != [] && forall i :: 0 <= i < |s| ==> IsDigit(s[i])
    ensures s[0] == '0' ==> n == 0 && |s| == 1
  {
    if n < 10 then [DigitChar(n)] else NatToString(n / 10) + [DigitChar(n % 10)]
  }

  /** `i.toString()` for an integer. */
  function IntToString(i: int): (s: string)
    ensures s != []
  {
    if i < 0 then "-" + NatToString(-i) else NatToString(i)
  }

  /** The value of a non-empty string of decimal digits. */
  function DigitsValue(s: string): nat
    requires s != [] && forall i :: 0 <= i < |s| ==> IsDigit(s[i])
  {
    assert IsDigit(s[|s| - 1]);
    var d := (s[|s| - 1] as int - '0' as int) as nat;
    if |s| == 1 then d else 10 * DigitsValue(s[..|s| - 1]) + d
  }

  /** Reads a natural number back from its decimal text; `None` when `s` is not
      a non-empty run of digits. */
  function ParseNat(s: string): (r: Option<nat>)
    ensures r.Some? <==> s != [] && forall i :: 0 <= i < |s| ==> IsDigit(s[i])
  {
    if s != [] && forall i :: 0 <= i < |s| ==> IsDigit(s[i]) then Some(DigitsValue(s)) else None
  }

  /** Reading the decimal text of `n` gives back `n`. */
  lemma {:induction false} ParseNatToString(n: nat)
    ensures ParseNat(NatToString(n)) == Some(n)
  {
    if n >= 10 {
      ParseNatToString(n / 10);
      var s := NatToString(n);
      assert s[..|s| - 1] == NatToString(n / 10);
    }
  }

  /** `n` copies of `c`. */
  function Repeat(c: char, n: nat): (r: string)
    ensures |r| == n && forall i :: 0 <= i < n ==> r[i] == c
  {
    seq(n, _ => c)
  }

  /** `s.padStart(n, c)` for a one-unit filler `c`: `s` itself if it already has
      `n` code units, otherwise `s` preceded by enough copies of `c`. */
  function PadStart(s: string, n: nat, c: char): (r: string)
    requires c as int < 0x1_0000
    ensures Utf16Length(s) >= n ==> r == s
    ensures Utf16Length(s) < n ==> Utf16Length(r) == n
    ensures exists k :: 0 <= k <= |r| && r == Repeat(c, k) + s
  {
    if Utf16Length(s) >= n then
      assert s == Repeat(c, 0) + s;
      s
    else
      var p := Repeat(c, n - Utf16Length(s));
      Utf16LengthBmp(p);
      Utf16LengthAppend(p, s);
      p + s
  }
}
