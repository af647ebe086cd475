/** The JavaScript string operations the handlers rely on: prefix and substring search,
    `substring`, `trim` and the decimal rendering of integers. Strings are sequences of
    Unicode scalar values (Dafny `char`), and lengths and positions count those, where
    JavaScript counts UTF-16 code units: the two differ on text outside the Basic
    Multilingual Plane, whose characters JavaScript counts twice. */
module Text {
  import opened Common

  /** `s.startsWith(p)`. */
  predicate StartsWith(s: string, p: string)
  {
    |p| <= |s| && s[..|p|] == p
  }

  /** `s.indexOf(p)`: the first position at which `p` occurs in `s`, if any. */
  function IndexOf(s: string, p: string): (r: Option<nat>)
    ensures r.Some? ==> r.value <= |s| && StartsWith(s[r.value..], p)
    ensures r.Some? ==> forall j :: 0 <= j < r.value ==> !StartsWith(s[j..], p)
    ensures r.None? ==> forall j :: 0 <= j <= |s| ==> !StartsWith(s[j..], p)
    decreases |s|
  {
    if StartsWith(s, p) then Some(0)
    else if s == [] then None
    else
      var rest := IndexOf(s[1..], p);
      assert forall j :: 1 <= j <= |s| ==> s[1..][j - 1..] == s[j..];
      match rest
      case None => None
      case Some(k) => Some(k + 1)
  }

  /** `s.includes(p)`. */
  predicate Contains(s: string, p: string)
  {
    IndexOf(s, p).Some?
  }

  /** An occurrence of `p` at position `i` makes `s` contain `p`, first found no later than `i`. */
  lemma ContainsAt(s: string, p: string, i: nat)
    requires i <= |s| && StartsWith(s[i..], p)
    ensures Contains(s, p) && IndexOf(s, p).value <= i
  {
  }

  /** `s` contains `p` exactly when some position of `s` starts an occurrence of `p`. */
  lemma ContainsIff(s: string, p: string)
    ensures Contains(s, p) <==> exists i :: 0 <= i <= |s| && StartsWith(s[i..], p)
  {
    if Contains(s, p) {
      var i := IndexOf(s, p).value;
      assert StartsWith(s[i..], p);
    }
  }

  /** The index argument of `substring`, clamped to `[0, n]`. */
  function Clamp(i: int, n: nat): (r: nat)
    ensures r <= n
    ensures 0 <= i <= n ==> r == i
  {
    if i < 0 then 0 else if i > n then n else i
  }

  /** `s.substring(start, end)`: both indices clamped, and swapped when out of order. */
  function JsSubstring(s: string, start: int, end: int): (r: string)
    ensures |r| <= |s|
    ensures start <= 0 ==> r == s[..Clamp(end, |s|)]
  {
    var a := Clamp(start, |s|);
    var b := Clamp(end, |s|);
    if a <= b then s[a..b] else s[b..a]
  }

  /** The characters `String.prototype.trim` removes: white space and line terminators. */
  predicate IsJsSpace(c: char)
  {
    || c == ' ' || c == '\t' || c == '\n' || c == '\r' || c == '\U{000B}' || c == '\U{000C}'
    || c == '\U{00A0}' || c == '\U{1680}' || ('\U{2000}' <= c <= '\U{200A}')
    || c == '\U{2028}' || c == '\U{2029}' || c == '\U{202F}' || c == '\U{205F}'
    || c == '\U{3000}' || c == '\U{FEFF}'
  }

  /** Neither the first nor the last character is white space. */
  predicate IsTrimmed(s: string)
  {
    s == [] || (!IsJsSpace(s[0]) && !IsJsSpace(s[|s| - 1]))
  }

  /** `s.trimStart()`: the suffix left after dropping the leading white space. */
  function TrimStart(s: string): (r: string)
    ensures |r| <= |s| && r == s[|s| - |r|..]
    ensures forall k :: 0 <= k < |s| - |r| ==> IsJsSpace(s[k])
    ensures r != [] ==> !IsJsSpace(r[0])
    decreases |s|
  {
    if s != [] && IsJsSpace(s[0]) then TrimStart(s[1..]) else s
  }

  /** `s.trimEnd()`: the prefix left after dropping the trailing white space. */
  function TrimEnd(s: string): (r: string)
    ensures |r| <= |s| && r == s[..|r|]
    ensures forall k :: |r| <= k < |s| ==> IsJsSpace(s[k])
    ensures r != [] ==> !IsJsSpace(r[|r| - 1])
    decreases |s|
  {
    if s != [] && IsJsSpace(s[|s| - 1]) then TrimEnd(s[..|s| - 1]) else s
  }

  /** `s.trim()`. */
  function Trim(s: string): (r: string)
    ensures IsTrimmed(r)
    ensures |r| <= |s|
  {
    var t := TrimStart(s);
    var r := TrimEnd(t);
    assert r != [] ==> r[0] == t[0];
    r
  }

  /** Trimming a string without surrounding white space gives it back. */
  lemma TrimOfTrimmed(s: string)
    requires IsTrimmed(s)
    ensures Trim(s) == s
  {
  }

  predicate IsDigit(c: char)
  {
    '0' <= c <= '9'
  }

  predicate AllDigits(s: string)
  {
    forall k :: 0 <= k < |s| ==> IsDigit(s[k])
  }

  function DigitChar(d: nat): (c: char)
    requires d < 10
    ensures IsDigit(c)
  {
    ('0' as int + d) as char
  }

  /** The decimal rendering of a natural number, as `String(n)`. */
  function NatToString(n: nat): (r: string)
    ensures r != [] && AllDigits(r)
    decreases n
  {
    if n < 10 then [DigitChar(n)] else NatToString(n / 10) + [DigitChar(n % 10)]
  }

  /** The decimal rendering of an integer, with a leading minus sign when negative. */
  function IntToString(i: int): string
  {
    if i < 0 then "-" + NatToString(-i) else NatToString(i)
  }

  /** The number a string of decimal digits denotes. */
  function ParseNat(s: string): nat
    requires AllDigits(s)
  {
    if s == [] then 0 else 10 * ParseNat(s[..|s| - 1]) + (s[|s| - 1] as int - '0' as int)
  }

  /** Reading back a rendered number gives the number: the rendering is injective. */
  lemma {:induction false} ParseNatToString(n: nat)
    ensures ParseNat(NatToString(n)) == n
  {
    if n >= 10 {
      ParseNatToString(n / 10);
      var s := NatToString(n);
      assert s[..|s| - 1] == NatToString(n / 10);
    }
  }

  function Pow10(k: nat): (r: nat)
    ensures r >= 1
  {
    if k == 0 then 1 else 10 * Pow10(k - 1)
  }

  /** A number in `[10^k, 10^(k+1))` is rendered with exactly `k + 1` digits. */
  lemma {:induction false} NatToStringLength(n: nat, k: nat)
    requires Pow10(k) <= n < Pow10(k + 1)
    ensures |NatToString(n)| == k + 1
  {
    if k > 0 {
      assert Pow10(k) == 10 * Pow10(k - 1);
      assert Pow10(k + 1) == 10 * Pow10(k);
      assert Pow10(k - 1) <= n / 10 < Pow10(k);
      NatToStringLength(n / 10, k - 1);
    }
  }

  /** `decodeURIComponent` after the argument's conversion to a string: text without a
      percent sign is returned as it is; the decoding of escapes, which may fail with a
      `URIError` (None), is the parameter. */
  function DecodeUriComponent(s: string, decodeEscapes: string -> Option<string>): (r: Option<string>)
    ensures '%' !in s ==> r == Some(s)
  {
    if '%' in s then decodeEscapes(s) else Some(s)
  }
}
