/** The few JavaScript string operations the application relies on:
    `trim`, `toLowerCase`/`toUpperCase`, `includes` and `String(n)`. */
module JsText {
  import opened Wrappers

  /** `err.message || fallback`: the thrown message, unless it is missing or
      empty. */
  function ErrorText(message: Option<string>, fallback: string): (r: string)
    ensures message.Some? && message.value != "" ==> r == message.value
    ensures message.None? || message.value == "" ==> r == fallback
  {
    if message.Some? && message.value != "" then message.value else fallback
  }

  /** The white-space characters `String.prototype.trim` removes that this
      model recognises (ASCII white space, no-break space, the byte-order
      mark and the two Unicode line separators). */
  predicate IsSpace(c: char)
  {
    c == ' ' || c == '\t' || c == '\n' || c == '\r' || c == '\U{0B}' || c == '\U{0C}'
    || c == '\U{A0}' || c == '\U{FEFF}' || c == '\U{2028}' || c == '\U{2029}'
  }

  /** `s` with its leading white space removed. */
  function TrimStart(s: string): (r: string)
    ensures |r| <= |s| && r == s[|s| - |r|..]
    ensures forall i :: 0 <= i < |s| - |r| ==> IsSpace(s[i])
    ensures r == [] || !IsSpace(r[0])
  {
    if s == [] || !IsSpace(s[0]) then s else TrimStart(s[1..])
  }

  /** `s` with its trailing white space removed. */
  function TrimEnd(s: string): (r: string)
    ensures |r| <= |s| && r == s[..|r|]
    ensures forall i :: |r| <= i < |s| ==> IsSpace(s[i])
    ensures r == [] || !IsSpace(r[|r| - 1])
  {
    if s == [] || !IsSpace(s[|s| - 1]) then s else TrimEnd(s[..|s| - 1])
  }

  /** `s.trim()`. */
  function Trim(s: string): string
  {
    TrimEnd(TrimStart(s))
  }

  /** Whether `!s.trim()` holds: the string is empty or only white space. */
  predicate IsBlank(s: string)
  {
    Trim(s) == []
  }

  /** A string is blank exactly when every character of it is white space. */
  lemma BlankIffAllSpace(s: string)
    ensures IsBlank(s) <==> forall i :: 0 <= i < |s| ==> IsSpace(s[i])
  {
  }

  function LowerChar(c: char): char
  {
    if 'A' <= c <= 'Z' then (c as int + 32) as char else c
  }

  function UpperChar(c: char): char
  {
    if 'a' <= c <= 'z' then (c as int - 32) as char else c
  }

  /** `s.toLowerCase()` on the ASCII letters. */
  function ToLower(s: string): (r: string)
    ensures |r| == |s|
  {
    seq(|s|, i requires 0 <= i < |s| => LowerChar(s[i]))
  }

  /** `s.toUpperCase()` on the ASCII letters. */
  function ToUpper(s: string): (r: string)
    ensures |r| == |s|
  {
    seq(|s|, i requires 0 <= i < |s| => UpperChar(s[i]))
  }

  /** `t` occurs in `s` starting at index `i`. */
  predicate OccursAt(s: string, t: string, i: int)
  {
    0 <= i && i + |t| <= |s| && s[i..i + |t|] == t
  }

  /** `s.includes(t)`: `t` occurs in `s` at some position. */
  predicate Contains(s: string, t: string)
  {
    exists i | 0 <= i <= |s| - |t| :: OccursAt(s, t, i)
  }

  /** A string lacking one of the characters of `t` cannot contain `t`. */
  lemma MissingCharExcludes(s: string, t: string, k: int)
    requires 0 <= k < |t|
    requires forall i :: 0 <= i < |s| ==> s[i] != t[k]
    ensures !Contains(s, t)
  {
    forall i | 0 <= i <= |s| - |t|
      ensures !OccursAt(s, t, i)
    {
      assert s[i..i + |t|][k] == s[i + k];
    }
  }

  function DigitChar(d: nat): char
    requires d < 10
  {
    "0123456789"[d]
  }

  /** `String(n)` for a non-negative integer: its decimal digits, without
      leading zeros. */
  function DecimalString(n: nat): (r: string)
    ensures 1 <= |r|
    ensures forall i :: 0 <= i < |r| ==> '0' <= r[i] <= '9'
    ensures |r| > 1 ==> r[0] != '0'
  {
    if n < 10 then [DigitChar(n)] else DecimalString(n / 10) + [DigitChar(n % 10)]
  }

  /** The value of a string of decimal digits, read left to right. */
  function DigitsValue(s: string): nat
    requires forall i :: 0 <= i < |s| ==> '0' <= s[i] <= '9'
  {
    if s == [] then 0 else DigitsValue(s[..|s| - 1]) * 10 + (s[|s| - 1] as int - '0' as int)
  }

  /** Reading the digits back gives the number: `String(n)` loses nothing. */
  lemma {:induction false} DecimalStringRoundTrip(n: nat)
    ensures DigitsValue(DecimalString(n)) == n
  {
    if n >= 10 {
      DecimalStringRoundTrip(n / 10);
      var r := DecimalString(n);
      assert r[..|r| - 1] == DecimalString(n / 10);
    }
  }

  /** Different numbers print differently. */
  lemma DecimalStringInjective(m: nat, n: nat)
    requires DecimalString(m) == DecimalString(n)
    ensures m == n
  {
    DecimalStringRoundTrip(m);
    DecimalStringRoundTrip(n);
  }

  /** `String(i)` for any integer. */
  function IntString(i: int): (r: string)
    ensures i >= 0 ==> r == DecimalString(i)
    ensures i < 0 ==> r == "-" + DecimalString(-i)
  {
    if i < 0 then "-" + DecimalString(-i) else DecimalString(i)
  }
}
