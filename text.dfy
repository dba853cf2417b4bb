/**
 * String operations of the JavaScript runtime that the modelled code relies on:
 * `trim`, `toLowerCase`, `includes`, `replace` with a string pattern, and the
 * string-to-number conversion used by `<` and by Mongoose's Number cast.
 */
module Text {
  import opened Wrappers

  /** ECMAScript WhiteSpace and LineTerminator code points: what `trim()` removes and `\s` matches. */
  predicate IsSpace(c: char) {
    || c == ' ' || c == '\t' || c == '\n' || c == '\r'
    || c == '\U{000B}' || c == '\U{000C}' || c == '\U{00A0}' || c == '\U{1680}'
    || ('\U{2000}' <= c <= '\U{200A}')
    || c == '\U{2028}' || c == '\U{2029}' || c == '\U{202F}' || c == '\U{205F}'
    || c == '\U{3000}' || c == '\U{FEFF}'
  }

  predicate StartsWith(s: string, prefix: string) {
    |prefix| <= |s| && s[..|prefix|] == prefix
  }

  predicate EndsWith(s: string, suffix: string) {
    |suffix| <= |s| && s[|s| - |suffix|..] == suffix
  }

  /** `s` with its leading whitespace removed. */
  function TrimStart(s: string): (r: string)
    ensures |r| <= |s| && r == s[|s| - |r|..]
    ensures r == [] || !IsSpace(r[0])
    ensures forall i :: 0 <= i < |s| - |r| ==> IsSpace(s[i])
    decreases |s|
  {
    if s != [] && IsSpace(s[0]) then TrimStart(s[1..]) else s
  }

  /** `s` with its trailing whitespace removed. */
  function TrimEnd(s: string): (r: string)
    ensures |r| <= |s| && r == s[..|r|]
    ensures r == [] || !IsSpace(r[|r| - 1])
    ensures forall i :: |r| <= i < |s| ==> IsSpace(s[i])
    decreases |s|
  {
    if s != [] && IsSpace(s[|s| - 1]) then TrimEnd(s[..|s| - 1]) else s
  }

  /** `String.prototype.trim`: no whitespace is left at either end. */
  function Trim(s: string): (r: string)
    ensures r == [] || (!IsSpace(r[0]) && !IsSpace(r[|r| - 1]))
  {
    TrimEnd(TrimStart(s))
  }

  /** Trimming a trimmed string changes nothing (Mongoose's `trim` setter is stable). */
  lemma TrimIdempotent(s: string)
    ensures Trim(Trim(s)) == Trim(s)
  {
    var r := Trim(s);
    assert TrimStart(r) == r;
    assert TrimEnd(r) == r;
  }

  /** `toLowerCase` on the characters that can lower-case to ASCII: A-Z and the Kelvin sign. */
  function LowerChar(c: char): char {
    if 'A' <= c <= 'Z' then (c as int + 32) as char
    else if c == '\U{212A}' then 'k'
    else c
  }

  function Lower(s: string): (r: string)
    ensures |r| == |s|
  {
    seq(|s|, i requires 0 <= i < |s| => LowerChar(s[i]))
  }

  /** Lower-casing a lower-cased string changes nothing (Mongoose's `lowercase` setter is stable). */
  lemma LowerIdempotent(s: string)
    ensures Lower(Lower(s)) == Lower(s)
  {
    assert forall i :: 0 <= i < |s| ==> Lower(Lower(s))[i] == Lower(s)[i];
  }

  /** Whether `pattern` occurs in `s` starting at index `j`. */
  predicate MatchAt(s: string, pattern: string, j: nat) {
    j + |pattern| <= |s| && s[j..j + |pattern|] == pattern
  }

  /** `s.indexOf(pattern, from)`: the first index at or after `from` where `pattern` occurs. */
  function IndexOf(s: string, pattern: string, from: nat): (r: Option<nat>)
    ensures r.Some? ==> from <= r.value && MatchAt(s, pattern, r.value)
    ensures r.Some? ==> forall j :: from <= j < r.value ==> !MatchAt(s, pattern, j)
    ensures r.None? ==> forall j :: from <= j ==> !MatchAt(s, pattern, j)
    decreases |s| - from
  {
    if from + |pattern| > |s| then None
    else if MatchAt(s, pattern, from) then Some(from)
    else IndexOf(s, pattern, from + 1)
  }

  /** `s.includes(t)`. */
  predicate Contains(s: string, t: string) {
    IndexOf(s, t, 0).Some?
  }

  /** `s.replace(pattern, replacement)` with a string pattern: only the first occurrence is replaced. */
  function ReplaceFirst(s: string, pattern: string, replacement: string): string {
    match IndexOf(s, pattern, 0)
    case None => s
    case Some(i) => s[..i] + replacement + s[i + |pattern|..]
  }

  /** `replace` splices the replacement in at the first occurrence of the pattern, and only there. */
  lemma ReplaceFirstAt(s: string, pattern: string, replacement: string, i: nat)
    requires MatchAt(s, pattern, i)
    requires forall j :: 0 <= j < i ==> !MatchAt(s, pattern, j)
    ensures ReplaceFirst(s, pattern, replacement) == s[..i] + replacement + s[i + |pattern|..]
  {
  }

  /** Without an occurrence of the pattern, `replace` returns the string unchanged. */
  lemma ReplaceFirstAbsent(s: string, pattern: string, replacement: string)
    requires !Contains(s, pattern)
    ensures ReplaceFirst(s, pattern, replacement) == s
  {
  }

  /** `s.includes(t)` holds exactly when `t` occurs somewhere in `s`. */
  lemma ContainsIffMatch(s: string, t: string)
    ensures Contains(s, t) <==> exists j :: MatchAt(s, t, j)
  {
    if Contains(s, t) {
      assert MatchAt(s, t, IndexOf(s, t, 0).value);
    }
  }

  predicate IsDigit(c: char) {
    '0' <= c <= '9'
  }

  predicate AllDigits(s: string) {
    forall i :: 0 <= i < |s| ==> IsDigit(s[i])
  }

  function DigitsValue(s: string): nat
    requires AllDigits(s)
    decreases |s|
  {
    if s == [] then 0 else DigitsValue(s[..|s| - 1]) * 10 + (s[|s| - 1] as int - '0' as int)
  }

  /** A decimal integer with an optional sign; None for anything else. */
  function ParseInt(s: string): Option<int> {
    if |s| > 1 && s[0] == '-' && AllDigits(s[1..]) then Some(0 - DigitsValue(s[1..]) as int)
    else if |s| > 1 && s[0] == '+' && AllDigits(s[1..]) then Some(DigitsValue(s[1..]))
    else if |s| > 0 && AllDigits(s) then Some(DigitsValue(s))
    else None
  }

  /** The value of `c` as a digit of the given base (2, 8 or 16), if it is one. */
  function RadixDigit(c: char, base: nat): Option<nat> {
    var v: int :=
      if '0' <= c <= '9' then c as int - '0' as int
      else if 'a' <= c <= 'f' then c as int - 'a' as int + 10
      else if 'A' <= c <= 'F' then c as int - 'A' as int + 10
      else base;
    if v < base then Some(v) else None
  }

  predicate AllRadixDigits(s: string, base: nat) {
    forall i :: 0 <= i < |s| ==> RadixDigit(s[i], base).Some?
  }

  function RadixValue(s: string, base: nat): nat
    requires AllRadixDigits(s, base)
    decreases |s|
  {
    if s == [] then 0 else RadixValue(s[..|s| - 1], base) * base + RadixDigit(s[|s| - 1], base).value
  }

  /** The base a `0x`, `0o` or `0b` prefix (either case) selects; 0 when there is none. */
  function RadixOf(s: string): nat {
    if |s| < 2 || s[0] != '0' then 0
    else if s[1] == 'x' || s[1] == 'X' then 16
    else if s[1] == 'o' || s[1] == 'O' then 8
    else if s[1] == 'b' || s[1] == 'B' then 2
    else 0
  }

  /**
   * A non-decimal integer literal: the prefix, then at least one digit of its
   * base. JavaScript allows no sign here, so "-0x10" is NaN.
   */
  function ParseRadix(s: string): (r: Option<int>)
    ensures r.Some? ==> r.value >= 0
  {
    var base := RadixOf(s);
    if base != 0 && |s| > 2 && AllRadixDigits(s[2..], base) then Some(RadixValue(s[2..], base))
    else None
  }

  /**
   * JavaScript's ToNumber on a string: surrounding whitespace is ignored, a
   * blank string is 0, and what remains is a decimal integer with an optional
   * sign or a `0x`/`0o`/`0b` integer. None stands for NaN. It also stands for
   * the forms JavaScript reads but an integer cannot hold: fractions,
   * exponents and "Infinity".
   */
  function StringToNumber(s: string): Option<int> {
    var t := Trim(s);
    if t == "" then Some(0)
    else if RadixOf(t) != 0 then ParseRadix(t)
    else ParseInt(t)
  }

  /** `Number("0x10")` is 16: the hexadecimal prefix is read, not refused. */
  lemma HexPrefixRead()
    ensures StringToNumber("0x10") == Some(16)
  {
    assert TrimStart("0x10") == "0x10";
    assert Trim("0x10") == "0x10";
    assert "0x10"[2..] == "10";
    assert RadixValue("10", 16) == 16 by {
      assert "10"[..1] == "1" && "1"[..0] == "";
    }
  }

  function NatToString(n: nat): (r: string)
    ensures r != [] && AllDigits(r)
    decreases n
  {
    if n < 10 then [('0' as int + n) as char]
    else NatToString(n / 10) + [('0' as int + n % 10) as char]
  }

  /** `String(n)` for an integer. */
  function IntToString(n: int): (r: string)
    ensures r != []
  {
    if n < 0 then "-" + NatToString(-n) else NatToString(n)
  }
}
