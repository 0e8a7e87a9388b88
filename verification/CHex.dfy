/** Hexadecimal numbers as the C library reads them (`strtol`, `strtoul` with base 16). */
module CHex {

  datatype Number = NoNumber | Number(value: int)

  predicate IsSpace(c: char) {
    c == ' ' || '\t' <= c <= '\r'
  }

  predicate IsHex(c: char) {
    '0' <= c <= '9' || 'A' <= c <= 'F' || 'a' <= c <= 'f'
  }

  function HexValue(c: char): (n: nat)
    requires IsHex(c)
    ensures n < 16
  {
    if c <= '9' then c as int - '0' as int
    else if c <= 'F' then c as int - 'A' as int + 10
    else c as int - 'a' as int + 10
  }

  /** The upper-case digit. */
  function HexDigit(n: nat): (c: char)
    requires n < 16
    ensures IsHex(c) && HexValue(c) == n
    ensures c != '%' && c != '&' && c != '=' && !('a' <= c <= 'f')
  {
    if n < 10 then (n + '0' as int) as char else (n - 10 + 'A' as int) as char
  }

  predicate AllHex(s: string) {
    forall i | 0 <= i < |s| :: IsHex(s[i])
  }

  function HexNumber(s: string): (n: nat)
    requires AllHex(s)
  {
    if s == [] then 0 else 16 * HexNumber(s[..|s| - 1]) + HexValue(s[|s| - 1])
  }

  /** Length of the longest prefix of hexadecimal digits. */
  function HexRun(s: string): (n: nat)
    ensures n <= |s| && AllHex(s[..n]) && (n < |s| ==> !IsHex(s[n]))
  {
    if s == [] || !IsHex(s[0]) then 0
    else
      var n := 1 + HexRun(s[1..]);
      assert forall i | 1 <= i < n :: s[i] == s[1..][i - 1];
      n
  }

  function SkipSpaces(s: string): (r: string) {
    if s != [] && IsSpace(s[0]) then SkipSpaces(s[1..]) else s
  }

  /** Digits, perhaps after `0x`. */
  function Unsigned(s: string): (n: Number) {
    var digits :=
      if |s| > 2 && s[0] == '0' && (s[1] == 'x' || s[1] == 'X') && IsHex(s[2]) then s[2..] else s;
    var run := HexRun(digits);
    if run == 0 then NoNumber else Number(HexNumber(digits[..run]))
  }

  /** White space, a sign, a number; what follows is ignored. */
  function Parse(s: string): (n: Number) {
    var t := SkipSpaces(s);
    if t != [] && t[0] == '-' then
      var u := Unsigned(t[1..]);
      if u.Number? then Number(-u.value) else NoNumber
    else if t != [] && t[0] == '+' then Unsigned(t[1..])
    else Unsigned(t)
  }

  lemma {:induction false} HexRunExact(s: string, n: nat)
    requires n <= |s| && AllHex(s[..n]) && (n < |s| ==> !IsHex(s[n]))
    ensures HexRun(s) == n
  {
    if n > 0 {
      assert s[..n][0] == s[0];
      assert s[1..][..n - 1] == s[..n][1..];
      HexRunExact(s[1..], n - 1);
    }
  }

  /** A number at the front, ended by the end of the string or by something that is no part of it. */
  lemma {:induction false} ParseDigits(digits: string, rest: string)
    requires digits != [] && AllHex(digits)
    requires rest == [] || (!IsHex(rest[0]) && rest[0] != 'x' && rest[0] != 'X')
    ensures Parse(digits + rest) == Number(HexNumber(digits))
  {
    var s := digits + rest;
    var n := |digits|;
    assert s[0] == digits[0] && IsHex(digits[0]);
    assert s[..n] == digits;
    assert |s| > 1 ==> s[1] == if n > 1 then digits[1] else rest[0];
    HexRunExact(s, n);
  }

  lemma HexNumberPair(a: char, b: char)
    requires IsHex(a) && IsHex(b)
    ensures AllHex([a, b]) && HexNumber([a, b]) == 16 * HexValue(a) + HexValue(b)
  {
    assert [a, b][..1] == [a] && [a][..0] == [];
    assert HexNumber([a]) == HexValue(a);
  }

  lemma ParsePair(a: char, b: char)
    requires IsHex(a) && IsHex(b)
    ensures Parse([a, b]) == Number(16 * HexValue(a) + HexValue(b))
  {
    HexNumberPair(a, b);
    ParseDigits([a, b], "");
    assert [a, b] + "" == [a, b];
  }

  /** What the sixteen digits stand for, in both cases. */
  lemma DigitValues()
    ensures forall i | 0 <= i < 10 :: "0123456789"[i] as int == '0' as int + i && HexValue("0123456789"[i]) == i
    ensures forall i | 0 <= i < 6 :: IsHex("ABCDEF"[i]) && HexValue("ABCDEF"[i]) == 10 + i
    ensures forall i | 0 <= i < 6 :: IsHex("abcdef"[i]) && HexValue("abcdef"[i]) == 10 + i
  {
  }
}
