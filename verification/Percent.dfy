/** Percent coding of bytes. */
module Percent {
  import CHex
  import Lists

  // ---- Percent coding ----

  /** Characters that are written as a percent sign and two digits; the percent sign is not among them. */
  predicate Special(c: char) {
    || c == '!' || c == '#' || c == '$' || '&' <= c <= ',' || '/' <= c <= ';'
    || c == '=' || c == '?' || c == '@' || c == '[' || c == ']'
  }

  function EncodeChar(c: char): (s: string)
    ensures 1 <= |s| <= 3
  {
    if c == ' ' then "+"
    else if Special(c) then ['%', CHex.HexDigit(c as int / 16), CHex.HexDigit(c as int % 16)]
    else [c]
  }

  function Encode(v: string): (s: string) {
    if v == [] then "" else EncodeChar(v[0]) + Encode(v[1..])
  }

  /** The character that two characters after a percent sign stand for, as `strtol` and a cast to `char` give it. */
  function HexChar(hex: string): (c: char) {
    var n := CHex.Parse(hex);
    if n.Number? then (n.value % 256) as char else '\0'
  }

  function Decode(s: string): (v: string) {
    if s == [] then ""
    else if s[0] == '%' && |s| > 2 then [HexChar(s[1..3])] + Decode(s[3..])
    else [if s[0] == '+' then ' ' else s[0]] + Decode(s[1..])
  }

  method PercentEncode(value: string) returns (result: string)
    ensures result == Encode(value)
  {
    result := "";
    for i := 0 to |value|
      invariant Encode(value) == result + Encode(value[i..])
    {
      var c := value[i];
      assert value[i..][0] == c && value[i..][1..] == value[i + 1..];
      Lists.Assoc(result, EncodeChar(c), Encode(value[i + 1..]));
      if c == ' ' {
        result := result + "+";
      } else if Special(c) {
        result := result + ['%', CHex.HexDigit(c as int / 16), CHex.HexDigit(c as int % 16)];
      } else {
        result := result + [c];
      }
    }
  }

  method PercentDecode(value: string) returns (result: string)
    ensures result == Decode(value)
  {
    result := "";
    var i := 0;
    assert value[i..] == value;
    while i < |value|
      invariant i <= |value| && Decode(value) == result + Decode(value[i..])
    {
      var c := value[i];
      ghost var rest := value[i..];
      assert rest[0] == c && rest[1..] == value[i + 1..];
      if c == '%' && i + 2 < |value| {
        var decoded := HexChar(value[i + 1..i + 3]);
        assert rest[1..3] == value[i + 1..i + 3] && rest[3..] == value[i + 3..];
        Lists.Assoc(result, [decoded], Decode(value[i + 3..]));
        result := result + [decoded];
        i := i + 2;
      } else {
        Lists.Assoc(result, [if c == '+' then ' ' else c], Decode(value[i + 1..]));
        result := result + [if c == '+' then ' ' else c];
      }
      i := i + 1;
    }
  }

  // ---- Round trip ----

  /** A percent sign stands at the very end, or before it one character that needs no percent sign. */
  predicate Safe(v: string) {
    forall i | 0 <= i < |v| && v[i] == '%' :: i + 1 == |v| || (i + 2 == |v| && !Special(v[i + 1]))
  }

  lemma HexPair(c: char)
    requires Special(c)
    ensures HexChar([CHex.HexDigit(c as int / 16), CHex.HexDigit(c as int % 16)]) == c
  {
    var n := c as int;
    CHex.ParsePair(CHex.HexDigit(n / 16), CHex.HexDigit(n % 16));
    assert 16 * (n / 16) + n % 16 == n < 256;
  }

  /** One character other than a percent sign goes through. */
  lemma {:induction false} CharGoesThrough(c: char, rest: string)
    requires c != '%'
    ensures Decode(EncodeChar(c) + rest) == [c] + Decode(rest)
  {
    var s := EncodeChar(c) + rest;
    if Special(c) && c != ' ' {
      HexPair(c);
      assert s[1..3] == [CHex.HexDigit(c as int / 16), CHex.HexDigit(c as int % 16)];
      assert s[3..] == rest;
    } else {
      assert s[1..] == rest;
    }
  }

  lemma {:induction false} PrefixGoesThrough(v: string, rest: string)
    requires '%' !in v
    ensures Decode(Encode(v) + rest) == v + Decode(rest)
  {
    if v == [] {
      assert Encode(v) + rest == rest;
    } else {
      PrefixGoesThrough(v[1..], rest);
      Lists.Assoc(EncodeChar(v[0]), Encode(v[1..]), rest);
      CharGoesThrough(v[0], Encode(v[1..]) + rest);
      Lists.Assoc([v[0]], v[1..], Decode(rest));
      assert [v[0]] + v[1..] == v;
    }
  }

  lemma {:induction false} EncodeConcat(a: string, b: string)
    ensures Encode(a + b) == Encode(a) + Encode(b)
  {
    if a == [] {
      assert a + b == b && Encode(a) + Encode(b) == Encode(b);
    } else {
      assert (a + b)[1..] == a[1..] + b;
      EncodeConcat(a[1..], b);
      Lists.Assoc(EncodeChar(a[0]), Encode(a[1..]), Encode(b));
    }
  }

  /** A value without room for a code after a percent sign goes through. */
  lemma {:induction false} SafeGoesThrough(v: string)
    requires Safe(v)
    ensures Decode(Encode(v)) == v
  {
    if i :| 0 <= i < |v| && v[i] == '%' && '%' !in v[..i] {
      var tail := v[i..];
      assert v == v[..i] + tail && tail[0] == '%';
      EncodeConcat(v[..i], tail);
      PrefixGoesThrough(v[..i], Encode(tail));
      ShortTail(tail);
    } else {
      FirstPercent(v);
      PrefixGoesThrough(v, "");
      assert Encode(v) + "" == Encode(v) && v + "" == v;
    }
  }

  lemma {:induction false} FirstPercent(v: string)
    ensures '%' !in v || exists i | 0 <= i < |v| :: v[i] == '%' && '%' !in v[..i]
  {
    if v != [] {
      var n := |v| - 1;
      FirstPercent(v[..n]);
      if i :| 0 <= i < n && v[..n][i] == '%' && '%' !in v[..n][..i] {
        assert v[..n][..i] == v[..i];
      } else if v[n] == '%' {
        assert '%' !in v[..n];
      }
    }
  }

  lemma {:induction false} ShortTail(v: string)
    requires v != [] && v[0] == '%' && (|v| == 1 || (|v| == 2 && !Special(v[1])))
    ensures Decode(Encode(v)) == v
  {
    assert Encode(v) == ['%'] + Encode(v[1..]);
    assert Encode(v)[1..] == Encode(v[1..]);
    if |v| == 2 {
      assert v[1..] == [v[1]] && [v[1]][1..] == [];
      assert Encode([v[1]]) == EncodeChar(v[1]) + "";
      assert |Encode(v)| == 2;
      if v[1] != '%' {
        CharGoesThrough(v[1], "");
      } else {
        assert Decode("%") == "%";
      }
      assert v == ['%'] + [v[1]];
    } else {
      assert v[1..] == [];
    }
  }

  // ---- Percent signs are lost otherwise ----

  function Percents(v: string): (n: nat) {
    if v == [] then 0 else (if v[0] == '%' then 1 else 0) + Percents(v[1..])
  }

  lemma {:induction false} PercentsConcat(a: string, b: string)
    ensures Percents(a + b) == Percents(a) + Percents(b)
  {
    if a == [] {
      assert a + b == b;
    } else {
      assert (a + b)[1..] == a[1..] + b;
      PercentsConcat(a[1..], b);
    }
  }

  lemma {:induction false} PercentsPositive(v: string, i: nat)
    requires i < |v| && v[i] == '%'
    ensures Percents(v) > 0
  {
    if i > 0 {
      PercentsPositive(v[1..], i - 1);
    }
  }

  /** No percent sign is the code of a percent sign. */
  ghost predicate NoCodedPercent(s: string) {
    forall i | 0 <= i < |s| - 2 && s[i] == '%' :: HexChar(s[i + 1..i + 3]) != '%'
  }

  lemma OneDigit(s: string)
    requires |s| <= 1
    ensures CHex.Unsigned(s).Number? ==> 0 <= CHex.Unsigned(s).value < 16
  {
    if CHex.HexRun(s) == 1 {
      assert s[..1] == s && s[..0] == [];
      assert CHex.HexNumber(s) == CHex.HexValue(s[0]);
    }
  }

  /** Two characters of which the first is no hexadecimal digit hold one digit at most. */
  lemma NotHexFirst(a: char, b: char)
    requires !CHex.IsHex(a)
    ensures CHex.Parse([a, b]).Number? ==> -16 < CHex.Parse([a, b]).value < 16
  {
    var s := [a, b];
    assert s[1..] == [b] && [b][1..] == [];
    OneDigit([b]);
    OneDigit([]);
    if CHex.IsSpace(a) {
      assert CHex.SkipSpaces(s) == CHex.SkipSpaces([b]);
      assert CHex.SkipSpaces([b]) == [b] || CHex.SkipSpaces([b]) == [];
    } else {
      assert CHex.SkipSpaces(s) == s;
      CHex.HexRunExact(s, 0);
    }
  }

  lemma LetterFirst(a: char, b: char)
    requires CHex.IsHex(a) && a >= 'A' && !CHex.IsHex(b)
    ensures CHex.Parse([a, b]) == CHex.Number(CHex.HexValue(a))
  {
    var s := [a, b];
    CHex.HexRunExact(s, 1);
    assert CHex.SkipSpaces(s) == s;
    assert s[..1] == [a] && [a][..0] == [];
    assert CHex.HexNumber([a]) == CHex.HexValue(a);
  }

  lemma NonDigitPair(a: char, b: char)
    requires !('0' <= a <= '9')
    ensures HexChar([a, b]) != '%'
  {
    var n := CHex.Parse([a, b]);
    if !CHex.IsHex(a) {
      NotHexFirst(a, b);
      if n.Number? {
        NotPercent(n.value);
      }
    } else if CHex.IsHex(b) {
      CHex.ParsePair(a, b);
      NotPercent(n.value);
    } else {
      LetterFirst(a, b);
      NotPercent(n.value);
    }
  }

  lemma NotPercent(n: int)
    requires -16 < n < 16 || 160 <= n < 256
    ensures (n % 256) as char != '%'
  {
    assert n % 256 == if n < 0 then n + 256 else n;
  }

  lemma {:induction false} FirstOfEncoded(v: string)
    requires Encode(v) != []
    ensures !('0' <= Encode(v)[0] <= '9')
  {
  }

  /** What the encoder writes never holds the code of a percent sign, not even across codes. */
  lemma {:induction false} EncodedHasNoCodedPercent(v: string)
    ensures NoCodedPercent(Encode(v))
    decreases |v|
  {
    if v != [] {
      var c, s, rest := v[0], Encode(v), Encode(v[1..]);
      var n := |EncodeChar(c)|;
      EncodedHasNoCodedPercent(v[1..]);
      forall i | 0 <= i < |s| - 2 && s[i] == '%' ensures HexChar(s[i + 1..i + 3]) != '%' {
        if i >= n {
          assert s[i] == rest[i - n];
          assert s[i + 1..i + 3] == rest[i - n + 1..i - n + 3];
        } else if Special(c) && c != ' ' {
          assert i == 0;
          HexPair(c);
          assert s[1..3] == [CHex.HexDigit(c as int / 16), CHex.HexDigit(c as int % 16)];
        } else {
          FirstOfEncoded(v[1..]);
          assert s[1..3] == [rest[0], rest[1]];
          NonDigitPair(rest[0], rest[1]);
        }
      }
    }
  }

  function Tail(s: string): (t: string) {
    if |s| <= 2 then s else s[|s| - 2..]
  }

  lemma TailOfTail(s: string, k: nat)
    requires k <= |s|
    ensures Percents(Tail(s[k..])) <= Percents(Tail(s))
  {
    var t, u := Tail(s), Tail(s[k..]);
    assert t == t[..|t| - |u|] + u;
    PercentsConcat(t[..|t| - |u|], u);
  }

  /** How many characters decoding takes at once. */
  function Taken(s: string): (k: nat)
    requires s != []
    ensures 1 <= k <= |s|
  {
    if s[0] == '%' && |s| > 2 then 3 else 1
  }

  lemma SuffixHasNoCodedPercent(s: string, k: nat)
    requires NoCodedPercent(s) && k <= |s|
    ensures NoCodedPercent(s[k..])
  {
    var rest := s[k..];
    forall i | 0 <= i < |rest| - 2 && rest[i] == '%' ensures HexChar(rest[i + 1..i + 3]) != '%' {
      assert s[i + k] == '%' && rest[i + 1..i + 3] == s[i + k + 1..i + k + 3];
    }
  }

  lemma {:induction false} PercentsCons(c: char, v: string)
    ensures Percents([c] + v) == (if c == '%' then 1 else 0) + Percents(v)
  {
    assert ([c] + v)[1..] == v;
  }

  lemma {:induction false} DecodedHead(s: string)
    requires NoCodedPercent(s) && s != []
    ensures Percents(Decode(s))
            == (if s[0] == '%' && |s| <= 2 then 1 else 0) + Percents(Decode(s[Taken(s)..]))
  {
    if s[0] == '%' && |s| > 2 {
      PercentsCons(HexChar(s[1..3]), Decode(s[3..]));
    } else {
      PercentsCons(if s[0] == '+' then ' ' else s[0], Decode(s[1..]));
    }
  }

  /** Percent signs survive decoding only where there is no room for a code. */
  lemma {:induction false} DecodedPercents(s: string)
    requires NoCodedPercent(s)
    ensures Percents(Decode(s)) <= Percents(Tail(s))
    decreases |s|
  {
    if s != [] {
      var k := Taken(s);
      SuffixHasNoCodedPercent(s, k);
      DecodedPercents(s[k..]);
      DecodedHead(s);
      TailOfTail(s, k);
      if |s| <= 2 {
        PercentsCons(s[0], s[1..]);
        assert s == [s[0]] + s[1..];
      }
    }
  }

  lemma {:induction false} LastOfEncoded(v: string)
    requires v != []
    ensures var s := Encode(v); s != [] && (s[|s| - 1] == '%' <==> v[|v| - 1] == '%')
  {
    var n := |v| - 1;
    EncodeConcat(v[..n], v[n..]);
    assert v == v[..n] + v[n..];
    assert v[n..][1..] == [];
    assert Encode(v[n..]) == EncodeChar(v[n]) + "";
  }

  function One(c: char): (n: nat) {
    if c == '%' then 1 else 0
  }

  lemma PercentsPair(a: char, b: char)
    ensures Percents([a, b]) == One(a) + One(b)
  {
    PercentsCons(a, [b]);
    PercentsSingle(b);
    assert [a] + [b] == [a, b];
  }

  lemma PercentsSingle(a: char)
    ensures Percents([a]) == One(a)
  {
    PercentsCons(a, []);
    assert [a] + [] == [a];
  }

  lemma {:induction false} EncodePush(v: string, c: char)
    ensures Encode(v + [c]) == Encode(v) + EncodeChar(c)
  {
    EncodeConcat(v, [c]);
    assert [c][1..] == [] && EncodeChar(c) + "" == EncodeChar(c);
  }

  lemma {:induction false} TailAfterSpecial(v: string, c: char)
    requires Special(c)
    ensures Percents(Tail(Encode(v + [c]))) == 0
  {
    EncodePush(v, c);
    var high, low := CHex.HexDigit(c as int / 16), CHex.HexDigit(c as int % 16);
    assert Tail(Encode(v + [c])) == [high, low];
    PercentsPair(high, low);
  }

  lemma PlainCode(c: char)
    requires !Special(c)
    ensures |EncodeChar(c)| == 1 && One(EncodeChar(c)[0]) == One(c)
  {
  }

  lemma LastTwo(s: string, code: string)
    requires s != [] && |code| == 1
    ensures Percents(Tail(s + code)) == One(s[|s| - 1]) + One(code[0])
  {
    assert Tail(s + code) == [s[|s| - 1], code[0]];
    PercentsPair(s[|s| - 1], code[0]);
  }

  lemma {:induction false} TailAfterPlain(v: string, c: char)
    requires !Special(c)
    ensures Percents(Tail(Encode(v + [c]))) == Percents(Tail(v + [c]))
  {
    EncodePush(v, c);
    PlainCode(c);
    if v == [] {
      assert Encode(v) == [] && v + [c] == [c];
      TailOfOne(EncodeChar(c));
      TailOfOne([c]);
    } else {
      LastOfEncoded(v);
      LastTwo(Encode(v), EncodeChar(c));
      LastTwo(v, [c]);
    }
  }

  lemma TailOfOne(s: string)
    requires |s| == 1
    ensures Percents(Tail([] + s)) == One(s[0])
  {
    assert [] + s == [s[0]];
    PercentsSingle(s[0]);
  }

  lemma {:induction false} PercentsTail(v: string)
    ensures Percents(Tail(v)) <= Percents(v)
    ensures (exists i | 0 <= i < |v| - 2 :: v[i] == '%') ==> Percents(Tail(v)) < Percents(v)
  {
    if |v| > 2 {
      var n := |v| - 2;
      assert v == v[..n] + v[n..];
      PercentsConcat(v[..n], v[n..]);
      if i :| 0 <= i < n && v[i] == '%' {
        assert v[..n][i] == '%';
        PercentsPositive(v[..n], i);
      }
    }
  }

  /** The two last characters of what the encoder writes hold no more percent signs than the value, and fewer when
      the value is not safe. */
  lemma {:induction false} EncodedTail(v: string)
    ensures Percents(Tail(Encode(v))) <= Percents(v)
    ensures !Safe(v) ==> Percents(Tail(Encode(v))) < Percents(v)
  {
    if v != [] {
      var n := |v| - 1;
      assert v == v[..n] + [v[n]];
      if Special(v[n]) {
        TailAfterSpecial(v[..n], v[n]);
        if i :| 0 <= i < |v| && v[i] == '%' {
          PercentsPositive(v, i);
        }
      } else {
        TailAfterPlain(v[..n], v[n]);
        PercentsTail(v);
      }
    }
  }

  /** A value comes back from coding just when it is safe; one that is not loses a percent sign. */
  lemma {:induction false} GoesThroughIff(v: string)
    ensures Decode(Encode(v)) == v <==> Safe(v)
    ensures Percents(Decode(Encode(v))) <= Percents(v)
    ensures !Safe(v) ==> Percents(Decode(Encode(v))) < Percents(v)
  {
    EncodedHasNoCodedPercent(v);
    DecodedPercents(Encode(v));
    EncodedTail(v);
    if Safe(v) {
      SafeGoesThrough(v);
    }
  }

  /** A percent sign before two characters is taken for a code. */
  lemma PercentSignLost()
    ensures Decode(Encode("%AB")) != "%AB"
  {
    var v := "%AB";
    assert v[0] == '%' && !Safe(v);
    GoesThroughIff(v);
  }

  // ---- Which characters are coded ----

  /** The reserved characters of section 2.2 of RFC 3986. */
  const RESERVED := ":/?#[]@!$&'()*+,;="

  /** Coded are just the reserved characters and the digits. */
  lemma CodedAre(c: char)
    ensures Special(c) <==> c in RESERVED || '0' <= c <= '9'
    ensures |EncodeChar(c)| == 3 <==> c in RESERVED || '0' <= c <= '9'
    ensures c !in RESERVED && c != ' ' && !('0' <= c <= '9') ==> EncodeChar(c) == [c]
  {
    assert RESERVED[0] == ':' && RESERVED[1] == '/' && RESERVED[2] == '?' && RESERVED[3] == '#';
    assert RESERVED[4] == '[' && RESERVED[5] == ']' && RESERVED[6] == '@' && RESERVED[7] == '!';
    assert RESERVED[8] == '$' && RESERVED[9] == '&' && RESERVED[10] == '\'' && RESERVED[11] == '(';
    assert RESERVED[12] == ')' && RESERVED[13] == '*' && RESERVED[14] == '+' && RESERVED[15] == ',';
    assert RESERVED[16] == ';' && RESERVED[17] == '=';
  }

  lemma CodeIsClean(c: char, d: char)
    requires d in EncodeChar(c)
    ensures d in RESERVED ==> d == '+'
    ensures 'a' <= d <= 'f' ==> EncodeChar(c) == [d]
  {
    CodedAre(c);
    CodedAre(d);
  }

  /** Coded text holds no reserved character but plus, which stands for a space; codes are in upper case. */
  lemma {:induction false} EncodedHasNoReserved(v: string, i: nat)
    requires i < |Encode(v)|
    ensures Encode(v)[i] in RESERVED ==> Encode(v)[i] == '+'
  {
    var n := |EncodeChar(v[0])|;
    if i < n {
      CodeIsClean(v[0], EncodeChar(v[0])[i]);
    } else {
      EncodedHasNoReserved(v[1..], i - n);
    }
  }

  /** A code with digits of either case stands for the byte with that number; a plus for a space. */
  lemma {:induction false} CodeStandsFor(high: char, low: char, rest: string)
    requires CHex.IsHex(high) && CHex.IsHex(low)
    ensures Decode(['%', high, low] + rest) == [(16 * CHex.HexValue(high) + CHex.HexValue(low)) as char] + Decode(rest)
    ensures Decode(['+'] + rest) == [' '] + Decode(rest)
  {
    CHex.ParsePair(high, low);
    var s, t := ['%', high, low] + rest, ['+'] + rest;
    assert s[1..3] == [high, low] && s[3..] == rest && t[1..] == rest;
  }

  lemma Example()
    ensures Encode("a /") == "a+%2F"
  {
    assert "a /"[1..] == " /" && " /"[1..] == "/" && "/"[1..] == "";
    assert Encode("/") == "%2F" + "";
    assert Encode(" /") == "+" + "%2F";
    assert Encode("a /") == "a" + "+%2F";
  }
}
