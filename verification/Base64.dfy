/** Base64 (section 4 of RFC 4648). */
module Base64 {
  import opened Common
  import Lists

  type Digit = d: int | 0 <= d < 64

  // ---- The alphabet ----

  function Symbol(d: Digit): (c: char) {
    if d < 26 then (d + 'A' as int) as char
    else if d < 52 then (d - 26 + 'a' as int) as char
    else if d < 62 then (d - 52 + '0' as int) as char
    else if d == 62 then '+' else '/'
  }

  predicate IsBase64(c: char) {
    'A' <= c <= 'Z' || 'a' <= c <= 'z' || '0' <= c <= '9' || c == '+' || c == '/'
  }

  /** Where the symbol stands in the alphabet. */
  function Find(c: char): (d: Digit)
    requires IsBase64(c)
    ensures Symbol(d) == c
  {
    if 'A' <= c <= 'Z' then c as int - 'A' as int
    else if 'a' <= c <= 'z' then c as int - 'a' as int + 26
    else if '0' <= c <= '9' then c as int - '0' as int + 52
    else if c == '+' then 62 else 63
  }

  lemma FindSymbol(d: Digit)
    ensures IsBase64(Symbol(d)) && Find(Symbol(d)) == d && Symbol(d) != '='
  {
  }

  const UPPER := "ABCDEFGHIJKLMNOPQRSTUVWXYZ"
  const LOWER := "abcdefghijklmnopqrstuvwxyz"

  /** The alphabet of section 4 of RFC 4648, in order. */
  lemma AlphabetIs(d: Digit)
    ensures |UPPER| == |LOWER| == 26
    ensures Symbol(d) == (UPPER + LOWER + "0123456789+/")[d]
  {
    if d < 26 {
      UpperIs(d);
    } else if d < 52 {
      LowerIs(d - 26);
    } else {
      assert "0123456789+/"[d - 52] == Symbol(d);
    }
  }

  lemma UpperIs(i: nat)
    requires i < 26
    ensures UPPER[i] == ('A' as int + i) as char
  {
    if i < 13 {
      assert "ABCDEFGHIJKLM"[i] == UPPER[i];
    } else {
      assert "NOPQRSTUVWXYZ"[i - 13] == UPPER[i];
    }
  }

  lemma LowerIs(i: nat)
    requires i < 26
    ensures LOWER[i] == ('a' as int + i) as char
  {
    if i < 13 {
      assert "abcdefghijklm"[i] == LOWER[i];
    } else {
      assert "nopqrstuvwxyz"[i - 13] == LOWER[i];
    }
  }

  // ---- Groups of 24 bits, read as one number ----

  function Number3(a: Byte, b: Byte, c: Byte): (n: nat)
    ensures n < 0x100_0000
  {
    a * 0x1_0000 + b * 0x100 + c
  }

  function Number4(a: Digit, b: Digit, c: Digit, d: Digit): (n: nat)
    ensures n < 0x100_0000
  {
    a * 0x4_0000 + b * 0x1000 + c * 0x40 + d
  }

  function Digits4(n: nat): (ds: seq<Digit>)
    requires n < 0x100_0000
    ensures |ds| == 4 && Number4(ds[0], ds[1], ds[2], ds[3]) == n
  {
    var q1 := n / 64;
    var q2 := q1 / 64;
    [q2 / 64, q2 % 64, q1 % 64, n % 64]
  }

  function Bytes3(n: nat): (bs: seq<Byte>)
    requires n < 0x100_0000
    ensures |bs| == 3 && Number3(bs[0], bs[1], bs[2]) == n
  {
    var q := n / 256;
    [q / 256, q % 256, n % 256]
  }

  function Symbols(ds: seq<Digit>): (s: string)
    ensures |s| == |ds|
  {
    seq(|ds|, i requires 0 <= i < |ds| => Symbol(ds[i]))
  }

  /** What RFC 4648 prescribes: whole groups, then one or two bytes with zero bits to fill up and padding. */
  function Encode(bs: seq<Byte>): (s: string) {
    if |bs| == 0 then ""
    else if |bs| == 1 then Symbols(Digits4(Number3(bs[0], 0, 0))[..2]) + "=="
    else if |bs| == 2 then Symbols(Digits4(Number3(bs[0], bs[1], 0))[..3]) + "="
    else Symbols(Digits4(Number3(bs[0], bs[1], bs[2]))) + Encode(bs[3..])
  }

  lemma {:induction false} LengthStep(bs: seq<Byte>)
    ensures |Encode(bs)| == if |bs| == 0 then 0 else if |bs| < 3 then 4 else 4 + |Encode(bs[3..])|
  {
  }

  lemma {:induction false} LengthByGroups(bs: seq<Byte>, n: nat)
    requires 3 * n - 2 <= |bs| <= 3 * n
    ensures |Encode(bs)| == 4 * n
    decreases n
  {
    LengthStep(bs);
    if n > 1 {
      LengthByGroups(bs[3..], n - 1);
    }
  }

  /** Four symbols for every three bytes begun. */
  lemma {:induction false} EncodedLength(bs: seq<Byte>)
    ensures |Encode(bs)| == 4 * ((|bs| + 2) / 3)
  {
    LengthByGroups(bs, (|bs| + 2) / 3);
  }

  /** The digits up to the first character that is none. */
  function LeadingDigits(s: string): (ds: seq<Digit>) {
    if s == [] || !IsBase64(s[0]) then [] else [Find(s[0])] + LeadingDigits(s[1..])
  }

  function BytesOf(ds: seq<Digit>): (bs: seq<Byte>) {
    if |ds| < 2 then []
    else if |ds| == 2 then Bytes3(Number4(ds[0], ds[1], 0, 0))[..1]
    else if |ds| == 3 then Bytes3(Number4(ds[0], ds[1], ds[2], 0))[..2]
    else Bytes3(Number4(ds[0], ds[1], ds[2], ds[3])) + BytesOf(ds[4..])
  }

  function Decode(s: string): (bs: seq<Byte>) {
    BytesOf(LeadingDigits(s))
  }

  // ---- Round trip ----

  lemma Number3Injective(a: Byte, b: Byte, c: Byte, a': Byte, b': Byte, c': Byte)
    requires Number3(a, b, c) == Number3(a', b', c')
    ensures a == a' && b == b' && c == c'
  {
  }

  lemma Number4Injective(a: Digit, b: Digit, c: Digit, d: Digit, a': Digit, b': Digit, c': Digit, d': Digit)
    requires Number4(a, b, c, d) == Number4(a', b', c', d')
    ensures a == a' && b == b' && c == c' && d == d'
  {
  }

  lemma SplitFits(a: Byte, b: Byte, c: Byte)
    ensures a / 4 < 64 && a % 4 * 16 + b / 16 < 64 && b % 16 * 4 + c / 64 < 64
    ensures Number4(a / 4, a % 4 * 16 + b / 16, b % 16 * 4 + c / 64, c % 64) == Number3(a, b, c)
  {
    assert a == 4 * (a / 4) + a % 4;
    assert b == 16 * (b / 16) + b % 16;
    assert c == 64 * (c / 64) + c % 64;
  }

  lemma DigitsOfBytes(a: Byte, b: Byte, c: Byte)
    ensures a / 4 < 64 && a % 4 * 16 + b / 16 < 64 && b % 16 * 4 + c / 64 < 64
    ensures Digits4(Number3(a, b, c)) == [a / 4, a % 4 * 16 + b / 16, b % 16 * 4 + c / 64, c % 64]
  {
    SplitFits(a, b, c);
    var ds := Digits4(Number3(a, b, c));
    Number4Injective(a / 4, a % 4 * 16 + b / 16, b % 16 * 4 + c / 64, c % 64, ds[0], ds[1], ds[2], ds[3]);
  }

  lemma JoinFits(a: Digit, b: Digit, c: Digit, d: Digit)
    ensures a * 4 + b / 16 < 256 && b % 16 * 16 + c / 4 < 256 && c % 4 * 64 + d < 256
    ensures Number3(a * 4 + b / 16, b % 16 * 16 + c / 4, c % 4 * 64 + d) == Number4(a, b, c, d)
  {
    assert b == 16 * (b / 16) + b % 16;
    assert c == 4 * (c / 4) + c % 4;
  }

  lemma BytesOfDigits(a: Digit, b: Digit, c: Digit, d: Digit)
    ensures a * 4 + b / 16 < 256 && b % 16 * 16 + c / 4 < 256 && c % 4 * 64 + d < 256
    ensures Bytes3(Number4(a, b, c, d)) == [a * 4 + b / 16, b % 16 * 16 + c / 4, c % 4 * 64 + d]
  {
    JoinFits(a, b, c, d);
    var bs := Bytes3(Number4(a, b, c, d));
    Number3Injective(a * 4 + b / 16, b % 16 * 16 + c / 4, c % 4 * 64 + d, bs[0], bs[1], bs[2]);
  }

  lemma Group(a: Byte, b: Byte, c: Byte)
    ensures var ds := Digits4(Number3(a, b, c)); Bytes3(Number4(ds[0], ds[1], ds[2], ds[3])) == [a, b, c]
  {
    var n := Number3(a, b, c);
    var bs := Bytes3(n);
    Number3Injective(a, b, c, bs[0], bs[1], bs[2]);
  }

  /** Of the digits of one or two bytes, the last ones are zero, and so are the low bits of the one before. */
  lemma Filling(a: Byte, b: Byte)
    ensures var ds := Digits4(Number3(a, 0, 0)); ds[1] % 16 == 0 && ds[2] == 0 && ds[3] == 0
    ensures var ds := Digits4(Number3(a, b, 0)); ds[2] % 4 == 0 && ds[3] == 0
  {
    DigitsOfBytes(a, 0, 0);
    DigitsOfBytes(a, b, 0);
  }

  /** Digits come back from their bytes, also when zero bits fill them up. */
  lemma Regroup(a: Digit, b: Digit, c: Digit, d: Digit)
    ensures var bs := Bytes3(Number4(a, b, c, d)); Digits4(Number3(bs[0], bs[1], bs[2])) == [a, b, c, d]
    ensures c == d == 0 && b % 16 == 0 ==> var bs := Bytes3(Number4(a, b, c, d)); bs[1] == bs[2] == 0
    ensures d == 0 && c % 4 == 0 ==> Bytes3(Number4(a, b, c, d))[2] == 0
  {
    var ds := Digits4(Number4(a, b, c, d));
    Number4Injective(a, b, c, d, ds[0], ds[1], ds[2], ds[3]);
    BytesOfDigits(a, b, c, d);
  }

  lemma {:induction false} LeadingSymbols(ds: seq<Digit>, rest: string)
    ensures LeadingDigits(Symbols(ds) + rest) == ds + LeadingDigits(rest)
  {
    if ds != [] {
      FindSymbol(ds[0]);
      assert (Symbols(ds) + rest)[1..] == Symbols(ds[1..]) + rest;
      LeadingSymbols(ds[1..], rest);
      assert [ds[0]] + (ds[1..] + LeadingDigits(rest)) == ds + LeadingDigits(rest);
    } else {
      assert Symbols(ds) + rest == rest;
      assert ds + LeadingDigits(rest) == LeadingDigits(rest);
    }
  }

  lemma {:induction false} BytesOfGroup(ds: seq<Digit>, more: seq<Digit>)
    requires |ds| == 4
    ensures BytesOf(ds + more) == Bytes3(Number4(ds[0], ds[1], ds[2], ds[3])) + BytesOf(more)
  {
    assert (ds + more)[4..] == more;
  }

  lemma PaddingEnds()
    ensures LeadingDigits("=") == [] && LeadingDigits("==") == []
  {
  }

  lemma {:induction false} ShortGroup(ds: seq<Digit>, pad: string)
    requires LeadingDigits(pad) == []
    ensures LeadingDigits(Symbols(ds) + pad) == ds
  {
    LeadingSymbols(ds, pad);
    assert ds + [] == ds;
  }

  /** Decoding undoes encoding. */
  lemma {:induction false} DecodeEncode(bs: seq<Byte>)
    ensures Decode(Encode(bs)) == bs
    decreases |bs|
  {
    PaddingEnds();
    if |bs| == 1 {
      var ds := Digits4(Number3(bs[0], 0, 0));
      Group(bs[0], 0, 0);
      Filling(bs[0], 0);
      ShortGroup(ds[..2], "==");
      assert BytesOf(ds[..2]) == [bs[0], 0, 0][..1];
    } else if |bs| == 2 {
      var ds := Digits4(Number3(bs[0], bs[1], 0));
      Group(bs[0], bs[1], 0);
      Filling(bs[0], bs[1]);
      ShortGroup(ds[..3], "=");
      assert BytesOf(ds[..3]) == [bs[0], bs[1], 0][..2];
    } else if |bs| > 2 {
      var ds := Digits4(Number3(bs[0], bs[1], bs[2]));
      Group(bs[0], bs[1], bs[2]);
      LeadingSymbols(ds, Encode(bs[3..]));
      BytesOfGroup(ds, LeadingDigits(Encode(bs[3..])));
      DecodeEncode(bs[3..]);
      assert [bs[0], bs[1], bs[2]] + bs[3..] == bs;
    }
  }

  lemma {:induction false} EncodeInjective(a: seq<Byte>, b: seq<Byte>)
    requires Encode(a) == Encode(b)
    ensures a == b
  {
    DecodeEncode(a);
    DecodeEncode(b);
  }

  /** Test vectors from section 10 of RFC 4648. */
  lemma Examples()
    ensures Encode([102]) == "Zg==" && Encode([102, 111]) == "Zm8=" && Encode([102, 111, 111]) == "Zm9v"
  {
    ExampleDigits();
    assert Symbols([25, 32]) == "Zg" && Symbols([25, 38, 60]) == "Zm8" && Symbols([25, 38, 61, 47]) == "Zm9v";
    assert Encode([]) == "" && [102, 111, 111][3..] == [];
    assert "Zm9v" + "" == "Zm9v";
  }

  lemma ExampleDigits()
    ensures Digits4(Number3(102, 0, 0)) == [25, 32, 0, 0]
    ensures Digits4(Number3(102, 111, 0)) == [25, 38, 60, 0]
    ensures Digits4(Number3(102, 111, 111)) == [25, 38, 61, 47]
  {
    DigitsOfBytes(102, 0, 0);
    DigitsOfBytes(102, 111, 0);
    DigitsOfBytes(102, 111, 111);
  }

  // ---- Which strings are encodings ----

  predicate WholeGroup(s: string) {
    |s| >= 4 && IsBase64(s[0]) && IsBase64(s[1]) && IsBase64(s[2]) && IsBase64(s[3])
  }

  /** Groups of four symbols, the last one perhaps padded and then with zero fill bits. */
  predicate Canonical(s: string) {
    if s == [] then true
    else if WholeGroup(s) then Canonical(s[4..])
    else
      && |s| == 4 && IsBase64(s[0]) && IsBase64(s[1]) && s[3] == '='
      && if s[2] == '=' then Find(s[1]) % 16 == 0 else IsBase64(s[2]) && Find(s[2]) % 4 == 0
  }

  lemma {:induction false} EncodeIsCanonical(bs: seq<Byte>)
    ensures Canonical(Encode(bs))
    decreases |bs|
  {
    var s := Encode(bs);
    if |bs| == 1 {
      var ds := Digits4(Number3(bs[0], 0, 0));
      Filling(bs[0], 0);
      FindSymbol(ds[0]);
      FindSymbol(ds[1]);
      assert s[0] == Symbol(ds[0]) && s[1] == Symbol(ds[1]);
    } else if |bs| == 2 {
      var ds := Digits4(Number3(bs[0], bs[1], 0));
      Filling(bs[0], bs[1]);
      FindSymbol(ds[0]);
      FindSymbol(ds[1]);
      FindSymbol(ds[2]);
      assert s[0] == Symbol(ds[0]) && s[1] == Symbol(ds[1]) && s[2] == Symbol(ds[2]);
    } else if |bs| > 2 {
      var ds := Digits4(Number3(bs[0], bs[1], bs[2]));
      FindSymbol(ds[0]);
      FindSymbol(ds[1]);
      FindSymbol(ds[2]);
      FindSymbol(ds[3]);
      assert s[..4] == Symbols(ds) && s[4..] == Encode(bs[3..]);
      assert s[0] == s[..4][0] && s[1] == s[..4][1] && s[2] == s[..4][2] && s[3] == s[..4][3];
      EncodeIsCanonical(bs[3..]);
    }
  }

  lemma {:induction false} LeadingFour(s: string)
    requires WholeGroup(s)
    ensures LeadingDigits(s) == [Find(s[0]), Find(s[1]), Find(s[2]), Find(s[3])] + LeadingDigits(s[4..])
  {
    var ds := [Find(s[0]), Find(s[1]), Find(s[2]), Find(s[3])];
    assert s == Symbols(ds) + s[4..];
    LeadingSymbols(ds, s[4..]);
  }

  lemma EncodeDecodeGroup(s: string)
    requires WholeGroup(s)
    ensures Encode(Decode(s)) == s[..4] + Encode(Decode(s[4..]))
  {
    LeadingFour(s);
    var ds := [Find(s[0]), Find(s[1]), Find(s[2]), Find(s[3])];
    var more := LeadingDigits(s[4..]);
    BytesOfGroup(ds, more);
    Regroup(ds[0], ds[1], ds[2], ds[3]);
    var bs := Bytes3(Number4(ds[0], ds[1], ds[2], ds[3]));
    assert (bs + BytesOf(more))[3..] == BytesOf(more);
    assert s[..4] == Symbols(ds);
  }

  lemma {:induction false} EncodeDecodePadded(s: string)
    requires Canonical(s) && s != [] && !WholeGroup(s)
    ensures Encode(Decode(s)) == s
  {
    PaddingEnds();
    if s[2] == '=' {
      var ds := [Find(s[0]), Find(s[1])];
      assert s == Symbols(ds) + "==";
      ShortGroup(ds, "==");
      Regroup(ds[0], ds[1], 0, 0);
      assert [ds[0], ds[1], 0, 0][..2] == ds;
    } else {
      var ds := [Find(s[0]), Find(s[1]), Find(s[2])];
      assert s == Symbols(ds) + "=";
      ShortGroup(ds, "=");
      Regroup(ds[0], ds[1], ds[2], 0);
      assert [ds[0], ds[1], ds[2], 0][..3] == ds;
    }
  }

  lemma {:induction false} EncodeDecode(s: string)
    requires Canonical(s)
    ensures Encode(Decode(s)) == s
    decreases |s|
  {
    if WholeGroup(s) {
      EncodeDecodeGroup(s);
      EncodeDecode(s[4..]);
      assert s == s[..4] + s[4..];
    } else if s != [] {
      EncodeDecodePadded(s);
    }
  }

  /** Encoding undoes decoding on the encodings, and on no other string. */
  lemma {:induction false} EncodeDecodeIff(s: string)
    ensures Encode(Decode(s)) == s <==> Canonical(s)
  {
    EncodeIsCanonical(Decode(s));
    if Canonical(s) {
      EncodeDecode(s);
    }
  }

  // ---- The loops ----

  /** Appends the symbols of the first `n` digits. */
  method PutSymbols(ret: string, digits: array<Digit>, n: nat) returns (r: string)
    requires n <= digits.Length
    ensures r == ret + Symbols(digits[..n])
  {
    r := ret;
    for j := 0 to n
      invariant r == ret + Symbols(digits[..j])
    {
      r := r + [Symbol(digits[j])];
      assert Symbols(digits[..j + 1]) == Symbols(digits[..j]) + [Symbol(digits[j])];
    }
  }

  /** Splits three bytes into four digits; the masks and shifts are written as quotients and remainders. */
  method SplitBytes(bytes: array<Byte>, digits: array<Digit>)
    requires bytes.Length == 3 && digits.Length == 4
    modifies digits
    ensures digits[..] == Digits4(Number3(bytes[0], bytes[1], bytes[2]))
  {
    var a: int, b: int, c: int := bytes[0], bytes[1], bytes[2];
    DigitsOfBytes(a, b, c);
    digits[0] := a / 4;
    digits[1] := a % 4 * 16 + b / 16;
    digits[2] := b % 16 * 4 + c / 64;
    digits[3] := c % 64;
    assert digits[..] == [digits[0], digits[1], digits[2], digits[3]];
  }

  /** The bytes left over after the whole groups. */
  method EncodeRest(ret: string, bytes3: array<Byte>, digits4: array<Digit>, i: nat) returns (r: string)
    requires bytes3.Length == 3 && digits4.Length == 4 && 0 < i < 3
    modifies bytes3, digits4
    ensures r == ret + Encode(old(bytes3[..i]))
  {
    ghost var last := bytes3[..i];
    for j := i to 3
      invariant bytes3[..i] == last && forall x | i <= x < j :: bytes3[x] == 0
    {
      bytes3[j] := 0;
    }
    assert bytes3[0] == last[0] && (i == 2 ==> bytes3[1] == last[1]);
    SplitBytes(bytes3, digits4);
    r := PutSymbols(ret, digits4, i + 1);
    ghost var symbols := Symbols(digits4[..i + 1]);
    assert digits4[..i + 1] == digits4[..][..i + 1];
    var j := i;
    while j < 3
      invariant i <= j <= 3 && r == ret + (symbols + Padding(j - i))
    {
      r := r + "=";
      Lists.Assoc(symbols, Padding(j - i), "=");
      Lists.Assoc(ret, symbols + Padding(j - i), "=");
      j := j + 1;
    }
    PaddingValues();
  }

  function Padding(n: nat): (s: string) {
    if n == 0 then "" else Padding(n - 1) + "="
  }

  lemma PaddingValues()
    ensures Padding(1) == "=" && Padding(2) == "=="
  {
    assert Padding(1) == Padding(0) + "=";
  }

  /** A whole group. */
  method EncodeThree(ret: string, bytes3: array<Byte>, digits4: array<Digit>) returns (r: string)
    requires bytes3.Length == 3 && digits4.Length == 4
    modifies digits4
    ensures r == ret + Encode(bytes3[..])
  {
    SplitBytes(bytes3, digits4);
    assert digits4[..4] == digits4[..];
    r := PutSymbols(ret, digits4, 4);
    assert Encode(bytes3[..]) == Symbols(digits4[..]) + Encode([]);
  }

  lemma {:induction false} EncodeSplit(done: string, group: seq<Byte>, rest: seq<Byte>)
    requires |group| == 3
    ensures done + Encode(group + rest) == (done + Encode(group)) + Encode(rest)
  {
    assert (group + rest)[3..] == rest;
    assert Encode(group) == Symbols(Digits4(Number3(group[0], group[1], group[2]))) + Encode([]);
    Lists.Assoc(done, Encode(group), Encode(rest));
  }

  lemma TakeByte(taken: seq<Byte>, bytes: seq<Byte>, k: nat)
    requires k < |bytes|
    ensures taken + bytes[k..] == (taken + [bytes[k]]) + bytes[k + 1..]
  {
  }

  /** Takes one byte into the group and encodes the group when it is complete. */
  method PutByte(ret: string, bytes3: array<Byte>, digits4: array<Digit>, i: nat, b: Byte)
    returns (r: string, n: nat)
    requires bytes3.Length == 3 && digits4.Length == 4 && i < 3
    modifies bytes3, digits4
    ensures n == if i < 2 then i + 1 else 0
    ensures i < 2 ==> r == ret && bytes3[..n] == old(bytes3[..i]) + [b]
    ensures i == 2 ==> r == ret + Encode(old(bytes3[..i]) + [b])
  {
    ghost var group := bytes3[..i] + [b];
    r := ret;
    bytes3[i] := b;
    n := i + 1;
    assert bytes3[..n] == group;
    if n == 3 {
      assert bytes3[..] == group;
      r := EncodeThree(ret, bytes3, digits4);
      n := 0;
    }
  }

  method EncodeBytes(bytes: seq<Byte>) returns (ret: string)
    requires |bytes| < 0x1_0000_0000
    ensures ret == Encode(bytes)
  {
    ret := "";
    var i, k := 0, 0;
    var bytes3, digits4 := new Byte[3], new Digit[4];
    assert bytes3[..i] + bytes[k..] == bytes;
    while k < |bytes|
      invariant 0 <= i < 3 && k <= |bytes|
      invariant Encode(bytes) == ret + Encode(bytes3[..i] + bytes[k..])
    {
      ghost var taken := bytes3[..i];
      TakeByte(taken, bytes, k);
      if i == 2 {
        EncodeSplit(ret, taken + [bytes[k]], bytes[k + 1..]);
      }
      ret, i := PutByte(ret, bytes3, digits4, i, bytes[k]);
      k := k + 1;
      assert i == 0 ==> bytes3[..i] + bytes[k..] == bytes[k..];
    }
    assert bytes3[..i] + bytes[k..] == bytes3[..i];
    if i != 0 {
      ret := EncodeRest(ret, bytes3, digits4, i);
    }
  }

  /** Joins four digits into three bytes. */
  method JoinDigits(digits: array<Digit>, bytes: array<Byte>)
    requires bytes.Length == 3 && digits.Length == 4
    modifies bytes
    ensures bytes[..] == Bytes3(Number4(digits[0], digits[1], digits[2], digits[3]))
  {
    var a: int, b: int, c: int, d: int := digits[0], digits[1], digits[2], digits[3];
    BytesOfDigits(a, b, c, d);
    bytes[0] := a * 4 + b / 16;
    bytes[1] := b % 16 * 16 + c / 4;
    bytes[2] := c % 4 * 64 + d;
    assert bytes[..] == [bytes[0], bytes[1], bytes[2]];
  }

  /** Appends the first `n` bytes. */
  method PutBytes(ret: seq<Byte>, bytes: array<Byte>, n: nat) returns (r: seq<Byte>)
    requires n <= bytes.Length
    ensures r == ret + bytes[..n]
  {
    r := ret;
    for j := 0 to n
      invariant r == ret + bytes[..j]
    {
      r := r + [bytes[j]];
    }
  }

  /** Replaces the first `n` characters by their places in the alphabet. */
  method FindAll(chars: array<char>, digits: array<Digit>, n: nat)
    requires n <= chars.Length && n <= digits.Length
    requires forall j | 0 <= j < n :: IsBase64(chars[j])
    modifies digits
    ensures forall j | 0 <= j < n :: digits[j] == Find(chars[j])
  {
    for j := 0 to n
      invariant forall x | 0 <= x < j :: digits[x] == Find(chars[x])
    {
      digits[j] := Find(chars[j]);
    }
  }

  function Finds(s: string): (ds: seq<Digit>)
    requires forall j | 0 <= j < |s| :: IsBase64(s[j])
    ensures |ds| == |s|
  {
    seq(|s|, j requires 0 <= j < |s| => Find(s[j]))
  }

  /** The digits left over after the whole groups; the last two bytes of the group are not complete. */
  method DecodeRest(ret: seq<Byte>, chars: array<char>, digits4: array<Digit>, bytes3: array<Byte>, i: nat)
    returns (r: seq<Byte>)
    requires chars.Length == 4 && digits4.Length == 4 && bytes3.Length == 3 && 0 < i < 4
    requires forall j | 0 <= j < i :: IsBase64(chars[j])
    modifies digits4, bytes3
    ensures r == ret + Decode(chars[..i])
  {
    FindAll(chars, digits4, i);
    JoinDigits(digits4, bytes3);
    r := PutBytes(ret, bytes3, i - 1);
    RestBytes(digits4[0], digits4[1], digits4[2], digits4[3]);
    LeadingAll(chars[..i], "");
    assert Finds(chars[..i]) == digits4[..i];
    assert bytes3[..i - 1] == bytes3[..][..i - 1];
  }

  /** The bytes that are complete do not depend on the digits that are missing. */
  lemma RestBytes(a: Digit, b: Digit, c: Digit, d: Digit)
    ensures Bytes3(Number4(a, b, c, d))[..1] == BytesOf([a, b])
    ensures Bytes3(Number4(a, b, c, d))[..2] == BytesOf([a, b, c])
  {
    BytesOfDigits(a, b, c, d);
    BytesOfDigits(a, b, 0, 0);
    BytesOfDigits(a, b, c, 0);
  }

  lemma {:induction false} LeadingAll(group: string, rest: string)
    requires forall j | 0 <= j < |group| :: IsBase64(group[j])
    ensures LeadingDigits(group + rest) == Finds(group) + LeadingDigits(rest)
    ensures LeadingDigits(group) == Finds(group)
  {
    var ds := Finds(group);
    assert Symbols(ds) == group;
    LeadingSymbols(ds, rest);
    LeadingSymbols(ds, []);
    assert group + [] == group && ds + [] == ds;
  }

  lemma DecodeSplit(done: seq<Byte>, group: string, rest: string)
    requires |group| == 4 && forall j | 0 <= j < |group| :: IsBase64(group[j])
    ensures done + Decode(group + rest) == (done + Decode(group)) + Decode(rest)
  {
    var ds := Finds(group);
    LeadingAll(group, rest);
    BytesOfGroup(ds, LeadingDigits(rest));
    BytesOfGroup(ds, []);
    assert ds + [] == ds;
    Lists.Assoc(done, BytesOf(ds), BytesOf(LeadingDigits(rest)));
  }

  lemma DecodeEnds(group: string, rest: string)
    requires forall j | 0 <= j < |group| :: IsBase64(group[j])
    requires rest == [] || !IsBase64(rest[0])
    ensures Decode(group + rest) == Decode(group)
  {
    LeadingAll(group, rest);
    assert Finds(group) + [] == Finds(group);
  }

  lemma TakeSymbol(taken: string, s: string, k: nat)
    requires k < |s|
    ensures taken + s[k..] == (taken + [s[k]]) + s[k + 1..]
  {
  }

  /** A whole group. */
  method DecodeGroup(ret: seq<Byte>, chars: array<char>, digits4: array<Digit>, bytes3: array<Byte>)
    returns (r: seq<Byte>)
    requires chars.Length == 4 && digits4.Length == 4 && bytes3.Length == 3
    requires forall j | 0 <= j < 4 :: IsBase64(chars[j])
    modifies digits4, bytes3
    ensures r == ret + Decode(chars[..])
  {
    FindAll(chars, digits4, 4);
    JoinDigits(digits4, bytes3);
    assert bytes3[..3] == bytes3[..];
    r := PutBytes(ret, bytes3, 3);
    LeadingAll(chars[..], "");
    assert Finds(chars[..]) == [digits4[0], digits4[1], digits4[2], digits4[3]] + [];
    BytesOfGroup([digits4[0], digits4[1], digits4[2], digits4[3]], []);
  }

  /** Takes one character into the group and decodes the group when it is complete. */
  method TakeChar(ret: seq<Byte>, chars: array<char>, digits4: array<Digit>, bytes3: array<Byte>, i: nat, c: char)
    returns (r: seq<Byte>, n: nat)
    requires chars.Length == 4 && digits4.Length == 4 && bytes3.Length == 3 && i < 4
    requires IsBase64(c) && forall j | 0 <= j < i :: IsBase64(chars[j])
    modifies chars, digits4, bytes3
    ensures n == if i < 3 then i + 1 else 0
    ensures forall j | 0 <= j < n :: IsBase64(chars[j])
    ensures i < 3 ==> r == ret && chars[..n] == old(chars[..i]) + [c]
    ensures i == 3 ==> r == ret + Decode(old(chars[..i]) + [c])
  {
    ghost var group := chars[..i] + [c];
    r := ret;
    chars[i] := c;
    n := i + 1;
    assert chars[..n] == group;
    if n == 4 {
      assert chars[..] == group;
      r := DecodeGroup(ret, chars, digits4, bytes3);
      n := 0;
    }
  }

  /** The value of a `std::size_t` converted to a 32-bit `int`. */
  function ToInt(n: nat): (r: int)
    ensures -0x8000_0000 <= r < 0x8000_0000
  {
    var m := n % 0x1_0000_0000;
    if m < 0x8000_0000 then m else m - 0x1_0000_0000
  }

  /** The part of a string that the decoder looks at: its length is converted to `int`, and a negative one does not
      end the loop. */
  function Seen(s: string): (t: string)
    ensures |s| < 0x8000_0000 ==> t == s
  {
    var n := ToInt(|s|);
    if 0 <= n <= |s| then s[..n] else s
  }

  /** A negative length runs out only if there are not too many digits. */
  predicate LengthHolds(s: string) {
    ToInt(|s|) >= 0 || |LeadingDigits(s)| < 0x8000_0000 + ToInt(|s|)
  }

  /** The loop over what is seen of the string. */
  method DecodeText(s: string) returns (ret: seq<Byte>)
    ensures ret == Decode(s)
  {
    ret := [];
    var i, k := 0, 0;
    var chars, digits4, bytes3 := new char[4], new Digit[4], new Byte[3];
    assert chars[..i] + s[k..] == s;
    while k < |s| && s[k] != '=' && IsBase64(s[k])
      invariant 0 <= i < 4 && k <= |s|
      invariant forall j | 0 <= j < i :: IsBase64(chars[j])
      invariant Decode(s) == ret + Decode(chars[..i] + s[k..])
    {
      DecodeNext(ret, chars[..i], s, k);
      ret, i := TakeChar(ret, chars, digits4, bytes3, i, s[k]);
      k := k + 1;
      assert i == 0 ==> chars[..i] + s[k..] == s[k..];
    }
    DecodeEnds(chars[..i], s[k..]);
    if i != 0 {
      ret := DecodeRest(ret, chars, digits4, bytes3, i);
    }
  }

  /** While the loop takes digits the length that it counts down does not pass the least `int`. */
  lemma {:induction false} CountsDown(encoded: string, k: nat)
    requires LengthHolds(encoded) && k <= |Seen(encoded)| && k <= |LeadingDigits(encoded)|
    ensures ToInt(|encoded|) - k > -0x8000_0000
  {
  }

  /** One more character in the group, and what that leaves to decode. */
  lemma DecodeNext(ret: seq<Byte>, taken: string, s: string, k: nat)
    requires k < |s| && |taken| < 4 && IsBase64(s[k]) && forall j | 0 <= j < |taken| :: IsBase64(taken[j])
    ensures taken + s[k..] == (taken + [s[k]]) + s[k + 1..]
    ensures |taken| == 3 ==>
              ret + Decode(taken + s[k..]) == (ret + Decode(taken + [s[k]])) + Decode(s[k + 1..])
  {
    TakeSymbol(taken, s, k);
    if |taken| == 3 {
      DecodeSplit(ret, taken + [s[k]], s[k + 1..]);
    }
  }

  method DecodeString(encoded: string) returns (ret: seq<Byte>)
    requires LengthHolds(encoded)
    ensures ret == Decode(Seen(encoded))
    ensures |encoded| < 0x8000_0000 ==> ret == Decode(encoded)
  {
    var length := ToInt(|encoded|);
    IntBelow(|encoded|);
    ret := DecodeText(if length >= 0 then encoded[..length] else encoded);
  }

  lemma IntBelow(n: nat)
    ensures ToInt(n) <= n
  {
  }
}
