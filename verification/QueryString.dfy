/** Query strings: fields joined by ampersands, each a name, an equals sign and a percent-coded value. */
module QueryString {
  import Percent
  import Lists

  /** The multimap keeps names as they are; its order of iteration is not specified. */
  datatype Field = Field(name: string, value: string)

  const NPOS: nat := 0xFFFF_FFFF_FFFF_FFFF

  // ---- Creating ----

  function Piece(f: Field): (s: string) {
    f.name + ("=" + Percent.Encode(f.value))
  }

  function AllPieces(fs: seq<Field>): (ps: seq<string>)
    ensures |ps| == |fs|
  {
    seq(|fs|, i requires 0 <= i < |fs| => Piece(fs[i]))
  }

  /** Pieces with an ampersand before each. */
  function Tail(ps: seq<string>): (s: string) {
    if ps == [] then "" else ("&" + ps[0]) + Tail(ps[1..])
  }

  function Join(ps: seq<string>): (s: string) {
    if ps == [] then "" else ps[0] + Tail(ps[1..])
  }

  function Create(fs: seq<Field>): (s: string) {
    Join(AllPieces(fs))
  }

  // ---- Parsing ----

  /** The pieces between ampersands of `q[start..]`; there is no ampersand in `q[start..c]`. */
  function SplitFrom(q: string, start: nat, c: nat): (ps: seq<string>)
    requires start <= c <= |q|
    decreases |q| - c
  {
    if c == |q| then [q[start..c]]
    else if q[c] == '&' then [q[start..c]] + SplitFrom(q, c + 1, c + 1)
    else SplitFrom(q, start, c + 1)
  }

  function Split(q: string): (ps: seq<string>) {
    SplitFrom(q, 0, 0)
  }

  /** Index of the last equals sign in `q[start..c]`, or `c`. */
  function LastEquals(q: string, start: nat, c: nat): (k: nat)
    requires start <= c <= |q|
    ensures start <= k <= c
  {
    if c == start then c
    else if q[c - 1] == '=' then c - 1
    else
      var k := LastEquals(q, start, c - 1);
      if k < c - 1 then k else c
  }

  /** A piece is split at its last equals sign; one without a name is skipped. The value is still coded. */
  function FieldsOf(p: string): (fs: seq<Field>) {
    var k := LastEquals(p, 0, |p|);
    if k == 0 then [] else [Field(p[..k], if k < |p| then p[k + 1..] else "")]
  }

  function Decoded(f: Field): (g: Field) {
    f.(value := Percent.Decode(f.value))
  }

  function AllDecoded(fs: seq<Field>): (gs: seq<Field>)
    ensures |gs| == |fs|
  {
    seq(|fs|, i requires 0 <= i < |fs| => Decoded(fs[i]))
  }

  function Parse(q: string): (fs: seq<Field>) {
    AllDecoded(Lists.Flat(Split(q), FieldsOf))
  }

  // ---- Splitting undoes joining ----

  lemma {:induction false} SplitFromSkips(q: string, start: nat, c: nat, k: nat)
    requires start <= c <= k <= |q| && forall i | c <= i < k :: q[i] != '&'
    ensures SplitFrom(q, start, c) == SplitFrom(q, start, k)
    decreases k - c
  {
    if c < k {
      SplitFromSkips(q, start, c + 1, k);
    }
  }

  lemma {:induction false} SplitFromShift(a: string, q: string, start: nat, c: nat)
    requires start <= c <= |q|
    ensures SplitFrom(a + q, |a| + start, |a| + c) == SplitFrom(q, start, c)
    decreases |q| - c
  {
    assert (a + q)[|a| + start..|a| + c] == q[start..c];
    if c < |q| {
      assert (a + q)[|a| + c] == q[c];
      if q[c] == '&' {
        SplitFromShift(a, q, c + 1, c + 1);
      } else {
        SplitFromShift(a, q, start, c + 1);
      }
    }
  }

  lemma SplitOne(p: string)
    requires '&' !in p
    ensures Split(p) == [p]
  {
    SplitFromSkips(p, 0, 0, |p|);
    assert p[0..|p|] == p;
  }

  lemma SplitFirst(p: string, rest: string)
    requires '&' !in p
    ensures Split(p + ("&" + rest)) == [p] + Split(rest)
  {
    var q, n := p + ("&" + rest), |p|;
    assert q == (p + "&") + rest;
    assert q[0..n] == p && q[n] == '&';
    forall i | 0 <= i < n ensures q[i] != '&' {
      assert q[i] == p[i];
    }
    SplitFromSkips(q, 0, 0, n);
    SplitFromShift(p + "&", rest, 0, 0);
  }

  ghost predicate NoAmpersands(ps: seq<string>) {
    forall i | 0 <= i < |ps| :: '&' !in ps[i]
  }

  lemma JoinFirst(ps: seq<string>)
    requires |ps| > 1
    ensures Join(ps) == ps[0] + ("&" + Join(ps[1..]))
  {
    var rest := ps[1..];
    assert Tail(rest) == ("&" + rest[0]) + Tail(rest[1..]);
    Lists.Assoc("&", rest[0], Tail(rest[1..]));
  }

  lemma {:induction false} SplitJoin(ps: seq<string>)
    requires NoAmpersands(ps) && ps != []
    ensures Split(Join(ps)) == ps
  {
    if |ps| == 1 {
      assert Join(ps) == ps[0] + "" == ps[0];
      SplitOne(ps[0]);
    } else {
      JoinFirst(ps);
      SplitFirst(ps[0], Join(ps[1..]));
      SplitJoin(ps[1..]);
    }
  }

  lemma {:induction false} SplitHasNoAmpersands(q: string, start: nat, c: nat)
    requires start <= c <= |q| && forall i | start <= i < c :: q[i] != '&'
    ensures NoAmpersands(SplitFrom(q, start, c))
    decreases |q| - c
  {
    assert '&' !in q[start..c];
    if c < |q| {
      if q[c] == '&' {
        SplitHasNoAmpersands(q, c + 1, c + 1);
      } else {
        SplitHasNoAmpersands(q, start, c + 1);
      }
    }
  }

  // ---- One piece ----

  predicate GoodName(name: string) {
    name != [] && '&' !in name
  }

  lemma {:induction false} EncodedIsClean(v: string)
    ensures '&' !in Percent.Encode(v) && '=' !in Percent.Encode(v)
  {
    if v != [] {
      EncodedIsClean(v[1..]);
    }
  }

  lemma {:induction false} LastEqualsAt(p: string, start: nat, c: nat, k: nat)
    requires start <= k < c <= |p| && p[k] == '=' && forall i | k < i < c :: p[i] != '='
    ensures LastEquals(p, start, c) == k
    decreases c
  {
    if k < c - 1 {
      LastEqualsAt(p, start, c - 1, k);
    }
  }

  lemma SplitPiece(name: string, code: string)
    requires name != [] && '=' !in code
    ensures FieldsOf(name + ("=" + code)) == [Field(name, code)]
  {
    var p, k := name + ("=" + code), |name|;
    assert p[..k] == name && p[k] == '=' && p[k + 1..] == code;
    forall i | k < i < |p| ensures p[i] != '=' {
      assert p[i] == code[i - k - 1];
    }
    LastEqualsAt(p, 0, |p|, k);
  }

  function Coded(f: Field): (g: Field) {
    f.(value := Percent.Encode(f.value))
  }

  /** Equals signs in the name do no harm. */
  lemma PieceParses(f: Field)
    requires GoodName(f.name)
    ensures '&' !in Piece(f) && FieldsOf(Piece(f)) == [Coded(f)]
  {
    EncodedIsClean(f.value);
    SplitPiece(f.name, Percent.Encode(f.value));
  }

  // ---- Round trip ----

  ghost predicate GoodNames(fs: seq<Field>) {
    forall i | 0 <= i < |fs| :: GoodName(fs[i].name)
  }

  function AllCoded(fs: seq<Field>): (gs: seq<Field>)
    ensures |gs| == |fs|
  {
    seq(|fs|, i requires 0 <= i < |fs| => Coded(fs[i]))
  }

  lemma FieldsOfPieces(fs: seq<Field>)
    requires GoodNames(fs)
    ensures NoAmpersands(AllPieces(fs)) && Lists.Flat(AllPieces(fs), FieldsOf) == AllCoded(fs)
  {
    forall i | 0 <= i < |fs|
      ensures '&' !in AllPieces(fs)[i] && FieldsOf(AllPieces(fs)[i]) == [AllCoded(fs)[i]]
    {
      PieceParses(fs[i]);
    }
    Lists.FlatOfSingles(AllPieces(fs), FieldsOf, AllCoded(fs));
  }

  /** A field after coding and decoding. */
  function Through(f: Field): (g: Field) {
    Decoded(Coded(f))
  }

  function AllThrough(fs: seq<Field>): (gs: seq<Field>)
    ensures |gs| == |fs|
  {
    seq(|fs|, i requires 0 <= i < |fs| => Through(fs[i]))
  }

  /** With good names, every field comes back in its place, its value coded and decoded. */
  lemma ParseCreate(fs: seq<Field>)
    requires GoodNames(fs)
    ensures Parse(Create(fs)) == AllThrough(fs)
  {
    if fs == [] {
      SplitOne("");
      NoFields();
    } else {
      FieldsOfPieces(fs);
      SplitJoin(AllPieces(fs));
    }
  }

  lemma NoFields()
    ensures Lists.Flat([""], FieldsOf) == []
  {
    assert [""][..0] == [];
  }

  lemma FieldHasGoodName(p: string)
    requires '&' !in p
    ensures GoodNames(FieldsOf(p))
  {
    var k := LastEquals(p, 0, |p|);
    assert forall c | c in p[..k] :: c in p;
  }

  lemma {:induction false} FieldsHaveGoodNames(ps: seq<string>)
    requires NoAmpersands(ps)
    ensures GoodNames(Lists.Flat(ps, FieldsOf))
  {
    var fs := Lists.Flat(ps, FieldsOf);
    forall k | 0 <= k < |fs| ensures GoodName(fs[k].name) {
      var i, j := Lists.FlatMember(ps, FieldsOf, k);
      FieldHasGoodName(ps[i]);
    }
  }

  /** Parsing yields good names only, whatever the string. */
  lemma ParsedNamesAreGood(q: string)
    ensures GoodNames(Parse(q))
  {
    SplitHasNoAmpersands(q, 0, 0);
    FieldsHaveGoodNames(Split(q));
  }

  /** Pieces that no created string has: one without an equals sign is a name with an empty value, one without a name is
      skipped. */
  lemma OddPieces(p: string)
    ensures p != [] && '&' !in p && '=' !in p ==> Parse(p) == [Field(p, "")]
    ensures '&' !in p && '=' !in p ==> Parse("=" + p) == []
    ensures Parse("") == []
  {
    if '&' !in p && '=' !in p {
      NoEquals(p, |p|);
      SplitOne(p);
      OnePiece(p);
      var q := "=" + p;
      assert q[0] == '=' && forall i | 0 < i < |q| :: q[i] == p[i - 1];
      LastEqualsAt(q, 0, |q|, 0);
      SplitOne(q);
      OnePiece(q);
      assert p != [] ==> p[..|p|] == p;
    }
    SplitOne("");
    NoFields();
  }

  lemma {:induction false} NoEquals(p: string, c: nat)
    requires '=' !in p && c <= |p|
    ensures LastEquals(p, 0, c) == c
  {
    if c > 0 {
      NoEquals(p, c - 1);
    }
  }

  lemma OnePiece(p: string)
    ensures Lists.Flat([p], FieldsOf) == FieldsOf(p)
  {
    Lists.FlatPush([], p, FieldsOf);
    assert [] + [p] == [p];
  }

  lemma Example()
    ensures Create([Field("a", "b c"), Field("d", "")]) == "a=b+c&d="
  {
    var fs := [Field("a", "b c"), Field("d", "")];
    assert "b c"[1..] == " c" && " c"[1..] == "c" && "c"[1..] == "";
    assert Percent.Encode("c") == "c" + "";
    assert Percent.Encode(" c") == "+" + "c";
    assert Percent.Encode("b c") == "b" + "+c";
    assert Piece(fs[0]) == "a=b+c" && Piece(fs[1]) == "d=";
    assert AllPieces(fs) == ["a=b+c", "d="];
    assert AllPieces(fs)[1..] == ["d="] && ["d="][1..] == [];
    assert Tail(["d="]) == ("&" + "d=") + "";
  }

  // ---- The exact condition ----

  /** The fields a query string can carry. */
  predicate Carried(f: Field) {
    GoodName(f.name) && Percent.Safe(f.value)
  }

  function Weight(f: Field): (n: nat) {
    Percent.Percents(f.value)
  }

  lemma FieldLosesPercents(f: Field)
    ensures Weight(Through(f)) <= Weight(f)
    ensures !Percent.Safe(f.value) ==> Weight(Through(f)) < Weight(f)
  {
    Percent.GoesThroughIff(f.value);
  }

  lemma {:induction false} UnsafeFieldIsSeen(fs: seq<Field>, i: nat)
    requires i < |fs| && !Percent.Safe(fs[i].value)
    ensures Lists.Sum(AllThrough(fs), Weight) < Lists.Sum(fs, Weight)
  {
    var gs := AllThrough(fs);
    forall j | 0 <= j < |fs| ensures Weight(gs[j]) <= Weight(fs[j]) {
      FieldLosesPercents(fs[j]);
    }
    FieldLosesPercents(fs[i]);
    assert Weight(gs[i]) < Weight(fs[i]);
    Lists.SumLess(gs, fs, Weight);
  }

  lemma SafeFieldsGoThrough(fs: seq<Field>)
    requires forall i | 0 <= i < |fs| :: Percent.Safe(fs[i].value)
    ensures AllThrough(fs) == fs
  {
    forall i | 0 <= i < |fs| ensures Through(fs[i]) == fs[i] {
      Percent.GoesThroughIff(fs[i].value);
    }
  }

  lemma SameNames(fs: seq<Field>, gs: seq<Field>)
    requires multiset(fs) == multiset(gs) && GoodNames(gs)
    ensures GoodNames(fs)
  {
    forall i | 0 <= i < |fs| ensures GoodName(fs[i].name) {
      assert fs[i] in multiset(gs);
    }
  }

  /** Parsing a created string yields the same multimap if and only if every name is not empty and free of
      ampersands and every value is safe to code; then even the order is the same. */
  lemma RoundTripIff(fs: seq<Field>)
    ensures multiset(Parse(Create(fs))) == multiset(fs) <==> forall i | 0 <= i < |fs| :: Carried(fs[i])
    ensures Parse(Create(fs)) == fs <==> forall i | 0 <= i < |fs| :: Carried(fs[i])
  {
    var gs := Parse(Create(fs));
    if multiset(gs) == multiset(fs) {
      ParsedNamesAreGood(Create(fs));
      SameNames(fs, gs);
      ParseCreate(fs);
      Lists.SumOfMultiset(gs, fs, Weight);
      if i :| 0 <= i < |fs| && !Percent.Safe(fs[i].value) {
        UnsafeFieldIsSeen(fs, i);
        assert false;
      }
    }
    if forall i | 0 <= i < |fs| :: Carried(fs[i]) {
      ParseCreate(fs);
      SafeFieldsGoThrough(fs);
    }
  }

  // ---- The loops ----

  method CreateString(fs: seq<Field>) returns (result: string)
    ensures result == Create(fs)
  {
    result := "";
    var first := true;
    ghost var ps := AllPieces(fs);
    for i := 0 to |fs|
      invariant first == (i == 0)
      invariant Create(fs) == if i == 0 then Join(ps) else result + Tail(ps[i..])
      invariant i == 0 ==> result == ""
    {
      var code := Percent.PercentEncode(fs[i].value);
      var piece := (if !first then "&" else "") + (fs[i].name + ("=" + code));
      assert ps[i..][0] == ps[i] && ps[i..][1..] == ps[i + 1..];
      Lists.Assoc(result, piece, Tail(ps[i + 1..]));
      assert i == 0 ==> piece == ps[0];
      result := result + piece;
      first := false;
    }
  }

  /** `substr`: the position must be in range, the length is cut. */
  function Substr(s: string, pos: nat, count: nat): (r: string)
    requires pos <= |s|
  {
    s[pos..if pos + count < |s| then pos + count else |s|]
  }

  lemma {:induction false} LastEqualsShift(q: string, start: nat, c: nat, p: string)
    requires start <= c <= |q| && c - start <= |p| && forall i | 0 <= i < c - start :: p[i] == q[start + i]
    ensures LastEquals(q, start, c) == start + LastEquals(p, 0, c - start)
    decreases c
  {
    if start < c {
      LastEqualsShift(q, start, c - 1, p);
      assert p[c - start - 1] == q[c - 1];
    }
  }

  /** The decoded field in `q[start..c]`, if there is one. */
  ghost function FieldIn(q: string, start: nat, c: nat): (fs: seq<Field>)
    requires start <= c <= |q|
  {
    var k := LastEquals(q, start, c);
    if k == start then [] else [Field(q[start..k], Percent.Decode(if k < c then q[k + 1..c] else ""))]
  }

  lemma SlicesOf(q: string, start: nat, c: nat, p: string, k: nat)
    requires start <= c <= |q| && p == q[start..c] && k <= |p|
    ensures p[..k] == q[start..start + k]
    ensures k < |p| ==> p[k + 1..] == q[start + k + 1..c]
  {
  }

  lemma DecodedSingle(f: Field)
    ensures AllDecoded([f]) == [Decoded(f)]
  {
  }

  lemma RawIn(q: string, start: nat, c: nat, p: string)
    requires start <= c <= |q| && p == q[start..c]
    ensures var k := LastEquals(q, start, c);
            FieldsOf(p) == if k == start then [] else [Field(q[start..k], if k < c then q[k + 1..c] else "")]
  {
    LastEqualsShift(q, start, c, p);
    SlicesOf(q, start, c, p, LastEquals(p, 0, |p|));
  }

  lemma FieldInIsField(q: string, start: nat, c: nat, p: string)
    requires start <= c <= |q| && p == q[start..c]
    ensures FieldIn(q, start, c) == AllDecoded(FieldsOf(p))
  {
    RawIn(q, start, c, p);
    var fs := FieldsOf(p);
    if fs != [] {
      DecodedSingle(fs[0]);
    }
  }

  /** The positions that the scan of `q[start..c]` keeps. */
  ghost predicate Scanned(q: string, start: nat, c: nat, nameEnd: nat, valuePos: nat) {
    && start <= c <= |q| < NPOS
    && var k := LastEquals(q, start, c);
       if k < c then nameEnd == k && valuePos == k + 1 else nameEnd == valuePos == NPOS
  }

  /** Adds the field between the start and an ampersand at `c`. */
  method AddField(result: seq<Field>, q: string, namePos: nat, c: nat, nameEnd: nat, valuePos: nat)
    returns (r: seq<Field>)
    requires Scanned(q, namePos, c, nameEnd, valuePos)
    ensures r == result + FieldIn(q, namePos, c)
  {
    r := result;
    var name := Substr(q, namePos, (if nameEnd == NPOS then c else nameEnd) - namePos);
    if name != [] {
      var code := if valuePos == NPOS then "" else Substr(q, valuePos, c - valuePos);
      var value := Percent.PercentDecode(code);
      r := r + [Field(name, value)];
    }
  }

  /** Adds the field between the start and the end of the string. */
  method AddLastField(result: seq<Field>, q: string, namePos: nat, nameEnd: nat, valuePos: nat)
    returns (r: seq<Field>)
    requires Scanned(q, namePos, |q|, nameEnd, valuePos)
    ensures r == result + FieldIn(q, namePos, |q|)
  {
    r := result;
    if namePos < |q| {
      var name := Substr(q, namePos, nameEnd - namePos);
      if name != [] {
        var code := if valuePos >= |q| then "" else Substr(q, valuePos, NPOS);
        var value := Percent.PercentDecode(code);
        r := r + [Field(name, value)];
      }
    }
  }

  lemma {:induction false} AddPiece(ps: seq<string>, p: string)
    ensures AllDecoded(Lists.Flat(ps + [p], FieldsOf)) == AllDecoded(Lists.Flat(ps, FieldsOf)) + AllDecoded(FieldsOf(p))
  {
    Lists.FlatPush(ps, p, FieldsOf);
    DecodedConcat(Lists.Flat(ps, FieldsOf), FieldsOf(p));
  }

  lemma DecodedConcat(a: seq<Field>, b: seq<Field>)
    ensures AllDecoded(a + b) == AllDecoded(a) + AllDecoded(b)
  {
  }

  method ParseString(q: string) returns (result: seq<Field>)
    requires |q| < NPOS
    ensures result == Parse(q)
  {
    result := [];
    if q == [] {
      SplitOne("");
      NoFields();
      return;
    }
    var namePos: nat, nameEnd: nat, valuePos: nat := 0, NPOS, NPOS;
    ghost var ps, all := [], Split(q);
    for c := 0 to |q|
      invariant Scanned(q, namePos, c, nameEnd, valuePos)
      invariant result == AllDecoded(Lists.Flat(ps, FieldsOf)) && all == ps + SplitFrom(q, namePos, c)
    {
      if q[c] == '&' {
        ghost var p := q[namePos..c];
        FieldInIsField(q, namePos, c, p);
        AddPiece(ps, p);
        Lists.Assoc(ps, [p], SplitFrom(q, c + 1, c + 1));
        result := AddField(result, q, namePos, c, nameEnd, valuePos);
        ps := ps + [p];
        namePos, nameEnd, valuePos := c + 1, NPOS, NPOS;
      } else if q[c] == '=' {
        nameEnd, valuePos := c, c + 1;
      }
    }
    FieldInIsField(q, namePos, |q|, q[namePos..|q|]);
    AddPiece(ps, q[namePos..|q|]);
    result := AddLastField(result, q, namePos, nameEnd, valuePos);
  }
}
