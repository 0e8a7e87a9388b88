/** WebSocket frames as the server writes and reads them (section 5.2 of RFC 6455). */
module WsFrame {
  import opened Common

  /** First byte (FIN, RSV and opcode) and payload of an unmasked frame. */
  datatype Frame = Frame(opcode: Byte, payload: seq<Byte>)

  ghost predicate Sendable(f: Frame) {
    |f.payload| < SIZE_LIMIT
  }

  // ---- Big-endian numbers ----

  function Pow256(k: nat): (p: nat)
    ensures p > 0
  {
    if k == 0 then 1 else 256 * Pow256(k - 1)
  }

  /** The `width` low-order bytes of `n`, most significant first. */
  function BigEndian(n: nat, width: nat): (r: seq<Byte>)
    ensures |r| == width
  {
    if width == 0 then [] else BigEndian(n / 256, width - 1) + [n % 256]
  }

  function FromBigEndian(s: seq<Byte>): (n: nat)
  {
    if s == [] then 0 else 256 * FromBigEndian(s[..|s| - 1]) + s[|s| - 1]
  }

  lemma {:induction false} BigEndianInverse(n: nat, width: nat)
    requires n < Pow256(width)
    ensures FromBigEndian(BigEndian(n, width)) == n
  {
    if width > 0 {
      BigEndianInverse(n / 256, width - 1);
      var r := BigEndian(n, width);
      assert r[..|r| - 1] == BigEndian(n / 256, width - 1);
    }
  }

  lemma {:induction false} FromBigEndianBound(s: seq<Byte>)
    ensures FromBigEndian(s) < Pow256(|s|)
  {
    if s != [] {
      FromBigEndianBound(s[..|s| - 1]);
    }
  }

  lemma Pow256Values()
    ensures Pow256(0) == 1 && Pow256(1) == 256 && Pow256(2) == 0x1_0000 && Pow256(8) == SIZE_LIMIT
  {
    assert Pow256(4) == 0x1_0000_0000;
    assert Pow256(6) == 0x1_0000_0000_0000;
  }

  /** `n >> 8 * c`. */
  function ShiftBytes(n: nat, c: nat): (r: nat)
  {
    if c == 0 then n else ShiftBytes(n / 256, c - 1)
  }

  lemma {:induction false} ShiftOneMore(n: nat, c: nat)
    ensures ShiftBytes(n, c) / 256 == ShiftBytes(n, c + 1)
  {
    if c > 0 {
      ShiftOneMore(n / 256, c - 1);
    }
  }

  // ---- Frames sent by the server ----

  /** Header of an unmasked frame, with 7-, 16- or 64-bit length. */
  function Header(opcode: Byte, length: nat): (h: seq<Byte>)
    ensures 2 <= |h| <= 10 && h[0] == opcode
  {
    if length < 126 then [opcode, length]
    else if length <= 0xffff then [opcode, 126] + BigEndian(length, 2)
    else [opcode, 127] + BigEndian(length, 8)
  }

  function Encode(f: Frame): (s: seq<Byte>)
  {
    Header(f.opcode, |f.payload|) + f.payload
  }

  function EncodeAll(fs: seq<Frame>): (s: seq<Byte>)
  {
    if fs == [] then [] else Encode(fs[0]) + EncodeAll(fs[1..])
  }

  lemma {:induction false} EncodeAllPush(fs: seq<Frame>, f: Frame)
    ensures EncodeAll(fs + [f]) == EncodeAll(fs) + Encode(f)
  {
    if fs == [] {
      assert EncodeAll([f]) == Encode(f) + EncodeAll([]);
    } else {
      EncodeAllPush(fs[1..], f);
      assert (fs + [f])[1..] == fs[1..] + [f];
    }
  }

  /** The header as `Connection::send` puts it, byte by byte. */
  method PutHeader(opcode: Byte, length: nat) returns (header: seq<Byte>)
    requires length < SIZE_LIMIT
    ensures header == Header(opcode, length)
  {
    header := [opcode];
    if length >= 126 {
      var numBytes: nat;
      if length > 0xffff {
        numBytes := 8;
        header := header + [127];
      } else {
        numBytes := 2;
        header := header + [126];
      }
      ghost var start := header;
      var c := numBytes - 1;
      while c != -1
        invariant -1 <= c < numBytes
        invariant header == start + BigEndian(ShiftBytes(length, c + 1), numBytes - 1 - c)
      {
        ShiftOneMore(length, c);
        header := header + [ShiftBytes(length, c) % 256];
        c := c - 1;
      }
    } else {
      header := header + [length];
    }
  }

  // ---- A receiver's view: decoding unmasked frames ----

  datatype Decoded = Incomplete | Malformed | Decoded(frame: Frame, rest: seq<Byte>)

  /** One frame off the front of a byte stream, by section 5.2 of RFC 6455: the mask bit must be clear
      and the length must use the shortest of the three forms. */
  function Decode(s: seq<Byte>): (d: Decoded)
    ensures d.Decoded? ==> |d.rest| < |s|
  {
    if |s| < 2 then Incomplete
    else if s[1] >= 128 then Malformed
    else
      var ext := if s[1] < 126 then 0 else if s[1] == 126 then 2 else 8;
      if |s| < 2 + ext then Incomplete
      else
        var length := if ext == 0 then s[1] else FromBigEndian(s[2..2 + ext]);
        if (ext == 2 && length < 126) || (ext == 8 && length <= 0xffff) then Malformed
        else if |s| < 2 + ext + length then Incomplete
        else Decoded(Frame(s[0], s[2 + ext..2 + ext + length]), s[2 + ext + length..])
  }

  /** All frames of a stream and the undecodable remainder. */
  function DecodeAll(s: seq<Byte>): (r: (seq<Frame>, seq<Byte>))
    decreases |s|
  {
    var d := Decode(s);
    if d.Decoded? then
      var (fs, rest) := DecodeAll(d.rest);
      ([d.frame] + fs, rest)
    else ([], s)
  }

  lemma Slices(s: seq<Byte>, a: seq<Byte>, b: seq<Byte>, c: seq<Byte>)
    requires |s| >= 2 && s[2..] == a + b + c
    ensures |s| == 2 + |a| + |b| + |c|
    ensures s[2..2 + |a|] == a && s[2 + |a|..2 + |a| + |b|] == b && s[2 + |a| + |b|..] == c
  {
    var t := s[2..];
    assert forall i | 0 <= i < |t| :: s[i + 2] == t[i];
    assert forall i | 0 <= i < |a| :: s[i + 2] == a[i];
    assert forall i | 0 <= i < |b| :: t[|a| + i] == b[i];
    assert forall i | 0 <= i < |c| :: t[|a| + |b| + i] == c[i];
    assert forall i | 0 <= i < |b| :: s[2 + (|a| + i)] == b[i];
    assert forall i | 0 <= i < |c| :: s[2 + (|a| + |b| + i)] == c[i];
  }

  /** Decoding a stream whose front is laid out as header, extended length, payload. */
  lemma {:induction false} DecodeLayout(s: seq<Byte>, f: Frame, field: seq<Byte>, rest: seq<Byte>)
    requires |s| >= 2 && s[0] == f.opcode && s[1] < 128
    requires s[2..] == field + f.payload + rest
    requires |field| == if s[1] < 126 then 0 else if s[1] == 126 then 2 else 8
    requires |f.payload| == if s[1] < 126 then s[1] else FromBigEndian(field)
    requires s[1] == 126 ==> |f.payload| >= 126
    requires s[1] == 127 ==> |f.payload| > 0xffff
    ensures Decode(s) == Decoded(f, rest)
  {
    Slices(s, field, f.payload, rest);
  }

  lemma DecodeEncode(f: Frame, rest: seq<Byte>)
    requires Sendable(f)
    ensures Decode(Encode(f) + rest) == Decoded(f, rest)
  {
    var s := Encode(f) + rest;
    var n := |f.payload|;
    var field := if n < 126 then [] else if n <= 0xffff then BigEndian(n, 2) else BigEndian(n, 8);
    assert s[2..] == field + f.payload + rest;
    Pow256Values();
    if n >= 126 {
      BigEndianInverse(n, |field|);
    }
    DecodeLayout(s, f, field, rest);
  }

  lemma {:induction false} DecodeAllStep(f: Frame, tail: seq<Byte>)
    requires Sendable(f)
    ensures DecodeAll(Encode(f) + tail).0 == [f] + DecodeAll(tail).0
    ensures DecodeAll(Encode(f) + tail).1 == DecodeAll(tail).1
  {
    DecodeEncode(f, tail);
  }

  /** A receiver recovers exactly the frames that were encoded, in order, with nothing left over. */
  lemma {:induction false} DecodeAllEncodeAll(fs: seq<Frame>)
    requires forall f | f in fs :: Sendable(f)
    ensures DecodeAll(EncodeAll(fs)).0 == fs
    ensures DecodeAll(EncodeAll(fs)).1 == []
  {
    if fs != [] {
      DecodeAllStep(fs[0], EncodeAll(fs[1..]));
      DecodeAllEncodeAll(fs[1..]);
    }
  }

  /** RFC 6455 also wants the most significant bit of a 64-bit length to be 0. */
  ghost predicate LengthBitClear(f: Frame) {
    var h := Header(f.opcode, |f.payload|);
    h[1] == 127 ==> h[2] < 128
  }

  /** The server respects that exactly for payloads below 2^63 bytes; it does not check. */
  lemma LengthBitClearIff(f: Frame)
    requires Sendable(f)
    ensures LengthBitClear(f) <==> |f.payload| < 0x8000_0000_0000_0000
  {
    var n := |f.payload|;
    if n > 0xffff {
      assert Header(f.opcode, n)[2] == BigEndian(n, 8)[0];
      LeadingByte(n, 7);
      ShiftBelow(n, 7, 256);
      ShiftBelow(n, 7, 128);
      Pow256Values();
    }
  }

  /** A payload for which it does not. */
  lemma TopBitSet()
    ensures !LengthBitClear(Frame(130, seq(0x8000_0000_0000_0000, _ => 0)))
  {
    LengthBitClearIff(Frame(130, seq(0x8000_0000_0000_0000, _ => 0)));
  }

  lemma {:induction false} LeadingByte(n: nat, k: nat)
    ensures BigEndian(n, k + 1)[0] == ShiftBytes(n, k) % 256
  {
    if k > 0 {
      LeadingByte(n / 256, k - 1);
    }
  }

  lemma {:induction false} ShiftBelow(n: nat, c: nat, bound: nat)
    ensures ShiftBytes(n, c) < bound <==> n < bound * Pow256(c)
  {
    if c > 0 {
      ShiftBelow(n / 256, c - 1, bound);
      var p := bound * Pow256(c - 1);
      assert bound * Pow256(c) == 256 * p;
    }
  }

  // ---- Frames sent by clients ----

  /** Bitwise exclusive or of the `k` low-order bits. */
  function XorBits(a: nat, b: nat, k: nat): (x: nat)
  {
    if k == 0 then 0 else 2 * XorBits(a / 2, b / 2, k - 1) + (if a % 2 == b % 2 then 0 else 1)
  }

  function Pow2(k: nat): (p: nat)
  {
    if k == 0 then 1 else 2 * Pow2(k - 1)
  }

  lemma {:induction false} XorBitsFacts(a: nat, b: nat, k: nat)
    requires a < Pow2(k)
    ensures XorBits(a, b, k) < Pow2(k)
    ensures XorBits(XorBits(a, b, k), b, k) == a
  {
    if k > 0 {
      XorBitsFacts(a / 2, b / 2, k - 1);
      var x := XorBits(a, b, k);
      var high := XorBits(a / 2, b / 2, k - 1);
      assert x / 2 == high && x % 2 == (if a % 2 == b % 2 then 0 else 1);
    }
  }

  lemma {:induction false} XorFacts(a: Byte, b: Byte)
    ensures XorBits(a, b, 8) < 256
    ensures XorBits(XorBits(a, b, 8), b, 8) == a
  {
    assert Pow2(4) == 16;
    assert Pow2(8) == 256;
    XorBitsFacts(a, b, 8);
  }

  function Xor(a: Byte, b: Byte): (x: Byte)
  {
    XorFacts(a, b);
    XorBits(a, b, 8)
  }

  type Mask = m: seq<Byte> | |m| == 4 witness [0, 0, 0, 0]

  /** Byte `i` of the data is combined with byte `i % 4` of the mask. */
  function Masked(mask: Mask, data: seq<Byte>): (r: seq<Byte>)
    ensures |r| == |data|
  {
    seq(|data|, i requires 0 <= i < |data| => Xor(data[i], mask[i % 4]))
  }

  lemma MaskedTwice(mask: Mask, data: seq<Byte>)
    ensures Masked(mask, Masked(mask, data)) == data
  {
    forall i | 0 <= i < |data| ensures Masked(mask, Masked(mask, data))[i] == data[i] {
      XorFacts(data[i], mask[i % 4]);
    }
  }

  function Bit(n: nat, i: nat): (b: nat)
    ensures b < 2
  {
    if i == 0 then n % 2 else Bit(n / 2, i - 1)
  }

  lemma {:induction false} XorBitsBit(a: nat, b: nat, k: nat, i: nat)
    requires i < k
    ensures Bit(XorBits(a, b, k), i) == if Bit(a, i) == Bit(b, i) then 0 else 1
  {
    var high := XorBits(a / 2, b / 2, k - 1);
    var x := XorBits(a, b, k);
    assert x / 2 == high && x % 2 == (if a % 2 == b % 2 then 0 else 1);
    if i > 0 {
      XorBitsBit(a / 2, b / 2, k - 1, i - 1);
    }
  }

  /** A bit of a masked byte is set just when the byte and its mask byte differ in it. */
  lemma {:induction false} MaskedBits(mask: Mask, data: seq<Byte>, j: nat, i: nat)
    requires j < |data| && i < 8
    ensures Bit(Masked(mask, data)[j], i) == 1 <==> Bit(data[j], i) != Bit(mask[j % 4], i)
  {
    XorBitsBit(data[j], mask[j % 4], 8, i);
  }

  /** The reading loop over one message body. */
  method Unmask(mask: Mask, data: seq<Byte>) returns (message: seq<Byte>)
    ensures message == Masked(mask, data)
  {
    message := [];
    for c := 0 to |data|
      invariant message == Masked(mask, data)[..c]
    {
      message := message + [Xor(data[c], mask[c % 4])];
    }
  }

  /** The length loop of `readMessage`: bytes shifted into place and added up. No partial sum exceeds what as many
      bytes can hold, so eight bytes never overflow 64 bits. */
  method ReadLength(lengthBytes: seq<Byte>) returns (length: nat)
    ensures length == FromBigEndian(lengthBytes)
    ensures length < Pow256(|lengthBytes|)
    ensures |lengthBytes| <= 8 ==> length < SIZE_LIMIT
  {
    length := 0;
    var n := |lengthBytes|;
    for c := 0 to n
      invariant length == FromBigEndian(lengthBytes[..c]) * Pow256(n - c)
      invariant length < Pow256(n)
    {
      AddByte(lengthBytes, c);
      length := length + lengthBytes[c] * Pow256(n - 1 - c);
    }
    assert lengthBytes[..n] == lengthBytes;
    if n <= 8 {
      Pow256Values();
      Pow256Grows(n, 8);
    }
  }

  lemma AddByte(bytes: seq<Byte>, c: nat)
    requires c < |bytes|
    ensures var n := |bytes|;
            && FromBigEndian(bytes[..c]) * Pow256(n - c) + bytes[c] * Pow256(n - 1 - c)
               == FromBigEndian(bytes[..c + 1]) * Pow256(n - 1 - c)
            && FromBigEndian(bytes[..c + 1]) * Pow256(n - 1 - c) < Pow256(n)
  {
    var n, p, acc := |bytes|, Pow256(|bytes| - 1 - c), FromBigEndian(bytes[..c]);
    assert bytes[..c + 1][..c] == bytes[..c];
    assert acc * (256 * p) + bytes[c] * p == (256 * acc + bytes[c]) * p;
    FromBigEndianBound(bytes[..c + 1]);
    Pow256Sum(c + 1, n - 1 - c);
    Less(FromBigEndian(bytes[..c + 1]), Pow256(c + 1), p);
  }

  lemma Less(a: nat, b: nat, p: nat)
    requires a < b && p > 0
    ensures a * p < b * p
  {
  }

  lemma {:induction false} Pow256Sum(a: nat, b: nat)
    ensures Pow256(a) * Pow256(b) == Pow256(a + b)
  {
    if a > 0 {
      Pow256Sum(a - 1, b);
      assert (256 * Pow256(a - 1)) * Pow256(b) == 256 * (Pow256(a - 1) * Pow256(b));
    }
  }

  lemma {:induction false} Pow256Grows(a: nat, b: nat)
    requires a <= b
    ensures Pow256(a) <= Pow256(b)
  {
    if a < b {
      Pow256Grows(a, b - 1);
    }
  }

  /** The three length forms; a client may pick any that the length fits. */
  datatype LengthForm = Seven | Sixteen | SixtyFour

  datatype ClientFrame = ClientFrame(opcode: Byte, form: LengthForm, mask: Mask, payload: seq<Byte>)

  ghost predicate Fits(f: ClientFrame) {
    match f.form
    case Seven => |f.payload| < 126
    case Sixteen => |f.payload| < 0x1_0000
    case SixtyFour => |f.payload| < SIZE_LIMIT
  }

  /** Second header byte and the extended length. */
  function LengthField(f: ClientFrame): (s: seq<Byte>)
    ensures |s| > 0 && s[0] >= 128
  {
    match f.form
    case Seven => [128 + |f.payload| % 128]
    case Sixteen => [254] + BigEndian(|f.payload|, 2)
    case SixtyFour => [255] + BigEndian(|f.payload|, 8)
  }

  function Body(f: ClientFrame): (s: seq<Byte>)
  {
    f.mask + Masked(f.mask, f.payload)
  }

  function EncodeClient(f: ClientFrame): (s: seq<Byte>)
  {
    [f.opcode] + (LengthField(f) + Body(f))
  }
}
