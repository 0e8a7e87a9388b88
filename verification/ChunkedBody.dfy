/** Reading an HTTP request body in chunked transfer coding (section 4.1 of RFC 7230). The network may cut the
    stream anywhere, and a line read may take any number of bytes past the line. */
module ChunkedBody {
  import opened CHex
  import opened Common
  import Lists

  datatype Error =
    | ProtocolError
    | PayloadTooLarge
    // `pop_back` on an empty line
    | EmptyLine
    // a buffer for a length so near 2^64 that `2 + length` wraps
    | Unallocatable

  datatype Phase = AwaitLine | AwaitData(length: nat, need: nat) | Complete | Failed(error: Error)

  datatype State = State(
    phase: Phase,
    // the request's stream buffer, the decoded chunks, and both buffers' maximum size
    buffer: string,
    chunks: string,
    limit: nat,
    // received by the socket, not read yet
    inbox: string,
    // history: number of chunks taken off the buffer
    count: nat)

  datatype Event = Arrive(bytes: string) | Read(size: nat)

  /** After the request's header, with `leftover` read past it. */
  function Started(leftover: string, limit: nat): (s: State) {
    State(AwaitLine, leftover, [], limit, [], 0)
  }

  /** Index of the first line feed, or -1. */
  function FindLf(s: string): (i: int)
    ensures -1 <= i < |s|
    ensures i >= 0 ==> s[i] == '\n'
    ensures forall k | 0 <= k < (if i >= 0 then i else |s|) :: s[k] != '\n'
  {
    if s == [] then -1
    else if s[0] == '\n' then 0
    else
      var i := FindLf(s[1..]);
      assert forall k | 1 <= k < |s| :: s[k] == s[1..][k - 1];
      if i < 0 then -1 else i + 1
  }

  predicate CrlfAt(s: string, i: int) {
    0 <= i < |s| - 1 && s[i] == '\r' && s[i + 1] == '\n'
  }

  /** Index of the first CR LF, or -1. */
  function FindCrlf(s: string): (i: int)
    ensures i == -1 || CrlfAt(s, i)
    ensures forall k | 0 <= k < (if i >= 0 then i else |s|) :: !CrlfAt(s, k)
  {
    if |s| < 2 then -1
    else if CrlfAt(s, 0) then 0
    else
      var i := FindCrlf(s[1..]);
      assert forall k | 1 <= k < |s| :: CrlfAt(s, k) <==> CrlfAt(s[1..], k - 1);
      if i < 0 then -1 else i + 1
  }

  function Min(a: nat, b: nat): (r: nat) {
    if a < b then a else b
  }

  /** `stoul(line, 0, 16)`: a minus sign negates modulo 2^64. */
  function Stoul(line: string): (n: Number)
    ensures n.Number? ==> 0 <= n.value < SIZE_LIMIT
  {
    var p := Parse(line);
    if p.NoNumber? || p.value >= SIZE_LIMIT || -p.value >= SIZE_LIMIT then NoNumber
    else if p.value < 0 then Number(SIZE_LIMIT + p.value)
    else p
  }

  /** The chunk's data and the two bytes after it are in the buffer. */
  function TakeChunk(s: State, length: nat): (t: State)
    requires |s.buffer| >= length + 2
  {
    var all := s.chunks + s.buffer[..length];
    var chunks := all[..Min(|all|, s.limit)];
    if length > 0 && |chunks| == s.limit then s.(chunks := chunks, phase := Failed(PayloadTooLarge))
    else
      var rest := s.buffer[length + 2..];
      if length > 0 then s.(chunks := chunks, buffer := rest, phase := AwaitLine, count := s.count + 1)
      else
        var content := rest + s.chunks;
        s.(buffer := content[..Min(|content|, s.limit)], phase := Complete, count := s.count + 1)
  }

  /** The buffer holds a CR LF at `crlf`. */
  function TakeLine(s: State, crlf: nat): (t: State)
    requires CrlfAt(s.buffer, crlf)
  {
    LfBefore(s.buffer, crlf);
    var lf := FindLf(s.buffer);
    var line := s.buffer[..lf];
    var t := s.(buffer := s.buffer[lf + 1..]);
    TakeNumber(t, line, |t.buffer| - (crlf + 2 - (|line| + 1)))
  }

  lemma {:induction false} LfBefore(s: string, crlf: nat)
    requires CrlfAt(s, crlf)
    ensures 0 <= FindLf(s) <= crlf + 1
  {
  }

  /** A size line was taken, with the carriage return at its end. */
  function TakeNumber(t: State, line: string, additional: nat): (u: State)
    requires additional <= |t.buffer|
  {
    if line == [] then t.(phase := Failed(EmptyLine))
    else
      var n := Stoul(line[..|line| - 1]);
      if n.NoNumber? then t.(phase := Failed(ProtocolError)) else TakeSized(t, n.value, additional)
  }

  /** A size line gave this length, with `additional` bytes behind the line. */
  function TakeSized(t: State, length: nat, additional: nat): (u: State)
    requires additional <= |t.buffer|
  {
    if length + 2 >= SIZE_LIMIT then t.(phase := Failed(Unallocatable))
    else if 2 + length > additional then t.(phase := AwaitData(length, 2 + length - additional))
    else TakeChunk(t, length)
  }

  ghost predicate Valid(s: State) {
    s.phase.AwaitData? ==> |s.buffer| + s.phase.need >= s.phase.length + 2
  }

  /** A socket read of `size` bytes, or of what is there and asked for, and the handlers it lets run. */
  function Step(s: State, e: Event): (t: State)
    requires Valid(s)
  {
    match e
    case Arrive(bytes) => s.(inbox := s.inbox + bytes)
    case Read(size) =>
      var n := Min(size, |s.inbox|);
      match s.phase
      case AwaitLine =>
        var t := s.(buffer := s.buffer + s.inbox[..n], inbox := s.inbox[n..]);
        if |t.buffer| >= s.limit then t.(phase := Failed(PayloadTooLarge))
        else
          var crlf := FindCrlf(t.buffer);
          if crlf < 0 then t else TakeLine(t, crlf)
      case AwaitData(length, need) =>
        var k := Min(n, need);
        var t := s.(buffer := s.buffer + s.inbox[..k], inbox := s.inbox[k..], phase := AwaitData(length, need - k));
        if |t.buffer| >= s.limit then t.(phase := Failed(PayloadTooLarge))
        else if k < need then t
        else TakeChunk(t, length)
      case Complete => s
      case Failed(_) => s
  }

  lemma StepKeepsValid(s: State, e: Event)
    requires Valid(s)
    ensures Valid(Step(s, e))
  {
  }

  function Run(s: State, es: seq<Event>): (t: State)
    requires Valid(s)
    ensures Valid(t)
    decreases |es|
  {
    if es == [] then s
    else
      var m := Run(s, es[..|es| - 1]);
      StepKeepsValid(m, es[|es| - 1]);
      Step(m, es[|es| - 1])
  }

  function Arrived(es: seq<Event>): (s: string) {
    if es == [] then []
    else Arrived(es[..|es| - 1]) + if es[|es| - 1].Arrive? then es[|es| - 1].bytes else []
  }

  // ---- Chunked messages ----

  /** Size in hexadecimal digits, extension, data, and the two bytes that close the chunk. */
  datatype Chunk = Chunk(digits: string, extension: string, data: string, end: string)

  ghost predicate WellFormed(c: Chunk) {
    && c.digits != [] && AllHex(c.digits) && HexNumber(c.digits) == |c.data|
    && (c.extension != [] ==> c.extension[0] == ';')
    && (forall i | 0 <= i < |c.extension| :: c.extension[i] != '\r' && c.extension[i] != '\n')
    && |c.end| == 2
  }

  function SizeLine(c: Chunk): (s: string) {
    c.digits + c.extension
  }

  function Tail(c: Chunk): (s: string) {
    c.data + c.end
  }

  function Encode(cs: seq<Chunk>): (s: string) {
    if cs == [] then [] else SizeLine(cs[0]) + "\r\n" + (Tail(cs[0]) + Encode(cs[1..]))
  }

  function Data(cs: seq<Chunk>): (s: string) {
    if cs == [] then [] else Data(cs[..|cs| - 1]) + cs[|cs| - 1].data
  }

  /** Chunks with data, then the last one without. */
  ghost predicate Message(cs: seq<Chunk>) {
    && cs != []
    && (forall i | 0 <= i < |cs| :: WellFormed(cs[i]))
    && (forall i | 0 <= i < |cs| :: cs[i].data == [] <==> i == |cs| - 1)
  }

  // ---- The invariant ----

  /** The stream from chunk number `k` on, to the end of what follows the message. */
  ghost function From(cs: seq<Chunk>, k: nat, extra: string): (s: string)
    requires k <= |cs|
  {
    Encode(cs[k..]) + extra
  }

  lemma FromUnfold(cs: seq<Chunk>, k: nat, extra: string)
    requires k < |cs|
    ensures From(cs, k, extra) == SizeLine(cs[k]) + "\r\n" + (Tail(cs[k]) + From(cs, k + 1, extra))
  {
    assert cs[k..][1..] == cs[k + 1..];
    var a, b, c := SizeLine(cs[k]) + "\r\n", Tail(cs[k]), Encode(cs[k + 1..]);
    assert (a + (b + c)) + extra == a + (b + (c + extra));
  }

  /** What the buffer does not hold yet: `future` has not even arrived. */
  ghost function Unread(s: State, future: string): (r: string) {
    s.inbox + future
  }

  /** Chunks before the current one are decoded. */
  ghost predicate Decoding(s: State, cs: seq<Chunk>, future: string) {
    && Message(cs)
    && s.limit <= SIZE_LIMIT
    && |Data(cs)| < s.limit
    && |s.buffer| + |Unread(s, future)| + |s.chunks| < s.limit
    && s.count < |cs| && s.chunks == Data(cs[..s.count])
  }

  /** The content is the message's data, behind the bytes read beyond the message. */
  ghost predicate Decoded(s: State, cs: seq<Chunk>, extra: string, future: string) {
    && s.phase.Complete?
    && |s.buffer| >= |Data(cs)|
    && var surplus := s.buffer[..|s.buffer| - |Data(cs)|];
       s.buffer == surplus + Data(cs) && surplus + Unread(s, future) == extra
  }

  ghost predicate Inv(s: State, cs: seq<Chunk>, extra: string, future: string) {
    match s.phase
    case AwaitLine =>
      Decoding(s, cs, future) && s.buffer + Unread(s, future) == From(cs, s.count, extra)
    case AwaitData(length, need) =>
      && Decoding(s, cs, future)
      && length == |cs[s.count].data| && need > 0 && |s.buffer| + need == length + 2
      && s.buffer + Unread(s, future) == Tail(cs[s.count]) + From(cs, s.count + 1, extra)
    case Complete => Decoded(s, cs, extra, future)
    case Failed(_) => false
  }

  ghost predicate NoBreak(s: string, n: nat) {
    n <= |s| && forall i | 0 <= i < n :: s[i] != '\r' && s[i] != '\n'
  }

  lemma {:induction false} FindsLine(buffer: string, n: nat)
    requires CrlfAt(buffer, n) && NoBreak(buffer, n)
    ensures FindCrlf(buffer) == n && FindLf(buffer) == n + 1
  {
  }

  lemma {:induction false} FindsNoLine(buffer: string, n: nat)
    requires |buffer| <= n + 1 && NoBreak(buffer, if n < |buffer| then n else |buffer|)
    ensures FindCrlf(buffer) == -1
  {
  }

  lemma LineInside(line: string, tail: string, buffer: string, rest: string)
    requires NoBreak(line, |line|) && |buffer| >= |line| + 2
    requires (line + "\r\n") + tail == buffer + rest
    ensures CrlfAt(buffer, |line|) && NoBreak(buffer, |line|)
    ensures buffer[..|line|] == line && buffer[|line| + 2..] + rest == tail
  {
    var n := |line|;
    var head := line + "\r\n";
    CutAt(buffer + rest, buffer, rest, n + 2);
    CutAt(head + tail, head, tail, n + 2);
    assert buffer[..n + 2] == head;
    assert forall i | 0 <= i < n + 2 :: buffer[i] == buffer[..n + 2][i];
    assert head[n] == '\r' && head[n + 1] == '\n';
  }

  lemma LineBeyond(line: string, tail: string, buffer: string, rest: string)
    requires NoBreak(line, |line|) && |buffer| < |line| + 2
    requires (line + "\r\n") + tail == buffer + rest
    ensures NoBreak(buffer, if |line| < |buffer| then |line| else |buffer|)
  {
    assert forall i | 0 <= i < |buffer| :: buffer[i] == (buffer + rest)[i];
    assert forall i | 0 <= i < |line| :: line[i] == ((line + "\r\n") + tail)[i];
  }

  lemma {:induction false} FirstLine(line: string, tail: string, buffer: string, rest: string)
    requires NoBreak(line, |line|)
    requires (line + "\r\n") + tail == buffer + rest
    ensures FindCrlf(buffer) == -1 <==> |buffer| < |line| + 2
    ensures |buffer| >= |line| + 2 ==>
              && CrlfAt(buffer, |line|) && FindCrlf(buffer) == |line| && FindLf(buffer) == |line| + 1
              && buffer[..|line|] == line && buffer[|line| + 2..] + rest == tail
  {
    if |buffer| >= |line| + 2 {
      LineInside(line, tail, buffer, rest);
      FindsLine(buffer, |line|);
    } else {
      LineBeyond(line, tail, buffer, rest);
      FindsNoLine(buffer, |line|);
    }
  }

  lemma CutAt(s: string, buffer: string, rest: string, n: nat)
    requires s == buffer + rest && n <= |buffer|
    ensures s[..n] == buffer[..n] && s[n..] == buffer[n..] + rest
  {
  }

  lemma {:induction false} DataPush(cs: seq<Chunk>, k: nat)
    requires k < |cs|
    ensures Data(cs[..k + 1]) == Data(cs[..k]) + cs[k].data
  {
    assert cs[..k + 1][..k] == cs[..k];
  }

  lemma {:induction false} DataGrows(cs: seq<Chunk>, k: nat)
    requires k <= |cs|
    ensures |Data(cs[..k])| <= |Data(cs)|
    decreases |cs| - k
  {
    if k < |cs| {
      DataPush(cs, k);
      DataGrows(cs, k + 1);
    } else {
      assert cs[..k] == cs;
    }
  }

  /** The stream from a chunk's data on, cut at the chunk's end. */
  lemma TailSplit(c: Chunk, more: string, buffer: string, rest: string)
    requires |c.end| == 2 && buffer + rest == Tail(c) + more && |buffer| >= |c.data| + 2
    ensures buffer[..|c.data|] == c.data && buffer[|c.data| + 2..] + rest == more
  {
    var n := |c.data| + 2;
    CutAt(buffer + rest, buffer, rest, n);
    CutAt(Tail(c) + more, Tail(c), more, n);
    assert Tail(c)[..n] == Tail(c) && Tail(c)[n..] + more == more;
    assert buffer[..n][..|c.data|] == Tail(c)[..|c.data|] == c.data;
  }

  lemma TakeDataEffect(s: State, length: nat)
    requires length > 0 && |s.buffer| >= length + 2 && |s.chunks| + length < s.limit
    ensures TakeChunk(s, length)
            == s.(chunks := s.chunks + s.buffer[..length], buffer := s.buffer[length + 2..],
                  phase := AwaitLine, count := s.count + 1)
  {
    var all := s.chunks + s.buffer[..length];
    assert all[..|all|] == all;
  }

  lemma TakeDataKeepsInv(s: State, cs: seq<Chunk>, extra: string, future: string)
    requires Decoding(s, cs, future) && cs[s.count].data != []
    requires |s.buffer| >= |cs[s.count].data| + 2
    requires s.buffer + Unread(s, future) == Tail(cs[s.count]) + From(cs, s.count + 1, extra)
    ensures Inv(TakeChunk(s, |cs[s.count].data|), cs, extra, future)
  {
    var k := s.count;
    var c := cs[k];
    assert WellFormed(c);
    TailSplit(c, From(cs, k + 1, extra), s.buffer, Unread(s, future));
    DataPush(cs, k);
    DataGrows(cs, k + 1);
    TakeDataEffect(s, |c.data|);
  }

  lemma TakeLastKeepsInv(s: State, cs: seq<Chunk>, extra: string, future: string)
    requires Decoding(s, cs, future) && cs[s.count].data == []
    requires |s.buffer| >= 2
    requires s.buffer + Unread(s, future) == Tail(cs[s.count]) + From(cs, s.count + 1, extra)
    ensures Inv(TakeChunk(s, 0), cs, extra, future)
  {
    var k := s.count;
    assert WellFormed(cs[k]) && k == |cs| - 1;
    TailSplit(cs[k], From(cs, k + 1, extra), s.buffer, Unread(s, future));
    assert From(cs, k + 1, extra) == extra;
    DataPush(cs, k);
    assert cs[..k + 1] == cs;
    var rest := s.buffer[2..];
    assert s.chunks == Data(cs);
    var content := rest + s.chunks;
    assert content[..|content|] == content;
    var t := TakeChunk(s, 0);
    assert t.buffer == content;
    assert t.buffer[..|t.buffer| - |Data(cs)|] == rest;
  }

  lemma TakeChunkKeepsInv(s: State, cs: seq<Chunk>, extra: string, future: string)
    requires Decoding(s, cs, future)
    requires |s.buffer| >= |cs[s.count].data| + 2
    requires s.buffer + Unread(s, future) == Tail(cs[s.count]) + From(cs, s.count + 1, extra)
    ensures Inv(TakeChunk(s, |cs[s.count].data|), cs, extra, future)
  {
    if cs[s.count].data == [] {
      TakeLastKeepsInv(s, cs, extra, future);
    } else {
      TakeDataKeepsInv(s, cs, extra, future);
    }
  }

  /** What follows a size line that took nothing beyond itself. */
  function AfterLine(t: State, length: nat): (r: State) {
    if |t.buffer| >= length + 2 then TakeChunk(t, length)
    else t.(phase := AwaitData(length, length + 2 - |t.buffer|))
  }

  lemma TakeLineKnown(s: State, n: nat, length: nat)
    requires CrlfAt(s.buffer, n) && FindLf(s.buffer) == n + 1
    requires Stoul(s.buffer[..n]) == Number(length) && length + 2 < SIZE_LIMIT
    ensures TakeLine(s, n) == AfterLine(s.(buffer := s.buffer[n + 2..]), length)
  {
    assert s.buffer[..n + 1][..n] == s.buffer[..n];
  }

  /** A whole size line is taken for what it says. */
  lemma LineTaken(s: State, c: Chunk, more: string, unread: string) returns (t: State)
    requires WellFormed(c) && FindCrlf(s.buffer) >= 0
    requires s.buffer + unread == SizeLine(c) + "\r\n" + (Tail(c) + more)
    requires |s.buffer| + |unread| < SIZE_LIMIT
    ensures t == s.(buffer := t.buffer) && |t.buffer| <= |s.buffer|
    ensures t.buffer + unread == Tail(c) + more
    ensures TakeLine(s, FindCrlf(s.buffer)) == AfterLine(t, |c.data|)
  {
    var n := |SizeLine(c)|;
    t := s.(buffer := if |s.buffer| >= n + 2 then s.buffer[n + 2..] else []);
    assert CrlfAt(s.buffer, n) && FindCrlf(s.buffer) == n && FindLf(s.buffer) == n + 1
           && s.buffer[..n] == SizeLine(c) && t.buffer + unread == Tail(c) + more by {
      NoLineBreak(c);
      FirstLine(SizeLine(c), Tail(c) + more, s.buffer, unread);
    }
    LengthFits(c, more, t.buffer, unread);
    StoulLine(c);
    TakeLineKnown(s, n, |c.data|);
  }

  lemma StoulLine(c: Chunk)
    requires WellFormed(c) && |c.data| < SIZE_LIMIT
    ensures Stoul(SizeLine(c)) == Number(|c.data|)
  {
    ParseDigits(c.digits, c.extension);
  }

  lemma WaitKeepsInv(t: State, cs: seq<Chunk>, extra: string, future: string)
    requires Decoding(t, cs, future) && |t.buffer| < |cs[t.count].data| + 2
    requires t.buffer + Unread(t, future) == Tail(cs[t.count]) + From(cs, t.count + 1, extra)
    ensures var n := |cs[t.count].data|;
            Inv(t.(phase := AwaitData(n, n + 2 - |t.buffer|)), cs, extra, future)
  {
  }

  lemma LineKeepsInv(s: State, cs: seq<Chunk>, extra: string, future: string)
    requires Inv(s, cs, extra, future) && s.phase.AwaitLine? && FindCrlf(s.buffer) >= 0
    ensures Inv(TakeLine(s, FindCrlf(s.buffer)), cs, extra, future)
  {
    var k := s.count;
    assert WellFormed(cs[k]);
    FromUnfold(cs, k, extra);
    var t := LineTaken(s, cs[k], From(cs, k + 1, extra), Unread(s, future));
    assert Decoding(t, cs, future);
    if |t.buffer| >= |cs[k].data| + 2 {
      TakeChunkKeepsInv(t, cs, extra, future);
    } else {
      WaitKeepsInv(t, cs, extra, future);
    }
  }

  lemma NoLineBreak(c: Chunk)
    requires WellFormed(c)
    ensures NoBreak(SizeLine(c), |SizeLine(c)|)
  {
    forall i | 0 <= i < |SizeLine(c)| ensures SizeLine(c)[i] != '\r' && SizeLine(c)[i] != '\n' {
      if i < |c.digits| {
        assert IsHex(c.digits[i]);
      } else {
        assert SizeLine(c)[i] == c.extension[i - |c.digits|];
      }
    }
  }

  lemma LengthFits(c: Chunk, more: string, buffer: string, rest: string)
    requires WellFormed(c) && buffer + rest == Tail(c) + more
    ensures |c.data| + 2 <= |buffer| + |rest|
  {
    assert |buffer + rest| == |Tail(c) + more|;
  }

  lemma Shift(buffer: string, inbox: string, future: string, n: nat)
    requires n <= |inbox|
    ensures (buffer + inbox[..n]) + (inbox[n..] + future) == buffer + (inbox + future)
    ensures |buffer + inbox[..n]| + |inbox[n..] + future| == |buffer| + |inbox + future|
  {
    assert inbox == inbox[..n] + inbox[n..];
  }

  lemma ReadLineKeepsInv(s: State, cs: seq<Chunk>, extra: string, future: string, size: nat)
    requires Inv(s, cs, extra, future) && s.phase.AwaitLine?
    ensures Inv(Step(s, Read(size)), cs, extra, future)
  {
    var n := Min(size, |s.inbox|);
    var t := s.(buffer := s.buffer + s.inbox[..n], inbox := s.inbox[n..]);
    Shift(s.buffer, s.inbox, future, n);
    if FindCrlf(t.buffer) >= 0 {
      LineKeepsInv(t, cs, extra, future);
    }
  }

  lemma ReadDataKeepsInv(s: State, cs: seq<Chunk>, extra: string, future: string, size: nat)
    requires Inv(s, cs, extra, future) && s.phase.AwaitData?
    ensures Inv(Step(s, Read(size)), cs, extra, future)
  {
    var k := Min(Min(size, |s.inbox|), s.phase.need);
    var t := s.(buffer := s.buffer + s.inbox[..k], inbox := s.inbox[k..],
                phase := AwaitData(s.phase.length, s.phase.need - k));
    Shift(s.buffer, s.inbox, future, k);
    if k == s.phase.need {
      TakeChunkKeepsInv(t, cs, extra, future);
    }
  }

  lemma InvValid(s: State, cs: seq<Chunk>, extra: string, future: string)
    requires Inv(s, cs, extra, future)
    ensures Valid(s)
  {
  }

  lemma ArriveKeepsInv(s: State, bytes: string, cs: seq<Chunk>, extra: string, future: string)
    requires Inv(s, cs, extra, bytes + future)
    ensures Inv(s.(inbox := s.inbox + bytes), cs, extra, future)
  {
    assert Unread(s, bytes + future) == Unread(s.(inbox := s.inbox + bytes), future);
  }

  lemma StepKeepsInv(s: State, e: Event, cs: seq<Chunk>, extra: string, future: string)
    requires Inv(s, cs, extra, (if e.Arrive? then e.bytes else []) + future) && Valid(s)
    ensures Inv(Step(s, e), cs, extra, future)
  {
    match e
    case Arrive(bytes) => ArriveKeepsInv(s, bytes, cs, extra, future);
    case Read(size) =>
      assert [] + future == future;
      match s.phase
      case AwaitLine => ReadLineKeepsInv(s, cs, extra, future, size);
      case AwaitData(_, _) => ReadDataKeepsInv(s, cs, extra, future, size);
      case Complete =>
  }

  /** The message fits the buffers. */
  ghost predicate Room(stream: string, limit: nat) {
    |stream| < limit <= SIZE_LIMIT
  }

  lemma {:induction false} DataSize(cs: seq<Chunk>, k: nat)
    requires k <= |cs|
    ensures |Data(cs)| == |Data(cs[..k])| + DataFrom(cs, k)
    decreases |cs| - k
  {
    if k == |cs| {
      assert cs[..k] == cs;
    } else {
      DataPush(cs, k);
      DataSize(cs, k + 1);
    }
  }

  function DataFrom(cs: seq<Chunk>, k: nat): (n: nat)
    requires k <= |cs|
    decreases |cs| - k
  {
    if k == |cs| then 0 else |cs[k].data| + DataFrom(cs, k + 1)
  }

  lemma {:induction false} EncodeSize(cs: seq<Chunk>, k: nat)
    requires k <= |cs|
    ensures DataFrom(cs, k) <= |Encode(cs[k..])|
    decreases |cs| - k
  {
    if k < |cs| {
      EncodeSize(cs, k + 1);
      assert cs[k..][1..] == cs[k + 1..];
    }
  }

  lemma {:induction false} DataShorter(cs: seq<Chunk>)
    ensures |Data(cs)| <= |Encode(cs)|
  {
    DataSize(cs, 0);
    EncodeSize(cs, 0);
    assert cs[..0] == [] && cs[0..] == cs;
  }

  /** Whatever way the network cuts the stream and whatever the reads take, decoding never fails, what is decoded
      is always the data of the chunks seen so far, and at the end the content is the message's data, after any
      bytes that were read beyond the message. */
  lemma {:induction false} DecodesChunks(
      es: seq<Event>, cs: seq<Chunk>, extra: string, leftover: string, future: string, limit: nat)
    requires Message(cs)
    requires leftover + (Arrived(es) + future) == Encode(cs) + extra && Room(Encode(cs) + extra, limit)
    ensures Inv(Run(Started(leftover, limit), es), cs, extra, future)
    decreases |es|
  {
    if es == [] {
      assert cs[0..] == cs && cs[..0] == [];
      assert [] + future == Arrived(es) + future;
      DataShorter(cs);
    } else {
      var front, e := es[..|es| - 1], es[|es| - 1];
      var more := if e.Arrive? then e.bytes else [];
      Lists.AssocInner(leftover, Arrived(front), more, future);
      DecodesChunks(front, cs, extra, leftover, more + future, limit);
      StepKeepsInv(Run(Started(leftover, limit), front), e, cs, extra, future);
    }
  }

  // ---- The content handed to the resource ----

  /** When the body is complete its content is the concatenated chunk data just when no byte past the message
      was read; otherwise those bytes come first. */
  lemma {:induction false} ContentIsDataIff(
      es: seq<Event>, cs: seq<Chunk>, extra: string, leftover: string, future: string, limit: nat)
    requires Message(cs)
    requires leftover + (Arrived(es) + future) == Encode(cs) + extra && Room(Encode(cs) + extra, limit)
    requires Run(Started(leftover, limit), es).phase == Complete
    ensures var s := Run(Started(leftover, limit), es);
            s.buffer == Data(cs) <==> s.inbox + future == extra
  {
    DecodesChunks(es, cs, extra, leftover, future, limit);
    var s := Run(Started(leftover, limit), es);
    var surplus := s.buffer[..|s.buffer| - |Data(cs)|];
    assert surplus + Unread(s, future) == extra;
    if surplus == [] {
      assert surplus + Unread(s, future) == Unread(s, future);
    }
  }

  /** In particular a message with nothing after it decodes to its data, however it was cut. */
  lemma {:induction false} ExactMessage(es: seq<Event>, cs: seq<Chunk>, leftover: string, limit: nat)
    requires Message(cs) && leftover + Arrived(es) == Encode(cs) && Room(Encode(cs), limit)
    requires Run(Started(leftover, limit), es).phase == Complete
    ensures Run(Started(leftover, limit), es).buffer == Data(cs)
  {
    assert Encode(cs) + [] == Encode(cs) && Arrived(es) + [] == Arrived(es);
    ContentIsDataIff(es, cs, [], leftover, [], limit);
    DecodesChunks(es, cs, [], leftover, [], limit);
  }

  // ---- No read waits for what has already come ----

  lemma WholeLineRead(s: State, cs: seq<Chunk>, extra: string)
    requires Inv(s, cs, extra, []) && s.phase.AwaitLine?
    ensures var t := Step(s, Read(|s.inbox|)); t.phase.Complete? || Left(t, cs) < Left(s, cs)
  {
    var k := s.count;
    assert WellFormed(cs[k]);
    FromUnfold(cs, k, extra);
    var u := s.(buffer := s.buffer + s.inbox, inbox := []);
    assert s.inbox[..|s.inbox|] == s.inbox && s.inbox[|s.inbox|..] == [];
    assert u.buffer + [] == s.buffer + Unread(s, []);
    var more := From(cs, k + 1, extra);
    NoLineBreak(cs[k]);
    FirstLine(SizeLine(cs[k]), Tail(cs[k]) + more, u.buffer, []);
    var t := LineTaken(u, cs[k], more, []);
  }

  lemma WholeDataRead(s: State, cs: seq<Chunk>, extra: string)
    requires Inv(s, cs, extra, []) && s.phase.AwaitData?
    ensures Valid(s)
    ensures var t := Step(s, Read(|s.inbox|)); t.phase.Complete? || Left(t, cs) < Left(s, cs)
  {
    assert WellFormed(cs[s.count]);
    assert |s.buffer + Unread(s, [])| == |Tail(cs[s.count]) + From(cs, s.count + 1, extra)|;
  }

  /** With everything arrived, reading all there is takes the next size line or the rest of a chunk. */
  lemma ReadsOn(s: State, cs: seq<Chunk>, extra: string)
    requires Inv(s, cs, extra, []) && !s.phase.Complete?
    ensures Valid(s)
    ensures var t := Step(s, Read(|s.inbox|));
            Inv(t, cs, extra, []) && (t.phase.Complete? || Left(t, cs) < Left(s, cs))
  {
    InvValid(s, cs, extra, []);
    if s.phase.AwaitLine? {
      WholeLineRead(s, cs, extra);
      ReadLineKeepsInv(s, cs, extra, [], |s.inbox|);
    } else {
      WholeDataRead(s, cs, extra);
      ReadDataKeepsInv(s, cs, extra, [], |s.inbox|);
    }
  }

  function Left(s: State, cs: seq<Chunk>): (n: int) {
    2 * (|cs| - s.count) - if s.phase.AwaitData? then 1 else 0
  }

  /** Once the whole message has arrived, finitely many reads of what is there complete the body. */
  lemma {:induction false} BodyCompletes(s: State, cs: seq<Chunk>, extra: string) returns (steps: seq<Event>)
    requires Inv(s, cs, extra, []) && Valid(s)
    ensures forall e | e in steps :: e.Read?
    ensures RunFrom(s, steps).phase == Complete && Inv(RunFrom(s, steps), cs, extra, [])
    decreases if s.phase.Complete? then 0 else Left(s, cs) + 1
  {
    if s.phase.Complete? {
      steps := [];
    } else {
      ReadsOn(s, cs, extra);
      var e := Read(|s.inbox|);
      StepKeepsValid(s, e);
      var more := BodyCompletes(Step(s, e), cs, extra);
      steps := [e] + more;
      assert steps[1..] == more;
    }
  }

  /** Like `Run`, unfolded from the first event. */
  function RunFrom(s: State, es: seq<Event>): (t: State)
    requires Valid(s)
    decreases |es|
  {
    if es == [] then s else StepKeepsValid(s, es[0]); RunFrom(Step(s, es[0]), es[1..])
  }

  lemma {:induction false} RunLast(s: State, es: seq<Event>)
    requires Valid(s) && es != []
    ensures Run(s, es) == Step(Run(s, es[..|es| - 1]), es[|es| - 1])
  {
  }

  lemma {:induction false} RunFromFirst(s: State, es: seq<Event>)
    requires Valid(s) && es != []
    ensures Valid(Step(s, es[0])) && Run(s, es) == Run(Step(s, es[0]), es[1..])
    decreases |es|
  {
    StepKeepsValid(s, es[0]);
    var t, rest, n := Step(s, es[0]), es[1..], |es| - 1;
    RunLast(s, es);
    if n == 0 {
      assert es[..0] == [] && rest == [];
      assert Run(s, []) == s && Run(t, []) == t;
    } else {
      RunFromFirst(s, es[..n]);
      assert es[..n][1..] == rest[..n - 1] && rest[n - 1] == es[n] && es[..n][0] == es[0];
      RunLast(t, rest);
    }
  }

  lemma {:induction false} RunFromIsRun(s: State, es: seq<Event>)
    requires Valid(s)
    ensures RunFrom(s, es) == Run(s, es)
    decreases |es|
  {
    if es != [] {
      RunFromFirst(s, es);
      RunFromIsRun(Step(s, es[0]), es[1..]);
    }
  }

  lemma {:induction false} ReadsBringNothing(es: seq<Event>)
    requires forall e | e in es :: e.Read?
    ensures Arrived(es) == []
    decreases |es|
  {
    if es != [] {
      ReadsBringNothing(es[..|es| - 1]);
      assert es[|es| - 1] in es;
    }
  }

  /** When a whole message and what follows it were read together with the header, what follows ends up in front. */
  lemma {:induction false} ExtraComesFirst(cs: seq<Chunk>, extra: string, limit: nat) returns (es: seq<Event>)
    requires Message(cs) && Room(Encode(cs) + extra, limit)
    ensures Arrived(es) == []
    ensures var s := Run(Started(Encode(cs) + extra, limit), es);
            s.phase == Complete && s.buffer == extra + Data(cs)
  {
    var stream := Encode(cs) + extra;
    var s := Started(stream, limit);
    assert Run(s, []) == s && Arrived([]) == [] && stream + ([] + []) == stream;
    DecodesChunks([], cs, extra, stream, [], limit);
    es := BodyCompletes(s, cs, extra);
    RunFromIsRun(s, es);
    ReadsTakeNothing(s, es);
    ReadsBringNothing(es);
    var t := Run(s, es);
    var surplus := t.buffer[..|t.buffer| - |Data(cs)|];
    assert surplus + Unread(t, []) == extra;
    assert Unread(t, []) == [] && surplus + [] == surplus;
  }

  /** Whatever part of the stream has come and however it was read, a complete body has the message's data as its
      content. */
  ghost predicate AlwaysData(cs: seq<Chunk>, extra: string, limit: nat) {
    forall leftover, es | leftover + Arrived(es) <= Encode(cs) + extra ::
      var s := Run(Started(leftover, limit), es); s.phase == Complete ==> s.buffer == Data(cs)
  }

  lemma {:induction false} StreamSplits(leftover: string, es: seq<Event>, stream: string) returns (future: string)
    requires leftover + Arrived(es) <= stream
    ensures leftover + (Arrived(es) + future) == stream
  {
    future := stream[|leftover| + |Arrived(es)|..];
    Lists.Assoc(leftover, Arrived(es), future);
    assert (leftover + Arrived(es)) + future == stream;
  }

  /** A stream yields just its message's data, however it is cut and read, if and only if nothing follows the
      message. */
  lemma {:induction false} AlwaysDataIff(cs: seq<Chunk>, extra: string, limit: nat)
    requires Message(cs) && Room(Encode(cs) + extra, limit)
    ensures AlwaysData(cs, extra, limit) <==> extra == []
  {
    var stream := Encode(cs) + extra;
    if extra == [] {
      forall leftover, es | leftover + Arrived(es) <= stream
        ensures var s := Run(Started(leftover, limit), es); s.phase == Complete ==> s.buffer == Data(cs)
      {
        var future := StreamSplits(leftover, es, stream);
        DecodesChunks(es, cs, extra, leftover, future, limit);
      }
    } else {
      var es := ExtraComesFirst(cs, extra, limit);
      assert stream + Arrived(es) == stream;
      var s := Run(Started(stream, limit), es);
      assert |s.buffer| > |Data(cs)|;
    }
  }

  /** Whatever part of the stream has come and however it was read, decoding has not failed. */
  ghost predicate NeverFails(cs: seq<Chunk>, extra: string, limit: nat) {
    forall leftover, es | leftover + Arrived(es) <= Encode(cs) + extra ::
      !Run(Started(leftover, limit), es).phase.Failed?
  }

  /** A well-formed stream never fails, however it is cut and read, if and only if all of it is shorter than the
      buffer's limit: one read may take it whole. */
  lemma {:induction false} NeverFailsIff(cs: seq<Chunk>, extra: string, limit: nat)
    requires Message(cs) && limit <= SIZE_LIMIT
    ensures NeverFails(cs, extra, limit) <==> |Encode(cs) + extra| < limit
  {
    var stream := Encode(cs) + extra;
    if |stream| < limit {
      forall leftover, es | leftover + Arrived(es) <= stream
        ensures !Run(Started(leftover, limit), es).phase.Failed?
      {
        var future := StreamSplits(leftover, es, stream);
        DecodesChunks(es, cs, extra, leftover, future, limit);
      }
    } else {
      var e := Read(0);
      var s := Started(stream, limit);
      assert [e][..0] == [] && Run(s, []) == s && Run(s, [e]) == Step(s, e);
      assert Arrived([e]) == [] + [] && stream + Arrived([e]) == stream;
      assert stream + [] == stream;
      assert Run(s, [e]).phase.Failed?;
    }
  }

  /** A size line that does not start like a number is a protocol error. */
  lemma {:induction false} MalformedSizeFails(line: string, rest: string, limit: nat)
    requires line != [] && NoBreak(line, |line|) && |line + "\r\n" + rest| < limit
    requires !IsHex(line[0]) && !IsSpace(line[0]) && line[0] != '+' && line[0] != '-'
    ensures Run(Started(line + "\r\n" + rest, limit), [Read(0)]).phase == Failed(ProtocolError)
  {
    var stream, n, e := line + "\r\n" + rest, |line|, Read(0);
    var s := Started(stream, limit);
    assert [e][..0] == [] && Run(s, []) == s && Run(s, [e]) == Step(s, e);
    assert stream + [] == stream;
    assert CrlfAt(stream, n) && NoBreak(stream, n);
    FindsLine(stream, n);
    assert stream[..n + 1][..n] == line;
    NoNumberHere(line);
  }

  lemma NoNumberHere(line: string)
    requires line != [] && !IsHex(line[0]) && !IsSpace(line[0]) && line[0] != '+' && line[0] != '-'
    ensures Stoul(line) == NoNumber
  {
    HexRunExact(line, 0);
  }

  /** A body of one byte, read together with one byte that follows the message: that byte ends up in front. */
  lemma {:induction false} SurplusComesFirst() returns (es: seq<Event>)
    ensures var s := Run(Started("1\r\nA\r\n0\r\n\r\nB", 1000), es);
            s.phase == Complete && s.buffer == "BA"
  {
    var stream := "1\r\nA\r\n0\r\n\r\nB";
    var cs := [Chunk("1", "", "A", "\r\n"), Chunk("0", "", "", "\r\n")];
    TwoChunks(cs, stream);
    es := ExtraComesFirst(cs, "B", 1000);
    assert "B" + "A" == "BA";
  }

  lemma {:induction false} TwoChunks(cs: seq<Chunk>, stream: string)
    requires cs == [Chunk("1", "", "A", "\r\n"), Chunk("0", "", "", "\r\n")] && stream == "1\r\nA\r\n0\r\n\r\nB"
    ensures Message(cs) && Encode(cs) + "B" == stream && Data(cs) == "A"
  {
    assert HexNumber("0"[..0]) == 0 && HexNumber("1"[..0]) == 0;
    assert WellFormed(cs[0]) && WellFormed(cs[1]);
    assert cs[1..] == [cs[1]] && cs[1..][1..] == [];
    assert Encode([cs[1]]) == "0\r\n" + ("\r\n" + []);
    assert Encode(cs) == "1\r\n" + ("A\r\n" + Encode([cs[1]]));
    assert cs[..1] == [cs[0]] && [cs[0]][..0] == [];
    assert Data([cs[0]]) == [] + "A";
  }

  lemma StepTakesNothing(s: State, e: Event)
    requires Valid(s) && s.inbox == [] && e.Read?
    ensures Step(s, e).inbox == []
  {
  }

  lemma {:induction false} ReadsTakeNothing(s: State, es: seq<Event>)
    requires Valid(s) && s.inbox == [] && forall e | e in es :: e.Read?
    ensures Run(s, es).inbox == []
    decreases |es|
  {
    if es != [] {
      ReadsTakeNothing(s, es[..|es| - 1]);
      assert es[|es| - 1] in es;
      StepTakesNothing(Run(s, es[..|es| - 1]), es[|es| - 1]);
    }
  }

  // ---- The reading session ----

  class Session {
    const limit: nat
    var phase: Phase
    var streambuf: string
    var chunks: string
    var inbox: string
    ghost var count: nat

    ghost function Now(): (s: State)
      reads this
    {
      State(phase, streambuf, chunks, limit, inbox, count)
    }

    constructor (leftover: string, limit: nat)
      ensures Now() == Started(leftover, limit)
    {
      this.limit := limit;
      phase, streambuf, chunks, inbox, count := AwaitLine, leftover, [], [], 0;
    }

    method ReadChunk(length: nat)
      requires |streambuf| >= length + 2
      modifies this
      ensures Now() == TakeChunk(old(Now()), length)
    {
      if length > 0 {
        chunks := chunks + streambuf[..length];
        if |chunks| >= limit {
          chunks := chunks[..limit];
          phase := Failed(PayloadTooLarge);
          return;
        }
      }
      streambuf := streambuf[length + 2..];
      if length > 0 {
        phase := AwaitLine;
      } else {
        if |chunks| > 0 {
          streambuf := streambuf + chunks;
        }
        if |streambuf| > limit {
          streambuf := streambuf[..limit];
        }
        phase := Complete;
      }
      count := count + 1;
    }

    method ReadSized(length: nat, additional: nat)
      requires additional <= |streambuf|
      modifies this
      ensures Now() == TakeSized(old(Now()), length, additional)
    {
      if length + 2 >= SIZE_LIMIT {
        phase := Failed(Unallocatable);
      } else if 2 + length > additional {
        phase := AwaitData(length, 2 + length - additional);
      } else {
        ReadChunk(length);
      }
    }

    method ReadNumber(line: string, additional: nat)
      requires additional <= |streambuf|
      modifies this
      ensures Now() == TakeNumber(old(Now()), line, additional)
    {
      if line == [] {
        phase := Failed(EmptyLine);
        return;
      }
      var number := Stoul(line[..|line| - 1]);
      if number.NoNumber? {
        phase := Failed(ProtocolError);
      } else {
        ReadSized(number.value, additional);
      }
    }

    /** A line read ended with CR LF at `crlf`. */
    method ReadLine(crlf: nat)
      requires CrlfAt(streambuf, crlf)
      modifies this
      ensures Now() == TakeLine(old(Now()), crlf)
    {
      var bytesTransferred := crlf + 2;
      LfBefore(streambuf, crlf);
      var lf := FindLf(streambuf);
      var line := streambuf[..lf];
      streambuf := streambuf[lf + 1..];
      bytesTransferred := bytesTransferred - (|line| + 1);
      ReadNumber(line, |streambuf| - bytesTransferred);
    }

    /** The socket moves up to `size` bytes into the buffer, and the handlers that this completes run. */
    method ReadSome(size: nat)
      requires Valid(Now())
      modifies this
      ensures Now() == Step(old(Now()), Read(size))
    {
      var n := Min(size, |inbox|);
      match phase {
        case AwaitLine =>
          streambuf, inbox := streambuf + inbox[..n], inbox[n..];
          if |streambuf| >= limit {
            phase := Failed(PayloadTooLarge);
            return;
          }
          var crlf := FindCrlf(streambuf);
          if crlf >= 0 {
            ReadLine(crlf);
          }
        case AwaitData(length, need) =>
          n := Min(n, need);
          streambuf, inbox := streambuf + inbox[..n], inbox[n..];
          phase := AwaitData(length, need - n);
          if |streambuf| >= limit {
            phase := Failed(PayloadTooLarge);
          } else if n == need {
            ReadChunk(length);
          }
        case Complete =>
        case Failed(_) =>
      }
    }
  }
}
