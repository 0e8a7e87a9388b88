/** The receiving half of a WebSocket connection: a chain of exact-size reads into one buffer that may
    already hold bytes left over from the handshake. */
module FrameReader {
  import opened Common
  import opened WsFrame
  import Lists

  /** An outstanding asynchronous read, with what its completion handler captured. */
  datatype Read = Header | Length(opcode: Byte, width: nat) | Body(opcode: Byte, length: nat)

  /** What the server does about a frame. */
  datatype Output =
    | Message(opcode: Byte, payload: seq<Byte>)
    | Pong(opcode: Byte)
    | Close(status: nat, reason: seq<Byte>)
    | NotMasked
    | TooBig
    | ReadError
    // the number of bytes to read wrapped: the handler copies from an empty buffer until memory runs out
    | Overrun

  datatype State = State(
    maxMessageSize: nat,
    buffer: seq<Byte>,
    // bytes the socket has received and the server has not read
    inbox: seq<Byte>,
    pending: seq<Read>,
    stopped: bool,
    outputs: seq<Output>)

  datatype Event = Arrive(bytes: seq<Byte>) | Complete | Fail | Stop

  /** The connection after a handshake that read `leftover` bytes too many. */
  function Opened(maxMessageSize: nat, leftover: seq<Byte>): (s: State) {
    State(maxMessageSize, leftover, [], [Read.Header], false, [])
  }

  /** Number of bytes a read asks for; `4 + length` is computed in `std::size_t`. */
  function Need(r: Read): (n: nat) {
    match r
    case Header => 2
    case Length(_, width) => width
    case Body(_, length) => (4 + length) % SIZE_LIMIT
  }

  /** A read for a body asks for mask and payload just when their sum is below 2^64. */
  lemma NeedIsExact(opcode: Byte, length: nat)
    ensures Need(Body(opcode, length)) == 4 + length <==> length + 4 < SIZE_LIMIT
  {
  }

  /** The sum does not wrap for any admitted length just when the limit leaves room for the mask. */
  lemma NeedIsExactIff(maxMessageSize: nat)
    requires maxMessageSize < SIZE_LIMIT
    ensures (forall opcode, length: nat | length <= maxMessageSize :: Need(Body(opcode, length)) == 4 + length)
            <==> maxMessageSize + 4 < SIZE_LIMIT
  {
    assert Need(Body(0, maxMessageSize)) == (4 + maxMessageSize) % SIZE_LIMIT;
  }

  function ReadContent(s: State, opcode: Byte, length: nat): (r: State) {
    if length > s.maxMessageSize then s.(outputs := s.outputs + [TooBig])
    else s.(pending := s.pending + [Body(opcode, length)])
  }

  /** The answer to a frame with this payload. */
  function Answer(opcode: Byte, payload: seq<Byte>): (o: Output) {
    if opcode % 16 == 8 then
      if |payload| >= 2 then Close(payload[0] as int * 256 + payload[1] as int, payload[2..]) else Close(0, payload)
    else if opcode % 16 == 9 then Pong((opcode + 1) % 256)
    else Message(opcode, payload)
  }

  /** The completion handler of a read, given the bytes it takes off the buffer. */
  function Handle(s: State, r: Read, bytes: seq<Byte>): (t: State)
    requires |bytes| == Need(r)
  {
    match r
    case Header =>
      if bytes[1] < 128 then s.(outputs := s.outputs + [NotMasked])
      else if bytes[1] == 254 then s.(pending := s.pending + [Length(bytes[0], 2)])
      else if bytes[1] == 255 then s.(pending := s.pending + [Length(bytes[0], 8)])
      else ReadContent(s, bytes[0], bytes[1] - 128)
    case Length(opcode, _) => ReadContent(s, opcode, FromBigEndian(bytes))
    case Body(opcode, length) =>
      if |bytes| != 4 + length then s.(outputs := s.outputs + [Overrun])
      else
        var answer := Answer(opcode, Masked(bytes[..4], bytes[4..]));
        var t := s.(outputs := s.outputs + [answer]);
        if answer.Close? then t else t.(pending := s.pending + [Read.Header])
  }

  function Step(s: State, e: Event): (t: State) {
    match e
    case Arrive(bytes) => s.(inbox := s.inbox + bytes)
    case Stop => s.(stopped := true)
    case Fail =>
      if s.pending == [] then s
      else if s.stopped then s.(pending := s.pending[1..])
      else s.(pending := s.pending[1..], outputs := s.outputs + [ReadError])
    case Complete =>
      if s.pending == [] || |s.inbox| < Need(s.pending[0]) then s
      else
        var r := s.pending[0];
        var n := Need(r);
        var filled := s.buffer + s.inbox[..n];
        var t := s.(inbox := s.inbox[n..], pending := s.pending[1..]);
        if s.stopped then t.(buffer := filled)
        else Handle(t.(buffer := filled[n..]), r, filled[..n])
  }

  function Run(s: State, es: seq<Event>): (t: State)
    decreases |es|
  {
    if es == [] then s else Step(Run(s, es[..|es| - 1]), es[|es| - 1])
  }

  function Arrived(es: seq<Event>): (s: seq<Byte>) {
    if es == [] then []
    else Arrived(es[..|es| - 1]) + if es[|es| - 1].Arrive? then es[|es| - 1].bytes else []
  }

  // ---- What a client may expect ----

  /** Frames within the size limit that leave room for the mask below 2^64. */
  ghost predicate Acceptable(fs: seq<ClientFrame>, maxMessageSize: nat) {
    forall i | 0 <= i < |fs| ::
      Fits(fs[i]) && |fs[i].payload| <= maxMessageSize && |fs[i].payload| + 4 < SIZE_LIMIT
  }

  function EncodeClients(fs: seq<ClientFrame>): (s: seq<Byte>)
  {
    if fs == [] then [] else EncodeClient(fs[0]) + EncodeClients(fs[1..])
  }

  /** A close frame by its opcode. */
  predicate IsClose(f: ClientFrame) {
    f.opcode % 16 == 8
  }

  /** What a client may expect for a frame: a close frame is answered by its status, two big-endian bytes, and its
      reason; a ping by a pong; any other frame is handed over with its first byte and its payload. */
  ghost predicate Answers(o: Output, f: ClientFrame) {
    if IsClose(f) then
      && o.Close?
      && if |f.payload| >= 2
         then o.status < 0x1_0000 && BigEndian(o.status, 2) + o.reason == f.payload
         else o.status == 0 && o.reason == f.payload
    else if f.opcode % 16 == 9 then o == Pong(f.opcode + 1)
    else o == Message(f.opcode, f.payload)
  }

  lemma AnswerIsRight(f: ClientFrame)
    ensures Answers(Answer(f.opcode, f.payload), f) && (Answer(f.opcode, f.payload).Close? <==> IsClose(f))
  {
    if IsClose(f) && |f.payload| >= 2 {
      var a, b := f.payload[0], f.payload[1];
      TwoBytes(a, b);
      assert f.payload == [a, b] + f.payload[2..];
    }
  }

  lemma {:induction false} TwoBytes(a: Byte, b: Byte)
    ensures BigEndian(a as int * 256 + b as int, 2) == [a, b]
  {
    var n := a as int * 256 + b as int;
    assert n / 256 == a && n % 256 == b;
    assert BigEndian(n / 256, 1) == BigEndian(n / 256 / 256, 0) + [n / 256 % 256];
  }

  /** The outputs are the answers to the first frames, one each; none but the last is a close. */
  ghost predicate AnswersFirst(outputs: seq<Output>, fs: seq<ClientFrame>) {
    && |outputs| <= |fs|
    && (forall i | 0 <= i < |outputs| :: Answers(outputs[i], fs[i]))
    && (forall i | 0 <= i < |outputs| - 1 :: !IsClose(fs[i]))
  }

  /** What the pending read has still to see, when the unanswered frames are `rest`. */
  ghost function Ahead(r: Read, rest: seq<ClientFrame>): (s: seq<Byte>)
    requires !r.Header? ==> rest != []
  {
    match r
    case Header => EncodeClients(rest)
    case Length(_, _) => LengthField(rest[0])[1..] + (WsFrame.Body(rest[0]) + EncodeClients(rest[1..]))
    case Body(_, _) => WsFrame.Body(rest[0]) + EncodeClients(rest[1..])
  }

  ghost predicate Matches(r: Read, rest: seq<ClientFrame>) {
    match r
    case Header => true
    case Length(opcode, width) =>
      rest != [] && rest[0].opcode == opcode
      && ((width == 2 && rest[0].form == Sixteen) || (width == 8 && rest[0].form == SixtyFour))
    case Body(opcode, length) => rest != [] && rest[0].opcode == opcode && |rest[0].payload| == length
  }

  /** While frames `fs` come in, one read is outstanding unless a close frame was answered; `left` is the size of the
      handshake's leftover. */
  ghost predicate Answering(s: State, fs: seq<ClientFrame>, left: nat) {
    && !s.stopped
    && Acceptable(fs, s.maxMessageSize)
    && |s.buffer| == left
    && AnswersFirst(s.outputs, fs)
    && |s.pending| <= 1
    && (s.pending == [] <==> s.outputs != [] && s.outputs[|s.outputs| - 1].Close?)
    && (s.pending != [] ==> Matches(s.pending[0], fs[|s.outputs|..]))
  }

  /** What is read and not answered, has arrived and is not read, and has not arrived (`future`) is what the pending
      read has still to see. */
  ghost predicate Inv(s: State, fs: seq<ClientFrame>, left: nat, future: seq<Byte>) {
    && Answering(s, fs, left)
    && var rest := fs[|s.outputs|..];
       s.buffer + s.inbox + future == if s.pending == [] then EncodeClients(rest) else Ahead(s.pending[0], rest)
  }

  lemma ArriveKeepsInv(s: State, fs: seq<ClientFrame>, left: nat, future: seq<Byte>, bytes: seq<Byte>)
    requires Inv(s, fs, left, bytes + future)
    ensures Inv(Step(s, Arrive(bytes)), fs, left, future)
  {
    Lists.Assoc(s.inbox, bytes, future);
    Lists.Assoc(s.buffer, s.inbox, bytes + future);
    Lists.Assoc(s.buffer, s.inbox + bytes, future);
  }

  /** Reading `n` bytes to the back of the buffer and taking `n` off its front is taking them off the stream. */
  lemma TakeFront(buffer: seq<Byte>, inbox: seq<Byte>, future: seq<Byte>, n: nat)
    requires n <= |inbox|
    ensures var filled := buffer + inbox[..n];
            && filled[..n] == (buffer + inbox + future)[..n]
            && filled[n..] + inbox[n..] + future == (buffer + inbox + future)[n..]
  {
    var filled := buffer + inbox[..n];
    assert filled + inbox[n..] == buffer + inbox;
  }

  lemma SplitTwo(op: Byte, l: seq<Byte>, b: seq<Byte>, r: seq<Byte>)
    requires |l| > 0
    ensures var s := [op] + (l + b) + r; |s| >= 2 && s[0] == op && s[1] == l[0] && s[2..] == l[1..] + (b + r)
  {
  }

  lemma {:induction false} HeaderSplit(rest: seq<ClientFrame>)
    requires rest != []
    ensures var s := EncodeClients(rest); var f := rest[0];
            && |s| >= 2 && s[0] == f.opcode && s[1] == LengthField(f)[0]
            && s[2..] == LengthField(f)[1..] + (WsFrame.Body(f) + EncodeClients(rest[1..]))
  {
    var f := rest[0];
    SplitTwo(f.opcode, LengthField(f), WsFrame.Body(f), EncodeClients(rest[1..]));
  }

  lemma LengthRead(f: ClientFrame, tail: seq<Byte>)
    requires Fits(f) && f.form != Seven
    ensures var field := LengthField(f)[1..]; var n := |field|;
            && n == (if f.form == Sixteen then 2 else 8)
            && (field + tail)[..n] == field && (field + tail)[n..] == tail
            && FromBigEndian(field) == |f.payload|
  {
    var field := LengthField(f)[1..];
    Pow256Values();
    if f.form == Sixteen {
      assert field == BigEndian(|f.payload|, 2);
      BigEndianInverse(|f.payload|, 2);
    } else {
      assert field == BigEndian(|f.payload|, 8);
      BigEndianInverse(|f.payload|, 8);
    }
  }

  /** Shared shape of a completion: the bytes taken and what is left ahead. */
  lemma CompleteTakes(s: State, fs: seq<ClientFrame>, left: nat, future: seq<Byte>)
    returns (n: nat, d: seq<Byte>, t: State)
    requires Inv(s, fs, left, future) && s.pending != [] && |s.inbox| >= Need(s.pending[0])
    ensures d == Ahead(s.pending[0], fs[|s.outputs|..]) && n == Need(s.pending[0]) <= |d|
    ensures t == s.(buffer := t.buffer, inbox := t.inbox, pending := [])
    ensures |t.buffer| == left && t.buffer + t.inbox + future == d[n..]
    ensures Step(s, Complete) == Handle(t, s.pending[0], d[..n])
  {
    n := Need(s.pending[0]);
    d := Ahead(s.pending[0], fs[|s.outputs|..]);
    var filled := s.buffer + s.inbox[..n];
    t := s.(buffer := filled[n..], inbox := s.inbox[n..], pending := []);
    assert d == s.buffer + s.inbox + future;
    TakeFront(s.buffer, s.inbox, future, n);
    CompleteHandles(s);
  }

  lemma CompleteHandles(s: State)
    requires |s.pending| == 1 && |s.inbox| >= Need(s.pending[0]) && !s.stopped
    ensures var n := Need(s.pending[0]); var filled := s.buffer + s.inbox[..n];
            Step(s, Complete)
            == Handle(s.(buffer := filled[n..], inbox := s.inbox[n..], pending := []), s.pending[0], filled[..n])
  {
    assert s.pending[1..] == [];
  }

  /** A handler that only issued the next read. */
  lemma NextRead(s: State, t: State, r: Read, fs: seq<ClientFrame>, left: nat, future: seq<Byte>)
    requires Inv(s, fs, left, future) && s.pending != []
    requires t == s.(buffer := t.buffer, inbox := t.inbox, pending := [r])
    requires |t.buffer| == left
    requires Matches(r, fs[|s.outputs|..])
    requires t.buffer + t.inbox + future == Ahead(r, fs[|s.outputs|..])
    ensures Inv(t, fs, left, future)
  {
  }

  lemma HeaderHandled(t: State, f: ClientFrame, bytes: seq<Byte>) returns (r: Read)
    requires t.pending == [] && Fits(f) && |f.payload| <= t.maxMessageSize
    requires |bytes| == 2 && bytes[0] == f.opcode && bytes[1] == LengthField(f)[0]
    ensures Handle(t, Read.Header, bytes) == t.(pending := [r])
    ensures r == match f.form
                 case Seven => Body(f.opcode, |f.payload|)
                 case Sixteen => Length(f.opcode, 2)
                 case SixtyFour => Length(f.opcode, 8)
  {
    var u := Handle(t, Read.Header, bytes);
    r := match f.form
      case Seven => Body(f.opcode, |f.payload|)
      case Sixteen => Length(f.opcode, 2)
      case SixtyFour => Length(f.opcode, 8);
    assert u.pending == [r];
  }

  lemma HeaderKeepsInv(s: State, fs: seq<ClientFrame>, left: nat, future: seq<Byte>)
    requires Inv(s, fs, left, future) && s.pending == [Read.Header] && |s.inbox| >= 2
    ensures Inv(Step(s, Complete), fs, left, future)
  {
    var n, d, t := CompleteTakes(s, fs, left, future);
    var rest := fs[|s.outputs|..];
    var f := rest[0];
    HeaderSplit(rest);
    assert Fits(fs[|s.outputs|]);
    var r := HeaderHandled(t, f, d[..2]);
    assert d[2..] == Ahead(r, rest) by {
      if f.form == Seven {
        var tail := WsFrame.Body(f) + EncodeClients(rest[1..]);
        assert LengthField(f)[1..] + tail == tail;
      }
    }
    NextRead(s, t.(pending := [r]), r, fs, left, future);
  }

  lemma LengthKeepsInv(s: State, fs: seq<ClientFrame>, left: nat, future: seq<Byte>)
    requires Inv(s, fs, left, future) && |s.pending| == 1 && s.pending[0].Length? && |s.inbox| >= Need(s.pending[0])
    ensures Inv(Step(s, Complete), fs, left, future)
  {
    var n, d, t := CompleteTakes(s, fs, left, future);
    var rest := fs[|s.outputs|..];
    assert Fits(fs[|s.outputs|]);
    var r := Body(rest[0].opcode, |rest[0].payload|);
    LengthAhead(s.pending[0], rest, n, d);
    assert Handle(t, s.pending[0], d[..n]) == t.(pending := [r]);
    NextRead(s, t.(pending := [r]), r, fs, left, future);
  }

  lemma LengthAhead(r: Read, rest: seq<ClientFrame>, n: nat, d: seq<Byte>)
    requires r.Length? && Matches(r, rest) && Fits(rest[0]) && n == Need(r) && d == Ahead(r, rest)
    ensures n <= |d| && FromBigEndian(d[..n]) == |rest[0].payload|
    ensures d[n..] == Ahead(Body(rest[0].opcode, |rest[0].payload|), rest)
  {
    LengthRead(rest[0], WsFrame.Body(rest[0]) + EncodeClients(rest[1..]));
  }

  lemma BodyKeepsInv(s: State, fs: seq<ClientFrame>, left: nat, future: seq<Byte>)
    requires Inv(s, fs, left, future) && |s.pending| == 1 && s.pending[0].Body? && |s.inbox| >= Need(s.pending[0])
    ensures Inv(Step(s, Complete), fs, left, future)
  {
    var n, d, t := CompleteTakes(s, fs, left, future);
    var j := |s.outputs|;
    var rest := fs[j..];
    assert Fits(fs[j]);
    BodyAhead(s.pending[0], rest, n, d);
    BodyHandled(t, fs[j], d[..n]);
    assert rest[1..] == fs[j + 1..];
    var answer := Answer(fs[j].opcode, fs[j].payload);
    AnswerIsRight(fs[j]);
    var next := if answer.Close? then [] else [Read.Header];
    AnsweredOne(s, t.(outputs := s.outputs + [answer], pending := next), fs, left);
  }

  lemma BodyAhead(r: Read, rest: seq<ClientFrame>, n: nat, d: seq<Byte>)
    requires r.Body? && Matches(r, rest) && |rest[0].payload| + 4 < SIZE_LIMIT
    requires n == Need(r) && d == Ahead(r, rest)
    ensures n == 4 + |rest[0].payload| <= |d|
    ensures d[..n] == WsFrame.Body(rest[0]) && d[n..] == EncodeClients(rest[1..])
  {
    NeedIsExact(r.opcode, r.length);
  }

  lemma BodyHandled(t: State, f: ClientFrame, bytes: seq<Byte>)
    requires t.pending == [] && |f.payload| + 4 < SIZE_LIMIT && bytes == WsFrame.Body(f)
    ensures var answer := Answer(f.opcode, f.payload);
            Handle(t, Body(f.opcode, |f.payload|), bytes)
            == t.(outputs := t.outputs + [answer], pending := if answer.Close? then [] else [Read.Header])
  {
    NeedIsExact(f.opcode, |f.payload|);
    assert bytes[..4] == f.mask && bytes[4..] == Masked(f.mask, f.payload);
    MaskedTwice(f.mask, f.payload);
    assert t.pending + [Read.Header] == [Read.Header];
  }

  lemma AnsweredOne(s: State, u: State, fs: seq<ClientFrame>, left: nat)
    requires Answering(s, fs, left) && s.pending != [] && |s.outputs| < |fs| && |u.buffer| == left
    requires var f := fs[|s.outputs|]; var answer := Answer(f.opcode, f.payload);
             u == s.(buffer := u.buffer, inbox := u.inbox, outputs := s.outputs + [answer],
                     pending := if answer.Close? then [] else [Read.Header])
    ensures Answering(u, fs, left)
  {
    AnswerIsRight(fs[|s.outputs|]);
    if s.outputs != [] {
      assert Answers(s.outputs[|s.outputs| - 1], fs[|s.outputs| - 1]);
    }
    assert AnswersFirst(u.outputs, fs);
  }

  lemma CompleteKeepsInv(s: State, fs: seq<ClientFrame>, left: nat, future: seq<Byte>)
    requires Inv(s, fs, left, future)
    ensures Inv(Step(s, Complete), fs, left, future)
  {
    if s.pending != [] && |s.inbox| >= Need(s.pending[0]) {
      match s.pending[0]
      case Header => HeaderKeepsInv(s, fs, left, future);
      case Length(_, _) => LengthKeepsInv(s, fs, left, future);
      case Body(_, _) => BodyKeepsInv(s, fs, left, future);
    }
  }

  lemma StepKeepsInv(s: State, e: Event, fs: seq<ClientFrame>, left: nat, future: seq<Byte>)
    requires e.Arrive? || e.Complete?
    requires Inv(s, fs, left, (if e.Arrive? then e.bytes else []) + future)
    ensures Inv(Step(s, e), fs, left, future)
  {
    if e.Arrive? {
      ArriveKeepsInv(s, fs, left, future, e.bytes);
    } else {
      assert [] + future == future;
      CompleteKeepsInv(s, fs, left, future);
    }
  }

  ghost predicate Undisturbed(es: seq<Event>) {
    forall e | e in es :: e.Arrive? || e.Complete?
  }

  lemma {:induction false} OpenedReads(
      fs: seq<ClientFrame>, maxMessageSize: nat, leftover: seq<Byte>, future: seq<Byte>)
    requires Acceptable(fs, maxMessageSize) && leftover + future == EncodeClients(fs)
    ensures Inv(Opened(maxMessageSize, leftover), fs, |leftover|, future)
  {
    assert fs[0..] == fs;
    assert leftover + [] == leftover;
  }

  /** For every way the network cuts the stream of a client's frames and for every order of arrivals and
      completions, the answers given are those to the first frames, in order and with unmasked payloads; the
      buffer holds between reads exactly as many bytes as the handshake left; at most one read is outstanding
      and none after a close frame. */
  lemma {:induction false} ReadsClientFrames(
      es: seq<Event>, fs: seq<ClientFrame>, maxMessageSize: nat, leftover: seq<Byte>, future: seq<Byte>)
    requires Acceptable(fs, maxMessageSize) && Undisturbed(es)
    requires leftover + (Arrived(es) + future) == EncodeClients(fs)
    ensures Inv(Run(Opened(maxMessageSize, leftover), es), fs, |leftover|, future)
    decreases |es|
  {
    if es == [] {
      assert Arrived(es) + future == future;
      OpenedReads(fs, maxMessageSize, leftover, future);
    } else {
      var front, e := es[..|es| - 1], es[|es| - 1];
      assert e in es;
      var more := if e.Arrive? then e.bytes else [];
      assert Arrived(es) == Arrived(front) + more;
      Lists.AssocInner(leftover, Arrived(front), more, future);
      ReadsClientFrames(front, fs, maxMessageSize, leftover, more + future);
      var s := Run(Opened(maxMessageSize, leftover), front);
      StepKeepsInv(s, e, fs, |leftover|, future);
    }
  }

  // ---- Which frames are answered, and when ----

  /** Where frame number `j` starts in the client's stream. */
  function StartOf(fs: seq<ClientFrame>, j: nat): (n: int)
    requires j <= |fs|
  {
    |EncodeClients(fs)| - |EncodeClients(fs[j..])|
  }

  lemma StartOfNext(fs: seq<ClientFrame>, j: nat)
    requires j < |fs|
    ensures StartOf(fs, j + 1) == StartOf(fs, j) + |EncodeClient(fs[j])|
  {
    assert fs[j..][1..] == fs[j + 1..];
  }

  lemma {:induction false} SuffixIsShorter(fs: seq<ClientFrame>, k: nat)
    requires k <= |fs|
    ensures |EncodeClients(fs[k..])| <= |EncodeClients(fs)|
  {
    if k == 0 {
      assert fs[k..] == fs;
    } else {
      SuffixIsShorter(fs[1..], k - 1);
      assert fs[1..][k - 1..] == fs[k..];
    }
  }

  lemma StartOfGrows(fs: seq<ClientFrame>, i: nat, j: nat)
    requires i <= j <= |fs|
    ensures StartOf(fs, i) <= StartOf(fs, j)
  {
    SuffixIsShorter(fs[i..], j - i);
    assert fs[i..][j - i..] == fs[j..];
  }

  /** No outstanding read can complete. */
  ghost predicate Quiet(s: State) {
    s.pending != [] ==> |s.inbox| < Need(s.pending[0])
  }

  lemma {:induction false} AheadSize(r: Read, rest: seq<ClientFrame>, maxMessageSize: nat)
    requires Matches(r, rest) && Acceptable(rest, maxMessageSize)
    ensures |Ahead(r, rest)| <= |EncodeClients(rest)|
    ensures rest != [] ==> Need(r) + |EncodeClients(rest)| - |Ahead(r, rest)| <= |EncodeClient(rest[0])|
  {
    if rest != [] {
      HeaderSplit(rest);
      if r.Length? {
        LengthRead(rest[0], []);
      } else if r.Body? {
        assert Need(r) == 4 + r.length;
      }
    }
  }

  lemma {:induction false} QuietPosition(s: State, fs: seq<ClientFrame>, left: nat, future: seq<Byte>, arrived: nat)
    requires Inv(s, fs, left, future) && s.pending != [] && Quiet(s)
    requires left + arrived + |future| == |EncodeClients(fs)|
    ensures StartOf(fs, |s.outputs|) <= arrived
    ensures |s.outputs| < |fs| ==> arrived < StartOf(fs, |s.outputs| + 1)
  {
    var j := |s.outputs|;
    var rest := fs[j..];
    var r := s.pending[0];
    AheadSize(r, rest, s.maxMessageSize);
    if j < |fs| {
      StartOfNext(fs, j);
    }
    assert |s.buffer| + |s.inbox| + |future| == |Ahead(r, rest)|;
  }

  /** Number of frames up to and including the first close frame; all of them if there is none. */
  function UpToClose(fs: seq<ClientFrame>): (n: nat)
    ensures n <= |fs|
  {
    if fs == [] then 0 else if IsClose(fs[0]) then 1 else 1 + UpToClose(fs[1..])
  }

  lemma {:induction false} UpToCloseAt(fs: seq<ClientFrame>, j: nat)
    requires j < |fs| && forall i | 0 <= i < j :: !IsClose(fs[i])
    ensures if IsClose(fs[j]) then UpToClose(fs) == j + 1 else UpToClose(fs) > j
  {
    if j > 0 {
      UpToCloseAt(fs[1..], j - 1);
    }
  }

  /** After a close frame was answered nothing more is. */
  lemma {:induction false} ClosedPosition(s: State, fs: seq<ClientFrame>, left: nat, future: seq<Byte>, arrived: nat)
    requires Inv(s, fs, left, future) && s.pending == []
    requires left + arrived + |future| == |EncodeClients(fs)|
    ensures |s.outputs| == UpToClose(fs) && StartOf(fs, |s.outputs|) <= arrived
  {
    var j := |s.outputs| - 1;
    assert Answers(s.outputs[j], fs[j]);
    UpToCloseAt(fs, j);
    assert |s.buffer + s.inbox + future| == |EncodeClients(fs[j + 1..])|;
  }

  /** When no read can complete, a frame up to the first close frame has been answered just when the network has
      delivered as many bytes as the stream up to its end has; bytes that came with the handshake do not count. */
  lemma {:induction false} AnsweredJustWhen(
      es: seq<Event>, fs: seq<ClientFrame>, maxMessageSize: nat, leftover: seq<Byte>, future: seq<Byte>, k: nat)
    requires Acceptable(fs, maxMessageSize) && Undisturbed(es)
    requires leftover + (Arrived(es) + future) == EncodeClients(fs)
    requires Quiet(Run(Opened(maxMessageSize, leftover), es)) && k <= UpToClose(fs)
    ensures |Run(Opened(maxMessageSize, leftover), es).outputs| >= k <==> |Arrived(es)| >= StartOf(fs, k)
  {
    ReadsClientFrames(es, fs, maxMessageSize, leftover, future);
    var s := Run(Opened(maxMessageSize, leftover), es);
    var j := |s.outputs|;
    assert |leftover| + |Arrived(es)| + |future| == |EncodeClients(fs)|;
    if s.pending == [] {
      ClosedPosition(s, fs, |leftover|, future, |Arrived(es)|);
      StartOfGrows(fs, k, j);
    } else {
      QuietPosition(s, fs, |leftover|, future, |Arrived(es)|);
      if k <= j {
        StartOfGrows(fs, k, j);
      } else {
        StartOfGrows(fs, j + 1, k);
      }
    }
  }

  /** So a client that sends frames and then waits has all of them up to its first close frame answered just when
      the handshake took no more of their bytes than follow that close frame, and if nothing follows it or there is
      none, just when the handshake took nothing: otherwise as many bytes stay behind in the buffer. */
  lemma {:induction false} AllAnsweredIff(
      es: seq<Event>, fs: seq<ClientFrame>, maxMessageSize: nat, leftover: seq<Byte>)
    requires Acceptable(fs, maxMessageSize) && Undisturbed(es)
    requires leftover + Arrived(es) == EncodeClients(fs)
    requires Quiet(Run(Opened(maxMessageSize, leftover), es))
    ensures var n := UpToClose(fs);
            && (|Run(Opened(maxMessageSize, leftover), es).outputs| >= n
                <==> |leftover| <= |EncodeClients(fs[n..])|)
            && (n == |fs| ==> (|Run(Opened(maxMessageSize, leftover), es).outputs| >= n <==> leftover == []))
  {
    var n := UpToClose(fs);
    assert leftover + (Arrived(es) + []) == leftover + Arrived(es);
    AnsweredJustWhen(es, fs, maxMessageSize, leftover, [], n);
    assert |leftover| + |Arrived(es)| == |EncodeClients(fs)|;
    assert n == |fs| ==> fs[n..] == [];
  }

  /** A frame that came whole with the handshake waits for bytes that the client has no reason to send. */
  lemma {:induction false} LastFrameWaits(f: ClientFrame)
    requires Acceptable([f], 1000)
    ensures var s := Run(Opened(1000, EncodeClient(f)), []);
            Quiet(s) && s.outputs == [] && s.buffer == EncodeClient(f)
  {
  }

  /** At a limit of 2^64 - 1, the default of this layer, a client can announce a body of 2^64 - 1 bytes; the server
      then reads 3 bytes where it needs 2^64 + 3. */
  lemma {:induction false} WrappedRead(opcode: Byte, three: seq<Byte>)
    requires |three| == 3
    ensures var max := BigEndian(SIZE_LIMIT - 1, 8);
            Run(Opened(SIZE_LIMIT - 1, []),
                [Arrive([opcode, 255] + max + three), Complete, Complete, Complete]).outputs == [Overrun]
  {
    var max := BigEndian(SIZE_LIMIT - 1, 8);
    var s0 := Opened(SIZE_LIMIT - 1, []);
    var arrive := Arrive([opcode, 255] + max + three);
    var s1 := s0.(inbox := [opcode, 255] + (max + three));
    assert arrive.bytes == [opcode, 255] + (max + three);
    assert Step(s0, arrive) == s1;
    var s2 := s0.(inbox := max + three, pending := [Length(opcode, 8)]);
    CompleteWith(s1, [opcode, 255], max + three);
    assert Step(s1, Complete) == s2;
    var s3 := s0.(inbox := three, pending := [Body(opcode, SIZE_LIMIT - 1)]);
    CompleteWith(s2, max, three);
    MaxLength();
    assert Step(s2, Complete) == s3;
    CompleteWith(s3, three, []);
    assert three + [] == three;
    RunFour(s0, arrive, Complete, Complete, Complete);
  }

  lemma MaxLength()
    ensures FromBigEndian(BigEndian(SIZE_LIMIT - 1, 8)) == SIZE_LIMIT - 1
  {
    Pow256Values();
    BigEndianInverse(SIZE_LIMIT - 1, 8);
  }

  /** A completion when the handshake left nothing. */
  lemma CompleteWith(s: State, bytes: seq<Byte>, rest: seq<Byte>)
    requires |s.pending| == 1 && !s.stopped && s.buffer == [] && s.inbox == bytes + rest
    requires |bytes| == Need(s.pending[0])
    ensures Step(s, Complete) == Handle(s.(inbox := rest, pending := []), s.pending[0], bytes)
  {
    var n := |bytes|;
    assert s.inbox[..n] == bytes && s.inbox[n..] == rest;
    var filled := s.buffer + s.inbox[..n];
    assert filled[..n] == bytes && filled[n..] == [];
    CompleteHandles(s);
  }

  lemma {:induction false} RunFour(s: State, a: Event, b: Event, c: Event, d: Event)
    ensures Run(s, [a, b, c, d]) == Step(Step(Step(Step(s, a), b), c), d)
  {
    assert [a, b, c, d][..3] == [a, b, c] && [a, b, c][..2] == [a, b] && [a, b][..1] == [a] && [a][..0] == [];
    assert Run(s, [a]) == Step(s, a);
    assert Run(s, [a, b]) == Step(Step(s, a), b);
    assert Run(s, [a, b, c]) == Step(Run(s, [a, b]), c);
  }

  // ---- Refused frames, read errors and stops ----

  /** A header for a client's frame that is too long for the limit is refused as such, once it is read, whatever came
      before and whatever follows; nothing more is read. */
  lemma {:induction false} OversizedRefused(s: State, f: ClientFrame, more: seq<Byte>)
    requires s.pending == [Read.Header] && s.buffer == [] && !s.stopped && s.inbox == EncodeClient(f) + more
    requires Fits(f) && |f.payload| > s.maxMessageSize
    ensures var t := Run(s, [Complete, Complete]);
            t.outputs == s.outputs + [TooBig] && t.pending == []
  {
    RunTwo(s, Complete, Complete);
    OversizedHeader(s, f, more);
    var t := Step(s, Complete);
    if f.form != Seven {
      OversizedLength(t, f, WsFrame.Body(f) + more);
    }
  }

  lemma OversizedHeader(s: State, f: ClientFrame, more: seq<Byte>)
    requires s.pending == [Read.Header] && s.buffer == [] && !s.stopped && s.inbox == EncodeClient(f) + more
    requires Fits(f) && |f.payload| > s.maxMessageSize
    ensures var rest := LengthField(f)[1..] + (WsFrame.Body(f) + more);
            Step(s, Complete) == match f.form
                                 case Seven => s.(inbox := rest, pending := [], outputs := s.outputs + [TooBig])
                                 case Sixteen => s.(inbox := rest, pending := [Length(f.opcode, 2)])
                                 case SixtyFour => s.(inbox := rest, pending := [Length(f.opcode, 8)])
  {
    var field := LengthField(f);
    SplitTwo(f.opcode, field, WsFrame.Body(f), more);
    var head, rest := [f.opcode, field[0]], field[1..] + (WsFrame.Body(f) + more);
    assert s.inbox == head + rest;
    CompleteWith(s, head, rest);
  }

  lemma OversizedLength(s: State, f: ClientFrame, more: seq<Byte>)
    requires f.form != Seven && s.pending == [Length(f.opcode, if f.form == Sixteen then 2 else 8)]
    requires s.buffer == [] && !s.stopped && s.inbox == LengthField(f)[1..] + more
    requires Fits(f) && |f.payload| > s.maxMessageSize
    ensures Step(s, Complete) == s.(inbox := more, pending := [], outputs := s.outputs + [TooBig])
  {
    LengthRead(f, more);
    CompleteWith(s, LengthField(f)[1..], more);
  }

  /** A frame without the mask bit is refused as such. */
  lemma {:induction false} UnmaskedRefused(s: State, opcode: Byte, second: Byte, more: seq<Byte>)
    requires s.pending == [Read.Header] && s.buffer == [] && !s.stopped && s.inbox == [opcode, second] + more
    requires second < 128
    ensures var t := Step(s, Complete); t.outputs == s.outputs + [NotMasked] && t.pending == []
  {
    CompleteWith(s, [opcode, second], more);
  }

  lemma {:induction false} RunTwo(s: State, a: Event, b: Event)
    ensures Run(s, [a, b]) == Step(Step(s, a), b)
  {
    assert [a, b][..1] == [a] && [a][..0] == [];
    assert Run(s, [a]) == Step(s, a);
  }

  /** A read error is reported once and ends the reading. */
  lemma ReadErrorEnds(s: State)
    requires OneRead(s) && s.pending != [] && !s.stopped
    ensures var t := Step(s, Fail); t.outputs == s.outputs + [ReadError] && t.pending == []
  {
  }

  /** After a stop nothing is answered. */
  lemma {:induction false} StoppedAnswersNothing(s: State, es: seq<Event>)
    ensures Run(Step(s, Stop), es).outputs == s.outputs && Run(Step(s, Stop), es).stopped
    decreases |es|
  {
    if es != [] {
      StoppedAnswersNothing(s, es[..|es| - 1]);
      StepStopped(Run(Step(s, Stop), es[..|es| - 1]), es[|es| - 1]);
    }
  }

  lemma StepStopped(s: State, e: Event)
    requires s.stopped
    ensures Step(s, e).stopped && Step(s, e).outputs == s.outputs
  {
  }

  // ---- Any bytes, any events ----

  ghost predicate Terminal(o: Output) {
    o.Close? || o.NotMasked? || o.TooBig? || o.ReadError? || o.Overrun?
  }

  /** At most one read is outstanding, and none once a close, a protocol error, an oversized message, a read error
      or a wrapped read ended it. */
  ghost predicate OneRead(s: State) {
    && |s.pending| <= 1
    && (forall i | 0 <= i < |s.outputs| - 1 :: !Terminal(s.outputs[i]))
    && (s.outputs != [] && Terminal(s.outputs[|s.outputs| - 1]) ==> s.pending == [])
  }

  lemma StepKeepsOneRead(s: State, e: Event)
    requires OneRead(s)
    ensures OneRead(Step(s, e))
    ensures !s.stopped ==> |Step(s, e).buffer| == |s.buffer|
  {
  }

  /** Whatever the client sends: reads never overlap, nothing is read or answered after the terminal answer, and
      between reads the buffer keeps its size until the runner is stopped. */
  lemma {:induction false} NeverTwoReads(es: seq<Event>, maxMessageSize: nat, leftover: seq<Byte>)
    ensures var s := Run(Opened(maxMessageSize, leftover), es);
            OneRead(s) && (!s.stopped ==> |s.buffer| == |leftover|)
    decreases |es|
  {
    if es != [] {
      NeverTwoReads(es[..|es| - 1], maxMessageSize, leftover);
      StepKeepsOneRead(Run(Opened(maxMessageSize, leftover), es[..|es| - 1]), es[|es| - 1]);
    }
  }

  // ---- The reading connection ----

  class ReadLoop {
    const maxMessageSize: nat
    var readBuffer: seq<Byte>
    var inbox: seq<Byte>
    var pending: seq<Read>
    var runnerStopped: bool
    var outputs: seq<Output>

    ghost function Now(): (s: State)
      reads this
    {
      State(maxMessageSize, readBuffer, inbox, pending, runnerStopped, outputs)
    }

    constructor (maxMessageSize: nat, leftover: seq<Byte>)
      ensures Now() == Opened(maxMessageSize, leftover)
    {
      this.maxMessageSize := maxMessageSize;
      readBuffer, inbox, pending := leftover, [], [Read.Header];
      runnerStopped, outputs := false, [];
    }

    method ReadMessageContent(opcode: Byte, length: nat)
      modifies this
      ensures Now() == ReadContent(old(Now()), opcode, length)
    {
      if length > maxMessageSize {
        outputs := outputs + [TooBig];
        return;
      }
      pending := pending + [Body(opcode, length)];
    }

    /** The oldest outstanding read has all its bytes: its handler runs. */
    method ReadCompleted()
      requires pending != [] && |inbox| >= Need(pending[0])
      modifies this
      ensures Now() == Step(old(Now()), Complete)
    {
      var read := pending[0];
      var n := Need(read);
      readBuffer := readBuffer + inbox[..n];
      inbox, pending := inbox[n..], pending[1..];
      if runnerStopped {
        return;
      }
      var bytes := readBuffer[..n];
      readBuffer := readBuffer[n..];
      match read {
        case Header =>
          if bytes[1] < 128 {
            outputs := outputs + [NotMasked];
          } else if bytes[1] == 254 {
            pending := pending + [Length(bytes[0], 2)];
          } else if bytes[1] == 255 {
            pending := pending + [Length(bytes[0], 8)];
          } else {
            ReadMessageContent(bytes[0], bytes[1] - 128);
          }
        case Length(opcode, _) =>
          var length := ReadLength(bytes);
          ReadMessageContent(opcode, length);
        case Body(opcode, length) =>
          if n != 4 + length {
            outputs := outputs + [Overrun];
            return;
          }
          var payload := Unmask(bytes[..4], bytes[4..]);
          if opcode % 16 == 8 {
            var status := 0;
            var reason := payload;
            if length >= 2 {
              status := payload[0] as int * 256 + payload[1] as int;
              reason := payload[2..];
            }
            outputs := outputs + [Close(status, reason)];
          } else {
            if opcode % 16 == 9 {
              outputs := outputs + [Pong((opcode + 1) % 256)];
            } else {
              outputs := outputs + [Message(opcode, payload)];
            }
            pending := pending + [Read.Header];
          }
      }
    }
  }
}
