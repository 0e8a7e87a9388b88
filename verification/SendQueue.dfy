/** The sending half of a WebSocket connection. Everything that touches the send queue runs on the
    connection's strand, so a run is a sequence of atomic events: another thread posts a send, the
    strand runs its oldest handler, the socket finishes the write in flight, the runner is stopped. */
module SendQueue {
  import opened Common
  import opened WsFrame
  import Lists

  const CLOSE_OPCODE: Byte := 136

  /** One queued message: its header and body streams and its completion callback, if any. */
  datatype SendData = SendData(header: seq<Byte>, message: seq<Byte>, callback: Callback)
  datatype Callback = NoCallback | Callback(id: nat)

  function BytesOf(d: SendData): (s: seq<Byte>) {
    d.header + d.message
  }

  ghost predicate WellFormed(d: SendData) {
    |d.message| < SIZE_LIMIT && d.header != [] && d.header == Header(d.header[0], |d.message|)
  }

  function FrameOf(d: SendData): (f: Frame) {
    Frame(if d.header == [] then 0 else d.header[0], d.message)
  }

  function MakeData(opcode: Byte, message: seq<Byte>, callback: Callback): (d: SendData)
    requires |message| < SIZE_LIMIT
    ensures WellFormed(d) && FrameOf(d) == Frame(opcode, message)
  {
    SendData(Header(opcode, |message|), message, callback)
  }

  /** Status in two bytes, then the reason. */
  function ClosePayload(status: nat, reason: seq<Byte>): (p: seq<Byte>) {
    [status / 256 % 256, status % 256] + reason
  }

  /** Handlers posted to the strand. `Done` is the completion handler of a write. */
  datatype Handler = Enqueue(data: SendData) | Start | Done(ok: bool, count: nat)

  /** How a queued message left the queue. `Finished` is the completion handler's doing: the callback
      ran with the outcome of the write. `Discarded` messages went with the clear after an error. */
  datatype Outcome = Finished(data: SendData, ok: bool, count: nat) | Discarded(data: SendData)

  /** A thread that calls `sendClose`. */
  type Caller = nat

  datatype InFlight = Nothing | Writing(data: SendData)

  datatype State = State(
    strand: seq<Handler>,
    queue: seq<SendData>,
    inFlight: InFlight,
    closed: bool,
    // calls of `sendClose` that found the flag clear and have not set it yet
    closing: set<Caller>,
    stopped: bool,
    // the front of an empty list was read
    broken: bool,
    // what the socket was given, and the history of the run
    wire: seq<Byte>,
    posted: seq<SendData>,
    settled: seq<Outcome>,
    written: seq<Outcome>)

  const INITIAL := State([], [], Nothing, false, {}, false, false, [], [], [], [])

  datatype Event =
    | Send(opcode: Byte, message: seq<Byte>, callback: Callback)
    // `sendClose` on some thread: the test of the flag, then the store and the post
    | CloseTest(caller: Caller)
    | CloseSet(caller: Caller, status: nat, reason: seq<Byte>, callback: Callback)
    | RunNext
    | WriteEnds(ok: bool, count: nat)
    | Stop

  ghost predicate Possible(e: Event) {
    match e
    case Send(_, message, _) => |message| < SIZE_LIMIT
    case CloseSet(_, _, reason, _) => |reason| + 2 < SIZE_LIMIT
    case _ => true
  }

  function Post(s: State, d: SendData): (r: State) {
    s.(strand := s.strand + [Enqueue(d)], posted := s.posted + [d])
  }

  function DiscardAll(q: seq<SendData>): (r: seq<Outcome>) {
    seq(|q|, i requires 0 <= i < |q| => Discarded(q[i]))
  }

  /** What the completion handler settles: the head, and on an error the rest of the queue with it. */
  function Settles(q: seq<SendData>, ok: bool, count: nat): (r: seq<Outcome>)
    requires q != []
  {
    [Finished(q[0], ok, count)] + if ok then [] else DiscardAll(q[1..])
  }

  function RunHandler(s: State, h: Handler): (r: State) {
    match h
    case Enqueue(d) =>
      s.(queue := s.queue + [d], strand := s.strand + if s.queue == [] then [Start] else [])
    case Start =>
      if s.queue == [] then s.(broken := true) else s.(inFlight := Writing(s.queue[0]))
    case Done(ok, count) =>
      if s.stopped then s
      else if s.queue == [] then s.(broken := true)
      else
        var settled := s.settled + Settles(s.queue, ok, count);
        if !ok then s.(queue := [], settled := settled)
        else s.(queue := s.queue[1..], settled := settled,
                strand := s.strand + if |s.queue| > 1 then [Start] else [])
  }

  /** A successful write took all bytes; a failed one took some number of them. */
  function Taken(d: SendData, ok: bool, count: nat): (n: nat)
    ensures n <= |BytesOf(d)|
  {
    if ok || count > |BytesOf(d)| then |BytesOf(d)| else count
  }

  function Step(s: State, e: Event): (r: State)
    requires Possible(e)
  {
    match e
    case Send(opcode, message, callback) => Post(s, MakeData(opcode, message, callback))
    case CloseTest(caller) => if s.closed then s else s.(closing := s.closing + {caller})
    case CloseSet(caller, status, reason, callback) =>
      if caller !in s.closing then s
      else Post(s, MakeData(CLOSE_OPCODE, ClosePayload(status, reason), callback))
             .(closed := true, closing := s.closing - {caller})
    case RunNext =>
      if s.strand == [] then s else RunHandler(s.(strand := s.strand[1..]), s.strand[0])
    case WriteEnds(ok, count) =>
      if s.inFlight.Nothing? then s
      else
        var d := s.inFlight.data;
        var n := Taken(d, ok, count);
        s.(inFlight := Nothing, wire := s.wire + BytesOf(d)[..n], written := s.written + [Finished(d, ok, n)],
           strand := s.strand + [Done(ok, n)])
    case Stop => s.(stopped := true)
  }

  ghost predicate PossibleRun(es: seq<Event>) {
    forall e | e in es :: Possible(e)
  }

  function Run(s: State, es: seq<Event>): (r: State)
    requires PossibleRun(es)
    decreases |es|
  {
    if es == [] then s else Step(Run(s, es[..|es| - 1]), es[|es| - 1])
  }

  // ---- The invariant ----

  function Enqueues(strand: seq<Handler>): (r: seq<SendData>) {
    if strand == [] then []
    else if strand[0].Enqueue? then [strand[0].data] + Enqueues(strand[1..])
    else Enqueues(strand[1..])
  }

  /** Handlers that start or finish a write. */
  function Controls(strand: seq<Handler>): (r: seq<Handler>) {
    if strand == [] then []
    else if strand[0].Enqueue? then Controls(strand[1..])
    else [strand[0]] + Controls(strand[1..])
  }

  lemma {:induction false} EnqueuesPush(strand: seq<Handler>, h: Handler)
    ensures Enqueues(strand + [h]) == if h.Enqueue? then Enqueues(strand) + [h.data] else Enqueues(strand)
  {
    if strand == [] {
      assert strand + [h] == [h];
    } else {
      EnqueuesPush(strand[1..], h);
      assert (strand + [h])[1..] == strand[1..] + [h];
    }
  }

  lemma {:induction false} ControlsPush(strand: seq<Handler>, h: Handler)
    ensures Controls(strand + [h]) == if h.Enqueue? then Controls(strand) else Controls(strand) + [h]
  {
    if strand == [] {
      assert strand + [h] == [h];
    } else {
      ControlsPush(strand[1..], h);
      assert (strand + [h])[1..] == strand[1..] + [h];
    }
  }

  lemma {:induction false} StrandPush(strand: seq<Handler>, h: Handler)
    ensures Enqueues(strand + [h]) == if h.Enqueue? then Enqueues(strand) + [h.data] else Enqueues(strand)
    ensures Controls(strand + [h]) == if h.Enqueue? then Controls(strand) else Controls(strand) + [h]
  {
    EnqueuesPush(strand, h);
    ControlsPush(strand, h);
  }

  function DataOf(os: seq<Outcome>): (r: seq<SendData>) {
    seq(|os|, i requires 0 <= i < |os| => os[i].data)
  }

  lemma {:induction false} DataOfAppend(a: seq<Outcome>, b: seq<Outcome>)
    ensures DataOf(a + b) == DataOf(a) + DataOf(b)
  {
  }

  function OnlyFinished(os: seq<Outcome>): (r: seq<Outcome>) {
    if os == [] then []
    else if os[0].Finished? then [os[0]] + OnlyFinished(os[1..])
    else OnlyFinished(os[1..])
  }

  lemma {:induction false} OnlyFinishedAppend(a: seq<Outcome>, b: seq<Outcome>)
    ensures OnlyFinished(a + b) == OnlyFinished(a) + OnlyFinished(b)
  {
    if a == [] {
      assert a + b == b;
    } else {
      OnlyFinishedAppend(a[1..], b);
      assert (a + b)[1..] == a[1..] + b;
    }
  }

  lemma {:induction false} OnlyFinishedNone(os: seq<Outcome>)
    requires forall i | 0 <= i < |os| :: os[i].Discarded?
    ensures OnlyFinished(os) == []
  {
    if os != [] {
      OnlyFinishedNone(os[1..]);
    }
  }

  /** The bytes of the finished writes. */
  function WireOf(ws: seq<Outcome>): (s: seq<Byte>) {
    if ws == [] then []
    else
      var w := ws[|ws| - 1];
      WireOf(ws[..|ws| - 1]) + if w.Finished? then BytesOf(w.data)[..Taken(w.data, w.ok, w.count)] else []
  }

  ghost predicate Failed(o: Outcome) {
    o.Finished? && !o.ok
  }

  /** Entry `j` is a failed write, and all from there up to entry `i` were discarded with it. */
  ghost predicate CauseAt(os: seq<Outcome>, i: int, j: int) {
    0 <= j < i < |os| && Failed(os[j]) && forall k | j < k <= i :: os[k].Discarded?
  }

  /** Discarded messages come directly after a failed write. */
  ghost predicate DiscardsHaveCause(os: seq<Outcome>) {
    forall i | 0 <= i < |os| && os[i].Discarded? :: exists j :: CauseAt(os, i, j)
  }

  /** At most one of a pending start, a write in flight and a pending completion exists. It exists just when
      the queue is non-empty, until the runner is stopped, and it always concerns the head. */
  ghost predicate OneWriter(s: State) {
    var controls := Controls(s.strand);
    && |controls| + (if s.inFlight.Writing? then 1 else 0) <= 1
    && (s.queue == [] ==> controls == [] && s.inFlight.Nothing?)
    && (s.queue != [] && !s.stopped ==> controls != [] || s.inFlight.Writing?)
    && (s.inFlight.Writing? ==> s.inFlight.data == s.queue[0])
  }

  /** Every posted send is, in post order, settled, then queued, then waiting in the strand. */
  ghost predicate Conserved(s: State) {
    s.posted == DataOf(s.settled) + s.queue + Enqueues(s.strand)
  }

  /** The completion handler has run for every finished write, except perhaps for the last one, which is
      that of the head of the queue and whose handler is pending or found the runner stopped. */
  ghost predicate Reported(s: State) {
    var done := OnlyFinished(s.settled);
    var controls := Controls(s.strand);
    if s.written == done then controls == [] || controls[0].Start?
    else
      && |s.written| == |done| + 1
      && s.written[..|done|] == done
      && s.queue != []
      && s.inFlight.Nothing?
      && (controls == [] ==> s.stopped)
      && (controls != [] ==>
            && controls[0].Done?
            && s.written[|done|] == Finished(s.queue[0], controls[0].ok, controls[0].count))
      && s.written[|done|].Finished? && s.written[|done|].data == s.queue[0]
  }

  ghost predicate Inv(s: State) {
    && !s.broken
    && OneWriter(s)
    && Conserved(s)
    && Reported(s)
    && s.wire == WireOf(s.written)
    && (forall d | d in s.posted :: WellFormed(d))
    && DiscardsHaveCause(s.settled)
  }

  lemma PostKeepsInv(s: State, d: SendData)
    requires Inv(s) && WellFormed(d)
    ensures Inv(Post(s, d))
  {
    StrandPush(s.strand, Enqueue(d));
  }

  lemma EnqueueEffect(s: State) returns (t: State)
    requires s.strand != [] && s.strand[0].Enqueue?
    ensures t == Step(s, RunNext)
    ensures var d := s.strand[0].data;
            && Enqueues(s.strand) == [d] + Enqueues(t.strand)
            && Controls(t.strand) == Controls(s.strand) + (if s.queue == [] then [Start] else [])
  {
    var rest := s.strand[1..];
    t := Step(s, RunNext);
    StrandPush(rest, Start);
    assert rest + [] == rest;
  }

  lemma EnqueueConserves(s: State, t: State, d: SendData)
    requires Conserved(s) && t.posted == s.posted && t.settled == s.settled && t.queue == s.queue + [d]
    requires Enqueues(s.strand) == [d] + Enqueues(t.strand)
    ensures Conserved(t)
  {
  }

  lemma EnqueueReports(s: State, t: State, d: SendData)
    requires Reported(s) && OneWriter(s) && t.written == s.written && t.settled == s.settled
    requires t.inFlight == s.inFlight && t.stopped == s.stopped && t.queue == s.queue + [d]
    requires Controls(t.strand) == Controls(s.strand) + (if s.queue == [] then [Start] else [])
    ensures Reported(t) && OneWriter(t)
  {
  }

  lemma EnqueueKeepsInv(s: State)
    requires Inv(s) && s.strand != [] && s.strand[0].Enqueue?
    ensures Inv(Step(s, RunNext))
  {
    var t := EnqueueEffect(s);
    EnqueueConserves(s, t, s.strand[0].data);
    EnqueueReports(s, t, s.strand[0].data);
  }

  lemma StartKeepsInv(s: State)
    requires Inv(s) && s.strand != [] && s.strand[0].Start?
    ensures Inv(Step(s, RunNext))
  {
    assert Controls(s.strand) == [Start] + Controls(s.strand[1..]);
    assert Enqueues(s.strand) == Enqueues(s.strand[1..]);
  }

  lemma SettlesFacts(q: seq<SendData>, ok: bool, count: nat)
    requires q != []
    ensures DataOf(Settles(q, ok, count)) == if ok then [q[0]] else q
    ensures OnlyFinished(Settles(q, ok, count)) == [Finished(q[0], ok, count)]
    ensures Finished(q[0], ok, count) in Settles(q, ok, count)
  {
    var head := [Finished(q[0], ok, count)];
    var tail := if ok then [] else DiscardAll(q[1..]);
    OnlyFinishedNone(tail);
    DataOfAppend(head, tail);
    OnlyFinishedAppend(head, tail);
  }

  lemma DoneEffect(s: State) returns (t: State)
    requires s.strand != [] && s.strand[0].Done? && !s.stopped && s.queue != [] && |Controls(s.strand)| == 1
    ensures t == Step(s, RunNext)
    ensures Enqueues(t.strand) == Enqueues(s.strand)
    ensures Controls(t.strand) == if t.queue == [] then [] else [Start]
  {
    t := Step(s, RunNext);
    var rest := s.strand[1..];
    assert Controls(rest) == [];
    StrandPush(rest, Start);
    assert rest + [] == rest;
  }

  lemma DoneConserves(s: State, t: State, ok: bool, count: nat)
    requires Conserved(s) && s.queue != [] && t.posted == s.posted
    requires t.settled == s.settled + Settles(s.queue, ok, count)
    requires t.queue == (if ok then s.queue[1..] else [])
    requires Enqueues(t.strand) == Enqueues(s.strand)
    ensures Conserved(t)
  {
    var news := DataOf(Settles(s.queue, ok, count));
    SettlesFacts(s.queue, ok, count);
    DataOfAppend(s.settled, Settles(s.queue, ok, count));
    assert s.queue == news + t.queue;
    Lists.AssocMiddle(DataOf(s.settled), news, t.queue, Enqueues(t.strand));
  }

  lemma DoneReports(s: State, t: State, ok: bool, count: nat)
    requires s.queue != [] && Reported(s) && Controls(s.strand) == [Done(ok, count)]
    requires t.settled == s.settled + Settles(s.queue, ok, count) && t.written == s.written
    requires Controls(t.strand) == [] || Controls(t.strand)[0] == Start
    ensures Reported(t)
  {
    SettlesFacts(s.queue, ok, count);
    OnlyFinishedAppend(s.settled, Settles(s.queue, ok, count));
  }

  lemma DoneCause(settled: seq<Outcome>, q: seq<SendData>, ok: bool, count: nat)
    requires DiscardsHaveCause(settled) && q != []
    ensures DiscardsHaveCause(settled + Settles(q, ok, count))
  {
    var all, n := settled + Settles(q, ok, count), |settled|;
    assert all[n] == Finished(q[0], ok, count);
    forall i | 0 <= i < |all| && all[i].Discarded? ensures exists j :: CauseAt(all, i, j) {
      if i < n {
        assert settled[i].Discarded?;
        var j :| CauseAt(settled, i, j);
        assert CauseAt(all, i, j);
      } else {
        assert CauseAt(all, i, n);
      }
    }
  }

  lemma IgnoredDoneKeepsInv(s: State)
    requires Inv(s) && s.strand != [] && s.strand[0].Done? && s.stopped
    ensures Inv(Step(s, RunNext))
  {
    assert Controls(s.strand) == [s.strand[0]] + Controls(s.strand[1..]);
    assert Enqueues(s.strand) == Enqueues(s.strand[1..]);
  }

  lemma DoneKeepsInv(s: State)
    requires Inv(s) && s.strand != [] && s.strand[0].Done? && !s.stopped
    ensures Inv(Step(s, RunNext))
  {
    var h := s.strand[0];
    assert Controls(s.strand) == [h] by {
      assert Controls(s.strand) == [h] + Controls(s.strand[1..]);
    }
    var t := DoneEffect(s);
    assert Conserved(t) by { DoneConserves(s, t, h.ok, h.count); }
    assert Reported(t) by { DoneReports(s, t, h.ok, h.count); }
    assert DiscardsHaveCause(t.settled) by { DoneCause(s.settled, s.queue, h.ok, h.count); }
  }

  lemma WriteEndsEffect(s: State, ok: bool, count: nat) returns (t: State, n: nat)
    requires OneWriter(s) && s.inFlight.Writing?
    ensures t == Step(s, WriteEnds(ok, count)) && n == Taken(s.inFlight.data, ok, count)
    ensures Controls(s.strand) == [] && Controls(t.strand) == [Done(ok, n)] && Enqueues(t.strand) == Enqueues(s.strand)
    ensures t.written == s.written + [Finished(s.queue[0], ok, n)] && OneWriter(t)
  {
    t, n := Step(s, WriteEnds(ok, count)), Taken(s.inFlight.data, ok, count);
    StrandPush(s.strand, Done(ok, n));
  }

  lemma WriteEndsWires(s: State, ok: bool, count: nat)
    requires s.wire == WireOf(s.written) && s.inFlight.Writing?
    ensures var t := Step(s, WriteEnds(ok, count)); t.wire == WireOf(t.written)
  {
    var t, n := Step(s, WriteEnds(ok, count)), Taken(s.inFlight.data, ok, count);
    assert t.written[..|s.written|] == s.written;
    assert Taken(s.inFlight.data, ok, n) == n;
  }

  lemma WriteEndsReports(s: State, t: State, ok: bool, n: nat)
    requires Reported(s) && s.queue != [] && Controls(s.strand) == [] && s.inFlight.Writing?
    requires t.settled == s.settled && t.queue == s.queue && t.inFlight.Nothing?
    requires Controls(t.strand) == [Done(ok, n)] && t.written == s.written + [Finished(s.queue[0], ok, n)]
    ensures Reported(t)
  {
    assert s.written == OnlyFinished(s.settled);
    assert t.written[..|s.written|] == s.written;
  }

  lemma WriteEndsKeepsInv(s: State, ok: bool, count: nat)
    requires Inv(s)
    ensures Inv(Step(s, WriteEnds(ok, count)))
  {
    if s.inFlight.Writing? {
      var t, n := WriteEndsEffect(s, ok, count);
      WriteEndsWires(s, ok, count);
      WriteEndsReports(s, t, ok, n);
    }
  }

  lemma StepKeepsInv(s: State, e: Event)
    requires Inv(s) && Possible(e)
    ensures Inv(Step(s, e))
  {
    match e
    case Send(opcode, message, callback) => PostKeepsInv(s, MakeData(opcode, message, callback));
    case CloseTest(_) =>
    case CloseSet(_, status, reason, callback) =>
      PostKeepsInv(s, MakeData(CLOSE_OPCODE, ClosePayload(status, reason), callback));
    case RunNext =>
      if s.strand != [] {
        match s.strand[0]
        case Enqueue(_) => EnqueueKeepsInv(s);
        case Start => StartKeepsInv(s);
        case Done(_, _) =>
          if s.stopped {
            IgnoredDoneKeepsInv(s);
          } else {
            DoneKeepsInv(s);
          }
      }
    case WriteEnds(ok, count) => WriteEndsKeepsInv(s, ok, count);
    case Stop =>
  }

  /** The invariant holds after every run, whatever the interleaving. */
  lemma {:induction false} RunKeepsInv(es: seq<Event>)
    requires PossibleRun(es)
    ensures Inv(Run(INITIAL, es))
    decreases |es|
  {
    if es != [] {
      RunKeepsInv(es[..|es| - 1]);
      StepKeepsInv(Run(INITIAL, es[..|es| - 1]), es[|es| - 1]);
    }
  }

  // ---- The connection object ----

  class Connection {
    var sendQueue: seq<SendData>
    var closed: bool
    var strand: seq<Handler>
    var inFlight: InFlight
    var runnerStopped: bool
    ghost var closing: set<Caller>
    ghost var broken: bool
    ghost var wire: seq<Byte>
    ghost var posted: seq<SendData>
    ghost var settled: seq<Outcome>
    ghost var written: seq<Outcome>

    ghost function Now(): (s: State)
      reads this
    {
      State(strand, sendQueue, inFlight, closed, closing, runnerStopped, broken, wire, posted, settled, written)
    }

    constructor ()
      ensures Now() == INITIAL
    {
      sendQueue, strand, inFlight := [], [], Nothing;
      closed, runnerStopped, broken := false, false, false;
      closing, wire, posted, settled, written := {}, [], [], [], [];
    }

    /** Builds the header now and leaves the queue to the strand. */
    method Send(message: seq<Byte>, callback: Callback, opcode: Byte)
      requires |message| < SIZE_LIMIT
      modifies this
      ensures Now() == Step(old(Now()), Event.Send(opcode, message, callback))
    {
      var header := PutHeader(opcode, |message|);
      var data := SendData(header, message, callback);
      strand := strand + [Enqueue(data)];
      posted := posted + [data];
    }

    /** The store and the post of a call that found the flag clear. */
    method SetClosed(ghost caller: Caller, status: nat, reason: seq<Byte>, callback: Callback)
      requires |reason| + 2 < SIZE_LIMIT && caller in closing
      modifies this
      ensures Now() == Step(old(Now()), CloseSet(caller, status, reason, callback))
    {
      closed := true;
      closing := closing - {caller};
      var stream: seq<Byte> := [status / 256 % 256];
      stream := stream + [status % 256];
      stream := stream + reason;
      assert stream == ClosePayload(status, reason);
      Send(stream, callback, CLOSE_OPCODE);
    }

    /** A call that no other one overlaps: both steps in a row. */
    method SendClose(ghost caller: Caller, status: nat, reason: seq<Byte>, callback: Callback)
      requires |reason| + 2 < SIZE_LIMIT && caller !in closing
      modifies this
      ensures Now() == Step(Step(old(Now()), CloseTest(caller)), CloseSet(caller, status, reason, callback))
    {
      if closed {
        return;
      }
      closing := closing + {caller};
      SetClosed(caller, status, reason, callback);
    }

    /** The strand runs its oldest handler. */
    method RunNextHandler()
      requires Inv(Now())
      modifies this
      ensures Now() == Step(old(Now()), RunNext)
      ensures Inv(Now())
    {
      ghost var before := Now();
      StepKeepsInv(before, RunNext);
      if strand == [] {
        return;
      }
      var handler := strand[0];
      strand := strand[1..];
      match handler {
        case Enqueue(data) =>
          sendQueue := sendQueue + [data];
          if |sendQueue| == 1 {
            strand := strand + [Start];
          } else {
            assert strand + [] == strand;
          }
        case Start =>
          inFlight := Writing(sendQueue[0]);
        case Done(ok, count) =>
          if runnerStopped {
            return;
          }
          settled := settled + Settles(sendQueue, ok, count);
          if !ok {
            sendQueue := [];
            return;
          }
          sendQueue := sendQueue[1..];
          if |sendQueue| > 0 {
            strand := strand + [Start];
          } else {
            assert strand + [] == strand;
          }
      }
    }

    /** The socket reports the end of the write in flight. */
    method WriteFinished(ok: bool, count: nat)
      modifies this
      ensures Now() == Step(old(Now()), WriteEnds(ok, count))
    {
      match inFlight
      case Nothing =>
      case Writing(data) =>
        var n := Taken(data, ok, count);
        wire := wire + BytesOf(data)[..n];
        written := written + [Finished(data, ok, n)];
        inFlight := Nothing;
        strand := strand + [Done(ok, n)];
    }
  }
}
