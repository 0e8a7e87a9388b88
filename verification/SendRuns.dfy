/** What holds in every run of a connection's send queue: one writer, nothing lost without a cause, the wire carries
    the posted frames, nothing gets stuck, it closes once, and a stop is final. */
module SendRuns {
  import opened SendQueue
  import opened Common
  import opened WsFrame

  // ---- What follows for every run ----

  /** Start and completion handlers never read the front of an empty queue; of a pending start, a write in
      flight and a pending completion there is never more than one, and without a stop there is one just when
      something is queued. The write in flight and the pending completion are those of the head. */
  lemma {:induction false} AtMostOneWriter(es: seq<Event>)
    requires PossibleRun(es)
    ensures var s := Run(INITIAL, es);
            var busy := |Controls(s.strand)| + if s.inFlight.Writing? then 1 else 0;
            && !s.broken
            && busy <= 1
            && (busy == 1 ==> s.queue != [])
            && (s.queue != [] && !s.stopped ==> busy == 1)
            && (s.inFlight.Writing? ==> s.inFlight.data == s.queue[0])
            && (forall ok, count | Done(ok, count) in s.strand :: HeadWritten(s, ok, count))
  {
    RunKeepsInv(es);
    var s := Run(INITIAL, es);
    forall ok, count | Done(ok, count) in s.strand ensures HeadWritten(s, ok, count) {
      DoneIsOfHead(s, ok, count);
    }
  }

  /** The last write that ended is that of the head of the queue, with this outcome. */
  ghost predicate HeadWritten(s: State, ok: bool, count: nat) {
    s.queue != [] && s.written != [] && s.written[|s.written| - 1] == Finished(s.queue[0], ok, count)
  }

  lemma DoneIsOfHead(s: State, ok: bool, count: nat)
    requires Inv(s) && Done(ok, count) in s.strand
    ensures HeadWritten(s, ok, count)
  {
    ControlMember(s.strand, Done(ok, count));
  }

  lemma {:induction false} ControlMember(strand: seq<Handler>, h: Handler)
    requires h in strand && !h.Enqueue?
    ensures h in Controls(strand)
  {
    if h != strand[0] {
      ControlMember(strand[1..], h);
    }
  }

  /** Posted sends are settled in post order, each once: they are finished, discarded, queued or still
      waiting in the strand, in that order; and discards follow a failed write directly. */
  lemma {:induction false} SendsConserved(es: seq<Event>)
    requires PossibleRun(es)
    ensures var s := Run(INITIAL, es);
            && s.posted == DataOf(s.settled) + s.queue + Enqueues(s.strand)
            && |s.posted| == |s.settled| + |s.queue| + |Enqueues(s.strand)|
            && DiscardsHaveCause(s.settled)
  {
    RunKeepsInv(es);
  }

  ghost predicate NoFailure(s: State) {
    forall w | w in s.written :: !Failed(w)
  }

  lemma {:induction false} OnlyFinishedMember(os: seq<Outcome>, o: Outcome)
    requires o in os && o.Finished?
    ensures o in OnlyFinished(os)
  {
    if o != os[0] {
      OnlyFinishedMember(os[1..], o);
    }
  }

  lemma {:induction false} OnlyFinishedAll(os: seq<Outcome>)
    requires forall o | o in os :: o.Finished?
    ensures OnlyFinished(os) == os
  {
    if os != [] {
      OnlyFinishedAll(os[1..]);
    }
  }

  function Frames(ds: seq<SendData>): (r: seq<Frame>) {
    seq(|ds|, i requires 0 <= i < |ds| => FrameOf(ds[i]))
  }

  lemma NoFailureNoDiscard(s: State)
    requires Inv(s) && NoFailure(s)
    ensures OnlyFinished(s.settled) == s.settled
  {
    forall o | o in s.settled ensures o.Finished? {
      if o.Discarded? {
        var i :| 0 <= i < |s.settled| && s.settled[i] == o;
        var j :| CauseAt(s.settled, i, j);
        OnlyFinishedMember(s.settled, s.settled[j]);
        assert false;
      }
    }
    OnlyFinishedAll(s.settled);
  }

  /** Without a failed write, the finished writes are the oldest posted sends. */
  lemma WritesArePosts(s: State)
    requires Inv(s) && NoFailure(s)
    ensures |s.written| <= |s.posted| && DataOf(s.written) == s.posted[..|s.written|]
  {
    NoFailureNoDiscard(s);
    var n := |s.settled|;
    if s.written == s.settled {
      PostedPrefix(DataOf(s.settled), s.queue, Enqueues(s.strand));
    } else {
      var last := s.written[n];
      assert s.written == s.settled + [last];
      DataOfAppend(s.settled, [last]);
      assert DataOf([last]) == [s.queue[0]];
      PostedPrefix(DataOf(s.settled), s.queue, Enqueues(s.strand));
    }
  }

  lemma PostedPrefix(settled: seq<SendData>, queue: seq<SendData>, more: seq<SendData>)
    ensures var posted := settled + queue + more; var n := |settled|;
            && posted[..n] == settled
            && (queue != [] ==> posted[..n + 1] == settled + [queue[0]])
  {
  }

  lemma WellFormedBytes(d: SendData, count: nat)
    requires WellFormed(d)
    ensures BytesOf(d)[..Taken(d, true, count)] == Encode(FrameOf(d))
  {
  }

  lemma FramesPush(ws: seq<Outcome>)
    requires ws != []
    ensures Frames(DataOf(ws)) == Frames(DataOf(ws[..|ws| - 1])) + [FrameOf(ws[|ws| - 1].data)]
  {
  }

  ghost predicate Delivered(ws: seq<Outcome>) {
    forall i | 0 <= i < |ws| :: ws[i].Finished? && ws[i].ok && WellFormed(ws[i].data)
  }

  lemma {:induction false} WireOfFrames(ws: seq<Outcome>)
    requires Delivered(ws)
    ensures WireOf(ws) == EncodeAll(Frames(DataOf(ws)))
    decreases |ws|
  {
    if ws != [] {
      var n := |ws| - 1;
      WireOfFrames(ws[..n]);
      FramesPush(ws);
      EncodeAllPush(Frames(DataOf(ws[..n])), FrameOf(ws[n].data));
      WellFormedBytes(ws[n].data, ws[n].count);
    }
  }

  lemma FramesSendable(ds: seq<SendData>)
    requires forall d | d in ds :: WellFormed(d)
    ensures forall f | f in Frames(ds) :: Sendable(f)
  {
    forall i | 0 <= i < |ds| ensures Sendable(Frames(ds)[i]) {
      assert ds[i] in ds;
    }
  }

  // ---- What callers sent ----

  /** A frame that a caller asked for. */
  datatype Sent = Sent(opcode: Byte, message: seq<Byte>, callback: Callback)

  /** The flag is set: some call passed its test and went on. */
  ghost predicate FlagSet(es: seq<Event>)
    decreases |es|
  {
    es != [] &&
    var before, e := es[..|es| - 1], es[|es| - 1];
    FlagSet(before) || (e.CloseSet? && Passed(before, e.caller))
  }

  /** The caller found the flag clear and has not gone on. */
  ghost predicate Passed(es: seq<Event>, c: Caller)
    decreases |es|
  {
    es != [] &&
    var before, e := es[..|es| - 1], es[|es| - 1];
    if e.CloseTest? && e.caller == c && !FlagSet(before) then true
    else if e.CloseSet? && e.caller == c then false
    else Passed(before, c)
  }

  /** What the calls of a run ask to be sent: the frames of `send`, and for `sendClose` calls that found the flag clear
      a close frame with the status as a big-endian number and the reason. */
  ghost function Sends(es: seq<Event>): (r: seq<Sent>)
    decreases |es|
  {
    if es == [] then []
    else
      var before, e := es[..|es| - 1], es[|es| - 1];
      Sends(before) +
      match e
      case Send(opcode, message, callback) => [Sent(opcode, message, callback)]
      case CloseSet(c, status, reason, callback) =>
        if Passed(before, c) then [Sent(136, BigEndian(status, 2) + reason, callback)] else []
      case _ => []
  }

  function SentOf(d: SendData): (r: Sent) {
    Sent(FrameOf(d).opcode, d.message, d.callback)
  }

  function AllSentOf(ds: seq<SendData>): (r: seq<Sent>)
    ensures |r| == |ds|
  {
    seq(|ds|, i requires 0 <= i < |ds| => SentOf(ds[i]))
  }

  lemma {:induction false} BigEndianTwo(n: nat)
    ensures BigEndian(n, 2) == [n / 256 % 256, n % 256]
  {
    assert BigEndian(n / 256, 1) == BigEndian(n / 256 / 256, 0) + [n / 256 % 256];
    assert BigEndian(n / 256, 1) == [n / 256 % 256];
  }

  lemma StepPosts(s: State, e: Event)
    requires Possible(e)
    ensures AllSentOf(Step(s, e).posted)
            == AllSentOf(s.posted) +
               match e
               case Send(opcode, message, callback) => [Sent(opcode, message, callback)]
               case CloseSet(c, status, reason, callback) =>
                 if c in s.closing then [Sent(136, BigEndian(status, 2) + reason, callback)] else []
               case _ => []
  {
    match e
    case Send(opcode, message, callback) =>
      var d := MakeData(opcode, message, callback);
      assert SentOf(d) == Sent(opcode, message, callback);
    case CloseSet(_, status, reason, callback) =>
      BigEndianTwo(status);
      var d := MakeData(CLOSE_OPCODE, ClosePayload(status, reason), callback);
      assert SentOf(d) == Sent(136, BigEndian(status, 2) + reason, callback);
    case _ =>
  }

  lemma StepFlag(s: State, e: Event)
    requires Possible(e)
    ensures var t := Step(s, e);
            && (t.closed <==> s.closed || (e.CloseSet? && e.caller in s.closing))
            && t.closing == if e.CloseTest? && !s.closed then s.closing + {e.caller}
                            else if e.CloseSet? then s.closing - {e.caller}
                            else s.closing
  {
  }

  lemma {:induction false} FlagIs(es: seq<Event>)
    requires PossibleRun(es)
    ensures Run(INITIAL, es).closed == FlagSet(es)
    ensures forall c :: c in Run(INITIAL, es).closing <==> Passed(es, c)
    decreases |es|
  {
    if es != [] {
      var before, e := es[..|es| - 1], es[|es| - 1];
      FlagIs(before);
      StepFlag(Run(INITIAL, before), e);
    }
  }

  /** In every run the posted sends are, with first byte, message and callback, what callers asked for, in order. */
  lemma {:induction false} PostedAreSends(es: seq<Event>)
    requires PossibleRun(es)
    ensures AllSentOf(Run(INITIAL, es).posted) == Sends(es)
    decreases |es|
  {
    if es != [] {
      var before := es[..|es| - 1];
      PostedAreSends(before);
      FlagIs(before);
      StepPosts(Run(INITIAL, before), es[|es| - 1]);
    }
  }

  /** The first `n` frames that callers asked for. */
  ghost function SentFrames(es: seq<Event>, n: nat): (fs: seq<Frame>)
    requires n <= |Sends(es)|
  {
    seq(n, i requires 0 <= i < n => Frame(Sends(es)[i].opcode, Sends(es)[i].message))
  }

  lemma {:induction false} SentFramesArePosted(es: seq<Event>, n: nat)
    requires PossibleRun(es) && n <= |Run(INITIAL, es).posted|
    ensures n <= |Sends(es)| && SentFrames(es, n) == Frames(Run(INITIAL, es).posted[..n])
  {
    PostedAreSends(es);
    var posted := Run(INITIAL, es).posted;
    forall i | 0 <= i < n ensures SentFrames(es, n)[i] == Frames(posted[..n])[i] {
      assert AllSentOf(posted)[i] == SentOf(posted[i]) == Sends(es)[i];
    }
  }

  /** Which frames were written, with what result: one for each end of a write that was in flight. */
  ghost function Results(es: seq<Event>): (r: seq<bool>)
    requires PossibleRun(es)
    decreases |es|
  {
    if es == [] then []
    else
      var before, e := es[..|es| - 1], es[|es| - 1];
      Results(before) + if e.WriteEnds? && Run(INITIAL, before).inFlight.Writing? then [e.ok] else []
  }

  /** The log of writes has the results that the socket reported, and the completion handlers have run, in that order,
      for all of them but perhaps the last. */
  lemma {:induction false} CallbacksGetResults(es: seq<Event>)
    requires PossibleRun(es)
    ensures var s := Run(INITIAL, es); var done := OnlyFinished(s.settled);
            && |s.written| == |Results(es)|
            && (forall i | 0 <= i < |s.written| :: s.written[i].Finished? && s.written[i].ok == Results(es)[i])
            && (done == s.written || (s.written != [] && done == s.written[..|s.written| - 1]))
  {
    ResultsLogged(es);
    RunKeepsInv(es);
  }

  lemma StepWrites(s: State, e: Event)
    requires Possible(e)
    ensures var t := Step(s, e); var n := |s.written|;
            if e.WriteEnds? && s.inFlight.Writing?
            then && |t.written| == n + 1 && t.written[..n] == s.written
                 && t.written[n].Finished? && t.written[n].ok == e.ok
            else t.written == s.written
  {
  }

  lemma {:induction false} ResultsLogged(es: seq<Event>)
    requires PossibleRun(es)
    ensures var s := Run(INITIAL, es);
            && |s.written| == |Results(es)|
            && forall i | 0 <= i < |s.written| :: s.written[i].Finished? && s.written[i].ok == Results(es)[i]
    decreases |es|
  {
    if es != [] {
      ResultsLogged(es[..|es| - 1]);
      StepWrites(Run(INITIAL, es[..|es| - 1]), es[|es| - 1]);
    }
  }

  /** Without a failed write, what the socket was given is the encoding of the oldest frames that callers sent, one for
      each write that ended, in the order of their calls and unmixed, and a receiver that decodes it gets back exactly
      these frames. */
  lemma {:induction false} WireIsSentFrames(es: seq<Event>)
    requires PossibleRun(es) && false !in Results(es)
    ensures var wire, n := Run(INITIAL, es).wire, |Results(es)|;
            && n <= |Sends(es)|
            && wire == EncodeAll(SentFrames(es, n))
            && DecodeAll(wire).0 == SentFrames(es, n)
            && DecodeAll(wire).1 == []
  {
    ResultsLogged(es);
    var s := Run(INITIAL, es);
    forall w | w in s.written ensures !Failed(w) {
      var i :| 0 <= i < |s.written| && s.written[i] == w;
      assert Results(es)[i];
    }
    WireIsPostedFrames(es);
    SentFramesArePosted(es, |s.written|);
  }

  /** A failed write of the head takes all that is queued: the head's callback runs, the others are discarded. */
  lemma FailureTakesQueue(s: State)
    requires Inv(s) && s.strand != [] && s.strand[0].Done? && !s.strand[0].ok && !s.stopped
    ensures var t := Step(s, RunNext); var n := |s.settled|;
            && t.queue == [] && |t.settled| == n + |s.queue|
            && s.queue != [] && t.settled[n] == Finished(s.queue[0], false, s.strand[0].count)
            && forall i | 1 <= i < |s.queue| :: t.settled[n + i] == Discarded(s.queue[i])
  {
    assert Controls(s.strand) == [s.strand[0]] + Controls(s.strand[1..]);
  }

  /** Without a failed write, what the socket was given is the encoding of the oldest posted frames. */
  lemma {:induction false} WireIsPostedFrames(es: seq<Event>)
    requires PossibleRun(es) && NoFailure(Run(INITIAL, es))
    ensures var s := Run(INITIAL, es);
            && |s.written| <= |s.posted|
            && s.wire == EncodeAll(Frames(s.posted[..|s.written|]))
            && DecodeAll(s.wire).0 == Frames(s.posted[..|s.written|])
            && DecodeAll(s.wire).1 == []
  {
    RunKeepsInv(es);
    WrittenFinished(es);
    var s := Run(INITIAL, es);
    WritesArePosts(s);
    var ds := s.posted[..|s.written|];
    forall i | 0 <= i < |s.written| ensures s.written[i].Finished? && s.written[i].ok && WellFormed(s.written[i].data) {
      assert s.written[i] in s.written && ds[i] == s.posted[i] && s.posted[i] in s.posted;
    }
    WireOfFrames(s.written);
    FramesSendable(ds);
    DecodeAllEncodeAll(Frames(ds));
  }

  lemma {:induction false} WrittenFinished(es: seq<Event>)
    requires PossibleRun(es)
    ensures forall w | w in Run(INITIAL, es).written :: w.Finished?
    decreases |es|
  {
    if es != [] {
      WrittenFinished(es[..|es| - 1]);
    }
  }

  // ---- Nothing gets stuck ----

  /** Lets the strand and the socket work, with successful writes and no new sends. */
  function Pump(s: State): (r: State) {
    if s.strand != [] then Step(s, RunNext) else Step(s, WriteEnds(true, 0))
  }

  /** Handler runs and writes left to do. */
  function Work(s: State): (n: int) {
    4 * |Enqueues(s.strand)| + 3 * |s.queue|
    - (if s.inFlight.Writing? then 1 else if Controls(s.strand) != [] && Controls(s.strand)[0].Done? then 2 else 0)
  }

  /** Pending completions all report success. */
  ghost predicate AllOk(strand: seq<Handler>) {
    forall h | h in strand && h.Done? :: h.ok
  }

  lemma WriteWorks(s: State)
    requires OneWriter(s) && s.strand == [] && s.inFlight.Writing?
    ensures Work(Pump(s)) < Work(s) && AllOk(Pump(s).strand)
  {
    StrandPush(s.strand, Done(true, |BytesOf(s.inFlight.data)|));
  }

  lemma StartWorks(s: State)
    requires OneWriter(s) && s.strand != [] && s.strand[0].Start?
    ensures Work(Pump(s)) < Work(s) && (AllOk(s.strand) ==> AllOk(Pump(s).strand))
  {
    assert Controls(s.strand) == [Start] + Controls(s.strand[1..]);
  }

  lemma EnqueueWorks(s: State)
    requires OneWriter(s) && s.strand != [] && s.strand[0].Enqueue?
    ensures Work(Pump(s)) < Work(s) && (AllOk(s.strand) ==> AllOk(Pump(s).strand))
  {
    var t := EnqueueEffect(s);
  }

  lemma DoneWorks(s: State)
    requires OneWriter(s) && s.strand != [] && s.strand[0].Done? && !s.stopped
    ensures Work(Pump(s)) < Work(s) && (AllOk(s.strand) ==> AllOk(Pump(s).strand))
  {
    assert Controls(s.strand) == [s.strand[0]] + Controls(s.strand[1..]);
    var t := DoneEffect(s);
  }

  /** What was settled on the way, and that it succeeded if no failed completion was pending. */
  ghost predicate SettledMore(s: State, t: State) {
    && |s.settled| <= |t.settled| && t.settled[..|s.settled|] == s.settled
    && (AllOk(s.strand) ==>
          forall i | |s.settled| <= i < |t.settled| :: t.settled[i].Finished? && t.settled[i].ok)
  }

  lemma PumpSettles(s: State)
    requires Inv(s)
    ensures SettledMore(s, Pump(s))
  {
    if s.strand != [] && s.strand[0].Done? && !s.stopped {
      DonePumps(s);
    } else {
      assert Pump(s).settled == s.settled;
    }
  }

  lemma DonePumps(s: State)
    requires Inv(s) && s.strand != [] && s.strand[0].Done? && !s.stopped
    ensures SettledMore(s, Pump(s))
  {
    var h := s.strand[0];
    assert h in s.strand;
    assert Controls(s.strand) == [h] + Controls(s.strand[1..]);
    assert Pump(s).settled == s.settled + Settles(s.queue, h.ok, h.count);
  }

  lemma PumpWorks(s: State)
    requires Inv(s) && !s.stopped && (s.strand != [] || s.inFlight.Writing?)
    ensures var t := Pump(s);
            && Inv(t) && !t.stopped && t.posted == s.posted
            && (AllOk(s.strand) ==> AllOk(t.strand)) && Work(t) < Work(s)
  {
    if s.strand == [] {
      StepKeepsInv(s, WriteEnds(true, 0));
      WriteWorks(s);
    } else {
      StepKeepsInv(s, RunNext);
      match s.strand[0]
      case Enqueue(_) => EnqueueWorks(s);
      case Start => StartWorks(s);
      case Done(_, _) => DoneWorks(s);
    }
  }

  lemma WorkNonNegative(s: State)
    requires Inv(s)
    ensures Work(s) >= 0
  {
  }

  /** From any reachable state without a stop, if writes succeed from now on then finitely many handler runs and
      writes settle every posted send; and if no failed completion is pending, every one by finishing it. */
  lemma {:induction false} EverySendFinishes(s: State) returns (t: State, steps: nat)
    requires Inv(s) && !s.stopped
    ensures Inv(t) && t.posted == s.posted && DataOf(t.settled) == s.posted
    ensures SettledMore(s, t)
    ensures t == Pumped(s, steps)
    decreases Work(s)
  {
    WorkNonNegative(s);
    if s.strand == [] && s.inFlight.Nothing? {
      t, steps := s, 0;
    } else {
      PumpWorks(s);
      PumpSettles(s);
      t, steps := EverySendFinishes(Pump(s));
      SettledOn(s, Pump(s), t);
      steps := steps + 1;
    }
  }

  lemma SettledOn(s: State, m: State, t: State)
    requires SettledMore(s, m) && SettledMore(m, t) && (AllOk(s.strand) ==> AllOk(m.strand))
    ensures SettledMore(s, t)
  {
    forall i | 0 <= i < |m.settled| ensures t.settled[i] == m.settled[i] {
      assert t.settled[..|m.settled|][i] == t.settled[i];
    }
  }

  function Pumped(s: State, n: nat): (r: State)
    decreases n
  {
    if n == 0 then s else Pumped(Pump(s), n - 1)
  }

  // ---- Closing and stopping ----

  function CloseCount(ds: seq<SendData>): (n: nat) {
    if ds == [] then 0
    else CloseCount(ds[..|ds| - 1]) + if FrameOf(ds[|ds| - 1]).opcode == CLOSE_OPCODE then 1 else 0
  }

  lemma PostCounts(s: State, d: SendData)
    ensures CloseCount(Post(s, d).posted)
            == CloseCount(s.posted) + if FrameOf(d).opcode == CLOSE_OPCODE then 1 else 0
  {
    assert (s.posted + [d])[..|s.posted|] == s.posted;
  }

  lemma StepCounts(s: State, e: Event)
    requires Possible(e) && (e.Send? ==> e.opcode != CLOSE_OPCODE)
    ensures CloseCount(Step(s, e).posted)
            == CloseCount(s.posted) + if e.CloseSet? && e.caller in s.closing then 1 else 0
  {
    match e
    case Send(opcode, message, callback) => PostCounts(s, MakeData(opcode, message, callback));
    case CloseSet(_, status, reason, callback) =>
      PostCounts(s, MakeData(CLOSE_OPCODE, ClosePayload(status, reason), callback));
    case _ =>
  }

  /** A call tests the flag while another one is between its test and its store. */
  ghost predicate Overlaps(s: State, e: Event) {
    e.CloseTest? && exists c | c in s.closing :: c != e.caller
  }

  ghost predicate Overlapping(es: seq<Event>)
    requires PossibleRun(es)
    decreases |es|
  {
    es != [] && (Overlapping(es[..|es| - 1]) || Overlaps(Run(INITIAL, es[..|es| - 1]), es[|es| - 1]))
  }

  /** Calls one after the other: one may be under way as long as the flag is clear, and one close frame was posted
      just when it is set. */
  ghost predicate ClosedOnce(s: State) {
    && CloseCount(s.posted) == (if s.closed then 1 else 0)
    && (s.closed ==> s.closing == {})
    && forall c, d | c in s.closing && d in s.closing :: c == d
  }

  lemma StepClosesOnce(s: State, e: Event)
    requires ClosedOnce(s) && Possible(e) && (e.Send? ==> e.opcode != CLOSE_OPCODE) && !Overlaps(s, e)
    ensures ClosedOnce(Step(s, e))
  {
    StepCounts(s, e);
  }

  ghost predicate OnlyCloseCallsClose(es: seq<Event>) {
    forall e | e in es && e.Send? :: e.opcode != CLOSE_OPCODE
  }

  lemma {:induction false} SerialCloses(es: seq<Event>)
    requires PossibleRun(es) && OnlyCloseCallsClose(es) && !Overlapping(es)
    ensures ClosedOnce(Run(INITIAL, es))
    decreases |es|
  {
    if es != [] {
      SerialCloses(es[..|es| - 1]);
      StepClosesOnce(Run(INITIAL, es[..|es| - 1]), es[|es| - 1]);
    }
  }

  /** Close frames posted, and those that calls under way will post. */
  ghost function CloseTotal(s: State): (n: nat) {
    CloseCount(s.posted) + |s.closing|
  }

  lemma TotalStays(s: State, e: Event)
    requires Possible(e) && (e.Send? ==> e.opcode != CLOSE_OPCODE)
    ensures CloseTotal(Step(s, e)) >= CloseTotal(s)
  {
    StepCounts(s, e);
    var t := Step(s, e);
    if e.CloseTest? {
      Within(s.closing, t.closing);
    } else if e.CloseSet? && e.caller in s.closing {
      assert |t.closing| == |s.closing| - 1;
    }
  }

  lemma OverlapMakesTwo(s: State, e: Event)
    requires ClosedOnce(s) && Possible(e) && Overlaps(s, e)
    ensures CloseTotal(Step(s, e)) >= 2
  {
    var c :| c in s.closing && c != e.caller;
    var t := Step(s, e);
    assert {c, e.caller} <= t.closing;
    Within({c, e.caller}, t.closing);
  }

  lemma {:induction false} Within<T>(a: set<T>, b: set<T>)
    requires a <= b
    ensures |a| <= |b|
  {
    if a != {} {
      var x :| x in a;
      Within(a - {x}, b - {x});
    }
  }

  lemma {:induction false} OverlappingMakesTwo(es: seq<Event>)
    requires PossibleRun(es) && OnlyCloseCallsClose(es) && Overlapping(es)
    ensures CloseTotal(Run(INITIAL, es)) >= 2
    decreases |es|
  {
    var before, e := es[..|es| - 1], es[|es| - 1];
    if Overlapping(before) {
      OverlappingMakesTwo(before);
      TotalStays(Run(INITIAL, before), e);
    } else {
      SerialCloses(before);
      OverlapMakesTwo(Run(INITIAL, before), e);
    }
  }

  /** For every run after which no call of `sendClose` is under way, from any number of threads, and callers that send
      close frames in no other way: at most one close frame was posted if and only if no call tested the flag while
      another was between its test and its store; and then one was just when the connection is marked closed. */
  lemma {:induction false} OneCloseFrameIff(es: seq<Event>)
    requires PossibleRun(es) && OnlyCloseCallsClose(es) && Run(INITIAL, es).closing == {}
    ensures CloseCount(Run(INITIAL, es).posted) <= 1 <==> !Overlapping(es)
    ensures !Overlapping(es) ==> CloseCount(Run(INITIAL, es).posted) == if Run(INITIAL, es).closed then 1 else 0
  {
    if Overlapping(es) {
      OverlappingMakesTwo(es);
    } else {
      SerialCloses(es);
    }
  }

  /** The reader and the watchdog close a connection at the same time: two close frames are posted. */
  lemma {:induction false} TwoCloseFrames()
    ensures var c, d := CloseSet(1, 1000, [], NoCallback), CloseSet(2, 4000, [], NoCallback);
            CloseCount(Run(INITIAL, [CloseTest(1), CloseTest(2), c, d]).posted) == 2
  {
    var a, b := CloseTest(1), CloseTest(2);
    var c, d := CloseSet(1, 1000, [], NoCallback), CloseSet(2, 4000, [], NoCallback);
    var s1, s2 := Step(INITIAL, a), Step(Step(INITIAL, a), b);
    assert {} + {1} == {1} && {1} + {2} == {1, 2} && {1, 2} - {1} == {2};
    assert s1 == INITIAL.(closing := {1});
    assert s2 == s1.(closing := {1, 2});
    var s3 := Step(s2, c);
    StepCounts(s2, c);
    StepCounts(s3, d);
    RunFour(a, b, c, d);
  }

  lemma {:induction false} RunFour(a: Event, b: Event, c: Event, d: Event)
    requires PossibleRun([a, b, c, d])
    ensures Possible(a) && Possible(b) && Possible(c) && Possible(d)
    ensures Run(INITIAL, [a, b, c, d]) == Step(Step(Step(Step(INITIAL, a), b), c), d)
  {
    var es := [a, b, c, d];
    assert a in es && b in es && c in es && d in es;
    assert es[..3] == [a, b, c] && [a, b, c][..2] == [a, b] && [a, b][..1] == [a] && [a][..0] == [];
    assert Run(INITIAL, []) == INITIAL;
    assert Run(INITIAL, [a]) == Step(INITIAL, a);
    assert Run(INITIAL, [a, b]) == Step(Run(INITIAL, [a]), b);
    assert Run(INITIAL, [a, b, c]) == Step(Run(INITIAL, [a, b]), c);
  }

  lemma StepStopped(s: State, e: Event)
    requires s.stopped && Possible(e)
    ensures Step(s, e).stopped && Step(s, e).settled == s.settled
  {
  }

  /** The runner is stopped just when some event of the run stopped it. */
  lemma {:induction false} StoppedIff(es: seq<Event>)
    requires PossibleRun(es)
    ensures Run(INITIAL, es).stopped <==> Stop in es
    decreases |es|
  {
    if es != [] {
      var before, e := es[..|es| - 1], es[|es| - 1];
      StoppedIff(before);
      assert es == before + [e];
      StepStops(Run(INITIAL, before), e);
    }
  }

  lemma StepStops(s: State, e: Event)
    requires Possible(e)
    ensures Step(s, e).stopped <==> s.stopped || e.Stop?
  {
  }

  /** Once the runner is stopped no further callback runs and nothing more is discarded. */
  lemma {:induction false} StoppedSettlesNothing(s: State, es: seq<Event>)
    requires s.stopped && PossibleRun(es)
    ensures Run(s, es).stopped && Run(s, es).settled == s.settled
    decreases |es|
  {
    if es != [] {
      StoppedSettlesNothing(s, es[..|es| - 1]);
      StepStopped(Run(s, es[..|es| - 1]), es[|es| - 1]);
    }
  }
}
