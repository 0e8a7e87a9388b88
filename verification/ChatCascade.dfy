/** Delivery statuses do not breed: what a run without new messages and connections can still post. */
module ChatCascade {
  import opened ChatRouting
  import opened ChatRoutes
  import opened Common
  import Lists

  /** Only writes end and connections go. */
  ghost predicate Calm(e: Event) {
    e.WriteOk? || e.WriteError? || e.ControlError? || e.Disconnect?
  }

  function OneIf(b: bool): (n: nat) {
    if b then 1 else 0
  }

  /** Counts frames that are not status messages. */
  function Fresh(f: Frame): (n: nat) {
    OneIf(!f.payload.receipt)
  }

  /** Writing the frame makes the server post a status message to connection `d`. */
  predicate Triggers(s: State, d: ConnId, f: Frame) {
    !f.payload.receipt && f.payload.sender != BOT && d in Connected(s, f.payload.sender)
  }

  /** Counts such frames. */
  function Causes(s: State, d: ConnId): (weight: Frame -> nat) {
    (f: Frame) => OneIf(Triggers(s, d, f))
  }

  function CausesIn(s: State, d: ConnId): (sum: ConnId -> nat) {
    (c: ConnId) => Lists.Sum(Look(s.outbox, c), Causes(s, d))
  }

  /** Pending frames that will make the server post to connection `d`, on connections below `n`. */
  function Pressure(s: State, d: ConnId, n: nat): (r: nat) {
    Lists.SumTo(CausesIn(s, d), n)
  }

  /** Connections from `n` on have only status messages pending. */
  ghost predicate Covers(s: State, n: nat) {
    forall c: ConnId, i | n <= c && 0 <= i < |Look(s.outbox, c)| :: Look(s.outbox, c)[i].payload.receipt
  }

  /** There always is such an `n`. */
  lemma SomeCovers(s: State) returns (n: nat)
    ensures Covers(s, n)
  {
    n := Lists.UpperBound(s.outbox.Keys);
  }

  // ---- One step ----

  /** How many frames a step takes off a connection. */
  function TakenOff(s: State, e: Event, c: ConnId): (k: nat)
    requires Calm(e)
    ensures k <= |Look(s.outbox, c)|
  {
    if e.Disconnect? || e.conn != c then 0 else |OutsOf(s, e)|
  }

  /** What a step posts to a connection: at most one status message. */
  function News(cfg: Config, s: State, e: Event, d: ConnId): (fs: seq<Frame>)
    ensures forall f | f in fs :: f.payload.receipt
  {
    if e.WriteOk? && Look(s.outbox, e.conn) != [] && cfg.enableMessageDeliveryStatus
       && Triggers(s, d, Look(s.outbox, e.conn)[0])
    then
      var p := Look(s.outbox, e.conn)[0].payload;
      [Frame(p.sender, CreateSendStatus(p))]
    else []
  }

  /** What the status message of a payload adds to a connection's frames. */
  lemma StatusPosts(cfg: Config, s: State, p: Payload, d: ConnId)
    ensures var t := Send(cfg, s, CreateSendStatus(p));
            var news := if p.sender != BOT && d in Connected(s, p.sender)
                        then [Frame(p.sender, CreateSendStatus(p))] else [];
            && Look(t.outbox, d) == Look(s.outbox, d) + news && Look(t.posted, d) == Look(s.posted, d) + news
            && t.connections == s.connections
  {
    var status := CreateSendStatus(p);
    SendSingle(cfg, s, p.sender, status);
    if p.sender != BOT {
      var n := s.(notified := s.notified + [status]);
      SendToPosts(cfg, n, p.sender, status, d);
      SendToRecords(cfg, n, p.sender, status, d);
    }
  }

  lemma SentPosts(cfg: Config, s: State, p: Payload, u: UserId, bytes: nat, d: ConnId)
    ensures var t := OnMessageSent(cfg, s, p, u, bytes);
            var news := if cfg.enableMessageDeliveryStatus && Triggers(s, d, Frame(u, p))
                        then [Frame(p.sender, CreateSendStatus(p))] else [];
            && Look(t.outbox, d) == Look(s.outbox, d) + news && Look(t.posted, d) == Look(s.posted, d) + news
            && t.connections == s.connections
  {
    StatusPosts(cfg, Account(s, p, u, bytes, true), p, d);
  }

  /** From `s` to `t` frames go off the front of a connection's outbox and status messages come at its back. */
  ghost predicate Posts(cfg: Config, s: State, e: Event, d: ConnId, t: State)
    requires Calm(e)
  {
    && Look(t.outbox, d) == Look(s.outbox, d)[TakenOff(s, e, d)..] + News(cfg, s, e, d)
    && Look(t.posted, d) == Look(s.posted, d) + News(cfg, s, e, d)
  }

  lemma WrittenPosts(cfg: Config, s: State, c: ConnId, bytes: nat, d: ConnId)
    ensures var t := Written(cfg, s, c, bytes);
            Posts(cfg, s, WriteOk(c, bytes), d, t) && t.connections == s.connections
  {
    if Look(s.outbox, c) != [] {
      var f := s.outbox[c][0];
      var t := Settle(s, c, [Settled(f, Delivered)]).(deliveries := s.deliveries + [Entry(f.user, f.payload, bytes)]);
      assert Triggers(t, d, Frame(f.user, f.payload)) == Triggers(s, d, f);
      SentPosts(cfg, t, f.payload, f.user, bytes, d);
    }
  }

  /** A sender without a connection has the status message queued instead. */
  lemma WrittenQueues(cfg: Config, s: State, c: ConnId, bytes: nat, u: UserId)
    requires Look(s.outbox, c) != []
    ensures var p := Look(s.outbox, c)[0].payload;
            Look(Written(cfg, s, c, bytes).undelivered, u)
            == Look(s.undelivered, u)
               + if cfg.enableMessageDeliveryStatus && !p.receipt && p.sender == u && Offline(cfg, s, u)
                 then [CreateSendStatus(p)] else []
  {
    var f := s.outbox[c][0];
    var t := Settle(s, c, [Settled(f, Delivered)]).(deliveries := s.deliveries + [Entry(f.user, f.payload, bytes)]);
    var a, status := Account(t, f.payload, f.user, bytes, true), CreateSendStatus(f.payload);
    SendRoutes(cfg, a, status, u, 0);
    StatusCopies(u, f.payload);
  }

  lemma StatusCopies(u: UserId, p: Payload)
    ensures var status := CreateSendStatus(p);
            Lists.Flat(status.recipients, CopiesFor(u, SetRecipient(status, u)))
            == if p.sender == u then [status] else []
  {
    var status := CreateSendStatus(p);
    var copies := CopiesFor(u, SetRecipient(status, u));
    Lists.FlatPush([], p.sender, copies);
    assert [] + [p.sender] == [p.sender];
  }

  lemma FailedPosts(cfg: Config, s: State, c: ConnId, brokenPipe: bool, alsoQueued: nat, d: ConnId)
    ensures var t := Failed(cfg, s, c, brokenPipe, alsoQueued);
            && Posts(cfg, s, WriteError(c, brokenPipe, alsoQueued), d, t)
            && forall u: UserId :: Connected(t, u) <= Connected(s, u)
  {
  }

  lemma ClearedPosts(cfg: Config, s: State, c: ConnId, alsoQueued: nat, d: ConnId)
    ensures var t := Cleared(s, c, alsoQueued);
            Posts(cfg, s, ControlError(c, alsoQueued), d, t) && t.connections == s.connections
  {
  }

  lemma RemovedPosts(cfg: Config, s: State, u: UserId, c: ConnId, d: ConnId)
    ensures var t := RemoveConnection(s, u, c);
            && Posts(cfg, s, Disconnect(u, c), d, t)
            && forall v: UserId :: Connected(t, v) <= Connected(s, v)
  {
  }

  /** Every calm step does, and no connection is gained. */
  lemma StepPosts(cfg: Config, s: State, e: Event, d: ConnId)
    requires Addressed(s) && Calm(e)
    ensures var t := Step(cfg, s, e);
            Posts(cfg, s, e, d, t) && forall u: UserId :: Connected(t, u) <= Connected(s, u)
  {
    if e.WriteOk? {
      WrittenPosts(cfg, s, e.conn, e.bytes, d);
    } else if e.WriteError? {
      FailedPosts(cfg, s, e.conn, e.brokenPipe, e.alsoQueued, d);
    } else if e.ControlError? {
      ClearedPosts(cfg, s, e.conn, e.alsoQueued, d);
    } else {
      RemovedPosts(cfg, s, e.user, e.conn, d);
    }
  }

  // ---- Sums ----

  lemma {:induction false} StatusesWeighNothing(fs: seq<Frame>, weight: Frame -> nat)
    requires forall f | f in fs :: weight(f) == 0
    ensures Lists.Sum(fs, weight) == 0
  {
    if fs != [] {
      StatusesWeighNothing(fs[..|fs| - 1], weight);
    }
  }

  /** What an outbox weighs when frames went off its front and status messages came, with a weight that has not
      grown. */
  lemma {:induction false} OutboxDrops(
      box: seq<Frame>, k: nat, news: seq<Frame>, weight: Frame -> nat, less: Frame -> nat)
    requires k <= |box| && (forall f | f in news :: less(f) == 0) && forall f :: less(f) <= weight(f)
    ensures Lists.Sum(box[k..] + news, less) + Lists.Sum(box[..k], weight) <= Lists.Sum(box, weight)
  {
    Lists.SumConcat(box[k..], news, less);
    StatusesWeighNothing(news, less);
    Lists.SumWeights(box[k..], less, weight);
    Lists.SumFrom(box, k, weight);
  }

  lemma LessCauses(s: State, t: State, d: ConnId)
    requires forall u: UserId :: Connected(t, u) <= Connected(s, u)
    ensures forall f :: Causes(t, d)(f) <= Causes(s, d)(f) && (f.payload.receipt ==> Causes(t, d)(f) == 0)
  {
  }

  /** What a step posts to `d` is no more than what it takes off weighs. */
  lemma NewsWeigh(cfg: Config, s: State, e: Event, d: ConnId)
    requires Calm(e)
    ensures |News(cfg, s, e, d)|
            <= Lists.Sum(Look(s.outbox, e.conn)[..TakenOff(s, e, e.conn)], Causes(s, d))
  {
    if News(cfg, s, e, d) != [] {
      var box := Look(s.outbox, e.conn);
      assert TakenOff(s, e, e.conn) == 1 && box[..1] == [box[0]];
      Lists.SumOne(box[0], Causes(s, d));
    }
  }

  lemma CoversStays(cfg: Config, s: State, e: Event, t: State, n: nat)
    requires Calm(e) && Covers(s, n) && forall c: ConnId :: Posts(cfg, s, e, c, t)
    ensures Covers(t, n)
  {
    forall c: ConnId, i | n <= c && 0 <= i < |Look(t.outbox, c)| ensures Look(t.outbox, c)[i].payload.receipt {
      assert Posts(cfg, s, e, c, t);
      var kept, news := Look(s.outbox, c)[TakenOff(s, e, c)..], News(cfg, s, e, c);
      if i < |kept| {
        assert Look(t.outbox, c)[i] == Look(s.outbox, c)[TakenOff(s, e, c) + i];
      } else {
        assert Look(t.outbox, c)[i] == news[i - |kept|];
      }
    }
  }

  /** What is left on connection `c` of the frames that trigger posts to `d`. */
  lemma CausesDrop(s: State, t: State, d: ConnId, c: ConnId, k: nat, news: seq<Frame>)
    requires k <= |Look(s.outbox, c)| && Look(t.outbox, c) == Look(s.outbox, c)[k..] + news
    requires (forall f | f in news :: f.payload.receipt) && forall u: UserId :: Connected(t, u) <= Connected(s, u)
    ensures CausesIn(t, d)(c) + Lists.Sum(Look(s.outbox, c)[..k], Causes(s, d)) <= CausesIn(s, d)(c)
  {
    LessCauses(s, t, d);
    OutboxDrops(Look(s.outbox, c), k, news, Causes(s, d), Causes(t, d));
  }

  /** No connection has anything to post to from `n` on. */
  lemma NewsFromBelow(cfg: Config, s: State, e: Event, d: ConnId, n: nat)
    requires Calm(e) && Covers(s, n) && e.conn >= n
    ensures News(cfg, s, e, d) == []
  {
  }

  lemma PressureDrops(cfg: Config, s: State, e: Event, d: ConnId, t: State, n: nat)
    requires Calm(e) && forall c: ConnId :: Posts(cfg, s, e, c, t)
    requires forall u: UserId :: Connected(t, u) <= Connected(s, u)
    ensures Pressure(t, d, n) + (if e.conn < n then |News(cfg, s, e, d)| else 0) <= Pressure(s, d, n)
  {
    var drop := |News(cfg, s, e, d)|;
    NewsWeigh(cfg, s, e, d);
    forall c | 0 <= c < n
      ensures CausesIn(t, d)(c) + (if c == e.conn then drop else 0) <= CausesIn(s, d)(c)
    {
      assert Posts(cfg, s, e, c, t);
      CausesDrop(s, t, d, c, TakenOff(s, e, c), News(cfg, s, e, c));
    }
    Lists.SumToDrops(CausesIn(s, d), CausesIn(t, d), n, e.conn, drop);
  }

  /** Every frame posted to `d` uses up a pending frame that triggers it. */
  lemma StepRelieves(cfg: Config, s: State, e: Event, d: ConnId, t: State, n: nat)
    requires Calm(e) && Covers(s, n) && forall c: ConnId :: Posts(cfg, s, e, c, t)
    requires forall u: UserId :: Connected(t, u) <= Connected(s, u)
    ensures |Look(t.posted, d)| + Pressure(t, d, n) <= |Look(s.posted, d)| + Pressure(s, d, n)
  {
    assert Posts(cfg, s, e, d, t);
    PressureDrops(cfg, s, e, d, t, n);
    if e.conn >= n {
      NewsFromBelow(cfg, s, e, d, n);
    }
  }

  // ---- Runs ----

  lemma {:induction false} RunPush(cfg: Config, es: seq<Event>, e: Event)
    ensures Run(cfg, es + [e]) == Step(cfg, Run(cfg, es), e)
  {
    assert (es + [e])[..|es|] == es;
  }

  /** After any run, while only writes end and connections go: no connection gets anything but status messages, so
      that of its frames that are none, those pending and those written stay the same in number together; and
      every connection gets at most as many frames as there were pending frames, status messages apart, whose sender
      holds it. So the cascade ends. */
  lemma {:induction false} CascadeBounded(cfg: Config, before: seq<Event>, after: seq<Event>, d: ConnId, n: nat)
    requires Covers(Run(cfg, before), n) && forall e | e in after :: Calm(e)
    ensures var s, t := Run(cfg, before), Run(cfg, before + after);
            && Covers(t, n)
            && Lists.Sum(FramesOf(Look(t.settled, d)), Fresh) + Lists.Sum(Look(t.outbox, d), Fresh)
               == Lists.Sum(FramesOf(Look(s.settled, d)), Fresh) + Lists.Sum(Look(s.outbox, d), Fresh)
            && |Look(t.posted, d)| + Pressure(t, d, n) <= |Look(s.posted, d)| + Pressure(s, d, n)
            && |Look(t.settled, d)| <= |Look(s.posted, d)| + Pressure(s, d, n)
    decreases |after|
  {
    if after == [] {
      assert before + after == before;
      RunConservesFrames(cfg, before);
      FreshAreConserved(cfg, before, d);
    } else {
      var front, e := after[..|after| - 1], after[|after| - 1];
      assert before + after == (before + front) + [e];
      CascadeBounded(cfg, before, front, d, n);
      RunPush(cfg, before + front, e);
      var m, t := Run(cfg, before + front), Run(cfg, before + after);
      forall c: ConnId ensures Posts(cfg, m, e, c, t) && forall u: UserId :: Connected(t, u) <= Connected(m, u) {
        StepPosts(cfg, m, e, c);
      }
      assert Posts(cfg, m, e, d, t);
      CoversStays(cfg, m, e, t, n);
      StepRelieves(cfg, m, e, d, t, n);
      FreshStays(Look(m.posted, d), News(cfg, m, e, d));
      FreshAreConserved(cfg, before + front, d);
      FreshAreConserved(cfg, before + after, d);
    }
  }

  lemma {:induction false} FreshStays(posted: seq<Frame>, news: seq<Frame>)
    requires forall f | f in news :: f.payload.receipt
    ensures Lists.Sum(posted + news, Fresh) == Lists.Sum(posted, Fresh)
  {
    Lists.SumConcat(posted, news, Fresh);
    StatusesWeighNothing(news, Fresh);
  }

  /** Posted frames are settled or pending, so those that are no status messages are too. */
  lemma {:induction false} FreshAreConserved(cfg: Config, es: seq<Event>, d: ConnId)
    ensures var s := Run(cfg, es);
            && Lists.Sum(Look(s.posted, d), Fresh)
               == Lists.Sum(FramesOf(Look(s.settled, d)), Fresh) + Lists.Sum(Look(s.outbox, d), Fresh)
            && |Look(s.settled, d)| <= |Look(s.posted, d)|
  {
    RunConservesFrames(cfg, es);
    var s := Run(cfg, es);
    Lists.SumConcat(FramesOf(Look(s.settled, d)), Look(s.outbox, d), Fresh);
  }

  /** Whatever has happened so far, there is a number that bounds all the frames a connection will ever have been given,
      whichever way writes end and connections go from now on. */
  lemma {:induction false} CascadeEnds(cfg: Config, before: seq<Event>, d: ConnId) returns (bound: nat)
    ensures forall after | (forall e | e in after :: Calm(e)) ::
              |Look(Run(cfg, before + after).posted, d)| <= bound
  {
    var s := Run(cfg, before);
    var n := SomeCovers(s);
    bound := |Look(s.posted, d)| + Pressure(s, d, n);
    forall after | forall e | e in after :: Calm(e) ensures |Look(Run(cfg, before + after).posted, d)| <= bound {
      CascadeBounded(cfg, before, after, d, n);
    }
  }
}
