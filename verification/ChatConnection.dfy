/** How a connection's send queue, which chat frames share with pings, pongs and close frames, changes the outbox that
    routing keeps for it. */
module ChatConnection {
  import opened Common
  import opened SendQueue
  import ChatRouting
  import Lists

  /** What happens to an outbox. */
  datatype Change<T> =
    | Unchanged
    | Pushed(frame: T)
    | Written
    | Failed(alsoQueued: nat)
    | Cleared(alsoQueued: nat)

  /** The outbox after a change, as routing has it. */
  function After<T>(box: seq<T>, change: Change<T>): (r: seq<T>)
    requires change.Written? || change.Failed? ==> box != []
  {
    match change
    case Unchanged => box
    case Pushed(f) => box + [f]
    case Written => box[1..]
    case Failed(k) => box[1 + ChatRouting.AtMost(k, |box| - 1)..]
    case Cleared(k) => box[ChatRouting.AtMost(k, |box|)..]
  }

  /** That is what the failed write of a chat frame does to the outbox there. */
  lemma FailureAgrees(cfg: ChatRouting.Config, r: ChatRouting.State, c: ConnId, brokenPipe: bool, alsoQueued: nat)
    requires ChatRouting.Look(r.outbox, c) != []
    ensures ChatRouting.Look(ChatRouting.Failed(cfg, r, c, brokenPipe, alsoQueued).outbox, c)
            == After(ChatRouting.Look(r.outbox, c), Failed(alsoQueued))
  {
  }

  /** And that of another frame. */
  lemma ClearAgrees(r: ChatRouting.State, c: ConnId, alsoQueued: nat)
    ensures ChatRouting.Look(ChatRouting.Cleared(r, c, alsoQueued).outbox, c)
            == After(ChatRouting.Look(r.outbox, c), Cleared(alsoQueued))
  {
  }

  // ---- Chat frames among the others ----

  function Keep(chat: SendData -> bool): (keep: SendData -> seq<SendData>) {
    (d: SendData) => if chat(d) then [d] else []
  }

  function Chats(ds: seq<SendData>, chat: SendData -> bool): (r: seq<SendData>) {
    Lists.Flat(ds, Keep(chat))
  }

  /** Chat frames sent over the connection whose callback has not run. */
  function Box(s: State, chat: SendData -> bool): (box: seq<SendData>) {
    Chats(s.queue + Enqueues(s.strand), chat)
  }

  lemma ChatsConcat(a: seq<SendData>, b: seq<SendData>, chat: SendData -> bool)
    ensures Chats(a + b, chat) == Chats(a, chat) + Chats(b, chat)
  {
    Lists.FlatConcat(a, b, Keep(chat));
  }

  lemma ChatsOne(d: SendData, chat: SendData -> bool)
    ensures Chats([d], chat) == if chat(d) then [d] else []
  {
    Lists.FlatPush([], d, Keep(chat));
    assert [] + [d] == [d];
  }

  /** The head and the rest of the queue, and what waits in the strand. */
  lemma BoxParts(queue: seq<SendData>, more: seq<SendData>, chat: SendData -> bool)
    requires queue != []
    ensures Chats(queue + more, chat)
            == (if chat(queue[0]) then [queue[0]] else []) + (Chats(queue[1..], chat) + Chats(more, chat))
  {
    var head, rest := [queue[0]], queue[1..];
    assert queue == head + rest;
    Lists.Assoc(head, rest, more);
    ChatsConcat(head, rest + more, chat);
    ChatsConcat(rest, more, chat);
    ChatsOne(queue[0], chat);
  }

  // ---- Steps ----

  ghost predicate Completes(s: State, e: Event) {
    e.RunNext? && s.strand != [] && s.strand[0].Done? && !s.stopped
  }

  /** Which change of the outbox an event of the send queue is. */
  ghost function ChangeOf(s: State, e: Event, chat: SendData -> bool): (c: Change<SendData>)
    requires Possible(e) && (Completes(s, e) ==> s.queue != [])
  {
    if Completes(s, e) then
      var behind := |Chats(s.queue[1..], chat)|;
      if chat(s.queue[0]) then if s.strand[0].ok then Written else Failed(behind)
      else if s.strand[0].ok then Unchanged else Cleared(behind)
    else if |Step(s, e).posted| > |s.posted| && chat(Step(s, e).posted[|s.posted|]) then
      Pushed(Step(s, e).posted[|s.posted|])
    else Unchanged
  }

  lemma PostChanges(s: State, d: SendData, chat: SendData -> bool)
    ensures Box(Post(s, d), chat) == Box(s, chat) + if chat(d) then [d] else []
  {
    StrandPush(s.strand, Enqueue(d));
    Lists.Assoc(s.queue, Enqueues(s.strand), [d]);
    ChatsConcat(s.queue + Enqueues(s.strand), [d], chat);
    ChatsOne(d, chat);
  }

  /** Handlers that only move frames from the strand to the queue, or start a write, leave the waiting frames alone. */
  lemma MoveChanges(s: State)
    requires Inv(s) && s.strand != [] && !Completes(s, RunNext)
    ensures var t := Step(s, RunNext);
            t.queue + Enqueues(t.strand) == s.queue + Enqueues(s.strand) && t.posted == s.posted
  {
    if s.strand[0].Enqueue? {
      var t := EnqueueEffect(s);
      Lists.Assoc(s.queue, [s.strand[0].data], Enqueues(t.strand));
    }
  }

  /** Taking the head, or the head and the rest of the queue, off an outbox. */
  lemma AfterParts<T>(head: seq<T>, rest: seq<T>, more: seq<T>)
    ensures var box := head + (rest + more);
            && (|head| == 1 ==> After(box, Written) == rest + more && After(box, Failed(|rest|)) == more)
            && (|head| == 0 ==> box == rest + more && After(box, Cleared(|rest|)) == more)
  {
    var box := head + (rest + more);
    assert box[|head|..] == rest + more;
    assert box[|head| + |rest|..] == more;
  }

  lemma DoneEnqueues(s: State)
    requires Inv(s) && Completes(s, RunNext)
    ensures s.queue != []
    ensures var t := Step(s, RunNext);
            && Enqueues(t.strand) == Enqueues(s.strand)
            && t.queue == if s.strand[0].ok then s.queue[1..] else []
  {
    var h := s.strand[0];
    assert Controls(s.strand) == [h] by {
      assert Controls(s.strand) == [h] + Controls(s.strand[1..]);
    }
    var t := DoneEffect(s);
  }

  lemma DoneChanges(s: State, chat: SendData -> bool)
    requires Inv(s) && Completes(s, RunNext)
    ensures s.queue != []
    ensures var change := ChangeOf(s, RunNext, chat);
            && (change.Written? || change.Failed? ==> Box(s, chat) != [] && Box(s, chat)[0] == s.queue[0])
            && Box(Step(s, RunNext), chat) == After(Box(s, chat), change)
  {
    DoneEnqueues(s);
    var more := Enqueues(s.strand);
    BoxParts(s.queue, more, chat);
    AfterParts(if chat(s.queue[0]) then [s.queue[0]] else [], Chats(s.queue[1..], chat), Chats(more, chat));
    ChatsConcat(s.queue[1..], more, chat);
    assert [] + more == more;
  }

  lemma WriteEndsChanges(s: State, ok: bool, count: nat)
    ensures var t := Step(s, WriteEnds(ok, count));
            t.queue + Enqueues(t.strand) == s.queue + Enqueues(s.strand) && t.posted == s.posted
  {
    if s.inFlight.Writing? {
      StrandPush(s.strand, Done(ok, Taken(s.inFlight.data, ok, count)));
    }
  }

  /** In every reachable state every event of the send queue changes the outbox of chat frames as some event of routing
      does: a write of a chat frame that ends takes the head, a failed write of any frame also takes just the chat
      frames in the queue behind it, and all else only adds at the back. */
  lemma OutboxRefined(s: State, e: Event, chat: SendData -> bool)
    requires Inv(s) && Possible(e)
    ensures Completes(s, e) ==> s.queue != []
    ensures var change := ChangeOf(s, e, chat);
            && (change.Written? || change.Failed? ==> Box(s, chat) != [] && Box(s, chat)[0] == s.queue[0])
            && Box(Step(s, e), chat) == After(Box(s, chat), change)
  {
    match e
    case Send(opcode, message, callback) => PostChanges(s, MakeData(opcode, message, callback), chat);
    case CloseTest(_) =>
    case CloseSet(_, status, reason, callback) =>
      PostChanges(s, MakeData(CLOSE_OPCODE, ClosePayload(status, reason), callback), chat);
    case RunNext =>
      if Completes(s, e) {
        DoneChanges(s, chat);
      } else if s.strand != [] {
        MoveChanges(s);
      }
    case WriteEnds(ok, count) => WriteEndsChanges(s, ok, count);
    case Stop =>
  }

  // ---- Runs ----

  /** The changes that a run of the send queue makes to the outbox. */
  ghost function Changes(es: seq<Event>, chat: SendData -> bool): (cs: seq<Change<SendData>>)
    requires PossibleRun(es)
    decreases |es|
  {
    if es == [] then []
    else
      var before, e := es[..|es| - 1], es[|es| - 1];
      RunKeepsInv(before);
      OutboxRefined(Run(INITIAL, before), e, chat);
      Changes(before, chat) + [ChangeOf(Run(INITIAL, before), e, chat)]
  }

  /** One change after the other; one that takes a head does nothing to an empty outbox. */
  function Replay<T>(cs: seq<Change<T>>): (box: seq<T>) {
    if cs == [] then []
    else
      var box, change := Replay(cs[..|cs| - 1]), cs[|cs| - 1];
      if (change.Written? || change.Failed?) && box == [] then box else After(box, change)
  }

  /** Frames that a change drops without running their callbacks. */
  function Dropped(c: Change<SendData>): (n: nat) {
    if c.Failed? || c.Cleared? then c.alsoQueued else 0
  }

  function DiscardedOf(o: Outcome): (ds: seq<SendData>) {
    if o.Discarded? then [o.data] else []
  }

  /** Chat frames in the log that were discarded. */
  function LostChats(os: seq<Outcome>, chat: SendData -> bool): (ds: seq<SendData>) {
    Chats(Lists.Flat(os, DiscardedOf), chat)
  }

  lemma LostConcat(a: seq<Outcome>, b: seq<Outcome>, chat: SendData -> bool)
    ensures LostChats(a + b, chat) == LostChats(a, chat) + LostChats(b, chat)
  {
    Lists.FlatConcat(a, b, DiscardedOf);
    ChatsConcat(Lists.Flat(a, DiscardedOf), Lists.Flat(b, DiscardedOf), chat);
  }

  lemma AllDiscarded(q: seq<SendData>)
    ensures Lists.Flat(DiscardAll(q), DiscardedOf) == q
  {
    Lists.FlatOfSingles(DiscardAll(q), DiscardedOf, q);
  }

  /** A completion discards the chat frames behind the head, and only if the write failed. */
  lemma SettlesLose(q: seq<SendData>, ok: bool, count: nat, chat: SendData -> bool)
    requires q != []
    ensures LostChats(Settles(q, ok, count), chat) == if ok then [] else Chats(q[1..], chat)
  {
    var head := [Finished(q[0], ok, count)];
    HeadIsNotLost(q[0], ok, count);
    if ok {
      assert Settles(q, ok, count) == head;
    } else {
      var rest := q[1..];
      AllDiscarded(rest);
      Lists.FlatConcat(head, DiscardAll(rest), DiscardedOf);
      assert [] + rest == rest;
      assert Settles(q, ok, count) == head + DiscardAll(rest);
    }
  }

  lemma HeadIsNotLost(d: SendData, ok: bool, count: nat)
    ensures Lists.Flat([Finished(d, ok, count)], DiscardedOf) == []
  {
    Lists.FlatPush([], Finished(d, ok, count), DiscardedOf);
    assert [] + [Finished(d, ok, count)] == [Finished(d, ok, count)];
  }

  lemma StepSettles(s: State, e: Event)
    requires Possible(e) && (Completes(s, e) ==> s.queue != [])
    ensures Completes(s, e) ==>
              Step(s, e).settled == s.settled + Settles(s.queue, s.strand[0].ok, s.strand[0].count)
    ensures !Completes(s, e) ==> Step(s, e).settled == s.settled
  {
  }

  /** A step loses just as many chat frames as its change drops. */
  lemma StepLoses(s: State, e: Event, chat: SendData -> bool)
    requires Possible(e) && (Completes(s, e) ==> s.queue != [])
    ensures |LostChats(Step(s, e).settled, chat)|
            == |LostChats(s.settled, chat)| + Dropped(ChangeOf(s, e, chat))
  {
    StepSettles(s, e);
    if Completes(s, e) {
      var h := s.strand[0];
      SettlesLose(s.queue, h.ok, h.count, chat);
      LostConcat(s.settled, Settles(s.queue, h.ok, h.count), chat);
    }
  }

  /** Over every run of the send queue the pending chat frames are what its changes make of an empty outbox, one after
      the other, and the frames that failed writes drop in them are, in number, the chat frames that were discarded. */
  lemma {:induction false} RunRefinesOutbox(es: seq<Event>, chat: SendData -> bool)
    requires PossibleRun(es)
    ensures Box(Run(INITIAL, es), chat) == Replay(Changes(es, chat))
    ensures |LostChats(Run(INITIAL, es).settled, chat)| == Lists.Sum(Changes(es, chat), Dropped)
    decreases |es|
  {
    if es != [] {
      var before, e := es[..|es| - 1], es[|es| - 1];
      var s := Run(INITIAL, before);
      RunRefinesOutbox(before, chat);
      RunKeepsInv(before);
      OutboxRefined(s, e, chat);
      StepLoses(s, e, chat);
      ChangesPush(es, chat);
      Lists.SumPush(Changes(before, chat), ChangeOf(s, e, chat), Dropped);
      ReplayPush(Changes(before, chat), ChangeOf(s, e, chat));
    }
  }

  lemma {:induction false} ChangesPush(es: seq<Event>, chat: SendData -> bool)
    requires PossibleRun(es) && es != []
    ensures var before, e := es[..|es| - 1], es[|es| - 1];
            && Inv(Run(INITIAL, before)) && (Completes(Run(INITIAL, before), e) ==> Run(INITIAL, before).queue != [])
            && Changes(es, chat) == Changes(before, chat) + [ChangeOf(Run(INITIAL, before), e, chat)]
  {
    RunKeepsInv(es[..|es| - 1]);
    OutboxRefined(Run(INITIAL, es[..|es| - 1]), es[|es| - 1], chat);
  }

  lemma {:induction false} ReplayPush<T>(cs: seq<Change<T>>, change: Change<T>)
    requires change.Written? || change.Failed? ==> Replay(cs) != []
    ensures Replay(cs + [change]) == After(Replay(cs), change)
  {
    assert (cs + [change])[..|cs|] == cs;
  }
}
