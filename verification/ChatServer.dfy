/** The chat server object: the same operations on fields that are updated in place. */
module ChatServer {
  import opened ChatRouting
  import opened Common
  import Lists

  class Server {
    const config: Config
    var undeliveredMessages: map<UserId, seq<Payload>>
    var connections: map<UserId, set<ConnId>>
    var outbox: map<ConnId, seq<Frame>>
    var statistics: map<UserId, Stat>
    var notified: seq<Payload>
    ghost var accepted: set<(UserId, Payload)>
    ghost var posted: map<ConnId, seq<Frame>>
    ghost var settled: map<ConnId, seq<Settled>>
    ghost var deliveries: seq<Entry>
    ghost var misses: seq<Entry>

    ghost function Now(): (s: State)
      reads this
    {
      State(undeliveredMessages, connections, outbox, statistics, notified, accepted, posted, settled,
            deliveries, misses)
    }

    constructor (config: Config)
      ensures this.config == config && Now() == INITIAL
    {
      this.config := config;
      undeliveredMessages, connections, outbox, statistics, notified := map[], map[], map[], map[], [];
      accepted, posted, settled, deliveries, misses := {}, map[], map[], [], [];
    }

    method EnqueueUndeliveredMessage(p: Payload)
      modifies this`undeliveredMessages
      ensures undeliveredMessages == PushAll(old(undeliveredMessages), p.recipients, p)
    {
      for i := 0 to |p.recipients|
        invariant undeliveredMessages == PushAll(old(undeliveredMessages), p.recipients[..i], p)
      {
        var recipient := p.recipients[i];
        undeliveredMessages := undeliveredMessages[recipient := Look(undeliveredMessages, recipient) + [p]];
        assert p.recipients[..i + 1][..i] == p.recipients[..i];
      }
      assert p.recipients[..|p.recipients|] == p.recipients;
    }

    method NoteUndeliverable(u: UserId, p: Payload)
      modifies this`undeliveredMessages
      ensures Now() == HandleUndeliverable(config, old(Now()), u, p)
    {
      if !config.enableUndeliveredQueue {
        return;
      }
      var copy := p.(recipients := [u]);
      PushOne(undeliveredMessages, u, copy);
      EnqueueUndeliveredMessage(copy);
    }

    method MessageSent(p: Payload, u: UserId, bytes: nat, hasSent: bool)
      modifies this
      ensures Now() == if hasSent then OnMessageSent(config, old(Now()), p, u, bytes)
                       else Account(old(Now()), p, u, bytes, false)
      decreases if hasSent then 3 else 0, 0
    {
      if p.receipt {
        return;
      }
      var c := StatOf(statistics, p.sender);
      statistics := statistics[p.sender := c.(sent := c.sent + 1, bytes := c.bytes + bytes)];
      if hasSent {
        c := StatOf(statistics, u);
        statistics := statistics[u := c.(received := c.received + 1, bytes := c.bytes + bytes)];
        if config.enableMessageDeliveryStatus {
          SendMessage(CreateSendStatus(p));
        }
      }
    }

    method SendMessageTo(u: UserId, p: Payload)
      modifies this
      ensures Now() == SendTo(config, old(Now()), u, p)
      decreases 1, 0
    {
      accepted := accepted + {(u, Key(p))};
      if u !in connections || connections[u] == {} {
        NoteUndeliverable(u, p);
        misses := misses + [Entry(u, p, config.jsonSize(p))];
        MessageSent(p, u, config.jsonSize(p), false);
        return;
      }
      posted := PostAll(posted, connections[u], [Frame(u, p)]);
      outbox := PostToEach(outbox, connections[u], Frame(u, p));
    }

    method SendMessage(p: Payload)
      modifies this
      ensures Now() == Send(config, old(Now()), p)
      decreases 2, 0
    {
      notified := notified + [p];
      if IsForBot(p) {
        return;
      }
      ghost var start := Now();
      for i := 0 to |p.recipients|
        invariant Now() == SendToAll(config, start, p.recipients[..i], p)
      {
        assert p.recipients[..i + 1][..i] == p.recipients[..i];
        if p.recipients[i] != BOT {
          SendMessageTo(p.recipients[i], p);
        }
      }
      assert p.recipients[..|p.recipients|] == p.recipients;
    }

    /** Terminates because nothing is queued, or the user has a connection or is the bot. */
    method RedeliverMessagesTo(u: UserId) returns (count: nat)
      requires Addressed(Now()) && RedeliveryEnds(config, Now(), u)
      modifies this
      ensures Now() == Redeliver(config, old(Now()), u)
      ensures count == if config.enableUndeliveredQueue then |Look(old(undeliveredMessages), u)| else 0
      ensures config.enableUndeliveredQueue ==> Look(undeliveredMessages, u) == []
    {
      count := 0;
      if !config.enableUndeliveredQueue {
        return;
      }
      ghost var q := Look(undeliveredMessages, u);
      while Look(undeliveredMessages, u) != []
        invariant Addressed(Now()) && RedeliveryEnds(config, Now(), u)
        invariant Redeliver(config, old(Now()), u) == Redeliver(config, Now(), u)
        invariant count + |Look(undeliveredMessages, u)| == |q|
        decreases |Look(undeliveredMessages, u)|
      {
        ghost var before := Now();
        OnlineTurn(config, before, u);
        RedeliverNext(u);
        count := count + 1;
      }
      undeliveredMessages := undeliveredMessages[u := []];
    }

    /** A connection was authorised for a user; redelivery to the user follows. */
    method RegisterConnection(u: UserId, c: ConnId)
      requires Addressed(Now())
      modifies this`connections
      ensures Now() == Step(config, old(Now()), Connect(u, c))
    {
      var cs := if u in connections then connections[u] else {};
      connections := connections[u := cs + {c}];
    }

    method ConnectionGone(u: UserId, c: ConnId)
      requires Addressed(Now())
      modifies this`connections
      ensures Now() == Step(config, old(Now()), Disconnect(u, c))
    {
      if u in connections {
        connections := connections[u := connections[u] - {c}];
      }
    }

    /** One turn of the redelivery loop. */
    method RedeliverNext(u: UserId)
      requires Addressed(Now()) && config.enableUndeliveredQueue && Look(undeliveredMessages, u) != []
      modifies this
      ensures Now() == Turn(config, old(Now()), u) == RedeliverOne(config, old(Now()), u)
    {
      var payload := undeliveredMessages[u][0];
      undeliveredMessages := undeliveredMessages[u := undeliveredMessages[u][1..]];
      SendMessage(payload);
    }

    /** A parsed message from a client. */
    method MessageReceived(p: Payload, sendBack: bool)
      requires Addressed(Now())
      modifies this
      ensures Now() == Step(config, old(Now()), Incoming(p, sendBack))
    {
      if sendBack && !IsForBot(p) {
        SendMessageTo(p.sender, p);
      }
      SendMessage(p);
    }

    method FrameWritten(c: ConnId, bytes: nat)
      requires Look(outbox, c) != []
      modifies this
      ensures Now() == Written(config, old(Now()), c, bytes)
    {
      var box := outbox[c];
      var f := box[0];
      outbox := outbox[c := box[1..]];
      settled := settled[c := Look(settled, c) + [Settled(f, Delivered)]];
      deliveries := deliveries + [Entry(f.user, f.payload, bytes)];
      MessageSent(f.payload, f.user, bytes, true);
    }

    method FrameFailed(c: ConnId, brokenPipe: bool, alsoQueued: nat)
      requires Look(outbox, c) != []
      modifies this
      ensures Now() == Failed(config, old(Now()), c, brokenPipe, alsoQueued)
    {
      var box := outbox[c];
      var f := box[0];
      ghost var outs := FailedOuts(box, alsoQueued);
      outbox := outbox[c := box[1 + AtMost(alsoQueued, |box| - 1)..]];
      settled := settled[c := Look(settled, c) + outs];
      if brokenPipe && f.user in connections {
        connections := connections[f.user := connections[f.user] - {c}];
      }
      NoteUndeliverable(f.user, f.payload);
    }

    /** A ping, pong or close frame could not be written: the connection's queue is cleared. */
    method ControlFailed(c: ConnId, alsoQueued: nat)
      requires Addressed(Now())
      modifies this`outbox, this`settled
      ensures Now() == Step(config, old(Now()), ControlError(c, alsoQueued))
    {
      var box := Look(outbox, c);
      var k := AtMost(alsoQueued, |box|);
      settled := settled[c := Look(settled, c) + DiscardAll(box[..k])];
      outbox := outbox[c := box[k..]];
    }

    /** The write callback of the head frame of a connection. */
    method WriteCallback(c: ConnId, ok: bool, brokenPipe: bool, bytes: nat, alsoQueued: nat)
      requires Addressed(Now()) && Look(outbox, c) != []
      modifies this
      ensures Now() == Step(config, old(Now()), if ok then WriteOk(c, bytes) else WriteError(c, brokenPipe, alsoQueued))
    {
      if ok {
        FrameWritten(c, bytes);
      } else {
        FrameFailed(c, brokenPipe, alsoQueued);
      }
    }
  }

  /** One more copy at the end of every recipient's queue. */
  function PushAll(m: map<UserId, seq<Payload>>, us: seq<UserId>, p: Payload): (r: map<UserId, seq<Payload>>) {
    if us == [] then m
    else
      var before, u := PushAll(m, us[..|us| - 1], p), us[|us| - 1];
      before[u := Look(before, u) + [p]]
  }

  lemma {:induction false} PushOne(m: map<UserId, seq<Payload>>, u: UserId, p: Payload)
    ensures PushAll(m, [u], p) == m[u := Look(m, u) + [p]]
  {
    assert [u][..0] == [];
  }

  /** Every user's queue grows by one copy per occurrence among the recipients. */
  lemma {:induction false} PushAllExact(m: map<UserId, seq<Payload>>, us: seq<UserId>, p: Payload, u: UserId)
    ensures Look(PushAll(m, us, p), u) == Look(m, u) + Lists.Flat(us, CopiesFor(u, p))
  {
    if us != [] {
      PushAllExact(m, us[..|us| - 1], p, u);
    }
  }

  /** The outboxes while a frame is being handed to one connection after another. */
  function PostSoFar(before: map<ConnId, seq<Frame>>, done: set<ConnId>, f: Frame): (r: map<ConnId, seq<Frame>>) {
    if done == {} then before else PostAll(before, done, [f])
  }

  /** The storage hands out a user's connections in no particular order. */
  method PostToEach(box: map<ConnId, seq<Frame>>, cs: set<ConnId>, f: Frame) returns (r: map<ConnId, seq<Frame>>)
    ensures r == PostSoFar(box, cs, f)
  {
    r := box;
    var todo := cs;
    ghost var done := {};
    while todo != {}
      invariant done !! todo && done + todo == cs
      invariant r == PostSoFar(box, done, f)
      decreases |todo|
    {
      var c :| c in todo;
      PostToNext(box, r, done, c, f);
      r := r[c := Look(r, c) + [f]];
      todo := todo - {c};
      done := done + {c};
    }
    assert done == cs;
  }

  lemma PostToNext(before: map<ConnId, seq<Frame>>, box: map<ConnId, seq<Frame>>, done: set<ConnId>,
                   c: ConnId, f: Frame)
    requires c !in done
    requires box == PostSoFar(before, done, f)
    ensures box[c := Look(box, c) + [f]] == PostSoFar(before, done + {c}, f)
  {
    var after, want := box[c := Look(box, c) + [f]], PostAll(before, done + {c}, [f]);
    PostKeys(before, done + {c}, f);
    if done != {} {
      PostKeys(before, done, f);
    }
    assert after.Keys == want.Keys;
    forall d | d in want ensures Look(after, d) == Look(want, d) {
      PostLook(before, done, [f], d);
      PostLook(before, done + {c}, [f], d);
    }
    SameBoxes(after, want);
  }

  lemma PostKeys(box: map<ConnId, seq<Frame>>, cs: set<ConnId>, f: Frame)
    ensures PostAll(box, cs, [f]).Keys == box.Keys + cs
  {
  }

  lemma SameBoxes(m: map<ConnId, seq<Frame>>, n: map<ConnId, seq<Frame>>)
    requires m.Keys == n.Keys && forall c | c in n :: Look(m, c) == Look(n, c)
    ensures m == n
  {
    forall c | c in n ensures m[c] == n[c] {
      assert Look(m, c) == Look(n, c);
    }
  }
}
