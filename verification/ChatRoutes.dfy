/** Where one message goes: to every recipient occurrence its own copy. */
module ChatRoutes {
  import opened ChatRouting
  import opened Common
  import Lists

  /** Whether copies for the user go to the undelivered queue. */
  predicate Offline(cfg: Config, s: State, u: UserId) {
    u != BOT && Connected(s, u) == {} && cfg.enableUndeliveredQueue
  }

  /** The frames posted to a connection: one per recipient occurrence whose user holds it. */
  function FramesFor(s: State, c: ConnId, p: Payload): (frames: UserId -> seq<Frame>) {
    (v: UserId) => if v != BOT && c in Connected(s, v) then [Frame(v, p)] else []
  }

  /** A send to one user by itself knows no bot. */
  function CopyTo(cfg: Config, s: State, v: UserId, p: Payload, u: UserId): (copies: seq<Payload>) {
    if v == u && Connected(s, u) == {} && cfg.enableUndeliveredQueue then [SetRecipient(p, u)] else []
  }

  lemma SendToQueues(cfg: Config, s: State, v: UserId, p: Payload, u: UserId)
    ensures var t := SendTo(cfg, s, v, p);
            && t.connections == s.connections
            && Look(t.undelivered, u) == Look(s.undelivered, u) + CopyTo(cfg, s, v, p, u)
  {
  }

  lemma SendToPosts(cfg: Config, s: State, v: UserId, p: Payload, c: ConnId)
    ensures var t := SendTo(cfg, s, v, p);
            && t.connections == s.connections
            && Look(t.outbox, c) == Look(s.outbox, c) + if c in Connected(s, v) then [Frame(v, p)] else []
  {
    if Connected(s, v) == {} {
      OfflinePosts(cfg, s, v, p);
    } else {
      OnlinePosts(cfg, s, v, p);
      PostLook(s.outbox, Connected(s, v), [Frame(v, p)], c);
    }
  }

  lemma OfflinePosts(cfg: Config, s: State, v: UserId, p: Payload)
    requires Connected(s, v) == {}
    ensures var t := SendTo(cfg, s, v, p); t.connections == s.connections && t.outbox == s.outbox
  {
  }

  lemma OnlinePosts(cfg: Config, s: State, v: UserId, p: Payload)
    requires Connected(s, v) != {}
    ensures var t := SendTo(cfg, s, v, p);
            t.connections == s.connections && t.outbox == PostAll(s.outbox, Connected(s, v), [Frame(v, p)])
  {
  }

  lemma SendToRecords(cfg: Config, s: State, v: UserId, p: Payload, c: ConnId)
    ensures Look(SendTo(cfg, s, v, p).posted, c)
            == Look(s.posted, c) + if c in Connected(s, v) then [Frame(v, p)] else []
  {
    PostLook(s.posted, Connected(s, v), [Frame(v, p)], c);
  }

  lemma {:induction false} SendToAllPush(cfg: Config, s: State, us: seq<UserId>, v: UserId, p: Payload)
    ensures var before := SendToAll(cfg, s, us, p);
            SendToAll(cfg, s, us + [v], p) == if v == BOT then before else SendTo(cfg, before, v, p)
  {
    assert (us + [v])[..|us|] == us;
  }

  /** What one more recipient adds to a queue. */
  lemma {:induction false} PushQueues(cfg: Config, s: State, us: seq<UserId>, v: UserId, p: Payload, u: UserId)
    requires SendToAll(cfg, s, us, p).connections == s.connections
    ensures var before, t := SendToAll(cfg, s, us, p), SendToAll(cfg, s, us + [v], p);
            && t.connections == s.connections
            && Look(t.undelivered, u)
               == Look(before.undelivered, u) + if v == u && Offline(cfg, s, u) then [SetRecipient(p, u)] else []
  {
    SendToAllPush(cfg, s, us, v, p);
    if v != BOT {
      SendToQueues(cfg, SendToAll(cfg, s, us, p), v, p, u);
    }
  }

  /** What one more recipient adds to an outbox. */
  lemma {:induction false} PushPosts(cfg: Config, s: State, us: seq<UserId>, v: UserId, p: Payload, c: ConnId)
    requires SendToAll(cfg, s, us, p).connections == s.connections
    ensures var before, t := SendToAll(cfg, s, us, p), SendToAll(cfg, s, us + [v], p);
            && t.connections == s.connections
            && Look(t.outbox, c) == Look(before.outbox, c) + FramesFor(s, c, p)(v)
  {
    SendToAllPush(cfg, s, us, v, p);
    if v != BOT {
      SendToPosts(cfg, SendToAll(cfg, s, us, p), v, p, c);
    }
  }

  lemma {:induction false} SendToAllQueues(cfg: Config, s: State, us: seq<UserId>, p: Payload, u: UserId)
    ensures var t, copies := SendToAll(cfg, s, us, p), CopiesFor(u, SetRecipient(p, u));
            && t.connections == s.connections
            && Look(t.undelivered, u)
               == Look(s.undelivered, u) + if Offline(cfg, s, u) then Lists.Flat(us, copies) else []
  {
    if us != [] {
      var front, v, copies := us[..|us| - 1], us[|us| - 1], CopiesFor(u, SetRecipient(p, u));
      assert us == front + [v];
      SendToAllQueues(cfg, s, front, p, u);
      PushQueues(cfg, s, front, v, p, u);
      Lists.FlatPush(front, v, copies);
      Lists.Assoc(Look(s.undelivered, u), Lists.Flat(front, copies), copies(v));
    }
  }

  lemma {:induction false} SendToAllPosts(cfg: Config, s: State, us: seq<UserId>, p: Payload, c: ConnId)
    ensures var t := SendToAll(cfg, s, us, p);
            && t.connections == s.connections
            && Look(t.outbox, c) == Look(s.outbox, c) + Lists.Flat(us, FramesFor(s, c, p))
  {
    if us != [] {
      var front, v, frames := us[..|us| - 1], us[|us| - 1], FramesFor(s, c, p);
      assert us == front + [v];
      SendToAllPosts(cfg, s, front, p, c);
      PushPosts(cfg, s, front, v, p, c);
      Lists.FlatPush(front, v, frames);
      Lists.Assoc(Look(s.outbox, c), Lists.Flat(front, frames), frames(v));
    }
  }

  /** For every user and every connection: a send adds to the user's queue one copy per occurrence of the user among
      the recipients if the user has no connection, and nothing otherwise; and it posts to the connection, in the
      order of recipients, one frame per occurrence of its user. The bot gets neither. */
  lemma SendRoutes(cfg: Config, s: State, p: Payload, u: UserId, c: ConnId)
    ensures var t, copies := Send(cfg, s, p), CopiesFor(u, SetRecipient(p, u));
            && t.connections == s.connections
            && Look(t.undelivered, u)
               == Look(s.undelivered, u) + (if Offline(cfg, s, u) then Lists.Flat(p.recipients, copies) else [])
            && Look(t.outbox, c) == Look(s.outbox, c) + Lists.Flat(p.recipients, FramesFor(s, c, p))
  {
    var n := s.(notified := s.notified + [p]);
    if IsForBot(p) {
      BotGetsNothing(s, p, u, c);
    } else {
      SendToAllQueues(cfg, n, p.recipients, p, u);
      SendToAllPosts(cfg, n, p.recipients, p, c);
      Lists.SameFlat(p.recipients, FramesFor(n, c, p), FramesFor(s, c, p));
    }
  }

  lemma BotGetsNothing(s: State, p: Payload, u: UserId, c: ConnId)
    requires IsForBot(p)
    ensures u != BOT ==> Lists.Flat(p.recipients, CopiesFor(u, SetRecipient(p, u))) == []
    ensures Lists.Flat(p.recipients, FramesFor(s, c, p)) == []
  {
    assert p.recipients[..0] == [];
  }

  /** An incoming message goes back to its sender first, unless that is switched off or the message is for the bot. */
  predicate GoesBack(p: Payload, sendBack: bool) {
    sendBack && p.recipients != [BOT]
  }

  /** The state between the two sends. */
  lemma ReceiveTwice(cfg: Config, s: State, p: Payload, sendBack: bool) returns (b: State)
    ensures Receive(cfg, s, p, sendBack) == Send(cfg, b, p)
    ensures b == if GoesBack(p, sendBack) then SendTo(cfg, s, p.sender, p) else s
  {
    assert IsForBot(p) <==> p.recipients == [BOT];
    b := if GoesBack(p, sendBack) then SendTo(cfg, s, p.sender, p) else s;
  }

  /** A sender without a connection has one copy queued if the message goes back, before those for the recipients. */
  lemma IncomingQueues(cfg: Config, s: State, p: Payload, sendBack: bool, u: UserId)
    ensures var copies := CopiesFor(u, SetRecipient(p, u));
            Look(Receive(cfg, s, p, sendBack).undelivered, u)
            == Look(s.undelivered, u) + (if GoesBack(p, sendBack) then CopyTo(cfg, s, p.sender, p, u) else [])
               + (if Offline(cfg, s, u) then Lists.Flat(p.recipients, copies) else [])
  {
    var b := ReceiveTwice(cfg, s, p, sendBack);
    SendToQueues(cfg, s, p.sender, p, u);
    SendRoutes(cfg, b, p, u, 0);
  }

  /** One with connections gets one frame over each if the message goes back, before those for the recipients. */
  lemma IncomingPosts(cfg: Config, s: State, p: Payload, sendBack: bool, c: ConnId)
    ensures Look(Receive(cfg, s, p, sendBack).outbox, c)
            == Look(s.outbox, c)
               + (if GoesBack(p, sendBack) && c in Connected(s, p.sender) then [Frame(p.sender, p)] else [])
               + Lists.Flat(p.recipients, FramesFor(s, c, p))
  {
    var b := ReceiveTwice(cfg, s, p, sendBack);
    SendToPosts(cfg, s, p.sender, p, c);
    PostsOnTop(cfg, s, b, p, c);
  }

  lemma PostsOnTop(cfg: Config, s: State, b: State, p: Payload, c: ConnId)
    requires b.connections == s.connections
    ensures Look(Send(cfg, b, p).outbox, c) == Look(b.outbox, c) + Lists.Flat(p.recipients, FramesFor(s, c, p))
  {
    SendRoutes(cfg, b, p, 0, c);
    Lists.SameFlat(p.recipients, FramesFor(b, c, p), FramesFor(s, c, p));
  }
}
