/** Routing of chat messages: who gets a frame, who gets a queued copy, what the write callbacks do, and the
    redelivery of queued copies. Bodies that the server runs under its locks are atomic steps; connections
    complete the frames posted to them in order. */
module ChatRouting {
  import opened Common
  import Lists

  const BOT: UserId := 0

  /** A payload as a record. `receipt` says that its type is the delivery-status type. */
  datatype Payload = Payload(id: nat, sender: UserId, recipients: seq<UserId>, receipt: bool, text: string)

  predicate IsForBot(p: Payload) {
    |p.recipients| == 1 && p.recipients[0] == BOT
  }

  function SetRecipient(p: Payload, u: UserId): (r: Payload) {
    p.(recipients := [u])
  }

  /** The status message for the sender of a delivered payload; its id is all zeros. */
  function CreateSendStatus(p: Payload): (r: Payload)
    ensures r.receipt && r.recipients == [p.sender] && r.sender == BOT
  {
    Payload(0, BOT, [p.sender], true, "")
  }

  /** A payload but for its recipients, which every hop rewrites. */
  function Key(p: Payload): (k: Payload) {
    p.(recipients := [])
  }

  datatype Config = Config(
    enableUndeliveredQueue: bool,
    enableMessageDeliveryStatus: bool,
    jsonSize: Payload -> nat)

  datatype Stat = Stat(sent: nat, received: nat, bytes: nat)

  /** A frame on its way to a user over some connection. */
  datatype Frame = Frame(user: UserId, payload: Payload)

  datatype Outcome = Delivered | Requeued | Discarded
  datatype Settled = Settled(frame: Frame, outcome: Outcome)

  /** A payload on its way to a user, and the number of bytes it was accounted with. */
  datatype Entry = Entry(user: UserId, payload: Payload, bytes: nat)

  datatype State = State(
    undelivered: map<UserId, seq<Payload>>,
    connections: map<UserId, set<ConnId>>,
    // frames given to a connection whose callback has not run
    outbox: map<ConnId, seq<Frame>>,
    stats: map<UserId, Stat>,
    // calls of the message listeners
    notified: seq<Payload>,
    // history
    accepted: set<(UserId, Payload)>,
    posted: map<ConnId, seq<Frame>>,
    settled: map<ConnId, seq<Settled>>,
    deliveries: seq<Entry>,
    misses: seq<Entry>)

  const INITIAL := State(map[], map[], map[], map[], [], {}, map[], map[], [], [])

  function Look<K, V>(m: map<K, seq<V>>, k: K): (r: seq<V>) {
    if k in m then m[k] else []
  }

  function Connected(s: State, u: UserId): (r: set<ConnId>) {
    if u in s.connections then s.connections[u] else {}
  }

  /** One copy for every occurrence of this user. */
  function CopiesFor(u: UserId, p: Payload): (copies: UserId -> seq<Payload>) {
    (v: UserId) => if v == u then [p] else []
  }

  // ---- Operations ----

  function HandleUndeliverable(cfg: Config, s: State, u: UserId, p: Payload): (t: State) {
    if !cfg.enableUndeliveredQueue then s
    else s.(undelivered := s.undelivered[u := Look(s.undelivered, u) + [SetRecipient(p, u)]])
  }

  function StatOf(stats: map<UserId, Stat>, u: UserId): (r: Stat) {
    if u in stats then stats[u] else Stat(0, 0, 0)
  }

  function CountSent(stats: map<UserId, Stat>, u: UserId, bytes: nat): (r: map<UserId, Stat>) {
    var c := StatOf(stats, u);
    stats[u := c.(sent := c.sent + 1, bytes := c.bytes + bytes)]
  }

  function CountReceived(stats: map<UserId, Stat>, u: UserId, bytes: nat): (r: map<UserId, Stat>) {
    var c := StatOf(stats, u);
    stats[u := c.(received := c.received + 1, bytes := c.bytes + bytes)]
  }

  /** The accounting part of `onMessageSent` for a payload to one user. */
  function Account(s: State, p: Payload, u: UserId, bytes: nat, hasSent: bool): (t: State) {
    if p.receipt then s
    else
      var stats := CountSent(s.stats, p.sender, bytes);
      s.(stats := if hasSent then CountReceived(stats, u, bytes) else stats)
  }

  /** The same frames to every one of some connections. */
  function PostAll(box: map<ConnId, seq<Frame>>, cs: set<ConnId>, fs: seq<Frame>): (r: map<ConnId, seq<Frame>>) {
    if fs == [] then box
    else map c | c in box.Keys + cs :: if c in cs then Look(box, c) + fs else Look(box, c)
  }

  /** One user's share of a send: a queued copy if offline, one frame per connection otherwise. */
  function SendTo(cfg: Config, s: State, u: UserId, p: Payload): (t: State) {
    var a := s.(accepted := s.accepted + {(u, Key(p))});
    if Connected(s, u) == {} then
      var missed := HandleUndeliverable(cfg, a, u, p).(misses := s.misses + [Entry(u, p, cfg.jsonSize(p))]);
      Account(missed, p, u, cfg.jsonSize(p), false)
    else
      a.(outbox := PostAll(s.outbox, Connected(s, u), [Frame(u, p)]),
         posted := PostAll(s.posted, Connected(s, u), [Frame(u, p)]))
  }

  function SendToAll(cfg: Config, s: State, us: seq<UserId>, p: Payload): (t: State) {
    if us == [] then s
    else
      var before := SendToAll(cfg, s, us[..|us| - 1], p);
      if us[|us| - 1] == BOT then before else SendTo(cfg, before, us[|us| - 1], p)
  }

  function Send(cfg: Config, s: State, p: Payload): (t: State) {
    var n := s.(notified := s.notified + [p]);
    if IsForBot(p) then n else SendToAll(cfg, n, p.recipients, p)
  }

  function OnMessageSent(cfg: Config, s: State, p: Payload, u: UserId, bytes: nat): (t: State) {
    var a := Account(s, p, u, bytes, true);
    if p.receipt || !cfg.enableMessageDeliveryStatus then a else Send(cfg, a, CreateSendStatus(p))
  }

  // ---- Events ----

  datatype Event =
    | Incoming(payload: Payload, sendBack: bool)
    | Connect(user: UserId, conn: ConnId)
    // one turn of a redelivery loop, on a thread of its own
    | RedeliverTurn(user: UserId)
    | Disconnect(user: UserId, conn: ConnId)
    | WriteOk(conn: ConnId, bytes: nat)
    | WriteError(conn: ConnId, brokenPipe: bool, alsoQueued: nat)
    // a ping, pong or close frame ahead of the outbox could not be written
    | ControlError(conn: ConnId, alsoQueued: nat)

  function Receive(cfg: Config, s: State, p: Payload, sendBack: bool): (t: State) {
    var b := if sendBack && !IsForBot(p) then SendTo(cfg, s, p.sender, p) else s;
    Send(cfg, b, p)
  }

  function RemoveConnection(s: State, u: UserId, c: ConnId): (t: State) {
    if u in s.connections then s.(connections := s.connections[u := s.connections[u] - {c}]) else s
  }

  function Settle(s: State, c: ConnId, outs: seq<Settled>): (t: State)
    requires |outs| <= |Look(s.outbox, c)|
  {
    s.(outbox := s.outbox[c := Look(s.outbox, c)[|outs|..]], settled := s.settled[c := Look(s.settled, c) + outs])
  }

  /** The head frame of a connection was written. */
  function Written(cfg: Config, s: State, c: ConnId, bytes: nat): (t: State) {
    if Look(s.outbox, c) == [] then s
    else
      var f := s.outbox[c][0];
      var t := Settle(s, c, [Settled(f, Delivered)]).(deliveries := s.deliveries + [Entry(f.user, f.payload, bytes)]);
      OnMessageSent(cfg, t, f.payload, f.user, bytes)
  }

  function DiscardAll(fs: seq<Frame>): (r: seq<Settled>)
    ensures |r| == |fs|
  {
    seq(|fs|, i requires 0 <= i < |fs| => Settled(fs[i], Discarded))
  }

  function AtMost(n: nat, bound: nat): (r: nat) {
    if n < bound then n else bound
  }

  /** A failed write of the head of this outbox: the callback runs for the head, and `alsoQueued` frames already
      in the connection's queue behind it are dropped. */
  function FailedOuts(box: seq<Frame>, alsoQueued: nat): (outs: seq<Settled>)
    requires box != []
    ensures |outs| <= |box|
  {
    [Settled(box[0], Requeued)] + DiscardAll(box[1..1 + AtMost(alsoQueued, |box| - 1)])
  }

  /** The callback queues the payload again and, on a broken pipe, removes the connection. */
  function Failed(cfg: Config, s: State, c: ConnId, brokenPipe: bool, alsoQueued: nat): (t: State) {
    if Look(s.outbox, c) == [] then s
    else
      var f := s.outbox[c][0];
      var t := Settle(s, c, FailedOuts(s.outbox[c], alsoQueued));
      HandleUndeliverable(cfg, if brokenPipe then RemoveConnection(t, f.user, c) else t, f.user, f.payload)
  }

  /** A control frame failed: the chat frames already queued behind it are dropped, and no chat callback runs. */
  function Cleared(s: State, c: ConnId, alsoQueued: nat): (t: State) {
    var box := Look(s.outbox, c);
    Settle(s, c, DiscardAll(box[..AtMost(alsoQueued, |box|)]))
  }

  // ---- Every queued payload is addressed to its user ----

  ghost predicate Addressed(s: State) {
    forall u, i | u in s.undelivered && 0 <= i < |s.undelivered[u]| :: s.undelivered[u][i].recipients == [u]
  }

  lemma SendToAddressed(cfg: Config, s: State, u: UserId, p: Payload)
    requires Addressed(s)
    ensures Addressed(SendTo(cfg, s, u, p))
  {
  }

  lemma {:induction false} SendToAllAddressed(cfg: Config, s: State, us: seq<UserId>, p: Payload)
    requires Addressed(s)
    ensures Addressed(SendToAll(cfg, s, us, p))
  {
    if us != [] {
      var front := us[..|us| - 1];
      SendToAllAddressed(cfg, s, front, p);
      SendToAddressed(cfg, SendToAll(cfg, s, front, p), us[|us| - 1], p);
    }
  }

  lemma SendAddressed(cfg: Config, s: State, p: Payload)
    requires Addressed(s)
    ensures Addressed(Send(cfg, s, p))
  {
    SendToAllAddressed(cfg, s.(notified := s.notified + [p]), p.recipients, p);
  }

  // ---- Redelivery ----

  /** One turn of the redelivery loop. */
  function RedeliverOne(cfg: Config, s: State, u: UserId): (t: State)
    requires Look(s.undelivered, u) != []
  {
    var q := s.undelivered[u];
    Send(cfg, s.(undelivered := s.undelivered[u := q[1..]]), q[0])
  }

  /** A queued payload goes to its user alone. */
  lemma SendSingle(cfg: Config, s: State, u: UserId, p: Payload)
    requires p.recipients == [u]
    ensures Send(cfg, s, p) == if u == BOT then s.(notified := s.notified + [p])
                               else SendTo(cfg, s.(notified := s.notified + [p]), u, p)
  {
    var n := s.(notified := s.notified + [p]);
    assert [u][..0] == [];
    assert SendToAll(cfg, n, [], p) == n;
  }

  /** The redelivery loop does nothing, or nothing is queued for the user while it runs. */
  predicate RedeliveryEnds(cfg: Config, s: State, u: UserId) {
    !cfg.enableUndeliveredQueue || Look(s.undelivered, u) == [] || u == BOT || Connected(s, u) != {}
  }

  /** Copies queued for this user are re-sent as they come. Looking for a queue creates it. */
  function Redeliver(cfg: Config, s: State, u: UserId): (t: State)
    requires Addressed(s) && RedeliveryEnds(cfg, s, u)
    decreases |Look(s.undelivered, u)|
  {
    if !cfg.enableUndeliveredQueue then s
    else if Look(s.undelivered, u) == [] then s.(undelivered := s.undelivered[u := []])
    else
      OnlineTurn(cfg, s, u);
      Redeliver(cfg, RedeliverOne(cfg, s, u), u)
  }

  function FramesTo(u: UserId, ps: seq<Payload>): (fs: seq<Frame>) {
    seq(|ps|, i requires 0 <= i < |ps| => Frame(u, ps[i]))
  }

  function KeysTo(u: UserId, ps: seq<Payload>): (ks: set<(UserId, Payload)>) {
    set p | p in ps :: (u, Key(p))
  }

  /** Which frames a connection gets when these payloads are sent to this user. */
  function Share(s: State, u: UserId, q: seq<Payload>, c: ConnId): (fs: seq<Frame>) {
    if u != BOT && c in Connected(s, u) then FramesTo(u, q) else []
  }

  ghost predicate GotShare(
      s: State, box: map<ConnId, seq<Frame>>, box': map<ConnId, seq<Frame>>, u: UserId, q: seq<Payload>)
  {
    forall c: ConnId :: Look(box', c) == Look(box, c) + Share(s, u, q, c)
  }

  /** From `s` to `t` the payloads `q` at the front of the user's queue were sent to the user's connections, in
      order; nothing else changed but the listeners' log. */
  ghost predicate Redelivered(s: State, t: State, u: UserId, q: seq<Payload>) {
    && Look(s.undelivered, u) == q + Look(t.undelivered, u)
    && (forall v: UserId | v != u :: Look(t.undelivered, v) == Look(s.undelivered, v))
    && t.connections == s.connections && t.stats == s.stats && t.settled == s.settled
    && t.deliveries == s.deliveries && t.misses == s.misses
    && t.notified == s.notified + q
    && GotShare(s, s.outbox, t.outbox, u, q)
    && GotShare(s, s.posted, t.posted, u, q)
    && t.accepted == s.accepted + if u == BOT then {} else KeysTo(u, q)
  }

  lemma PostLook(box: map<ConnId, seq<Frame>>, cs: set<ConnId>, fs: seq<Frame>, c: ConnId)
    ensures Look(PostAll(box, cs, fs), c) == if c in cs then Look(box, c) + fs else Look(box, c)
  {
  }

  lemma TurnRedelivers(cfg: Config, s: State, u: UserId)
    requires Addressed(s) && (u == BOT || Connected(s, u) != {}) && Look(s.undelivered, u) != []
    ensures Redelivered(s, RedeliverOne(cfg, s, u), u, Look(s.undelivered, u)[..1])
  {
    var q := s.undelivered[u];
    var p := q[0];
    var one := q[..1];
    assert one == [p];
    assert p.recipients == [u];
    SendSingle(cfg, s.(undelivered := s.undelivered[u := q[1..]]), u, p);
    assert q == one + q[1..];
    if u != BOT {
      assert FramesTo(u, one) == [Frame(u, p)];
      forall c: ConnId
        ensures Look(PostAll(s.outbox, Connected(s, u), [Frame(u, p)]), c) == Look(s.outbox, c) + Share(s, u, one, c)
        ensures Look(PostAll(s.posted, Connected(s, u), [Frame(u, p)]), c) == Look(s.posted, c) + Share(s, u, one, c)
      {
        PostLook(s.outbox, Connected(s, u), [Frame(u, p)], c);
        PostLook(s.posted, Connected(s, u), [Frame(u, p)], c);
      }
      assert KeysTo(u, one) == {(u, Key(p))};
    }
  }

  lemma ShareAppend(s: State, u: UserId, a: seq<Payload>, b: seq<Payload>, c: ConnId)
    ensures Share(s, u, a + b, c) == Share(s, u, a, c) + Share(s, u, b, c)
  {
  }

  lemma KeysAppend(u: UserId, a: seq<Payload>, b: seq<Payload>)
    ensures KeysTo(u, a + b) == KeysTo(u, a) + KeysTo(u, b)
  {
    assert forall p :: p in a + b <==> p in a || p in b;
  }

  lemma ShareThenAt(s: State, x: seq<Frame>, y: seq<Frame>, z: seq<Frame>,
                    u: UserId, a: seq<Payload>, b: seq<Payload>, c: ConnId)
    requires y == x + Share(s, u, a, c) && z == y + Share(s, u, b, c)
    ensures z == x + Share(s, u, a + b, c)
  {
    ShareAppend(s, u, a, b, c);
    Lists.Assoc(x, Share(s, u, a, c), Share(s, u, b, c));
  }

  lemma ShareThen(s: State, x: map<ConnId, seq<Frame>>, y: map<ConnId, seq<Frame>>, z: map<ConnId, seq<Frame>>,
                  u: UserId, a: seq<Payload>, b: seq<Payload>)
    requires GotShare(s, x, y, u, a) && GotShare(s, y, z, u, b)
    ensures GotShare(s, x, z, u, a + b)
  {
    forall c: ConnId ensures Look(z, c) == Look(x, c) + Share(s, u, a + b, c) {
      ShareThenAt(s, Look(x, c), Look(y, c), Look(z, c), u, a, b, c);
    }
  }

  lemma SameShare(s: State, m: State, x: map<ConnId, seq<Frame>>, y: map<ConnId, seq<Frame>>,
                  u: UserId, q: seq<Payload>)
    requires m.connections == s.connections && GotShare(m, x, y, u, q)
    ensures GotShare(s, x, y, u, q)
  {
    forall c: ConnId ensures Look(y, c) == Look(x, c) + Share(s, u, q, c) {
      assert Share(m, u, q, c) == Share(s, u, q, c);
    }
  }

  lemma Then(s: State, m: State, t: State, u: UserId, a: seq<Payload>, b: seq<Payload>)
    requires Redelivered(s, m, u, a) && Redelivered(m, t, u, b)
    ensures Redelivered(s, t, u, a + b)
  {
    KeysAppend(u, a, b);
    SameShare(s, m, m.outbox, t.outbox, u, b);
    SameShare(s, m, m.posted, t.posted, u, b);
    ShareThen(s, s.outbox, m.outbox, t.outbox, u, a, b);
    ShareThen(s, s.posted, m.posted, t.posted, u, a, b);
    Lists.Assoc(s.notified, a, b);
    Lists.Assoc(a, b, Look(t.undelivered, u));
  }

  lemma NothingRedelivered(s: State, t: State, u: UserId)
    requires t == s.(undelivered := t.undelivered)
    requires forall v: UserId :: Look(t.undelivered, v) == Look(s.undelivered, v)
    ensures Redelivered(s, t, u, [])
  {
    assert FramesTo(u, []) == [];
    assert KeysTo(u, []) == {};
  }

  /** If the user is connected, redelivery sends the queued copies over every connection of the user in queue
      order and leaves the user's queue empty; no other queue, no statistics and no other connection change. */
  lemma {:induction false} RedeliverExact(cfg: Config, s: State, u: UserId)
    requires Addressed(s) && (u == BOT || Connected(s, u) != {}) && cfg.enableUndeliveredQueue
    ensures Redelivered(s, Redeliver(cfg, s, u), u, Look(s.undelivered, u))
    ensures Look(Redeliver(cfg, s, u).undelivered, u) == []
    decreases |Look(s.undelivered, u)|
  {
    var q := Look(s.undelivered, u);
    if q == [] {
      NothingRedelivered(s, Redeliver(cfg, s, u), u);
    } else {
      var m := RedeliverOne(cfg, s, u);
      OnlineTurn(cfg, s, u);
      TurnRedelivers(cfg, s, u);
      RedeliverExact(cfg, m, u);
      Then(s, m, Redeliver(cfg, m, u), u, q[..1], Look(m.undelivered, u));
    }
  }

  function RedeliverTurns(cfg: Config, s: State, u: UserId, turns: nat): (t: State)
    decreases turns
  {
    if turns == 0 || Look(s.undelivered, u) == [] then s else RedeliverTurns(cfg, RedeliverOne(cfg, s, u), u, turns - 1)
  }

  lemma OfflineTurn(cfg: Config, s: State, u: UserId)
    requires Addressed(s) && cfg.enableUndeliveredQueue && Look(s.undelivered, u) != []
    requires u != BOT && Connected(s, u) == {}
    ensures var t := RedeliverOne(cfg, s, u); var q := s.undelivered[u];
            Addressed(t) && Connected(t, u) == {} && Look(t.undelivered, u) == q[1..] + [q[0]]
  {
    var q := s.undelivered[u];
    assert q[0].recipients == [u];
    assert SetRecipient(q[0], u) == q[0];
    var popped := s.(undelivered := s.undelivered[u := q[1..]]);
    SendSingle(cfg, popped, u, q[0]);
    SendAddressed(cfg, popped, q[0]);
  }

  /** Without a connection the loop puts back what it takes: it is still at it after any number of turns. */
  lemma {:induction false} RedeliverNeverEnds(cfg: Config, s: State, u: UserId, turns: nat)
    requires Addressed(s) && cfg.enableUndeliveredQueue && Look(s.undelivered, u) != []
    requires u != BOT && Connected(s, u) == {}
    ensures |Look(RedeliverTurns(cfg, s, u, turns).undelivered, u)| == |Look(s.undelivered, u)|
    decreases turns
  {
    if turns > 0 {
      OfflineTurn(cfg, s, u);
      var t := RedeliverOne(cfg, s, u);
      assert RedeliverTurns(cfg, s, u, turns) == RedeliverTurns(cfg, t, u, turns - 1);
      RedeliverNeverEnds(cfg, t, u, turns - 1);
    }
  }

  lemma OnlineTurn(cfg: Config, s: State, u: UserId)
    requires Addressed(s) && Look(s.undelivered, u) != []
    requires u == BOT || Connected(s, u) != {}
    ensures var t := RedeliverOne(cfg, s, u);
            && Addressed(t) && Connected(t, u) == Connected(s, u)
            && |Look(t.undelivered, u)| == |Look(s.undelivered, u)| - 1
  {
    var q := s.undelivered[u];
    assert q[0].recipients == [u];
    var popped := s.(undelivered := s.undelivered[u := q[1..]]);
    SendSingle(cfg, popped, u, q[0]);
    SendAddressed(cfg, popped, q[0]);
  }

  lemma {:induction false} RedeliverEnds(cfg: Config, s: State, u: UserId)
    requires Addressed(s) && (u == BOT || Connected(s, u) != {})
    ensures Look(RedeliverTurns(cfg, s, u, |Look(s.undelivered, u)|).undelivered, u) == []
    decreases |Look(s.undelivered, u)|
  {
    if Look(s.undelivered, u) != [] {
      OnlineTurn(cfg, s, u);
      RedeliverEnds(cfg, RedeliverOne(cfg, s, u), u);
    }
  }

  /** The loop ends just when nothing is queued, the user is the bot, or the user has a connection. */
  lemma {:induction false} RedeliverEndsIff(cfg: Config, s: State, u: UserId)
    requires Addressed(s) && cfg.enableUndeliveredQueue
    ensures (exists turns: nat :: Look(RedeliverTurns(cfg, s, u, turns).undelivered, u) == [])
            <==> RedeliveryEnds(cfg, s, u)
  {
    if Look(s.undelivered, u) == [] {
      assert RedeliverTurns(cfg, s, u, 0) == s;
    } else if u == BOT || Connected(s, u) != {} {
      RedeliverEnds(cfg, s, u);
    } else {
      forall turns: nat ensures Look(RedeliverTurns(cfg, s, u, turns).undelivered, u) != [] {
        RedeliverNeverEnds(cfg, s, u, turns);
      }
    }
  }

  // ---- Runs ----

  function Register(s: State, u: UserId, c: ConnId): (t: State) {
    s.(connections := s.connections[u := Connected(s, u) + {c}])
  }

  function Turn(cfg: Config, s: State, u: UserId): (t: State) {
    if cfg.enableUndeliveredQueue && Look(s.undelivered, u) != [] then RedeliverOne(cfg, s, u) else s
  }

  function Step(cfg: Config, s: State, e: Event): (t: State)
    requires Addressed(s)
  {
    match e
    case Incoming(p, sendBack) => Receive(cfg, s, p, sendBack)
    case Connect(u, c) => Register(s, u, c)
    case RedeliverTurn(u) => Turn(cfg, s, u)
    case Disconnect(u, c) => RemoveConnection(s, u, c)
    case WriteOk(c, bytes) => Written(cfg, s, c, bytes)
    case WriteError(c, brokenPipe, alsoQueued) => Failed(cfg, s, c, brokenPipe, alsoQueued)
    case ControlError(c, alsoQueued) => Cleared(s, c, alsoQueued)
  }

  lemma TurnAddressed(cfg: Config, s: State, u: UserId)
    requires Addressed(s)
    ensures Addressed(Turn(cfg, s, u))
  {
    if Look(s.undelivered, u) != [] {
      var q := s.undelivered[u];
      SendAddressed(cfg, s.(undelivered := s.undelivered[u := q[1..]]), q[0]);
    }
  }

  lemma StepAddressed(cfg: Config, s: State, e: Event)
    requires Addressed(s)
    ensures Addressed(Step(cfg, s, e))
  {
    match e
    case Incoming(p, sendBack) =>
      var b := if sendBack && !IsForBot(p) then SendTo(cfg, s, p.sender, p) else s;
      SendToAddressed(cfg, s, p.sender, p);
      SendAddressed(cfg, b, p);
    case Connect(u, c) =>
    case RedeliverTurn(u) => TurnAddressed(cfg, s, u);
    case Disconnect(u, c) =>
    case WriteOk(c, bytes) =>
      if Look(s.outbox, c) != [] {
        var f := s.outbox[c][0];
        var t := Settle(s, c, [Settled(f, Delivered)]).(deliveries := s.deliveries + [Entry(f.user, f.payload, bytes)]);
        SendAddressed(cfg, Account(t, f.payload, f.user, bytes, true), CreateSendStatus(f.payload));
      }
    case WriteError(c, brokenPipe, alsoQueued) =>
    case ControlError(c, alsoQueued) =>
  }

  function Run(cfg: Config, es: seq<Event>): (t: State)
    ensures Addressed(t)
    decreases |es|
  {
    if es == [] then INITIAL
    else
      var m := Run(cfg, es[..|es| - 1]);
      StepAddressed(cfg, m, es[|es| - 1]);
      Step(cfg, m, es[|es| - 1])
  }

  // ---- The loop as a run ----

  function TurnsOf(u: UserId, n: nat): (es: seq<Event>) {
    seq(n, _ => RedeliverTurn(u))
  }

  /** A redelivery that nothing interrupts is a run of its turns. */
  lemma {:induction false} RedeliverIsTurns(cfg: Config, s: State, u: UserId)
    requires Addressed(s) && RedeliveryEnds(cfg, s, u)
    requires cfg.enableUndeliveredQueue && Look(s.undelivered, u) != []
    ensures Redeliver(cfg, s, u) == RedeliverTurns(cfg, s, u, |Look(s.undelivered, u)|)
    decreases |Look(s.undelivered, u)|
  {
    OnlineTurn(cfg, s, u);
    var t := RedeliverOne(cfg, s, u);
    if Look(t.undelivered, u) != [] {
      RedeliverIsTurns(cfg, t, u);
    } else {
      TurnKeepsQueue(cfg, s, u);
      assert t.undelivered[u := []] == t.undelivered;
    }
  }

  lemma TurnKeepsQueue(cfg: Config, s: State, u: UserId)
    requires Addressed(s) && Look(s.undelivered, u) != []
    ensures u in RedeliverOne(cfg, s, u).undelivered
  {
    var q := s.undelivered[u];
    assert q[0].recipients == [u];
    SendSingle(cfg, s.(undelivered := s.undelivered[u := q[1..]]), u, q[0]);
  }

  lemma {:induction false} RunTurns(cfg: Config, es: seq<Event>, u: UserId, n: nat)
    requires cfg.enableUndeliveredQueue
    ensures Run(cfg, es + TurnsOf(u, n)) == RedeliverTurns(cfg, Run(cfg, es), u, n)
    decreases n
  {
    if n == 0 {
      assert es + TurnsOf(u, n) == es;
    } else {
      var e := RedeliverTurn(u);
      assert es + TurnsOf(u, n) == (es + [e]) + TurnsOf(u, n - 1);
      assert (es + [e])[..|es|] == es;
      RunTurns(cfg, es + [e], u, n - 1);
      if Look(Run(cfg, es).undelivered, u) == [] {
        assert RedeliverTurns(cfg, Run(cfg, es), u, n - 1) == Run(cfg, es);
      }
    }
  }

  /** A user with a queued message connects and is gone again before the redelivery that this started: the loop is
      still at it after any number of turns. */
  lemma {:induction false} RedeliveryStuck(cfg: Config, p: Payload, n: nat)
    requires cfg.enableUndeliveredQueue && p.recipients == [1]
    ensures var es := [Incoming(p, false), Connect(1, 7), Disconnect(1, 7)];
            |Look(Run(cfg, es + TurnsOf(1, n)).undelivered, 1)| == 1
  {
    var a, b, c := Incoming(p, false), Connect(1, 7), Disconnect(1, 7);
    assert [a, b, c][..2] == [a, b] && [a, b][..1] == [a] && [a][..0] == [];
    assert Run(cfg, [a]) == Step(cfg, INITIAL, a);
    SendSingle(cfg, INITIAL, 1, p);
    assert Look(Run(cfg, [a]).undelivered, 1) == [SetRecipient(p, 1)];
    var s := Run(cfg, [a, b, c]);
    assert Run(cfg, [a, b]) == Step(cfg, Run(cfg, [a]), b);
    assert s == Step(cfg, Run(cfg, [a, b]), c);
    assert Connected(s, 1) == {};
    RedeliverNeverEnds(cfg, s, 1, n);
    RunTurns(cfg, [a, b, c], 1, n);
  }

  // ---- Frames are conserved ----

  function FramesOf(outs: seq<Settled>): (fs: seq<Frame>) {
    seq(|outs|, i requires 0 <= i < |outs| => outs[i].frame)
  }

  /** Each connection's posted frames are the settled ones followed by the pending ones. */
  ghost predicate FramesConserved(s: State) {
    forall c: ConnId :: Look(s.posted, c) == FramesOf(Look(s.settled, c)) + Look(s.outbox, c)
  }

  lemma PostConserves(s: State, cs: set<ConnId>, f: Frame)
    requires FramesConserved(s)
    ensures FramesConserved(s.(outbox := PostAll(s.outbox, cs, [f]), posted := PostAll(s.posted, cs, [f])))
  {
    forall c: ConnId
      ensures Look(PostAll(s.posted, cs, [f]), c)
              == FramesOf(Look(s.settled, c)) + Look(PostAll(s.outbox, cs, [f]), c)
    {
      PostLook(s.outbox, cs, [f], c);
      PostLook(s.posted, cs, [f], c);
      Lists.Assoc(FramesOf(Look(s.settled, c)), Look(s.outbox, c), [f]);
    }
  }

  /** What the frame and retention invariants look at. */
  ghost predicate SameFrames(s: State, t: State) {
    s.outbox == t.outbox && s.posted == t.posted && s.settled == t.settled
  }

  lemma SendToConserves(cfg: Config, s: State, u: UserId, p: Payload)
    requires FramesConserved(s)
    ensures FramesConserved(SendTo(cfg, s, u, p))
  {
    if Connected(s, u) == {} {
      assert SameFrames(s, SendTo(cfg, s, u, p));
    } else {
      PostConserves(s, Connected(s, u), Frame(u, p));
    }
  }

  lemma {:induction false} SendToAllConserves(cfg: Config, s: State, us: seq<UserId>, p: Payload)
    requires FramesConserved(s)
    ensures FramesConserved(SendToAll(cfg, s, us, p))
  {
    if us != [] {
      var front := us[..|us| - 1];
      SendToAllConserves(cfg, s, front, p);
      SendToConserves(cfg, SendToAll(cfg, s, front, p), us[|us| - 1], p);
    }
  }

  lemma SendConserves(cfg: Config, s: State, p: Payload)
    requires FramesConserved(s)
    ensures FramesConserved(Send(cfg, s, p))
  {
    SendToAllConserves(cfg, s.(notified := s.notified + [p]), p.recipients, p);
  }

  lemma TurnConserves(cfg: Config, s: State, u: UserId)
    requires FramesConserved(s)
    ensures FramesConserved(Turn(cfg, s, u))
  {
    if Look(s.undelivered, u) != [] {
      var q := s.undelivered[u];
      SendConserves(cfg, s.(undelivered := s.undelivered[u := q[1..]]), q[0]);
    }
  }

  lemma SettleConserves(s: State, c: ConnId, outs: seq<Settled>)
    requires FramesConserved(s) && |outs| <= |Look(s.outbox, c)| && FramesOf(outs) == Look(s.outbox, c)[..|outs|]
    ensures FramesConserved(Settle(s, c, outs))
  {
    var t := Settle(s, c, outs);
    var box, old' := Look(s.outbox, c), Look(s.settled, c);
    assert FramesOf(old' + outs) == FramesOf(old') + FramesOf(outs);
    assert box == box[..|outs|] + box[|outs|..];
    Lists.Assoc(FramesOf(old'), FramesOf(outs), box[|outs|..]);
    forall d: ConnId ensures Look(t.posted, d) == FramesOf(Look(t.settled, d)) + Look(t.outbox, d) {
      if d != c {
        assert Look(t.settled, d) == Look(s.settled, d) && Look(t.outbox, d) == Look(s.outbox, d);
      }
    }
  }

  lemma FailedOutsFacts(box: seq<Frame>, alsoQueued: nat)
    requires box != []
    ensures var outs := FailedOuts(box, alsoQueued);
            && FramesOf(outs) == box[..|outs|]
            && forall e | e in outs && e.outcome == Requeued :: e.frame == box[0]
  {
  }

  lemma WrittenConserves(cfg: Config, s: State, c: ConnId, bytes: nat)
    requires FramesConserved(s)
    ensures FramesConserved(Written(cfg, s, c, bytes))
  {
    if Look(s.outbox, c) != [] {
      var f := s.outbox[c][0];
      var outs := [Settled(f, Delivered)];
      assert FramesOf(outs) == s.outbox[c][..1];
      SettleConserves(s, c, outs);
      var t := Settle(s, c, outs).(deliveries := s.deliveries + [Entry(f.user, f.payload, bytes)]);
      var a := Account(t, f.payload, f.user, bytes, true);
      assert SameFrames(Settle(s, c, outs), a);
      SendConserves(cfg, a, CreateSendStatus(f.payload));
    }
  }

  lemma FailedConserves(cfg: Config, s: State, c: ConnId, brokenPipe: bool, alsoQueued: nat)
    requires FramesConserved(s)
    ensures FramesConserved(Failed(cfg, s, c, brokenPipe, alsoQueued))
  {
    if Look(s.outbox, c) != [] {
      var outs := FailedOuts(s.outbox[c], alsoQueued);
      FailedOutsFacts(s.outbox[c], alsoQueued);
      SettleConserves(s, c, outs);
      assert SameFrames(Settle(s, c, outs), Failed(cfg, s, c, brokenPipe, alsoQueued));
    }
  }

  lemma ClearedConserves(s: State, c: ConnId, alsoQueued: nat)
    requires FramesConserved(s)
    ensures FramesConserved(Cleared(s, c, alsoQueued))
  {
    var box := Look(s.outbox, c);
    var fs := box[..AtMost(alsoQueued, |box|)];
    assert FramesOf(DiscardAll(fs)) == fs;
    SettleConserves(s, c, DiscardAll(fs));
  }

  lemma StepConserves(cfg: Config, s: State, e: Event)
    requires Addressed(s) && FramesConserved(s)
    ensures FramesConserved(Step(cfg, s, e))
  {
    match e
    case Incoming(p, sendBack) =>
      SendToConserves(cfg, s, p.sender, p);
      SendConserves(cfg, if sendBack && !IsForBot(p) then SendTo(cfg, s, p.sender, p) else s, p);
    case Connect(u, c) => assert SameFrames(s, Register(s, u, c));
    case RedeliverTurn(u) => TurnConserves(cfg, s, u);
    case Disconnect(u, c) => assert SameFrames(s, RemoveConnection(s, u, c));
    case WriteOk(c, bytes) => WrittenConserves(cfg, s, c, bytes);
    case WriteError(c, brokenPipe, alsoQueued) => FailedConserves(cfg, s, c, brokenPipe, alsoQueued);
    case ControlError(c, alsoQueued) => ClearedConserves(s, c, alsoQueued);
  }

  /** In every run and for every connection, each posted frame is, in post order, delivered, queued again,
      discarded by a queue clear, or pending. */
  lemma {:induction false} RunConservesFrames(cfg: Config, es: seq<Event>)
    ensures FramesConserved(Run(cfg, es))
    decreases |es|
  {
    if es != [] {
      RunConservesFrames(cfg, es[..|es| - 1]);
      StepConserves(cfg, Run(cfg, es[..|es| - 1]), es[|es| - 1]);
    }
  }

  // ---- No accepted message vanishes ----

  ghost predicate Queued(s: State, u: UserId, k: Payload) {
    exists p | p in Look(s.undelivered, u) :: Key(p) == k
  }

  ghost predicate OnWay(box: seq<Frame>, u: UserId, k: Payload) {
    exists f | f in box :: f.user == u && Key(f.payload) == k
  }

  ghost predicate Over(log: seq<Settled>, u: UserId, k: Payload, outcome: Outcome) {
    exists e | e in log :: e.frame.user == u && Key(e.frame.payload) == k && e.outcome == outcome
  }

  ghost predicate PendingTo(s: State, u: UserId, k: Payload) {
    exists c: ConnId :: OnWay(Look(s.outbox, c), u, k)
  }

  ghost predicate EndedTo(s: State, u: UserId, k: Payload, outcome: Outcome) {
    exists c: ConnId :: Over(Look(s.settled, c), u, k, outcome)
  }

  /** A copy for the user is queued or on its way, or was delivered, or went with a queue clear. */
  ghost predicate Kept(s: State, u: UserId, k: Payload) {
    Queued(s, u, k) || PendingTo(s, u, k) || EndedTo(s, u, k, Delivered) || EndedTo(s, u, k, Discarded)
  }

  ghost predicate Retained(s: State) {
    forall x | x in s.accepted && x.0 != BOT :: Kept(s, x.0, x.1)
  }

  /** Queues, outboxes and logs only got longer. */
  ghost predicate Grows(s: State, t: State) {
    && (forall u: UserId :: Look(s.undelivered, u) <= Look(t.undelivered, u))
    && (forall c: ConnId :: Look(s.outbox, c) <= Look(t.outbox, c))
    && (forall c: ConnId :: Look(s.settled, c) <= Look(t.settled, c))
  }

  lemma GrowsKeeps(s: State, t: State, u: UserId, k: Payload)
    requires Grows(s, t) && Kept(s, u, k)
    ensures Kept(t, u, k)
  {
    if Queued(s, u, k) {
      var p :| p in Look(s.undelivered, u) && Key(p) == k;
      assert p in Look(t.undelivered, u);
    } else if PendingTo(s, u, k) {
      var c :| OnWay(Look(s.outbox, c), u, k);
      var f :| f in Look(s.outbox, c) && f.user == u && Key(f.payload) == k;
      assert f in Look(t.outbox, c);
      assert OnWay(Look(t.outbox, c), u, k);
    } else {
      var outcome := if EndedTo(s, u, k, Delivered) then Delivered else Discarded;
      var c :| Over(Look(s.settled, c), u, k, outcome);
      var e :| e in Look(s.settled, c) && e.frame.user == u && Key(e.frame.payload) == k && e.outcome == outcome;
      assert e in Look(t.settled, c);
      assert Over(Look(t.settled, c), u, k, outcome);
    }
  }

  lemma SendToGrows(cfg: Config, s: State, u: UserId, p: Payload)
    ensures Grows(s, SendTo(cfg, s, u, p))
  {
    forall c: ConnId ensures Look(s.outbox, c) <= Look(SendTo(cfg, s, u, p).outbox, c) {
      PostLook(s.outbox, Connected(s, u), [Frame(u, p)], c);
    }
  }

  lemma SendToTakesUp(cfg: Config, s: State, u: UserId, p: Payload)
    requires cfg.enableUndeliveredQueue
    ensures Kept(SendTo(cfg, s, u, p), u, Key(p))
  {
    var t := SendTo(cfg, s, u, p);
    if Connected(s, u) == {} {
      var q := SetRecipient(p, u);
      assert Key(q) == Key(p);
      assert q in Look(t.undelivered, u);
    } else {
      var c :| c in Connected(s, u);
      PostLook(s.outbox, Connected(s, u), [Frame(u, p)], c);
      assert Frame(u, p) in Look(t.outbox, c);
      assert OnWay(Look(t.outbox, c), u, Key(p));
    }
  }

  lemma SendToRetains(cfg: Config, s: State, u: UserId, p: Payload)
    requires Retained(s) && cfg.enableUndeliveredQueue
    ensures Retained(SendTo(cfg, s, u, p))
  {
    var t := SendTo(cfg, s, u, p);
    SendToGrows(cfg, s, u, p);
    SendToTakesUp(cfg, s, u, p);
    forall x | x in t.accepted && x.0 != BOT ensures Kept(t, x.0, x.1) {
      if x != (u, Key(p)) {
        GrowsKeeps(s, t, x.0, x.1);
      }
    }
  }

  lemma {:induction false} SendToAllRetains(cfg: Config, s: State, us: seq<UserId>, p: Payload)
    requires Retained(s) && cfg.enableUndeliveredQueue
    ensures Retained(SendToAll(cfg, s, us, p))
  {
    if us != [] {
      var front := us[..|us| - 1];
      SendToAllRetains(cfg, s, front, p);
      SendToRetains(cfg, SendToAll(cfg, s, front, p), us[|us| - 1], p);
    }
  }

  lemma SendRetains(cfg: Config, s: State, p: Payload)
    requires Retained(s) && cfg.enableUndeliveredQueue
    ensures Retained(Send(cfg, s, p))
  {
    var n := s.(notified := s.notified + [p]);
    RetainedLike(s, n);
    SendToAllRetains(cfg, n, p.recipients, p);
  }

  lemma RetainedLike(s: State, t: State)
    requires Retained(s) && Grows(s, t) && t.accepted == s.accepted
    ensures Retained(t)
  {
    forall x | x in t.accepted && x.0 != BOT ensures Kept(t, x.0, x.1) {
      GrowsKeeps(s, t, x.0, x.1);
    }
  }

  /** Sending a queued payload on keeps what was queued. */
  lemma TurnRetains(cfg: Config, s: State, u: UserId)
    requires Retained(s) && cfg.enableUndeliveredQueue && Addressed(s) && Look(s.undelivered, u) != []
    ensures Retained(RedeliverOne(cfg, s, u))
  {
    var q := s.undelivered[u];
    var t := RedeliverOne(cfg, s, u);
    var popped := s.(undelivered := s.undelivered[u := q[1..]], notified := s.notified + [q[0]]);
    assert q[0].recipients == [u];
    SendSingle(cfg, s.(undelivered := s.undelivered[u := q[1..]]), u, q[0]);
    if u == BOT {
      forall x | x in t.accepted && x.0 != BOT ensures Kept(t, x.0, x.1) {
        PopKeeps(s, popped, u, x.0, x.1);
      }
    } else {
      SendToGrows(cfg, popped, u, q[0]);
      SendToTakesUp(cfg, popped, u, q[0]);
      forall x | x in t.accepted && x.0 != BOT ensures Kept(t, x.0, x.1) {
        if x != (u, Key(q[0])) {
          PopKeeps(s, popped, u, x.0, x.1);
          GrowsKeeps(popped, t, x.0, x.1);
        }
      }
    }
  }

  lemma PopKeeps(s: State, popped: State, u: UserId, v: UserId, k: Payload)
    requires Look(s.undelivered, u) != []
    requires popped.undelivered == s.undelivered[u := Look(s.undelivered, u)[1..]]
    requires popped.outbox == s.outbox && popped.settled == s.settled
    requires Kept(s, v, k) && (v != u || Key(Look(s.undelivered, u)[0]) != k)
    ensures Kept(popped, v, k)
  {
    if Queued(s, v, k) {
      var p :| p in Look(s.undelivered, v) && Key(p) == k;
      assert p in Look(popped.undelivered, v);
    }
  }

  /** Settling moves frames from the outbox to the log. */
  lemma SettleKeeps(s: State, c: ConnId, outs: seq<Settled>, u: UserId, k: Payload)
    requires Kept(s, u, k) && |outs| <= |Look(s.outbox, c)| && FramesOf(outs) == Look(s.outbox, c)[..|outs|]
    ensures Kept(Settle(s, c, outs), u, k) || Over(outs, u, k, Requeued)
  {
    var t := Settle(s, c, outs);
    if Queued(s, u, k) {
      assert Queued(t, u, k);
    } else if PendingTo(s, u, k) {
      var d :| OnWay(Look(s.outbox, d), u, k);
      var f :| f in Look(s.outbox, d) && f.user == u && Key(f.payload) == k;
      if d != c {
        assert OnWay(Look(t.outbox, d), u, k);
      } else {
        var i :| 0 <= i < |Look(s.outbox, c)| && Look(s.outbox, c)[i] == f;
        if i < |outs| {
          assert outs[i].frame == FramesOf(outs)[i] == f;
          assert outs[i] in Look(t.settled, c);
          assert outs[i] in outs;
          assert Over(Look(t.settled, c), u, k, outs[i].outcome);
        } else {
          assert Look(t.outbox, c)[i - |outs|] == f;
          assert OnWay(Look(t.outbox, c), u, k);
        }
      }
    } else {
      EndedStays(s, t, c, outs, u, k);
    }
  }

  lemma EndedStays(s: State, t: State, c: ConnId, outs: seq<Settled>, u: UserId, k: Payload)
    requires |outs| <= |Look(s.outbox, c)| && t == Settle(s, c, outs)
    requires EndedTo(s, u, k, Delivered) || EndedTo(s, u, k, Discarded)
    ensures EndedTo(t, u, k, Delivered) || EndedTo(t, u, k, Discarded)
  {
    var outcome := if EndedTo(s, u, k, Delivered) then Delivered else Discarded;
    var d :| Over(Look(s.settled, d), u, k, outcome);
    var e :| e in Look(s.settled, d) && e.frame.user == u && Key(e.frame.payload) == k && e.outcome == outcome;
    assert e in Look(t.settled, d);
    assert Over(Look(t.settled, d), u, k, outcome);
  }

  lemma WrittenRetains(cfg: Config, s: State, c: ConnId, bytes: nat)
    requires Retained(s) && cfg.enableUndeliveredQueue
    ensures Retained(Written(cfg, s, c, bytes))
  {
    if Look(s.outbox, c) != [] {
      var f := s.outbox[c][0];
      var outs := [Settled(f, Delivered)];
      var m := Settle(s, c, outs);
      forall x | x in m.accepted && x.0 != BOT ensures Kept(m, x.0, x.1) {
        SettleKeeps(s, c, outs, x.0, x.1);
      }
      var t := m.(deliveries := s.deliveries + [Entry(f.user, f.payload, bytes)]);
      var a := Account(t, f.payload, f.user, bytes, true);
      RetainedLike(m, a);
      SendRetains(cfg, a, CreateSendStatus(f.payload));
    }
  }

  lemma FailedRequeues(cfg: Config, s: State, c: ConnId, brokenPipe: bool, alsoQueued: nat)
    requires Look(s.outbox, c) != [] && cfg.enableUndeliveredQueue
    ensures var t := Failed(cfg, s, c, brokenPipe, alsoQueued); var f := s.outbox[c][0];
            && Grows(Settle(s, c, FailedOuts(s.outbox[c], alsoQueued)), t)
            && t.accepted == s.accepted && Queued(t, f.user, Key(f.payload))
  {
    var t := Failed(cfg, s, c, brokenPipe, alsoQueued);
    var f := s.outbox[c][0];
    var again := SetRecipient(f.payload, f.user);
    assert again in Look(t.undelivered, f.user) && Key(again) == Key(f.payload);
  }

  lemma FailedRetains(cfg: Config, s: State, c: ConnId, brokenPipe: bool, alsoQueued: nat)
    requires Retained(s) && cfg.enableUndeliveredQueue
    ensures Retained(Failed(cfg, s, c, brokenPipe, alsoQueued))
  {
    if Look(s.outbox, c) != [] {
      var f := s.outbox[c][0];
      var outs := FailedOuts(s.outbox[c], alsoQueued);
      FailedOutsFacts(s.outbox[c], alsoQueued);
      FailedRequeues(cfg, s, c, brokenPipe, alsoQueued);
      var m := Settle(s, c, outs);
      var t := Failed(cfg, s, c, brokenPipe, alsoQueued);
      forall x | x in t.accepted && x.0 != BOT ensures Kept(t, x.0, x.1) {
        SettleKeeps(s, c, outs, x.0, x.1);
        if Kept(m, x.0, x.1) {
          GrowsKeeps(m, t, x.0, x.1);
        } else {
          assert x == (f.user, Key(f.payload));
        }
      }
    }
  }

  lemma ClearedRetains(s: State, c: ConnId, alsoQueued: nat)
    requires Retained(s)
    ensures Retained(Cleared(s, c, alsoQueued))
  {
    var box := Look(s.outbox, c);
    var fs := box[..AtMost(alsoQueued, |box|)];
    assert FramesOf(DiscardAll(fs)) == fs;
    forall x | x in s.accepted && x.0 != BOT ensures Kept(Cleared(s, c, alsoQueued), x.0, x.1) {
      SettleKeeps(s, c, DiscardAll(fs), x.0, x.1);
    }
  }

  lemma StepRetains(cfg: Config, s: State, e: Event)
    requires Addressed(s) && Retained(s) && cfg.enableUndeliveredQueue
    ensures Retained(Step(cfg, s, e))
  {
    match e
    case Incoming(p, sendBack) =>
      SendToRetains(cfg, s, p.sender, p);
      SendRetains(cfg, if sendBack && !IsForBot(p) then SendTo(cfg, s, p.sender, p) else s, p);
    case Connect(u, c) => RetainedLike(s, Register(s, u, c));
    case RedeliverTurn(u) =>
      if Look(s.undelivered, u) != [] {
        TurnRetains(cfg, s, u);
      }
    case Disconnect(u, c) => RetainedLike(s, RemoveConnection(s, u, c));
    case WriteOk(c, bytes) => WrittenRetains(cfg, s, c, bytes);
    case WriteError(c, brokenPipe, alsoQueued) => FailedRetains(cfg, s, c, brokenPipe, alsoQueued);
    case ControlError(c, alsoQueued) => ClearedRetains(s, c, alsoQueued);
  }

  /** With the undelivered queue on, in every run: a message that was sent to a user other than the bot is queued
      for the user, on its way to the user, was delivered to the user, or was among the frames that a connection
      dropped when a write before them failed. */
  lemma {:induction false} NothingVanishes(cfg: Config, es: seq<Event>)
    requires cfg.enableUndeliveredQueue
    ensures Retained(Run(cfg, es))
    decreases |es|
  {
    if es != [] {
      NothingVanishes(cfg, es[..|es| - 1]);
      StepRetains(cfg, Run(cfg, es[..|es| - 1]), es[|es| - 1]);
    }
  }

  // ---- Exactly when frames are discarded ----

  ghost predicate NoneDiscarded(log: map<ConnId, seq<Settled>>) {
    forall c: ConnId, e | e in Look(log, c) :: e.outcome != Discarded
  }

  /** A failed write that finds chat frames queued behind it. */
  predicate Drops(s: State, e: Event) {
    match e
    case WriteError(c, _, alsoQueued) => alsoQueued > 0 && |Look(s.outbox, c)| > 1
    case ControlError(c, alsoQueued) => alsoQueued > 0 && |Look(s.outbox, c)| > 0
    case _ => false
  }

  /** Some step of the run did. */
  ghost predicate Dropping(cfg: Config, es: seq<Event>)
    decreases |es|
  {
    es != [] && (Dropping(cfg, es[..|es| - 1]) || Drops(Run(cfg, es[..|es| - 1]), es[|es| - 1]))
  }

  lemma {:induction false} SendToAllSettles(cfg: Config, s: State, us: seq<UserId>, p: Payload)
    ensures SendToAll(cfg, s, us, p).settled == s.settled
  {
    if us != [] {
      SendToAllSettles(cfg, s, us[..|us| - 1], p);
      SendToSettles(cfg, SendToAll(cfg, s, us[..|us| - 1], p), us[|us| - 1], p);
    }
  }

  lemma SendToSettles(cfg: Config, s: State, u: UserId, p: Payload)
    ensures SendTo(cfg, s, u, p).settled == s.settled
  {
  }

  lemma SendSettles(cfg: Config, s: State, p: Payload)
    ensures Send(cfg, s, p).settled == s.settled
  {
    SendToAllSettles(cfg, s.(notified := s.notified + [p]), p.recipients, p);
  }

  /** What a step settles, and on which connection. */
  function OutsOf(s: State, e: Event): (outs: seq<Settled>) {
    match e
    case WriteOk(c, _) => if Look(s.outbox, c) == [] then [] else [Settled(Look(s.outbox, c)[0], Delivered)]
    case WriteError(c, _, alsoQueued) =>
      if Look(s.outbox, c) == [] then [] else FailedOuts(Look(s.outbox, c), alsoQueued)
    case ControlError(c, alsoQueued) =>
      var box := Look(s.outbox, c);
      DiscardAll(box[..AtMost(alsoQueued, |box|)])
    case _ => []
  }

  lemma WrittenSettles(cfg: Config, s: State, c: ConnId, bytes: nat)
    requires Look(s.outbox, c) != []
    ensures Written(cfg, s, c, bytes).settled
            == s.settled[c := Look(s.settled, c) + [Settled(s.outbox[c][0], Delivered)]]
  {
    var f := s.outbox[c][0];
    var t := Settle(s, c, [Settled(f, Delivered)]).(deliveries := s.deliveries + [Entry(f.user, f.payload, bytes)]);
    SendSettles(cfg, Account(t, f.payload, f.user, bytes, true), CreateSendStatus(f.payload));
  }

  lemma ReceiveSettles(cfg: Config, s: State, p: Payload, sendBack: bool)
    ensures Receive(cfg, s, p, sendBack).settled == s.settled
  {
    SendToSettles(cfg, s, p.sender, p);
    SendSettles(cfg, if sendBack && !IsForBot(p) then SendTo(cfg, s, p.sender, p) else s, p);
  }

  lemma TurnSettles(cfg: Config, s: State, u: UserId)
    ensures Turn(cfg, s, u).settled == s.settled
  {
    if Look(s.undelivered, u) != [] {
      var q := s.undelivered[u];
      SendSettles(cfg, s.(undelivered := s.undelivered[u := q[1..]]), q[0]);
    }
  }

  lemma StepSettles(cfg: Config, s: State, e: Event, c: ConnId)
    requires Addressed(s)
    ensures Look(Step(cfg, s, e).settled, c)
            == Look(s.settled, c)
               + if (e.WriteOk? || e.WriteError? || e.ControlError?) && e.conn == c then OutsOf(s, e) else []
  {
    match e
    case Incoming(p, sendBack) => ReceiveSettles(cfg, s, p, sendBack);
    case Connect(_, _) =>
    case RedeliverTurn(u) => TurnSettles(cfg, s, u);
    case Disconnect(_, _) =>
    case WriteOk(d, bytes) =>
      if Look(s.outbox, d) != [] {
        WrittenSettles(cfg, s, d, bytes);
      }
    case WriteError(_, _, _) =>
    case ControlError(_, _) =>
  }

  lemma OutsDiscard(s: State, e: Event)
    ensures Drops(s, e) <==> exists o | o in OutsOf(s, e) :: o.outcome == Discarded
  {
    var outs := OutsOf(s, e);
    if Drops(s, e) {
      var i := if e.WriteError? then 1 else 0;
      assert outs[i] in outs && outs[i].outcome == Discarded;
    }
  }

  lemma StepDiscards(cfg: Config, s: State, e: Event)
    requires Addressed(s)
    ensures NoneDiscarded(Step(cfg, s, e).settled) <==> NoneDiscarded(s.settled) && !Drops(s, e)
  {
    var t := Step(cfg, s, e);
    OutsDiscard(s, e);
    if NoneDiscarded(s.settled) && !Drops(s, e) {
      forall c: ConnId, o | o in Look(t.settled, c) ensures o.outcome != Discarded {
        StepSettles(cfg, s, e, c);
      }
    } else if !NoneDiscarded(s.settled) {
      var c: ConnId, o :| o in Look(s.settled, c) && o.outcome == Discarded;
      StepSettles(cfg, s, e, c);
      assert o in Look(t.settled, c);
    } else {
      var o :| o in OutsOf(s, e) && o.outcome == Discarded;
      StepSettles(cfg, s, e, e.conn);
      assert o in Look(t.settled, e.conn);
    }
  }

  /** In every run frames are discarded if and only if some failed write found chat frames queued behind it. */
  lemma {:induction false} DiscardedIff(cfg: Config, es: seq<Event>)
    ensures NoneDiscarded(Run(cfg, es).settled) <==> !Dropping(cfg, es)
    decreases |es|
  {
    if es != [] {
      DiscardedIff(cfg, es[..|es| - 1]);
      StepDiscards(cfg, Run(cfg, es[..|es| - 1]), es[|es| - 1]);
    }
  }

  /** So if no failed write found more frames in its connection's queue, nothing is lost at all. */
  lemma {:induction false} NothingLost(cfg: Config, es: seq<Event>, u: UserId, k: Payload)
    requires cfg.enableUndeliveredQueue && u != BOT && (u, k) in Run(cfg, es).accepted
    requires !Dropping(cfg, es)
    ensures var s := Run(cfg, es); Queued(s, u, k) || PendingTo(s, u, k) || EndedTo(s, u, k, Delivered)
  {
    NothingVanishes(cfg, es);
    DiscardedIff(cfg, es);
    var s := Run(cfg, es);
    assert Kept(s, u, k);
    forall c: ConnId ensures !Over(Look(s.settled, c), u, k, Discarded) {
    }
  }

  /** Nothing but some frames pending on connection 7. */
  ghost predicate OnlyPending(s: State, fs: seq<Frame>) {
    && Addressed(s) && Connected(s, 1) == {7} && Look(s.undelivered, 1) == []
    && (forall c: ConnId :: Look(s.settled, c) == [])
    && (forall c: ConnId :: Look(s.outbox, c) == if c == 7 then fs else [])
  }

  lemma PostOneMore(cfg: Config, s: State, fs: seq<Frame>, p: Payload)
    requires OnlyPending(s, fs) && p.recipients == [1]
    ensures var t := Step(cfg, s, Incoming(p, false));
            OnlyPending(t, fs + [Frame(1, p)]) && t.accepted == s.accepted + {(1, Key(p))}
  {
    SendSingle(cfg, s, 1, p);
    StepAddressed(cfg, s, Incoming(p, false));
    forall c: ConnId
      ensures Look(PostAll(s.outbox, {7}, [Frame(1, p)]), c) == if c == 7 then fs + [Frame(1, p)] else []
    {
      PostLook(s.outbox, {7}, [Frame(1, p)], c);
    }
  }

  lemma LoseSecond(cfg: Config, s: State, p: Payload, q: Payload)
    requires OnlyPending(s, [Frame(1, p), Frame(1, q)]) && Key(p) != Key(q)
    ensures var t := Step(cfg, s, WriteError(7, true, 1));
            && t.accepted == s.accepted
            && !Queued(t, 1, Key(q)) && !PendingTo(t, 1, Key(q)) && !EndedTo(t, 1, Key(q), Delivered)
  {
    var t := Step(cfg, s, WriteError(7, true, 1));
    assert s.outbox[7] == Look(s.outbox, 7);
    var outs := FailedOuts(s.outbox[7], 1);
    assert outs == [Settled(Frame(1, p), Requeued), Settled(Frame(1, q), Discarded)];
    assert forall x | x in Look(t.undelivered, 1) :: x == SetRecipient(p, 1);
    forall c: ConnId ensures !OnWay(Look(t.outbox, c), 1, Key(q)) && !Over(Look(t.settled, c), 1, Key(q), Delivered) {
      assert Look(s.outbox, c) == (if c == 7 then [Frame(1, p), Frame(1, q)] else []) && Look(s.settled, c) == [];
      assert t.outbox == s.outbox[7 := Look(s.outbox, 7)[2..]];
      assert t.settled == s.settled[7 := Look(s.settled, 7) + outs];
    }
  }

  /** And such a frame is lost: of two messages to one connection, the first is queued again when its write
      fails, the second is gone. */
  lemma {:induction false} SecondMessageLost(cfg: Config, p: Payload, q: Payload)
    requires p.recipients == [1] && q.recipients == [1] && Key(p) != Key(q)
    ensures var s := Run(cfg, [Connect(1, 7), Incoming(p, false), Incoming(q, false), WriteError(7, true, 1)]);
            && (1, Key(q)) in s.accepted
            && !Queued(s, 1, Key(q)) && !PendingTo(s, 1, Key(q)) && !EndedTo(s, 1, Key(q), Delivered)
  {
    var a, b, c, d := Connect(1, 7), Incoming(p, false), Incoming(q, false), WriteError(7, true, 1);
    assert [a, b, c, d][..3] == [a, b, c] && [a, b, c][..2] == [a, b] && [a, b][..1] == [a] && [a][..0] == [];
    assert Run(cfg, [a]) == Step(cfg, INITIAL, a);
    PostOneMore(cfg, Run(cfg, [a]), [], p);
    PostOneMore(cfg, Run(cfg, [a, b]), [Frame(1, p)], q);
    LoseSecond(cfg, Run(cfg, [a, b, c]), p, q);
  }

  // ---- The status cascade ----

  /** The callback of a delivered status message changes nothing; that of another message sends at most one
      status message, which is not accounted as a message. */
  lemma OneCallback(cfg: Config, s: State, p: Payload, u: UserId, bytes: nat)
    ensures p.receipt ==> OnMessageSent(cfg, s, p, u, bytes) == s
    ensures var t := OnMessageSent(cfg, s, p, u, bytes);
            && t.stats == Account(s, p, u, bytes, true).stats
            && (t.notified == s.notified || t.notified == s.notified + [CreateSendStatus(p)])
  {
    var a := Account(s, p, u, bytes, true);
    SendSingle(cfg, a, p.sender, CreateSendStatus(p));
  }
}
