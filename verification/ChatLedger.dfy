/** Who is charged for what: the counters of every single user, and what the logs they come from hold. */
module ChatLedger {
  import opened ChatRouting
  import opened ChatRoutes
  import opened Common
  import Lists

  // ---- Accounts ----

  /** Messages, status messages apart, that the user sent. */
  function SentBy(u: UserId): (count: Entry -> nat) {
    (e: Entry) => if !e.payload.receipt && e.payload.sender == u then 1 else 0
  }

  /** Messages, status messages apart, that went to the user. */
  function SentTo(u: UserId): (count: Entry -> nat) {
    (e: Entry) => if !e.payload.receipt && e.user == u then 1 else 0
  }

  function BytesBy(u: UserId): (bytes: Entry -> nat) {
    (e: Entry) => if !e.payload.receipt && e.payload.sender == u then e.bytes else 0
  }

  function BytesTo(u: UserId): (bytes: Entry -> nat) {
    (e: Entry) => if !e.payload.receipt && e.user == u then e.bytes else 0
  }

  /** What a user's counters should be: sent are the deliveries and the misses of the user's messages, received the
      deliveries to the user, and bytes those of all of these. */
  function Due(deliveries: seq<Entry>, misses: seq<Entry>, u: UserId): (r: Stat) {
    Stat(Lists.Sum(deliveries, SentBy(u)) + Lists.Sum(misses, SentBy(u)),
         Lists.Sum(deliveries, SentTo(u)),
         Lists.Sum(deliveries, BytesBy(u)) + Lists.Sum(misses, BytesBy(u)) + Lists.Sum(deliveries, BytesTo(u)))
  }

  ghost predicate Charged(s: State) {
    forall u: UserId :: StatOf(s.stats, u) == Due(s.deliveries, s.misses, u)
  }

  lemma MissCharges(deliveries: seq<Entry>, misses: seq<Entry>, e: Entry, u: UserId)
    ensures var a, b := Due(deliveries, misses, u), Due(deliveries, misses + [e], u);
            b == if !e.payload.receipt && e.payload.sender == u
                 then a.(sent := a.sent + 1, bytes := a.bytes + e.bytes) else a
  {
    Lists.SumPush(misses, e, SentBy(u));
    Lists.SumPush(misses, e, BytesBy(u));
  }

  lemma DeliveryCharges(deliveries: seq<Entry>, misses: seq<Entry>, e: Entry, u: UserId)
    ensures var a, b := Due(deliveries, misses, u), Due(deliveries + [e], misses, u);
            var mine, his := !e.payload.receipt && e.payload.sender == u, !e.payload.receipt && e.user == u;
            && b.sent == a.sent + (if mine then 1 else 0)
            && b.received == a.received + (if his then 1 else 0)
            && b.bytes == a.bytes + (if mine then e.bytes else 0) + (if his then e.bytes else 0)
  {
    Lists.SumPush(deliveries, e, SentBy(u));
    Lists.SumPush(deliveries, e, SentTo(u));
    Lists.SumPush(deliveries, e, BytesBy(u));
    Lists.SumPush(deliveries, e, BytesTo(u));
  }

  /** What a send to one user does to the books: a miss if the user is offline, nothing else. */
  lemma SendToBooks(cfg: Config, s: State, v: UserId, p: Payload)
    ensures var t := SendTo(cfg, s, v, p);
            && t.deliveries == s.deliveries
            && t.misses == s.misses + if Connected(s, v) == {} then [Entry(v, p, cfg.jsonSize(p))] else []
  {
    if Connected(s, v) == {} {
      OfflineBooks(cfg, s, v, p);
    } else {
      OnlineBooks(cfg, s, v, p);
    }
  }

  lemma OfflineBooks(cfg: Config, s: State, v: UserId, p: Payload)
    requires Connected(s, v) == {}
    ensures var t := SendTo(cfg, s, v, p);
            t.deliveries == s.deliveries && t.misses == s.misses + [Entry(v, p, cfg.jsonSize(p))]
            && t.stats == if p.receipt then s.stats else CountSent(s.stats, p.sender, cfg.jsonSize(p))
  {
  }

  lemma OnlineBooks(cfg: Config, s: State, v: UserId, p: Payload)
    requires Connected(s, v) != {}
    ensures var t := SendTo(cfg, s, v, p);
            t.deliveries == s.deliveries && t.misses == s.misses && t.stats == s.stats
  {
  }

  lemma SendToCounts(cfg: Config, s: State, v: UserId, p: Payload)
    ensures SendTo(cfg, s, v, p).stats
            == if Connected(s, v) == {} && !p.receipt then CountSent(s.stats, p.sender, cfg.jsonSize(p)) else s.stats
  {
    if Connected(s, v) == {} {
      OfflineBooks(cfg, s, v, p);
    } else {
      OnlineBooks(cfg, s, v, p);
    }
  }

  lemma SendToCharges(cfg: Config, s: State, v: UserId, p: Payload)
    requires Charged(s)
    ensures Charged(SendTo(cfg, s, v, p))
  {
    var t := SendTo(cfg, s, v, p);
    SendToBooks(cfg, s, v, p);
    SendToCounts(cfg, s, v, p);
    forall u: UserId ensures StatOf(t.stats, u) == Due(t.deliveries, t.misses, u) {
      assert StatOf(s.stats, u) == Due(s.deliveries, s.misses, u);
      MissCharges(s.deliveries, s.misses, Entry(v, p, cfg.jsonSize(p)), u);
    }
  }

  lemma {:induction false} SendToAllCharges(cfg: Config, s: State, us: seq<UserId>, p: Payload)
    requires Charged(s)
    ensures Charged(SendToAll(cfg, s, us, p))
  {
    if us != [] {
      var front := us[..|us| - 1];
      SendToAllCharges(cfg, s, front, p);
      SendToCharges(cfg, SendToAll(cfg, s, front, p), us[|us| - 1], p);
    }
  }

  lemma SendCharges(cfg: Config, s: State, p: Payload)
    requires Charged(s)
    ensures Charged(Send(cfg, s, p))
  {
    SendToAllCharges(cfg, s.(notified := s.notified + [p]), p.recipients, p);
  }

  lemma TurnCharges(cfg: Config, s: State, u: UserId)
    requires Charged(s)
    ensures Charged(Turn(cfg, s, u))
  {
    if Look(s.undelivered, u) != [] {
      var q := s.undelivered[u];
      SendCharges(cfg, s.(undelivered := s.undelivered[u := q[1..]]), q[0]);
    }
  }

  lemma ReceiveCharges(cfg: Config, s: State, p: Payload, sendBack: bool)
    requires Charged(s)
    ensures Charged(Receive(cfg, s, p, sendBack))
  {
    SendToCharges(cfg, s, p.sender, p);
    SendCharges(cfg, if sendBack && !IsForBot(p) then SendTo(cfg, s, p.sender, p) else s, p);
  }

  lemma CountedOnce(stats: map<UserId, Stat>, p: Payload, v: UserId, bytes: nat, u: UserId)
    ensures var a := StatOf(stats, u);
            var b := StatOf(CountReceived(CountSent(stats, p.sender, bytes), v, bytes), u);
            && b.sent == a.sent + (if p.sender == u then 1 else 0)
            && b.received == a.received + (if v == u then 1 else 0)
            && b.bytes == a.bytes + (if p.sender == u then bytes else 0) + (if v == u then bytes else 0)
  {
  }

  lemma DeliveredChargesUser(s: State, f: Frame, bytes: nat, u: UserId)
    requires StatOf(s.stats, u) == Due(s.deliveries, s.misses, u)
    ensures StatOf(Account(s, f.payload, f.user, bytes, true).stats, u)
            == Due(s.deliveries + [Entry(f.user, f.payload, bytes)], s.misses, u)
  {
    DeliveryCharges(s.deliveries, s.misses, Entry(f.user, f.payload, bytes), u);
    CountedOnce(s.stats, f.payload, f.user, bytes, u);
  }

  lemma DeliveredCharges(s: State, t: State, f: Frame, bytes: nat)
    requires Charged(s) && t.stats == s.stats && t.misses == s.misses
    requires t.deliveries == s.deliveries + [Entry(f.user, f.payload, bytes)]
    ensures Charged(Account(t, f.payload, f.user, bytes, true))
  {
    var a := Account(t, f.payload, f.user, bytes, true);
    assert a.stats == Account(s, f.payload, f.user, bytes, true).stats;
    assert a.deliveries == t.deliveries && a.misses == s.misses;
    forall u: UserId ensures StatOf(a.stats, u) == Due(a.deliveries, a.misses, u) {
      DeliveredChargesUser(s, f, bytes, u);
    }
  }

  lemma WrittenCharges(cfg: Config, s: State, c: ConnId, bytes: nat)
    requires Charged(s)
    ensures Charged(Written(cfg, s, c, bytes))
  {
    if Look(s.outbox, c) != [] {
      var f := s.outbox[c][0];
      var t := Settle(s, c, [Settled(f, Delivered)]).(deliveries := s.deliveries + [Entry(f.user, f.payload, bytes)]);
      DeliveredCharges(s, t, f, bytes);
      SendCharges(cfg, Account(t, f.payload, f.user, bytes, true), CreateSendStatus(f.payload));
    }
  }

  lemma SameBooks(s: State, t: State)
    requires Charged(s) && t.stats == s.stats && t.deliveries == s.deliveries && t.misses == s.misses
    ensures Charged(t)
  {
  }

  lemma StepCharges(cfg: Config, s: State, e: Event)
    requires Addressed(s) && Charged(s)
    ensures Charged(Step(cfg, s, e))
  {
    match e
    case Incoming(p, sendBack) => ReceiveCharges(cfg, s, p, sendBack);
    case Connect(u, c) => SameBooks(s, Register(s, u, c));
    case RedeliverTurn(u) => TurnCharges(cfg, s, u);
    case Disconnect(u, c) => SameBooks(s, RemoveConnection(s, u, c));
    case WriteOk(c, bytes) => WrittenCharges(cfg, s, c, bytes);
    case WriteError(c, brokenPipe, alsoQueued) => SameBooks(s, Failed(cfg, s, c, brokenPipe, alsoQueued));
    case ControlError(c, alsoQueued) => SameBooks(s, Cleared(s, c, alsoQueued));
  }

  /** In every run and for every user: the sent messages are the deliveries and misses of messages that the user sent,
      the received ones the deliveries to the user, and the bytes those of both; status messages do not count. */
  lemma {:induction false} RunCharges(cfg: Config, es: seq<Event>, u: UserId)
    ensures Charged(Run(cfg, es))
    ensures StatOf(Run(cfg, es).stats, u) == Due(Run(cfg, es).deliveries, Run(cfg, es).misses, u)
    decreases |es|
  {
    if es != [] {
      RunCharges(cfg, es[..|es| - 1], u);
      StepCharges(cfg, Run(cfg, es[..|es| - 1]), es[|es| - 1]);
    }
  }

  // ---- The logs ----

  /** The frames that writes delivered in a run, each to its user with the bytes written. */
  ghost function Deliveries(cfg: Config, es: seq<Event>): (r: seq<Entry>)
    decreases |es|
  {
    if es == [] then []
    else
      var before, e := es[..|es| - 1], es[|es| - 1];
      Deliveries(cfg, before) +
      if e.WriteOk? && Look(Run(cfg, before).outbox, e.conn) != [] then
        var f := Look(Run(cfg, before).outbox, e.conn)[0];
        [Entry(f.user, f.payload, e.bytes)]
      else []
  }

  lemma {:induction false} SendToAllBooks(cfg: Config, s: State, us: seq<UserId>, p: Payload)
    ensures SendToAll(cfg, s, us, p).deliveries == s.deliveries
  {
    if us != [] {
      SendToAllBooks(cfg, s, us[..|us| - 1], p);
      SendToBooks(cfg, SendToAll(cfg, s, us[..|us| - 1], p), us[|us| - 1], p);
    }
  }

  lemma SendBooks(cfg: Config, s: State, p: Payload)
    ensures Send(cfg, s, p).deliveries == s.deliveries
  {
    SendToAllBooks(cfg, s.(notified := s.notified + [p]), p.recipients, p);
  }

  lemma TurnBooks(cfg: Config, s: State, u: UserId)
    ensures Turn(cfg, s, u).deliveries == s.deliveries
  {
    if Look(s.undelivered, u) != [] {
      var q := s.undelivered[u];
      SendBooks(cfg, s.(undelivered := s.undelivered[u := q[1..]]), q[0]);
    }
  }

  lemma WrittenBooks(cfg: Config, s: State, c: ConnId, bytes: nat)
    requires Look(s.outbox, c) != []
    ensures var f := Look(s.outbox, c)[0];
            Written(cfg, s, c, bytes).deliveries == s.deliveries + [Entry(f.user, f.payload, bytes)]
  {
    var f := s.outbox[c][0];
    var t := Settle(s, c, [Settled(f, Delivered)]).(deliveries := s.deliveries + [Entry(f.user, f.payload, bytes)]);
    SendBooks(cfg, Account(t, f.payload, f.user, bytes, true), CreateSendStatus(f.payload));
  }

  lemma ReceiveBooks(cfg: Config, s: State, p: Payload, sendBack: bool)
    ensures Receive(cfg, s, p, sendBack).deliveries == s.deliveries
  {
    SendToBooks(cfg, s, p.sender, p);
    SendBooks(cfg, if sendBack && !IsForBot(p) then SendTo(cfg, s, p.sender, p) else s, p);
  }

  /** In every run the deliveries are the frames at the head of an outbox for which a write succeeded. */
  lemma {:induction false} DeliveriesAreWrites(cfg: Config, es: seq<Event>)
    ensures Run(cfg, es).deliveries == Deliveries(cfg, es)
    decreases |es|
  {
    if es != [] {
      var before, e := es[..|es| - 1], es[|es| - 1];
      DeliveriesAreWrites(cfg, before);
      var s := Run(cfg, before);
      match e
      case Incoming(p, sendBack) => ReceiveBooks(cfg, s, p, sendBack);
      case RedeliverTurn(u) => TurnBooks(cfg, s, u);
      case WriteOk(c, bytes) =>
        if Look(s.outbox, c) != [] {
          WrittenBooks(cfg, s, c, bytes);
        }
      case _ =>
    }
  }

  /** Recipients without a connection, one entry for each occurrence. */
  function MissesOf(cfg: Config, s: State, p: Payload): (missed: UserId -> seq<Entry>) {
    (v: UserId) => if v != BOT && Connected(s, v) == {} then [Entry(v, p, cfg.jsonSize(p))] else []
  }

  lemma {:induction false} SendToAllMisses(cfg: Config, s: State, us: seq<UserId>, p: Payload)
    ensures var t := SendToAll(cfg, s, us, p);
            && t.connections == s.connections && t.notified == s.notified
            && t.misses == s.misses + Lists.Flat(us, MissesOf(cfg, s, p))
  {
    if us != [] {
      var front, v := us[..|us| - 1], us[|us| - 1];
      SendToAllMisses(cfg, s, front, p);
      var m := SendToAll(cfg, s, front, p);
      SendToMisses(cfg, m, v, p);
      assert MissesOf(cfg, m, p)(v) == MissesOf(cfg, s, p)(v);
      Lists.Assoc(s.misses, Lists.Flat(front, MissesOf(cfg, s, p)), MissesOf(cfg, s, p)(v));
    }
  }

  lemma SendToMisses(cfg: Config, s: State, v: UserId, p: Payload)
    ensures var t := SendTo(cfg, s, v, p);
            && t.connections == s.connections && t.notified == s.notified
            && (v != BOT ==> t.misses == s.misses + MissesOf(cfg, s, p)(v))
  {
    SendToBooks(cfg, s, v, p);
  }

  /** A send calls the listeners once and notes a miss for every occurrence of a recipient without a connection. */
  lemma SendMisses(cfg: Config, s: State, p: Payload)
    ensures var t := Send(cfg, s, p);
            && t.notified == s.notified + [p]
            && t.misses == s.misses + Lists.Flat(p.recipients, MissesOf(cfg, s, p))
  {
    var n := s.(notified := s.notified + [p]);
    if IsForBot(p) {
      assert p.recipients[..0] == [];
      assert s.misses + [] == s.misses;
    } else {
      SendToAllMisses(cfg, n, p.recipients, p);
      Lists.SameFlat(p.recipients, MissesOf(cfg, n, p), MissesOf(cfg, s, p));
    }
  }

  // ---- What was accepted ----

  lemma {:induction false} SendToAllAccepts(cfg: Config, s: State, us: seq<UserId>, p: Payload)
    ensures s.accepted <= SendToAll(cfg, s, us, p).accepted
    ensures forall u | u in us && u != BOT :: (u, Key(p)) in SendToAll(cfg, s, us, p).accepted
  {
    if us != [] {
      SendToAllAccepts(cfg, s, us[..|us| - 1], p);
      SendToAccepts(cfg, SendToAll(cfg, s, us[..|us| - 1], p), us[|us| - 1], p);
    }
  }

  lemma SendToAccepts(cfg: Config, s: State, u: UserId, p: Payload)
    ensures SendTo(cfg, s, u, p).accepted == s.accepted + {(u, Key(p))}
  {
  }

  lemma SendAccepts(cfg: Config, s: State, p: Payload)
    ensures s.accepted <= Send(cfg, s, p).accepted
    ensures forall u | u in p.recipients && u != BOT :: (u, Key(p)) in Send(cfg, s, p).accepted
  {
    SendToAllAccepts(cfg, s.(notified := s.notified + [p]), p.recipients, p);
  }

  lemma WrittenAccepts(cfg: Config, s: State, c: ConnId, bytes: nat)
    ensures s.accepted <= Written(cfg, s, c, bytes).accepted
  {
    if Look(s.outbox, c) != [] {
      var f := s.outbox[c][0];
      var t := Settle(s, c, [Settled(f, Delivered)]).(deliveries := s.deliveries + [Entry(f.user, f.payload, bytes)]);
      SendAccepts(cfg, Account(t, f.payload, f.user, bytes, true), CreateSendStatus(f.payload));
    }
  }

  lemma TurnAccepts(cfg: Config, s: State, u: UserId)
    ensures s.accepted <= Turn(cfg, s, u).accepted
  {
    if Look(s.undelivered, u) != [] {
      var q := s.undelivered[u];
      SendAccepts(cfg, s.(undelivered := s.undelivered[u := q[1..]]), q[0]);
    }
  }

  lemma ReceiveAccepts(cfg: Config, s: State, p: Payload, sendBack: bool)
    ensures s.accepted <= Receive(cfg, s, p, sendBack).accepted
    ensures forall u | u in p.recipients && u != BOT :: (u, Key(p)) in Receive(cfg, s, p, sendBack).accepted
    ensures sendBack && !IsForBot(p) ==> (p.sender, Key(p)) in Receive(cfg, s, p, sendBack).accepted
  {
    SendToAccepts(cfg, s, p.sender, p);
    SendAccepts(cfg, if sendBack && !IsForBot(p) then SendTo(cfg, s, p.sender, p) else s, p);
  }

  lemma StepAccepts(cfg: Config, s: State, e: Event)
    requires Addressed(s)
    ensures s.accepted <= Step(cfg, s, e).accepted
  {
    match e
    case Incoming(p, sendBack) => ReceiveAccepts(cfg, s, p, sendBack);
    case RedeliverTurn(u) => TurnAccepts(cfg, s, u);
    case WriteOk(c, bytes) => WrittenAccepts(cfg, s, c, bytes);
    case _ =>
  }

  lemma StepTakesIn(cfg: Config, s: State, p: Payload, sendBack: bool, u: UserId)
    requires Addressed(s) && u in p.recipients && u != BOT
    ensures (u, Key(p)) in Step(cfg, s, Incoming(p, sendBack)).accepted
  {
    ReceiveAccepts(cfg, s, p, sendBack);
  }

  lemma {:induction false} IncomingIsAccepted(cfg: Config, es: seq<Event>, i: nat, u: UserId)
    requires i < |es| && es[i].Incoming? && u in es[i].payload.recipients && u != BOT
    ensures (u, Key(es[i].payload)) in Run(cfg, es).accepted
    decreases |es|
  {
    var n := |es| - 1;
    var s, e := Run(cfg, es[..n]), es[n];
    if i < n {
      IncomingIsAccepted(cfg, es[..n], i, u);
      StepAccepts(cfg, s, e);
    } else {
      StepTakesIn(cfg, s, e.payload, e.sendBack, u);
    }
  }

  /** With the undelivered queue on, in every run: a message that came in for a user other than the bot is queued for
      the user, pending, delivered, or was discarded by a queue clear. */
  lemma {:induction false} IncomingIsKept(cfg: Config, es: seq<Event>, i: nat, u: UserId)
    requires cfg.enableUndeliveredQueue
    requires i < |es| && es[i].Incoming? && u in es[i].payload.recipients && u != BOT
    ensures Kept(Run(cfg, es), u, Key(es[i].payload))
  {
    IncomingIsAccepted(cfg, es, i, u);
    NothingVanishes(cfg, es);
  }

  // ---- Who is connected ----

  /** The connection's last event for the user: it connected, and neither went nor had a write break its pipe since. */
  ghost predicate Online(cfg: Config, es: seq<Event>, u: UserId, c: ConnId)
    decreases |es|
  {
    es != [] &&
    var before, e := es[..|es| - 1], es[|es| - 1];
    if e == Connect(u, c) then true
    else if e == Disconnect(u, c) then false
    else if e.WriteError? && e.conn == c && e.brokenPipe && Look(Run(cfg, before).outbox, c) != []
            && Look(Run(cfg, before).outbox, c)[0].user == u then false
    else Online(cfg, before, u, c)
  }

  lemma SendConnects(cfg: Config, s: State, p: Payload)
    ensures Send(cfg, s, p).connections == s.connections
  {
    SendRoutes(cfg, s, p, 0, 0);
  }

  lemma WrittenConnects(cfg: Config, s: State, c: ConnId, bytes: nat)
    ensures Written(cfg, s, c, bytes).connections == s.connections
  {
    if Look(s.outbox, c) != [] {
      var f := s.outbox[c][0];
      var t := Settle(s, c, [Settled(f, Delivered)]).(deliveries := s.deliveries + [Entry(f.user, f.payload, bytes)]);
      SendConnects(cfg, Account(t, f.payload, f.user, bytes, true), CreateSendStatus(f.payload));
    }
  }

  lemma TurnConnects(cfg: Config, s: State, u: UserId)
    ensures Turn(cfg, s, u).connections == s.connections
  {
    if Look(s.undelivered, u) != [] {
      var q := s.undelivered[u];
      SendConnects(cfg, s.(undelivered := s.undelivered[u := q[1..]]), q[0]);
    }
  }

  lemma ReceiveConnects(cfg: Config, s: State, p: Payload, sendBack: bool)
    ensures Receive(cfg, s, p, sendBack).connections == s.connections
  {
    SendToMisses(cfg, s, p.sender, p);
    SendConnects(cfg, if sendBack && !IsForBot(p) then SendTo(cfg, s, p.sender, p) else s, p);
  }

  lemma FailedConnects(cfg: Config, s: State, c: ConnId, brokenPipe: bool, alsoQueued: nat, u: UserId)
    requires Look(s.outbox, c) != []
    ensures Connected(Failed(cfg, s, c, brokenPipe, alsoQueued), u)
            == Connected(s, u) - if brokenPipe && Look(s.outbox, c)[0].user == u then {c} else {}
  {
  }

  /** In every run a user's connections are those that are online by this account. */
  lemma {:induction false} ConnectedIsOnline(cfg: Config, es: seq<Event>, u: UserId, c: ConnId)
    ensures c in Connected(Run(cfg, es), u) <==> Online(cfg, es, u, c)
    decreases |es|
  {
    if es != [] {
      var before, e := es[..|es| - 1], es[|es| - 1];
      ConnectedIsOnline(cfg, before, u, c);
      var s := Run(cfg, before);
      match e
      case Incoming(p, sendBack) => ReceiveConnects(cfg, s, p, sendBack);
      case RedeliverTurn(v) => TurnConnects(cfg, s, v);
      case WriteOk(d, bytes) => WrittenConnects(cfg, s, d, bytes);
      case WriteError(d, brokenPipe, alsoQueued) =>
        if Look(s.outbox, d) != [] {
          FailedConnects(cfg, s, d, brokenPipe, alsoQueued, u);
        }
      case _ =>
    }
  }
}
