/** Conservation of the per-user counters that `onMessageSent` keeps. */
module ChatStatistics {
  import opened ChatRouting
  import opened Common

  function Add(a: Stat, b: Stat): (r: Stat) {
    Stat(a.sent + b.sent, a.received + b.received, a.bytes + b.bytes)
  }

  /** The counters summed over the users below `n`. */
  function Total(m: map<UserId, Stat>, n: nat): (r: Stat) {
    if n == 0 then Stat(0, 0, 0) else Add(Total(m, n - 1), StatOf(m, n - 1))
  }

  /** All users that have counters are below `n`. */
  ghost predicate Covers(m: map<UserId, Stat>, n: nat) {
    forall u | u in m :: u < n
  }

  lemma {:induction false} TotalUpdate(m: map<UserId, Stat>, u: UserId, more: Stat, n: nat)
    ensures Total(m[u := Add(StatOf(m, u), more)], n) == if u < n then Add(Total(m, n), more) else Total(m, n)
  {
    if n > 0 {
      TotalUpdate(m, u, more, n - 1);
      assert StatOf(m[u := Add(StatOf(m, u), more)], n - 1)
             == if u == n - 1 then Add(StatOf(m, u), more) else StatOf(m, n - 1);
    }
  }

  lemma {:induction false} CountSentTotal(m: map<UserId, Stat>, u: UserId, bytes: nat, n: nat)
    requires Covers(CountSent(m, u, bytes), n)
    ensures Covers(m, n)
    ensures Total(CountSent(m, u, bytes), n) == Add(Total(m, n), Stat(1, 0, bytes))
  {
    TotalUpdate(m, u, Stat(1, 0, bytes), n);
    assert u in CountSent(m, u, bytes);
    forall v | v in m ensures v < n {
      assert v in CountSent(m, u, bytes);
    }
  }

  lemma {:induction false} CountReceivedTotal(m: map<UserId, Stat>, u: UserId, bytes: nat, n: nat)
    requires Covers(CountReceived(m, u, bytes), n)
    ensures Covers(m, n)
    ensures Total(CountReceived(m, u, bytes), n) == Add(Total(m, n), Stat(0, 1, bytes))
  {
    TotalUpdate(m, u, Stat(0, 1, bytes), n);
    assert u in CountReceived(m, u, bytes);
    forall v | v in m ensures v < n {
      assert v in CountReceived(m, u, bytes);
    }
  }

  /** Number and bytes of the entries that are not status messages. */
  function Messages(es: seq<Entry>): (n: nat) {
    if es == [] then 0 else Messages(es[..|es| - 1]) + if es[|es| - 1].payload.receipt then 0 else 1
  }

  function BytesIn(es: seq<Entry>): (n: nat) {
    if es == [] then 0 else BytesIn(es[..|es| - 1]) + if es[|es| - 1].payload.receipt then 0 else es[|es| - 1].bytes
  }

  lemma {:induction false} Push(es: seq<Entry>, e: Entry)
    ensures Messages(es + [e]) == Messages(es) + if e.payload.receipt then 0 else 1
    ensures BytesIn(es + [e]) == BytesIn(es) + if e.payload.receipt then 0 else e.bytes
  {
    assert (es + [e])[..|es|] == es;
  }

  function Expected(s: State): (r: Stat) {
    Stat(Messages(s.deliveries) + Messages(s.misses),
         Messages(s.deliveries),
         2 * BytesIn(s.deliveries) + BytesIn(s.misses))
  }

  /** Summed over all users: received messages are the deliveries; sent messages are the deliveries and the
      misses; bytes are counted twice for a delivery, for the sender and the recipient, and once for a miss. */
  ghost predicate Balanced(s: State) {
    forall n: nat | Covers(s.stats, n) :: Total(s.stats, n) == Expected(s)
  }

  lemma SendToBalanced(cfg: Config, s: State, u: UserId, p: Payload)
    requires Balanced(s)
    ensures Balanced(SendTo(cfg, s, u, p))
  {
    if Connected(s, u) == {} && !p.receipt {
      var t := SendTo(cfg, s, u, p);
      Push(s.misses, Entry(u, p, cfg.jsonSize(p)));
      forall n: nat | Covers(t.stats, n) ensures Total(t.stats, n) == Expected(t) {
        CountSentTotal(s.stats, p.sender, cfg.jsonSize(p), n);
      }
    } else {
      Push(s.misses, Entry(u, p, cfg.jsonSize(p)));
    }
  }

  lemma {:induction false} SendToAllBalanced(cfg: Config, s: State, us: seq<UserId>, p: Payload)
    requires Balanced(s)
    ensures Balanced(SendToAll(cfg, s, us, p))
  {
    if us != [] {
      var front := us[..|us| - 1];
      SendToAllBalanced(cfg, s, front, p);
      SendToBalanced(cfg, SendToAll(cfg, s, front, p), us[|us| - 1], p);
    }
  }

  lemma SendBalanced(cfg: Config, s: State, p: Payload)
    requires Balanced(s)
    ensures Balanced(Send(cfg, s, p))
  {
    SendToAllBalanced(cfg, s.(notified := s.notified + [p]), p.recipients, p);
  }

  lemma TurnBalanced(cfg: Config, s: State, u: UserId)
    requires Balanced(s)
    ensures Balanced(Turn(cfg, s, u))
  {
    if Look(s.undelivered, u) != [] {
      var q := s.undelivered[u];
      SendBalanced(cfg, s.(undelivered := s.undelivered[u := q[1..]]), q[0]);
    }
  }

  lemma DeliveryBalanced(s: State, t: State, f: Frame, bytes: nat)
    requires Balanced(s) && t.stats == s.stats && t.misses == s.misses
    requires t.deliveries == s.deliveries + [Entry(f.user, f.payload, bytes)]
    ensures Balanced(Account(t, f.payload, f.user, bytes, true))
  {
    var p := f.payload;
    var a := Account(t, p, f.user, bytes, true);
    Push(s.deliveries, Entry(f.user, p, bytes));
    if !p.receipt {
      forall n: nat | Covers(a.stats, n) ensures Total(a.stats, n) == Expected(a) {
        CountReceivedTotal(CountSent(s.stats, p.sender, bytes), f.user, bytes, n);
        CountSentTotal(s.stats, p.sender, bytes, n);
      }
    }
  }

  lemma WrittenBalanced(cfg: Config, s: State, c: ConnId, bytes: nat)
    requires Balanced(s)
    ensures Balanced(Written(cfg, s, c, bytes))
  {
    if Look(s.outbox, c) != [] {
      var f := s.outbox[c][0];
      var t := Settle(s, c, [Settled(f, Delivered)]).(deliveries := s.deliveries + [Entry(f.user, f.payload, bytes)]);
      DeliveryBalanced(s, t, f, bytes);
      SendBalanced(cfg, Account(t, f.payload, f.user, bytes, true), CreateSendStatus(f.payload));
    }
  }

  lemma StepBalanced(cfg: Config, s: State, e: Event)
    requires Addressed(s) && Balanced(s)
    ensures Balanced(Step(cfg, s, e))
  {
    match e
    case Incoming(p, sendBack) =>
      SendToBalanced(cfg, s, p.sender, p);
      SendBalanced(cfg, if sendBack && !IsForBot(p) then SendTo(cfg, s, p.sender, p) else s, p);
    case Connect(u, c) =>
    case RedeliverTurn(u) => TurnBalanced(cfg, s, u);
    case Disconnect(u, c) =>
    case WriteOk(c, bytes) => WrittenBalanced(cfg, s, c, bytes);
    case WriteError(c, brokenPipe, alsoQueued) =>
    case ControlError(c, alsoQueued) =>
  }

  /** Over any run the counters of all users add up to what was delivered and what found its user offline. */
  lemma {:induction false} RunBalanced(cfg: Config, es: seq<Event>)
    ensures Balanced(Run(cfg, es))
    decreases |es|
  {
    if es != [] {
      RunBalanced(cfg, es[..|es| - 1]);
      StepBalanced(cfg, Run(cfg, es[..|es| - 1]), es[|es| - 1]);
    } else {
      InitialBalanced();
    }
  }

  lemma InitialBalanced()
    ensures Balanced(INITIAL)
  {
    var s := INITIAL;
    assert s.stats == map[] && Expected(s) == Stat(0, 0, 0);
    forall n: nat | Covers(s.stats, n) ensures Total(s.stats, n) == Expected(s) {
      NoTotal(n);
    }
  }

  lemma {:induction false} NoTotal(n: nat)
    ensures Total(map[], n) == Stat(0, 0, 0)
  {
    if n > 0 {
      NoTotal(n - 1);
    }
  }
}
