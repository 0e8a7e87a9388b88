/** The event notifier's retry scheduler: statuses move between the queue, sender threads, retries, fallbacks
    and the end. One consumer, an exact FIFO queue, and the error listener that `subscribe` installs. */
module EventNotifier {
  import Lists

  datatype Target = Target(name: nat, fallbacks: seq<Target>)

  datatype SendStatus = SendStatus(
    target: Target, payload: nat, sendTime: int, sendTries: int, fallbackQueue: seq<Target>)

  datatype Config = Config(enableRetry: bool, maxParallelWorkers: nat, maxRetries: int, retryInterval: int)

  /** A status with its history: the target it was created for, the targets tried, when each try ended and how. */
  datatype Job = Job(status: SendStatus, primary: Target, tried: seq<Target>, ended: seq<int>, results: seq<bool>)

  datatype State = State(
    queue: seq<Job>,
    flying: seq<Job>,
    delivered: seq<Job>,
    dropped: seq<Job>,
    // history: everything created, the number of tries finished, the time of the last event
    created: seq<Job>,
    tries: nat,
    clock: int)

  function Initial(clock: int): (s: State) {
    State([], [], [], [], [], 0, clock)
  }

  datatype Event =
    | AddMessage(payload: nat, now: int)
    | Cycle(now: int)
    | Finish(index: nat, ok: bool, now: int)

  function NewJob(target: Target, payload: nat): (j: Job) {
    Job(SendStatus(target, payload, 0, 1, target.fallbacks), target, [], [], [])
  }

  function NewJobs(targets: seq<Target>, payload: nat): (js: seq<Job>) {
    seq(|targets|, i requires 0 <= i < |targets| => NewJob(targets[i], payload))
  }

  function Abs(x: int): (r: int) {
    if x < 0 then -x else x
  }

  predicate Ready(cfg: Config, s: SendStatus, now: int) {
    !cfg.enableRetry || Abs(now - s.sendTime) >= cfg.retryInterval
  }

  function ReadyOf(cfg: Config, js: seq<Job>, now: int, ready: bool): (r: seq<Job>) {
    if js == [] then []
    else
      var front := ReadyOf(cfg, js[..|js| - 1], now, ready);
      if Ready(cfg, js[|js| - 1].status, now) == ready then front + [js[|js| - 1]] else front
  }

  function BulkSize(cfg: Config, queue: seq<Job>): (n: nat)
    ensures n <= |queue| && n <= cfg.maxParallelWorkers
  {
    if |queue| > cfg.maxParallelWorkers then cfg.maxParallelWorkers else |queue|
  }

  /** What becomes of a status whose try failed. */
  datatype Verdict = Again(status: SendStatus) | GiveUp

  function OnErrorSending(s: SendStatus): (v: Verdict) {
    if s.fallbackQueue == [] then GiveUp
    else Again(s.(target := s.fallbackQueue[0], fallbackQueue := s.fallbackQueue[1..], sendTries := 0))
  }

  function AfterFailure(cfg: Config, s: SendStatus, now: int): (v: Verdict) {
    if !cfg.enableRetry then GiveUp
    else if s.sendTries < cfg.maxRetries then Again(s.(sendTries := s.sendTries + 1, sendTime := now))
    else OnErrorSending(s)
  }

  function Logged(j: Job, ok: bool, now: int): (r: Job) {
    j.(tried := j.tried + [j.status.target], ended := j.ended + [now], results := j.results + [ok])
  }

  function RemoveAt<T>(s: seq<T>, i: nat): (r: seq<T>)
    requires i < |s|
  {
    s[..i] + s[i + 1..]
  }

  function Step(cfg: Config, targets: seq<Target>, s: State, e: Event): (t: State) {
    match e
    case AddMessage(payload, now) =>
      var news := NewJobs(targets, payload);
      s.(queue := s.queue + news, created := s.created + news, clock := now)
    case Cycle(now) =>
      var n := BulkSize(cfg, s.queue);
      s.(queue := s.queue[n..] + ReadyOf(cfg, s.queue[..n], now, false),
         flying := s.flying + ReadyOf(cfg, s.queue[..n], now, true), clock := now)
    case Finish(i, ok, now) =>
      if i >= |s.flying| then s.(clock := now)
      else
        var job := Logged(s.flying[i], ok, now);
        var t := s.(flying := RemoveAt(s.flying, i), tries := s.tries + 1, clock := now);
        if ok then t.(delivered := t.delivered + [job])
        else
          match AfterFailure(cfg, job.status, now)
          case Again(status) => t.(queue := t.queue + [job.(status := status)])
          case GiveUp => t.(dropped := t.dropped + [job])
  }

  function Run(cfg: Config, targets: seq<Target>, s: State, es: seq<Event>): (t: State)
    decreases |es|
  {
    if es == [] then s else Step(cfg, targets, Run(cfg, targets, s, es[..|es| - 1]), es[|es| - 1])
  }

  // ---- The plan of tries ----

  function Repeat(t: Target, n: nat): (r: seq<Target>) {
    seq(n, _ => t)
  }

  /** Every fallback gets one try more than the maximum number of retries, and at least one. */
  function FallbackPlan(cfg: Config, fallbacks: seq<Target>): (r: seq<Target>) {
    if fallbacks == [] then []
    else Repeat(fallbacks[0], 1 + if cfg.maxRetries > 0 then cfg.maxRetries else 0) + FallbackPlan(cfg, fallbacks[1..])
  }

  /** The target itself gets as many tries as the maximum number of retries, and at least one. */
  function Plan(cfg: Config, target: Target): (r: seq<Target>) {
    if !cfg.enableRetry then [target]
    else Repeat(target, if cfg.maxRetries > 1 then cfg.maxRetries else 1) + FallbackPlan(cfg, target.fallbacks)
  }

  function Remaining(cfg: Config, s: SendStatus): (r: seq<Target>) {
    if !cfg.enableRetry then [s.target]
    else
      Repeat(s.target, 1 + if s.sendTries < cfg.maxRetries then cfg.maxRetries - s.sendTries else 0)
      + FallbackPlan(cfg, s.fallbackQueue)
  }

  lemma RepeatSplit(t: Target, n: nat, tail: seq<Target>)
    requires n > 0
    ensures Repeat(t, n) + tail == [t] + (Repeat(t, n - 1) + tail)
  {
    assert Repeat(t, n) == [t] + Repeat(t, n - 1);
  }

  /** A failed try uses up the first entry of what remains; the status gives up when nothing remains. */
  lemma FailureAdvances(cfg: Config, s: SendStatus, now: int)
    ensures var v := AfterFailure(cfg, s, now);
            Remaining(cfg, s) == [s.target] + (if v.Again? then Remaining(cfg, v.status) else [])
  {
    if cfg.enableRetry {
      var n := 1 + if s.sendTries < cfg.maxRetries then cfg.maxRetries - s.sendTries else 0;
      RepeatSplit(s.target, n, FallbackPlan(cfg, s.fallbackQueue));
      if s.sendTries >= cfg.maxRetries {
        assert Repeat(s.target, 0) + FallbackPlan(cfg, s.fallbackQueue) == FallbackPlan(cfg, s.fallbackQueue);
      }
    }
  }

  /** The pair (fallbacks left, retries left) drops lexicographically with each failure that is tried again. */
  lemma FailureDescends(cfg: Config, s: SendStatus, now: int)
    ensures var v := AfterFailure(cfg, s, now);
            v.Again? ==>
              || |v.status.fallbackQueue| < |s.fallbackQueue|
              || (|v.status.fallbackQueue| == |s.fallbackQueue|
                  && 0 <= cfg.maxRetries - v.status.sendTries < cfg.maxRetries - s.sendTries)
  {
  }

  // ---- The invariant over all runs ----

  /** Tried so far and still to be tried make up the plan. */
  ghost predicate OnPlan(cfg: Config, j: Job) {
    j.tried + Remaining(cfg, j.status) == Plan(cfg, j.primary)
  }

  ghost predicate Inv(cfg: Config, s: State) {
    && (forall j | j in s.queue :: OnPlan(cfg, j))
    && (forall j | j in s.flying :: OnPlan(cfg, j))
    && (forall j | j in s.delivered :: j.tried != [] && j.tried <= Plan(cfg, j.primary))
    && (forall j | j in s.dropped :: j.tried == Plan(cfg, j.primary))
  }

  lemma NewJobOnPlan(cfg: Config, t: Target, payload: nat)
    ensures OnPlan(cfg, NewJob(t, payload))
  {
  }

  lemma {:induction false} ReadyOfSubset(cfg: Config, js: seq<Job>, now: int, ready: bool)
    ensures forall j | j in ReadyOf(cfg, js, now, ready) :: j in js && Ready(cfg, j.status, now) == ready
  {
    if js != [] {
      ReadyOfSubset(cfg, js[..|js| - 1], now, ready);
    }
  }

  lemma FinishOnPlan(cfg: Config, j: Job, ok: bool, now: int)
    requires OnPlan(cfg, j)
    ensures var job := Logged(j, ok, now);
            && job.tried <= Plan(cfg, j.primary)
            && (var v := AfterFailure(cfg, j.status, now);
                if v.Again? then OnPlan(cfg, job.(status := v.status)) else job.tried == Plan(cfg, j.primary))
  {
    FailureAdvances(cfg, j.status, now);
    var v := AfterFailure(cfg, j.status, now);
    var rest := if v.Again? then Remaining(cfg, v.status) else [];
    assert j.tried + ([j.status.target] + rest) == j.tried + [j.status.target] + rest;
  }

  lemma StepKeepsInv(cfg: Config, targets: seq<Target>, s: State, e: Event)
    requires Inv(cfg, s)
    ensures Inv(cfg, Step(cfg, targets, s, e))
  {
    match e
    case AddMessage(payload, now) =>
      forall i | 0 <= i < |targets| ensures OnPlan(cfg, NewJobs(targets, payload)[i]) {
        NewJobOnPlan(cfg, targets[i], payload);
      }
    case Cycle(now) =>
      var bulk := s.queue[..BulkSize(cfg, s.queue)];
      ReadyOfSubset(cfg, bulk, now, false);
      ReadyOfSubset(cfg, bulk, now, true);
    case Finish(i, ok, now) =>
      if i < |s.flying| {
        FinishOnPlan(cfg, s.flying[i], ok, now);
      }
  }

  /** In every run the targets tried for a status are a prefix of its plan: the target it was created for, then
      each of its direct fallbacks in configured order, each the planned number of times. It stops early only by
      a success, and is dropped only when the whole plan has failed. */
  lemma {:induction false} TriesFollowPlan(cfg: Config, targets: seq<Target>, clock: int, es: seq<Event>)
    ensures Inv(cfg, Run(cfg, targets, Initial(clock), es))
    decreases |es|
  {
    if es != [] {
      var front := es[..|es| - 1];
      TriesFollowPlan(cfg, targets, clock, front);
      StepKeepsInv(cfg, targets, Run(cfg, targets, Initial(clock), front), es[|es| - 1]);
    }
  }

  // ---- Results decide ----

  /** Every try of the status has failed. */
  ghost predicate AllFailed(j: Job) {
    |j.results| == |j.tried| && true !in j.results
  }

  /** The last try of the status succeeded, all others failed. */
  ghost predicate LastSucceeded(j: Job) {
    && |j.results| == |j.tried| > 0
    && j.results[|j.results| - 1]
    && true !in j.results[..|j.results| - 1]
  }

  ghost predicate Decided(s: State) {
    && (forall j | j in s.queue :: AllFailed(j))
    && (forall j | j in s.flying :: AllFailed(j))
    && (forall j | j in s.delivered :: LastSucceeded(j))
    && (forall j | j in s.dropped :: AllFailed(j))
  }

  lemma FinishDecides(j: Job, ok: bool, now: int)
    requires AllFailed(j)
    ensures if ok then LastSucceeded(Logged(j, ok, now)) else AllFailed(Logged(j, ok, now))
  {
    assert Logged(j, ok, now).results[..|j.results|] == j.results;
  }

  lemma FinishStaysDecided(cfg: Config, targets: seq<Target>, s: State, i: nat, ok: bool, now: int)
    requires Decided(s) && i < |s.flying|
    ensures Decided(Step(cfg, targets, s, Finish(i, ok, now)))
  {
    assert s.flying[i] in s.flying;
    FinishDecides(s.flying[i], ok, now);
  }

  lemma StepStaysDecided(cfg: Config, targets: seq<Target>, s: State, e: Event)
    requires Decided(s)
    ensures Decided(Step(cfg, targets, s, e))
  {
    match e
    case AddMessage(payload, now) =>
    case Cycle(now) =>
      var bulk := s.queue[..BulkSize(cfg, s.queue)];
      ReadyOfSubset(cfg, bulk, now, false);
      ReadyOfSubset(cfg, bulk, now, true);
    case Finish(i, ok, now) =>
      if i < |s.flying| {
        FinishStaysDecided(cfg, targets, s, i, ok, now);
      }
  }

  /** Ends of tries in a run with this result, of statuses that were in flight. */
  ghost function Ends(cfg: Config, targets: seq<Target>, clock: int, es: seq<Event>, ok: bool): (n: nat)
    decreases |es|
  {
    if es == [] then 0
    else
      var before, e := es[..|es| - 1], es[|es| - 1];
      Ends(cfg, targets, clock, before, ok)
      + if e.Finish? && e.ok == ok && e.index < |Run(cfg, targets, Initial(clock), before).flying| then 1 else 0
  }

  /** In every run a status was delivered just when its last try succeeded: each success delivers one status and ends
      its tries, and whatever is queued, in flight or dropped has only failed. */
  lemma {:induction false} SuccessDelivers(cfg: Config, targets: seq<Target>, clock: int, es: seq<Event>)
    ensures var s := Run(cfg, targets, Initial(clock), es);
            && Decided(s)
            && |s.delivered| == Ends(cfg, targets, clock, es, true)
            && s.tries == Ends(cfg, targets, clock, es, true) + Ends(cfg, targets, clock, es, false)
    decreases |es|
  {
    if es != [] {
      var front, e := es[..|es| - 1], es[|es| - 1];
      SuccessDelivers(cfg, targets, clock, front);
      var s := Run(cfg, targets, Initial(clock), front);
      StepStaysDecided(cfg, targets, s, e);
      StepDelivers(cfg, targets, s, e);
    }
  }

  lemma StepDelivers(cfg: Config, targets: seq<Target>, s: State, e: Event)
    ensures var t := Step(cfg, targets, s, e); var ended := e.Finish? && e.index < |s.flying|;
            && |t.delivered| == |s.delivered| + (if ended && e.ok then 1 else 0)
            && t.tries == s.tries + if ended then 1 else 0
  {
  }

  // ---- What is created ----

  /** One status for each target and each message, in order. */
  ghost function Asked(targets: seq<Target>, es: seq<Event>): (r: seq<(nat, Target)>)
    decreases |es|
  {
    if es == [] then []
    else
      var before, e := es[..|es| - 1], es[|es| - 1];
      Asked(targets, before)
      + if e.AddMessage? then seq(|targets|, i requires 0 <= i < |targets| => (e.payload, targets[i])) else []
  }

  /** In every run what was created is one status for every target and every message. */
  lemma {:induction false} CreatedIsAsked(cfg: Config, targets: seq<Target>, clock: int, es: seq<Event>)
    ensures Origins(Run(cfg, targets, Initial(clock), es).created) == Asked(targets, es)
    decreases |es|
  {
    if es != [] {
      var front := es[..|es| - 1];
      CreatedIsAsked(cfg, targets, clock, front);
      StepCreates(cfg, targets, Run(cfg, targets, Initial(clock), front), es[|es| - 1]);
    }
  }

  lemma StepCreates(cfg: Config, targets: seq<Target>, s: State, e: Event)
    ensures Origins(Step(cfg, targets, s, e).created)
            == Origins(s.created)
               + if e.AddMessage? then seq(|targets|, i requires 0 <= i < |targets| => (e.payload, targets[i])) else []
  {
  }

  // ---- What a cycle starts ----

  lemma {:induction false} ReadyOfAll(cfg: Config, js: seq<Job>, now: int)
    requires forall j | j in js :: Ready(cfg, j.status, now)
    ensures ReadyOf(cfg, js, now, true) == js && ReadyOf(cfg, js, now, false) == []
  {
    if js != [] {
      ReadyOfAll(cfg, js[..|js| - 1], now);
    }
  }

  lemma {:induction false} ReadyOfMember(cfg: Config, js: seq<Job>, now: int, i: nat)
    requires i < |js|
    ensures js[i] in ReadyOf(cfg, js, now, Ready(cfg, js[i].status, now))
  {
    var n := |js| - 1;
    if i < n {
      ReadyOfMember(cfg, js[..n], now, i);
    }
  }

  /** A cycle looks at the first statuses, as many as workers are allowed: those that may be tried are in flight
      afterwards, the others are queued again behind the rest. */
  lemma CycleStarts(cfg: Config, targets: seq<Target>, s: State, now: int, i: nat)
    requires i < |s.queue|
    ensures var t := Step(cfg, targets, s, Cycle(now)); var j := s.queue[i];
            if i < cfg.maxParallelWorkers && Ready(cfg, j.status, now) then j in t.flying else j in t.queue
  {
    var n := BulkSize(cfg, s.queue);
    var bulk := s.queue[..n];
    if i < n {
      assert bulk[i] == s.queue[i];
      ReadyOfMember(cfg, bulk, now, i);
    } else {
      assert s.queue[n..][i - n] == s.queue[i];
    }
  }

  function Cycles(now: int, k: nat): (es: seq<Event>) {
    seq(k, _ => Cycle(now))
  }

  lemma CycleDrains(cfg: Config, targets: seq<Target>, s: State, now: int)
    requires forall j | j in s.queue :: Ready(cfg, j.status, now)
    ensures var t := Step(cfg, targets, s, Cycle(now));
            var n := if |s.queue| < cfg.maxParallelWorkers then |s.queue| else cfg.maxParallelWorkers;
            t.queue == s.queue[n..] && t.flying == s.flying + s.queue[..n]
  {
    ReadyOfAll(cfg, s.queue[..BulkSize(cfg, s.queue)], now);
  }

  /** Nothing starves: when everything queued may be tried, as many cycles as statuses put all of them in flight, in
      queue order. */
  lemma {:induction false} EverythingStarts(cfg: Config, targets: seq<Target>, s: State, now: int, k: nat)
    requires cfg.maxParallelWorkers > 0 && k >= |s.queue|
    requires forall j | j in s.queue :: Ready(cfg, j.status, now)
    ensures var t := Run(cfg, targets, s, Cycles(now, k)); t.queue == [] && t.flying == s.flying + s.queue
    decreases k
  {
    if k > 0 {
      CycleDrains(cfg, targets, s, now);
      var t := Step(cfg, targets, s, Cycle(now));
      var n := BulkSize(cfg, s.queue);
      EverythingStarts(cfg, targets, t, now, k - 1);
      RunFirst(cfg, targets, s, Cycle(now), Cycles(now, k - 1));
      assert Cycles(now, k) == [Cycle(now)] + Cycles(now, k - 1);
      Lists.Assoc(s.flying, s.queue[..n], s.queue[n..]);
      assert s.queue[..n] + s.queue[n..] == s.queue;
    } else {
      assert Cycles(now, k) == [];
    }
  }

  lemma {:induction false} RunPush(cfg: Config, targets: seq<Target>, s: State, es: seq<Event>, e: Event)
    ensures Run(cfg, targets, s, es + [e]) == Step(cfg, targets, Run(cfg, targets, s, es), e)
  {
    assert (es + [e])[..|es|] == es;
  }

  lemma {:induction false} RunFirst(cfg: Config, targets: seq<Target>, s: State, e: Event, es: seq<Event>)
    ensures Run(cfg, targets, s, [e] + es) == Run(cfg, targets, Step(cfg, targets, s, e), es)
    decreases |es|
  {
    if es == [] {
      RunPush(cfg, targets, s, [], e);
      assert [e] + es == [] + [e];
    } else {
      var front, last := es[..|es| - 1], es[|es| - 1];
      RunFirst(cfg, targets, s, e, front);
      RunPush(cfg, targets, s, [e] + front, last);
      RunPush(cfg, targets, Step(cfg, targets, s, e), front, last);
      assert es == front + [last] && [e] + es == ([e] + front) + [last];
    }
  }

  // ---- Conservation ----

  function Origins(js: seq<Job>): (r: seq<(nat, Target)>) {
    seq(|js|, i requires 0 <= i < |js| => (js[i].status.payload, js[i].primary))
  }

  /** How many statuses of each (payload, target) pair are in the list. */
  ghost function Count(js: seq<Job>): (m: multiset<(nat, Target)>) {
    multiset(Origins(js))
  }

  lemma CountAppend(a: seq<Job>, b: seq<Job>)
    ensures Count(a + b) == Count(a) + Count(b)
  {
    assert Origins(a + b) == Origins(a) + Origins(b);
  }

  lemma CountRemove(js: seq<Job>, i: nat)
    requires i < |js|
    ensures Count(js) == Count(RemoveAt(js, i)) + Count([js[i]])
  {
    CountAppend(js[..i], js[i + 1..]);
    CountAppend(js[..i], [js[i]]);
    CountAppend(js[..i] + [js[i]], js[i + 1..]);
    assert js == js[..i] + [js[i]] + js[i + 1..];
  }

  lemma {:induction false} CountReady(cfg: Config, js: seq<Job>, now: int)
    ensures Count(js) == Count(ReadyOf(cfg, js, now, true)) + Count(ReadyOf(cfg, js, now, false))
  {
    if js != [] {
      var front, last := js[..|js| - 1], js[|js| - 1];
      CountReady(cfg, front, now);
      CountAppend(front, [last]);
      assert js == front + [last];
      CountAppend(ReadyOf(cfg, front, now, true), [last]);
      CountAppend(ReadyOf(cfg, front, now, false), [last]);
    }
  }

  ghost predicate Conserved(s: State) {
    Count(s.created) == Count(s.queue) + Count(s.flying) + Count(s.delivered) + Count(s.dropped)
  }

  lemma FinishConserves(cfg: Config, targets: seq<Target>, s: State, i: nat, ok: bool, now: int)
    requires Conserved(s) && i < |s.flying|
    ensures Conserved(Step(cfg, targets, s, Finish(i, ok, now)))
  {
    var job := Logged(s.flying[i], ok, now);
    CountRemove(s.flying, i);
    var v := AfterFailure(cfg, job.status, now);
    var after := if !ok && v.Again? then job.(status := v.status) else job;
    assert Count([after]) == Count([s.flying[i]]) by {
      assert Origins([after]) == Origins([s.flying[i]]);
    }
    if ok {
      CountAppend(s.delivered, [after]);
    } else if v.Again? {
      CountAppend(s.queue, [after]);
    } else {
      CountAppend(s.dropped, [after]);
    }
  }

  lemma StepConserves(cfg: Config, targets: seq<Target>, s: State, e: Event)
    requires Conserved(s)
    ensures Conserved(Step(cfg, targets, s, e))
  {
    match e
    case AddMessage(payload, now) =>
      var news := NewJobs(targets, payload);
      CountAppend(s.queue, news);
      CountAppend(s.created, news);
    case Cycle(now) =>
      var n := BulkSize(cfg, s.queue);
      var bulk := s.queue[..n];
      assert s.queue == bulk + s.queue[n..];
      CountAppend(bulk, s.queue[n..]);
      CountReady(cfg, bulk, now);
      CountAppend(s.queue[n..], ReadyOf(cfg, bulk, now, false));
      CountAppend(s.flying, ReadyOf(cfg, bulk, now, true));
    case Finish(i, ok, now) =>
      if i < |s.flying| {
        FinishConserves(cfg, targets, s, i, ok, now);
      }
  }

  /** In every run each created status is in exactly one place: queued, in flight, delivered or dropped. */
  lemma {:induction false} StatusesConserved(cfg: Config, targets: seq<Target>, clock: int, es: seq<Event>)
    ensures Conserved(Run(cfg, targets, Initial(clock), es))
    decreases |es|
  {
    if es != [] {
      var front := es[..|es| - 1];
      StatusesConserved(cfg, targets, clock, front);
      StepConserves(cfg, targets, Run(cfg, targets, Initial(clock), front), es[|es| - 1]);
    }
  }

  // ---- The number of tries is bounded ----

  function TriesOf(cfg: Config): (weight: Job -> nat) {
    (j: Job) => |Remaining(cfg, j.status)|
  }

  function TriesLeft(cfg: Config, js: seq<Job>): (n: nat) {
    Lists.Sum(js, TriesOf(cfg))
  }

  lemma TriesLeftPush(cfg: Config, js: seq<Job>, j: Job)
    ensures TriesLeft(cfg, js + [j]) == TriesLeft(cfg, js) + |Remaining(cfg, j.status)|
  {
    Lists.SumPush(js, j, TriesOf(cfg));
  }

  lemma TriesLeftAppend(cfg: Config, a: seq<Job>, b: seq<Job>)
    ensures TriesLeft(cfg, a + b) == TriesLeft(cfg, a) + TriesLeft(cfg, b)
  {
    Lists.SumConcat(a, b, TriesOf(cfg));
  }

  lemma TriesLeftRemove(cfg: Config, js: seq<Job>, i: nat)
    requires i < |js|
    ensures TriesLeft(cfg, js) == TriesLeft(cfg, RemoveAt(js, i)) + |Remaining(cfg, js[i].status)|
  {
    Lists.SumInsert(js[..i], js[i], js[i + 1..], TriesOf(cfg));
    assert js == js[..i] + ([js[i]] + js[i + 1..]);
  }

  lemma {:induction false} TriesLeftReady(cfg: Config, js: seq<Job>, now: int)
    ensures TriesLeft(cfg, js)
            == TriesLeft(cfg, ReadyOf(cfg, js, now, true)) + TriesLeft(cfg, ReadyOf(cfg, js, now, false))
  {
    if js != [] {
      var front, last := js[..|js| - 1], js[|js| - 1];
      TriesLeftReady(cfg, front, now);
      TriesLeftPush(cfg, ReadyOf(cfg, front, now, Ready(cfg, last.status, now)), last);
    }
  }

  /** Tries made and tries left never exceed what was planned at creation. */
  ghost predicate WithinBudget(cfg: Config, s: State) {
    s.tries + TriesLeft(cfg, s.queue) + TriesLeft(cfg, s.flying) <= TriesLeft(cfg, s.created)
  }

  lemma FinishWithinBudget(cfg: Config, targets: seq<Target>, s: State, i: nat, ok: bool, now: int)
    requires WithinBudget(cfg, s) && i < |s.flying|
    ensures WithinBudget(cfg, Step(cfg, targets, s, Finish(i, ok, now)))
  {
    var job := Logged(s.flying[i], ok, now);
    TriesLeftRemove(cfg, s.flying, i);
    FailureAdvances(cfg, job.status, now);
    var v := AfterFailure(cfg, job.status, now);
    if v.Again? {
      TriesLeftPush(cfg, s.queue, job.(status := v.status));
    }
  }

  lemma StepWithinBudget(cfg: Config, targets: seq<Target>, s: State, e: Event)
    requires WithinBudget(cfg, s)
    ensures WithinBudget(cfg, Step(cfg, targets, s, e))
  {
    match e
    case AddMessage(payload, now) =>
      var news := NewJobs(targets, payload);
      TriesLeftAppend(cfg, s.queue, news);
      TriesLeftAppend(cfg, s.created, news);
    case Cycle(now) =>
      var n := BulkSize(cfg, s.queue);
      var bulk := s.queue[..n];
      assert s.queue == bulk + s.queue[n..];
      TriesLeftAppend(cfg, bulk, s.queue[n..]);
      TriesLeftReady(cfg, bulk, now);
      TriesLeftAppend(cfg, s.queue[n..], ReadyOf(cfg, bulk, now, false));
      TriesLeftAppend(cfg, s.flying, ReadyOf(cfg, bulk, now, true));
    case Finish(i, ok, now) =>
      if i < |s.flying| {
        FinishWithinBudget(cfg, targets, s, i, ok, now);
      }
  }

  /** Whatever fails and in whatever order, the tries made in a run are bounded by the plans of what was added. */
  lemma {:induction false} TriesBounded(cfg: Config, targets: seq<Target>, clock: int, es: seq<Event>)
    ensures var s := Run(cfg, targets, Initial(clock), es);
            WithinBudget(cfg, s) && s.tries <= TriesLeft(cfg, s.created)
    decreases |es|
  {
    if es != [] {
      var front := es[..|es| - 1];
      TriesBounded(cfg, targets, clock, front);
      StepWithinBudget(cfg, targets, Run(cfg, targets, Initial(clock), front), es[|es| - 1]);
    }
  }

  // ---- Spacing and parallelism ----

  /** The status was queued again for the target it just failed on, as opposed to a fresh target. */
  ghost predicate Retrying(j: Job) {
    && j.tried != [] && j.ended != []
    && j.status.sendTries > if |j.status.fallbackQueue| < |j.primary.fallbacks| then 0 else 1
  }

  ghost predicate Timed(j: Job) {
    && |j.status.fallbackQueue| <= |j.primary.fallbacks|
    && |j.tried| == |j.ended|
    && (Retrying(j) ==> j.status.sendTime == j.ended[|j.ended| - 1] && j.tried[|j.tried| - 1] == j.status.target)
  }

  ghost predicate TimedInv(s: State) {
    && (forall j | j in s.queue :: Timed(j) && (j.ended != [] ==> j.ended[|j.ended| - 1] <= s.clock))
    && (forall j | j in s.flying :: Timed(j))
  }

  function TimeOf(e: Event): (t: int) {
    e.now
  }

  lemma StepKeepsTimed(cfg: Config, targets: seq<Target>, s: State, e: Event)
    requires TimedInv(s) && s.clock <= TimeOf(e)
    ensures TimedInv(Step(cfg, targets, s, e))
  {
    match e
    case AddMessage(payload, now) =>
    case Cycle(now) =>
      var bulk := s.queue[..BulkSize(cfg, s.queue)];
      ReadyOfSubset(cfg, bulk, now, false);
      ReadyOfSubset(cfg, bulk, now, true);
    case Finish(i, ok, now) =>
      if i < |s.flying| {
        assert s.flying[i] in s.flying;
        FinishTimed(cfg, s.flying[i], ok, now);
      }
  }

  lemma FinishTimed(cfg: Config, j: Job, ok: bool, now: int)
    requires Timed(j)
    ensures var job := Logged(j, ok, now);
            && job.ended[|job.ended| - 1] == now
            && (var v := AfterFailure(cfg, job.status, now); v.Again? ==> Timed(job.(status := v.status)))
  {
  }

  ghost predicate Monotone(clock: int, es: seq<Event>) {
    && (forall i | 0 <= i < |es| :: clock <= TimeOf(es[i]))
    && (forall i, k | 0 <= i < k < |es| :: TimeOf(es[i]) <= TimeOf(es[k]))
  }

  lemma {:induction false} RunTimed(cfg: Config, targets: seq<Target>, clock: int, es: seq<Event>)
    requires Monotone(clock, es)
    ensures var s := Run(cfg, targets, Initial(clock), es);
            TimedInv(s) && s.clock == if es == [] then clock else TimeOf(es[|es| - 1])
    decreases |es|
  {
    if es != [] {
      var front := es[..|es| - 1];
      RunTimed(cfg, targets, clock, front);
      StepKeepsTimed(cfg, targets, Run(cfg, targets, Initial(clock), front), es[|es| - 1]);
    }
  }

  /** With a monotone clock and retries on, a cycle starts no retry of a target before the retry interval has
      passed since that target's last failure, and starts at most `maxParallelWorkers` sends. */
  lemma {:induction false} RetriesSpaced(
      cfg: Config, targets: seq<Target>, clock: int, es: seq<Event>, now: int, j: Job)
    requires Monotone(clock, es + [Cycle(now)]) && cfg.enableRetry
    requires var s := Run(cfg, targets, Initial(clock), es);
             j in ReadyOf(cfg, s.queue[..BulkSize(cfg, s.queue)], now, true)
    ensures Retrying(j) ==>
              && j.tried[|j.tried| - 1] == j.status.target
              && now - j.ended[|j.ended| - 1] >= cfg.retryInterval
    ensures var s := Run(cfg, targets, Initial(clock), es);
            |s.flying| <= |Step(cfg, targets, s, Cycle(now)).flying| <= |s.flying| + cfg.maxParallelWorkers
  {
    var s := Run(cfg, targets, Initial(clock), es);
    var all := es + [Cycle(now)];
    assert forall i | 0 <= i < |es| :: all[i] == es[i];
    assert all[|es|] == Cycle(now);
    RunTimed(cfg, targets, clock, es);
    var bulk := s.queue[..BulkSize(cfg, s.queue)];
    ReadyOfSubset(cfg, bulk, now, true);
    ReadyOfSize(cfg, bulk, now, true);
    assert s.clock <= now by {
      if es != [] {
        assert TimeOf(all[|es| - 1]) <= TimeOf(all[|es|]);
      }
    }
    assert j in s.queue;
  }

  lemma {:induction false} ReadyOfSize(cfg: Config, js: seq<Job>, now: int, ready: bool)
    ensures |ReadyOf(cfg, js, now, ready)| <= |js|
  {
    if js != [] {
      ReadyOfSize(cfg, js[..|js| - 1], now, ready);
    }
  }

  /** Queued statuses were not stamped in the future; those in flight were stamped an interval ago or more. */
  ghost predicate Stamped(cfg: Config, s: State) {
    && 0 <= s.clock
    && (forall j | j in s.queue :: j.status.sendTime <= s.clock)
    && (forall j | j in s.flying :: j.status.sendTime <= s.clock)
    && (forall j | j in s.flying :: s.clock - j.status.sendTime >= cfg.retryInterval)
  }

  lemma StepKeepsStamps(cfg: Config, targets: seq<Target>, s: State, e: Event)
    requires cfg.enableRetry && Stamped(cfg, s) && s.clock <= TimeOf(e)
    ensures Stamped(cfg, Step(cfg, targets, s, e))
  {
    match e
    case AddMessage(payload, now) =>
    case Cycle(now) =>
      var bulk := s.queue[..BulkSize(cfg, s.queue)];
      ReadyOfSubset(cfg, bulk, now, false);
      ReadyOfSubset(cfg, bulk, now, true);
    case Finish(i, ok, now) =>
      if i < |s.flying| {
        assert s.flying[i] in s.flying;
      }
  }

  lemma {:induction false} RunStamped(cfg: Config, targets: seq<Target>, clock: int, es: seq<Event>)
    requires cfg.enableRetry && 0 <= clock && Monotone(clock, es)
    ensures Stamped(cfg, Run(cfg, targets, Initial(clock), es))
    decreases |es|
  {
    if es != [] {
      var front := es[..|es| - 1];
      RunStamped(cfg, targets, clock, front);
      RunTimed(cfg, targets, clock, front);
      StepKeepsStamps(cfg, targets, Run(cfg, targets, Initial(clock), front), es[|es| - 1]);
    }
  }

  /** Exactly when a status that failed in a run may be tried again: at once if the failure used up the retries of
      its target, so that a fallback comes next; else not before the retry interval has passed. */
  lemma {:induction false} HeldBackIff(
      cfg: Config, targets: seq<Target>, clock: int, es: seq<Event>, i: nat, now: int, later: int)
    requires cfg.enableRetry && 0 <= clock && Monotone(clock, es)
    requires var s := Run(cfg, targets, Initial(clock), es);
             && i < |s.flying| && s.clock <= now <= later
             && AfterFailure(cfg, s.flying[i].status, now).Again?
    ensures var status := Run(cfg, targets, Initial(clock), es).flying[i].status;
            Ready(cfg, AfterFailure(cfg, status, now).status, later)
            <==> status.sendTries >= cfg.maxRetries || later - now >= cfg.retryInterval
  {
    RunStamped(cfg, targets, clock, es);
    var s := Run(cfg, targets, Initial(clock), es);
    assert s.flying[i] in s.flying;
  }

  /** The first try of a fallback is not spaced: the switch leaves the send time alone. Here the fallback goes
      out in the same second in which the target failed. */
  lemma FallbackNotSpaced()
    ensures var cfg := Config(true, 4, 1, 10);
            var fallback := Target(2, []);
            var target := Target(1, [fallback]);
            var es := [AddMessage(7, 100), Cycle(100), Finish(0, false, 100), Cycle(100)];
            var s := Run(cfg, [target], Initial(100), es);
            && |s.flying| == 1 && s.flying[0].status.target == fallback
            && s.flying[0].ended == [100] && s.clock == 100
  {
    var cfg := Config(true, 4, 1, 10);
    var fallback := Target(2, []);
    var target := Target(1, [fallback]);
    var targets := [target];
    var e1, e2, e3, e4 := AddMessage(7, 100), Cycle(100), Finish(0, false, 100), Cycle(100);
    var job := NewJob(target, 7);
    var s0 := Initial(100);
    var s1 := Step(cfg, targets, s0, e1);
    assert NewJobs(targets, 7) == [job];
    assert s1.queue == [job];
    ReadyOne(cfg, job, 100);
    var s2 := Step(cfg, targets, s1, e2);
    assert s1.queue[..1] == [job] && s1.queue[1..] == [];
    assert s2.flying == [job] && s2.queue == [];
    var s3 := Step(cfg, targets, s2, e3);
    var again := s3.queue[0];
    assert s3.queue == [again] && s3.flying == [];
    ReadyOne(cfg, again, 100);
    var s4 := Step(cfg, targets, s3, e4);
    assert s3.queue[..1] == [again] && s3.queue[1..] == [];
    assert s4.flying == [again];
    RunFour(cfg, targets, s0, e1, e2, e3, e4);
  }

  lemma {:induction false} ReadyOne(cfg: Config, j: Job, now: int)
    ensures ReadyOf(cfg, [j], now, true) == if Ready(cfg, j.status, now) then [j] else []
    ensures ReadyOf(cfg, [j], now, false) == if Ready(cfg, j.status, now) then [] else [j]
  {
    assert [j][..0] == [];
  }

  lemma {:induction false} RunFour(cfg: Config, targets: seq<Target>, s: State, a: Event, b: Event, c: Event, d: Event)
    ensures Run(cfg, targets, s, [a, b, c, d])
            == Step(cfg, targets, Step(cfg, targets, Step(cfg, targets, Step(cfg, targets, s, a), b), c), d)
  {
    assert [a, b, c, d][..3] == [a, b, c];
    assert [a, b, c][..2] == [a, b];
    assert [a, b][..1] == [a];
    assert [a][..0] == [];
    assert Run(cfg, targets, s, [a]) == Step(cfg, targets, s, a);
    assert Run(cfg, targets, s, [a, b]) == Step(cfg, targets, Step(cfg, targets, s, a), b);
    assert Run(cfg, targets, s, [a, b, c]) == Step(cfg, targets, Run(cfg, targets, s, [a, b]), c);
  }

  lemma {:induction false} ReadyOfPush(cfg: Config, js: seq<Job>, i: nat, now: int)
    requires i < |js|
    ensures var ready := Ready(cfg, js[i].status, now);
            && ReadyOf(cfg, js[..i + 1], now, ready) == ReadyOf(cfg, js[..i], now, ready) + [js[i]]
            && ReadyOf(cfg, js[..i + 1], now, !ready) == ReadyOf(cfg, js[..i], now, !ready)
  {
    assert js[..i + 1][..i] == js[..i];
  }

  // ---- The notifier object ----

  class Notifier {
    const config: Config
    const targets: seq<Target>
    var sendQueue: seq<Job>
    var flying: seq<Job>
    var delivered: seq<Job>
    var dropped: seq<Job>
    ghost var created: seq<Job>
    ghost var tries: nat
    ghost var clock: int

    ghost function Now(): (s: State)
      reads this
    {
      State(sendQueue, flying, delivered, dropped, created, tries, clock)
    }

    constructor (config: Config, targets: seq<Target>, ghost clock: int)
      ensures this.config == config && this.targets == targets && Now() == Initial(clock)
    {
      this.config, this.targets := config, targets;
      sendQueue, flying, delivered, dropped := [], [], [], [];
      created, tries, this.clock := [], 0, clock;
    }

    /** The fallback queue is filled from the target's own fallbacks. */
    static method MakeStatus(target: Target, payload: nat, sendTime: int, tries: int) returns (s: SendStatus)
      ensures s == SendStatus(target, payload, sendTime, tries, target.fallbacks)
    {
      var fallbackQueue := [];
      for i := 0 to |target.fallbacks|
        invariant fallbackQueue == target.fallbacks[..i]
      {
        fallbackQueue := fallbackQueue + [target.fallbacks[i]];
      }
      s := SendStatus(target, payload, sendTime, tries, fallbackQueue);
    }

    method AddMessage(payload: nat, ghost now: int)
      modifies this
      ensures Now() == Step(config, targets, old(Now()), Event.AddMessage(payload, now))
    {
      ghost var before, news := Now(), NewJobs(targets, payload);
      for i := 0 to |targets|
        invariant Now() == before.(queue := before.queue + news[..i], created := before.created + news[..i])
      {
        var status := MakeStatus(targets[i], payload, 0, 1);
        var job := Job(status, targets[i], [], [], []);
        assert news[..i + 1] == news[..i] + [job];
        sendQueue := sendQueue + [job];
        created := created + [job];
      }
      clock := now;
    }

    /** One round of `handleMessageQueue`. */
    method HandleMessageQueueOnce(now: int)
      modifies this`sendQueue, this`flying, this`clock
      ensures Now() == Step(config, targets, old(Now()), Cycle(now))
    {
      var extract := |sendQueue|;
      if extract > config.maxParallelWorkers {
        extract := config.maxParallelWorkers;
      }
      var bulk := sendQueue[..extract];
      sendQueue := sendQueue[extract..];
      ghost var rest, flown := sendQueue, flying;
      for i := 0 to |bulk|
        invariant sendQueue == rest + ReadyOf(config, bulk[..i], now, false)
        invariant flying == flown + ReadyOf(config, bulk[..i], now, true)
      {
        ReadyOfPush(config, bulk, i, now);
        if !Ready(config, bulk[i].status, now) {
          sendQueue := sendQueue + [bulk[i]];
        } else {
          flying := flying + [bulk[i]];
        }
      }
      assert bulk[..|bulk|] == bulk;
      clock := now;
    }

    /** A sender thread ends: its target accepted the message or not. */
    method SenderFinished(index: nat, ok: bool, now: int)
      requires index < |flying|
      modifies this
      ensures Now() == Step(config, targets, old(Now()), Finish(index, ok, now))
    {
      var job := Logged(flying[index], ok, now);
      flying := RemoveAt(flying, index);
      var status := job.status;
      if config.enableRetry && !ok {
        if status.sendTries < config.maxRetries {
          status := status.(sendTries := status.sendTries + 1, sendTime := now);
          sendQueue := sendQueue + [job.(status := status)];
        } else if status.fallbackQueue == [] {
          dropped := dropped + [job];
        } else {
          status := status.(target := status.fallbackQueue[0]);
          status := status.(fallbackQueue := status.fallbackQueue[1..], sendTries := 0);
          sendQueue := sendQueue + [job.(status := status)];
        }
      } else if ok {
        delivered := delivered + [job];
      } else {
        dropped := dropped + [job];
      }
      tries, clock := tries + 1, now;
    }
  }
}
