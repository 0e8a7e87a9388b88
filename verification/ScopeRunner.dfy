/** The lock-free shared lock that lets handlers be cancelled. Threads step one atomic operation at a time, and a weak
    compare-and-exchange may fail for no reason. */
module ScopeRunner {

  /** Where a thread is. `expected` is its local copy of the count. */
  datatype Pc =
    | Idle
    | Locking(expected: int)
    | Holding
    | Refused
    | Stopping
    | Stopped

  datatype State = State(count: int, threads: seq<Pc>)

  datatype Event =
    // continueLock: the load, then one round of the loop
    | BeginLock(thread: nat)
    | TryLock(thread: nat, spurious: bool)
    // the lock's destructor
    | Release(thread: nat)
    // stop: one round of the loop
    | BeginStop(thread: nat)
    | TryStop(thread: nat, spurious: bool)
    // the thread goes on to its next call
    | Leave(thread: nat)

  function Initial(n: nat): (s: State) {
    State(0, seq(n, _ => Idle))
  }

  function At(s: State, i: nat, pc: Pc): (t: State)
    requires i < |s.threads|
  {
    s.(threads := s.threads[i := pc])
  }

  /** A step that the thread is not at does nothing. */
  function Step(s: State, e: Event): (t: State)
    ensures |t.threads| == |s.threads|
  {
    var i := e.thread;
    if i >= |s.threads| then s
    else
      match (e, s.threads[i])
      case (BeginLock(_), Idle) => At(s, i, Locking(s.count))
      case (TryLock(_, spurious), Locking(expected)) =>
        if expected < 0 then At(s, i, Refused)
        else if !spurious && s.count == expected then At(s, i, Holding).(count := expected + 1)
        else At(s, i, Locking(s.count))
      case (Release(_), Holding) => At(s, i, Idle).(count := s.count - 1)
      case (BeginStop(_), Idle) => At(s, i, Stopping)
      case (TryStop(_, spurious), Stopping) =>
        if !spurious && s.count == 0 then At(s, i, Stopped).(count := -1)
        else if s.count < 0 then At(s, i, Stopped)
        else s
      case (Leave(_), Refused) => At(s, i, Idle)
      case (Leave(_), Stopped) => At(s, i, Idle)
      case _ => s
  }

  function Run(s: State, es: seq<Event>): (t: State)
    ensures |t.threads| == |s.threads|
    decreases |es|
  {
    if es == [] then s else Step(Run(s, es[..|es| - 1]), es[|es| - 1])
  }

  /** Number of live locks. */
  function Holders(threads: seq<Pc>): (n: nat) {
    if threads == [] then 0 else Holders(threads[..|threads| - 1]) + if threads[|threads| - 1].Holding? then 1 else 0
  }

  lemma {:induction false} HoldersUpdate(threads: seq<Pc>, i: nat, pc: Pc)
    requires i < |threads|
    ensures Holders(threads[i := pc])
            == Holders(threads) - (if threads[i].Holding? then 1 else 0) + (if pc.Holding? then 1 else 0)
    decreases |threads|
  {
    var n := |threads| - 1;
    if i < n {
      HoldersUpdate(threads[..n], i, pc);
      assert threads[i := pc][..n] == threads[..n][i := pc];
    } else {
      assert threads[i := pc][..n] == threads[..n];
    }
  }

  lemma {:induction false} HoldersPositive(threads: seq<Pc>, i: nat)
    requires i < |threads| && threads[i].Holding?
    ensures Holders(threads) > 0
  {
    var n := |threads| - 1;
    if i < n {
      HoldersPositive(threads[..n], i);
    }
  }

  /** The thread has returned from `stop`, was refused a lock, or is about to be. */
  predicate SawStop(pc: Pc) {
    pc.Stopped? || pc.Refused? || (pc.Locking? && pc.expected < 0)
  }

  /** The count is the number of live locks, or -1 with none; a thread has returned from `stop` or was refused a lock
      only if it is -1. */
  ghost predicate Inv(s: State) {
    && (s.count == Holders(s.threads) || (s.count == -1 && Holders(s.threads) == 0))
    && (forall i | 0 <= i < |s.threads| && SawStop(s.threads[i]) :: s.count == -1)
  }

  lemma StepKeepsInv(s: State, e: Event)
    requires Inv(s)
    ensures Inv(Step(s, e))
    ensures s.count == -1 ==> Step(s, e).count == -1
  {
    var i := e.thread;
    if i < |s.threads| {
      var t := Step(s, e);
      HoldersUpdate(s.threads, i, t.threads[i]);
      assert s.threads[i := s.threads[i]] == s.threads;
      if s.threads[i].Holding? {
        HoldersPositive(s.threads, i);
      }
    }
  }

  lemma {:induction false} InitialHolders(n: nat)
    ensures Holders(Initial(n).threads) == 0
  {
    if n > 0 {
      InitialHolders(n - 1);
      assert Initial(n).threads[..n - 1] == Initial(n - 1).threads;
    }
  }

  lemma {:induction false} RunKeepsInv(s: State, es: seq<Event>)
    requires Inv(s)
    ensures Inv(Run(s, es)) && (s.count == -1 ==> Run(s, es).count == -1)
    decreases |es|
  {
    if es != [] {
      RunKeepsInv(s, es[..|es| - 1]);
      StepKeepsInv(Run(s, es[..|es| - 1]), es[|es| - 1]);
    }
  }

  lemma {:induction false} NoHolder(threads: seq<Pc>, i: nat)
    requires Holders(threads) == 0 && i < |threads|
    ensures !threads[i].Holding?
  {
    if threads[i].Holding? {
      HoldersPositive(threads, i);
    }
  }

  /** For any number of threads and any interleaving: once some call of `stop` has returned, no lock is live, and
      none is ever granted again, whatever the threads do, further calls of `stop` included. */
  lemma {:induction false} StoppedForGood(n: nat, before: seq<Event>, after: seq<Event>, i: nat, j: nat)
    requires i < |Run(Initial(n), before).threads| && Run(Initial(n), before).threads[i].Stopped?
    requires j < |Run(Run(Initial(n), before), after).threads|
    ensures var s := Run(Initial(n), before); var t := Run(s, after);
            s.count == -1 && Holders(s.threads) == 0 && t.count == -1 && !t.threads[j].Holding?
  {
    InitialHolders(n);
    var s := Run(Initial(n), before);
    RunKeepsInv(Initial(n), before);
    RunKeepsInv(s, after);
    NoHolder(Run(s, after).threads, j);
  }

  // ---- The lock is granted, given back and stopped ----

  lemma {:induction false} RunTwo(s: State, a: Event, b: Event)
    ensures Run(s, [a, b]) == Step(Step(s, a), b)
  {
    assert [a, b][..1] == [a] && [a][..0] == [];
    assert Run(s, [a]) == Step(s, a);
  }

  lemma {:induction false} Reachable(n: nat, es: seq<Event>)
    ensures Inv(Run(Initial(n), es))
  {
    InitialHolders(n);
    RunKeepsInv(Initial(n), es);
  }

  /** In every reachable state, a thread was refused only if the runner is stopped. */
  lemma {:induction false} RefusedOnlyWhenStopped(n: nat, es: seq<Event>, i: nat)
    requires i < n
    ensures Run(Initial(n), es).threads[i].Refused? ==> Run(Initial(n), es).count == -1
  {
    Reachable(n, es);
  }

  /** From any reachable state that is not stopped: a thread that asks for a lock and is then left alone for one round
      that does not fail spuriously holds it; so does one that is already trying, after two; and giving it back makes
      the thread idle and leaves the count as it was. */
  lemma {:induction false} LockGranted(n: nat, es: seq<Event>, i: nat)
    requires i < n && Run(Initial(n), es).count >= 0
    ensures var s := Run(Initial(n), es);
            s.threads[i].Idle? ==>
              && Run(s, [BeginLock(i), TryLock(i, false)]) == At(s, i, Holding).(count := s.count + 1)
              && Step(At(s, i, Holding).(count := s.count + 1), Release(i)) == s
    ensures var s := Run(Initial(n), es);
            s.threads[i].Locking? ==>
              Holding == (if s.count == s.threads[i].expected then Step(s, TryLock(i, false))
                          else Run(s, [TryLock(i, false), TryLock(i, false)])).threads[i]
  {
    Reachable(n, es);
    var s := Run(Initial(n), es);
    if s.threads[i].Idle? {
      RunTwo(s, BeginLock(i), TryLock(i, false));
      assert s.threads[i := Locking(s.count)][i := Holding] == s.threads[i := Holding];
      assert s.threads[i := Holding][i := Idle] == s.threads;
    } else if s.threads[i].Locking? {
      RunTwo(s, TryLock(i, false), TryLock(i, false));
    }
  }

  /** In every reachable state: a thread in `stop` returns in one round that does not fail spuriously if no lock is
      live, and the runner is stopped then; while a lock is live it waits. */
  lemma {:induction false} StopReturnsIff(n: nat, es: seq<Event>, i: nat)
    requires i < n
    ensures var s := Run(Initial(n), es); var t := Step(s, TryStop(i, false));
            s.threads[i].Stopping? ==>
              && (t.threads[i].Stopped? <==> Holders(s.threads) == 0)
              && (t.threads[i].Stopped? ==> t.count == -1)
              && (!t.threads[i].Stopped? ==> t == s)
    ensures var s := Run(Initial(n), es);
            s.threads[i].Idle? && Holders(s.threads) == 0 ==>
              Run(s, [BeginStop(i), TryStop(i, false)]) == At(s, i, Stopped).(count := -1)
  {
    Reachable(n, es);
    var s := Run(Initial(n), es);
    RunTwo(s, BeginStop(i), TryStop(i, false));
    if s.threads[i].Idle? {
      assert s.threads[i := Stopping][i := Stopped] == s.threads[i := Stopped];
    }
  }

  // ---- What it implements ----

  /** A shared lock that can be closed when nobody holds it. */
  datatype Lock = Open(holders: set<nat>) | Closed

  function Abstract(s: State): (l: Lock) {
    if s.count < 0 then Closed else Open(set i | 0 <= i < |s.threads| && s.threads[i].Holding?)
  }

  datatype Action = Nothing | Acquire(holder: nat) | Return(holder: nat) | Close

  ghost predicate Allowed(l: Lock, a: Action, m: Lock) {
    match a
    case Nothing => m == l
    case Acquire(i) => l.Open? && i !in l.holders && m == Open(l.holders + {i})
    case Return(i) => l.Open? && i in l.holders && m == Open(l.holders - {i})
    case Close => l == Open({}) && m == Closed
  }

  function ActionOf(s: State, e: Event): (a: Action) {
    var t := Step(s, e);
    var i := e.thread;
    if i >= |s.threads| then Nothing
    else if !s.threads[i].Holding? && t.threads[i].Holding? then Acquire(i)
    else if s.threads[i].Holding? && !t.threads[i].Holding? then Return(i)
    else if s.count >= 0 && t.count < 0 then Close
    else Nothing
  }

  lemma OthersStay(s: State, e: Event)
    ensures forall k | 0 <= k < |s.threads| && k != e.thread :: Step(s, e).threads[k] == s.threads[k]
  {
  }

  /** Every atomic step is a step of that lock, or none. */
  lemma StepRefines(s: State, e: Event)
    requires Inv(s)
    ensures Allowed(Abstract(s), ActionOf(s, e), Abstract(Step(s, e)))
  {
    StepKeepsInv(s, e);
    OthersStay(s, e);
    var t, i := Step(s, e), e.thread;
    forall k | 0 <= k < |s.threads| && s.count <= 0 ensures !s.threads[k].Holding? {
      NoHolder(s.threads, k);
    }
    if i < |s.threads| && s.threads[i].Holding? {
      HoldersPositive(s.threads, i);
    }
    if s.count >= 0 && t.count >= 0 {
      var before, after := Abstract(s).holders, Abstract(t).holders;
      assert i < |s.threads| ==> after == (before - {i}) + if t.threads[i].Holding? then {i} else {};
      assert i >= |s.threads| ==> after == before;
    }
  }
}
