/** Registered connections by user and unique id, and the ping/pong table that the watchdog sweeps. */
module ConnectionStorage {
  import opened Common

  /** A connection; its unique id comes from its endpoint, its user id is set when it is added. */
  datatype Connection = Connection(number: nat, uniqueId: ConnId)

  /** What the two-level map holds for a user and a unique id. */
  datatype Link = Missing | Null | Held(connection: Connection)

  datatype PongMark = PongMark(user: UserId, received: bool)

  /** The two-level map: which users have an inner map, and all inner entries. */
  datatype IdMap = IdMap(users: set<UserId>, entries: map<(UserId, ConnId), Link>)

  datatype State = State(
    idMap: IdMap,
    waitForPong: map<ConnId, PongMark>,
    // the user id of each connection that was ever added
    ids: map<Connection, UserId>,
    // entries whose connection a sweep told to close
    closing: set<(UserId, ConnId)>)

  const INITIAL := State(IdMap({}, map[]), map[], map[], {})

  function At(m: IdMap, u: UserId, c: ConnId): (l: Link) {
    if (u, c) in m.entries then m.entries[(u, c)] else Missing
  }

  function IdOf(s: State, k: Connection): (u: UserId) {
    if k in s.ids then s.ids[k] else 0
  }

  function Put(m: IdMap, u: UserId, c: ConnId, l: Link): (r: IdMap) {
    IdMap(m.users + {u}, m.entries[(u, c) := l])
  }

  function Erase(m: IdMap, u: UserId, c: ConnId): (r: IdMap) {
    m.(entries := m.entries - {(u, c)})
  }

  /** No stored pointer is null. */
  ghost predicate NoNull(m: IdMap) {
    forall x | x in m.entries :: m.entries[x].Held?
  }

  // ---- Operations ----

  function Add(s: State, u: UserId, k: Connection): (t: State) {
    s.(ids := s.ids[k := u], idMap := Put(s.idMap, u, k.uniqueId, Held(k)))
  }

  function Remove(s: State, u: UserId, c: ConnId): (t: State) {
    s.(idMap := Erase(s.idMap, u, c))
  }

  /** Also creates an inner map for the user. */
  function RemoveConnection(s: State, k: Connection): (t: State) {
    var u := IdOf(s, k);
    s.(idMap := Erase(s.idMap, u, k.uniqueId).(users := s.idMap.users + {u}))
  }

  function MarkPongWait(s: State, k: Connection): (t: State) {
    s.(waitForPong := s.waitForPong[k.uniqueId := PongMark(IdOf(s, k), false)])
  }

  /** A mark that is not there yet is created for user 0. */
  function MarkPongReceived(s: State, k: Connection): (t: State) {
    var user := if k.uniqueId in s.waitForPong then s.waitForPong[k.uniqueId].user else 0;
    s.(waitForPong := s.waitForPong[k.uniqueId := PongMark(user, true)])
  }

  /** Ids marked as waiting and not answered. */
  function Unanswered(w: map<ConnId, PongMark>): (r: set<ConnId>) {
    set c | c in w && !w[c].received
  }

  function Marked(w: map<ConnId, PongMark>): (r: set<(UserId, ConnId)>) {
    set c | c in w && !w[c].received :: (w[c].user, c)
  }

  function MarkedUsers(w: map<ConnId, PongMark>): (r: set<UserId>) {
    set c | c in w && !w[c].received :: w[c].user
  }

  /** Entries that are marked and hold a connection. */
  function ToClose(m: IdMap, w: map<ConnId, PongMark>): (r: set<(UserId, ConnId)>) {
    set x | x in Marked(w) && x in m.entries && m.entries[x].Held?
  }

  /** Looking a marked id up creates its user's inner map; a null entry that this creates is erased at once. */
  function Sweep(s: State): (t: State) {
    s.(idMap := s.idMap.(users := s.idMap.users + MarkedUsers(s.waitForPong)), waitForPong := map[],
       closing := s.closing + ToClose(s.idMap, s.waitForPong))
  }

  datatype Event =
    | Adding(user: UserId, connection: Connection)
    | Removing(user: UserId, id: ConnId)
    | RemovingConnection(connection: Connection)
    | PingSent(connection: Connection)
    | PongReceived(connection: Connection)
    | Sweeping

  function Step(s: State, e: Event): (t: State)
    requires NoNull(s.idMap)
    ensures NoNull(t.idMap)
  {
    match e
    case Adding(u, k) => Add(s, u, k)
    case Removing(u, c) => Remove(s, u, c)
    case RemovingConnection(k) => RemoveConnection(s, k)
    case PingSent(k) => MarkPongWait(s, k)
    case PongReceived(k) => MarkPongReceived(s, k)
    case Sweeping => Sweep(s)
  }

  /** In every reachable state no stored pointer is null. */
  function Run(es: seq<Event>): (s: State)
    ensures NoNull(s.idMap)
    decreases |es|
  {
    if es == [] then INITIAL else Step(Run(es[..|es| - 1]), es[|es| - 1])
  }

  // ---- The storage invariant ----

  /** Each entry's keys are its connection's ids. */
  ghost predicate KeysFit(s: State) {
    forall x | x in s.idMap.entries ::
      && s.idMap.entries[x].Held?
      && var k := s.idMap.entries[x].connection; k in s.ids && s.ids[k] == x.0 && k.uniqueId == x.1
  }

  /** Each connection is added once. */
  ghost predicate AddedOnce(es: seq<Event>) {
    forall i, j | 0 <= i < j < |es| && es[i].Adding? && es[j].Adding? :: es[i].connection != es[j].connection
  }

  lemma StepKeepsKeys(s: State, e: Event)
    requires KeysFit(s) && (e.Adding? ==> e.connection !in s.ids)
    ensures NoNull(s.idMap) && KeysFit(Step(s, e))
  {
    assert NoNull(s.idMap);
  }

  lemma {:induction false} IdsAreAdded(es: seq<Event>, k: Connection)
    requires k in Run(es).ids
    ensures exists i | 0 <= i < |es| :: es[i].Adding? && es[i].connection == k
    decreases |es|
  {
    var n := |es| - 1;
    var front := es[..n];
    if k in Run(front).ids {
      IdsAreAdded(front, k);
      var i :| 0 <= i < |front| && front[i].Adding? && front[i].connection == k;
      assert es[i] == front[i];
    } else {
      assert es[n].Adding? && es[n].connection == k;
    }
  }

  lemma AddedIsNew(es: seq<Event>)
    requires AddedOnce(es) && es != [] && es[|es| - 1].Adding?
    ensures es[|es| - 1].connection !in Run(es[..|es| - 1]).ids
  {
    var front, k := es[..|es| - 1], es[|es| - 1].connection;
    assert forall i | 0 <= i < |front| :: front[i] == es[i];
    if k in Run(front).ids {
      IdsAreAdded(front, k);
    }
  }

  /** In every run in which each connection is added once, no entry is null and all keys fit: the branches of
      `verify` and `forEach` that erase while iterating are never taken. */
  lemma {:induction false} StorageValid(es: seq<Event>)
    requires AddedOnce(es)
    ensures KeysFit(Run(es))
    decreases |es|
  {
    if es != [] {
      var n := |es| - 1;
      StorageValid(es[..n]);
      if es[n].Adding? {
        AddedIsNew(es);
      }
      StepKeepsKeys(Run(es[..n]), es[n]);
    }
  }

  /** Removing a registered connection takes out that entry and no other. */
  lemma RemoveIsExact(s: State, k: Connection, u: UserId, c: ConnId)
    requires KeysFit(s) && At(s.idMap, IdOf(s, k), k.uniqueId) == Held(k)
    ensures At(RemoveConnection(s, k).idMap, u, c)
            == if At(s.idMap, u, c) == Held(k) then Missing else At(s.idMap, u, c)
  {
    if (u, c) in s.idMap.entries {
      assert s.idMap.entries[(u, c)].Held?;
    }
  }

  // ---- What is registered ----

  /** The user for whom a connection was added last, 0 if it never was. */
  ghost function LastUser(es: seq<Event>, k: Connection): (u: UserId)
    decreases |es|
  {
    if es == [] then 0
    else
      var before, e := es[..|es| - 1], es[|es| - 1];
      if e.Adding? && e.connection == k then e.user else LastUser(before, k)
  }

  /** What the last event about an entry left: the connection added for it, or nothing. */
  ghost function LastEntry(es: seq<Event>, u: UserId, c: ConnId): (l: Link)
    decreases |es|
  {
    if es == [] then Missing
    else
      var before, e := es[..|es| - 1], es[|es| - 1];
      match e
      case Adding(v, k) => if v == u && k.uniqueId == c then Held(k) else LastEntry(before, u, c)
      case Removing(v, d) => if v == u && d == c then Missing else LastEntry(before, u, c)
      case RemovingConnection(k) =>
        if LastUser(before, k) == u && k.uniqueId == c then Missing else LastEntry(before, u, c)
      case _ => LastEntry(before, u, c)
  }

  lemma {:induction false} IdIsLastUser(es: seq<Event>, k: Connection)
    ensures IdOf(Run(es), k) == LastUser(es, k)
    decreases |es|
  {
    if es != [] {
      IdIsLastUser(es[..|es| - 1], k);
    }
  }

  lemma StepEntry(s: State, e: Event, u: UserId, c: ConnId)
    requires NoNull(s.idMap)
    ensures At(Step(s, e).idMap, u, c)
            == match e
               case Adding(v, k) => if v == u && k.uniqueId == c then Held(k) else At(s.idMap, u, c)
               case Removing(v, d) => if v == u && d == c then Missing else At(s.idMap, u, c)
               case RemovingConnection(k) =>
                 if IdOf(s, k) == u && k.uniqueId == c then Missing else At(s.idMap, u, c)
               case _ => At(s.idMap, u, c)
  {
  }

  /** In every run an entry holds just what the last event about it left. */
  lemma {:induction false} EntriesAreLast(es: seq<Event>, u: UserId, c: ConnId)
    ensures At(Run(es).idMap, u, c) == LastEntry(es, u, c)
    decreases |es|
  {
    if es != [] {
      var before, e := es[..|es| - 1], es[|es| - 1];
      EntriesAreLast(before, u, c);
      StepEntry(Run(before), e, u, c);
      if e.RemovingConnection? {
        IdIsLastUser(before, e.connection);
      }
    }
  }

  // ---- The watchdog ----

  datatype Mark = Nothing | Waiting(user: UserId) | Answered

  /** The last mark of an id since the last sweep. */
  ghost function LastMark(es: seq<Event>, c: ConnId): (m: Mark)
    decreases |es|
  {
    if es == [] then Nothing
    else
      var front, e := es[..|es| - 1], es[|es| - 1];
      match e
      case Sweeping => Nothing
      case PingSent(k) => if k.uniqueId == c then Waiting(IdOf(Run(front), k)) else LastMark(front, c)
      case PongReceived(k) => if k.uniqueId == c then Answered else LastMark(front, c)
      case _ => LastMark(front, c)
  }

  /** The table holds just the last marks since the last sweep. */
  lemma {:induction false} TableIsLastMarks(es: seq<Event>, c: ConnId)
    ensures var w := Run(es).waitForPong;
            match LastMark(es, c)
            case Nothing => c !in w
            case Waiting(u) => c in w && w[c] == PongMark(u, false)
            case Answered => c in w && w[c].received
    decreases |es|
  {
    if es != [] {
      TableIsLastMarks(es[..|es| - 1], c);
    }
  }

  /** A sweep counts just the ids whose last mark since the previous sweep is "wait", and tells a connection to close
      just when it is registered under the user and id of such a mark: never one whose pong was recorded after its
      latest wait mark. It empties the table and leaves every entry as it is. */
  lemma {:induction false} SweepIsExact(es: seq<Event>, u: UserId, c: ConnId)
    ensures var s := Run(es); var t := Run(es + [Sweeping]);
            && (c in Unanswered(s.waitForPong) <==> LastMark(es, c).Waiting?)
            && ((u, c) in ToClose(s.idMap, s.waitForPong)
                <==> LastMark(es, c) == Waiting(u) && At(s.idMap, u, c).Held?)
            && t.closing == s.closing + ToClose(s.idMap, s.waitForPong)
            && t.waitForPong == map[]
            && t.idMap.entries == s.idMap.entries
  {
    assert (es + [Sweeping])[..|es|] == es;
    TableIsLastMarks(es, c);
  }

  /** The order of marks matters, not who answered: a pong that is recorded before the callback of the ping's write
      runs does not save the connection. */
  lemma EarlyPongIsLost(k: Connection)
    ensures (1, k.uniqueId) in Run([Adding(1, k), PongReceived(k), PingSent(k), Sweeping]).closing
  {
    var a, b, c, d := Adding(1, k), PongReceived(k), PingSent(k), Sweeping;
    assert [a, b, c, d][..3] == [a, b, c] && [a, b, c][..2] == [a, b] && [a, b][..1] == [a] && [a][..0] == [];
    var s1 := Run([a]);
    assert Run([]) == INITIAL;
    assert s1 == Step(INITIAL, a);
    var s2 := Run([a, b]);
    assert s2 == Step(s1, b);
    var s3 := Run([a, b, c]);
    assert s3 == Step(s2, c);
    assert s3.idMap == s1.idMap && s3.waitForPong[k.uniqueId] == PongMark(1, false);
    assert (1, k.uniqueId) in Marked(s3.waitForPong) && At(s3.idMap, 1, k.uniqueId) == Held(k);
  }

  // ---- The storage object ----

  class Storage {
    var idMap: IdMap
    var waitForPong: map<ConnId, PongMark>
    var ids: map<Connection, UserId>
    ghost var closing: set<(UserId, ConnId)>

    ghost function Now(): (s: State)
      reads this
    {
      State(idMap, waitForPong, ids, closing)
    }

    constructor ()
      ensures Now() == INITIAL
    {
      idMap, waitForPong, ids, closing := IdMap({}, map[]), map[], map[], {};
    }

    method AddConnection(u: UserId, k: Connection)
      requires NoNull(idMap)
      modifies this
      ensures Now() == Step(old(Now()), Adding(u, k))
    {
      ids := ids[k := u];
      idMap := Put(idMap, u, k.uniqueId, Held(k));
    }

    method RemoveRegistered(k: Connection)
      requires NoNull(idMap)
      modifies this
      ensures Now() == Step(old(Now()), RemovingConnection(k))
    {
      var id := if k in ids then ids[k] else 0;
      if (id, k.uniqueId) in idMap.entries {
        idMap := Erase(idMap, id, k.uniqueId);
      }
      // the size that is logged creates the user's inner map
      idMap := idMap.(users := idMap.users + {id});
    }

    method RemoveById(u: UserId, c: ConnId)
      requires NoNull(idMap)
      modifies this`idMap
      ensures Now() == Step(old(Now()), Removing(u, c))
    {
      if (u, c) in idMap.entries {
        idMap := Erase(idMap, u, c);
      }
    }

    method NotePongWait(k: Connection)
      requires NoNull(idMap)
      modifies this`waitForPong
      ensures Now() == Step(old(Now()), PingSent(k))
    {
      waitForPong := waitForPong[k.uniqueId := PongMark(if k in ids then ids[k] else 0, false)];
    }

    method NotePongReceived(k: Connection)
      requires NoNull(idMap)
      modifies this`waitForPong
      ensures Now() == Step(old(Now()), PongReceived(k))
    {
      // operator[] inserts a mark for user 0
      if k.uniqueId !in waitForPong {
        waitForPong := waitForPong[k.uniqueId := PongMark(0, false)];
      }
      waitForPong := waitForPong[k.uniqueId := waitForPong[k.uniqueId].(received := true)];
    }

    /** Sends a ping to every entry that holds a connection. Null entries are removed; no run leads to one. */
    method Verify() returns (pinged: set<(UserId, ConnId)>)
      modifies this`idMap
      ensures pinged == HeldKeys(old(idMap).entries)
      ensures NoNull(old(idMap)) ==> idMap == old(idMap) && pinged == idMap.entries.Keys
      ensures NoNull(idMap) && idMap.users == old(idMap).users
    {
      var nulls, left;
      pinged, nulls, left := VisitEntries(idMap.entries, idMap.entries.Keys);
      NoNullKeys(idMap, idMap.entries.Keys);
      idMap := idMap.(entries := left);
    }

    /** Calls a handler for each of a user's connections; null entries are reported as missing and removed. */
    method ForEach(u: UserId) returns (handled: set<(UserId, ConnId)>, missing: set<(UserId, ConnId)>)
      modifies this`idMap
      ensures u !in old(idMap).users ==> handled == missing == {}
      ensures u in old(idMap).users ==>
                && handled == KeysOf(old(idMap).entries, u) * HeldKeys(old(idMap).entries)
                && missing == KeysOf(old(idMap).entries, u) - HeldKeys(old(idMap).entries)
      ensures NoNull(old(idMap)) ==> idMap == old(idMap) && missing == {}
    {
      handled, missing := {}, {};
      if u in idMap.users {
        var left;
        handled, missing, left := VisitEntries(idMap.entries, KeysOf(idMap.entries, u));
        NoNullKeys(idMap, KeysOf(idMap.entries, u));
        idMap := idMap.(entries := left);
      }
    }

    /** What the sweep does with one entry of the table. */
    method VisitMark(c: ConnId) returns (unanswered: bool)
      requires c in waitForPong && NoNull(idMap)
      modifies this
      ensures Now() == AfterVisit(old(Now()), c) && NoNull(idMap)
      ensures unanswered == !old(waitForPong)[c].received
    {
      var mark := waitForPong[c];
      unanswered := !mark.received;
      ghost var before := idMap.entries;
      if unanswered {
        // operator[] inserts a null pointer for what is missing
        if (mark.user, c) !in idMap.entries {
          idMap := Put(idMap, mark.user, c, Null);
        } else {
          idMap := idMap.(users := idMap.users + {mark.user});
        }
        if idMap.entries[(mark.user, c)].Held? {
          closing := closing + {(mark.user, c)};
        } else {
          idMap := Erase(idMap, mark.user, c);
        }
        assert idMap.entries == before;
      }
      waitForPong := waitForPong - {c};
    }

    /** Visits the table's entries in no particular order, erasing each. */
    method DisconnectWithoutPong() returns (disconnected: nat)
      requires NoNull(idMap)
      modifies this
      ensures Now() == Step(old(Now()), Sweeping)
      ensures disconnected == |Unanswered(old(waitForPong))|
    {
      disconnected := 0;
      while waitForPong != map[]
        invariant NoNull(idMap)
        invariant Sweep(Now()) == Sweep(old(Now()))
        invariant disconnected + |Unanswered(waitForPong)| == |Unanswered(old(waitForPong))|
        decreases |waitForPong|
      {
        var c :| c in waitForPong;
        VisitSweeps(Now(), c);
        var unanswered := VisitMark(c);
        if unanswered {
          disconnected := disconnected + 1;
        }
      }
      NothingToSweep(Now());
    }
  }

  function HeldKeys(entries: map<(UserId, ConnId), Link>): (r: set<(UserId, ConnId)>) {
    set x | x in entries && entries[x].Held?
  }

  function KeysOf(entries: map<(UserId, ConnId), Link>, u: UserId): (r: set<(UserId, ConnId)>) {
    set x | x in entries && x.0 == u
  }

  /** The loop of `verify` and `forEach`, over some entries in no particular order: a null one is erased. */
  method VisitEntries(entries: map<(UserId, ConnId), Link>, keys: set<(UserId, ConnId)>)
    returns (handled: set<(UserId, ConnId)>, nulls: set<(UserId, ConnId)>, left: map<(UserId, ConnId), Link>)
    requires keys <= entries.Keys
    ensures handled == keys * HeldKeys(entries) && nulls == keys - HeldKeys(entries)
    ensures left == entries - nulls
  {
    handled, nulls, left := {}, {}, entries;
    var todo := keys;
    ghost var held := HeldKeys(entries);
    while todo != {}
      invariant todo <= keys
      invariant handled == (keys - todo) * held && nulls == (keys - todo) - held && left == entries - nulls
      decreases |todo|
    {
      var x :| x in todo;
      if !left[x].Held? {
        nulls := nulls + {x};
        left := left - {x};
      } else {
        handled := handled + {x};
      }
      todo := todo - {x};
    }
  }

  lemma NoNullKeys(m: IdMap, keys: set<(UserId, ConnId)>)
    requires keys <= m.entries.Keys
    ensures NoNull(m) ==> keys - HeldKeys(m.entries) == {} && HeldKeys(m.entries) == m.entries.Keys
    ensures NoNull(m) ==> m.entries - (keys - HeldKeys(m.entries)) == m.entries
  {
  }

  /** The state after one entry of the table was visited and erased. */
  ghost function AfterVisit(s: State, c: ConnId): (t: State)
    requires c in s.waitForPong
  {
    var mark := s.waitForPong[c];
    var t := s.(waitForPong := s.waitForPong - {c});
    if mark.received then t
    else t.(closing := s.closing + (if At(s.idMap, mark.user, c).Held? then {(mark.user, c)} else {}),
            idMap := s.idMap.(users := s.idMap.users + {mark.user}))
  }

  lemma WithoutOne(w: map<ConnId, PongMark>, c: ConnId)
    requires c in w
    ensures var rest := w - {c}; var mark := w[c];
            && |Unanswered(w)| == |Unanswered(rest)| + (if mark.received then 0 else 1)
            && MarkedUsers(w) == MarkedUsers(rest) + (if mark.received then {} else {mark.user})
            && Marked(w) == Marked(rest) + (if mark.received then {} else {(mark.user, c)})
  {
    var rest, mark := w - {c}, w[c];
    assert Unanswered(rest) == Unanswered(w) - {c};
    assert forall d | d in rest :: d in w && rest[d] == w[d];
    var last: set<(UserId, ConnId)> := if mark.received then {} else {(mark.user, c)};
    var lastUser: set<UserId> := if mark.received then {} else {mark.user};
    forall x | x in Marked(w) ensures x in Marked(rest) + last {
      assert x.1 == c || x.1 in rest;
    }
    forall u | u in MarkedUsers(w) ensures u in MarkedUsers(rest) + lastUser {
      var d :| d in w && !w[d].received && w[d].user == u;
      assert d == c || d in rest;
    }
    assert Marked(w) == Marked(rest) + last;
    assert MarkedUsers(w) == MarkedUsers(rest) + lastUser;
  }

  /** One visit leaves the rest of the sweep. */
  lemma VisitSweeps(s: State, c: ConnId)
    requires c in s.waitForPong
    ensures Sweep(AfterVisit(s, c)) == Sweep(s)
    ensures |Unanswered(s.waitForPong)|
            == |Unanswered(s.waitForPong - {c})| + if s.waitForPong[c].received then 0 else 1
  {
    WithoutOne(s.waitForPong, c);
    var t := AfterVisit(s, c);
    assert Sweep(t).idMap.users == Sweep(s).idMap.users;
    assert Sweep(t).closing == Sweep(s).closing;
  }

  lemma NothingToSweep(s: State)
    requires s.waitForPong == map[]
    ensures Sweep(s) == s && Unanswered(s.waitForPong) == {}
  {
    assert MarkedUsers(s.waitForPong) == {} && Marked(s.waitForPong) == {};
    assert ToClose(s.idMap, s.waitForPong) == {};
  }
}
