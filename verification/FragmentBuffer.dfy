/** Messages that arrive in fragments (section 5.4 of RFC 6455): one buffer per user, joined at the final fragment. */
module FragmentBuffer {
  import opened Common

  const CONTINUE: nat := 0x00
  const BEGIN_TEXT: nat := 0x01
  const BEGIN_BINARY: nat := 0x02
  const END: nat := 0x80
  const TEXT: nat := 0x81
  const BINARY: nat := 0x82
  const PONG: nat := 0x8A

  const DEFAULT_LIMIT: nat := 10 * 1024 * 1024

  /** A frame from a connection of a user; its payload is a string of bytes. */
  datatype Frame = Frame(user: UserId, connection: ConnId, opcode: nat, text: string)

  datatype Event = Arrived(frame: Frame) | LimitSet(bytes: nat)

  /** What the server does with a frame before any parsing. */
  datatype Outcome =
    | Buffered
    | Handed(text: string)
    | TooBig
    // a frame with any other opcode leaves an empty payload, which is invalid
    | Invalid
    | Ponged

  /** The buffer, the limit for joined messages and the limit for single frames. */
  datatype State = State(buffer: map<UserId, string>, limit: nat, frameLimit: nat)

  const INITIAL := State(map[], DEFAULT_LIMIT, DEFAULT_LIMIT)

  predicate Begins(opcode: nat) {
    opcode == BEGIN_TEXT || opcode == BEGIN_BINARY
  }

  predicate IsFragment(opcode: nat) {
    Begins(opcode) || opcode == CONTINUE || opcode == END
  }

  function Lookup(b: map<UserId, string>, u: UserId): (s: string) {
    if u in b then b[u] else ""
  }

  function Write(b: map<UserId, string>, u: UserId, input: string, clear: bool): (r: map<UserId, string>) {
    b[u := if clear then input else Lookup(b, u) + input]
  }

  function Receive(s: State, f: Frame): (r: (State, Outcome)) {
    if f.opcode == PONG then (s, Ponged)
    else if f.opcode == TEXT || f.opcode == BINARY then (s, Handed(f.text))
    else if Begins(f.opcode) then (s.(buffer := Write(s.buffer, f.user, f.text, true)), Buffered)
    else if f.opcode == CONTINUE then (s.(buffer := Write(s.buffer, f.user, f.text, false)), Buffered)
    else if f.opcode == END then
      var joined := Lookup(s.buffer, f.user) + f.text;
      (s.(buffer := s.buffer - {f.user}), if |joined| > s.limit then TooBig else Handed(joined))
    else (s, Invalid)
  }

  function Step(s: State, e: Event): (t: State) {
    match e
    case Arrived(f) => Receive(s, f).0
    case LimitSet(n) => s.(limit := n, frameLimit := n)
  }

  function Run(es: seq<Event>): (s: State)
    decreases |es|
  {
    if es == [] then INITIAL else Step(Run(es[..|es| - 1]), es[|es| - 1])
  }

  // ---- Which frames a message is made of ----

  predicate FragmentOf(e: Event, u: UserId) {
    e.Arrived? && e.frame.user == u && IsFragment(e.frame.opcode)
  }

  /** A fragment that starts the user's message afresh: its first one, or the last one of the message before. */
  predicate Boundary(e: Event, u: UserId) {
    FragmentOf(e, u) && e.frame.opcode != CONTINUE
  }

  /** The user's fragments, in order of arrival. */
  function Fragments(es: seq<Event>, u: UserId): (fs: seq<Frame>) {
    if es == [] then []
    else
      var n := |es| - 1;
      Fragments(es[..n], u) + if FragmentOf(es[n], u) then [es[n].frame] else []
  }

  /** Index one past the last frame in `fs` that ends a message, or of the last one that begins a message. */
  function Start(fs: seq<Frame>): (k: nat)
    ensures k <= |fs|
  {
    if fs == [] then 0
    else
      var n := |fs| - 1;
      if Begins(fs[n].opcode) then n else if fs[n].opcode == END then n + 1 else Start(fs[..n])
  }

  /** The user's fragments since its last beginning or end of a message. */
  function Pending(es: seq<Event>, u: UserId): (fs: seq<Frame>) {
    var all := Fragments(es, u);
    all[Start(all)..]
  }

  function Text(fs: seq<Frame>): (s: string) {
    if fs == [] then "" else Text(fs[..|fs| - 1]) + fs[|fs| - 1].text
  }

  /** The limit last set. */
  function Limit(es: seq<Event>): (n: nat) {
    if es == [] then DEFAULT_LIMIT
    else
      var n := |es| - 1;
      if es[n].LimitSet? then es[n].bytes else Limit(es[..n])
  }

  lemma PendingPush(es: seq<Event>, e: Event, u: UserId)
    ensures Pending(es + [e], u)
            == if !FragmentOf(e, u) then Pending(es, u)
               else if Begins(e.frame.opcode) then [e.frame]
               else if e.frame.opcode == END then []
               else Pending(es, u) + [e.frame]
  {
    assert (es + [e])[..|es|] == es;
    var all := Fragments(es, u);
    if FragmentOf(e, u) {
      assert (all + [e.frame])[..|all|] == all;
    } else {
      assert all + [] == all;
    }
  }

  lemma {:induction false} TextPush(fs: seq<Frame>, f: Frame)
    ensures Text(fs + [f]) == Text(fs) + f.text
  {
    assert (fs + [f])[..|fs|] == fs;
  }

  lemma PendingText(es: seq<Event>, e: Event, u: UserId)
    ensures Text(Pending(es + [e], u))
            == if !FragmentOf(e, u) then Text(Pending(es, u))
               else if Begins(e.frame.opcode) then e.frame.text
               else if e.frame.opcode == END then ""
               else Text(Pending(es, u)) + e.frame.text
    ensures Pending(es + [e], u) != []
            <==> if FragmentOf(e, u) then e.frame.opcode != END else Pending(es, u) != []
  {
    PendingPush(es, e, u);
    if FragmentOf(e, u) {
      TextPush(Pending(es, u), e.frame);
      TextPush([], e.frame);
      assert [] + [e.frame] == [e.frame];
    }
  }

  lemma {:induction false} RunPush(es: seq<Event>, e: Event)
    ensures Run(es + [e]) == Step(Run(es), e)
    ensures Limit(es + [e]) == if e.LimitSet? then e.bytes else Limit(es)
  {
    assert (es + [e])[..|es|] == es;
  }

  /** What a step does to one user's buffer. */
  lemma StepAt(s: State, e: Event, u: UserId)
    ensures var t := Step(s, e);
            && Lookup(t.buffer, u) == (if !FragmentOf(e, u) then Lookup(s.buffer, u)
                                       else if Begins(e.frame.opcode) then e.frame.text
                                       else if e.frame.opcode == END then ""
                                       else Lookup(s.buffer, u) + e.frame.text)
            && (u in t.buffer <==> if FragmentOf(e, u) then e.frame.opcode != END else u in s.buffer)
  {
  }

  /** In every reachable state the buffer of a user is the text of its pending fragments, there is a buffer just for
      the users with an unfinished message, and both size limits are the one last set. */
  lemma {:induction false} RunIsPending(es: seq<Event>, u: UserId)
    ensures Lookup(Run(es).buffer, u) == Text(Pending(es, u))
    ensures u in Run(es).buffer <==> Pending(es, u) != []
    ensures Run(es).limit == Run(es).frameLimit == Limit(es)
    decreases |es|
  {
    if es != [] {
      var before, e := es[..|es| - 1], es[|es| - 1];
      assert es == before + [e];
      RunIsPending(before, u);
      RunPush(before, e);
      StepAt(Run(before), e, u);
      PendingText(before, e, u);
    }
  }

  lemma ReceiveEnd(s: State, f: Frame)
    requires f.opcode == END
    ensures var joined := Lookup(s.buffer, f.user) + f.text;
            Receive(s, f) == (s.(buffer := s.buffer - {f.user}), if |joined| <= s.limit then Handed(joined) else TooBig)
  {
  }

  /** At a final fragment, after any run: the user's fragments since its last beginning or end are joined, and handed
      over just when they are no longer than the limit last set; either way the user's buffer is gone. */
  lemma {:induction false} FinalFragmentJoins(es: seq<Event>, f: Frame)
    requires f.opcode == END
    ensures var joined := Text(Pending(es, f.user) + [f]);
            && Receive(Run(es), f).1 == (if |joined| <= Limit(es) then Handed(joined) else TooBig)
            && f.user !in Receive(Run(es), f).0.buffer
  {
    RunIsPending(es, f.user);
    TextPush(Pending(es, f.user), f);
    ReceiveEnd(Run(es), f);
  }

  /** After any run, what is done with a frame goes by its first byte: 0x81 and 0x82 hand a whole message over as it
      is and leave all buffers alone, 0x8A is a pong, 0x00, 0x01 and 0x02 are kept, and all others but 0x80 are
      refused. */
  lemma {:induction false} OutcomeByOpcode(es: seq<Event>, f: Frame)
    ensures var r := Receive(Run(es), f);
            && (f.opcode == 0x81 || f.opcode == 0x82 ==> r == (Run(es), Handed(f.text)))
            && (f.opcode == 0x8A ==> r == (Run(es), Ponged))
            && (f.opcode == 0 || f.opcode == 1 || f.opcode == 2 ==> r.1 == Buffered)
            && (f.opcode !in {0, 1, 2, 0x80, 0x81, 0x82, 0x8A} ==> r == (Run(es), Invalid))
  {
  }

  // ---- Other users ----

  lemma ReceiveIsLocal(s: State, t: State, f: Frame)
    requires Lookup(s.buffer, f.user) == Lookup(t.buffer, f.user) && s.limit == t.limit
    ensures Receive(s, f).1 == Receive(t, f).1
    ensures Lookup(Receive(s, f).0.buffer, f.user) == Lookup(Receive(t, f).0.buffer, f.user)
  {
  }

  /** What the server does with a user's frame depends on that user's own fragments and the limit, on nothing else
      that arrived. */
  lemma {:induction false} OthersDoNotMatter(es: seq<Event>, others: seq<Event>, f: Frame)
    requires Fragments(es, f.user) == Fragments(others, f.user) && Limit(es) == Limit(others)
    ensures Receive(Run(es), f).1 == Receive(Run(others), f).1
    ensures Lookup(Receive(Run(es), f).0.buffer, f.user) == Lookup(Receive(Run(others), f).0.buffer, f.user)
  {
    RunIsPending(es, f.user);
    RunIsPending(others, f.user);
    ReceiveIsLocal(Run(es), Run(others), f);
  }

  // ---- Round trip ----

  function Join(pieces: seq<string>): (s: string) {
    if pieces == [] then "" else Join(pieces[..|pieces| - 1]) + pieces[|pieces| - 1]
  }

  /** `fs` are the fragments of a message cut into `pieces`, all but the final one. */
  ghost predicate CutInto(fs: seq<Frame>, pieces: seq<string>) {
    && |fs| == |pieces| > 0
    && Begins(fs[0].opcode)
    && (forall i | 1 <= i < |fs| :: fs[i].opcode == CONTINUE)
    && (forall i | 0 <= i < |fs| :: fs[i].text == pieces[i])
  }

  lemma {:induction false} StartOfMessage(before: seq<Frame>, fs: seq<Frame>, pieces: seq<string>)
    requires CutInto(fs, pieces)
    ensures Start(before + fs) == |before|
    decreases |fs|
  {
    var n := |fs| - 1;
    assert (before + fs)[|before| + n] == fs[n];
    if n > 0 {
      assert (before + fs)[..|before| + n] == before + fs[..n];
      StartOfMessage(before, fs[..n], pieces[..n]);
    }
  }

  lemma {:induction false} TextOfPieces(fs: seq<Frame>, pieces: seq<string>)
    requires |fs| == |pieces| && forall i | 0 <= i < |fs| :: fs[i].text == pieces[i]
    ensures Text(fs) == Join(pieces)
  {
    if fs != [] {
      TextOfPieces(fs[..|fs| - 1], pieces[..|fs| - 1]);
    }
  }

  /** A message cut into any pieces, whatever came before it and whatever other frames of anyone arrive between them,
      is handed over whole just when it is within the limit. */
  lemma {:induction false} CutMessageArrives(
      es: seq<Event>, before: seq<Frame>, fs: seq<Frame>, pieces: seq<string>, last: Frame)
    requires CutInto(fs, pieces) && last.opcode == END
    requires Fragments(es, last.user) == before + fs
    ensures var message := Join(pieces + [last.text]);
            Receive(Run(es), last).1 == if |message| <= Limit(es) then Handed(message) else TooBig
  {
    StartOfMessage(before, fs, pieces);
    assert Pending(es, last.user) == fs;
    FinalFragmentJoins(es, last);
    TextOfPieces(fs + [last], pieces + [last.text]);
  }

  // ---- Two connections of one user ----

  /** What one connection sent. */
  function From(es: seq<Event>, c: ConnId): (r: seq<Event>) {
    if es == [] then []
    else
      var n := |es| - 1;
      From(es[..n], c) + if es[n].Arrived? && es[n].frame.connection == c then [es[n]] else []
  }

  /** Fragments of the user that another of its connections sent. */
  predicate Foreign(e: Event, c: ConnId, u: UserId) {
    FragmentOf(e, u) && e.frame.connection != c
  }

  /** The message that the connection has under way begins at index `i`. */
  ghost predicate UnderWay(es: seq<Event>, c: ConnId, u: UserId, i: nat) {
    && i < |es| && FragmentOf(es[i], u) && es[i].frame.connection == c && Begins(es[i].frame.opcode)
    && forall j | i < j < |es| && es[j].Arrived? && es[j].frame.connection == c :: !Boundary(es[j], u)
  }

  lemma {:induction false} FromPush(es: seq<Event>, e: Event, c: ConnId, u: UserId)
    ensures e.Arrived? && e.frame.connection == c ==> Pending(From(es + [e], c), u) == Pending(From(es, c) + [e], u)
    ensures !(e.Arrived? && e.frame.connection == c) ==> Pending(From(es + [e], c), u) == Pending(From(es, c), u)
  {
    assert (es + [e])[..|es|] == es;
    assert From(es, c) + [] == From(es, c);
  }

  /** With nothing foreign since the beginning, what is joined is what the connection sent. */
  lemma {:induction false} OwnWhenAlone(es: seq<Event>, c: ConnId, u: UserId, i: nat)
    requires UnderWay(es, c, u, i) && forall j | i < j < |es| :: !Foreign(es[j], c, u)
    ensures Pending(es, u) == Pending(From(es, c), u)
    decreases |es|
  {
    var n := |es| - 1;
    var before, e := es[..n], es[n];
    assert es == before + [e];
    PendingPush(before, e, u);
    FromPush(before, e, c, u);
    PendingPush(From(before, c), e, u);
    if i < n {
      OwnWhenAlone(before, c, u, i);
    }
  }

  /** What the connection sent since the beginning, that one first. */
  lemma {:induction false} OwnMessage(es: seq<Event>, c: ConnId, u: UserId, i: nat)
    requires UnderWay(es, c, u, i)
    ensures var own := Pending(From(es, c), u);
            own != [] && own[0] == es[i].frame && forall k | 0 <= k < |own| :: own[k].connection == c
    decreases |es|
  {
    var n := |es| - 1;
    var before, e := es[..n], es[n];
    assert es == before + [e];
    FromPush(before, e, c, u);
    PendingPush(From(before, c), e, u);
    if i < n {
      OwnMessage(before, c, u, i);
    }
  }

  /** Lacks a beginning, or holds a frame of another connection. */
  ghost predicate Spoilt(fs: seq<Frame>, c: ConnId) {
    (fs == [] || !Begins(fs[0].opcode)) || exists k | 0 <= k < |fs| :: fs[k].connection != c
  }

  lemma SpoiltPush(fs: seq<Frame>, f: Frame, c: ConnId)
    requires Spoilt(fs, c) && f.opcode == CONTINUE
    ensures Spoilt(fs + [f], c)
  {
    if k :| 0 <= k < |fs| && fs[k].connection != c {
      assert (fs + [f])[k].connection != c;
    }
  }

  lemma {:induction false} ForeignSpoils(es: seq<Event>, c: ConnId, u: UserId, i: nat, j: nat)
    requires UnderWay(es, c, u, i) && i < j < |es| && Foreign(es[j], c, u)
    ensures Spoilt(Pending(es, u), c)
    decreases |es|
  {
    var n := |es| - 1;
    var before, e := es[..n], es[n];
    assert es == before + [e];
    PendingPush(before, e, u);
    if Foreign(e, c, u) {
      var fs := Pending(es, u);
      if fs != [] {
        assert fs[|fs| - 1].connection != c;
      }
    } else {
      ForeignSpoils(before, c, u, i, j);
      if FragmentOf(e, u) {
        SpoiltPush(Pending(before, u), e.frame, c);
      }
    }
  }

  /** The buffer is kept per user, not per connection: what is joined for a message under way on a connection is what
      that connection sent for it if and only if no other connection of the user sent a fragment meanwhile. */
  lemma {:induction false} JoinsOwnIffAlone(es: seq<Event>, c: ConnId, u: UserId, i: nat)
    requires UnderWay(es, c, u, i)
    ensures Pending(es, u) == Pending(From(es, c), u) <==> forall j | i < j < |es| :: !Foreign(es[j], c, u)
  {
    if j :| i < j < |es| && Foreign(es[j], c, u) {
      ForeignSpoils(es, c, u, i, j);
      OwnMessage(es, c, u, i);
    } else {
      OwnWhenAlone(es, c, u, i);
    }
  }

  /** Connections 1 and 2 of user 7 each send a message in two fragments: the first to finish gets the beginning of
      the other, the second loses its own. */
  lemma ConnectionsMix()
    ensures var one := Arrived(Frame(7, 1, BEGIN_TEXT, "a"));
            var two := Arrived(Frame(7, 2, BEGIN_TEXT, "b"));
            var end1, end2 := Frame(7, 1, END, "c"), Frame(7, 2, END, "d");
            && Receive(Run([one, two]), end1).1 == Handed("bc")
            && Receive(Run([one, two, Arrived(end1)]), end2).1 == Handed("d")
  {
    var one := Arrived(Frame(7, 1, BEGIN_TEXT, "a"));
    var two := Arrived(Frame(7, 2, BEGIN_TEXT, "b"));
    var end1 := Arrived(Frame(7, 1, END, "c"));
    RunPush([], one);
    RunPush([one], two);
    RunPush([one, two], end1);
    assert [one, two] == [one] + [two] && [one] == [] + [one] && [one, two, end1] == [one, two] + [end1];
    assert Run([one, two]).buffer[7] == "b";
    assert "b" + "c" == "bc" && "" + "d" == "d";
  }

  // ---- The server's own state ----

  class Reassembler {
    var frameBuffer: map<UserId, string>
    var maxMessageSize: nat
    var configMaxMessageSize: nat

    ghost function Now(): (s: State)
      reads this
    {
      State(frameBuffer, maxMessageSize, configMaxMessageSize)
    }

    constructor ()
      ensures Now() == INITIAL
    {
      frameBuffer, maxMessageSize, configMaxMessageSize := map[], DEFAULT_LIMIT, DEFAULT_LIMIT;
    }

    predicate HasFrameBuffer(sender: UserId)
      reads this
    {
      sender in frameBuffer
    }

    method WriteFrameBuffer(sender: UserId, input: string, clear: bool)
      modifies this`frameBuffer
      ensures frameBuffer == Write(old(frameBuffer), sender, input, clear)
    {
      if !HasFrameBuffer(sender) {
        frameBuffer := frameBuffer[sender := ""];
      } else if clear {
        frameBuffer := frameBuffer[sender := ""];
      }
      assert frameBuffer[sender] == if clear then "" else Lookup(old(frameBuffer), sender);
      assert "" + input == input;
      frameBuffer := frameBuffer[sender := frameBuffer[sender] + input];
    }

    method ReadFrameBuffer(sender: UserId, clear: bool) returns (out: string)
      modifies this`frameBuffer
      ensures out == Lookup(old(frameBuffer), sender)
      ensures frameBuffer == if clear then old(frameBuffer) - {sender} else old(frameBuffer)
    {
      if !HasFrameBuffer(sender) {
        return "";
      }
      out := frameBuffer[sender];
      if clear {
        frameBuffer := frameBuffer - {sender};
      }
    }

    method OnMessage(f: Frame) returns (outcome: Outcome)
      modifies this`frameBuffer
      ensures (Now(), outcome) == Receive(old(Now()), f)
    {
      if f.opcode == PONG {
        return Ponged;
      }
      if f.opcode != TEXT && f.opcode != BINARY {
        if Begins(f.opcode) {
          WriteFrameBuffer(f.user, f.text, true);
          return Buffered;
        } else if f.opcode == CONTINUE {
          WriteFrameBuffer(f.user, f.text, false);
          return Buffered;
        } else if f.opcode == END {
          var buffered := ReadFrameBuffer(f.user, true);
          buffered := buffered + f.text;
          if |buffered| > maxMessageSize {
            return TooBig;
          }
          return Handed(buffered);
        }
        return Invalid;
      }
      return Handed(f.text);
    }

    method SetMessageSizeLimit(bytes: nat)
      modifies this`maxMessageSize, this`configMaxMessageSize
      ensures Now() == Step(old(Now()), LimitSet(bytes))
    {
      maxMessageSize := bytes;
      configMaxMessageSize := maxMessageSize;
    }
  }
}
