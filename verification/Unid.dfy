/** Message ids: time, random bytes, process id and a counter that never repeats soon. */
module Unid {
  import CHex

  const UINT32: nat := 0x1_0000_0000
  const MAX_COUNTER: nat := 0xFFFF_FFFE
  const MAX_COUNTER_UUID: nat := 1000

  type Word = n: nat | n < 0x1_0000_0000

  datatype Id = Id(tm: Word, uuid: Word, pid: nat, inc: Word)

  // ---- The counter ----

  /** 32-bit increment, from the top back to one. */
  function Next(count: Word): (r: Word) {
    ((if count == MAX_COUNTER then 0 else count) + 1) % UINT32
  }

  /** The count after `n` calls, one after the other. */
  function Count(n: nat): (r: Word) {
    if n == 0 then 1 else Next(Count(n - 1))
  }

  lemma Remainder(n: nat, q: int, r: nat)
    requires n == 0xFFFF_FFFE * q + r && r < 0xFFFF_FFFE
    ensures n % 0xFFFF_FFFE == r
  {
  }

  lemma RemainderStep(n: nat)
    ensures (n + 1) % MAX_COUNTER == if n % MAX_COUNTER == MAX_COUNTER - 1 then 0 else n % MAX_COUNTER + 1
  {
    var q, r := n / 0xFFFF_FFFE, n % 0xFFFF_FFFE;
    if r == 0xFFFF_FFFD {
      Remainder(n + 1, q + 1, 0);
    } else {
      Remainder(n + 1, q, r + 1);
    }
  }

  lemma NextIs(count: Word)
    requires count <= MAX_COUNTER
    ensures Next(count) == if count == MAX_COUNTER then 1 else count + 1
  {
  }

  /** The count never is zero, never overflows, and runs through all values up to the greatest before it repeats. */
  lemma {:induction false} CountIs(n: nat)
    ensures Count(n) == 1 + n % MAX_COUNTER
    ensures 1 <= Count(n) <= MAX_COUNTER
  {
    if n > 0 {
      CountIs(n - 1);
      NextIs(Count(n - 1));
      RemainderStep(n - 1);
    }
  }

  /** Two calls of one run, one after the other, return the same count just when a multiple of 2^32 - 2 calls lies
      between them. */
  lemma {:induction false} CountsEqualIff(i: nat, j: nat)
    requires i <= j
    ensures Count(i) == Count(j) <==> (j - i) % MAX_COUNTER == 0
  {
    CountIs(i);
    CountIs(j);
    var m := 0xFFFF_FFFE;
    var d := j - i;
    if d % m == 0 {
      Remainder(j, i / m + d / m, i % m);
    }
    if i % m == j % m {
      Remainder(d, j / m - i / m, 0);
    }
  }

  lemma {:induction false} SoonCountsDiffer(i: nat, j: nat)
    requires i < j < i + MAX_COUNTER
    ensures Count(i) != Count(j)
  {
    CountsEqualIff(i, j);
    Remainder(j - i, 0, j - i);
  }

  // ---- Calls from several threads: the load and the store are separate steps ----

  type Thread = nat

  datatype State = State(counter: Word, loaded: map<Thread, Word>, issued: seq<Word>)

  datatype Event = Load(thread: Thread) | Store(thread: Thread)

  const INITIAL := State(1, map[], [])

  function Step(s: State, e: Event): (t: State) {
    match e
    case Load(i) => if i in s.loaded then s else s.(loaded := s.loaded[i := s.counter])
    case Store(i) =>
      if i !in s.loaded then s
      else
        var count := Next(s.loaded[i]);
        State(count, s.loaded - {i}, s.issued + [count])
  }

  function Run(es: seq<Event>): (s: State)
    decreases |es|
  {
    if es == [] then INITIAL else Step(Run(es[..|es| - 1]), es[|es| - 1])
  }

  /** The step stores while another call is under way. */
  ghost predicate Overlaps(s: State, e: Event) {
    e.Store? && e.thread in s.loaded && exists i | i in s.loaded :: i != e.thread
  }

  ghost predicate Overlapping(es: seq<Event>) {
    es != [] && (Overlapping(es[..|es| - 1]) || Overlaps(Run(es[..|es| - 1]), es[|es| - 1]))
  }

  ghost predicate Distinct(s: seq<Word>) {
    forall i, j | 0 <= i < j < |s| :: s[i] != s[j]
  }

  /** Calls one after the other: everyone under way has loaded the current count. */
  ghost predicate Serial(s: State) {
    && s.counter == Count(|s.issued|)
    && (forall k | 0 <= k < |s.issued| :: s.issued[k] == Count(k + 1))
    && (forall i | i in s.loaded :: s.loaded[i] == s.counter)
  }

  lemma SerialStep(s: State, e: Event)
    requires Serial(s) && !Overlaps(s, e)
    ensures Serial(Step(s, e))
  {
  }

  lemma {:induction false} SerialRun(es: seq<Event>)
    requires !Overlapping(es)
    ensures Serial(Run(es))
    decreases |es|
  {
    if es != [] {
      var n := |es| - 1;
      var before := es[..n];
      SerialRun(before);
      SerialStep(Run(before), es[n]);
    }
  }

  /** A count was issued twice, or a call under way will issue one again. */
  ghost predicate Doomed(s: State) {
    || !Distinct(s.issued)
    || exists i | i in s.loaded :: Next(s.loaded[i]) in s.issued
  }

  lemma NotDistinct(s: seq<Word>, x: Word)
    ensures !Distinct(s) ==> !Distinct(s + [x])
    ensures x in s ==> !Distinct(s + [x])
  {
    if !Distinct(s) {
      var i, j :| 0 <= i < j < |s| && s[i] == s[j];
      assert (s + [x])[i] == (s + [x])[j];
    }
    if x in s {
      var i :| 0 <= i < |s| && s[i] == x;
      assert (s + [x])[i] == (s + [x])[|s|];
    }
  }

  lemma DoomedStays(s: State, e: Event)
    requires Doomed(s)
    ensures Doomed(Step(s, e))
  {
    var t := Step(s, e);
    if e.Store? && e.thread in s.loaded {
      NotDistinct(s.issued, Next(s.loaded[e.thread]));
    }
    if Distinct(s.issued) {
      var i :| i in s.loaded && Next(s.loaded[i]) in s.issued;
      if i in t.loaded {
        assert t.loaded[i] == s.loaded[i] && Next(t.loaded[i]) in t.issued;
      }
    }
  }

  lemma OverlapDooms(s: State, e: Event)
    requires Serial(s) && Overlaps(s, e)
    ensures Doomed(Step(s, e))
  {
    var t := Step(s, e);
    var i :| i in s.loaded && i != e.thread;
    assert t.loaded[i] == s.counter && t.issued[|s.issued|] == Next(s.counter);
    assert Next(t.loaded[i]) in t.issued;
  }

  lemma {:induction false} OverlappingIsDoomed(es: seq<Event>)
    requires Overlapping(es)
    ensures Doomed(Run(es))
    decreases |es|
  {
    var n := |es| - 1;
    var before := es[..n];
    if Overlapping(before) {
      OverlappingIsDoomed(before);
      DoomedStays(Run(before), es[n]);
    } else {
      SerialRun(before);
      OverlapDooms(Run(before), es[n]);
    }
  }

  lemma SerialIsDistinct(s: State)
    requires Serial(s) && |s.issued| <= MAX_COUNTER
    ensures Distinct(s.issued)
  {
    forall i, j | 0 <= i < j < |s.issued| ensures s.issued[i] != s.issued[j] {
      SoonCountsDiffer(i + 1, j + 1);
    }
  }

  /** Up to 2^32 - 2 finished calls, from any number of threads: the counts are pairwise distinct if and only if no
      call stored its count while another was under way. */
  lemma {:induction false} DistinctIffNoOverlap(es: seq<Event>)
    requires Run(es).loaded == map[] && |Run(es).issued| <= MAX_COUNTER
    ensures Distinct(Run(es).issued) <==> !Overlapping(es)
  {
    if Overlapping(es) {
      OverlappingIsDoomed(es);
    } else {
      SerialRun(es);
      SerialIsDistinct(Run(es));
    }
  }

  /** Two overlapping calls issue the same count. */
  lemma OverlapRepeats()
    ensures Run([Load(1), Load(2), Store(1), Store(2)]).issued == [2, 2]
  {
    var es := [Load(1), Load(2), Store(1), Store(2)];
    assert es[..3] == [Load(1), Load(2), Store(1)];
    assert es[..3][..2] == [Load(1), Load(2)];
    assert es[..3][..2][..1] == [Load(1)];
    assert es[..3][..2][..1][..0] == [];
    assert Run([Load(1)]) == State(1, map[1 := 1], []);
    assert Run([Load(1), Load(2)]) == State(1, map[1 := 1, 2 := 1], []);
    assert Run(es[..3]) == State(2, map[2 := 1], [2]);
  }

  // ---- Printing ----

  /** The digits of a number, none for zero. */
  function Digits(n: nat): (s: string)
    ensures CHex.AllHex(s)
  {
    if n == 0 then "" else Digits(n / 16) + [CHex.HexDigit(n % 16)]
  }

  function Zeros(k: nat): (s: string)
    ensures CHex.AllHex(s) && |s| == k
  {
    seq(k, _ => '0')
  }

  /** At least `width` digits, and at least one. */
  function Format(n: nat, width: nat): (s: string)
    requires width > 0
    ensures CHex.AllHex(s) && |s| >= width
  {
    var ds := Digits(n);
    if |ds| < width then Zeros(width - |ds|) + ds else ds
  }

  function Pow16(k: nat): (p: nat) {
    if k == 0 then 1 else 16 * Pow16(k - 1)
  }

  lemma {:induction false} DigitsLength(n: nat, width: nat)
    requires n < Pow16(width)
    ensures |Digits(n)| <= width
  {
    if n > 0 {
      DigitsLength(n / 16, width - 1);
    }
  }

  lemma {:induction false} ZerosThenDigits(k: nat, n: nat)
    ensures CHex.AllHex(Zeros(k) + Digits(n)) && CHex.HexNumber(Zeros(k) + Digits(n)) == n
    decreases n, k
  {
    var s := Zeros(k) + Digits(n);
    if n > 0 {
      ZerosThenDigits(k, n / 16);
      assert s[..|s| - 1] == Zeros(k) + Digits(n / 16);
      assert s[|s| - 1] == CHex.HexDigit(n % 16);
    } else if k > 0 {
      ZerosThenDigits(k - 1, 0);
      assert s[..|s| - 1] == Zeros(k - 1) + Digits(0);
      assert s[|s| - 1] == '0';
    }
  }

  /** What is printed reads back as the number, and a number that fits takes just the width. */
  lemma {:induction false} FormatReads(n: nat, width: nat)
    requires width > 0
    ensures CHex.HexNumber(Format(n, width)) == n
    ensures n < Pow16(width) ==> |Format(n, width)| == width
  {
    var ds := Digits(n);
    if |ds| < width {
      ZerosThenDigits(width - |ds|, n);
    } else {
      ZerosThenDigits(0, n);
      assert Zeros(0) + ds == ds;
    }
    if n < Pow16(width) {
      DigitsLength(n, width);
    }
  }

  lemma Pow16Values()
    ensures Pow16(4) == 0x1_0000 && Pow16(8) == UINT32
  {
    assert Pow16(2) == 256;
    assert Pow16(6) == 0x100_0000;
  }

  predicate Fits(id: Id) {
    id.pid < 0x1_0000
  }

  function Str(id: Id): (s: string) {
    Format(id.tm, 8) + ("-" + (Format(id.uuid, 8) + ("-" + (Format(id.pid, 4) + ("-" + Format(id.inc, 8))))))
  }

  lemma HeadEqual(a: string, b: string, c: string, d: string)
    requires |a| == |c| && a + ("-" + b) == c + ("-" + d)
    ensures a == c && b == d
  {
    var s := a + ("-" + b);
    assert s[..|a|] == a && s[|a| + 1..] == b;
    var t := c + ("-" + d);
    assert t[..|c|] == c && t[|c| + 1..] == d;
  }

  lemma FormatInjective(n: nat, m: nat, width: nat)
    requires width > 0 && Format(n, width) == Format(m, width)
    ensures n == m
  {
    FormatReads(n, width);
    FormatReads(m, width);
  }

  /** Different ids print differently. */
  lemma StrInjective(a: Id, b: Id)
    requires Fits(a) && Fits(b) && Str(a) == Str(b)
    ensures a == b
  {
    Pow16Values();
    FormatReads(a.tm, 8);
    FormatReads(b.tm, 8);
    FormatReads(a.uuid, 8);
    FormatReads(b.uuid, 8);
    FormatReads(a.pid, 4);
    FormatReads(b.pid, 4);
    var a3, b3 := Format(a.inc, 8), Format(b.inc, 8);
    var a2, b2 := Format(a.pid, 4) + ("-" + a3), Format(b.pid, 4) + ("-" + b3);
    var a1, b1 := Format(a.uuid, 8) + ("-" + a2), Format(b.uuid, 8) + ("-" + b2);
    HeadEqual(Format(a.tm, 8), a1, Format(b.tm, 8), b1);
    HeadEqual(Format(a.uuid, 8), a2, Format(b.uuid, 8), b2);
    HeadEqual(Format(a.pid, 4), a3, Format(b.pid, 4), b3);
    FormatInjective(a.inc, b.inc, 8);
  }

  /** The printed form: 31 characters, dashes after the time, the random bytes and the process id, and each part in
      hexadecimal. */
  lemma StrLayout(id: Id)
    requires Fits(id)
    ensures var s := Str(id);
            && |s| == 31 && s[8] == s[17] == s[22] == '-'
            && CHex.AllHex(s[..8]) && CHex.HexNumber(s[..8]) == id.tm
            && CHex.AllHex(s[9..17]) && CHex.HexNumber(s[9..17]) == id.uuid
            && CHex.AllHex(s[18..22]) && CHex.HexNumber(s[18..22]) == id.pid
            && CHex.AllHex(s[23..]) && CHex.HexNumber(s[23..]) == id.inc
  {
    Pow16Values();
    var a, b, c, d := Format(id.tm, 8), Format(id.uuid, 8), Format(id.pid, 4), Format(id.inc, 8);
    FormatReads(id.tm, 8);
    FormatReads(id.uuid, 8);
    FormatReads(id.pid, 4);
    FormatReads(id.inc, 8);
    StrParts(a, b, c, d);
  }

  lemma StrParts(a: string, b: string, c: string, d: string)
    requires |a| == |b| == |d| == 8 && |c| == 4
    ensures var s := a + ("-" + (b + ("-" + (c + ("-" + d)))));
            && |s| == 31 && s[8] == s[17] == s[22] == '-'
            && s[..8] == a && s[9..17] == b && s[18..22] == c && s[23..] == d
  {
  }

  // ---- The generator ----

  /** What a call takes from outside: the time, and random bytes in case it needs them. */
  datatype Call = Call(time: Word, random: Word)

  datatype Fields = Fields(uuid: Word, counter: Word)

  predicate Renews(count: Word) {
    count % MAX_COUNTER_UUID == 0 || count == MAX_COUNTER
  }

  function NextFields(f: Fields, c: Call): (g: Fields) {
    Fields(if Renews(f.counter) then c.random else f.uuid, Next(f.counter))
  }

  function IdOf(pid: nat, f: Fields, c: Call): (id: Id) {
    var g := NextFields(f, c);
    Id(c.time, g.uuid, pid, g.counter)
  }

  /** The fields after some calls, the first random bytes being `seed`. */
  function After(seed: Word, calls: seq<Call>): (f: Fields) {
    if calls == [] then Fields(seed, 1) else NextFields(After(seed, calls[..|calls| - 1]), calls[|calls| - 1])
  }

  /** The id that call `k` returns. */
  function Issued(pid: nat, seed: Word, calls: seq<Call>, k: nat): (id: Id)
    requires k < |calls|
  {
    IdOf(pid, After(seed, calls[..k]), calls[k])
  }

  lemma {:induction false} CounterAfter(seed: Word, calls: seq<Call>)
    ensures After(seed, calls).counter == Count(|calls|)
  {
    if calls != [] {
      CounterAfter(seed, calls[..|calls| - 1]);
    }
  }

  /** Whatever the times and the random bytes are, the printed ids of calls less than 2^32 - 2 apart differ. */
  lemma PrintedIdsDiffer(pid: nat, seed: Word, calls: seq<Call>, i: nat, j: nat)
    requires pid < 0x1_0000 && i < j < |calls| && j < i + MAX_COUNTER
    ensures Str(Issued(pid, seed, calls, i)) != Str(Issued(pid, seed, calls, j))
  {
    CounterAfter(seed, calls[..i]);
    CounterAfter(seed, calls[..j]);
    var a, b := Issued(pid, seed, calls, i), Issued(pid, seed, calls, j);
    assert a.inc == Count(i + 1) && b.inc == Count(j + 1);
    SoonCountsDiffer(i + 1, j + 1);
    if Str(a) == Str(b) {
      StrInjective(a, b);
    }
  }

  // ---- The random part ----

  /** Call number `k` draws new random bytes: the count before it is a multiple of 1000, or the greatest one. */
  predicate DrawsAt(k: nat) {
    var count := 1 + k % 0xFFFF_FFFE;
    count % 1000 == 0 || count == 0xFFFF_FFFE
  }

  /** The random bytes of the last call up to `k` that drew, or those of the start. */
  function LastDrawn(seed: Word, calls: seq<Call>, k: nat): (r: Word)
    requires k < |calls|
  {
    if DrawsAt(k) then calls[k].random else if k == 0 then seed else LastDrawn(seed, calls, k - 1)
  }

  /** Every id has the time of its call, the process id, and the random bytes that were drawn last. */
  lemma {:induction false} IdHolds(pid: nat, seed: Word, calls: seq<Call>, k: nat)
    requires k < |calls|
    ensures Issued(pid, seed, calls, k) == Id(calls[k].time, LastDrawn(seed, calls, k), pid, Count(k + 1))
  {
    CounterAfter(seed, calls[..k]);
    CountIs(k);
    if k > 0 {
      IdHolds(pid, seed, calls, k - 1);
      assert calls[..k][..k - 1] == calls[..k - 1] && calls[..k][k - 1] == calls[k - 1];
    }
  }

  lemma {:induction false} SameWhileNoneDraws(seed: Word, calls: seq<Call>, i: nat, j: nat)
    requires i <= j < |calls| && forall k | i < k <= j :: !DrawsAt(k)
    ensures LastDrawn(seed, calls, i) == LastDrawn(seed, calls, j)
    decreases j
  {
    if i < j {
      SameWhileNoneDraws(seed, calls, i, j - 1);
    }
  }

  /** Whatever is drawn, two ids have the same random part if and only if no call after the first of them, up to the
      second, drew: at most 1000 ids in a row share theirs. */
  lemma {:induction false} SharedIff(pid: nat, calls: nat, i: nat, j: nat)
    requires i <= j < calls && calls < 0x1_0000_0000
    ensures (forall seed: Word, cs: seq<Call> | |cs| == calls ::
               Issued(pid, seed, cs, i).uuid == Issued(pid, seed, cs, j).uuid)
            <==> forall k | i < k <= j :: !DrawsAt(k)
  {
    if forall k | i < k <= j :: !DrawsAt(k) {
      forall seed: Word, cs: seq<Call> | |cs| == calls
        ensures Issued(pid, seed, cs, i).uuid == Issued(pid, seed, cs, j).uuid
      {
        IdHolds(pid, seed, cs, i);
        IdHolds(pid, seed, cs, j);
        SameWhileNoneDraws(seed, cs, i, j);
      }
    } else {
      var k :| i < k <= j && DrawsAt(k);
      var cs := seq(calls, m => Call(0, if m <= i then 0 else 1));
      IdHolds(pid, 0, cs, i);
      IdHolds(pid, 0, cs, j);
      EarlyDraw(cs, i, i);
      LateDraw(cs, i, k, j);
      assert Issued(pid, 0, cs, i).uuid != Issued(pid, 0, cs, j).uuid;
    }
  }

  lemma {:induction false} EarlyDraw(cs: seq<Call>, i: nat, m: nat)
    requires m <= i < |cs| && forall x | 0 <= x < |cs| :: cs[x].random == if x <= i then 0 else 1
    ensures LastDrawn(0, cs, m) == 0
    decreases m
  {
    if !DrawsAt(m) && m > 0 {
      EarlyDraw(cs, i, m - 1);
    }
  }

  lemma {:induction false} LateDraw(cs: seq<Call>, i: nat, k: nat, m: nat)
    requires i < k <= m < |cs| && DrawsAt(k) && forall x | 0 <= x < |cs| :: cs[x].random == if x <= i then 0 else 1
    ensures LastDrawn(0, cs, m) == 1
    decreases m
  {
    if !DrawsAt(m) {
      LateDraw(cs, i, k, m - 1);
    }
  }

  class Generator {
    const pid: nat
    var uuidBytes: Word
    var counter: Word

    ghost function Now(): (f: Fields)
      reads this
    {
      Fields(uuidBytes, counter)
    }

    constructor (processId: nat, seed: Word)
      ensures Now() == After(seed, []) && pid == processId % 0x1_0000
    {
      pid, uuidBytes, counter := processId % 0x1_0000, seed, 1;
    }

    method NextId(time: Word, random: Word) returns (id: Id)
      modifies this
      ensures Now() == NextFields(old(Now()), Call(time, random))
      ensures id == IdOf(pid, old(Now()), Call(time, random))
    {
      var count := counter;
      if count % MAX_COUNTER_UUID == 0 || count == MAX_COUNTER {
        uuidBytes := random;
      }
      if count == MAX_COUNTER {
        count := 0;
      }
      count := (count + 1) % UINT32;
      counter := count;
      id := Id(time, uuidBytes, pid, count);
    }
  }
}
