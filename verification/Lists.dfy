/** Sums and concatenations over a sequence. */
module Lists {

  lemma Assoc<T>(a: seq<T>, b: seq<T>, c: seq<T>)
    ensures a + (b + c) == (a + b) + c
  {
  }

  lemma AssocInner<T>(a: seq<T>, b: seq<T>, c: seq<T>, d: seq<T>)
    ensures a + ((b + c) + d) == a + (b + (c + d))
  {
    Assoc(b, c, d);
  }

  lemma AssocMiddle<T>(a: seq<T>, b: seq<T>, c: seq<T>, d: seq<T>)
    ensures a + (b + c) + d == (a + b) + c + d
  {
    Assoc(a, b, c);
  }

  function Sum<T>(s: seq<T>, weight: T -> nat): (n: nat) {
    if s == [] then 0 else Sum(s[..|s| - 1], weight) + weight(s[|s| - 1])
  }

  lemma {:induction false} SumPush<T>(s: seq<T>, x: T, weight: T -> nat)
    ensures Sum(s + [x], weight) == Sum(s, weight) + weight(x)
  {
    assert (s + [x])[..|s|] == s;
  }

  lemma {:induction false} SumConcat<T>(a: seq<T>, b: seq<T>, weight: T -> nat)
    ensures Sum(a + b, weight) == Sum(a, weight) + Sum(b, weight)
    decreases |b|
  {
    if b == [] {
      assert a + b == a;
    } else {
      var n := |b| - 1;
      SumConcat(a, b[..n], weight);
      assert (a + b)[..|a| + n] == a + b[..n];
    }
  }

  lemma {:induction false} SumInsert<T>(a: seq<T>, x: T, b: seq<T>, weight: T -> nat)
    ensures Sum(a + ([x] + b), weight) == Sum(a + b, weight) + weight(x)
  {
    SumConcat(a, [x] + b, weight);
    SumConcat([x], b, weight);
    SumConcat(a, b, weight);
    SumPush([], x, weight);
    assert [] + [x] == [x];
  }

  lemma WithoutOne<T>(a: seq<T>, c: seq<T>, x: T, d: seq<T>)
    requires multiset(a + [x]) == multiset(c + ([x] + d))
    ensures multiset(a) == multiset(c + d)
  {
    assert multiset(a + [x]) == multiset(a) + multiset{x};
    assert multiset(c + ([x] + d)) == multiset(c + d) + multiset{x};
    assert multiset(a) == multiset(a + [x]) - multiset{x};
  }

  lemma CutAt<T>(b: seq<T>, k: nat) returns (c: seq<T>, d: seq<T>)
    requires k < |b|
    ensures b == c + ([b[k]] + d)
  {
    c, d := b[..k], b[k + 1..];
  }

  /** Another sequence with the same elements, without the last one of `a`. */
  lemma TakeOut<T>(a: seq<T>, b: seq<T>) returns (c: seq<T>, d: seq<T>)
    requires a != [] && multiset(a) == multiset(b)
    ensures b == c + ([a[|a| - 1]] + d)
    ensures multiset(a[..|a| - 1]) == multiset(c + d)
  {
    var n := |a| - 1;
    assert a[n] in multiset(b);
    var k :| 0 <= k < |b| && b[k] == a[n];
    c, d := CutAt(b, k);
    assert a == a[..n] + [a[n]];
    WithoutOne(a[..n], c, a[n], d);
  }

  /** The order does not matter. */
  lemma {:induction false} SumOfMultiset<T>(a: seq<T>, b: seq<T>, weight: T -> nat)
    requires multiset(a) == multiset(b)
    ensures Sum(a, weight) == Sum(b, weight)
    decreases |a|
  {
    if a == [] {
      assert |multiset(b)| == 0;
    } else {
      var n := |a| - 1;
      var c, d := TakeOut(a, b);
      SumOfMultiset(a[..n], c + d, weight);
      SumInsert(c, a[n], d, weight);
    }
  }

  /** Weights that are nowhere larger and somewhere smaller have a smaller sum. */
  lemma {:induction false} SumLess<T>(a: seq<T>, b: seq<T>, weight: T -> nat)
    requires |a| == |b| && forall i | 0 <= i < |a| :: weight(a[i]) <= weight(b[i])
    ensures Sum(a, weight) <= Sum(b, weight)
    ensures (exists i | 0 <= i < |a| :: weight(a[i]) < weight(b[i])) ==> Sum(a, weight) < Sum(b, weight)
  {
    if a != [] {
      var n := |a| - 1;
      SumLess(a[..n], b[..n], weight);
      if i :| 0 <= i < |a| && weight(a[i]) < weight(b[i]) && i < n {
        assert a[..n][i] == a[i] && b[..n][i] == b[i];
      }
    }
  }

  /** A larger weight has a larger sum. */
  lemma {:induction false} SumWeights<T>(s: seq<T>, weight: T -> nat, more: T -> nat)
    requires forall x :: weight(x) <= more(x)
    ensures Sum(s, weight) <= Sum(s, more)
  {
    if s != [] {
      SumWeights(s[..|s| - 1], weight, more);
    }
  }

  lemma {:induction false} SumFrom<T>(s: seq<T>, k: nat, weight: T -> nat)
    requires k <= |s|
    ensures Sum(s, weight) == Sum(s[..k], weight) + Sum(s[k..], weight)
  {
    assert s == s[..k] + s[k..];
    SumConcat(s[..k], s[k..], weight);
  }

  lemma SumOne<T>(x: T, weight: T -> nat)
    ensures Sum([x], weight) == weight(x)
  {
    SumPush([], x, weight);
    assert [] + [x] == [x];
  }

  lemma {:induction false} UpperBound(s: set<nat>) returns (n: nat)
    ensures forall x | x in s :: x < n
    decreases |s|
  {
    n := 0;
    if s != {} {
      var y :| y in s;
      var m := UpperBound(s - {y});
      n := if m > y then m else y + 1;
      assert forall x | x in s :: x == y || x in s - {y};
    }
  }

  /** The values of a function below `n`, added up. */
  function SumTo(f: nat -> nat, n: nat): (r: nat) {
    if n == 0 then 0 else SumTo(f, n - 1) + f(n - 1)
  }

  /** Values that are nowhere larger, and at one place smaller by `drop`. */
  lemma {:induction false} SumToDrops(f: nat -> nat, g: nat -> nat, n: nat, place: nat, drop: nat)
    requires forall i | 0 <= i < n :: g(i) + (if i == place then drop else 0) <= f(i)
    ensures SumTo(g, n) + (if place < n then drop else 0) <= SumTo(f, n)
  {
    if n > 0 {
      SumToDrops(f, g, n - 1, place, drop);
    }
  }

  /** The lists of all elements, one after the other. */
  function Flat<S, T>(s: seq<S>, list: S -> seq<T>): (r: seq<T>) {
    if s == [] then [] else Flat(s[..|s| - 1], list) + list(s[|s| - 1])
  }

  lemma {:induction false} FlatPush<S, T>(s: seq<S>, x: S, list: S -> seq<T>)
    ensures Flat(s + [x], list) == Flat(s, list) + list(x)
  {
    assert (s + [x])[..|s|] == s;
  }

  lemma {:induction false} FlatConcat<S, T>(a: seq<S>, b: seq<S>, list: S -> seq<T>)
    ensures Flat(a + b, list) == Flat(a, list) + Flat(b, list)
    decreases |b|
  {
    if b == [] {
      assert a + b == a;
    } else {
      var n := |b| - 1;
      FlatConcat(a, b[..n], list);
      assert (a + b)[..|a| + n] == a + b[..n];
      Assoc(Flat(a, list), Flat(b[..n], list), list(b[n]));
    }
  }

  lemma {:induction false} SameFlat<S, T>(s: seq<S>, f: S -> seq<T>, g: S -> seq<T>)
    requires forall x :: f(x) == g(x)
    ensures Flat(s, f) == Flat(s, g)
  {
    if s != [] {
      SameFlat(s[..|s| - 1], f, g);
    }
  }

  lemma {:induction false} FlatOfSingles<S, T>(s: seq<S>, list: S -> seq<T>, r: seq<T>)
    requires |s| == |r| && forall i | 0 <= i < |s| :: list(s[i]) == [r[i]]
    ensures Flat(s, list) == r
  {
    if s != [] {
      var n := |s| - 1;
      FlatOfSingles(s[..n], list, r[..n]);
      assert r == r[..n] + [r[n]];
    }
  }

  lemma {:induction false} FlatMember<S, T>(s: seq<S>, list: S -> seq<T>, k: nat) returns (i: nat, j: nat)
    requires k < |Flat(s, list)|
    ensures i < |s| && j < |list(s[i])| && Flat(s, list)[k] == list(s[i])[j]
  {
    var n := |s| - 1;
    var before := Flat(s[..n], list);
    if k < |before| {
      i, j := FlatMember(s[..n], list, k);
    } else {
      i, j := n, k - |before|;
    }
  }
}
