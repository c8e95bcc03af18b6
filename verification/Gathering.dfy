/** Concatenating segments: in the order in which they become available, or by a rule. */
module Gathering {

  predicate Below(order: seq<nat>, n: nat) {
    forall i :: 0 <= i < |order| ==> order[i] < n
  }

  /** Each of the first `n` numbers once, in some order. */
  predicate EachOnce(order: seq<nat>, n: nat) {
    && (forall i, j :: 0 <= i < j < |order| ==> order[i] != order[j])
    && Below(order, n)
    && (forall k: nat :: k < n ==> k in order)
  }

  function UpTo(n: nat): (order: seq<nat>)
    ensures Below(order, n) && |order| == n
  {
    if n == 0 then [] else UpTo(n - 1) + [n - 1]
  }

  lemma {:induction false} UpToIsIdentity(n: nat)
    ensures forall i :: 0 <= i < n ==> UpTo(n)[i] == i
  {
    if n == 0 {
    } else {
      UpToIsIdentity(n - 1);
    }
  }

  function Gathered<T>(segments: seq<seq<T>>, order: seq<nat>): seq<T>
    requires Below(order, |segments|)
  {
    if order == [] then []
    else Gathered(segments, order[..|order| - 1]) + segments[order[|order| - 1]]
  }

  lemma {:induction false} GatheredIgnoresLater<T>(segments: seq<seq<T>>, segment: seq<T>, order: seq<nat>)
    requires Below(order, |segments|)
    ensures Gathered(segments + [segment], order) == Gathered(segments, order)
  {
    if order == [] {
    } else {
      GatheredIgnoresLater(segments, segment, order[..|order| - 1]);
    }
  }

  lemma {:induction false} GatheredLast<T>(segments: seq<seq<T>>, order: seq<nat>, k: nat)
    requires Below(order, |segments|) && k < |segments|
    ensures multiset(Gathered(segments, order + [k])) == multiset(Gathered(segments, order)) + multiset(segments[k])
  {
  }

  lemma {:induction false} GatheredWithout<T>(segments: seq<seq<T>>, order: seq<nat>, p: nat)
    requires Below(order, |segments|) && p < |order|
    ensures Below(order[..p] + order[p + 1..], |segments|)
    ensures multiset(Gathered(segments, order))
         == multiset(Gathered(segments, order[..p] + order[p + 1..])) + multiset(segments[order[p]])
  {
    var n := |order| - 1;
    var shorter := order[..n];
    assert order == shorter + [order[n]];
    GatheredLast(segments, shorter, order[n]);
    if p == n {
      assert order[..p] + order[p + 1..] == shorter;
    } else {
      GatheredWithout(segments, shorter, p);
      GatheredLast(segments, shorter[..p] + shorter[p + 1..], order[n]);
      assert order[..p] + order[p + 1..] == shorter[..p] + shorter[p + 1..] + [order[n]];
    }
  }

  lemma {:induction false} EachOnceWithoutLast(order: seq<nat>, n: nat, p: nat)
    requires n > 0 && EachOnce(order, n) && p < |order| && order[p] == n - 1
    ensures EachOnce(order[..p] + order[p + 1..], n - 1)
  {
    var rest := order[..p] + order[p + 1..];
    forall k: nat | k < n - 1 ensures k in rest {
      assert k in order;
      var q :| 0 <= q < |order| && order[q] == k;
      assert rest[if q < p then q else q - 1] == k;
    }
  }

  lemma {:induction false} SomethingBelow(order: seq<nat>, n: nat)
    requires Below(order, n)
    ensures order != [] ==> n > 0
  {
    if order != [] {
      assert order[0] < n;
    }
  }

  lemma {:induction false} GatheredUpTo<T>(segments: seq<seq<T>>, n: nat)
    requires 0 < n <= |segments|
    ensures multiset(Gathered(segments, UpTo(n)))
         == multiset(Gathered(segments, UpTo(n - 1))) + multiset(segments[n - 1])
  {
  }

  /** Gathering each of the first `n` segments once gives the same elements in any order. */
  lemma {:induction false} GatheredInAnyOrder<T>(segments: seq<seq<T>>, order: seq<nat>, n: nat)
    requires n <= |segments| && EachOnce(order, n)
    ensures multiset(Gathered(segments, order)) == multiset(Gathered(segments, UpTo(n)))
    decreases n
  {
    if n == 0 {
      SomethingBelow(order, n);
    } else {
      var last: nat := n - 1;
      assert last in order;
      var p: nat :| p < |order| && order[p] == last;
      var rest := order[..p] + order[p + 1..];
      EachOnceWithoutLast(order, n, p);
      GatheredWithout(segments, order, p);
      GatheredInAnyOrder(segments, rest, last);
      GatheredUpTo(segments, n);
    }
  }

  function FlatMap<A, B>(rule: A -> seq<B>, xs: seq<A>): seq<B> {
    if xs == [] then [] else FlatMap(rule, xs[..|xs| - 1]) + rule(xs[|xs| - 1])
  }

  lemma {:induction false} FlatMapStep<A, B>(rule: A -> seq<B>, xs: seq<A>, n: nat)
    requires n < |xs|
    ensures FlatMap(rule, xs[..n + 1]) == FlatMap(rule, xs[..n]) + rule(xs[n])
  {
    assert xs[..n + 1][..n] == xs[..n];
  }

  lemma {:induction false} FlatMapOfConcat<A, B>(rule: A -> seq<B>, xs: seq<A>, ys: seq<A>)
    ensures FlatMap(rule, xs + ys) == FlatMap(rule, xs) + FlatMap(rule, ys)
  {
    if ys == [] {
      assert xs + ys == xs;
    } else {
      var n := |ys| - 1;
      FlatMapOfConcat(rule, xs, ys[..n]);
      assert (xs + ys)[..|xs| + n] == xs + ys[..n];
    }
  }

  lemma {:induction false} InFlatMap<A, B>(rule: A -> seq<B>, xs: seq<A>, b: B)
    ensures b in FlatMap(rule, xs) <==> exists i :: 0 <= i < |xs| && b in rule(xs[i])
  {
    if xs == [] {
    } else {
      var n := |xs| - 1;
      InFlatMap(rule, xs[..n], b);
      assert forall i :: 0 <= i < n ==> xs[..n][i] == xs[i];
    }
  }

  /** The first `n` segments one after the other. */
  function Joined<T>(segments: seq<seq<T>>, n: nat): seq<T>
    requires n <= |segments|
  {
    if n == 0 then [] else Joined(segments, n - 1) + segments[n - 1]
  }

  lemma {:induction false} InJoined<T>(segments: seq<seq<T>>, n: nat, x: T)
    requires n <= |segments|
    ensures x in Joined(segments, n) <==> exists g: nat :: g < n && x in segments[g]
  {
    if n == 0 {
    } else {
      InJoined(segments, n - 1, x);
    }
  }

  lemma {:induction false} JoinedInOrder<T>(segments: seq<seq<T>>, g: nat, n: nat)
    requires g < n <= |segments|
    ensures Joined(segments, g) + segments[g] <= Joined(segments, n)
    decreases n
  {
    if g == n - 1 {
    } else {
      JoinedInOrder(segments, g, n - 1);
    }
  }

  function SumOver<A>(count: A -> nat, xs: seq<A>): nat {
    if xs == [] then 0 else SumOver(count, xs[..|xs| - 1]) + count(xs[|xs| - 1])
  }

  /** How often an element comes out is the sum of how often each source gives it. */
  lemma {:induction false} CountInFlatMap<A, B>(rule: A -> seq<B>, count: A -> nat, xs: seq<A>, b: B)
    requires forall x :: x in xs ==> multiset(rule(x))[b] == count(x)
    ensures multiset(FlatMap(rule, xs))[b] == SumOver(count, xs)
  {
    if xs == [] {
    } else {
      CountInFlatMap(rule, count, xs[..|xs| - 1], b);
    }
  }

  /** Each of the keys once, in some order: how a Go map may be walked. */
  ghost predicate Enumerates<K>(order: seq<K>, keys: set<K>) {
    && (forall i, j :: 0 <= i < j < |order| ==> order[i] != order[j])
    && (forall i :: 0 <= i < |order| ==> order[i] in keys)
    && (forall k :: k in keys ==> k in order)
  }

  lemma {:induction false} EnumeratesOneMore<K>(order: seq<K>, keys: set<K>, k: K)
    requires Enumerates(order, keys) && k !in keys
    ensures Enumerates(order + [k], keys + {k})
  {
    assert (order + [k])[|order|] == k;
    forall other | other in keys + {k} ensures other in order + [k] {
      assert other != k ==> other in order;
    }
  }
}
