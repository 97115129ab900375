/** The positions at which something holds, in order: what a loop with a test picks out of a list. */
module Positions {
  predicate Increasing(at: seq<nat>) {
    forall j, k :: 0 <= j < k < |at| ==> at[j] < at[k]
  }

  /** These are, in order and each once, the numbers below `n` with `p`. */
  ghost predicate Those(at: seq<nat>, n: nat, p: nat -> bool) {
    Increasing(at) && forall i: nat :: i in at <==> i < n && p(i)
  }

  ghost function Numbers(n: nat, p: nat -> bool): seq<nat> {
    if n == 0 then [] else Numbers(n - 1, p) + if p(n - 1) then [n - 1] else []
  }

  lemma {:induction false} NumbersMember(n: nat, p: nat -> bool, i: nat)
    ensures i in Numbers(n, p) <==> i < n && p(i)
  {
    if n > 0 { NumbersMember(n - 1, p, i); }
  }

  lemma {:induction false} NumbersIncrease(n: nat, p: nat -> bool)
    ensures Increasing(Numbers(n, p)) && forall j :: 0 <= j < |Numbers(n, p)| ==> Numbers(n, p)[j] < n
  {
    if n > 0 { NumbersIncrease(n - 1, p); }
  }

  lemma NumbersAreThose(n: nat, p: nat -> bool)
    ensures Those(Numbers(n, p), n, p)
  {
    NumbersIncrease(n, p);
    forall i: nat ensures i in Numbers(n, p) <==> i < n && p(i) { NumbersMember(n, p, i); }
  }

  /** Each result is made of the item at its position. */
  ghost predicate MadeAt<T, U>(results: seq<U>, items: seq<T>, at: seq<nat>, made: T -> U) {
    |results| == |at| && forall j :: 0 <= j < |at| ==> at[j] < |items| && results[j] == made(items[at[j]])
  }

  lemma OneMoreMade<T, U>(results: seq<U>, items: seq<T>, at: seq<nat>, made: T -> U, n: nat)
    requires MadeAt(results, items, at, made) && n < |items|
    ensures MadeAt(results + [made(items[n])], items, at + [n], made)
  {
  }
}
