/** A walk that stops at the first step it may not take, against the whole walk. */
module BoundedWalk {

  function Cost<T>(out: seq<T>, cost: T -> nat): nat {
    if out == [] then 0 else Cost(out[..|out| - 1], cost) + cost(out[|out| - 1])
  }

  lemma {:induction false} CostConcat<T>(a: seq<T>, b: seq<T>, cost: T -> nat)
    ensures Cost(a + b, cost) == Cost(a, cost) + Cost(b, cost)
    decreases |b|
  {
    if b == [] {
      assert a + b == a;
    } else {
      var n := |b| - 1;
      CostConcat(a, b[..n], cost);
      assert (a + b)[..|a + b| - 1] == a + b[..n];
    }
  }

  lemma CostSnoc<T>(out: seq<T>, x: T, cost: T -> nat)
    ensures Cost(out + [x], cost) == Cost(out, cost) + cost(x)
  {
    assert (out + [x])[..|out|] == out;
  }

  datatype Budget = Budget(count: nat, bytes: nat)

  predicate Within<T>(out: seq<T>, cost: T -> nat, max: Budget) {
    |out| <= max.count && Cost(out, cost) <= max.bytes
  }

  lemma WithinPrefix<T>(part: seq<T>, rest: seq<T>, cost: T -> nat, max: Budget)
    ensures Within(part + rest, cost, max) ==> Within(part, cost, max)
  {
    CostConcat(part, rest, cost);
  }

  /** Which sequences of steps a walk may have taken. */
  type StepRule<!S> = seq<S> -> bool

  /** How a stretch of the walk over `all` took the steps taken from `before` to `after`:
      it took some of them, all allowed; truncated, it stopped where the next step is not
      allowed; untruncated, it took all. */
  ghost predicate Walked<S>(before: seq<S>, after: seq<S>, truncated: bool, all: seq<S>, allowed: StepRule<S>) {
    && before <= after <= before + all && allowed(after)
    && if truncated then |after| < |before + all| && !allowed((before + all)[..|after| + 1]) else after == before + all
  }

  lemma WalkNothing<S>(before: seq<S>, allowed: StepRule<S>)
    requires allowed(before)
    ensures Walked(before, before, false, [], allowed)
  {
    assert before + [] == before;
  }

  /** One step, taken if allowed. */
  lemma WalkOne<S>(before: seq<S>, x: S, allowed: StepRule<S>)
    requires allowed(before)
    ensures var fits := allowed(before + [x]);
            Walked(before, if fits then before + [x] else before, !fits, [x], allowed)
  {
    assert (before + [x])[..|before| + 1] == before + [x];
  }

  /** The next stretch `b` of a walk over `all`: go on, or stop here. */
  lemma WalkStep<S>(before: seq<S>, mid: seq<S>, after: seq<S>, truncated: bool,
                    a: seq<S>, b: seq<S>, rest: seq<S>, all: seq<S>, allowed: StepRule<S>)
    requires all == a + (b + rest)
    requires Walked(before, mid, false, a, allowed)
    requires Walked(mid, after, truncated, b, allowed)
    ensures !truncated ==> Walked(before, after, false, a + b, allowed)
    ensures truncated ==> Walked(before, after, true, all, allowed)
  {
    assert before + (a + b) == mid + b;
    assert before + all == (mid + b) + rest;
    if truncated {
      var n := |after| + 1;
      assert (before + all)[..n] == (mid + b)[..n];
    }
  }

  /** A first stretch `a` of a walk over `a + b`, and the rest of it. */
  lemma WalkHead<S>(before: seq<S>, after: seq<S>, truncated: bool, a: seq<S>, b: seq<S>, allowed: StepRule<S>)
    requires allowed(before) && Walked(before, after, truncated, a, allowed)
    ensures truncated ==> Walked(before, after, truncated, a + b, allowed)
  {
    EmptyLeft(a + b);
    WalkNothing(before, allowed);
    WalkStep(before, before, after, truncated, [], a, b, a + b, allowed);
  }

  lemma WalkTail<S>(before: seq<S>, mid: seq<S>, after: seq<S>, truncated: bool,
                    a: seq<S>, b: seq<S>, allowed: StepRule<S>)
    requires Walked(before, mid, false, a, allowed) && Walked(mid, after, truncated, b, allowed)
    ensures Walked(before, after, truncated, a + b, allowed)
  {
    assert b + [] == b;
    WalkStep(before, mid, after, truncated, a, b, [], a + b, allowed);
  }

  lemma EmptyLeft<T>(xs: seq<T>)
    ensures [] + xs == xs
  {
  }

  lemma EmptyRight<T>(xs: seq<T>)
    ensures xs + [] == xs
  {
  }

  lemma Regroup<T>(a: seq<T>, b: seq<T>, c: seq<T>)
    ensures a + (b + c) == (a + b) + c
  {
  }

  lemma ExtendPrefix<T>(a: seq<T>, part: seq<T>, whole: seq<T>)
    requires part <= whole
    ensures a + part <= a + whole
  {
  }

  lemma PrefixThen<T>(part: seq<T>, whole: seq<T>, rest: seq<T>)
    requires part <= whole
    ensures part <= whole + rest
  {
  }

  // ---- the whole walk ----

  /** What is allowed stays allowed when less is done. */
  ghost predicate Shrinks<S>(all: seq<S>, allowed: StepRule<S>) {
    forall m, n {:trigger all[..m], all[..n]} :: 0 <= m <= n <= |all| && allowed(all[..n]) ==> allowed(all[..m])
  }

  /** The longest part of the walk that is allowed. */
  ghost predicate Longest<S>(part: seq<S>, all: seq<S>, allowed: StepRule<S>) {
    && part <= all && allowed(part)
    && forall n {:trigger all[..n]} :: 0 <= n <= |all| && allowed(all[..n]) ==> n <= |part|
  }

  /** There is only one longest part. */
  lemma LongestIsUnique<S>(a: seq<S>, b: seq<S>, all: seq<S>, allowed: StepRule<S>)
    requires Longest(a, all, allowed) && Longest(b, all, allowed)
    ensures a == b
  {
    assert all[..|a|] == a && all[..|b|] == b;
  }

  /** A walk from the start takes exactly the longest allowed part, and is truncated
      exactly when that is not all of it, that is, when the whole is not allowed. */
  lemma WalkedLongest<S>(after: seq<S>, truncated: bool, all: seq<S>, allowed: StepRule<S>)
    requires Shrinks(all, allowed) && Walked([], after, truncated, all, allowed)
    ensures Longest(after, all, allowed)
    ensures truncated <==> !allowed(all)
    ensures truncated <==> after != all
  {
    EmptyLeft(all);
    assert all[..|all|] == all && all[..|after|] == after;
    assert truncated ==> !allowed(all[..|after| + 1]);
  }

  /** The same for a walk that may only go as far as `safe`: it is truncated exactly when
      that much is not allowed, and then took the longest allowed part of the whole. */
  lemma WalkedPart<S>(after: seq<S>, truncated: bool, safe: seq<S>, whole: seq<S>, allowed: StepRule<S>)
    requires safe <= whole && allowed([]) && Shrinks(safe, allowed) && Shrinks(whole, allowed)
    requires Walked([], after, truncated, safe, allowed)
    ensures truncated <==> !allowed(safe)
    ensures truncated || safe == whole ==> Longest(after, whole, allowed) && (truncated <==> after != whole)
  {
    WalkedLongest(after, truncated, safe, allowed);
    if truncated {
      assert whole == safe + whole[|safe|..];
      WalkHead([], after, truncated, safe, whole[|safe|..], allowed);
    }
    if truncated || safe == whole { WalkedLongest(after, truncated, whole, allowed); }
  }
}
