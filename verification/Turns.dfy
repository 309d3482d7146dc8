/** How the steps a task takes and its preemptions make up a run, given what a schedule proposes for the others. */
module Turns {
  import opened Subsequence

  /** A step of the caller's own, or a point at which the others may run. */
  datatype Move<L, W> = Did(step: L) | Yielded(me: W)

  /** The steps the others take, out of those proposed. */
  function Others<L, W(==)>(me: W, labels: seq<L>, owner: L -> W): seq<L> {
    if labels == [] then []
    else if owner(labels[0]) == me then Others(me, labels[1..], owner)
    else [labels[0]] + Others(me, labels[1..], owner)
  }

  /** They are all the steps the caller does not own, each as often as it is proposed, in order, and no others. */
  lemma {:induction false} OthersExactly<L(!new), W>(me: W, labels: seq<L>, owner: L -> W)
    ensures forall l :: multiset(Others(me, labels, owner))[l] == if owner(l) == me then 0 else multiset(labels)[l]
    ensures IsSubsequence(Others(me, labels, owner), labels)
    ensures forall i :: 0 <= i < |Others(me, labels, owner)| ==> owner(Others(me, labels, owner)[i]) != me
  {
    if labels == [] {
      Reflexive<L>([]);
    } else {
      var first, rest := labels[0], labels[1..];
      assert labels == [first] + rest;
      OthersExactly(me, rest, owner);
      if owner(first) == me {
        Skip(Others(me, rest, owner), first, rest);
      } else {
        Take(Others(me, rest, owner), first, rest);
      }
    }
  }

  ghost function Yields<L, W>(log: seq<Move<L, W>>): nat {
    if log == [] then 0 else Yields(log[..|log| - 1]) + if log[|log| - 1].Yielded? then 1 else 0
  }

  /** The run that a log of moves amounts to: the n-th preemption lets the others take the n-th batch. */
  ghost function Play<L, W>(log: seq<Move<L, W>>, plan: seq<seq<L>>, owner: L -> W): seq<L> {
    if log == [] then []
    else
      var front := log[..|log| - 1];
      Play(front, plan, owner) +
      match log[|log| - 1]
      case Did(l) => [l]
      case Yielded(me) => if Yields(front) < |plan| then Others(me, plan[Yields(front)], owner) else []
  }

  /** A longer log amounts to a longer run. */
  lemma {:induction false} PlayGrows<L, W>(log: seq<Move<L, W>>, longer: seq<Move<L, W>>, plan: seq<seq<L>>,
                                           owner: L -> W)
    requires log <= longer
    ensures Play(log, plan, owner) <= Play(longer, plan, owner)
    decreases |longer|
  {
    if |log| < |longer| {
      PlayGrows(log, longer[..|longer| - 1], plan, owner);
    } else {
      assert log == longer;
    }
  }

  ghost function Rest<L>(plan: seq<seq<L>>, n: nat): seq<seq<L>> {
    if n <= |plan| then plan[n..] else []
  }

  lemma PlayDid<L, W>(log: seq<Move<L, W>>, l: L, plan: seq<seq<L>>, owner: L -> W)
    ensures Play(log + [Did(l)], plan, owner) == Play(log, plan, owner) + [l]
    ensures Yields(log + [Did(l)]) == Yields(log)
  {
    assert (log + [Did(l)])[..|log|] == log;
  }

  lemma PlayYielded<L, W>(log: seq<Move<L, W>>, me: W, plan: seq<seq<L>>, owner: L -> W)
    ensures var left := Rest(plan, Yields(log));
            && Play(log + [Yielded(me)], plan, owner)
               == Play(log, plan, owner) + (if left == [] then [] else Others(me, left[0], owner))
            && Rest(plan, Yields(log + [Yielded(me)])) == if left == [] then [] else left[1..]
  {
    assert (log + [Yielded(me)])[..|log|] == log;
  }
}
