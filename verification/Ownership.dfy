/** Who holds a heap buffer: counting the entries of a queue that point to it. */
module Ownership {

  /** Buffers are identities that are never reused. */
  type Address = nat

  /** How many entries of a queue point to buffer `a`. */
  function Held<T>(queue: seq<T>, points: (T, Address) -> bool, a: Address): nat {
    if queue == [] then 0 else (if points(queue[0], a) then 1 else 0) + Held(queue[1..], points, a)
  }

  lemma {:induction false} HeldJoin<T>(p: seq<T>, q: seq<T>, points: (T, Address) -> bool, a: Address)
    ensures Held(p + q, points, a) == Held(p, points, a) + Held(q, points, a)
    decreases |p|
  {
    if p == [] {
      assert p + q == q;
    } else {
      assert (p + q)[1..] == p[1..] + q;
      HeldJoin(p[1..], q, points, a);
    }
  }

  lemma HeldPush<T>(queue: seq<T>, entry: T, points: (T, Address) -> bool, a: Address)
    ensures Held(queue + [entry], points, a) == Held(queue, points, a) + if points(entry, a) then 1 else 0
  {
    HeldJoin(queue, [entry], points, a);
    assert [entry][1..] == [];
  }

  lemma {:induction false} HeldHere<T>(queue: seq<T>, i: nat, points: (T, Address) -> bool, a: Address)
    requires i < |queue| && points(queue[i], a)
    ensures Held(queue, points, a) >= 1
    decreases i
  {
    if i > 0 {
      HeldHere(queue[1..], i - 1, points, a);
    }
  }

  /** Each entry points to at most one buffer. */
  ghost predicate Single<T(!new)>(points: (T, Address) -> bool) {
    forall entry, a, b :: points(entry, a) && points(entry, b) ==> a == b
  }

  /** The buffers of a set that a queue points to. */
  function Pointed<T>(live: set<Address>, queue: seq<T>, points: (T, Address) -> bool): set<Address> {
    set a | a in live && Held(queue, points, a) > 0
  }

  /** They are no more than its entries. */
  lemma {:induction false} PointedBound<T(!new)>(live: set<Address>, queue: seq<T>, points: (T, Address) -> bool)
    requires Single(points)
    ensures |Pointed(live, queue, points)| <= |queue|
    decreases |queue|
  {
    if queue == [] {
      assert Pointed(live, queue, points) == {};
    } else {
      PointedBound(live, queue[1..], points);
      var head := set a | a in live && points(queue[0], a);
      AtMostOne(head, queue[0], points);
      assert Pointed(live, queue, points) == head + Pointed(live, queue[1..], points);
      UnionBound(head, Pointed(live, queue[1..], points));
    }
  }

  lemma AtMostOne<T(!new)>(head: set<Address>, entry: T, points: (T, Address) -> bool)
    requires Single(points) && forall a :: a in head ==> points(entry, a)
    ensures |head| <= 1
  {
    if head != {} {
      var a :| a in head;
      assert head == {a};
    }
  }

  lemma UnionBound(a: set<Address>, b: set<Address>)
    ensures |a + b| <= |a| + |b|
  {
    assert a + b == a + (b - a);
  }

  lemma {:induction false} SubsetBound(a: set<Address>, b: set<Address>)
    requires a <= b
    ensures |a| <= |b|
  {
    assert b == a + (b - a);
  }
}
