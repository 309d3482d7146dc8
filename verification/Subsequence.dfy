/** In-order, duplicate-free selection from a sequence. */
module Subsequence {

  /** `at` picks the elements of `a` out of `b`, from left to right and none twice. */
  ghost predicate Embeds<T>(a: seq<T>, b: seq<T>, at: seq<int>) {
    && |at| == |a|
    && (forall i :: 0 <= i < |at| ==> 0 <= at[i] < |b| && a[i] == b[at[i]])
    && (forall i, j :: 0 <= i < j < |at| ==> at[i] < at[j])
  }

  ghost predicate IsSubsequence<T>(a: seq<T>, b: seq<T>) {
    exists at :: Embeds(a, b, at)
  }

  lemma Reflexive<T>(a: seq<T>)
    ensures IsSubsequence(a, a)
  {
    assert Embeds(a, a, seq(|a|, i => i));
  }

  /** Leaving out a stretch of the selection leaves a selection. */
  lemma DropMiddle<T>(x: seq<T>, y: seq<T>, z: seq<T>, b: seq<T>)
    requires IsSubsequence(x + y + z, b)
    ensures IsSubsequence(x + z, b)
  {
    var at :| Embeds(x + y + z, b, at);
    var rest := at[..|x|] + at[|x| + |y|..];
    forall i | 0 <= i < |rest| ensures 0 <= rest[i] < |b| && (x + z)[i] == b[rest[i]] {
      assert (x + z)[i] == (x + y + z)[if i < |x| then i else i + |y|];
    }
    assert Embeds(x + z, b, rest);
  }

  /** Both sides may grow by the same elements at the end. */
  lemma Extend<T>(a: seq<T>, b: seq<T>, more: seq<T>)
    requires IsSubsequence(a, b)
    ensures IsSubsequence(a + more, b + more)
  {
    var at :| Embeds(a, b, at);
    var longer := at + seq(|more|, i => |b| + i);
    assert Embeds(a + more, b + more, longer);
  }

  /** A prefix of a selection is a selection. */
  lemma Prefix<T>(a: seq<T>, rest: seq<T>, b: seq<T>)
    requires IsSubsequence(a + rest, b)
    ensures IsSubsequence(a, b)
  {
    assert a + rest == a + rest + [];
    DropMiddle(a, rest, [], b);
    assert a + [] == a;
  }

  /** An element of the larger sequence may be passed over. */
  lemma Skip<T>(a: seq<T>, first: T, b: seq<T>)
    requires IsSubsequence(a, b)
    ensures IsSubsequence(a, [first] + b)
  {
    var at :| Embeds(a, b, at);
    assert Embeds(a, [first] + b, seq(|at|, i requires 0 <= i < |at| => at[i] + 1));
  }

  /** Or be the first one selected. */
  lemma Take<T>(a: seq<T>, first: T, b: seq<T>)
    requires IsSubsequence(a, b)
    ensures IsSubsequence([first] + a, [first] + b)
  {
    var at :| Embeds(a, b, at);
    assert Embeds([first] + a, [first] + b, [0] + seq(|at|, i requires 0 <= i < |at| => at[i] + 1));
  }

  /** Selecting step by step: the first element is the next one selected, or passed over. */
  predicate Selects<T(==)>(a: seq<T>, b: seq<T>)
    decreases |b|
  {
    if a == [] then true
    else if b == [] then false
    else (a[0] == b[0] && Selects(a[1..], b[1..])) || Selects(a, b[1..])
  }

  /** The two definitions agree, and what is selected occurs at least as often in the larger sequence. */
  lemma {:induction false} SelectsExactly<T>(a: seq<T>, b: seq<T>)
    ensures IsSubsequence(a, b) <==> Selects(a, b)
    ensures IsSubsequence(a, b) ==> multiset(a) <= multiset(b)
    decreases |b|
  {
    if a == [] {
      assert Embeds(a, b, []);
    } else if b == [] {
      forall at ensures !Embeds(a, b, at) {
        if Embeds(a, b, at) {
          FirstFits(a, b, at);
        }
      }
    } else {
      assert a == [a[0]] + a[1..] && b == [b[0]] + b[1..];
      SelectsExactly(a, b[1..]);
      SelectsExactly(a[1..], b[1..]);
      if IsSubsequence(a, b) {
        FirstOrLater(a, b);
      }
      if a[0] == b[0] && IsSubsequence(a[1..], b[1..]) {
        Take(a[1..], b[0], b[1..]);
      }
      if IsSubsequence(a, b[1..]) {
        Skip(a, b[0], b[1..]);
      }
    }
  }

  lemma FirstFits<T>(a: seq<T>, b: seq<T>, at: seq<int>)
    requires a != [] && Embeds(a, b, at)
    ensures 0 <= at[0] < |b|
  {
  }

  lemma FirstOrLater<T>(a: seq<T>, b: seq<T>)
    requires a != [] && b != [] && IsSubsequence(a, b)
    ensures (a[0] == b[0] && IsSubsequence(a[1..], b[1..])) || IsSubsequence(a, b[1..])
  {
    var at :| Embeds(a, b, at);
    if at[0] == 0 {
      assert Embeds(a[1..], b[1..], seq(|a| - 1, i requires 0 <= i < |a| - 1 => at[i + 1] - 1));
    } else {
      assert Embeds(a, b[1..], seq(|a|, i requires 0 <= i < |a| => at[i] - 1));
    }
  }
}
