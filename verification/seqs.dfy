/** Sequence helpers: sequences without repeated elements, and mapping and flattening. */
module Seqs {

  predicate Distinct<T(==)>(s: seq<T>) {
    forall i, j | 0 <= i < j < |s| :: s[i] != s[j]
  }

  function Elems<T>(s: seq<T>): set<T> {
    set x | x in s
  }

  /** A sequence without repetitions has as many distinct elements as positions. */
  lemma {:induction false} DistinctCard<T>(s: seq<T>)
    requires Distinct(s)
    ensures |Elems(s)| == |s|
    decreases |s|
  {
    if |s| > 0 {
      var tail := s[1..];
      assert Distinct(tail);
      DistinctCard(tail);
      assert s[0] !in Elems(tail);
      assert Elems(s) == {s[0]} + Elems(tail);
    }
  }

  /** `f` applied to every element, in order. */
  function Map<A, B>(f: A -> B, xs: seq<A>): (ys: seq<B>)
    ensures |ys| == |xs|
  {
    seq(|xs|, i requires 0 <= i < |xs| => f(xs[i]))
  }

  lemma MapAppend<A, B>(f: A -> B, xs: seq<A>, zs: seq<A>)
    ensures Map(f, xs + zs) == Map(f, xs) + Map(f, zs)
  {
  }

  lemma AppendAssoc<T>(a: seq<T>, b: seq<T>, c: seq<T>)
    ensures a + (b + c) == (a + b) + c
  {
  }

  /** The pieces joined end to end: `"".join(ws)` for words, and a stream's events in order. */
  function Concat<T>(ws: seq<seq<T>>): seq<T>
    decreases |ws|
  {
    if |ws| == 0 then [] else ws[0] + Concat(ws[1..])
  }

  lemma {:induction false} ConcatAppend<T>(a: seq<seq<T>>, b: seq<seq<T>>)
    ensures Concat(a + b) == Concat(a) + Concat(b)
    decreases |a|
  {
    if |a| > 0 {
      assert (a + b)[1..] == a[1..] + b;
      ConcatAppend(a[1..], b);
    } else {
      assert a + b == b;
    }
  }

  lemma ConcatOne<T>(w: seq<T>)
    ensures Concat([w]) == w
  {
    assert [w][1..] == [];
    assert w + [] == w;
  }

  /** The pieces `f(1)`, ..., `f(n)` joined end to end, as a loop appending one piece per round writes them. */
  function Accumulate<T>(f: nat -> seq<T>, n: nat): seq<T>
    decreases n
  {
    if n == 0 then [] else Accumulate(f, n - 1) + f(n)
  }

  /** What the loop wrote after `m` rounds begins what it wrote after `n` >= `m` rounds. */
  lemma {:induction false} AccumulatePrefix<T>(f: nat -> seq<T>, m: nat, n: nat)
    requires m <= n
    ensures Accumulate(f, m) <= Accumulate(f, n)
    decreases n
  {
    if m < n {
      AccumulatePrefix(f, m, n - 1);
      var a, b := Accumulate(f, m), Accumulate(f, n - 1);
      assert (b + f(n))[..|a|] == b[..|a|];
    }
  }
}
