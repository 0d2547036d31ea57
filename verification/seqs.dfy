/**
 Small sequence helpers shared by the deck, the commentary selector and the
 draw reducer: integer min/max, repetition, stack-style popping from the tail
 of a sequence, and "first element satisfying a predicate" (JavaScript's
 `Array.prototype.find`, returned as an index).
 */
module Seqs {
  import opened Wrappers

  function Min(a: int, b: int): int { if a <= b then a else b }

  function Max(a: int, b: int): int { if a >= b then a else b }

  /** `n` copies of `x` (the source's `Array(n).fill(x)`). */
  function Repeat(x: int, n: nat): (r: seq<int>)
    ensures |r| == n
    ensures forall k :: 0 <= k < n ==> r[k] == x
  {
    seq(n, _ => x)
  }

  /** The sequence read back to front. */
  function Reverse(s: seq<int>): (r: seq<int>)
    ensures |r| == |s|
    ensures forall k :: 0 <= k < |s| ==> r[k] == s[|s| - 1 - k]
  {
    if s == [] then [] else Reverse(s[1..]) + [s[0]]
  }

  /**
   The values returned by `n` successive `pop()` calls on a copy of `stack`,
   skipping the `undefined` a pop on an empty stack yields: the last
   `min(n, |stack|)` elements, most recent (tail) first.
   */
  function Pop(stack: seq<int>, n: int): (popped: seq<int>)
    ensures |popped| == Min(Max(n, 0), |stack|)
    ensures forall k :: 0 <= k < |popped| ==> popped[k] == stack[|stack| - 1 - k]
    decreases |stack|
  {
    if n <= 0 || |stack| == 0 then []
    else [stack[|stack| - 1]] + Pop(stack[..|stack| - 1], n - 1)
  }

  /** `stack` after `n` `pop()` calls whose results are discarded. */
  function DropTail(stack: seq<int>, n: int): (r: seq<int>)
    ensures |r| == Max(|stack| - Max(n, 0), 0)
    ensures r == stack[..|r|]
  {
    stack[..Max(|stack| - Max(n, 0), 0)]
  }

  /**
   Popping speculatively and then dropping as many elements as were popped
   splits the stack exactly: what is left, followed by the popped values put
   back in stack order, is the original stack.
   */
  lemma {:induction false} PopThenDrop(stack: seq<int>, n: int)
    ensures DropTail(stack, |Pop(stack, n)|) + Reverse(Pop(stack, n)) == stack
  {
    var popped := Pop(stack, n);
    var rest := DropTail(stack, |popped|);
    var back := Reverse(popped);
    assert |rest| + |back| == |stack|;
    forall k | 0 <= k < |stack|
      ensures (rest + back)[k] == stack[k]
    {
      if k >= |rest| {
        assert back[k - |rest|] == popped[|popped| - 1 - (k - |rest|)];
      }
    }
  }

  /** A sequence without repeated elements has as many distinct elements as entries. */
  lemma {:induction false} DistinctElems<T>(xs: seq<T>)
    requires forall k, m :: 0 <= k < m < |xs| ==> xs[k] != xs[m]
    ensures |set x | x in xs| == |xs|
  {
    if xs != [] {
      DistinctElems(xs[1..]);
      assert (set x | x in xs) == {xs[0]} + (set x | x in xs[1..]);
      assert xs[0] !in (set x | x in xs[1..]);
    }
  }

  /** A subset has no more members than its superset. */
  lemma SubsetCard<T>(a: set<T>, b: set<T>)
    requires a <= b
    ensures |a| <= |b|
  {
    assert a + (b - a) == b;
    assert a * (b - a) == {};
  }

  /** Index of the first element satisfying `p`, or `None` when none does. */
  function FirstWhere<T>(s: seq<T>, p: T -> bool): (r: Option<nat>)
    ensures r.Some? ==> r.value < |s| && p(s[r.value])
    ensures r.Some? ==> forall k :: 0 <= k < r.value ==> !p(s[k])
    ensures r.None? <==> forall k :: 0 <= k < |s| ==> !p(s[k])
    decreases |s|
  {
    if s == [] then None
    else if p(s[0]) then Some(0)
    else
      match FirstWhere(s[1..], p)
      case None => None
      case Some(k) => Some(k + 1)
  }
}
