/**
 The deck builder: every horse contributes `cardsPerHorse` cards carrying its
 id, horse by horse, and the pile is then shuffled Fisher-Yates style from the
 last index down to 1. The random index drawn at step `i` is injected as
 `rolls[i]`, which must lie in [0, i]; `rolls[0]` is never consulted.
 */
module Deck {
  import opened Seqs
  import opened Types

  /** Number of cards carrying `x` when every horse brings `c` cards. */
  function CardsFor(horses: seq<Horse>, x: int, c: nat): nat
  {
    if horses == [] then 0
    else (if horses[0].id == x then c else 0) + CardsFor(horses[1..], x, c)
  }

  predicate DistinctIds(horses: seq<Horse>)
  {
    forall i, j :: 0 <= i < j < |horses| ==> horses[i].id != horses[j].id
  }

  lemma MultisetOfRepeat(x: int, n: nat)
    ensures multiset(Repeat(x, n)) == multiset{} [x := n]
  {
    if n > 0 {
      assert Repeat(x, n) == Repeat(x, n - 1) + [x];
      MultisetOfRepeat(x, n - 1);
    }
  }

  /** The unshuffled deck, horse by horse in array order. */
  function BuildDeck(horses: seq<Horse>, cardsPerHorse: int): (deck: seq<int>)
    ensures |deck| == |horses| * Max(cardsPerHorse, 0)
    ensures forall x :: multiset(deck)[x] == CardsFor(horses, x, Max(cardsPerHorse, 0))
  {
    if horses == [] then []
    else
      var c := Max(cardsPerHorse, 0);
      var own := Repeat(horses[0].id, c);
      var rest := BuildDeck(horses[1..], cardsPerHorse);
      BuildDeckStep(horses, c, own, rest);
      own + rest
  }

  lemma BuildDeckStep(horses: seq<Horse>, c: nat, own: seq<int>, rest: seq<int>)
    requires horses != []
    requires own == Repeat(horses[0].id, c)
    requires |rest| == (|horses| - 1) * c
    requires forall x :: multiset(rest)[x] == CardsFor(horses[1..], x, c)
    ensures |own + rest| == |horses| * c
    ensures forall x :: multiset(own + rest)[x] == CardsFor(horses, x, c)
  {
    Distribute(c, 1, |horses| - 1);
    MultisetOfRepeat(horses[0].id, c);
    assert multiset(own + rest) == multiset(own) + multiset(rest);
  }

  lemma Distribute(c: int, a: int, b: int)
    ensures c * (a + b) == c * a + c * b
  {
  }

  lemma {:induction false} DistinctIdCountsOnce(horses: seq<Horse>, i: nat, c: nat)
    requires DistinctIds(horses)
    requires i < |horses|
    ensures CardsFor(horses, horses[i].id, c) == c
  {
    if i == 0 {
      assert forall j :: 0 <= j < |horses[1..]| ==> horses[1..][j].id != horses[0].id;
      IdAbsent(horses[1..], horses[0].id, c);
    } else {
      DistinctIdCountsOnce(horses[1..], i - 1, c);
    }
  }

  lemma {:induction false} IdAbsent(horses: seq<Horse>, id: int, c: nat)
    requires forall j :: 0 <= j < |horses| ==> horses[j].id != id
    ensures CardsFor(horses, id, c) == 0
  {
    if horses != [] {
      IdAbsent(horses[1..], id, c);
    }
  }

  /**
   With distinct ids the built deck holds exactly `cardsPerHorse` cards of
   each horse and no card of anything else.
   */
  lemma BuildDeckCounts(horses: seq<Horse>, cardsPerHorse: nat)
    requires DistinctIds(horses)
    ensures forall i :: 0 <= i < |horses| ==> multiset(BuildDeck(horses, cardsPerHorse))[horses[i].id] == cardsPerHorse
    ensures forall x :: (forall i :: 0 <= i < |horses| ==> horses[i].id != x) ==> multiset(BuildDeck(horses, cardsPerHorse))[x] == 0
  {
    forall i | 0 <= i < |horses|
      ensures multiset(BuildDeck(horses, cardsPerHorse))[horses[i].id] == cardsPerHorse
    {
      DistinctIdCountsOnce(horses, i, cardsPerHorse);
    }
    forall x | forall i :: 0 <= i < |horses| ==> horses[i].id != x
      ensures multiset(BuildDeck(horses, cardsPerHorse))[x] == 0
    {
      IdAbsent(horses, x, cardsPerHorse);
    }
  }

  /** The shuffle source: one index in [0, i] for every swap position i. */
  predicate ValidRolls(rolls: seq<nat>, n: nat)
  {
    |rolls| == n && forall i :: 0 < i < n ==> rolls[i] <= i
  }

  function Swap(d: seq<int>, i: nat, j: nat): (r: seq<int>)
    requires i < |d| && j < |d|
    ensures |r| == |d| && r[i] == d[j] && r[j] == d[i]
    ensures forall k :: 0 <= k < |d| && k != i && k != j ==> r[k] == d[k]
    ensures multiset(r) == multiset(d)
  {
    d[i := d[j]][j := d[i]]
  }

  /** Swap steps i, i-1, ..., 1 of the shuffle loop. */
  function ShuffleDown(d: seq<int>, rolls: seq<nat>, i: nat): (r: seq<int>)
    requires i < |d| <= |rolls|
    requires forall k :: 0 < k <= i ==> rolls[k] <= k
    ensures |r| == |d|
    ensures multiset(r) == multiset(d)
    decreases i
  {
    if i == 0 then d
    else ShuffleDown(Swap(d, i, rolls[i]), rolls, i - 1)
  }

  /** The in-place shuffle: only ever a permutation of its input. */
  function Shuffle(d: seq<int>, rolls: seq<nat>): (r: seq<int>)
    requires ValidRolls(rolls, |d|)
    ensures |r| == |d|
    ensures multiset(r) == multiset(d)
  {
    if |d| == 0 then d else ShuffleDown(d, rolls, |d| - 1)
  }

  /** A source that always picks `j == i` leaves the deck in build order. */
  lemma {:induction false} IdentityRollsKeepOrder(d: seq<int>, rolls: seq<nat>, i: nat)
    requires i < |d| <= |rolls|
    requires forall k :: 0 < k <= i ==> rolls[k] == k
    ensures ShuffleDown(d, rolls, i) == d
    decreases i
  {
    if i > 0 {
      assert Swap(d, i, rolls[i]) == d;
      IdentityRollsKeepOrder(d, rolls, i - 1);
    }
  }

  /** Shuffling the built deck keeps exactly `cardsPerHorse` cards per horse. */
  lemma ShuffledDeckCounts(horses: seq<Horse>, cardsPerHorse: nat, rolls: seq<nat>)
    requires DistinctIds(horses)
    requires ValidRolls(rolls, |horses| * cardsPerHorse)
    ensures |Shuffle(BuildDeck(horses, cardsPerHorse), rolls)| == |horses| * cardsPerHorse
    ensures forall i :: 0 <= i < |horses| ==>
      multiset(Shuffle(BuildDeck(horses, cardsPerHorse), rolls))[horses[i].id] == cardsPerHorse
  {
    BuildDeckCounts(horses, cardsPerHorse);
  }
}
