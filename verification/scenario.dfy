/**
 A worked two-horse race: track length 2, two cards per horse, one card per
 draw, single mode, and a shuffle source that leaves the deck in build order.
 Horse 1's cards sit on top, so it finishes first; with only two horses the
 round closes as soon as horse 0 follows it.
 */
module RaceScenario {
  import opened Wrappers
  import opened Seqs
  import opened Types
  import opened Deck
  import opened Race

  const Cfg := Config(2, 2, 2, 1, Single, 1)

  /** The state of the race as far as the next draw is concerned. */
  predicate At(s: GameState, horses: seq<Horse>, deck: seq<int>, finishers: seq<int>, next: seq<int>)
  {
    && s.config == Cfg && s.currentRound == 1 && s.status == Playing
    && s.horses == horses && s.deck == deck && s.finishers == finishers
    && s.pendingTurn.Some? && s.pendingTurn.value.drawnIds == next
  }

  function Moved(h: Horse, position: int, cards: seq<int>, rank: Option<Rank>): Horse
  {
    h.(position := position, drawnCards := cards, finishRank := rank)
  }

  /** One pass over a two-horse field, from the two horse steps. */
  lemma Field(hs: seq<Horse>, drawn: seq<int>, finishers: seq<int>, a: HorseStep, b: HorseStep)
    requires |hs| == 2
    requires AdvanceHorse(hs[0], drawn, 2, finishers) == a
    requires AdvanceHorse(hs[1], drawn, 2, a.finishers) == b
    ensures AdvanceAll(hs, drawn, 2, finishers) == FieldStep([a.horse, b.horse], b.finishers)
  {
    assert hs[1..][0] == hs[1] && hs[1..][1..] == [];
    assert AdvanceAll(hs[1..][1..], drawn, 2, b.finishers) == FieldStep([], b.finishers);
    assert AdvanceAll(hs[1..], drawn, 2, a.finishers) == FieldStep([b.horse], b.finishers);
  }

  lemma IdentityShuffle(d: seq<int>)
    requires |d| == 4
    ensures Shuffle(d, [0, 1, 2, 3]) == d
  {
    var rolls: seq<nat> := [0, 1, 2, 3];
    assert forall k :: 0 < k <= 3 ==> rolls[k] == k;
    IdentityRollsKeepOrder(d, rolls, 3);
  }

  lemma FreshField()
    ensures RoundHorses(Cfg, None) == [FreshHorse(0), FreshHorse(1)]
  {
  }

  lemma BuiltDeck()
    ensures BuildDeck([FreshHorse(0), FreshHorse(1)], 2) == [0, 0, 1, 1]
  {
    var hs := [FreshHorse(0), FreshHorse(1)];
    assert hs[1..] == [FreshHorse(1)] && hs[1..][1..] == [];
    assert BuildDeck(hs[1..][1..], 2) == [];
    assert Repeat(1, 2) == [1, 1] && Repeat(0, 2) == [0, 0];
  }

  lemma Start(roll: nat)
    ensures At(StartRound(Cfg, 1, None, [0, 1, 2, 3], roll), [FreshHorse(0), FreshHorse(1)], [0, 0, 1, 1], [], [1])
  {
    var s := StartRound(Cfg, 1, None, [0, 1, 2, 3], roll);
    FreshField();
    BuiltDeck();
    IdentityShuffle([0, 0, 1, 1]);
    assert Pop([0, 0, 1, 1], 1) == [1];
  }

  lemma FirstDraw(s: GameState, roll: nat)
    requires At(s, [FreshHorse(0), FreshHorse(1)], [0, 0, 1, 1], [], [1])
    ensures At(Draw(s, roll).state, [FreshHorse(0), Moved(FreshHorse(1), 1, [1], None)], [0, 0, 1], [], [1])
  {
    var hs := s.horses;
    var drawn := [1];
    assert multiset(drawn)[0] == 0 && multiset(drawn)[1] == 1;
    assert Repeat(1, 1) == [1] && [] + [1] == [1];
    Field(hs, drawn, [], HorseStep(hs[0], []), HorseStep(Moved(hs[1], 1, [1], None), []));
    assert DropTail([0, 0, 1, 1], 1) == [0, 0, 1];
    assert Pop([0, 0, 1], 1) == [1];
  }

  lemma SecondDraw(s: GameState, roll: nat)
    requires At(s, [FreshHorse(0), Moved(FreshHorse(1), 1, [1], None)], [0, 0, 1], [], [1])
    ensures At(Draw(s, roll).state, [FreshHorse(0), Moved(FreshHorse(1), 2, [1, 1], Some(1))], [0, 0], [1], [0])
  {
    var hs := s.horses;
    var drawn := [1];
    assert multiset(drawn)[0] == 0 && multiset(drawn)[1] == 1;
    assert Repeat(1, 1) == [1] && [1] + [1] == [1, 1];
    Field(hs, drawn, [], HorseStep(hs[0], []), HorseStep(Moved(FreshHorse(1), 2, [1, 1], Some(1)), [1]));
    assert DropTail([0, 0, 1], 1) == [0, 0];
    assert Pop([0, 0], 1) == [0];
  }

  lemma ThirdDraw(s: GameState, roll: nat)
    requires At(s, [FreshHorse(0), Moved(FreshHorse(1), 2, [1, 1], Some(1))], [0, 0], [1], [0])
    ensures At(Draw(s, roll).state, [Moved(FreshHorse(0), 1, [0], None), Moved(FreshHorse(1), 2, [1, 1], Some(1))], [0], [1], [0])
  {
    var hs := s.horses;
    var drawn := [0];
    assert multiset(drawn)[0] == 1 && multiset(drawn)[1] == 0;
    assert Repeat(0, 1) == [0] && [] + [0] == [0];
    Field(hs, drawn, [1], HorseStep(Moved(FreshHorse(0), 1, [0], None), [1]), HorseStep(hs[1], [1]));
    assert DropTail([0, 0], 1) == [0];
    assert Pop([0], 1) == [0];
  }

  lemma LastDraw(s: GameState, roll: nat)
    requires At(s, [Moved(FreshHorse(0), 1, [0], None), Moved(FreshHorse(1), 2, [1, 1], Some(1))], [0], [1], [0])
    ensures var t := Draw(s, roll).state;
      && t.status == RoundFinished && t.finishers == [1, 0] && t.deck == []
      && t.horses == [Moved(FreshHorse(0), 2, [0, 0], Some(2)).(tournamentPoints := 5),
                      Moved(FreshHorse(1), 2, [1, 1], Some(1)).(tournamentPoints := 10)]
  {
    var hs := s.horses;
    var drawn := [0];
    assert multiset(drawn)[0] == 1 && multiset(drawn)[1] == 0;
    assert Repeat(0, 1) == [0] && [0] + [0] == [0, 0];
    Field(hs, drawn, [1], HorseStep(Moved(FreshHorse(0), 2, [0, 0], Some(2)), [1, 0]), HorseStep(hs[1], [1, 0]));
    assert DropTail([0], 1) == [];
  }

  /**
   The whole race: horse 1 is placed first on the second draw while the round
   goes on; horse 0 is placed second on the fourth, which closes the round
   with 10 and 5 points.
   */
  lemma TwoHorseRace(r0: nat, r1: nat, r2: nat, r3: nat, r4: nat)
    ensures var s2 := Draw(Draw(StartRound(Cfg, 1, None, [0, 1, 2, 3], r0), r1).state, r2).state;
      && At(s2, [FreshHorse(0), Moved(FreshHorse(1), 2, [1, 1], Some(1))], [0, 0], [1], [0])
      && var s4 := Draw(Draw(s2, r3).state, r4).state;
         && s4.status == RoundFinished && s4.finishers == [1, 0] && s4.deck == []
         && s4.horses == [Moved(FreshHorse(0), 2, [0, 0], Some(2)).(tournamentPoints := 5),
                          Moved(FreshHorse(1), 2, [1, 1], Some(1)).(tournamentPoints := 10)]
  {
    var s0 := StartRound(Cfg, 1, None, [0, 1, 2, 3], r0);
    Start(r0);
    var s1 := Draw(s0, r1).state;
    FirstDraw(s0, r1);
    var s2 := Draw(s1, r2).state;
    SecondDraw(s1, r2);
    var s3 := Draw(s2, r3).state;
    ThirdDraw(s2, r3);
    LastDraw(s3, r4);
  }
}
