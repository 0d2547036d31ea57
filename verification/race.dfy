/**
 The race engine: round start, the look-ahead (`prepareNextTurn`), the draw
 reducer (`drawCards`, split into `Resolve` and the `Prepare` it triggers)
 and the next-round transition. Every transition is a pure function of the
 previous state; randomness is injected (`rolls` for the shuffle, `roll` for
 the commentary template).
 */
module Race {
  import opened Wrappers
  import opened Seqs
  import opened Types
  import opened Deck
  import opened Commentator

  /** What a user action yields: the next state and the message shown, if any. */
  datatype Step = Step(state: GameState, commentary: Option<Commentary>)

  /** Finishers needed to end a round: three, or every horse when fewer. */
  function FinishersNeeded(horses: seq<Horse>): int
  {
    Min(3, |horses|)
  }

  // ---------------------------------------------------------------- round start

  /** A carried-over horse at the start of a round: identity and points kept. */
  function ResetHorse(h: Horse): Horse
  {
    h.(position := 0, drawnCards := [], finishRank := None)
  }

  /** The `i`-th horse of a new series. */
  function FreshHorse(i: nat): Horse
  {
    Horse(i, HorseNames[i % |HorseNames|], i % |HorseNames|, 0, [], None, 0)
  }

  /** The field of a new round: carried horses reset, or a fresh field. */
  function RoundHorses(cfg: Config, carried: Option<seq<Horse>>): (hs: seq<Horse>)
    ensures |hs| == (if carried.Some? then |carried.value| else Max(cfg.horseCount, 0))
    // every horse starts the round at the gate with no history and no place
    ensures forall i :: 0 <= i < |hs| ==>
      hs[i].position == 0 && hs[i].drawnCards == [] && hs[i].finishRank.None?
    // carried horses keep who they are and what they have scored
    ensures carried.Some? ==> forall i :: 0 <= i < |hs| ==>
      SameIdentity(hs[i], carried.value[i]) && hs[i].tournamentPoints == carried.value[i].tournamentPoints
    // fresh horses are numbered by position, named from the table and start without points
    ensures carried.None? ==> forall i :: 0 <= i < |hs| ==>
      hs[i].id == i && hs[i].name == HorseNames[i % 10] && hs[i].tournamentPoints == 0
  {
    match carried
    case Some(field) => seq(|field|, i requires 0 <= i < |field| => ResetHorse(field[i]))
    case None => seq(Max(cfg.horseCount, 0), i requires 0 <= i => FreshHorse(i))
  }

  function StartRound(cfg: Config, round: int, carried: Option<seq<Horse>>, rolls: seq<nat>, roll: nat): (s: GameState)
    requires ValidRolls(rolls, |RoundHorses(cfg, carried)| * Max(cfg.cardsPerHorse, 0))
    ensures s.config == cfg && s.currentRound == round && s.currentTurn == 0
    ensures s.status == Playing && s.finishers == [] && s.lastDrawn == []
    ensures s.horses == RoundHorses(cfg, carried)
    // the deck is a permutation of `cardsPerHorse` cards per horse
    ensures |s.deck| == |s.horses| * Max(cfg.cardsPerHorse, 0)
    ensures multiset(s.deck) == multiset(BuildDeck(s.horses, cfg.cardsPerHorse))
    ensures s.deck == Shuffle(BuildDeck(s.horses, cfg.cardsPerHorse), rolls)
    // the first look-ahead is in place whenever there is a card to draw
    ensures |s.deck| > 0 && |s.horses| > 0 ==>
      && s.pendingTurn.Some?
      && s.pendingTurn.value.drawnIds == Pop(s.deck, cfg.drawCount)
      && s.pendingTurn.value.commentary ==
           LocalCommentary(s.pendingTurn.value.drawnIds, s.horses, [], cfg.trackLength, false, roll)
    ensures |s.deck| == 0 ==> s.pendingTurn.None?
  {
    var horses := RoundHorses(cfg, carried);
    var deck := Shuffle(BuildDeck(horses, cfg.cardsPerHorse), rolls);
    var opening := GameState(cfg, horses, deck, 0, round, Playing, [], [], None);
    assert |deck| > 0 && |horses| > 0 ==> |opening.finishers| < FinishersNeeded(horses);
    Prepare(opening, roll)
  }

  // ---------------------------------------------------------------- look-ahead

  /**
   Computes the next draw without consuming it: the top `drawCount` cards in
   pop order and the commentary for them. Nothing happens once the deck is
   empty or enough horses have finished.
   */
  function Prepare(s: GameState, roll: nat): (r: GameState)
    ensures |s.deck| == 0 || |s.finishers| >= FinishersNeeded(s.horses) ==> r == s
    ensures |s.deck| > 0 && |s.finishers| < FinishersNeeded(s.horses) ==>
      && r == s.(pendingTurn := r.pendingTurn)
      && r.pendingTurn.Some?
      && |r.pendingTurn.value.drawnIds| == Min(Max(s.config.drawCount, 0), |s.deck|)
      && (forall k :: 0 <= k < |r.pendingTurn.value.drawnIds| ==>
            r.pendingTurn.value.drawnIds[k] == s.deck[|s.deck| - 1 - k])
      && r.pendingTurn.value.commentary ==
           LocalCommentary(r.pendingTurn.value.drawnIds, s.horses, s.finishers, s.config.trackLength, false, roll)
  {
    if |s.deck| == 0 || |s.finishers| >= FinishersNeeded(s.horses) then s
    else
      var drawn := Pop(s.deck, s.config.drawCount);
      var c := LocalCommentary(drawn, s.horses, s.finishers, s.config.trackLength, false, roll);
      s.(pendingTurn := Some(PendingTurn(drawn, c)))
  }

  // ---------------------------------------------------------------- draw resolution

  datatype HorseStep = HorseStep(horse: Horse, finishers: seq<int>)
  datatype FieldStep = FieldStep(horses: seq<Horse>, finishers: seq<int>)

  predicate NewlyRanked(before: Horse, after: Horse)
  {
    before.finishRank.None? && after.finishRank.Some?
  }

  /**
   How a draw may change one horse: a placed horse, or one with no card in
   the draw, is untouched; any other moves one step per card, stopping at the
   line, records the cards, and may receive a place only at the line.
   */
  predicate MovedBy(h: Horse, h': Horse, drawn: seq<int>, trackLength: int)
  {
    var moves := multiset(drawn)[h.id];
    if h.finishRank.Some? || moves == 0 then h' == h
    else
      && h'.position == Min(h.position + moves, trackLength)
      && h'.drawnCards == h.drawnCards + Repeat(h.id, moves)
      && h' == h.(position := h'.position, drawnCards := h'.drawnCards, finishRank := h'.finishRank)
      && (h'.finishRank.Some? ==> h'.position >= trackLength)
  }

  /** One iteration of the horse map in the draw reducer. */
  function AdvanceHorse(h: Horse, drawn: seq<int>, trackLength: int, finishers: seq<int>): (r: HorseStep)
    ensures MovedBy(h, r.horse, drawn, trackLength)
    ensures r.finishers == finishers <==> !NewlyRanked(h, r.horse)
    ensures NewlyRanked(h, r.horse) ==>
      r.finishers == finishers + [h.id] && r.horse.finishRank.value == |r.finishers|
    // a horse that reaches the line unplaced is placed exactly when a podium spot is left
    ensures h.finishRank.None? && multiset(drawn)[h.id] > 0 && r.horse.position >= trackLength ==>
      (NewlyRanked(h, r.horse) <==> |finishers| < 3)
  {
    if h.finishRank.Some? then HorseStep(h, finishers)
    else
      var moves := multiset(drawn)[h.id];
      if moves == 0 then HorseStep(h, finishers)
      else
        var moved := h.(position := Min(h.position + moves, trackLength),
                        drawnCards := h.drawnCards + Repeat(h.id, moves));
        if moved.position >= trackLength && |finishers| < 3 then
          HorseStep(moved.(finishRank := Some(|finishers| + 1)), finishers + [h.id])
        else
          HorseStep(moved, finishers)
  }

  /** The whole horse map, threading the finisher list in array order. */
  function AdvanceAll(hs: seq<Horse>, drawn: seq<int>, trackLength: int, finishers: seq<int>): (r: FieldStep)
    ensures |r.horses| == |hs|
    // the finisher list only grows at its end ...
    ensures |finishers| <= |r.finishers| && r.finishers[..|finishers|] == finishers
    // ... and never past three entries
    ensures |r.finishers| <= 3 || r.finishers == finishers
    decreases |hs|
  {
    if hs == [] then FieldStep([], finishers)
    else
      var first := AdvanceHorse(hs[0], drawn, trackLength, finishers);
      var rest := AdvanceAll(hs[1..], drawn, trackLength, first.finishers);
      FieldStep([first.horse] + rest.horses, rest.finishers)
  }

  lemma {:induction false} AdvanceAllMoves(hs: seq<Horse>, drawn: seq<int>, trackLength: int, finishers: seq<int>)
    ensures var r := AdvanceAll(hs, drawn, trackLength, finishers);
      forall i :: 0 <= i < |hs| ==> MovedBy(hs[i], r.horses[i], drawn, trackLength)
    decreases |hs|
  {
    if hs != [] {
      var first := AdvanceHorse(hs[0], drawn, trackLength, finishers);
      AdvanceAllMoves(hs[1..], drawn, trackLength, first.finishers);
      var r := AdvanceAll(hs, drawn, trackLength, finishers);
      var rest := AdvanceAll(hs[1..], drawn, trackLength, first.finishers);
      forall i | 1 <= i < |hs|
        ensures MovedBy(hs[i], r.horses[i], drawn, trackLength)
      {
        assert hs[i] == hs[1..][i - 1] && r.horses[i] == rest.horses[i - 1];
      }
    }
  }

  /**
   A horse newly placed by a draw gets the place just after those already
   held, and its id sits at that place in the finisher list.
   */
  lemma {:induction false} AdvanceAllRanks(hs: seq<Horse>, drawn: seq<int>, trackLength: int, finishers: seq<int>)
    ensures var r := AdvanceAll(hs, drawn, trackLength, finishers);
      forall i :: 0 <= i < |hs| && NewlyRanked(hs[i], r.horses[i]) ==>
        && |finishers| < r.horses[i].finishRank.value <= |r.finishers|
        && r.finishers[r.horses[i].finishRank.value - 1] == hs[i].id
    decreases |hs|
  {
    if hs != [] {
      var first := AdvanceHorse(hs[0], drawn, trackLength, finishers);
      AdvanceAllRanks(hs[1..], drawn, trackLength, first.finishers);
      var rest := AdvanceAll(hs[1..], drawn, trackLength, first.finishers);
      RankOfHead(hs, drawn, trackLength, finishers);
      RanksOfTail(hs, finishers, first.finishers, first.horse, rest);
      assert AdvanceAll(hs, drawn, trackLength, finishers) == FieldStep([first.horse] + rest.horses, rest.finishers);
    }
  }

  /** The first horse of the field, when newly placed, takes the next free place. */
  lemma RankOfHead(hs: seq<Horse>, drawn: seq<int>, trackLength: int, finishers: seq<int>)
    requires hs != []
    ensures var r := AdvanceAll(hs, drawn, trackLength, finishers);
      NewlyRanked(hs[0], r.horses[0]) ==>
        && r.horses[0].finishRank.value == |finishers| + 1 <= |r.finishers|
        && r.finishers[|finishers|] == hs[0].id
  {
    var first := AdvanceHorse(hs[0], drawn, trackLength, finishers);
    var rest := AdvanceAll(hs[1..], drawn, trackLength, first.finishers);
    if NewlyRanked(hs[0], first.horse) {
      assert rest.finishers[..|first.finishers|] == first.finishers;
      assert first.finishers[|finishers|] == hs[0].id;
    }
  }

  /** The places given to the rest of the field, shifted by one horse. */
  lemma RanksOfTail(hs: seq<Horse>, finishers: seq<int>, mid: seq<int>, head: Horse, rest: FieldStep)
    requires hs != [] && |rest.horses| == |hs| - 1 && |finishers| <= |mid|
    requires forall i :: 0 <= i < |hs| - 1 && NewlyRanked(hs[1..][i], rest.horses[i]) ==>
      && |mid| < rest.horses[i].finishRank.value <= |rest.finishers|
      && rest.finishers[rest.horses[i].finishRank.value - 1] == hs[1..][i].id
    ensures var horses := [head] + rest.horses;
      forall i :: 1 <= i < |hs| && NewlyRanked(hs[i], horses[i]) ==>
        && |finishers| < horses[i].finishRank.value <= |rest.finishers|
        && rest.finishers[horses[i].finishRank.value - 1] == hs[i].id
  {
    var horses := [head] + rest.horses;
    forall i | 1 <= i < |hs| && NewlyRanked(hs[i], horses[i])
      ensures |finishers| < horses[i].finishRank.value <= |rest.finishers|
      ensures rest.finishers[horses[i].finishRank.value - 1] == hs[i].id
    {
      assert hs[i] == hs[1..][i - 1] && horses[i] == rest.horses[i - 1];
    }
  }

  /** Some horse newly placed by the draw holds place `k + 1`. */
  ghost predicate PlacedAt(hs: seq<Horse>, hs': seq<Horse>, k: int)
    requires |hs'| == |hs|
  {
    exists i :: 0 <= i < |hs| && NewlyRanked(hs[i], hs'[i]) && hs'[i].finishRank.value == k + 1
  }

  /** Every new entry of the finisher list is the place of some newly placed horse. */
  lemma {:induction false} AdvanceAllCovers(hs: seq<Horse>, drawn: seq<int>, trackLength: int, finishers: seq<int>)
    ensures forall k :: |finishers| <= k < |AdvanceAll(hs, drawn, trackLength, finishers).finishers| ==>
      PlacedAt(hs, AdvanceAll(hs, drawn, trackLength, finishers).horses, k)
    decreases |hs|
  {
    if hs != [] {
      var first := AdvanceHorse(hs[0], drawn, trackLength, finishers);
      AdvanceAllCovers(hs[1..], drawn, trackLength, first.finishers);
      var r := AdvanceAll(hs, drawn, trackLength, finishers);
      var rest := AdvanceAll(hs[1..], drawn, trackLength, first.finishers);
      forall k | |finishers| <= k < |r.finishers|
        ensures PlacedAt(hs, r.horses, k)
      {
        if k < |first.finishers| {
          assert NewlyRanked(hs[0], r.horses[0]) && r.horses[0].finishRank.value == k + 1;
        } else {
          assert r.finishers == rest.finishers && |first.finishers| <= k;
          assert PlacedAt(hs[1..], rest.horses, k);
          var j :| 0 <= j < |hs[1..]| && NewlyRanked(hs[1..][j], rest.horses[j]) && rest.horses[j].finishRank.value == k + 1;
          assert hs[j + 1] == hs[1..][j] && r.horses[j + 1] == rest.horses[j];
        }
      }
    }
  }

  /** Horses crossing in the same draw are placed in array order. */
  lemma {:induction false} AdvanceAllTieOrder(hs: seq<Horse>, drawn: seq<int>, trackLength: int, finishers: seq<int>)
    ensures var r := AdvanceAll(hs, drawn, trackLength, finishers);
      forall i, j :: 0 <= i < j < |hs| && NewlyRanked(hs[i], r.horses[i]) && NewlyRanked(hs[j], r.horses[j]) ==>
        r.horses[i].finishRank.value < r.horses[j].finishRank.value
    decreases |hs|
  {
    if hs != [] {
      var first := AdvanceHorse(hs[0], drawn, trackLength, finishers);
      AdvanceAllTieOrder(hs[1..], drawn, trackLength, first.finishers);
      AdvanceAllRanks(hs[1..], drawn, trackLength, first.finishers);
      var r := AdvanceAll(hs, drawn, trackLength, finishers);
      var rest := AdvanceAll(hs[1..], drawn, trackLength, first.finishers);
      forall i, j | 0 <= i < j < |hs| && NewlyRanked(hs[i], r.horses[i]) && NewlyRanked(hs[j], r.horses[j])
        ensures r.horses[i].finishRank.value < r.horses[j].finishRank.value
      {
        assert hs[j] == hs[1..][j - 1] && r.horses[j] == rest.horses[j - 1];
        if i > 0 {
          assert hs[i] == hs[1..][i - 1] && r.horses[i] == rest.horses[i - 1];
        }
      }
    }
  }

  /** A horse left unplaced at the line means the podium was already full. */
  lemma {:induction false} AdvanceAllFullPodium(hs: seq<Horse>, drawn: seq<int>, trackLength: int, finishers: seq<int>)
    ensures var r := AdvanceAll(hs, drawn, trackLength, finishers);
      forall i :: 0 <= i < |hs| && hs[i].finishRank.None? && multiset(drawn)[hs[i].id] > 0
                  && r.horses[i].position >= trackLength && r.horses[i].finishRank.None? ==>
        |r.finishers| >= 3
    decreases |hs|
  {
    if hs != [] {
      var first := AdvanceHorse(hs[0], drawn, trackLength, finishers);
      AdvanceAllFullPodium(hs[1..], drawn, trackLength, first.finishers);
      var r := AdvanceAll(hs, drawn, trackLength, finishers);
      var rest := AdvanceAll(hs[1..], drawn, trackLength, first.finishers);
      forall i | 0 <= i < |hs| && hs[i].finishRank.None? && multiset(drawn)[hs[i].id] > 0
                 && r.horses[i].position >= trackLength && r.horses[i].finishRank.None?
        ensures |r.finishers| >= 3
      {
        if i > 0 {
          assert hs[i] == hs[1..][i - 1] && r.horses[i] == rest.horses[i - 1];
        }
      }
    }
  }

  // ---------------------------------------------------------------- round end and the draw action

  /** Adds each horse's round points: 10, 5 and 2 for the three places, 0 otherwise. */
  function AwardPoints(hs: seq<Horse>): (r: seq<Horse>)
    ensures |r| == |hs|
    ensures forall i :: 0 <= i < |hs| ==> r[i] == hs[i].(tournamentPoints := r[i].tournamentPoints)
    ensures forall i :: 0 <= i < |hs| ==> r[i].tournamentPoints >= hs[i].tournamentPoints
  {
    seq(|hs|, i requires 0 <= i < |hs| =>
      hs[i].(tournamentPoints := hs[i].tournamentPoints + RankPoints(hs[i].finishRank)))
  }

  /** The round-end score table, place by place. */
  lemma AwardPointsTable(hs: seq<Horse>, i: nat)
    requires i < |hs|
    ensures hs[i].finishRank == Some(1) ==> AwardPoints(hs)[i].tournamentPoints == hs[i].tournamentPoints + 10
    ensures hs[i].finishRank == Some(2) ==> AwardPoints(hs)[i].tournamentPoints == hs[i].tournamentPoints + 5
    ensures hs[i].finishRank == Some(3) ==> AwardPoints(hs)[i].tournamentPoints == hs[i].tournamentPoints + 2
    ensures hs[i].finishRank.None? ==> AwardPoints(hs)[i].tournamentPoints == hs[i].tournamentPoints
  {
  }

  /** The draw button is live: playing, with a look-ahead ready. */
  predicate CanDraw(s: GameState)
  {
    s.pendingTurn.Some? && s.status == Playing
  }

  /**
   Applies the pending draw (the reducer without its trailing look-ahead):
   removes the drawn cards, moves and places the horses, counts the turn,
   and closes the round, with scoring, when enough horses have finished or
   the deck is spent. Anything else is ignored.
   */
  function Resolve(s: GameState): (o: Step)
    ensures !CanDraw(s) ==> o == Step(s, None)
    ensures CanDraw(s) ==>
      && o.commentary.Some?
      && o.state.config == s.config && o.state.currentRound == s.currentRound
      && o.state.currentTurn == s.currentTurn + 1
      && o.state.lastDrawn == s.pendingTurn.value.drawnIds
      && o.state.pendingTurn.None?
      // exactly as many cards leave the tail of the deck as were drawn
      && o.state.deck == DropTail(s.deck, |s.pendingTurn.value.drawnIds|)
      && |o.state.horses| == |s.horses|
      // the finisher list is only extended, and to at most three
      && |s.finishers| <= |o.state.finishers| && o.state.finishers[..|s.finishers|] == s.finishers
      && (|o.state.finishers| <= 3 || o.state.finishers == s.finishers)
    // the round goes on exactly while finishers are missing and cards remain
    ensures CanDraw(s) ==>
      (o.state.status == Playing <==> |o.state.finishers| < FinishersNeeded(s.horses) && |o.state.deck| > 0)
    ensures CanDraw(s) ==> o.state.status != Setup
    // the series ends with the last round of a tournament, never in single mode
    ensures CanDraw(s) ==>
      (o.state.status == TournamentFinished <==>
         o.state.status != Playing && s.config.mode == Tournament && s.currentRound == s.config.totalRounds)
    // mid-round the message shown is the one prepared with the draw ...
    ensures CanDraw(s) && o.state.status == Playing ==> o.commentary == Some(s.pendingTurn.value.commentary)
    // ... and at the end a podium, or "in progress" when nobody finished
    ensures CanDraw(s) && o.state.status != Playing && |o.state.finishers| >= 1 ==>
      IsPodium(o.commentary.value, o.state.horses, o.state.finishers)
    ensures CanDraw(s) && o.state.status != Playing && |o.state.finishers| == 0 ==>
      o.commentary == Some(InProgress)
  {
    if !CanDraw(s) then Step(s, None)
    else
      var pending := s.pendingTurn.value;
      var drawn := pending.drawnIds;
      var trackLength := s.config.trackLength;
      var deck := DropTail(s.deck, |drawn|);
      var field := AdvanceAll(s.horses, drawn, trackLength, s.finishers);
      var next := s.(deck := deck, horses := field.horses, finishers := field.finishers,
                     lastDrawn := drawn, currentTurn := s.currentTurn + 1, pendingTurn := None);
      if |field.finishers| >= FinishersNeeded(s.horses) || |deck| == 0 then
        var closing := LocalCommentary([], field.horses, field.finishers, trackLength, true, 0);
        var scored := AwardPoints(field.horses);
        var status :=
          if s.config.mode == Tournament && s.currentRound == s.config.totalRounds
          then TournamentFinished else RoundFinished;
        PodiumIgnoresProgress(field.horses, scored, field.finishers);
        Step(next.(horses := scored, status := status), Some(closing))
      else
        Step(next, Some(pending.commentary))
  }

  /** The user's draw: resolve the pending draw, then prepare the next one if the round goes on. */
  function Draw(s: GameState, roll: nat): (o: Step)
    ensures !CanDraw(s) ==> o == Step(s, None)
    ensures CanDraw(s) ==>
      && o.commentary == Resolve(s).commentary
      && o.state == Resolve(s).state.(pendingTurn := o.state.pendingTurn)
    // a look-ahead is ready exactly while the round goes on, and it is the top of the new deck
    ensures CanDraw(s) ==> (o.state.pendingTurn.Some? <==> o.state.status == Playing)
    // and its message is the mid-race commentary for exactly those cards
    ensures CanDraw(s) && o.state.pendingTurn.Some? ==>
      && o.state.pendingTurn.value.drawnIds == Pop(o.state.deck, s.config.drawCount)
      && o.state.pendingTurn.value.commentary ==
           LocalCommentary(o.state.pendingTurn.value.drawnIds, o.state.horses, o.state.finishers,
                           s.config.trackLength, false, roll)
  {
    var resolved := Resolve(s);
    if resolved.commentary.Some? && resolved.state.status == Playing then
      Step(Prepare(resolved.state, roll), resolved.commentary)
    else
      resolved
  }

  /**
   Once the pending draw is applied it is gone: resolving again before a new
   look-ahead is a rejected action that changes nothing.
   */
  lemma ResolveTwiceIsNoop(s: GameState)
    requires CanDraw(s)
    ensures Resolve(Resolve(s).state) == Step(Resolve(s).state, None)
  {
  }

  /**
   Horse by horse, a draw moves the horses as `MovedBy` describes and, when
   it closes the round, adds the points of the place each horse now holds.
   */
  lemma ResolveMovesHorses(s: GameState)
    requires CanDraw(s)
    ensures var t := Resolve(s).state;
      forall i :: 0 <= i < |s.horses| ==>
        && MovedBy(s.horses[i], t.horses[i].(tournamentPoints := s.horses[i].tournamentPoints),
                   s.pendingTurn.value.drawnIds, s.config.trackLength)
        && t.horses[i].tournamentPoints ==
             s.horses[i].tournamentPoints + (if t.status == Playing then 0 else RankPoints(t.horses[i].finishRank))
  {
    AdvanceAllMoves(s.horses, s.pendingTurn.value.drawnIds, s.config.trackLength, s.finishers);
  }

  /**
   The next-round button: from a finished round (in either mode), start the
   following round with the same horses; anything else is ignored.
   */
  function NextRound(s: GameState, rolls: seq<nat>, roll: nat): (r: GameState)
    requires s.status == RoundFinished ==> ValidRolls(rolls, |s.horses| * Max(s.config.cardsPerHorse, 0))
    ensures s.status != RoundFinished ==> r == s
    ensures s.status == RoundFinished ==>
      && r.status == Playing && r.currentRound == s.currentRound + 1 && r.config == s.config
      && r.currentTurn == 0 && r.finishers == []
      && |r.horses| == |s.horses|
      && forall i :: 0 <= i < |r.horses| ==>
           && SameIdentity(r.horses[i], s.horses[i])
           && r.horses[i].tournamentPoints == s.horses[i].tournamentPoints
           && r.horses[i].position == 0 && r.horses[i].finishRank.None?
  {
    if s.status == RoundFinished then StartRound(s.config, s.currentRound + 1, Some(s.horses), rolls, roll)
    else s
  }
}
