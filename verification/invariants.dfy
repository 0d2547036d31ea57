/**
 The round invariant: what holds of every state reachable from a round start
 with a sensible configuration, and the proofs that round start, the draw
 action and the next-round action keep it.
 */
module RaceInvariants {
  import opened Wrappers
  import opened Seqs
  import opened Types
  import opened Deck
  import opened Commentator
  import opened ConfigClamp
  import opened Race

  /** A configuration as the setup screen produces it (after clamping). */
  predicate ValidConfig(c: Config)
  {
    && c.horseCount >= 1
    && c.trackLength >= 1
    && CardsInRange(c)
    && c.drawCount >= 1
    && c.totalRounds >= 1
  }

  /** Each horse stands where its own cards have taken it, capped at the line. */
  predicate PositionsFollowCards(hs: seq<Horse>, trackLength: int)
  {
    forall i :: 0 <= i < |hs| ==>
      0 <= hs[i].position <= trackLength && hs[i].position == Min(trackLength, |hs[i].drawnCards|)
  }

  /** A placed horse is at the line and listed at its place. */
  predicate PlacedAreListed(hs: seq<Horse>, finishers: seq<int>, trackLength: int)
  {
    forall i :: 0 <= i < |hs| && hs[i].finishRank.Some? ==>
      && hs[i].finishRank.value <= |finishers|
      && finishers[hs[i].finishRank.value - 1] == hs[i].id
      && hs[i].position == trackLength
  }

  /** The `k`-th listed id belongs to some horse. */
  ghost predicate ListedHorse(hs: seq<Horse>, finishers: seq<int>, k: int)
    requires 0 <= k < |finishers|
  {
    exists i :: 0 <= i < |hs| && hs[i].id == finishers[k]
  }

  /** Every listed id belongs to a horse, and that horse holds the place it is listed at. */
  ghost predicate ListedArePlaced(hs: seq<Horse>, finishers: seq<int>)
  {
    && (forall k :: 0 <= k < |finishers| ==> ListedHorse(hs, finishers, k))
    && (forall k, i :: 0 <= k < |finishers| && 0 <= i < |hs| && hs[i].id == finishers[k] ==>
          hs[i].finishRank == Some(k + 1))
  }

  /** Places and the finisher list of at most three entries agree both ways. */
  ghost predicate PlacesMatchFinishers(hs: seq<Horse>, finishers: seq<int>, trackLength: int)
  {
    && |finishers| <= 3
    && PlacedAreListed(hs, finishers, trackLength)
    && ListedArePlaced(hs, finishers)
  }

  /** Every unplaced horse is still short of the line. */
  predicate UnplacedBehindLine(hs: seq<Horse>, trackLength: int)
  {
    forall i :: 0 <= i < |hs| && hs[i].finishRank.None? ==> hs[i].position < trackLength
  }

  /** Round counting across a series. */
  predicate SeriesInv(s: GameState)
  {
    && s.currentRound >= 1
    && (s.config.mode == Single ==> s.status != TournamentFinished)
    && (s.config.mode == Tournament ==>
          && 1 <= s.currentRound <= s.config.totalRounds
          && (s.status == RoundFinished ==> s.currentRound < s.config.totalRounds)
          && (s.status == TournamentFinished ==> s.currentRound == s.config.totalRounds))
  }

  ghost predicate Inv(s: GameState)
  {
    && ValidConfig(s.config)
    && |s.horses| >= 1
    && DistinctIds(s.horses)
    && (forall i :: 0 <= i < |s.horses| ==> s.horses[i].tournamentPoints >= 0)
    && PositionsFollowCards(s.horses, s.config.trackLength)
    && PlacesMatchFinishers(s.horses, s.finishers, s.config.trackLength)
    && s.status != Setup
    && (s.status == Playing ==>
          && |s.finishers| < FinishersNeeded(s.horses)
          && |s.deck| > 0
          && UnplacedBehindLine(s.horses, s.config.trackLength))
    // a look-ahead exists exactly while playing, and it is the top of the deck
    && (s.status == Playing <==> s.pendingTurn.Some?)
    && (s.pendingTurn.Some? ==> s.pendingTurn.value.drawnIds == Pop(s.deck, s.config.drawCount))
    && (s.pendingTurn.Some? ==> !s.pendingTurn.value.commentary.Finished?)
    && SeriesInv(s)
  }

  /**
   The finish-line message is never chosen for a look-ahead: it needs a horse
   at the line that is not listed, and while a round is being played every
   horse at the line is placed and listed.
   */
  lemma NoFinishCommentaryWhilePlaying(drawn: seq<int>, hs: seq<Horse>, finishers: seq<int>, trackLength: int, roll: nat)
    requires PlacesMatchFinishers(hs, finishers, trackLength)
    requires UnplacedBehindLine(hs, trackLength)
    ensures !LocalCommentary(drawn, hs, finishers, trackLength, false, roll).Finished?
  {
    forall i | 0 <= i < |hs|
      ensures !AtLineUnlisted(hs[i], finishers, trackLength)
    {
      if hs[i].position >= trackLength {
        assert finishers[hs[i].finishRank.value - 1] == hs[i].id;
      }
    }
  }

  lemma ProductPositive(a: int, b: int)
    requires a >= 1 && b >= 1
    ensures a * b >= 1
  {
  }

  /** A round start with a valid configuration and a sound field of horses satisfies the invariant. */
  lemma StartRoundEstablishesInv(cfg: Config, round: int, carried: Option<seq<Horse>>, rolls: seq<nat>, roll: nat)
    requires ValidConfig(cfg)
    requires round >= 1 && (cfg.mode == Tournament ==> round <= cfg.totalRounds)
    requires carried.Some? ==>
      && |carried.value| >= 1
      && DistinctIds(carried.value)
      && forall i :: 0 <= i < |carried.value| ==> carried.value[i].tournamentPoints >= 0
    requires ValidRolls(rolls, |RoundHorses(cfg, carried)| * Max(cfg.cardsPerHorse, 0))
    ensures Inv(StartRound(cfg, round, carried, rolls, roll))
  {
    var s := StartRound(cfg, round, carried, rolls, roll);
    RoundHorsesSound(cfg, carried);
    ProductPositive(|s.horses|, cfg.cardsPerHorse);
    NoFinishCommentaryWhilePlaying(s.pendingTurn.value.drawnIds, s.horses, [], cfg.trackLength, roll);
  }

  /** A round's field starts sound: distinct horses, all at the gate, none placed. */
  lemma RoundHorsesSound(cfg: Config, carried: Option<seq<Horse>>)
    requires cfg.horseCount >= 1 && cfg.trackLength >= 1
    requires carried.Some? ==>
      && |carried.value| >= 1
      && DistinctIds(carried.value)
      && forall i :: 0 <= i < |carried.value| ==> carried.value[i].tournamentPoints >= 0
    ensures var hs := RoundHorses(cfg, carried);
      && |hs| >= 1
      && DistinctIds(hs)
      && (forall i :: 0 <= i < |hs| ==> hs[i].tournamentPoints >= 0)
      && PositionsFollowCards(hs, cfg.trackLength)
      && PlacesMatchFinishers(hs, [], cfg.trackLength)
      && UnplacedBehindLine(hs, cfg.trackLength)
  {
    var hs := RoundHorses(cfg, carried);
    assert PlacedAreListed(hs, [], cfg.trackLength);
  }

  // The facts the draw lemmas of Race establish about one pass of the horse
  // map, from field `hs` and list `f` to field `hs'` and list `f'`, as
  // separate predicates so that each proof below assumes only what it uses.

  ghost predicate ListExtended(hs: seq<Horse>, hs': seq<Horse>, f: seq<int>, f': seq<int>)
  {
    && |hs'| == |hs|
    && |f| <= |f'|
    && (forall k :: 0 <= k < |f| ==> f'[k] == f[k])
    && (|f'| <= 3 || f' == f)
  }

  ghost predicate AllMovedBy(hs: seq<Horse>, hs': seq<Horse>, drawn: seq<int>, trackLength: int)
    requires |hs'| == |hs|
  {
    forall i :: 0 <= i < |hs| ==> MovedBy(hs[i], hs'[i], drawn, trackLength)
  }

  ghost predicate NewPlacesListed(hs: seq<Horse>, hs': seq<Horse>, f: seq<int>, f': seq<int>)
    requires |hs'| == |hs|
  {
    forall i :: 0 <= i < |hs| && NewlyRanked(hs[i], hs'[i]) ==>
      |f| < hs'[i].finishRank.value <= |f'| && f'[hs'[i].finishRank.value - 1] == hs[i].id
  }

  ghost predicate NewEntriesPlaced(hs: seq<Horse>, hs': seq<Horse>, f: seq<int>, f': seq<int>)
    requires |hs'| == |hs|
  {
    forall k :: |f| <= k < |f'| ==> PlacedAt(hs, hs', k)
  }

  ghost predicate LeftOutOnlyWhenFull(hs: seq<Horse>, hs': seq<Horse>, f': seq<int>, drawn: seq<int>, trackLength: int)
    requires |hs'| == |hs|
  {
    forall i ::
      (0 <= i < |hs| && hs[i].finishRank.None? && multiset(drawn)[hs[i].id] > 0 &&
       hs'[i].position >= trackLength && hs'[i].finishRank.None?) ==> |f'| >= 3
  }

  lemma AdvanceAllFacts(hs: seq<Horse>, drawn: seq<int>, trackLength: int, finishers: seq<int>)
    ensures ListExtended(hs, AdvanceAll(hs, drawn, trackLength, finishers).horses,
                         finishers, AdvanceAll(hs, drawn, trackLength, finishers).finishers)
    ensures AllMovedBy(hs, AdvanceAll(hs, drawn, trackLength, finishers).horses, drawn, trackLength)
    ensures NewPlacesListed(hs, AdvanceAll(hs, drawn, trackLength, finishers).horses,
                            finishers, AdvanceAll(hs, drawn, trackLength, finishers).finishers)
    ensures NewEntriesPlaced(hs, AdvanceAll(hs, drawn, trackLength, finishers).horses,
                             finishers, AdvanceAll(hs, drawn, trackLength, finishers).finishers)
    ensures LeftOutOnlyWhenFull(hs, AdvanceAll(hs, drawn, trackLength, finishers).horses,
                                AdvanceAll(hs, drawn, trackLength, finishers).finishers, drawn, trackLength)
  {
    var r := AdvanceAll(hs, drawn, trackLength, finishers);
    AdvanceAllMoves(hs, drawn, trackLength, finishers);
    AdvanceAllRanks(hs, drawn, trackLength, finishers);
    AdvanceAllCovers(hs, drawn, trackLength, finishers);
    AdvanceAllFullPodium(hs, drawn, trackLength, finishers);
    forall k | 0 <= k < |finishers|
      ensures r.finishers[k] == finishers[k]
    {
      assert r.finishers[..|finishers|][k] == finishers[k];
    }
  }

  /** The simple consequences of `MovedBy` for one horse. */
  lemma MovedByFacts(h: Horse, h': Horse, drawn: seq<int>, trackLength: int)
    requires MovedBy(h, h', drawn, trackLength)
    ensures SameIdentity(h, h') && h'.tournamentPoints == h.tournamentPoints
    ensures h.finishRank.Some? ==> h' == h
    ensures h'.finishRank.None? ==> h.finishRank.None?
    ensures NewlyRanked(h, h') ==> h'.position >= trackLength
    ensures h.finishRank.None? && h'.finishRank.None? && multiset(drawn)[h.id] == 0 ==> h' == h
    ensures trackLength >= 1 && 0 <= h.position <= trackLength && h.position == Min(trackLength, |h.drawnCards|) ==>
      0 <= h'.position <= trackLength && h'.position == Min(trackLength, |h'.drawnCards|)
  {
  }

  /** A draw keeps ids, hence keeps them distinct. */
  lemma AdvanceKeepsIds(hs: seq<Horse>, hs': seq<Horse>, drawn: seq<int>, trackLength: int)
    requires |hs'| == |hs|
    requires AllMovedBy(hs, hs', drawn, trackLength)
    ensures forall i :: 0 <= i < |hs| ==>
      SameIdentity(hs[i], hs'[i]) && hs'[i].tournamentPoints == hs[i].tournamentPoints
    ensures DistinctIds(hs) ==> DistinctIds(hs')
  {
    forall i | 0 <= i < |hs|
      ensures SameIdentity(hs[i], hs'[i]) && hs'[i].tournamentPoints == hs[i].tournamentPoints
    {
      MovedByFacts(hs[i], hs'[i], drawn, trackLength);
    }
  }

  /** A draw keeps every horse where its own cards have taken it. */
  lemma AdvanceKeepsPositions(hs: seq<Horse>, hs': seq<Horse>, drawn: seq<int>, trackLength: int)
    requires trackLength >= 1
    requires |hs'| == |hs|
    requires AllMovedBy(hs, hs', drawn, trackLength)
    requires PositionsFollowCards(hs, trackLength)
    ensures PositionsFollowCards(hs', trackLength)
  {
    forall i | 0 <= i < |hs'|
      ensures 0 <= hs'[i].position <= trackLength
      ensures hs'[i].position == Min(trackLength, |hs'[i].drawnCards|)
    {
      MovedByFacts(hs[i], hs'[i], drawn, trackLength);
    }
  }

  /** Placed horses stand at the line and at their listed places after a draw. */
  lemma AdvanceKeepsPlacedHorses(hs: seq<Horse>, hs': seq<Horse>, f: seq<int>, f': seq<int>, drawn: seq<int>, trackLength: int)
    requires ListExtended(hs, hs', f, f')
    requires AllMovedBy(hs, hs', drawn, trackLength)
    requires NewPlacesListed(hs, hs', f, f')
    requires PositionsFollowCards(hs', trackLength)
    requires PlacedAreListed(hs, f, trackLength)
    ensures PlacedAreListed(hs', f', trackLength)
  {
    forall i | 0 <= i < |hs'| && hs'[i].finishRank.Some?
      ensures hs'[i].finishRank.value <= |f'|
      ensures f'[hs'[i].finishRank.value - 1] == hs'[i].id
      ensures hs'[i].position == trackLength
    {
      MovedByFacts(hs[i], hs'[i], drawn, trackLength);
      if hs[i].finishRank.Some? {
        var place := hs[i].finishRank.value;
        assert f'[place - 1] == f[place - 1];
      } else {
        assert NewlyRanked(hs[i], hs'[i]);
      }
    }
  }

  /** Every listed id, old or new, names a horse holding that place after a draw. */
  lemma AdvanceKeepsListedHorses(hs: seq<Horse>, hs': seq<Horse>, f: seq<int>, f': seq<int>, drawn: seq<int>, trackLength: int)
    requires ListExtended(hs, hs', f, f')
    requires AllMovedBy(hs, hs', drawn, trackLength)
    requires NewPlacesListed(hs, hs', f, f')
    requires NewEntriesPlaced(hs, hs', f, f')
    requires DistinctIds(hs)
    requires ListedArePlaced(hs, f)
    ensures ListedArePlaced(hs', f')
  {
    AdvanceKeepsIds(hs, hs', drawn, trackLength);
    forall k | 0 <= k < |f'|
      ensures ListedHorse(hs', f', k)
      ensures forall i :: 0 <= i < |hs'| && hs'[i].id == f'[k] ==> hs'[i].finishRank == Some(k + 1)
    {
      if k < |f| {
        assert ListedHorse(hs, f, k);
        var j :| 0 <= j < |hs| && hs[j].id == f[k];
        assert hs'[j].id == f'[k];
        forall i | 0 <= i < |hs'| && hs'[i].id == f'[k]
          ensures hs'[i].finishRank == Some(k + 1)
        {
          assert hs[i].finishRank == Some(k + 1);
          MovedByFacts(hs[i], hs'[i], drawn, trackLength);
        }
      } else {
        assert PlacedAt(hs, hs', k);
        var j :| 0 <= j < |hs| && NewlyRanked(hs[j], hs'[j]) && hs'[j].finishRank.value == k + 1;
        MovedByFacts(hs[j], hs'[j], drawn, trackLength);
        assert hs'[j].id == f'[k];
        forall i | 0 <= i < |hs'| && hs'[i].id == f'[k]
          ensures hs'[i].finishRank == Some(k + 1)
        {
          assert hs[i].id == hs[j].id;
        }
      }
    }
  }

  /** Unless the podium filled up, a draw leaves no horse unplaced at the line. */
  lemma AdvanceKeepsUnplacedBehind(hs: seq<Horse>, hs': seq<Horse>, f': seq<int>, drawn: seq<int>, trackLength: int)
    requires |hs'| == |hs|
    requires AllMovedBy(hs, hs', drawn, trackLength)
    requires LeftOutOnlyWhenFull(hs, hs', f', drawn, trackLength)
    requires UnplacedBehindLine(hs, trackLength)
    requires |f'| < 3
    ensures UnplacedBehindLine(hs', trackLength)
  {
    forall i | 0 <= i < |hs'| && hs'[i].finishRank.None?
      ensures hs'[i].position < trackLength
    {
      MovedByFacts(hs[i], hs'[i], drawn, trackLength);
    }
  }

  /**
   One draw keeps the field sound: identities, positions against cards, and
   places against the finisher list; and unless the podium filled up, no
   horse is left unplaced at the line.
   */
  lemma AdvancePreservesField(hs: seq<Horse>, drawn: seq<int>, trackLength: int, finishers: seq<int>)
    requires trackLength >= 1
    requires DistinctIds(hs)
    requires PositionsFollowCards(hs, trackLength)
    requires PlacesMatchFinishers(hs, finishers, trackLength)
    ensures forall i :: 0 <= i < |hs| ==>
      && SameIdentity(hs[i], AdvanceAll(hs, drawn, trackLength, finishers).horses[i])
      && AdvanceAll(hs, drawn, trackLength, finishers).horses[i].tournamentPoints == hs[i].tournamentPoints
    ensures DistinctIds(AdvanceAll(hs, drawn, trackLength, finishers).horses)
    ensures PositionsFollowCards(AdvanceAll(hs, drawn, trackLength, finishers).horses, trackLength)
    ensures PlacesMatchFinishers(AdvanceAll(hs, drawn, trackLength, finishers).horses,
                                 AdvanceAll(hs, drawn, trackLength, finishers).finishers, trackLength)
    ensures UnplacedBehindLine(hs, trackLength) && |AdvanceAll(hs, drawn, trackLength, finishers).finishers| < 3 ==>
      UnplacedBehindLine(AdvanceAll(hs, drawn, trackLength, finishers).horses, trackLength)
  {
    var r := AdvanceAll(hs, drawn, trackLength, finishers);
    AdvanceAllFacts(hs, drawn, trackLength, finishers);
    AdvanceKeepsIds(hs, r.horses, drawn, trackLength);
    AdvanceKeepsPositions(hs, r.horses, drawn, trackLength);
    AdvanceKeepsPlacedHorses(hs, r.horses, finishers, r.finishers, drawn, trackLength);
    AdvanceKeepsListedHorses(hs, r.horses, finishers, r.finishers, drawn, trackLength);
    if UnplacedBehindLine(hs, trackLength) && |r.finishers| < 3 {
      AdvanceKeepsUnplacedBehind(hs, r.horses, r.finishers, drawn, trackLength);
    }
  }

  /** Scoring touches nothing but points, so the field stays sound. */
  lemma AwardKeepsField(hs: seq<Horse>, finishers: seq<int>, trackLength: int)
    requires DistinctIds(hs)
    requires PositionsFollowCards(hs, trackLength)
    requires PlacesMatchFinishers(hs, finishers, trackLength)
    requires forall i :: 0 <= i < |hs| ==> hs[i].tournamentPoints >= 0
    ensures DistinctIds(AwardPoints(hs))
    ensures PositionsFollowCards(AwardPoints(hs), trackLength)
    ensures PlacesMatchFinishers(AwardPoints(hs), finishers, trackLength)
    ensures forall i :: 0 <= i < |hs| ==> AwardPoints(hs)[i].tournamentPoints >= 0
  {
    var r := AwardPoints(hs);
    forall i | 0 <= i < |hs|
      ensures r[i].id == hs[i].id && r[i].position == hs[i].position
      ensures r[i].drawnCards == hs[i].drawnCards && r[i].finishRank == hs[i].finishRank
    {
      assert r[i] == hs[i].(tournamentPoints := r[i].tournamentPoints);
    }
    assert PositionsFollowCards(r, trackLength);
    assert PlacedAreListed(r, finishers, trackLength);
    forall k | 0 <= k < |finishers|
      ensures ListedHorse(r, finishers, k)
    {
      assert ListedHorse(hs, finishers, k);
      var j :| 0 <= j < |hs| && hs[j].id == finishers[k];
      assert r[j].id == finishers[k];
    }
    assert ListedArePlaced(r, finishers);
  }

  /** A draw that leaves the round running keeps the invariant. */
  lemma RunningDrawKeepsInv(s: GameState, roll: nat)
    requires Inv(s)
    requires CanDraw(s)
    requires Resolve(s).state.status == Playing
    ensures Inv(Draw(s, roll).state)
  {
    var tl := s.config.trackLength;
    var field := AdvanceAll(s.horses, s.pendingTurn.value.drawnIds, tl, s.finishers);
    AdvancePreservesField(s.horses, s.pendingTurn.value.drawnIds, tl, s.finishers);
    var t := Resolve(s).state;
    var o := Draw(s, roll).state;
    assert t.horses == field.horses && t.finishers == field.finishers;
    assert o == Prepare(t, roll);
    assert o.horses == t.horses && o.finishers == t.finishers && o.deck == t.deck;
    assert |o.finishers| < 3;
    NoFinishCommentaryWhilePlaying(o.pendingTurn.value.drawnIds, o.horses, o.finishers, tl, roll);
    assert SeriesInv(o);
  }

  /** A draw that closes the round keeps the invariant. */
  lemma ClosingDrawKeepsInv(s: GameState, roll: nat)
    requires Inv(s)
    requires CanDraw(s)
    requires Resolve(s).state.status != Playing
    ensures Inv(Draw(s, roll).state)
  {
    var tl := s.config.trackLength;
    var field := AdvanceAll(s.horses, s.pendingTurn.value.drawnIds, tl, s.finishers);
    AdvancePreservesField(s.horses, s.pendingTurn.value.drawnIds, tl, s.finishers);
    var t := Resolve(s).state;
    assert t.horses == AwardPoints(field.horses) && t.finishers == field.finishers;
    AwardKeepsField(field.horses, field.finishers, tl);
    assert Draw(s, roll).state == t;
    assert SeriesInv(t);
  }

  /** The draw action keeps the invariant. */
  lemma DrawPreservesInv(s: GameState, roll: nat)
    requires Inv(s)
    ensures Inv(Draw(s, roll).state)
  {
    if CanDraw(s) {
      if Resolve(s).state.status == Playing {
        RunningDrawKeepsInv(s, roll);
      } else {
        ClosingDrawKeepsInv(s, roll);
      }
    }
  }

  /** The next-round action keeps the invariant. */
  lemma NextRoundPreservesInv(s: GameState, rolls: seq<nat>, roll: nat)
    requires Inv(s)
    requires s.status == RoundFinished ==> ValidRolls(rolls, |s.horses| * Max(s.config.cardsPerHorse, 0))
    ensures Inv(NextRound(s, rolls, roll))
  {
    if s.status == RoundFinished {
      StartRoundEstablishesInv(s.config, s.currentRound + 1, Some(s.horses), rolls, roll);
    }
  }

  /** While a round is being played the draw button is live, and each draw takes at least one card off the deck. */
  lemma DrawProgress(s: GameState, roll: nat)
    requires Inv(s)
    requires s.status == Playing
    ensures CanDraw(s)
    ensures |Draw(s, roll).state.deck| < |s.deck|
  {
    assert |s.pendingTurn.value.drawnIds| >= 1;
  }

  /**
   Draws until the round is over, the `k`-th draw preparing its look-ahead
   with `rolls[k]` (0 once the rolls run out). The deck bounds the number of
   draws, so every round ends.
   */
  function PlayOut(s: GameState, rolls: seq<nat>): (r: GameState)
    requires Inv(s)
    ensures Inv(r)
    ensures r.status != Playing
    ensures s.status != Playing ==> r == s
    ensures r.config == s.config && r.currentRound == s.currentRound
    decreases |s.deck|
  {
    if s.status != Playing then s
    else
      var roll := if |rolls| > 0 then rolls[0] else 0;
      DrawPreservesInv(s, roll);
      DrawProgress(s, roll);
      PlayOut(Draw(s, roll).state, if |rolls| > 0 then rolls[1..] else [])
  }

  /**
   Within a round a draw never moves a horse back, never changes who it is,
   and never takes away or changes a place once given.
   */
  lemma DrawKeepsHorsesForward(s: GameState, roll: nat)
    requires Inv(s)
    ensures var t := Draw(s, roll).state;
      && |t.horses| == |s.horses|
      && forall i :: 0 <= i < |s.horses| ==>
           && SameIdentity(t.horses[i], s.horses[i])
           && s.horses[i].position <= t.horses[i].position <= s.config.trackLength
           && (s.horses[i].finishRank.Some? ==> t.horses[i].finishRank == s.horses[i].finishRank)
  {
    if CanDraw(s) {
      var t := Draw(s, roll).state;
      var u := Resolve(s).state;
      assert t.horses == u.horses;
      ResolveMovesHorses(s);
      forall i | 0 <= i < |s.horses|
        ensures SameIdentity(t.horses[i], s.horses[i])
        ensures s.horses[i].position <= t.horses[i].position <= s.config.trackLength
        ensures s.horses[i].finishRank.Some? ==> t.horses[i].finishRank == s.horses[i].finishRank
      {
        MovedForward(s.horses[i], u.horses[i].(tournamentPoints := s.horses[i].tournamentPoints),
                     s.pendingTurn.value.drawnIds, s.config.trackLength);
      }
    }
  }

  lemma MovedForward(h: Horse, h': Horse, drawn: seq<int>, trackLength: int)
    requires MovedBy(h, h', drawn, trackLength)
    requires 0 <= h.position <= trackLength
    ensures SameIdentity(h', h)
    ensures h.position <= h'.position <= trackLength
    ensures h.finishRank.Some? ==> h'.finishRank == h.finishRank
  {
  }

  /** No horse is listed twice: each listed id names the one horse holding that place. */
  lemma FinishersDistinct(s: GameState)
    requires Inv(s)
    ensures forall k, m :: 0 <= k < m < |s.finishers| ==> s.finishers[k] != s.finishers[m]
  {
    forall k, m | 0 <= k < m < |s.finishers|
      ensures s.finishers[k] != s.finishers[m]
    {
      assert ListedHorse(s.horses, s.finishers, k);
      var i :| 0 <= i < |s.horses| && s.horses[i].id == s.finishers[k];
      assert s.horses[i].finishRank == Some(k + 1);
    }
  }

  /** A field of `n` horses carries at most `n` distinct ids. */
  lemma {:induction false} IdsAtMostHorses(hs: seq<Horse>)
    ensures |set h | h in hs :: h.id| <= |hs|
  {
    if hs != [] {
      IdsAtMostHorses(hs[1..]);
      assert (set h | h in hs :: h.id) == {hs[0].id} + (set h | h in hs[1..] :: h.id);
    }
  }

  /**
   No more horses are listed than run, and never more than three: the listed
   ids are distinct and each belongs to a horse of the field.
   */
  lemma FinishersBounded(s: GameState)
    requires Inv(s)
    ensures |s.finishers| <= Min(3, |s.horses|)
    ensures s.status == Playing ==> |s.finishers| < Min(3, |s.horses|)
  {
    FinishersDistinct(s);
    DistinctElems(s.finishers);
    var listed := set x | x in s.finishers;
    var ids := set h | h in s.horses :: h.id;
    forall x | x in listed
      ensures x in ids
    {
      var k :| 0 <= k < |s.finishers| && s.finishers[k] == x;
      assert ListedHorse(s.horses, s.finishers, k);
      var i :| 0 <= i < |s.horses| && s.horses[i].id == s.finishers[k];
      assert s.horses[i] in s.horses;
    }
    SubsetCard(listed, ids);
    IdsAtMostHorses(s.horses);
  }
}
