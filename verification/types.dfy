/**
 The record shapes of the race: configuration, horses, the pending look-ahead
 and the whole game state, plus the fixed name table and the sizes of the two
 commentary template pools.
 */
module Types {
  import opened Wrappers

  datatype Mode = Single | Tournament

  /** `Setup` is declared by the source but never stored in a running game. */
  datatype Status = Setup | Playing | RoundFinished | TournamentFinished

  datatype Config = Config(
    horseCount: int,
    trackLength: int,
    cardsPerHorse: int,
    drawCount: int,
    mode: Mode,
    totalRounds: int)

  /** A finishing place. Only places 1, 2 and 3 are ever handed out. */
  type Rank = r: int | 1 <= r witness 1

  /**
   A horse. `color` is the slot of the palette entry its colour was taken
   from; `drawnCards` is the history of cards applied to it this round.
   */
  datatype Horse = Horse(
    id: int,
    name: string,
    color: nat,
    position: int,
    drawnCards: seq<int>,
    finishRank: Option<Rank>,
    tournamentPoints: int)

  /**
   The message the local commentary selector produces. The two template
   kinds carry the index of the chosen template in its pool and the name
   substituted into it.
   */
  datatype Commentary =
    | Podium(names: seq<string>)
    | InProgress
    | Finished(template: nat, name: string)
    | Generic(template: nat, name: string)
    | Commotion

  /** Same horse, possibly at a different point of the round. */
  predicate SameIdentity(a: Horse, b: Horse)
  {
    a.id == b.id && a.name == b.name && a.color == b.color
  }

  /** A computed but not yet applied draw, with its commentary. */
  datatype PendingTurn = PendingTurn(drawnIds: seq<int>, commentary: Commentary)

  datatype GameState = GameState(
    config: Config,
    horses: seq<Horse>,
    deck: seq<int>,
    currentTurn: int,
    currentRound: int,
    status: Status,
    finishers: seq<int>,
    lastDrawn: seq<int>,
    pendingTurn: Option<PendingTurn>)

  /** The ten horse names, in table order. */
  const HorseNames: seq<string> := [
    "粉紅閃電", "蔚藍之星", "青翠騎士", "薰衣草跑手",
    "金陽衝刺", "緋紅烈焰", "橙色風暴", "古銅大地",
    "銀霧幻影", "雪白晨光"
  ]

  /** Sizes of the generic and the finish-line template pools. */
  const GenericTemplateCount: nat := 8
  const FinishTemplateCount: nat := 3

  /** Points a horse earns at round end for the place it holds. */
  function RankPoints(rank: Option<Rank>): (p: nat)
    ensures p > 0 <==> rank.Some? && rank.value <= 3
  {
    match rank
    case Some(r) => if r == 1 then 10 else if r == 2 then 5 else if r == 3 then 2 else 0
    case None => 0
  }
}
