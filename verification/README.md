# Card horse racing — a Dafny model of the race engine

This project models the race and tournament state machine of a card-driven
horse race. Each horse owns `cardsPerHorse` cards carrying its id. The cards are
shuffled into one deck. Every draw takes `drawCount` cards off the top, and each
card moves its horse one step towards the line at `trackLength`. The first three
horses to reach the line (or every horse, when fewer than three run) are placed
1, 2 and 3. A round ends when enough horses are placed or the deck runs out. It
then scores 10, 5 and 2 points. A tournament repeats rounds with the same horses
until `totalRounds`.

The engine is modelled as pure functions over an immutable `GameState`. The
source holds this state in a single mutable React state cell.

- `ConfigClamp` is the configuration clamp that keeps `cardsPerHorse` inside
  `[trackLength, 2 * trackLength]`.
- `Deck` builds the deck horse by horse and shuffles it Fisher–Yates style. The
  random index of each swap is injected as `rolls[i]`, with `rolls[i] <= i`.
- `Commentator` is the local commentary selector. It returns a `Commentary`
  value (podium, in progress, finish-line template, generic template, commotion)
  instead of a rendered string. The random template choice is the injected `roll`,
  taken modulo the size of the pool (8 generic templates and 3 finish-line templates).
- `Race` holds round start, the look-ahead (`Prepare`), the draw reducer
  (`Resolve`, and `Draw` = `Resolve` followed by `Prepare`) and the next-round
  action.
- `RaceInvariants` defines the invariant of every reachable state and proves
  that round start, draw and next round keep it. It also proves that every
  round ends.
- `Standings` is the tournament table: horses ordered by descending points, with
  ties kept in field order.
- `RaceScenario` is a worked two-horse race, computed draw by draw.

The random sources (`Math.random`) are parameters. The React rendering, timers
and the optional remote commentary service are not modelled.

Three behaviours of the code are worth stating plainly, since a reader might
expect otherwise:

- The next-round action is offered on every `round_finished` state, single mode
  included (App.tsx:447-450), because a single race never reaches
  `tournament_finished`. `Race.NextRound` does the same.
- Deck size plus the cards recorded on horses is not constant. A card drawn
  for a horse that is already placed leaves the deck but is recorded nowhere
  (App.tsx:148). The model states the two halves separately:
  - the deck shrinks by exactly the number of cards drawn (`Race.Resolve`);
  - a horse's position is its own recorded cards, capped at the line
    (`RaceInvariants.Inv`).
- The finish-line message is never chosen for a look-ahead. The look-ahead
  commentary is computed from the positions before the draw, and while a round
  is being played every horse at the line is already placed
  (`RaceInvariants.NoFinishCommentaryWhilePlaying`). The selector itself still
  models the branch (App.tsx:71-75).

## Model

| member | source | states |
|---|---|---|
| ConfigClamp.Clamp | App.tsx:38-47 | Only `cardsPerHorse` changes. For a non-negative track it ends up in `[trackLength, 2*trackLength]`. A value already in range is kept. A value below the range goes to the lower bound and one above it to the upper bound. A negative track (an empty range) gets the lower bound. |
| Types.RankPoints | App.tsx:188-191 | A horse earns points exactly when it holds place 1, 2 or 3; an unplaced horse earns none. |
| Seqs.Pop | App.tsx:86-91 | Popping `drawCount` cards yields `min(drawCount, deck size)` cards, the `k`-th being the `k`-th card from the top; a short deck yields fewer cards instead of failing. |
| Seqs.DropTail | App.tsx:144-145 | Removing `n` cards from the deck leaves a prefix of the deck, `n` cards shorter (never below empty). |
| Seqs.PopThenDrop | App.tsx:144-145 | Removing as many cards as were popped, then putting the popped cards back in reverse, restores the deck: the draw takes exactly the cards the look-ahead showed. |
| Deck.BuildDeck | App.tsx:116-119 | The unshuffled deck has `cardsPerHorse` cards per horse in total, and each id occurs once per card of every horse carrying it. |
| Deck.BuildDeckCounts | App.tsx:116-119 | With distinct ids, every horse has exactly `cardsPerHorse` cards in the deck and no other id appears. |
| Deck.Shuffle | App.tsx:120-123 | The shuffle is a permutation of the built deck, for every admissible sequence of random indices. |
| Deck.IdentityRollsKeepOrder | App.tsx:120-123 | When every swap picks its own position, the shuffle leaves the deck in build order. |
| Deck.ShuffledDeckCounts | App.tsx:116-123 | After shuffling, the deck still has `horseCount * cardsPerHorse` cards, `cardsPerHorse` of each horse. |
| Commentator.PodiumName | App.tsx:65 | A finisher id is shown with the name of the first horse carrying it, and as "???" when that name is empty or no horse carries the id. A shown name is never empty. |
| Commentator.LocalCommentary | App.tsx:63-81 | The first rule that applies wins, and each outcome holds exactly when its rule applies. The rules in order: a round end with a finisher gives a podium of the first three finishers' names; an empty draw gives "in progress"; a horse at the line but unlisted gives a finish-line template naming the first such horse; then comes a generic template naming the first horse with the first drawn id; commotion when no horse has that id. |
| Commentator.PodiumIgnoresProgress | App.tsx:65 | Podium names depend only on the horses' identities, so scoring the round does not change them. |
| Race.RoundHorses | App.tsx:100-115 | Every horse of a new round is at the gate with no cards and no place. Carried horses keep id, name, colour and points. Fresh horses are numbered from 0, named from the ten-name table in turn, and start at 0 points. |
| Race.StartRound | App.tsx:99-138 | A round opens playing at turn 0 with no finishers. Its deck is a shuffle of `cardsPerHorse` cards per horse, and the first look-ahead is the top of that deck whenever the deck has a card, with the mid-race commentary for exactly those cards on the fresh field. |
| Race.Prepare | App.tsx:83-97 | Once the deck is empty or enough horses are placed, nothing changes. Otherwise only the look-ahead is set: the top `drawCount` cards (fewer if the deck is short) in pop order, with the mid-race commentary for them. |
| Race.AdvanceHorse | App.tsx:147-166 | One horse's update for a draw. A horse that is placed or drew no card is untouched. Any other horse moves one step per card, capped at the line, and records its cards. It is placed, and appended to the finisher list, exactly when it reaches the line while fewer than three horses are listed. |
| Race.AdvanceAll | App.tsx:146-167 | The finisher list is only ever extended at its end, and never beyond three entries. |
| Race.AdvanceAllMoves | App.tsx:147-166 | Every horse changes as the single-horse rule describes. |
| Race.AdvanceAllRanks | App.tsx:159-165 | A horse newly placed by a draw gets a place after all earlier places, and its id is listed at that place. |
| Race.AdvanceAllCovers | App.tsx:159-165 | Every new finisher-list entry is the place of a horse newly placed in this draw. |
| Race.AdvanceAllTieOrder | App.tsx:147-165 | Horses crossing the line in the same draw are placed in field order. |
| Race.AdvanceAllFullPodium | App.tsx:160-164 | A horse that reached the line in this draw but stays unplaced implies that three horses are already listed. |
| Race.AwardPoints | App.tsx:187-192 | Scoring changes nothing but points, and never lowers them. |
| Race.AwardPointsTable | App.tsx:188-191 | Scoring adds 10, 5 or 2 points for places 1, 2 and 3, and nothing to an unplaced horse. |
| Race.Resolve | App.tsx:140-199 | A draw without a look-ahead, or outside play, changes nothing. Otherwise: exactly the drawn cards leave the deck; the turn counts up; the look-ahead is consumed; the finisher list is only extended, up to three. The round keeps playing exactly while places are missing and cards remain; it ends as `tournament_finished` exactly on the last round of a tournament. The message is the prepared one mid-round, and a podium (or "in progress" with no finisher) at the end. |
| Race.Draw | App.tsx:140-201 | The draw button applies the pending draw. A new look-ahead exists exactly while the round goes on. It is the top of the remaining deck, and its message is the mid-race commentary for those cards on the field and finisher list the draw left behind. |
| Race.ResolveTwiceIsNoop | App.tsx:142 | Applying a draw twice without a new look-ahead does not apply it twice: the second attempt changes nothing. |
| Race.ResolveMovesHorses | App.tsx:147-192 | Horse by horse, a draw moves as the single-horse rule says and, when it closes the round, adds the points of the place held. |
| Race.NextRound | App.tsx:447-450 | From a finished round, in either mode, the next round starts playing with the same horses. They keep identities and points, stand at the gate unplaced, and the finisher list is empty. Any other state is left unchanged. |
| RaceInvariants.NoFinishCommentaryWhilePlaying | App.tsx:71-75 | While a round is being played, the look-ahead message is never the finish-line one. |
| RaceInvariants.RoundHorsesSound | App.tsx:100-115 | A new round's field has distinct ids, horses at the gate, no places and no negative points. |
| RaceInvariants.StartRoundEstablishesInv | App.tsx:99-138 | A round started from a valid configuration satisfies the invariant. The invariant covers: distinct ids; each position equal to the horse's own cards capped at the line; places and the finisher list agreeing both ways; at most three finishers; a look-ahead present exactly while playing, and equal to the top of the deck; the round counting of a series. |
| RaceInvariants.AdvancePreservesField | App.tsx:146-167 | A draw keeps ids distinct, keeps positions equal to the capped card counts, and keeps places and the finisher list in agreement. |
| RaceInvariants.AwardKeepsField | App.tsx:187-192 | Scoring keeps the field and its places sound. |
| RaceInvariants.DrawPreservesInv | App.tsx:140-201 | Every draw action keeps the invariant. |
| RaceInvariants.NextRoundPreservesInv | App.tsx:447-450 | The next-round action keeps the invariant. |
| RaceInvariants.FinishersDistinct | App.tsx:159-165 | In every reachable state a horse is listed among the finishers at most once. |
| RaceInvariants.FinishersBounded | App.tsx:159-165 | In every reachable state no more horses are listed than run, and never more than three; while a round is played, fewer than that. |
| RaceInvariants.DrawProgress | App.tsx:144-145 | While a round is played the draw is possible, and each draw removes at least one card. |
| RaceInvariants.PlayOut | App.tsx:168-175 | Drawing repeatedly always ends the round, within as many draws as there are cards, in a state that still satisfies the invariant. |
| RaceInvariants.DrawKeepsHorsesForward | App.tsx:147-166 | Within a round a draw never moves a horse back or past the line, never changes its identity, and never changes a place once given. |
| Standings.Insert | App.tsx:415 | Inserting into a descending table keeps it descending and adds exactly that horse. |
| Standings.InsertKeepsGroups | App.tsx:415 | Insertion puts the new horse ahead of the others with equal points and keeps their order. |
| Standings.Table | App.tsx:415 | The standings are a permutation of the field ordered by descending points. |
| Standings.TableIsStable | App.tsx:415 | Horses with equal points appear in the standings in field order. |
| Standings.SameGroupsSameTable | App.tsx:415 | Two descending tables with the same equal-points groups are the same table. |
| Standings.TableIsTheStableOrder | App.tsx:415 | The standings are the unique descending order that keeps equal-points horses in field order. |
| RaceScenario.TwoHorseRace | App.tsx:140-201 | Two horses, track 2, two cards each, one card per draw, deck left in build order. Horse 1 is placed first on the second draw while the round goes on. Horse 0 is placed second on the fourth draw, which closes the round with 10 and 5 points. |

## Left out

- Rendering, layout and responsive sizing, dust particles, and the horse drawing (components/HorseIcon.tsx) are presentation only.
- The auto-draw timer (App.tsx:203-210) only calls the draw action on a delay. `RaceInvariants.PlayOut` covers any sequence of draws.
- The remote commentary service (services/geminiService.ts) is a network call that App.tsx never invokes. It is not part of this model.
- The template and podium texts are represented by the template index and the names they are filled with. The colour tables are represented by the palette slot a horse's colour comes from (`i % 10`).
- The round-start message (App.tsx:136) and the on-screen commentary cell: the model returns the message of each draw in `Step` instead of storing it.
- The reset button (App.tsx:451) discards the state and returns to setup. There is nothing to model beyond the absence of a state.
- The clamp runs only when `trackLength` changes (a React effect). The model exposes `Clamp` as a function. The setup slider for `cardsPerHorse` has the same bounds.
- `Race.NextRound` and `Race.StartRound` take the configuration from the state. The source passes the component's current configuration (App.tsx:99, 125). That configuration can only be edited on the setup screen, which is shown only when no game exists (App.tsx:212).
- Deck.Shuffle: proved to be a permutation for every admissible sequence of random indices. Uniformity of the distribution is a probabilistic property and is not stated.
- Types.Rank: places are integers of at least 1. The source's truthiness test on `finishRank` therefore coincides with "has a place".
- Numbers are unbounded integers. The source uses JavaScript doubles, whose values in this game stay small integers.
- RaceScenario.TwoHorseRace: the worked race uses track length 2 instead of 5, to keep the computation small. The same rules govern the longer race.
