/**
 The configuration clamp: whenever the track length changes, the number of
 cards per horse is forced into [trackLength, 2 * trackLength], so that a
 horse's own cards can always carry it to the line.
 */
module ConfigClamp {
  import opened Seqs
  import opened Types

  predicate CardsInRange(c: Config)
  {
    c.trackLength <= c.cardsPerHorse <= 2 * c.trackLength
  }

  function Clamp(c: Config): (r: Config)
    // only the number of cards per horse may change
    ensures r == c.(cardsPerHorse := r.cardsPerHorse)
    // for any usable track the result is in range ...
    ensures c.trackLength >= 0 ==> CardsInRange(r)
    // ... a value already in range is left alone ...
    ensures CardsInRange(c) ==> r == c
    // ... and an out-of-range value moves to the nearer bound
    ensures c.trackLength >= 0 && c.cardsPerHorse < c.trackLength ==> r.cardsPerHorse == c.trackLength
    ensures c.trackLength >= 0 && c.cardsPerHorse > 2 * c.trackLength ==> r.cardsPerHorse == 2 * c.trackLength
    // a negative track has an empty range; the lower bound wins
    ensures c.trackLength < 0 ==> r.cardsPerHorse == c.trackLength
  {
    var lo := c.trackLength;
    var hi := c.trackLength * 2;
    if c.cardsPerHorse < lo || c.cardsPerHorse > hi then
      c.(cardsPerHorse := Max(lo, Min(hi, c.cardsPerHorse)))
    else
      c
  }

  /** Clamping twice is clamping once. */
  lemma ClampIdempotent(c: Config)
    ensures Clamp(Clamp(c)) == Clamp(c)
  {
  }
}
