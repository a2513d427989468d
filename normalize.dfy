/**
  The calculator's input normalisation: the clamps that keep the deck size,
  the hand size and each card's copies, minimum and maximum in range.

  Each clamp is written the way the component writes it (an if-chain, two
  ifs, or nested Math.min/Math.max) and is shown to be the nearest value of
  its range to the input.
 */
module Normalize {

  /** Math.min on integers. */
  function Min(a: int, b: int): (r: int)
    ensures r <= a && r <= b
    ensures r == a || r == b
  {
    if a <= b then a else b
  }

  /** Math.max on integers. */
  function Max(a: int, b: int): (r: int)
    ensures r >= a && r >= b
    ensures r == a || r == b
  {
    if a >= b then a else b
  }

  function Dist(a: int, b: int): (d: nat) {
    if a >= b then a - b else b - a
  }

  /** r is the value of lo..hi closest to v. */
  ghost predicate NearestIn(lo: int, hi: int, v: int, r: int) {
    lo <= r <= hi && forall x :: lo <= x <= hi ==> Dist(r, v) <= Dist(x, v)
  }

  /** A clamp is determined by its range: there is only one nearest value. */
  lemma NearestUnique(lo: int, hi: int, v: int, r: int, r': int)
    requires NearestIn(lo, hi, v, r) && NearestIn(lo, hi, v, r')
    ensures r == r'
  {
    assert Dist(r, v) <= Dist(r', v) && Dist(r', v) <= Dist(r, v);
    // In range both are v itself; out of range both lie on the same side of v.
    if lo <= v <= hi {
      assert Dist(r, v) <= Dist(v, v) && Dist(r', v) <= Dist(v, v);
    }
  }

  /** Raising to lo and then lowering to hi gives the nearest value of lo..hi. */
  lemma NearestClamp(lo: int, hi: int, v: int)
    requires lo <= hi
    ensures NearestIn(lo, hi, v, Min(hi, Max(lo, v)))
  {
  }

  const MIN_DECK_SIZE := 40
  const MAX_DECK_SIZE := 60
  const MIN_HAND_SIZE := 1
  const MAX_HAND_SIZE := 6
  const MIN_COPIES := 1
  const MAX_COPIES := 3

  /** The deck-size clamp of the deck-size handler: below 40 gives 40, above 60 gives 60, otherwise kept. */
  function ClampDeckSize(v: int): (d: int)
    ensures MIN_DECK_SIZE <= d <= MAX_DECK_SIZE
    ensures v < MIN_DECK_SIZE ==> d == MIN_DECK_SIZE
    ensures v > MAX_DECK_SIZE ==> d == MAX_DECK_SIZE
    ensures MIN_DECK_SIZE <= v <= MAX_DECK_SIZE ==> d == v
    ensures NearestIn(MIN_DECK_SIZE, MAX_DECK_SIZE, v, d)
  {
    NearestClamp(MIN_DECK_SIZE, MAX_DECK_SIZE, v);
    if v < MIN_DECK_SIZE then MIN_DECK_SIZE
    else if v > MAX_DECK_SIZE then MAX_DECK_SIZE
    else v
  }

  /** The hand-size clamp: first raised to 1, then lowered to 6. */
  function ClampHandSize(v: int): (h: int)
    ensures MIN_HAND_SIZE <= h <= MAX_HAND_SIZE
    ensures v < MIN_HAND_SIZE ==> h == MIN_HAND_SIZE
    ensures v > MAX_HAND_SIZE ==> h == MAX_HAND_SIZE
    ensures MIN_HAND_SIZE <= v <= MAX_HAND_SIZE ==> h == v
    ensures NearestIn(MIN_HAND_SIZE, MAX_HAND_SIZE, v, h)
  {
    NearestClamp(MIN_HAND_SIZE, MAX_HAND_SIZE, v);
    var raised := if v < MIN_HAND_SIZE then MIN_HAND_SIZE else v;
    if raised > MAX_HAND_SIZE then MAX_HAND_SIZE else raised
  }

  /** The copies clamp applied at computation time: Math.min(3, Math.max(1, copies)). */
  function ClampCopies(copies: int): (k: int)
    ensures MIN_COPIES <= k <= MAX_COPIES
    ensures copies < MIN_COPIES ==> k == MIN_COPIES
    ensures copies > MAX_COPIES ==> k == MAX_COPIES
    ensures MIN_COPIES <= copies <= MAX_COPIES ==> k == copies
    ensures NearestIn(MIN_COPIES, MAX_COPIES, copies, k)
  {
    NearestClamp(MIN_COPIES, MAX_COPIES, copies);
    Min(MAX_COPIES, Max(MIN_COPIES, copies))
  }
}
