/** The fruit catalog, application states, score pair and container
    geometry of the game. Lengths are pixels, written as `real`;
    catalog colours are presentation only and are not modelled. */
module Util {

  /** One catalog entry: the fruit's diameter and its score value. */
  datatype Fruit = Fruit(size: real, score: int)

  /** The three screens of the application. */
  datatype AppState = Menu | InGame | GameOver

  /** The state the application starts in. */
  const DefaultState: AppState := Menu

  /** The score pair: points of the current round and the best score. */
  datatype Score = Score(current: int, best: int)

  // Container geometry.
  const ContainerW: real := 400.0
  const ContainerH: real := 500.0
  const ContainerT: real := 12.0
  const ContainerP: real := 38.0

  /** Below this speed a fruit counts as resting. */
  const MinSpeed: real := 3.0

  /** Horizontal distance the held fruit travels per tick. */
  const MoveSpeed: real := 2.8

  /** The eleven fruit tiers, smallest first. */
  const Suika: seq<Fruit> := [
    Fruit(31.2, 0),
    Fruit(48.0, 1),
    Fruit(64.8, 3),
    Fruit(72.0, 6),
    Fruit(92.4, 10),
    Fruit(110.4, 15),
    Fruit(116.4, 21),
    Fruit(154.8, 28),
    Fruit(184.8, 36),
    Fruit(208.8, 45),
    Fruit(244.8, 55)
  ]

  /** A tier that indexes the catalog. */
  predicate ValidTier(t: nat) {
    t < |Suika|
  }

  /** Diameter of a fruit of tier `t`. */
  function Size(t: nat): (s: real)
    requires ValidTier(t)
    ensures 31.2 <= s <= 244.8
  {
    Suika[t].size
  }

  /** The catalog holds exactly eleven tiers. */
  lemma CatalogHasElevenTiers()
    ensures |Suika| == 11
    ensures forall t: nat :: ValidTier(t) <==> t <= 10
  {
  }

  /** A larger tier always means a strictly larger fruit. */
  lemma SizesIncrease(i: nat, j: nat)
    requires i < j && ValidTier(j)
    ensures Size(i) < Size(j)
  {
  }

  /** The score value of tier `t` is the triangular number t(t+1)/2. */
  lemma ScoreIsTriangular(t: nat)
    requires ValidTier(t)
    ensures Suika[t].score == t * (t + 1) / 2
  {
  }

  /** Score values strictly increase with the tier. */
  lemma ScoresIncrease(i: nat, j: nat)
    requires i < j && ValidTier(j)
    ensures Suika[i].score < Suika[j].score
  {
  }
}
