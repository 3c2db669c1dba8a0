/** Scoring of a throw of two dice (the game's `calculateValue`).

    A throw is ranked by one integer: Mäxchen (2 and 1) is 1000, a double
    ("Pasch") of face d is 100 * d, and every other throw is the two-digit
    number written high face first.  This module defines that encoding and
    proves it agrees with the game's ranking written without arithmetic:
    first the tier (Mäxchen, double, plain), then the high face, then the
    low face.
 */
module Scoring {

  /** One face of a six-sided die. */
  type Face = d: int | 1 <= d <= 6 witness 1

  function Max(a: int, b: int): int { if a < b then b else a }

  function Min(a: int, b: int): int { if a < b then a else b }

  /** The throw {2, 1}, in either order. */
  predicate IsMaexchen(a: Face, b: Face) { Max(a, b) == 2 && Min(a, b) == 1 }

  /** Both dice show the same face. */
  predicate IsDouble(a: Face, b: Face) { a == b }

  /** The rank of a throw.  The three bands are disjoint: Mäxchen alone is
      1000, doubles fill 100..600, and plain throws stay in 31..65 and read
      as their two faces, high digit first. */
  function Score(a: Face, b: Face): (r: int)
    ensures r == 1000 <==> IsMaexchen(a, b)
    ensures 100 <= r <= 600 <==> IsDouble(a, b)
    ensures 31 <= r <= 65 <==> !IsMaexchen(a, b) && !IsDouble(a, b)
    ensures r < 100 ==> r / 10 == Max(a, b) && r % 10 == Min(a, b)
    ensures IsDouble(a, b) ==> r / 100 == a && r % 100 == 0
  {
    var hi := Max(a, b);
    var lo := Min(a, b);
    if hi == 2 && lo == 1 then 1000
    else if hi == lo then hi * 100
    else 10 * hi + lo
  }

  /** The game's ranking of a throw, stated without the numeric encoding:
      tier 2 is Mäxchen, tier 1 a double, tier 0 anything else; within a
      tier the higher high face wins, then the higher low face. */
  datatype Rank = Rank(tier: int, hi: int, lo: int)

  function RankOf(a: Face, b: Face): Rank
  {
    Rank(if IsMaexchen(a, b) then 2 else if IsDouble(a, b) then 1 else 0, Max(a, b), Min(a, b))
  }

  /** Lexicographic comparison of ranks. */
  predicate Outranks(x: Rank, y: Rank)
  {
    x.tier > y.tier
    || (x.tier == y.tier && x.hi > y.hi)
    || (x.tier == y.tier && x.hi == y.hi && x.lo > y.lo)
  }

  /** The order of the game: Mäxchen beats every double, and every double
      beats every plain throw. */
  lemma ScoreBands(a: Face, b: Face, c: Face, d: Face)
    ensures IsMaexchen(a, b) && !IsMaexchen(c, d) ==> Score(a, b) > Score(c, d)
    ensures IsDouble(a, b) && !IsDouble(c, d) && !IsMaexchen(c, d) ==> Score(a, b) > Score(c, d)
  {
  }

  /** The score does not depend on which die is which. */
  lemma ScoreSymmetric(a: Face, b: Face)
    ensures Score(a, b) == Score(b, a)
  {
  }

  /** Comparing scores is the same as comparing ranks. */
  lemma ScoreOrdersLikeRank(a: Face, b: Face, c: Face, d: Face)
    ensures Score(a, b) > Score(c, d) <==> Outranks(RankOf(a, b), RankOf(c, d))
  {
  }

  /** Two throws get the same score exactly when they are the same unordered
      pair of faces: the 21 unordered pairs get 21 distinct scores. */
  lemma ScoreDistinguishesThrows(a: Face, b: Face, c: Face, d: Face)
    ensures Score(a, b) == Score(c, d) <==> Max(a, b) == Max(c, d) && Min(a, b) == Min(c, d)
  {
  }

  /** The reference ranking is a strict total order on throws, so the score
      order is one too. */
  lemma OutranksIsStrictTotalOrder(a: Face, b: Face, c: Face, d: Face, e: Face, f: Face)
    ensures !Outranks(RankOf(a, b), RankOf(a, b))
    ensures Outranks(RankOf(a, b), RankOf(c, d)) && Outranks(RankOf(c, d), RankOf(e, f))
            ==> Outranks(RankOf(a, b), RankOf(e, f))
    ensures RankOf(a, b) != RankOf(c, d)
            ==> Outranks(RankOf(a, b), RankOf(c, d)) || Outranks(RankOf(c, d), RankOf(a, b))
  {
  }
}
