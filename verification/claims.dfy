/** Claims: how a two-digit bid is stored and ranked.

    `submitClaim` sorts the two entered digits high first and stores the bid
    as the integer 10 * high + low (`lastClaim`; 0 means "no claim yet").
    Both `submitClaim` and `reveal` read a stored bid back with `/ 10` and
    `% 10` and rank it with the throw score, so bids and throws share one
    ranking.  The display helpers are modelled as an abstract label.
 */
module Claims {
  import opened Scoring

  /** `lastClaim` before anybody has bid in the current round. */
  const NoClaim := 0

  /** A stored bid: the tens digit is the high face and the units digit the
      low face, both dice faces. */
  predicate IsClaimCode(c: int)
  {
    1 <= c % 10 <= c / 10 <= 6
  }

  /** What `lastClaim` may hold. */
  predicate IsStoredClaim(c: int)
  {
    c == NoClaim || IsClaimCode(c)
  }

  /** The stored form of a bid: digits swapped when the first is smaller,
      then read as one two-digit number. */
  function EncodeClaim(a: Face, b: Face): (c: int)
    ensures IsClaimCode(c)
    ensures c / 10 == Max(a, b) && c % 10 == Min(a, b)
  {
    if a < b then 10 * b + a else 10 * a + b
  }

  /** The high and low face of a stored bid. */
  function DecodeClaim(c: int): (faces: (Face, Face))
    requires IsClaimCode(c)
    ensures faces.0 >= faces.1
    ensures EncodeClaim(faces.0, faces.1) == c
  {
    (c / 10, c % 10)
  }

  /** The rank of a stored bid, 0 for "no claim yet" (the value `reveal`
      compares the actual throw against). */
  function ClaimRank(c: int): (r: int)
    requires IsStoredClaim(c)
    ensures r == 0 <==> c == NoClaim
    ensures c != NoClaim ==> 31 <= r <= 1000
  {
    if c == NoClaim then 0 else Score(c / 10, c % 10)
  }

  /** Round trip one way: decoding a stored bid gives back the entered faces,
      high first. */
  lemma DecodeEncode(a: Face, b: Face)
    ensures DecodeClaim(EncodeClaim(a, b)) == (Max(a, b), Min(a, b))
  {
  }

  /** Round trip the other way: every stored bid is the encoding of its own
      digits. */
  lemma EncodeDecode(c: int)
    requires IsClaimCode(c)
    ensures var (hi, lo) := DecodeClaim(c); EncodeClaim(hi, lo) == c && EncodeClaim(lo, hi) == c
  {
  }

  /** Re-scoring a stored bid gives the score it was accepted with. */
  lemma ClaimRankOfEncode(a: Face, b: Face)
    ensures ClaimRank(EncodeClaim(a, b)) == Score(a, b)
  {
  }

  /** Distinct stored bids have distinct ranks, so a strictly higher bid is
      always a different stored value. */
  lemma ClaimRankInjective(c: int, c': int)
    requires IsStoredClaim(c) && IsStoredClaim(c')
    ensures ClaimRank(c) == ClaimRank(c') <==> c == c'
  {
    if c != NoClaim && c' != NoClaim {
      ScoreDistinguishesThrows(c / 10, c % 10, c' / 10, c' % 10);
    }
  }

  /** What the game shows for a bid or a throw: "Mäxchen (21)", a double
      written with both digits and "(Pasch)", or a plain number.  `shown` is
      the number the text starts with. */
  datatype Label = MaexchenLabel | PaschLabel(shown: int) | PlainLabel(shown: int)

  /** The label of a stored bid (`formatClaim`). */
  function FormatClaim(c: int): (r: Label)
    ensures r == MaexchenLabel <==> c == 21
    ensures r.PaschLabel? <==> c != 21 && c % 11 == 0
    ensures r != MaexchenLabel ==> r.shown == c
  {
    if c == 21 then MaexchenLabel
    else if c % 11 == 0 then PaschLabel(c)
    else PlainLabel(c)
  }

  /** The label of a score (`getDisplayValue`): the face of a double is
      `score / 100`, written twice. */
  function DisplayValue(score: int): (r: Label)
    requires score < 100 || score == 1000 || (score < 1000 && score % 100 == 0)
    ensures r == MaexchenLabel <==> score == 1000
    ensures r.PaschLabel? <==> 100 <= score < 1000
    ensures r.PaschLabel? ==> r.shown / 10 == r.shown % 10 == score / 100
    ensures r.PlainLabel? ==> r.shown == score
  {
    if score == 1000 then MaexchenLabel
    else if score >= 100 then PaschLabel(11 * (score / 100))
    else PlainLabel(score)
  }

  /** `formatClaim` sees a double exactly when the bid is a double. */
  lemma FormatClaimClassifies(c: int)
    requires IsClaimCode(c)
    ensures FormatClaim(c) == MaexchenLabel <==> IsMaexchen(c / 10, c % 10)
    ensures FormatClaim(c).PaschLabel? <==> IsDouble(c / 10, c % 10)
    ensures FormatClaim(c) == MaexchenLabel || FormatClaim(c).shown == c
  {
    var hi, lo := c / 10, c % 10;
    assert c == 10 * hi + lo;
    if hi != lo {
      assert c % 11 != 0 by {
        assert c == 11 * hi + (lo - hi);
        assert -5 <= lo - hi <= -1;
      }
    }
  }

  /** Showing a stored bid and showing its score give the same label. */
  lemma LabelsAgree(c: int)
    requires IsClaimCode(c)
    ensures DisplayValue(ClaimRank(c)) == FormatClaim(c)
  {
    FormatClaimClassifies(c);
  }
}
