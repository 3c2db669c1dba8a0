/** Properties of the game that relate several handlers, or a handler and
    the roster walks it relies on. */
module GameProperties {
  import opened Scoring
  import opened Claims
  import opened Roster
  import opened Game

  /** The Mäxchen rule wins in every turn state.  In kids mode exactly the
      other living players lose one life each, nobody drops below zero, the
      current player is untouched, and the game ends only when nobody is left
      alive, so never while the current player is alive. */
  lemma MaexchenRule(s: Session)
    requires Valid(s) && s.roll.value == MaexchenScore
    ensures s.mode == Classic ==> Reveal(s) == s.(state := RoundEnd)
    ensures s.mode == Kids ==>
      var r := Reveal(s);
      && r.players[s.current] == s.players[s.current]
      && (forall k :: 0 <= k < |s.players| && k != s.current && Alive(s.players[k]) ==>
            r.players[k].lives == s.players[k].lives - 1)
      && (forall k :: 0 <= k < |s.players| && !Alive(s.players[k]) ==> r.players[k] == s.players[k])
      && (forall k :: 0 <= k < |s.players| && s.players[k].lives >= 0 ==> r.players[k].lives >= 0)
      && (r.state == GameOver <==> !AnyAlive(r.players))
      && (Alive(CurrentPlayer(s)) ==> r.state == RoundEnd)
      && TotalLives(r.players) == TotalLives(s.players) - CountAlive(s.players)
           + (if Alive(CurrentPlayer(s)) then 1 else 0)
  {
    if s.mode == Kids {
      PenalizeOthersTotal(s.players, s.current);
      var r := Reveal(s);
      assert Alive(s.players[s.current]) ==> Alive(r.players[s.current]);
    }
  }

  /** A doubted bid.  The loser is the doubter when the dice are at least as
      good as the bid and the previous living player otherwise.  In kids mode
      the loser loses exactly one life and nobody else any; the game is over
      exactly when that life was the last, otherwise the loser moves to the
      turn.  Classic mode only ends the round. */
  lemma ChallengeRule(s: Session)
    requires Valid(s) && s.state == Deciding && s.roll.value != MaexchenScore
    ensures var loser := if s.roll.value >= ClaimRank(s.lastClaim) then s.current
                         else PreviousIndex(s.mode, s.players, s.current);
      var r := Reveal(s);
      && (s.mode == Classic ==> r == s.(state := RoundEnd))
      && (s.mode == Kids ==>
            && r.players[loser].lives == s.players[loser].lives - 1
            && (forall k :: 0 <= k < |s.players| && k != loser ==> r.players[k] == s.players[k])
            && TotalLives(r.players) == TotalLives(s.players) - 1
            && (r.state == GameOver <==> s.players[loser].lives == 1)
            && (r.state == RoundEnd ==> r.current == loser)
            && (Alive(CurrentPlayer(s)) ==> Alive(s.players[loser])))
  {
    var loser := ChallengeLoser(s);
    if s.mode == Kids {
      LoseLifeTotal(s.players, loser);
    }
  }

  /** A reveal outside the deciding phase without a Mäxchen: the current
      player loses the round, in kids mode one life, and the game is over
      exactly when that life was the last. */
  lemma PrematureRule(s: Session)
    requires Valid(s) && s.state != Deciding && s.roll.value != MaexchenScore
    ensures var r := Reveal(s);
      && (s.mode == Classic ==> r == s.(state := RoundEnd))
      && (s.mode == Kids ==>
            && r.players[s.current].lives == s.players[s.current].lives - 1
            && (forall k :: 0 <= k < |s.players| && k != s.current ==> r.players[k] == s.players[k])
            && TotalLives(r.players) == TotalLives(s.players) - 1
            && (r.state == GameOver <==> s.players[s.current].lives == 1)
            && r.current == s.current)
  {
    if s.mode == Kids {
      LoseLifeTotal(s.players, s.current);
    }
  }

  /** The primary button after the game is over restores everybody to five
      lives and starts over from the first seat; after a round it clears the
      bid and keeps the turn; in every other state it rolls. */
  lemma PrimaryActionRule(s: Session, d1: Face, d2: Face)
    ensures var r := PrimaryAction(s, d1, d2);
      && (s.state == GameOver ==>
            && r.state == Start && r.current == 0 && r.lastClaim == NoClaim
            && |r.players| == |s.players|
            && forall k :: 0 <= k < |r.players| ==> r.players[k].lives == StartingLives)
      && (s.state == RoundEnd ==>
            r.state == Start && r.lastClaim == NoClaim && r.current == s.current && r.players == s.players)
      && (s.state != GameOver && s.state != RoundEnd ==>
            r.state == Rolled && r.roll == Roll(d1, d2, Score(d1, d2)) && r.players == s.players
            && r.current == s.current && r.lastClaim == s.lastClaim)
  {
  }

  /** Within a round the standing bid only rises: an event either leaves it,
      replaces it by a strictly higher one, or clears it when a new round
      starts. */
  lemma ClaimsOnlyRise(s: Session, e: Event)
    requires Valid(s)
    ensures var r := Step(s, e);
      || r.lastClaim == s.lastClaim
      || ClaimRank(r.lastClaim) > ClaimRank(s.lastClaim)
      || (r.lastClaim == NoClaim && r.state == Start && (s.state == RoundEnd || s.state == GameOver))
  {
  }

  /** The game's health in the sense of its own design: nobody has negative
      lives, and in kids mode the turn is with a living player until the game
      is over. */
  predicate Healthy(s: Session)
  {
    && Valid(s)
    && (forall k :: 0 <= k < |s.players| ==> s.players[k].lives >= 0)
    && (s.mode == Kids && s.state != GameOver ==> Alive(CurrentPlayer(s)))
  }

  /** Reveal and submit have no turn-state guard.  After the game is over the
      page hides both buttons; these are the two events the health of the
      game does not survive there. */
  predicate UnguardedAfterGameOver(s: Session, e: Event)
  {
    s.state == GameOver && (e == PressReveal || e == PressSubmit)
  }

  lemma StartGameIsHealthy(mode: Mode, names: seq<string>)
    ensures StartGame(mode, names).Started? ==> Healthy(StartGame(mode, names).session)
  {
  }

  /** Every event keeps the game healthy, except reveal and submit after the
      game is over. */
  lemma StepKeepsHealthy(s: Session, e: Event)
    requires Healthy(s) && !UnguardedAfterGameOver(s, e)
    ensures Healthy(Step(s, e))
  {
    var r := Step(s, e);
    match e
    case PressSubmit =>
      if s.mode == Kids {
        AdvanceFindsAlive(s.players, s.current);
      }
    case PressReveal =>
      if s.roll.value == MaexchenScore {
        MaexchenRule(s);
      } else if s.state == Deciding {
        ChallengeRule(s);
      } else {
        PrematureRule(s);
      }
    case PressPrimary(d1, d2) =>
      PrimaryActionRule(s, d1, d2);
    case _ =>
  }

  /** Reveal after the game is over, as written: the player whose last life
      ended the game is charged again, drops to -1 lives, and the state goes
      back to the end of a round. */
  lemma RevealAfterGameOver()
    ensures var s := Session([Player("A", 0), Player("B", 3)], 0, Kids, GameOver, NoClaim, [], Roll(3, 1, 31));
      var r := Reveal(s);
      Healthy(s) && r.players[0].lives == -1 && r.state == RoundEnd && !Healthy(r)
  {
  }

  /** Two kids, A and B.  A rolls 3 and 2 and bids 32; B believes, rolls 4
      and 1 and bids 44; A doubts.  The dice show 41, less than 44, so B
      lied, loses a life and starts the next round. */
  lemma ScenarioDoubtedLie()
    ensures StartGame(Kids, ["A", "B"]).Started?
    ensures var s0 := StartGame(Kids, ["A", "B"]).session;
      var s1 := Bid(Step(s0, PressPrimary(3, 2)), 3, 2);
      var s2 := Bid(Step(s1, PressPrimary(4, 1)), 4, 4);
      var s3 := Step(s2, PressReveal);
      && s1.lastClaim == 32 && s1.current == 1 && s1.state == Deciding
      && s2.lastClaim == 44 && s2.current == 0 && s2.state == Deciding
      && s3.players == [Player("A", 5), Player("B", 4)] && s3.current == 1 && s3.state == RoundEnd
  {
    var ps := [Player("A", 5), Player("B", 5)];
    assert KidsRoster(["A", "B"]) == ps by {
      assert ["A", "B"][1..] == ["B"];
      assert ["B"][1..] == [];
    }
    ScenarioFirstBid(ps);
    ScenarioSecondBid(ps);
    ScenarioDoubt(ps);
  }

  lemma ScenarioFirstBid(ps: seq<Player>)
    requires ps == [Player("A", 5), Player("B", 5)]
    ensures Bid(Step(Session(ps, 0, Kids, Start, NoClaim, [], NoRoll), PressPrimary(3, 2)), 3, 2)
      == Session(ps, 1, Kids, Deciding, 32, [3, 2], Roll(3, 2, 32))
  {
    assert AdvanceIndex(Kids, ps, 0) == 1;
  }

  lemma ScenarioSecondBid(ps: seq<Player>)
    requires ps == [Player("A", 5), Player("B", 5)]
    ensures Bid(Step(Session(ps, 1, Kids, Deciding, 32, [3, 2], Roll(3, 2, 32)), PressPrimary(4, 1)), 4, 4)
      == Session(ps, 0, Kids, Deciding, 44, [4, 4], Roll(4, 1, 41))
  {
    assert AdvanceIndex(Kids, ps, 1) == 0;
    assert ClaimRank(32) == 32;
  }

  lemma ScenarioDoubt(ps: seq<Player>)
    requires ps == [Player("A", 5), Player("B", 5)]
    ensures Step(Session(ps, 0, Kids, Deciding, 44, [4, 4], Roll(4, 1, 41)), PressReveal)
      == Session([Player("A", 5), Player("B", 4)], 1, Kids, RoundEnd, 44, [4, 4], Roll(4, 1, 41))
  {
    assert ClaimRank(44) == 400;
    assert PreviousIndex(Kids, ps, 0) == 1;
  }

  /** Lift the cup, put it down and type a two-digit bid. */
  function Bid(s: Session, a: Face, b: Face): Session
    requires Valid(s)
  {
    Step(Step(Step(Step(Step(s, PeekDown), PeekUp), PressDigit(a)), PressDigit(b)), PressSubmit)
  }

  /** Classic mode: the player rolls and bids 11, rolls again and bids 22,
      rolls again and bids 11, which is refused: the digits are cleared and
      the bid stays 22. */
  lemma ScenarioClaimTooLow()
    ensures StartGame(Classic, []).Started?
    ensures var s0 := StartGame(Classic, []).session;
      var s1 := Bid(Step(s0, PressPrimary(3, 1)), 1, 1);
      var s2 := Bid(Step(s1, PressPrimary(4, 1)), 2, 2);
      var s3 := Bid(Step(s2, PressPrimary(5, 1)), 1, 1);
      && s1.lastClaim == 11 && s1.state == Deciding
      && s2.lastClaim == 22 && s2.state == Deciding
      && s3.lastClaim == 22 && s3.buffer == [] && s3.state == Claiming
  {
    var ps := [ClassicPlayer];
    ScenarioClassicFirstBid(ps);
    ScenarioClassicHigherBid(ps);
    ScenarioClassicLowerBid(ps);
  }

  lemma ScenarioClassicFirstBid(ps: seq<Player>)
    requires ps == [ClassicPlayer]
    ensures Bid(Step(Session(ps, 0, Classic, Start, NoClaim, [], NoRoll), PressPrimary(3, 1)), 1, 1)
      == Session(ps, 0, Classic, Deciding, 11, [1, 1], Roll(3, 1, 31))
  {
    assert AdvanceIndex(Classic, ps, 0) == 0;
  }

  lemma ScenarioClassicHigherBid(ps: seq<Player>)
    requires ps == [ClassicPlayer]
    ensures Bid(Step(Session(ps, 0, Classic, Deciding, 11, [1, 1], Roll(3, 1, 31)), PressPrimary(4, 1)), 2, 2)
      == Session(ps, 0, Classic, Deciding, 22, [2, 2], Roll(4, 1, 41))
  {
    assert AdvanceIndex(Classic, ps, 0) == 0;
    assert ClaimRank(11) == 100;
  }

  lemma ScenarioClassicLowerBid(ps: seq<Player>)
    requires ps == [ClassicPlayer]
    ensures Bid(Step(Session(ps, 0, Classic, Deciding, 22, [2, 2], Roll(4, 1, 41)), PressPrimary(5, 1)), 1, 1)
      == Session(ps, 0, Classic, Claiming, 22, [], Roll(5, 1, 51))
  {
    assert ClaimRank(22) == 200;
  }
}
