/** The turn state machine of the game, as pure transitions on one session
    record.

    Each handler of the `Game` class in `script.js` (`peek`, `handleNumpad`,
    `submitClaim`, `reveal`, `nextRound`, `resetFullGame`, and the primary
    button that dispatches between rolling, a new round and a full reset)
    becomes a function from the old session to the new one.  A roll is one atomic
    step whose two dice are given by the caller.
 */
module Game {
  import opened Scoring
  import opened Claims
  import opened Roster

  datatype TurnState = Start | Rolled | Peeking | Claiming | Deciding | RoundEnd | GameOver

  /** The dice under the cup and the score stored with them. */
  datatype Roll = Roll(d1: Face, d2: Face, value: int)

  /** The roll a new game holds before the first throw: faces 1 and 1 with
      value 0 (not the score of a double 1). */
  const NoRoll := Roll(1, 1, 0)

  /** The score of Mäxchen. */
  const MaexchenScore := 1000

  datatype Session = Session(
    players: seq<Player>,
    current: int,
    mode: Mode,
    state: TurnState,
    lastClaim: int,
    buffer: seq<Face>,
    roll: Roll)

  /** What every reachable session satisfies: the turn points into the
      roster, `lastClaim` is empty or a stored bid, at most two digits are
      typed, and the roll's value is its score (or the initial roll). */
  predicate Valid(s: Session)
  {
    && 0 <= s.current < |s.players|
    && IsStoredClaim(s.lastClaim)
    && |s.buffer| <= 2
    && (s.roll == NoRoll || s.roll.value == Score(s.roll.d1, s.roll.d2))
  }

  /** `getCurrentPlayer`. */
  function CurrentPlayer(s: Session): (p: Player)
    requires Valid(s)
    ensures p in s.players
  {
    s.players[s.current]
  }

  datatype Setup = Started(session: Session) | NoPlayers

  /** `startGame`: kids mode seats one player with five lives per non-empty
      name and refuses to start without any; classic mode seats the single
      stand-in player with no lives. */
  function StartGame(mode: Mode, names: seq<string>): (r: Setup)
    ensures r.NoPlayers? <==> mode == Kids && forall k :: 0 <= k < |names| ==> names[k] == ""
    ensures r.Started? ==> (Valid(r.session) && r.session.state == Start && r.session.mode == mode
      && r.session.current == 0 && r.session.lastClaim == NoClaim && r.session.buffer == [])
    ensures r.Started? && mode == Classic ==> r.session.players == [ClassicPlayer]
    ensures r.Started? && mode == Kids ==> r.session.players == KidsRoster(names)
    ensures r.Started? && mode == Kids ==>
      forall k :: 0 <= k < |r.session.players| ==> r.session.players[k].lives == StartingLives
  {
    var players := if mode == Kids then KidsRoster(names) else [ClassicPlayer];
    if players == [] then NoPlayers
    else Started(Session(players, 0, mode, Start, NoClaim, [], NoRoll))
  }

  /** The end of `roll`'s delayed step: the dice are down and scored. */
  function RollDice(s: Session, d1: Face, d2: Face): (r: Session)
    ensures r.state == Rolled && r.roll == Roll(d1, d2, Score(d1, d2))
    ensures r.roll.value == MaexchenScore <==> IsMaexchen(d1, d2)
    ensures r == s.(roll := r.roll, state := Rolled)
    ensures Valid(s) ==> Valid(r)
  {
    s.(roll := Roll(d1, d2, Score(d1, d2)), state := Rolled)
  }

  /** `peek(pressed)`: pressing lifts the cup only after a roll, releasing
      puts it down only while peeking and opens an empty bid.  Everything
      else is ignored. */
  function Peek(s: Session, pressed: bool): (r: Session)
    ensures r.state != s.state <==> (pressed && s.state == Rolled) || (!pressed && s.state == Peeking)
    ensures r.state != s.state ==> (pressed && r.state == Peeking) || (!pressed && r.state == Claiming && r.buffer == [])
    ensures r.state == s.state ==> r == s
    ensures pressed ==> r.buffer == s.buffer
    ensures r == s.(state := r.state, buffer := r.buffer)
    ensures Valid(s) ==> Valid(r)
  {
    if pressed then
      if s.state != Rolled then s else s.(state := Peeking)
    else
      if s.state != Peeking then s else s.(state := Claiming, buffer := [])
  }

  /** `handleNumpad`: a digit is appended while fewer than two are typed. */
  function HandleNumpad(s: Session, digit: Face): (r: Session)
    ensures |s.buffer| >= 2 ==> r.buffer == s.buffer
    ensures |s.buffer| < 2 ==> r.buffer == s.buffer + [digit]
    ensures s.buffer <= r.buffer
    ensures r == s.(buffer := r.buffer)
    ensures Valid(s) ==> Valid(r)
  {
    if |s.buffer| < 2 then s.(buffer := s.buffer + [digit]) else s
  }

  /** `submitClaim`.  Without exactly two typed digits nothing happens.  A
      bid that does not beat the standing one is refused and the digits are
      cleared.  Otherwise the bid is stored high digit first, the turn
      passes on, and the next player must decide.  There is no guard on the
      turn state. */
  function SubmitClaim(s: Session): (r: Session)
    requires Valid(s)
    ensures Valid(r)
    ensures r.players == s.players && r.mode == s.mode && r.roll == s.roll
    ensures |s.buffer| != 2 ==> r == s
    ensures |s.buffer| == 2 ==>
      (r.lastClaim != s.lastClaim <==> Score(s.buffer[0], s.buffer[1]) > ClaimRank(s.lastClaim))
    ensures r.lastClaim == s.lastClaim ==> r.current == s.current && r.state == s.state
    ensures r.lastClaim == s.lastClaim && |s.buffer| == 2 ==> r.buffer == []
    ensures r.lastClaim != s.lastClaim ==>
      && |s.buffer| == 2
      && ClaimRank(r.lastClaim) > ClaimRank(s.lastClaim)
      && ClaimRank(r.lastClaim) == Score(s.buffer[0], s.buffer[1])
      && DecodeClaim(r.lastClaim) == (Max(s.buffer[0], s.buffer[1]), Min(s.buffer[0], s.buffer[1]))
      && r.current == AdvanceIndex(s.mode, s.players, s.current)
      && r.state == Deciding
      && r.buffer == s.buffer
  {
    if |s.buffer| == 0 then s
    else if |s.buffer| != 2 then s
    else
      var hi, lo := Max(s.buffer[0], s.buffer[1]), Min(s.buffer[0], s.buffer[1]);
      var claim := EncodeClaim(hi, lo);
      var claimScore := Score(hi, lo);
      if s.lastClaim != NoClaim && claimScore <= Score(s.lastClaim / 10, s.lastClaim % 10) then
        s.(buffer := [])
      else
        s.(lastClaim := claim, current := AdvanceIndex(s.mode, s.players, s.current), state := Deciding)
  }

  /** Who loses a doubted bid: the doubter (the current player) when the
      dice are at least as good as the bid, otherwise the bidder, found by
      `getPreviousPlayer`.  In kids mode, as long as the current player is
      alive, the loser is a living player. */
  function ChallengeLoser(s: Session): (loser: int)
    requires Valid(s)
    ensures 0 <= loser < |s.players|
    ensures s.mode == Kids && Alive(CurrentPlayer(s)) ==> Alive(s.players[loser])
  {
    PreviousFindsAlive(s.players, s.current);
    if s.roll.value >= ClaimRank(s.lastClaim) then s.current
    else PreviousIndex(s.mode, s.players, s.current)
  }

  /** A lost round.  Classic mode keeps no lives.  In kids mode the loser
      loses one life; the game is over when that was the loser's last one,
      otherwise the loser starts the next round. */
  function LoseRound(s: Session, loser: int): (r: Session)
    requires Valid(s) && 0 <= loser < |s.players|
    ensures Valid(r)
    ensures r.state == GameOver || r.state == RoundEnd
    ensures s.mode == Classic ==> r == s.(state := RoundEnd)
    ensures s.mode == Kids ==> r.players == LoseLife(s.players, loser)
    ensures s.mode == Kids ==> (r.state == GameOver <==> r.players[loser].lives == 0)
    ensures r.state == RoundEnd && s.mode == Kids ==> r.current == loser
    ensures r.state == RoundEnd && Alive(s.players[loser]) ==> Alive(r.players[loser])
    ensures r.state == GameOver ==> r.current == s.current
  {
    if s.mode == Classic then s.(state := RoundEnd)
    else
      var players := LoseLife(s.players, loser);
      if players[loser].lives == 0 then s.(players := players, state := GameOver)
      else s.(players := players, current := loser, state := RoundEnd)
  }

  /** The Mäxchen rule of `reveal`.  Classic mode only ends the round.  In
      kids mode every other player who still has lives loses one, and the
      game is over only when nobody has lives left. */
  function RevealMaexchen(s: Session): (r: Session)
    requires Valid(s)
    ensures Valid(r)
    ensures r.state == GameOver || r.state == RoundEnd
    ensures s.mode == Classic ==> r == s.(state := RoundEnd)
    ensures s.mode == Kids ==> r.players == PenalizeOthers(s.players, s.current)
    ensures s.mode == Kids ==> (r.state == GameOver <==> !AnyAlive(r.players))
    ensures r == s.(players := r.players, state := r.state)
  {
    if s.mode == Classic then s.(state := RoundEnd)
    else
      var players := PenalizeOthers(s.players, s.current);
      CountAliveZero(players);
      s.(players := players, state := if CountAlive(players) < 1 then GameOver else RoundEnd)
  }

  /** `reveal`: a Mäxchen under the cup wins in every turn state; otherwise a
      reveal while deciding settles the doubted bid, and a reveal in any
      other state is premature and costs the current player the round.
      There is no guard on the turn state. */
  function Reveal(s: Session): (r: Session)
    requires Valid(s)
    ensures Valid(r)
    ensures r.state == RoundEnd || r.state == GameOver
    ensures |r.players| == |s.players|
    ensures forall k :: 0 <= k < |s.players| ==>
      r.players[k].name == s.players[k].name
      && s.players[k].lives - 1 <= r.players[k].lives <= s.players[k].lives
    ensures r.mode == s.mode && r.lastClaim == s.lastClaim && r.buffer == s.buffer && r.roll == s.roll
    ensures s.mode == Classic ==> r == s.(state := RoundEnd)
  {
    if s.roll.value == MaexchenScore then RevealMaexchen(s)
    else if s.state == Deciding then LoseRound(s, ChallengeLoser(s))
    else LoseRound(s, s.current)
  }

  /** `nextRound`: the standing bid is cleared and the same player starts.
      The dice and the typed digits stay as they were. */
  function NextRound(s: Session): (r: Session)
    ensures r.state == Start && r.lastClaim == NoClaim
    ensures r == s.(lastClaim := NoClaim, state := r.state)
    ensures Valid(s) ==> Valid(r)
    ensures Valid(s) && |s.buffer| == 2 ==> SubmitClaim(r).state == Deciding
  {
    s.(lastClaim := NoClaim, state := Start)
  }

  /** Every player back to full lives. */
  function RestoreLives(ps: seq<Player>): (r: seq<Player>)
    ensures |r| == |ps|
    ensures forall k :: 0 <= k < |ps| ==> r[k] == Player(ps[k].name, StartingLives)
  {
    seq(|ps|, k requires 0 <= k < |ps| => ps[k].(lives := StartingLives))
  }

  /** `resetFullGame`: full lives for everybody (the classic stand-in too),
      the first seat starts, then a new round. */
  function ResetFullGame(s: Session): (r: Session)
    ensures r.state == Start && r.lastClaim == NoClaim && r.current == 0
    ensures |r.players| == |s.players|
    ensures forall k :: 0 <= k < |s.players| ==>
      r.players[k].lives == StartingLives && r.players[k].name == s.players[k].name
    ensures r.mode == s.mode && r.roll == s.roll && r.buffer == s.buffer
    ensures Valid(s) ==> Valid(r)
  {
    NextRound(s.(players := RestoreLives(s.players), current := 0))
  }

  /** The primary button, dispatched on the turn state: a full reset after
      the game is over, a new round after a round ended, a roll otherwise. */
  function PrimaryAction(s: Session, d1: Face, d2: Face): (r: Session)
    ensures Valid(s) ==> Valid(r)
    ensures r.state == Start || r.state == Rolled
    ensures r.state == Rolled <==> s.state != GameOver && s.state != RoundEnd
  {
    match s.state
    case GameOver => ResetFullGame(s)
    case RoundEnd => NextRound(s)
    case _ => RollDice(s, d1, d2)
  }

  /** Everything the presentation layer can send. */
  datatype Event =
    | PressPrimary(d1: Face, d2: Face)
    | PeekDown
    | PeekUp
    | PressDigit(digit: Face)
    | PressSubmit
    | PressReveal

  /** One event applied to the session. */
  function Step(s: Session, e: Event): (r: Session)
    requires Valid(s)
    ensures Valid(r)
    ensures r.mode == s.mode && |r.players| == |s.players|
  {
    match e
    case PressPrimary(d1, d2) => PrimaryAction(s, d1, d2)
    case PeekDown => Peek(s, true)
    case PeekUp => Peek(s, false)
    case PressDigit(digit) => HandleNumpad(s, digit)
    case PressSubmit => SubmitClaim(s)
    case PressReveal => Reveal(s)
  }
}
