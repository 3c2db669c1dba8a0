# Mäxchen rules engine in Dafny

A model of the rules of the dice bluffing game Mäxchen (Meiern) as played by
the `Game` class of `script.js`, with the page and its widgets stripped away.
Two dice are rolled under a cup; the roller looks, bids a value that must beat
the standing bid, and the next player either believes the bid and rolls on,
or doubts it and reveals.  Mäxchen (2 and 1) beats everything, doubles
("Pasch") beat plain throws.  Classic mode has one stand-in player and no
lives; kids mode seats named players with five lives each.

The whole game is one immutable `Session` record (players as name and lives,
the seat whose turn it is, the mode, the turn state, the standing bid, the
typed digits and the current roll).  Every handler is a pure function from one
session to the next:

- `scoring.dfy`, module `Scoring`: `calculateValue` and the game's ranking
  written without the numeric encoding, with the proof that the two agree.
- `claims.dfy`, module `Claims`: how a bid is stored as `10 * high + low`,
  read back with `/ 10` and `% 10`, and ranked; `formatClaim` and
  `getDisplayValue` as abstract labels.
- `roster.dfy`, module `Roster`: the circular walks of `advancePlayer` and
  `getPreviousPlayer` as recursive functions bounded by their `attempts`
  counter, the life counts of the Mäxchen rule, and the kids roster built by
  `startGame`.
- `game.dfy`, module `Game`: the turn state machine (START, ROLLED, PEEKING,
  CLAIMING, DECIDING, ROUND_END, GAME_OVER) and one function per handler,
  plus `Step`, which applies any event the page can send.
- `properties.dfy`, module `GameProperties`: the rules of a reveal, the
  primary button, rising bids, the health invariant of the game, and two
  complete example games.

A roll is one atomic event whose dice are parameters.  Numpad digits are dice
faces (1..6) by type, which is the precondition the numpad buttons meet.

The model follows `script.js` as written, including these behaviours:

- `submitClaim` and `reveal` have no turn-state guard.  A reveal in any state
  other than DECIDING (START, CLAIMING, ROUND_END and GAME_OVER included) takes
  the premature branch unless the dice show Mäxchen.
- A bid's digits are not range-checked; only the numpad limits them to 1..6.
- In kids mode a challenge or a premature reveal ends the game as soon as the
  loser reaches 0 lives.  The Mäxchen branch ends it only when nobody has
  lives left, so it can eliminate other players and still end the round
  normally.
- The roll held before the first throw is faces 1 and 1 with value 0, not the
  score of double 1.  The value is stored with the dice.
- When everybody has 0 lives, `advancePlayer` gives up on the seat after the
  current one and `getPreviousPlayer` on the current seat.
- The typed digits are cleared when the claim phase opens and when a bid is
  refused, not after an accepted bid and not at a new round.
- The classic stand-in player has 0 lives and gets 5 on a full reset.
- Lives can go below 0: a reveal after the game is over charges the current
  player again (`GameProperties.RevealAfterGameOver`).  The page hides the
  reveal button there, so the health invariant is proved for every event
  except reveal and submit after the game is over.

## Model

| member | source | states |
|---|---|---|
| `Scoring.Score` | script.js:211-217 | Mäxchen alone scores 1000, exactly the doubles score 100..600, exactly the plain throws score 31..65, and a plain score reads as high face then low face |
| `Scoring.ScoreBands` | script.js:211-217 | Mäxchen beats every other throw and every double beats every plain throw |
| `Scoring.ScoreSymmetric` | script.js:211-213 | the score does not depend on which die is which |
| `Scoring.ScoreOrdersLikeRank` | script.js:211-217 | one score beats another exactly when the game's ranking (tier, then high face, then low face) puts the first throw above the second |
| `Scoring.ScoreDistinguishesThrows` | script.js:211-217 | two throws score the same exactly when they are the same unordered pair, so the 21 pairs get 21 distinct scores |
| `Scoring.OutranksIsStrictTotalOrder` | script.js:211-217 | the ranking the scores follow is irreflexive, transitive and total on distinct throws |
| `Claims.EncodeClaim` | script.js:331-335 | the stored bid is a well-formed bid whose tens digit is the higher face and whose units digit is the lower face |
| `Claims.DecodeClaim` | script.js:339-340 | reading a stored bid with `/ 10` and `% 10` yields high face, then low face, and re-encoding gives the same stored bid |
| `Claims.ClaimRank` | script.js:438-443 | the rank of the standing bid is 0 exactly when there is none, otherwise between 31 and 1000 |
| `Claims.DecodeEncode` | script.js:333-341 | storing two entered digits and reading them back gives the two digits sorted high first |
| `Claims.EncodeDecode` | script.js:339-341 | every stored bid is the encoding of its own digits, in either order |
| `Claims.ClaimRankOfEncode` | script.js:335-341 | re-scoring a stored bid gives the score it was accepted with |
| `Claims.ClaimRankInjective` | script.js:336-343 | two stored bids rank the same exactly when they are the same bid |
| `Claims.FormatClaim` | script.js:225-229 | a bid is labelled Mäxchen exactly when it is 21, as a double exactly when it is another multiple of 11, and every label other than Mäxchen shows the bid itself |
| `Claims.DisplayValue` | script.js:219-223 | a score is labelled Mäxchen exactly when it is 1000, as a double exactly when it lies in the hundreds, the double showing its face twice, and otherwise as the score itself |
| `Claims.FormatClaimClassifies` | script.js:225-229 | the `% 11` test of `formatClaim` marks exactly the doubles, 21 exactly Mäxchen, and otherwise the bid itself is shown |
| `Claims.LabelsAgree` | script.js:219-229 | showing a stored bid and showing its score give the same label |
| `Roster.SkipForward` | script.js:374-381 | the skipping loop of `advancePlayer` ends on a seat of the roster |
| `Roster.SkipBackward` | script.js:171-177 | the kids-mode loop of `getPreviousPlayer` ends on a seat of the roster |
| `Roster.AdvanceIndex` | script.js:372-386 | `advancePlayer` lands on a seat of the roster, in classic mode the next seat `(i + 1) % n` |
| `Roster.PreviousIndex` | script.js:166-180 | `getPreviousPlayer` returns a seat of the roster, in classic mode `(i - 1 + n) % n` |
| `Roster.SkipForwardFirstAlive` | script.js:374-381 | the forward loop passes only players with no lives, stops on the first living one, and uses at most the remaining attempts |
| `Roster.SkipBackwardFirstAlive` | script.js:171-177 | the backward loop passes only players with no lives, stops on the first living one, and uses at most the remaining attempts |
| `Roster.AdvanceFindsAlive` | script.js:372-383 | in kids mode the turn goes to the first living player after the current seat, at most one lap away; a living player whenever one exists; the next seat when nobody is alive |
| `Roster.PreviousFindsAlive` | script.js:166-180 | in kids mode the previous player is the nearest living player before the current seat, at most one lap back; a living player whenever one exists; the current seat when nobody is alive |
| `Roster.CountAlive` | script.js:406-414 | the count of active players never exceeds the roster size |
| `Roster.CountAliveZero` | script.js:413-418 | the count of active players is 0 exactly when nobody has lives left |
| `Roster.LoseLife` | script.js:457-458 | the loser loses one life and nobody else changes |
| `Roster.LoseLifeTotal` | script.js:457-458 | one loss takes exactly one life off the roster |
| `Roster.PenalizeOthers` | script.js:408-412 | every other player with lives loses one, the current player and players without lives are untouched |
| `Roster.PenalizeOthersTotal` | script.js:408-414 | the Mäxchen penalty takes exactly one life from each living player other than the current one |
| `Roster.KidsRoster` | script.js:130-146 | every kids player has five lives and a non-empty name that was typed, and the roster is empty exactly when every typed name is empty |
| `Roster.KidsRosterKeepsNames` | script.js:133-141 | every non-empty typed name becomes a player |
| `Roster.KidsRosterSingle` | script.js:133-141 | one typed name gives one player with five lives, or nobody when the name is empty |
| `Roster.KidsRosterAppend` | script.js:133-141 | the roster of two groups of inputs is the first group's roster followed by the second's, so players sit in the order typed |
| `Game.CurrentPlayer` | script.js:162-164 | the current player is a member of the roster |
| `Game.StartGame` | script.js:129-160 | kids mode with no non-empty name refuses to start; otherwise the game starts in START at seat 0 with no bid, the classic roster being the single stand-in and the kids roster being the one built from the typed names, every player with five lives |
| `Game.RollDice` | script.js:244-251 | after a roll the state is ROLLED and the roll holds the two dice with their score, which is 1000 exactly for Mäxchen; nothing else changes |
| `Game.Peek` | script.js:289-309 | pressing acts only in ROLLED, goes to PEEKING and keeps the typed digits; releasing acts only in PEEKING and goes to CLAIMING with no typed digits; every other call changes nothing |
| `Game.HandleNumpad` | script.js:317-322 | a digit is appended while fewer than two are typed, so the typed digits never exceed two; nothing else changes |
| `Game.SubmitClaim` | script.js:324-356 | without exactly two digits nothing changes; a bid is accepted exactly when it outranks the standing one; a refused bid keeps bid, turn and state and clears the digits; an accepted bid is stored high digit first with the score it was entered with, the turn advances once, and the state becomes DECIDING |
| `Game.ChallengeLoser` | script.js:436-453 | the loser of a doubted bid is a seat of the roster, and in kids mode a living player while the current player is alive |
| `Game.LoseRound` | script.js:454-484 | classic mode only ends the round; in kids mode the loser loses one life, the game is over exactly when that leaves 0, and otherwise the loser takes the turn |
| `Game.RevealMaexchen` | script.js:394-426 | classic mode only ends the round; kids mode applies the penalty to the others and is over exactly when nobody has lives left |
| `Game.Reveal` | script.js:388-514 | a reveal always ends the round or the game, changes each player's lives by at most one downward, keeps names, mode, bid, digits and dice, and in classic mode changes nothing but the state |
| `Game.NextRound` | script.js:516-531 | a new round is in START with no standing bid, so any two-digit first bid is accepted; nothing else changes |
| `Game.ResetFullGame` | script.js:533-538 | a full reset gives everybody five lives, seat 0 the turn, no standing bid and state START |
| `Game.PrimaryAction` | script.js:86-98 | the primary button rolls in every state except ROUND_END and GAME_OVER, where it starts over in START |
| `Game.Step` | script.js:86-113 | every event keeps the session well-formed: the turn stays on a seat of the roster, the standing bid stays a stored bid, at most two digits are typed |
| `GameProperties.MaexchenRule` | script.js:394-425 | a Mäxchen reveal in any state: classic only ends the round; kids takes one life from each other living player and none from anybody else, never below 0, and ends the game exactly when nobody is alive, so never while the current player is alive |
| `GameProperties.ChallengeRule` | script.js:436-484 | in DECIDING without Mäxchen the loser is the current player when the dice are at least the bid and the previous living player otherwise; in kids mode exactly that player loses exactly one life, the game is over exactly when it was the last, and otherwise the loser takes the turn; classic only ends the round |
| `GameProperties.PrematureRule` | script.js:485-507 | a reveal outside DECIDING without Mäxchen costs the current player exactly one life in kids mode, ending the game exactly when it was the last; classic only ends the round |
| `GameProperties.PrimaryActionRule` | script.js:86-98 | after GAME_OVER the primary button restores every player to five lives, seat 0, no bid, START; after ROUND_END it clears the bid and keeps turn and lives; otherwise it rolls and keeps turn, lives and bid |
| `GameProperties.ClaimsOnlyRise` | script.js:338-351 | no event lowers the standing bid: it stays, is replaced by a strictly higher one, or is cleared when a new round or game starts |
| `GameProperties.StartGameIsHealthy` | script.js:129-160 | a new game has no negative lives and, in kids mode, the turn with a living player |
| `GameProperties.StepKeepsHealthy` | script.js:86-113 | every event except reveal and submit after the game is over keeps lives non-negative and, in kids mode, the turn with a living player until the game is over |
| `GameProperties.RevealAfterGameOver` | script.js:485-505 | a reveal after the game is over takes the eliminated current player to -1 lives and back to ROUND_END |
| `GameProperties.ScenarioDoubtedLie` | script.js:436-476 | A bids 32, B rolls 41 and bids 44, A doubts: B lied, goes from five lives to four and starts the next round |
| `GameProperties.ScenarioClaimTooLow` | script.js:324-351 | in classic mode, through rolls, peeks and typed digits, 11 then 22 are accepted and 11 after 22 is refused with the digits cleared and the player still bidding |

## Left out

- Everything on the page: element lookups, class toggling, text and HTML
  writes, `updateScoreboard`, `updateTurnIndicator`, `updateUI`,
  `renderDice`, `resetRound`, `toggleHelp`, `getDieSVG`, and the setup-screen
  listeners of `init` (the mode is a parameter of `StartGame`).
- `Math.random` and the 600 ms `setTimeout` of `roll`: the dice are
  parameters and the roll is one step, so the "shaking" moment before the
  timer fires (state unchanged, a second press starts another timer) is not
  modelled.
- `navigator.vibrate`, `alert` and `console.log`: foreign browser calls.
- The German message texts of `reveal` and `submitClaim`; the outcome is
  read from the new session instead.
- `Claims.DisplayValue`: the label drops the trailing "!" of "Mäxchen (21)!", and its precondition leaves out scores above 1000 (1100 would show "1111 (Pasch)") and scores of at least 100 that are not whole hundreds, for which `getDisplayValue` would print a decimal fraction; no roll produces either.
- `Claims.FormatClaim`: the label abstracts the string; a plain bid is returned as the number itself, as `formatClaim` does.
- A negative life count makes `updateScoreboard` throw (`'❤️'.repeat(p.lives)`
  at script.js:202), which stops the calling handler part-way in `script.js`:
  `submitClaim` stops inside `advancePlayer` before the state becomes
  DECIDING, a doubted bid that does not end the game moves the turn but
  stops before ROUND_END, and the kids Mäxchen rule changes lives but stops
  before setting the state.  The model completes these handlers.  A negative
  count arises only from a reveal after the game is over
  (`GameProperties.RevealAfterGameOver`).
- `startGame`'s `trim()` and the unused `active: true` field: names arrive
  already trimmed.
- The typed digits are dice faces rather than the characters of a string;
  `parseInt` of one numpad character is that face.
- JavaScript numbers are doubles; every value here is a small integer, so
  no rounding or overflow arises.
