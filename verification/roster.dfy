/** The roster: players in seating order, and the two bounded circular walks
    of the game (`advancePlayer` forward, `getPreviousPlayer` backward).

    In kids mode a walk skips every player with no lives left, but gives up
    after one full lap so that it ends even when nobody is alive.  In classic
    mode a walk is a single step.  Players are identified by their seat
    index, which is what the object identity in `script.js` amounts to.
 */
module Roster {

  datatype Mode = Classic | Kids

  datatype Player = Player(name: string, lives: int)

  /** Lives of every kids-mode player at the start and after a full reset. */
  const StartingLives := 5

  /** The single stand-in player of classic mode. */
  const ClassicPlayer := Player("Spieler", 0)

  /** A player still in the game (the walks test `lives <= 0` for the opposite). */
  predicate Alive(p: Player) { p.lives > 0 }

  predicate AnyAlive(ps: seq<Player>)
  {
    exists k :: 0 <= k < |ps| && Alive(ps[k])
  }

  /** The seat k places after seat i, and k places before it, for at most
      one lap (k <= n). */
  function Ahead(i: int, k: int, n: nat): (j: int)
    requires 0 <= i < n && 0 <= k <= n
    ensures 0 <= j < n
  {
    if i + k < n then i + k else i + k - n
  }

  function Behind(i: int, k: int, n: nat): (j: int)
    requires 0 <= i < n && 0 <= k <= n
    ensures 0 <= j < n
  {
    if i - k >= 0 then i - k else i - k + n
  }

  /** One forward step of `advancePlayer`. */
  function NextSeat(i: int, n: nat): (j: int)
    requires 0 <= i < n
    ensures j == Ahead(i, 1, n)
  {
    (i + 1) % n
  }

  /** One backward step of `getPreviousPlayer`: decrement, and wrap to the
      last seat below zero. */
  function PrevSeat(i: int, n: nat): (j: int)
    requires 0 <= i < n
    ensures j == Behind(i, 1, n)
  {
    if i - 1 < 0 then n - 1 else i - 1
  }

  /** The skipping loop of `advancePlayer` after `attempts` extra steps,
      standing on seat i. */
  function SkipForward(ps: seq<Player>, i: int, attempts: nat): (j: int)
    requires 0 <= i < |ps| && attempts <= |ps|
    ensures 0 <= j < |ps|
    decreases |ps| - attempts
  {
    if !Alive(ps[i]) && attempts < |ps| then SkipForward(ps, NextSeat(i, |ps|), attempts + 1)
    else i
  }

  /** The kids-mode loop of `getPreviousPlayer` after `attempts` steps,
      standing on seat i. */
  function SkipBackward(ps: seq<Player>, i: int, attempts: nat): (j: int)
    requires 0 <= i < |ps| && attempts <= |ps|
    ensures 0 <= j < |ps|
    decreases |ps| - attempts
  {
    if !Alive(ps[i]) && attempts < |ps| then SkipBackward(ps, PrevSeat(i, |ps|), attempts + 1)
    else i
  }

  /** The seat `advancePlayer` moves the turn to. */
  function AdvanceIndex(mode: Mode, ps: seq<Player>, cur: int): (j: int)
    requires 0 <= cur < |ps|
    ensures 0 <= j < |ps|
    ensures mode == Classic ==> j == Ahead(cur, 1, |ps|)
  {
    var next := NextSeat(cur, |ps|);
    if mode == Kids then SkipForward(ps, next, 0) else next
  }

  /** The seat of the player `getPreviousPlayer` returns. */
  function PreviousIndex(mode: Mode, ps: seq<Player>, cur: int): (j: int)
    requires 0 <= cur < |ps|
    ensures 0 <= j < |ps|
    ensures mode == Classic ==> j == (cur - 1 + |ps|) % |ps|
  {
    var prev := PrevSeat(cur, |ps|);
    if mode == Kids then SkipBackward(ps, prev, 1) else prev
  }

  /** Every seat among the first t seats ahead of seat i (i itself first)
      holds a player with no lives left. */
  predicate DeadAhead(ps: seq<Player>, i: int, t: nat)
    requires 0 <= i < |ps| && t <= |ps|
  {
    forall k :: 0 <= k < t ==> !Alive(ps[Ahead(i, k, |ps|)])
  }

  /** The same, walking backward from seat i. */
  predicate DeadBehind(ps: seq<Player>, i: int, t: nat)
    requires 0 <= i < |ps| && t <= |ps|
  {
    forall k :: 0 <= k < t ==> !Alive(ps[Behind(i, k, |ps|)])
  }

  lemma AheadStep(i: int, k: nat, n: nat)
    requires 0 <= i < n && k < n
    ensures Ahead(NextSeat(i, n), k, n) == Ahead(i, k + 1, n)
  {
  }

  lemma BehindStep(i: int, k: nat, n: nat)
    requires 0 <= i < n && k < n
    ensures Behind(PrevSeat(i, n), k, n) == Behind(i, k + 1, n)
  {
  }

  /** The forward walk stops on the first living player at or after seat i,
      passing only dead players, and takes at most |ps| - attempts extra
      steps; it stops on a dead player only when it has used them all. */
  lemma {:induction false} SkipForwardFirstAlive(ps: seq<Player>, i: int, attempts: nat)
    requires 0 <= i < |ps| && attempts <= |ps|
    ensures exists t: nat :: (t <= |ps| - attempts
      && SkipForward(ps, i, attempts) == Ahead(i, t, |ps|)
      && DeadAhead(ps, i, t)
      && (Alive(ps[SkipForward(ps, i, attempts)]) || t == |ps| - attempts))
    decreases |ps| - attempts
  {
    var n := |ps|;
    var j := SkipForward(ps, i, attempts);
    if !Alive(ps[i]) && attempts < n {
      var i' := NextSeat(i, n);
      SkipForwardFirstAlive(ps, i', attempts + 1);
      var t': nat :| t' <= n - (attempts + 1) && j == Ahead(i', t', n) && DeadAhead(ps, i', t')
        && (Alive(ps[j]) || t' == n - (attempts + 1));
      AheadStep(i, t', n);
      forall k | 0 <= k < t' + 1
        ensures !Alive(ps[Ahead(i, k, n)])
      {
        if k > 0 {
          AheadStep(i, k - 1, n);
        }
      }
      assert DeadAhead(ps, i, t' + 1);
    } else {
      assert Ahead(i, 0, n) == i;
      assert DeadAhead(ps, i, 0);
    }
  }

  /** The backward walk, the mirror image of `SkipForwardFirstAlive`. */
  lemma {:induction false} SkipBackwardFirstAlive(ps: seq<Player>, i: int, attempts: nat)
    requires 0 <= i < |ps| && attempts <= |ps|
    ensures exists t: nat :: (t <= |ps| - attempts
      && SkipBackward(ps, i, attempts) == Behind(i, t, |ps|)
      && DeadBehind(ps, i, t)
      && (Alive(ps[SkipBackward(ps, i, attempts)]) || t == |ps| - attempts))
    decreases |ps| - attempts
  {
    var n := |ps|;
    var j := SkipBackward(ps, i, attempts);
    if !Alive(ps[i]) && attempts < n {
      var i' := PrevSeat(i, n);
      SkipBackwardFirstAlive(ps, i', attempts + 1);
      var t': nat :| t' <= n - (attempts + 1) && j == Behind(i', t', n) && DeadBehind(ps, i', t')
        && (Alive(ps[j]) || t' == n - (attempts + 1));
      BehindStep(i, t', n);
      forall k | 0 <= k < t' + 1
        ensures !Alive(ps[Behind(i, k, n)])
      {
        if k > 0 {
          BehindStep(i, k - 1, n);
        }
      }
      assert DeadBehind(ps, i, t' + 1);
    } else {
      assert Behind(i, 0, n) == i;
      assert DeadBehind(ps, i, 0);
    }
  }

  /** Every seat lies less than one lap ahead of, and behind, any seat. */
  lemma Reaches(i: int, m: int, n: nat)
    requires 0 <= i < n && 0 <= m < n
    ensures var k := if m >= i then m - i else m - i + n; 0 <= k < n && Ahead(i, k, n) == m
    ensures var k := if i >= m then i - m else i - m + n; 0 <= k < n && Behind(i, k, n) == m
  {
  }

  /** In kids mode the turn passes to the first living player after the
      current seat, skipping only players with no lives left.  When nobody
      is alive the loop gives up after a full lap, on the next seat. */
  lemma AdvanceFindsAlive(ps: seq<Player>, cur: int)
    requires 0 <= cur < |ps|
    ensures AnyAlive(ps) ==> Alive(ps[AdvanceIndex(Kids, ps, cur)])
    ensures exists t: nat :: (1 <= t <= |ps|
      && AdvanceIndex(Kids, ps, cur) == Ahead(cur, t, |ps|)
      && forall k :: 1 <= k < t ==> !Alive(ps[Ahead(cur, k, |ps|)]))
    ensures !AnyAlive(ps) ==> AdvanceIndex(Kids, ps, cur) == NextSeat(cur, |ps|)
  {
    var n := |ps|;
    var start := NextSeat(cur, n);
    var j := AdvanceIndex(Kids, ps, cur);
    SkipForwardFirstAlive(ps, start, 0);
    var t: nat :| t <= n && j == Ahead(start, t, n) && DeadAhead(ps, start, t) && (Alive(ps[j]) || t == n);
    if Alive(ps[j]) {
      AdvanceAliveCase(ps, cur, t);
    } else {
      forall m | 0 <= m < n
        ensures !Alive(ps[m])
      {
        Reaches(start, m, n);
      }
      assert j == Ahead(cur, 1, n);
    }
  }

  /** The forward walk from the seat after `cur` stopped on a living player
      after t extra steps: that is t + 1 seats after `cur`. */
  lemma AdvanceAliveCase(ps: seq<Player>, cur: int, t: nat)
    requires 0 <= cur < |ps| && t <= |ps|
    requires var start := NextSeat(cur, |ps|);
      DeadAhead(ps, start, t) && Alive(ps[Ahead(start, t, |ps|)])
    ensures t < |ps|
    ensures Ahead(NextSeat(cur, |ps|), t, |ps|) == Ahead(cur, t + 1, |ps|)
    ensures forall k :: 1 <= k < t + 1 ==> !Alive(ps[Ahead(cur, k, |ps|)])
  {
    var n := |ps|;
    var start := NextSeat(cur, n);
    assert t > 0 ==> !Alive(ps[Ahead(start, 0, n)]);
    assert t < n;
    AheadStep(cur, t, n);
    forall k | 1 <= k < t + 1
      ensures !Alive(ps[Ahead(cur, k, n)])
    {
      AheadStep(cur, k - 1, n);
    }
  }

  /** In kids mode `getPreviousPlayer` finds the nearest living player
      before the current seat, passing only players with no lives left (the
      current player is reached last, after a full lap).  When nobody is
      alive it ends on the current seat. */
  lemma PreviousFindsAlive(ps: seq<Player>, cur: int)
    requires 0 <= cur < |ps|
    ensures AnyAlive(ps) ==> Alive(ps[PreviousIndex(Kids, ps, cur)])
    ensures exists t: nat :: (1 <= t <= |ps|
      && PreviousIndex(Kids, ps, cur) == Behind(cur, t, |ps|)
      && forall k :: 1 <= k < t ==> !Alive(ps[Behind(cur, k, |ps|)]))
    ensures !AnyAlive(ps) ==> PreviousIndex(Kids, ps, cur) == cur
  {
    var n := |ps|;
    var start := PrevSeat(cur, n);
    var j := PreviousIndex(Kids, ps, cur);
    SkipBackwardFirstAlive(ps, start, 1);
    var t: nat :| t <= n - 1 && j == Behind(start, t, n) && DeadBehind(ps, start, t) && (Alive(ps[j]) || t == n - 1);
    BehindStep(cur, t, n);
    forall k | 1 <= k < t + 1
      ensures !Alive(ps[Behind(cur, k, n)])
    {
      BehindStep(cur, k - 1, n);
    }
    assert j == Behind(cur, t + 1, n);
    if !Alive(ps[j]) {
      assert t + 1 == n;
      forall m | 0 <= m < n
        ensures !Alive(ps[m])
      {
        Reaches(cur, m, n);
      }
    }
  }

  /** Number of players still in the game (`activePlayers` of the Mäxchen
      rule). */
  function CountAlive(ps: seq<Player>): (c: nat)
    ensures c <= |ps|
  {
    if ps == [] then 0 else (if Alive(ps[0]) then 1 else 0) + CountAlive(ps[1..])
  }

  /** Nobody is counted exactly when nobody is alive. */
  lemma {:induction false} CountAliveZero(ps: seq<Player>)
    ensures CountAlive(ps) == 0 <==> !AnyAlive(ps)
  {
    if ps != [] {
      CountAliveZero(ps[1..]);
      if AnyAlive(ps[1..]) {
        var k :| 0 <= k < |ps| - 1 && Alive(ps[1..][k]);
        assert Alive(ps[k + 1]);
      }
      if AnyAlive(ps) && !Alive(ps[0]) {
        var k :| 0 <= k < |ps| && Alive(ps[k]);
        assert Alive(ps[1..][k - 1]);
      }
    }
  }

  /** Sum of all lives on the roster. */
  function TotalLives(ps: seq<Player>): int
  {
    if ps == [] then 0 else ps[0].lives + TotalLives(ps[1..])
  }

  /** `loser.lives--`: the player on seat k loses one life, nobody else
      changes. */
  function LoseLife(ps: seq<Player>, k: int): (r: seq<Player>)
    requires 0 <= k < |ps|
    ensures |r| == |ps|
    ensures r[k].name == ps[k].name && r[k].lives == ps[k].lives - 1
    ensures forall m :: 0 <= m < |ps| && m != k ==> r[m] == ps[m]
  {
    ps[k := ps[k].(lives := ps[k].lives - 1)]
  }

  /** One loss takes exactly one life off the roster. */
  lemma {:induction false} LoseLifeTotal(ps: seq<Player>, k: int)
    requires 0 <= k < |ps|
    ensures TotalLives(LoseLife(ps, k)) == TotalLives(ps) - 1
  {
    if k == 0 {
      assert LoseLife(ps, 0)[1..] == ps[1..];
    } else {
      assert LoseLife(ps, k)[1..] == LoseLife(ps[1..], k - 1);
      LoseLifeTotal(ps[1..], k - 1);
    }
  }

  /** The kids-mode Mäxchen penalty: every player other than the one on seat
      `cur` who still has lives loses one. */
  function PenalizeOthers(ps: seq<Player>, cur: int): (r: seq<Player>)
    ensures |r| == |ps|
    ensures forall k :: 0 <= k < |ps| ==> r[k].name == ps[k].name
    ensures forall k :: 0 <= k < |ps| && k != cur && Alive(ps[k]) ==> r[k].lives == ps[k].lives - 1
    ensures forall k :: 0 <= k < |ps| && (k == cur || !Alive(ps[k])) ==> r[k] == ps[k]
  {
    seq(|ps|, k requires 0 <= k < |ps| =>
      if k != cur && Alive(ps[k]) then ps[k].(lives := ps[k].lives - 1) else ps[k])
  }

  /** The Mäxchen penalty takes one life from each living player except the
      one on seat `cur`. */
  lemma {:induction false} PenalizeOthersTotal(ps: seq<Player>, cur: int)
    ensures TotalLives(PenalizeOthers(ps, cur))
      == TotalLives(ps) - CountAlive(ps) + (if 0 <= cur < |ps| && Alive(ps[cur]) then 1 else 0)
  {
    if ps != [] {
      assert PenalizeOthers(ps, cur)[1..] == PenalizeOthers(ps[1..], cur - 1);
      PenalizeOthersTotal(ps[1..], cur - 1);
      if 0 < cur < |ps| {
        assert ps[1..][cur - 1] == ps[cur];
      }
    }
  }

  /** The kids-mode roster built from the (already trimmed) names typed on
      the setup screen: one player with full lives per non-empty name, in
      the order typed. */
  function KidsRoster(names: seq<string>): (ps: seq<Player>)
    ensures |ps| <= |names|
    ensures forall k :: 0 <= k < |ps| ==> ps[k].lives == StartingLives && ps[k].name != "" && ps[k].name in names
    ensures ps == [] <==> forall k :: 0 <= k < |names| ==> names[k] == ""
  {
    if names == [] then []
    else (if names[0] != "" then [Player(names[0], StartingLives)] else []) + KidsRoster(names[1..])
  }

  /** Every non-empty name typed becomes a player. */
  lemma {:induction false} KidsRosterKeepsNames(names: seq<string>, k: int)
    requires 0 <= k < |names| && names[k] != ""
    ensures exists j :: 0 <= j < |KidsRoster(names)| && KidsRoster(names)[j].name == names[k]
  {
    var first := if names[0] != "" then [Player(names[0], StartingLives)] else [];
    var rest := KidsRoster(names[1..]);
    assert KidsRoster(names) == first + rest;
    if k == 0 {
      assert KidsRoster(names)[0].name == names[0];
    } else {
      KidsRosterKeepsNames(names[1..], k - 1);
      var j :| 0 <= j < |rest| && rest[j].name == names[1..][k - 1];
      assert KidsRoster(names)[|first| + j].name == names[k];
    }
  }

  /** A single typed name: a player with five lives unless it is empty. */
  lemma KidsRosterSingle(n: string)
    ensures KidsRoster([n]) == if n == "" then [] else [Player(n, StartingLives)]
  {
    assert [n][1..] == [];
  }

  /** The roster keeps the typed order: the names of two groups of inputs
      give the two rosters one after the other. */
  lemma {:induction false} KidsRosterAppend(a: seq<string>, b: seq<string>)
    ensures KidsRoster(a + b) == KidsRoster(a) + KidsRoster(b)
  {
    if a == [] {
      assert a + b == b;
    } else {
      assert (a + b)[0] == a[0];
      assert (a + b)[1..] == a[1..] + b;
      KidsRosterAppend(a[1..], b);
    }
  }
}
