/** Concrete games: the board layout the program sets up and a few short
    games whose outcome follows from the rules. */
module Scenarios {
  import opened Boards
  import opened Games

  /** The ten snakes and nine ladders that the program places on its board
      of size 100, in the order it places them. */
  function MainPlacements(): seq<Placement> {
    [ SnakePlacement(16, 6), SnakePlacement(47, 26), SnakePlacement(49, 11),
      SnakePlacement(56, 53), SnakePlacement(62, 19), SnakePlacement(64, 60),
      SnakePlacement(87, 24), SnakePlacement(93, 73), SnakePlacement(95, 75),
      SnakePlacement(98, 78),
      LadderPlacement(1, 38), LadderPlacement(4, 14), LadderPlacement(9, 31),
      LadderPlacement(21, 42), LadderPlacement(28, 84), LadderPlacement(36, 44),
      LadderPlacement(51, 67), LadderPlacement(71, 91), LadderPlacement(80, 100) ]
  }

  /** Every placement of the program's layout passes its guard on a board of
      size 100, so none of them is dropped. */
  lemma MainLayout()
    ensures forall i :: 0 <= i < |MainPlacements()| ==> Accepted(100, MainPlacements()[i])
  {
  }

  /** Size 10, a snake 9 -> 3 and a ladder 2 -> 8, one player, rolls 2, 5, 1:
      the ladder takes the player to 8, the 5 overshoots and is forfeited,
      the 1 lands on the snake and sends the player to 3. */
  lemma TenSquareGame()
    ensures var l := Setup(Empty(10), [SnakePlacement(9, 3), LadderPlacement(2, 8)]);
            var t0 := Turn([0], 0, None);
            && Step(l, t0, 2).positions == [8]
            && Step(l, Step(l, t0, 2), 5).positions == [8]
            && Step(l, Step(l, Step(l, t0, 2), 5), 1).positions == [3]
            && Run(l, t0, [2, 5, 1]) == Turn([3], 0, None)
  {
  }

  /** Two players on an empty board of 100 rolling sixes reach 96 and then
      stall there for good: 102 overshoots, so however many sixes follow,
      nobody moves or wins and the turn just alternates. */
  lemma {:induction false} SixesStall(c: int, n: nat)
    requires 0 <= c < 2
    ensures Run(Empty(100), Turn([96, 96], c, None), seq(n, _ => 6)) == Turn([96, 96], (c + n) % 2, None)
    decreases n
  {
    if n > 0 {
      var t := Turn([96, 96], c, None);
      assert t.positions[c := 96] == t.positions;
      assert Step(Empty(100), t, 6) == Turn([96, 96], (c + 1) % 2, None);
      assert seq(n, _ => 6)[1..] == seq(n - 1, _ => 6);
      SixesStall((c + 1) % 2, n - 1);
    }
  }

  /** An exact landing wins and leaves the turn with the winner. */
  lemma ExactLandingWins()
    ensures var l := Empty(100);
            var t := Turn([96, 94], 1, None);
            Step(l, t, 6) == Turn([96, 100], 1, Some(1))
  {
  }

  /** Two snakes placed on the same start square: the later one is kept. */
  lemma DuplicateSnake()
    ensures Next(Setup(Empty(10), [SnakePlacement(9, 3), SnakePlacement(9, 5)]), 9) == 5
    ensures Setup(Empty(10), [SnakePlacement(9, 3), SnakePlacement(9, 5)]).snakes == map[9 := 5]
  {
  }

  /** Definitions that break a guard are dropped: a snake going up, a snake
      off the board, a ladder going down and a ladder from square 0. */
  lemma RejectedPlacements()
    ensures Setup(Empty(10), [ SnakePlacement(3, 7), SnakePlacement(11, 2),
                               LadderPlacement(8, 2), LadderPlacement(0, 5) ]) == Empty(10)
  {
  }
}
