/** The turn as the source writes it, with Java's 32-bit `int` addition for
    the square reached by the roll. On a board whose size is within six of
    the largest `int`, the sum can wrap around to a negative number, which
    then passes the "not past the last square" test. */
module Overflow {
  import opened Boards
  import opened Games

  const IntMax: int := 0x7fff_ffff
  const IntMin: int := -0x8000_0000

  /** Two's-complement wrap-around of a mathematical integer to 32 bits. */
  function Wrap32(x: int): (r: int)
    ensures IntMin <= r <= IntMax
    ensures (x - r) % 0x1_0000_0000 == 0
    ensures IntMin <= x <= IntMax ==> r == x
  {
    var m := x % 0x1_0000_0000;
    if m > IntMax then m - 0x1_0000_0000 else m
  }

  /** playTurn with the addition wrapping as a Java `int` does. */
  function StepAsWritten(l: Layout, t: Turn, roll: int): (r: Turn)
    requires 1 <= roll <= 6
    requires 0 <= t.current < |t.positions|
    ensures |r.positions| == |t.positions|
  {
    var pos := t.positions[t.current];
    var candidate := Wrap32(pos + roll);
    var moved := if candidate <= l.size then Next(l, candidate) else pos;
    var ps := t.positions[t.current := moved];
    if moved == l.size then Turn(ps, t.current, Some(t.current))
    else Turn(ps, (t.current + 1) % |ps|, t.winner)
  }

  /** Below the wrap-around limit the source's turn is the modelled turn. */
  lemma AsWrittenAgreesBelowLimit(l: Layout, t: Turn, roll: int)
    requires Invariant(l, t)
    requires 0 < |t.positions|
    requires 1 <= roll <= 6
    requires l.size <= IntMax - 6
    ensures StepAsWritten(l, t, roll) == Step(l, t, roll)
  {
  }

  /** A board of size IntMax with a ladder from 1 to IntMax - 2: a player
      who starts with a 1 climbs to IntMax - 2; rolling 6 from there should stay put (the roll overshoots), but the
      wrapped sum is negative, so the source moves the player off the board. */
  lemma OverflowLeavesBoard()
    ensures var l := Setup(Empty(IntMax), [LadderPlacement(1, IntMax - 2)]);
            var t := Turn([IntMax - 2], 0, None);
            && Step(l, Turn([0], 0, None), 1) == t
            && Invariant(l, t)
            && Step(l, t, 6) == t
            && StepAsWritten(l, t, 6).positions == [IntMin + 3]
            && !Invariant(l, StepAsWritten(l, t, 6))
  {
  }
}
