/** The board: a fixed size and two transition tables, one for snakes (a start
    square leads down to a lower square) and one for ladders (a start square
    leads up to a higher square). Entries are only ever added through guarded
    inserts; a definition that fails its guard is silently dropped. */
module Boards {

  /** The value held by a board: its size and its two tables. */
  datatype Layout = Layout(size: int, snakes: map<int, int>, ladders: map<int, int>)

  /** A freshly created board of the given size: both tables empty. */
  function Empty(size: int): Layout {
    Layout(size, map[], map[])
  }

  /** The guard under which a snake start -> end is recorded. */
  predicate SnakeAccepted(size: int, start: int, end: int) {
    start > end && start <= size && end > 0
  }

  /** The guard under which a ladder start -> end is recorded. */
  predicate LadderAccepted(size: int, start: int, end: int) {
    start < end && start > 0 && end <= size
  }

  /** What the guarded inserts guarantee about the tables: every snake goes
      strictly down and every ladder strictly up, both inside [1, size]. */
  ghost predicate WellFormed(l: Layout) {
    && (forall k :: k in l.snakes ==> 1 <= l.snakes[k] < k <= l.size)
    && (forall k :: k in l.ladders ==> 1 <= k < l.ladders[k] <= l.size)
  }

  /** addSnake on the value: records start -> end exactly when the guard
      holds (overwriting an earlier end for the same start), and otherwise
      changes nothing; the ladder table is never touched. */
  function WithSnake(l: Layout, start: int, end: int): (r: Layout)
    ensures r.size == l.size && r.ladders == l.ladders
    ensures SnakeAccepted(l.size, start, end) ==> r.snakes == l.snakes[start := end]
    ensures !SnakeAccepted(l.size, start, end) ==> r == l
    ensures WellFormed(l) ==> WellFormed(r)
  {
    if SnakeAccepted(l.size, start, end) then l.(snakes := l.snakes[start := end]) else l
  }

  /** addLadder on the value: records start -> end exactly when the guard
      holds, and otherwise changes nothing; the snake table is never touched. */
  function WithLadder(l: Layout, start: int, end: int): (r: Layout)
    ensures r.size == l.size && r.snakes == l.snakes
    ensures LadderAccepted(l.size, start, end) ==> r.ladders == l.ladders[start := end]
    ensures !LadderAccepted(l.size, start, end) ==> r == l
    ensures WellFormed(l) ==> WellFormed(r)
  {
    if LadderAccepted(l.size, start, end) then l.(ladders := l.ladders[start := end]) else l
  }

  /** getNextPosition on the value: the snake end if the square starts a
      snake, else the ladder end if it starts a ladder, else the square
      itself. On a well-formed board the result stays on the board, and it
      is below the square exactly for a snake start and above it exactly for
      a ladder start that is not also a snake start. */
  function Next(l: Layout, p: int): (r: int)
    ensures p in l.snakes ==> r == l.snakes[p]
    ensures p !in l.snakes && p in l.ladders ==> r == l.ladders[p]
    ensures p !in l.snakes && p !in l.ladders ==> r == p
    ensures WellFormed(l) && 1 <= p <= l.size ==> 1 <= r <= l.size
    ensures WellFormed(l) ==> (r < p <==> p in l.snakes)
    ensures WellFormed(l) ==> (r > p <==> p !in l.snakes && p in l.ladders)
  {
    if p in l.snakes then l.snakes[p] else if p in l.ladders then l.ladders[p] else p
  }

  /** A second snake for the same start square replaces the first one. */
  lemma SnakeLastWriteWins(l: Layout, start: int, first: int, second: int)
    requires SnakeAccepted(l.size, start, second)
    ensures WithSnake(WithSnake(l, start, first), start, second) == WithSnake(l, start, second)
    ensures Next(WithSnake(WithSnake(l, start, first), start, second), start) == second
  {
  }

  /** A second ladder for the same start square replaces the first one; a
      snake on that square still takes priority over either. */
  lemma LadderLastWriteWins(l: Layout, start: int, first: int, second: int)
    requires LadderAccepted(l.size, start, second)
    ensures WithLadder(WithLadder(l, start, first), start, second) == WithLadder(l, start, second)
    ensures start !in l.snakes ==> Next(WithLadder(WithLadder(l, start, first), start, second), start) == second
    ensures start in l.snakes ==> Next(WithLadder(WithLadder(l, start, first), start, second), start) == l.snakes[start]
  {
  }

  /** One setup call: addSnake or addLadder with its two squares. */
  datatype Placement = SnakePlacement(start: int, end: int) | LadderPlacement(start: int, end: int)

  function Place(l: Layout, p: Placement): Layout {
    match p
    case SnakePlacement(s, e) => WithSnake(l, s, e)
    case LadderPlacement(s, e) => WithLadder(l, s, e)
  }

  /** Whether a setup call passes its guard, so that it records an entry. */
  predicate Accepted(size: int, p: Placement) {
    match p
    case SnakePlacement(s, e) => SnakeAccepted(size, s, e)
    case LadderPlacement(s, e) => LadderAccepted(size, s, e)
  }

  /** The board after the given setup calls, applied in order. */
  function Setup(l: Layout, ps: seq<Placement>): Layout
    decreases |ps|
  {
    if ps == [] then l else Setup(Place(l, ps[0]), ps[1..])
  }

  /** Starting from empty tables and using only the guarded inserts, the
      board is well formed, so every lookup from a square of the board lands
      on a square of the board. */
  lemma {:induction false} SetupWellFormed(l: Layout, ps: seq<Placement>)
    requires WellFormed(l)
    ensures Setup(l, ps).size == l.size
    ensures WellFormed(Setup(l, ps))
    ensures forall p :: 1 <= p <= l.size ==> 1 <= Next(Setup(l, ps), p) <= l.size
    decreases |ps|
  {
    if ps != [] {
      SetupWellFormed(Place(l, ps[0]), ps[1..]);
    }
  }

  /** The Board object: the size is fixed at construction, the two tables
      are updated in place by the guarded inserts. */
  class Board {
    const size: int
    var snakes: map<int, int>
    var ladders: map<int, int>

    function View(): Layout
      reads this
    {
      Layout(size, snakes, ladders)
    }

    ghost predicate Valid()
      reads this
    {
      WellFormed(View())
    }

    constructor (size: int)
      ensures Valid()
      ensures View() == Empty(size)
    {
      this.size := size;
      snakes := map[];
      ladders := map[];
    }

    method AddSnake(start: int, end: int)
      requires Valid()
      modifies this
      ensures Valid()
      ensures View() == WithSnake(old(View()), start, end)
    {
      if start > end && start <= size && end > 0 {
        snakes := snakes[start := end];
      }
    }

    method AddLadder(start: int, end: int)
      requires Valid()
      modifies this
      ensures Valid()
      ensures View() == WithLadder(old(View()), start, end)
    {
      if start < end && start > 0 && end <= size {
        ladders := ladders[start := end];
      }
    }

    method GetNextPosition(position: int) returns (r: int)
      ensures r == Next(View(), position)
    {
      if position in snakes {
        return snakes[position];
      }
      r := if position in ladders then ladders[position] else position;
    }
  }
}
