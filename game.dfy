/** The turn state machine: players in turn order, the index of the player
    whose turn it is, and the winner once somebody lands exactly on the last
    square. The die is not rolled here: each turn is given its roll. */
module Games {
  import opened Boards

  datatype Option<T> = None | Some(value: T)

  /** The value of a game between turns: each player's square in turn order,
      the index of the player to move, and the index of the winner if any. */
  datatype Turn = Turn(positions: seq<int>, current: int, winner: Option<nat>)

  /** One turn of the player at `current` with the given roll. A roll that
      would carry the player past the last square is forfeited; otherwise
      the player moves and follows a snake or ladder at the square reached.
      Landing on the last square makes that player the winner and keeps the
      turn with them; any other outcome passes the turn to the next player
      in round-robin order. No other player moves. */
  function Step(l: Layout, t: Turn, roll: int): (r: Turn)
    requires 1 <= roll <= 6
    requires 0 <= t.current < |t.positions|
    ensures |r.positions| == |t.positions|
    ensures forall j :: 0 <= j < |t.positions| && j != t.current ==> r.positions[j] == t.positions[j]
    ensures t.positions[t.current] + roll > l.size ==> r.positions[t.current] == t.positions[t.current]
    ensures t.positions[t.current] + roll <= l.size ==> r.positions[t.current] == Next(l, t.positions[t.current] + roll)
    ensures r.positions[t.current] == l.size ==> r.winner == Some(t.current) && r.current == t.current
    ensures r.positions[t.current] != l.size ==> r.winner == t.winner && r.current == (t.current + 1) % |t.positions|
    ensures 0 <= r.current < |r.positions|
  {
    var pos := t.positions[t.current];
    var moved := if pos + roll <= l.size then Next(l, pos + roll) else pos;
    var ps := t.positions[t.current := moved];
    if moved == l.size then Turn(ps, t.current, Some(t.current))
    else Turn(ps, (t.current + 1) % |ps|, t.winner)
  }

  predicate ValidRolls(rolls: seq<int>) {
    forall i :: 0 <= i < |rolls| ==> 1 <= rolls[i] <= 6
  }

  /** The game loop over a finite supply of rolls: play turns while there
      is no winner and there are rolls left. */
  function Run(l: Layout, t: Turn, rolls: seq<int>): (r: Turn)
    requires 0 <= t.current < |t.positions|
    requires ValidRolls(rolls)
    ensures |r.positions| == |t.positions|
    ensures 0 <= r.current < |r.positions|
    ensures t.winner.Some? ==> r == t
    decreases |rolls|
  {
    if t.winner.Some? || rolls == [] then t
    else Run(l, Step(l, t, rolls[0]), rolls[1..])
  }

  /** Every roll played in order, with no stop at a win. */
  function StepAll(l: Layout, t: Turn, rolls: seq<int>): Turn
    requires 0 <= t.current < |t.positions|
    requires ValidRolls(rolls)
    decreases |rolls|
  {
    if rolls == [] then t
    else StepAll(l, Step(l, t, rolls[0]), rolls[1..])
  }

  /** What holds of every game played on a well-formed board of positive
      size: the turn index is in range, every player stands on a square in
      [0, size], and a player stands on the last square exactly when that
      player is the winner, whose turn it then still is. */
  ghost predicate Invariant(l: Layout, t: Turn) {
    && WellFormed(l)
    && l.size >= 1
    && 0 <= t.current
    && (t.current < |t.positions| || t.current == 0)
    && (forall j :: 0 <= j < |t.positions| ==> 0 <= t.positions[j] <= l.size)
    && (forall j :: 0 <= j < |t.positions| ==> (t.positions[j] == l.size <==> t.winner == Some(j)))
    && (t.winner.Some? ==> t.winner.value == t.current < |t.positions|)
  }

  /** A turn keeps the invariant. */
  lemma StepKeepsInvariant(l: Layout, t: Turn, roll: int)
    requires Invariant(l, t)
    requires 1 <= roll <= 6
    requires 0 < |t.positions|
    ensures Invariant(l, Step(l, t, roll))
  {
  }

  /** Once there is a winner a further turn changes nothing: the winner
      stands on the last square, so every roll overshoots. */
  lemma WinIsFinal(l: Layout, t: Turn, roll: int)
    requires Invariant(l, t)
    requires 1 <= roll <= 6
    requires t.winner.Some?
    ensures Step(l, t, roll) == t
  {
  }

  /** The game loop keeps the invariant; so a game it ends has exactly one
      player on the last square, the winner, and everyone else below it. */
  lemma {:induction false} RunKeepsInvariant(l: Layout, t: Turn, rolls: seq<int>)
    requires Invariant(l, t)
    requires 0 < |t.positions|
    requires ValidRolls(rolls)
    ensures Invariant(l, Run(l, t, rolls))
    decreases |rolls|
  {
    if t.winner.None? && rolls != [] {
      StepKeepsInvariant(l, t, rolls[0]);
      RunKeepsInvariant(l, Step(l, t, rolls[0]), rolls[1..]);
    }
  }

  /** Leaving the loop at the first win loses nothing: on a consistent game,
      stopping at the win gives the same game as playing every roll. */
  lemma {:induction false} RunIsStepAll(l: Layout, t: Turn, rolls: seq<int>)
    requires Invariant(l, t)
    requires 0 < |t.positions|
    requires ValidRolls(rolls)
    ensures Run(l, t, rolls) == StepAll(l, t, rolls)
    decreases |rolls|
  {
    if rolls != [] {
      StepKeepsInvariant(l, t, rolls[0]);
      if t.winner.Some? {
        WinIsFinal(l, t, rolls[0]);
        RunIsStepAll(l, t, rolls[1..]);
      } else {
        RunIsStepAll(l, Step(l, t, rolls[0]), rolls[1..]);
      }
    }
  }

  /** The index of the first occurrence of x in s. */
  function IndexOf<T(==)>(s: seq<T>, x: T): (i: nat)
    requires x in s
    ensures i < |s| && s[i] == x
    ensures forall j :: 0 <= j < i ==> s[j] != x
  {
    if s[0] == x then 0 else 1 + IndexOf(s[1..], x)
  }

  predicate Distinct<T(==)>(s: seq<T>) {
    forall i, j :: 0 <= i < j < |s| ==> s[i] != s[j]
  }

  /** A player: a name that never changes and a square, 0 before the first
      move. */
  class Player {
    const name: string
    var position: int

    constructor (name: string)
      ensures this.name == name && position == 0
    {
      this.name := name;
      position := 0;
    }

    method SetPosition(position: int)
      modifies this
      ensures this.position == position
    {
      this.position := position;
    }
  }

  class Game {
    const board: Board
    var players: seq<Player>
    var currentPlayerIndex: int
    var winner: Player?

    /** The shape every game keeps: a well-formed board, distinct player
        objects, a turn index in range and a winner among the players. */
    ghost predicate Valid()
      reads this, board, players
    {
      && board.Valid()
      && Distinct(players)
      && 0 <= currentPlayerIndex
      && (currentPlayerIndex < |players| || currentPlayerIndex == 0)
      && (winner != null ==> winner in players)
    }

    ghost function Positions(): (ps: seq<int>)
      reads this, players
      ensures |ps| == |players|
      ensures forall j :: 0 <= j < |players| ==> ps[j] == players[j].position
    {
      seq(|players|, j reads this, players requires 0 <= j < |players| => players[j].position)
    }

    /** The game as a value, with the winner given by its turn-order index. */
    ghost function State(): Turn
      requires Valid()
      reads this, board, players
    {
      Turn(Positions(), currentPlayerIndex, if winner == null then None else Some(IndexOf(players, winner)))
    }

    /** The game is in a state reachable by play on a board of positive size. */
    ghost predicate Consistent()
      requires Valid()
      reads this, board, players
    {
      Invariant(board.View(), State())
    }

    constructor (boardSize: int)
      ensures Valid() && fresh(board)
      ensures board.View() == Empty(boardSize)
      ensures players == [] && currentPlayerIndex == 0 && winner == null
      ensures boardSize >= 1 ==> Consistent()
    {
      board := new Board(boardSize);
      players := [];
      currentPlayerIndex := 0;
      winner := null;
    }

    method AddPlayer(name: string)
      requires Valid()
      modifies this
      ensures Valid()
      ensures |players| == |old(players)| + 1 && players[..|old(players)|] == old(players)
      ensures fresh(players[|old(players)|]) && players[|old(players)|].name == name
      ensures currentPlayerIndex == old(currentPlayerIndex) && winner == old(winner)
      ensures State() == old(State()).(positions := old(State()).positions + [0])
      ensures old(Consistent()) ==> Consistent()
    {
      var p := new Player(name);
      ghost var before := State();
      players := players + [p];
      if winner != null {
        var w := IndexOf(old(players), winner);
        assert players[w] == winner;
      }
      assert State().positions == before.positions + [0];
    }

    method AddSnake(start: int, end: int)
      requires Valid()
      modifies board
      ensures Valid()
      ensures board.View() == WithSnake(old(board.View()), start, end)
      ensures State() == old(State())
      ensures old(Consistent()) ==> Consistent()
    {
      board.AddSnake(start, end);
    }

    method AddLadder(start: int, end: int)
      requires Valid()
      modifies board
      ensures Valid()
      ensures board.View() == WithLadder(old(board.View()), start, end)
      ensures State() == old(State())
      ensures old(Consistent()) ==> Consistent()
    {
      board.AddLadder(start, end);
    }

    /** One turn with the given roll; the winner is the player object that
        moved when it reached the last square. */
    method PlayTurn(roll: int)
      requires Valid()
      requires 1 <= roll <= 6
      requires 0 < |players|
      modifies this, players[currentPlayerIndex]
      ensures Valid()
      ensures players == old(players)
      ensures State() == Step(board.View(), old(State()), roll)
      ensures winner == if players[old(currentPlayerIndex)].position == board.size
                        then players[old(currentPlayerIndex)] else old(winner)
      ensures old(Consistent()) ==> Consistent()
    {
      ghost var before := State();
      var currentPlayer := players[currentPlayerIndex];
      var newPosition := currentPlayer.position + roll;
      if newPosition <= board.size {
        newPosition := board.GetNextPosition(newPosition);
        currentPlayer.SetPosition(newPosition);
      }
      if currentPlayer.position == board.size {
        winner := currentPlayer;
      } else {
        currentPlayerIndex := (currentPlayerIndex + 1) % |players|;
      }
      ghost var after := Step(board.View(), before, roll);
      ghost var cur := old(currentPlayerIndex);
      forall j | 0 <= j < |players|
        ensures Positions()[j] == after.positions[j]
      {
        if j != cur {
          assert players[j] != currentPlayer;
          assert players[j].position == old(players[j].position);
        }
      }
      assert Positions() == after.positions;
      assert currentPlayerIndex == after.current;
      if winner == currentPlayer {
        assert IndexOf(players, winner) == cur;
      } else if winner != null {
        assert IndexOf(players, winner) == before.winner.value;
      }
      assert State() == after;
      if old(Consistent()) {
        StepKeepsInvariant(board.View(), before, roll);
      }
    }

    /** isGameOver: there is a winner; in a consistent game, exactly when
        some player stands on the last square. */
    predicate IsGameOver(): (r: bool)
      requires Valid()
      reads this, board, players
      ensures r <==> State().winner.Some?
      ensures Consistent() ==> (r <==> exists j :: 0 <= j < |players| && players[j].position == board.size)
    {
      winner != null
    }

    /** startGame over a finite supply of rolls: turns are played until a
        player wins or the rolls run out. */
    method StartGame(rolls: seq<int>)
      requires Valid()
      requires 0 < |players|
      requires ValidRolls(rolls)
      modifies this, players
      ensures Valid()
      ensures players == old(players)
      ensures State() == Run(board.View(), old(State()), rolls)
      ensures old(Consistent()) ==> Consistent()
    {
      var i := 0;
      while !IsGameOver() && i < |rolls|
        invariant 0 <= i <= |rolls|
        invariant Valid() && players == old(players)
        invariant Run(board.View(), State(), rolls[i..]) == Run(board.View(), old(State()), rolls)
        invariant old(Consistent()) ==> Consistent()
        decreases |rolls| - i
      {
        PlayTurn(rolls[i]);
        assert rolls[i..][1..] == rolls[i + 1..];
        i := i + 1;
      }
    }
  }
}
