/** The board of src/engine.rs: cells seen from the side to move, the
    perspective flip, the terminal test, the text picture of a board and the
    game loop that alternates two players on one board. */
module Engine {

  /** One cell: `X` belongs to the side to move, `O` to the other side and
      `A` is empty. */
  datatype Spot = O | X | A

  /** What `play` reports, and what `x_wins` says of a board: `X` a line of
      the mover's pieces, `O` "still in progress", `OX` a full board
      without a line. */
  datatype GameResult = O | X | OX

  /** The 9 cells in row-major order. */
  type Board = b: seq<Spot> | |b| == 9
    witness [Spot.A, Spot.A, Spot.A, Spot.A, Spot.A, Spot.A, Spot.A, Spot.A, Spot.A]

  const EmptyBoard: Board := [Spot.A, Spot.A, Spot.A, Spot.A, Spot.A, Spot.A, Spot.A, Spot.A, Spot.A]

  // ---------------------------------------------------------------------
  // Counting empty cells

  function Hole(s: Spot): nat
  {
    if s == Spot.A then 1 else 0
  }

  /** Some cell is empty, written cell by cell; `HasEmptyIsMember` ties it
      to the `b.contains(&Spot::A)` test of `x_wins`. */
  predicate HasEmpty(b: Board)
  {
    b[0] == Spot.A || b[1] == Spot.A || b[2] == Spot.A || b[3] == Spot.A || b[4] == Spot.A ||
    b[5] == Spot.A || b[6] == Spot.A || b[7] == Spot.A || b[8] == Spot.A
  }

  /** The cell-by-cell test is membership of `A`. */
  lemma HasEmptyIsMember(b: Board)
    ensures HasEmpty(b) <==> Spot.A in b
  {
    if Spot.A in b {
      var i :| 0 <= i < 9 && b[i] == Spot.A;
      assert i == 0 || i == 1 || i == 2 || i == 3 || i == 4 || i == 5 || i == 6 || i == 7 || i == 8;
    }
  }

  /** The number of empty cells. */
  function Empties(b: Board): (n: nat)
    ensures n <= 9
    ensures n == 0 <==> !HasEmpty(b)
  {
    Hole(b[0]) + Hole(b[1]) + Hole(b[2]) + Hole(b[3]) + Hole(b[4]) +
    Hole(b[5]) + Hole(b[6]) + Hole(b[7]) + Hole(b[8])
  }

  /** The lowest-index empty cell. */
  function FirstEmpty(b: seq<Spot>): (i: nat)
    requires Spot.A in b
    ensures i < |b| && b[i] == Spot.A
    ensures forall j :: 0 <= j < i ==> b[j] != Spot.A
  {
    if b[0] == Spot.A then 0
    else
      assert b == [b[0]] + b[1..];
      1 + FirstEmpty(b[1..])
  }

  // ---------------------------------------------------------------------
  // flip_board

  function FlipSpot(s: Spot): Spot
  {
    match s
    case O => Spot.X
    case X => Spot.O
    case A => Spot.A
  }

  /** The board as the other side sees it. */
  function Flipped(b: Board): Board
  {
    seq(9, i requires 0 <= i < 9 => FlipSpot(b[i]))
  }

  /** `flip_board`: swaps the two sides' pieces in place, cell by cell. */
  method FlipBoard(b: array<Spot>)
    requires b.Length == 9
    modifies b
    ensures b[..] == Flipped(old(b[..]))
  {
    for i := 0 to b.Length
      invariant forall j :: 0 <= j < i ==> b[j] == FlipSpot(old(b[j]))
      invariant forall j :: i <= j < b.Length ==> b[j] == old(b[j])
    {
      b[i] := FlipSpot(b[i]);
    }
  }

  /** Flipping turns O into X and X into O, keeps empty cells, and flipping
      twice gives back the board. */
  lemma FlipInvolution(b: Board)
    ensures forall i :: 0 <= i < |b| ==>
      (b[i] == Spot.O <==> Flipped(b)[i] == Spot.X) &&
      (b[i] == Spot.X <==> Flipped(b)[i] == Spot.O) &&
      (b[i] == Spot.A <==> Flipped(b)[i] == Spot.A)
    ensures Flipped(Flipped(b)) == b
  {
    assert forall i :: 0 <= i < |b| ==> Flipped(Flipped(b))[i] == b[i];
  }

  // ---------------------------------------------------------------------
  // x_wins

  /** The eight arms of the pattern match in `x_wins`, as written there. */
  predicate XLine(b: Board)
  {
    (b[0] == Spot.X && b[1] == Spot.X && b[2] == Spot.X) ||
    (b[3] == Spot.X && b[4] == Spot.X && b[5] == Spot.X) ||
    (b[6] == Spot.X && b[7] == Spot.X && b[8] == Spot.X) ||
    (b[0] == Spot.X && b[3] == Spot.X && b[6] == Spot.X) ||
    (b[1] == Spot.X && b[4] == Spot.X && b[7] == Spot.X) ||
    (b[2] == Spot.X && b[5] == Spot.X && b[8] == Spot.X) ||
    (b[0] == Spot.X && b[4] == Spot.X && b[8] == Spot.X) ||
    (b[2] == Spot.X && b[4] == Spot.X && b[6] == Spot.X)
  }

  predicate AllX(b: Board, i: nat, j: nat, k: nat)
    requires i < 9 && j < 9 && k < 9
  {
    b[i] == Spot.X && b[j] == Spot.X && b[k] == Spot.X
  }

  /** Row `r` (cells 3r, 3r+1, 3r+2) is all X. */
  predicate RowOfX(b: Board, r: nat)
    requires r < 3
  {
    AllX(b, 3 * r, 3 * r + 1, 3 * r + 2)
  }

  /** Column `c` (cells c, c+3, c+6) is all X. */
  predicate ColumnOfX(b: Board, c: nat)
    requires c < 3
  {
    AllX(b, c, c + 3, c + 6)
  }

  /** The geometric reading of a win: some row, column or diagonal of the
      3x3 grid holds three X. */
  predicate HasXLine(b: Board)
  {
    (exists r :: 0 <= r < 3 && RowOfX(b, r)) ||
    (exists c :: 0 <= c < 3 && ColumnOfX(b, c)) ||
    AllX(b, 0, 4, 8) || AllX(b, 2, 4, 6)
  }

  /** The eight literal patterns are exactly the rows, columns and
      diagonals. */
  lemma XLineIsLine(b: Board)
    ensures XLine(b) <==> HasXLine(b)
  {
    if XLine(b) {
      if AllX(b, 0, 1, 2) { assert RowOfX(b, 0); }
      else if AllX(b, 3, 4, 5) { assert RowOfX(b, 1); }
      else if AllX(b, 6, 7, 8) { assert RowOfX(b, 2); }
      else if AllX(b, 0, 3, 6) { assert ColumnOfX(b, 0); }
      else if AllX(b, 1, 4, 7) { assert ColumnOfX(b, 1); }
      else if AllX(b, 2, 5, 8) { assert ColumnOfX(b, 2); }
    }
    if exists r :: 0 <= r < 3 && RowOfX(b, r) {
      var r :| 0 <= r < 3 && RowOfX(b, r);
      assert r == 0 || r == 1 || r == 2;
    }
    if exists c :: 0 <= c < 3 && ColumnOfX(b, c) {
      var c :| 0 <= c < 3 && ColumnOfX(b, c);
      assert c == 0 || c == 1 || c == 2;
    }
  }

  /** `x_wins`, as written: `X` on a line of X, else `O` while a cell is
      empty, else `OX`. */
  function XWins(b: Board): GameResult
  {
    if XLine(b) then GameResult.X
    else if HasEmpty(b) then GameResult.O
    else GameResult.OX
  }

  /** `x_wins` answers `X` exactly when some line is all X; otherwise `O`
      (in progress) while an empty cell is left and `OX` once the board is
      full. `O` never means that O has won. */
  lemma XWinsMeaning(b: Board)
    ensures XWins(b) == GameResult.X <==> HasXLine(b)
    ensures XWins(b) == GameResult.O <==> !HasXLine(b) && Spot.A in b
    ensures XWins(b) == GameResult.OX <==> !HasXLine(b) && Spot.A !in b
  {
    XLineIsLine(b);
    HasEmptyIsMember(b);
  }

  // ---------------------------------------------------------------------
  // The text picture built by prgame

  function SpotChar(s: Spot): char
  {
    match s
    case O => 'O'
    case X => 'X'
    case A => '-'
  }

  function CharSpot(c: char): Spot
  {
    if c == 'O' then Spot.O else if c == 'X' then Spot.X else Spot.A
  }

  /** `out` is the picture of `b`: three lines of three characters, each
      ended by a newline, cell `i` at position `i + i / 3`. */
  ghost predicate Depicts(out: string, b: Board)
  {
    |out| == 12 &&
    (forall k :: 0 <= k < 12 && k % 4 == 3 ==> out[k] == '\n') &&
    (forall i :: 0 <= i < 9 ==> out[i + i / 3] == SpotChar(b[i]))
  }

  /** The string `prgame` builds before printing it. */
  method Render(b: Board) returns (out: string)
    ensures Depicts(out, b)
  {
    out := "";
    for i := 0 to 9
      invariant |out| == i + i / 3
      invariant forall k :: 0 <= k < |out| && k % 4 == 3 ==> out[k] == '\n'
      invariant forall j :: 0 <= j < i ==> out[j + j / 3] == SpotChar(b[j])
    {
      out := out + [SpotChar(b[i])];
      if i % 3 == 2 {
        out := out + ['\n'];
      }
    }
  }

  /** Reads a picture back: the cell characters sit at every position that
      is not a line end. */
  function ReadBoard(s: string): (b: Board)
    requires |s| == 12
  {
    seq(9, i requires 0 <= i < 9 => CharSpot(s[i + i / 3]))
  }

  /** A picture determines its board. */
  lemma ReadDepicted(s: string, b: Board)
    requires Depicts(s, b)
    ensures ReadBoard(s) == b
  {
    forall i | 0 <= i < 9
      ensures ReadBoard(s)[i] == b[i]
    {
      assert s[i + i / 3] == SpotChar(b[i]);
    }
  }

  // ---------------------------------------------------------------------
  // play

  /** What one legal or illegal proposal does to the board. */
  datatype Turn =
    | Illegal                 // index above 8 or a cell that is not empty
    | Won(placed: Board)      // the placed X completes a line
    | Drawn(placed: Board)    // the board is full without a line
    | Next(board: Board)      // the game goes on, seen by the other side

  /** One pass of the loop body of `play` on board `b` with proposal `mv`. */
  function Move(b: Board, mv: nat): (t: Turn)
    ensures t.Illegal? <==> mv > 8 || b[mv] != Spot.A
    ensures t.Next? ==> t.board == Flipped(b[mv := Spot.X]) && Empties(t.board) == Empties(b) - 1 > 0
  {
    if mv > 8 || b[mv] != Spot.A then Illegal
    else
      var placed := b[mv := Spot.X];
      var winner := XWins(placed);
      if winner == GameResult.X then Won(placed)
      else if winner == GameResult.OX then Drawn(placed)
      else
        PlaceAndFlip(b, mv);
        Next(Flipped(placed))
  }

  /** How a game ended: an illegal proposal, a line, or a full board. */
  datatype Ending = Forfeit | Line | Full

  /** The end of a game: the reported result, the number of proposals
      asked for, how it ended, and the board the last proposal was made
      against, with the piece placed unless it was a forfeit. */
  datatype Outcome = Outcome(result: GameResult, rounds: nat, ending: Ending, last: Board)

  /** `n` is even, counted down one step at a time. Written as a recursion,
      not as `n % 2 == 0`, so that each step of the game loop needs only
      one unfolding and no arithmetic on remainders; `EvenIsMod` relates
      the two. */
  predicate Even(n: nat)
  {
    if n == 0 then true else !Even(n - 1)
  }

  lemma {:induction false} EvenIsMod(n: nat)
    ensures Even(n) <==> n % 2 == 0
  {
    if n > 0 {
      EvenIsMod(n - 1);
    }
  }

  lemma EvenStep(n: nat, m: nat)
    requires n == m + 1
    ensures Even(n) == !Even(m)
  {
  }

  /** The turn flag at proposal number `k` of a game that started with
      flag `first`: the flag is toggled after every proposal, so it is back
      to `first` after an even number of them. `true` means the second
      player proposes. */
  function FlagAt(first: bool, k: nat): bool
  {
    if Even(k) then first else !first
  }

  /** The game loop from proposal number `k` on, with board `b`, for a game
      that started with flag `first`; `moves[k]` is the cell proposed at
      step `k`, by the side that `FlagAt(first, k)` names. */
  function RunFrom(moves: seq<nat>, k: nat, b: Board, first: bool): (o: Outcome)
    requires |moves| >= 9
    requires k + Empties(b) == 9 && Empties(b) > 0
    ensures k < o.rounds <= 9
    decreases Empties(b)
  {
    var player := FlagAt(first, k);
    match Move(b, moves[k])
    case Illegal => Outcome(if player then GameResult.X else GameResult.O, k + 1, Forfeit, b)
    case Won(placed) => Outcome(if player then GameResult.O else GameResult.X, k + 1, Line, placed)
    case Drawn(placed) => Outcome(GameResult.OX, k + 1, Full, placed)
    case Next(next) => RunFrom(moves, k + 1, next, first)
  }

  /** One step of the specified game: what `RunFrom` reports when the
      proposal at step `k` ends the game, and where it goes on otherwise. */
  lemma RunFromUnfold(moves: seq<nat>, k: nat, b: Board, first: bool)
    requires |moves| >= 9
    requires k + Empties(b) == 9 && Empties(b) > 0
    ensures Move(b, moves[k]).Illegal? ==>
      RunFrom(moves, k, b, first).result == (if FlagAt(first, k) then GameResult.X else GameResult.O)
    ensures Move(b, moves[k]).Won? ==>
      RunFrom(moves, k, b, first).result == (if FlagAt(first, k) then GameResult.O else GameResult.X)
    ensures Move(b, moves[k]).Drawn? ==> RunFrom(moves, k, b, first).result == GameResult.OX
    ensures Move(b, moves[k]).Next? ==>
      RunFrom(moves, k, b, first) == RunFrom(moves, k + 1, Move(b, moves[k]).board, first)
  {
  }

  /** A placed piece either completes a line, fills the board without
      one, or leaves the game going. */
  lemma MoveEnds(b: Board, mv: nat)
    requires mv < 9 && b[mv] == Spot.A
    ensures Move(b, mv).Won? ==> Move(b, mv).placed == b[mv := Spot.X] && HasXLine(Move(b, mv).placed)
    ensures Move(b, mv).Drawn? ==>
      Move(b, mv).placed == b[mv := Spot.X] && !HasXLine(Move(b, mv).placed) && Empties(Move(b, mv).placed) == 0
    ensures Move(b, mv).Next? ==> !HasXLine(b[mv := Spot.X]) && HasEmpty(b[mv := Spot.X])
  {
    XWinsMeaning(b[mv := Spot.X]);
  }

  /** How a game may end, with `p` the flag of the side that made the last
      proposal: an illegal proposal (above 8, or naming a cell that is not
      empty) loses the game for that side, a completed line wins it for that
      side, and a full board without a line is a draw. `X` stands for the
      player `p1` (asked while the flag is false) and `O` for `p2`. */
  ghost predicate EndsByRules(moves: seq<nat>, first: bool, o: Outcome)
    requires 0 < o.rounds <= |moves|
  {
    var p := FlagAt(first, o.rounds - 1);
    (o.ending == Forfeit ==>
      (moves[o.rounds - 1] > 8 || o.last[moves[o.rounds - 1]] != Spot.A) &&
      o.result == (if p then GameResult.X else GameResult.O)) &&
    (o.ending == Line ==>
      HasXLine(o.last) && o.result == (if p then GameResult.O else GameResult.X)) &&
    (o.ending == Full ==>
      !HasXLine(o.last) && Empties(o.last) == 0 && o.result == GameResult.OX)
  }

  /** A proposal that ends the game ends it by the rules. */
  lemma StopEnding(moves: seq<nat>, k: nat, b: Board, first: bool)
    requires |moves| >= 9
    requires k + Empties(b) == 9 && Empties(b) > 0
    requires !Move(b, moves[k]).Next?
    ensures EndsByRules(moves, first, RunFrom(moves, k, b, first))
  {
    if moves[k] < 9 && b[moves[k]] == Spot.A {
      MoveEnds(b, moves[k]);
    }
  }

  /** Every game ends by the rules. */
  lemma {:induction false} RunFromEnding(moves: seq<nat>, k: nat, b: Board, first: bool)
    requires |moves| >= 9
    requires k + Empties(b) == 9 && Empties(b) > 0
    ensures EndsByRules(moves, first, RunFrom(moves, k, b, first))
    decreases Empties(b)
  {
    var t := Move(b, moves[k]);
    if t.Next? {
      RunFromEnding(moves, k + 1, t.board, first);
      assert RunFrom(moves, k, b, first) == RunFrom(moves, k + 1, t.board, first);
    } else {
      StopEnding(moves, k, b, first);
    }
  }

  /** Placing a piece on an empty cell leaves one empty cell fewer. */
  lemma EmptiesPlaced(b: Board, mv: nat)
    requires mv < 9 && b[mv] == Spot.A
    ensures Empties(b[mv := Spot.X]) == Empties(b) - 1
  {
    var c := b[mv := Spot.X];
    assert Hole(c[0]) + Hole(c[1]) + Hole(c[2]) + Hole(c[3]) + Hole(c[4]) + Hole(c[5]) + Hole(c[6]) + Hole(c[7]) + Hole(c[8])
      == Hole(b[0]) + Hole(b[1]) + Hole(b[2]) + Hole(b[3]) + Hole(b[4]) + Hole(b[5]) + Hole(b[6]) + Hole(b[7]) + Hole(b[8]) - 1 by {
      if mv == 0 {} else if mv == 1 {} else if mv == 2 {} else if mv == 3 {} else if mv == 4 {}
      else if mv == 5 {} else if mv == 6 {} else if mv == 7 {} else {}
    }
  }

  /** Flipping keeps the number of empty cells. */
  lemma EmptiesFlipped(b: Board)
    ensures Empties(Flipped(b)) == Empties(b)
  {
    forall i | 0 <= i < 9
      ensures Hole(Flipped(b)[i]) == Hole(b[i])
    {
    }
  }

  /** One turn of the loop: a legal proposal turns exactly one empty cell
      into X, the flipped board shows it as O to the next mover, and one
      empty cell fewer is left. */
  lemma PlaceAndFlip(b: Board, mv: nat)
    requires mv < 9 && b[mv] == Spot.A
    ensures Flipped(b[mv := Spot.X])[mv] == Spot.O
    ensures forall j :: 0 <= j < 9 && j != mv ==> Flipped(b[mv := Spot.X])[j] == FlipSpot(b[j])
    ensures Empties(Flipped(b[mv := Spot.X])) == Empties(b) - 1
  {
    EmptiesPlaced(b, mv);
    EmptiesFlipped(b[mv := Spot.X]);
  }

  /** One pass of the loop body of `play` on the array: refuse an illegal
      cell, place X, test the board, and flip it when the game goes on. */
  method Step(game: array<Spot>, mv: nat) returns (t: Turn)
    requires game.Length == 9
    modifies game
    ensures t == Move(old(game[..]), mv)
    ensures t.Illegal? ==> game[..] == old(game[..])
    ensures t.Won? || t.Drawn? ==> game[..] == t.placed
    ensures t.Next? ==> game[..] == t.board
  {
    ghost var before: Board := game[..];
    if mv > 8 || game[mv] != Spot.A {
      return Illegal;
    }
    game[mv] := Spot.X;
    assert game[..] == before[mv := Spot.X];
    var winner := XWins(game[..]);
    if winner == GameResult.X {
      return Won(game[..]);
    } else if winner == GameResult.OX {
      return Drawn(game[..]);
    }
    FlipBoard(game);
    t := Next(game[..]);
  }

  /** `play`: asks the mover for a cell, forfeits an illegal one, places X,
      stops on a line or a full board, and otherwise flips the board and the
      turn. */
  method Play(moves: seq<nat>, player: bool) returns (r: GameResult)
    requires |moves| >= 9
    ensures r == RunFrom(moves, 0, EmptyBoard, player).result
  {
    var game := new Spot[9](_ => Spot.A);
    assert game[..] == EmptyBoard;
    var turn := player;
    var k := 0;
    while true
      invariant k + Empties(game[..]) == 9 && Empties(game[..]) > 0
      invariant turn == FlagAt(player, k)
      invariant RunFrom(moves, k, game[..], player) == RunFrom(moves, 0, EmptyBoard, player)
      decreases Empties(game[..])
    {
      RunFromUnfold(moves, k, game[..], player);
      var t := Step(game, moves[k]);
      match t
      case Illegal => return if turn then GameResult.X else GameResult.O;
      case Won(_) => return if turn then GameResult.O else GameResult.X;
      case Drawn(_) => return GameResult.OX;
      case Next(_) =>
      turn := !turn;
      EvenStep(k + 1, k);
      k := k + 1;
    }
  }
}
