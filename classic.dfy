/** The stand-alone program of src/main.rs: its own result type with an
    explicit "in progress" value, its copy of the game loop, and a learner
    that keeps, for every board it has met, a (win, loss) tally per cell.
    The cell type and `flip_board` of that file are the same as in
    src/engine.rs and are taken from module Engine. */
module Classic {
  import Engine
  import Rng

  /** `A` is the "in progress" answer of `x_wins`; `play` never returns it. */
  datatype GameResult = O | X | A | OX

  /** `x_wins` of src/main.rs, as written: `X` on a line of X, else `A`
      while a cell is empty, else `OX`. */
  function XWins(b: Engine.Board): GameResult
  {
    if Engine.XLine(b) then GameResult.X
    else if Engine.HasEmpty(b) then GameResult.A
    else GameResult.OX
  }

  /** `x_wins` answers `X` exactly when some row, column or diagonal is all
      X, else `A` if some cell is empty, else `OX`; it never answers `O`. */
  lemma XWinsMeaning(b: Engine.Board)
    ensures XWins(b) != GameResult.O
    ensures XWins(b) == GameResult.X <==> Engine.HasXLine(b)
    ensures XWins(b) == GameResult.A <==> !Engine.HasXLine(b) && Engine.Spot.A in b
    ensures XWins(b) == GameResult.OX <==> !Engine.HasXLine(b) && Engine.Spot.A !in b
  {
    Engine.XLineIsLine(b);
    Engine.HasEmptyIsMember(b);
  }

  /** A result of the loop of src/engine.rs, in this file's result type. */
  function FromEngine(r: Engine.GameResult): (c: GameResult)
    ensures c != GameResult.A
  {
    match r
    case O => GameResult.O
    case X => GameResult.X
    case OX => GameResult.OX
  }

  /** The two `x_wins` agree, with `A` here where src/engine.rs says `O`. */
  lemma XWinsAgree(b: Engine.Board)
    ensures XWins(b) == GameResult.A <==> Engine.XWins(b) == Engine.GameResult.O
    ensures XWins(b) != GameResult.A ==> XWins(b) == FromEngine(Engine.XWins(b))
  {
  }

  /** One pass of the loop body of `play` of src/main.rs: the same turn as
      in src/engine.rs, with `A` as the "go on" answer. */
  method Step(game: array<Engine.Spot>, mv: nat) returns (t: Engine.Turn)
    requires game.Length == 9
    modifies game
    ensures t == Engine.Move(old(game[..]), mv)
    ensures t.Illegal? ==> game[..] == old(game[..])
    ensures t.Won? || t.Drawn? ==> game[..] == t.placed
    ensures t.Next? ==> game[..] == t.board
  {
    ghost var before: Engine.Board := game[..];
    if mv > 8 || game[mv] != Engine.Spot.A {
      return Engine.Illegal;
    }
    game[mv] := Engine.Spot.X;
    assert game[..] == before[mv := Engine.Spot.X];
    var winner := XWins(game[..]);
    XWinsAgree(game[..]);
    if winner != GameResult.A {
      if winner == GameResult.X {
        return Engine.Won(game[..]);
      }
      return Engine.Drawn(game[..]);
    }
    Engine.FlipBoard(game);
    t := Engine.Next(game[..]);
  }

  /** `play` of src/main.rs (without its printing): the same game as in
      src/engine.rs, and it never reports `A`. */
  method Play(moves: seq<nat>, player: bool) returns (r: GameResult)
    requires |moves| >= 9
    ensures r == FromEngine(Engine.RunFrom(moves, 0, Engine.EmptyBoard, player).result)
    ensures r != GameResult.A
  {
    var game := new Engine.Spot[9](_ => Engine.Spot.A);
    assert game[..] == Engine.EmptyBoard;
    var turn := player;
    var k := 0;
    while true
      invariant k + Engine.Empties(game[..]) == 9 && Engine.Empties(game[..]) > 0
      invariant turn == Engine.FlagAt(player, k)
      invariant Engine.RunFrom(moves, k, game[..], player) == Engine.RunFrom(moves, 0, Engine.EmptyBoard, player)
      decreases Engine.Empties(game[..])
    {
      Engine.RunFromUnfold(moves, k, game[..], player);
      var t := Step(game, moves[k]);
      match t
      case Illegal => return if turn then GameResult.X else GameResult.O;
      case Won(_) => return if turn then GameResult.O else GameResult.X;
      case Drawn(_) => return GameResult.OX;
      case Next(_) =>
      turn := !turn;
      Engine.EvenStep(k + 1, k);
      k := k + 1;
    }
  }

  // ---------------------------------------------------------------------
  // The learner

  /** (wins, losses) recorded for one cell of one board. */
  type Tally = (nat, nat)

  /** The nine tallies kept for one board, one per cell. */
  type Tallies = s: seq<Tally> | |s| == 9
    witness [(0, 0), (0, 0), (0, 0), (0, 0), (0, 0), (0, 0), (0, 0), (0, 0), (0, 0)]

  /** A cell index, as the learner logs it. */
  type Cell = n: nat | n < 9

  /** The entry a board gets when it is first met. */
  const Zeros: Tallies := [(0, 0), (0, 0), (0, 0), (0, 0), (0, 0), (0, 0), (0, 0), (0, 0), (0, 0)]

  /** The live body of `wilson`: successes minus failures, out of `total`
      trials, so that the score lies between -total and total. */
  function Wilson(up: nat, total: nat): (w: int)
    requires up <= total
    ensures -(total as int) <= w <= total
  {
    up as int - (total - up)
  }

  /** The score of a cell, `wilson(win, win + loss)`. */
  function Score(t: Tally): int
  {
    Wilson(t.0, t.0 + t.1)
  }

  type Table = map<Engine.Board, Tallies>
  type Log = seq<(Engine.Board, Cell)>

  /** The tallies of board `b`, zero for a board not met yet. */
  function Row(lut: Table, b: Engine.Board): Tallies
  {
    if b in lut then lut[b] else Zeros
  }

  /** One more win, or one more loss. */
  function Bump(t: Tally, won: bool): Tally
  {
    if won then (t.0 + 1, t.1) else (t.0, t.1 + 1)
  }

  /** One logged choice fed back: a win adds one to its win count, a loss
      one to its loss count; an unknown board starts from zero. */
  function Credit(lut: Table, key: Engine.Board, choice: Cell, won: bool): Table
  {
    lut[key := Row(lut, key)[choice := Bump(Row(lut, key)[choice], won)]]
  }

  /** The table after feeding back the whole log, oldest choice first. */
  function Credited(lut: Table, cs: Log, won: bool): Table
    decreases |cs|
  {
    if cs == [] then lut
    else Credited(Credit(lut, cs[0].0, cs[0].1, won), cs[1..], won)
  }

  /** Feeding back one choice changes one tally of one board. */
  lemma CreditEntry(lut: Table, key: Engine.Board, choice: Cell, won: bool, b: Engine.Board, j: Cell)
    ensures Row(Credit(lut, key, choice, won), b)[j] ==
      if key == b && choice == j then Bump(Row(lut, b)[j], won) else Row(lut, b)[j]
  {
  }

  /** How often the pair (b, j) occurs in a log, split as first entry and
      the rest. */
  lemma CountFirst(cs: Log, b: Engine.Board, j: Cell)
    requires cs != []
    ensures multiset(cs)[(b, j)] == (if cs[0] == (b, j) then 1 else 0) + multiset(cs[1..])[(b, j)]
  {
    assert cs == [cs[0]] + cs[1..];
  }

  /** After feedback, the win count (on a win) or the loss count (on a loss)
      of every (board, cell) has grown by the number of times that pair was
      logged, and no other count has changed. */
  lemma {:induction false} CreditedCounts(lut: Table, cs: Log, won: bool, b: Engine.Board, j: Cell)
    ensures Row(Credited(lut, cs, won), b)[j] ==
      (Row(lut, b)[j].0 + (if won then multiset(cs)[(b, j)] else 0),
       Row(lut, b)[j].1 + (if won then 0 else multiset(cs)[(b, j)]))
    decreases |cs|
  {
    if cs != [] {
      var next := Credit(lut, cs[0].0, cs[0].1, won);
      CreditedCounts(next, cs[1..], won, b, j);
      CreditEntry(lut, cs[0].0, cs[0].1, won, b, j);
      CountFirst(cs, b, j);
    }
  }

  /** Feedback adds exactly the logged boards to the table: a board is in
      the new table if and only if it was in the old one or was logged. */
  lemma {:induction false} CreditedKeys(lut: Table, cs: Log, won: bool, key: Engine.Board)
    ensures key in Credited(lut, cs, won) <==> key in lut || exists i :: 0 <= i < |cs| && cs[i].0 == key
    decreases |cs|
  {
    if cs != [] {
      var next := Credit(lut, cs[0].0, cs[0].1, won);
      CreditedKeys(next, cs[1..], won, key);
      if exists i :: 0 <= i < |cs| && cs[i].0 == key {
        var i :| 0 <= i < |cs| && cs[i].0 == key;
        if i > 0 {
          assert cs[1..][i - 1].0 == key;
        }
      }
      if exists i :: 0 <= i < |cs| - 1 && cs[1..][i].0 == key {
        var i :| 0 <= i < |cs| - 1 && cs[1..][i].0 == key;
        assert cs[i + 1].0 == key;
      }
    }
  }

  /** The scan of `mv` over the nine tallies of a known board: the best
      score, and every cell that reaches it, in increasing order. */
  method BestSlots(stats: Tallies) returns (max: int, maxi: seq<nat>)
    ensures forall j :: 0 <= j < |stats| ==> Score(stats[j]) <= max
    ensures maxi != []
    ensures forall m :: 0 <= m < |maxi| ==> maxi[m] < |stats| && Score(stats[maxi[m]]) == max
    ensures forall j :: 0 <= j < |stats| && Score(stats[j]) == max ==> j in maxi
    ensures forall p, q :: 0 <= p < q < |maxi| ==> maxi[p] < maxi[q]
  {
    // Below the first score, as `-1.0/0.0` in src/main.rs is.
    max := Score(stats[0]) - 1;
    maxi := [];
    for i := 0 to |stats|
      invariant i == 0 ==> max < Score(stats[0])
      invariant i > 0 ==> maxi != []
      invariant forall j :: 0 <= j < i ==> Score(stats[j]) <= max
      invariant forall m :: 0 <= m < |maxi| ==> maxi[m] < i && Score(stats[maxi[m]]) == max
      invariant forall j :: 0 <= j < i && Score(stats[j]) == max ==> j in maxi
      invariant forall p, q :: 0 <= p < q < |maxi| ==> maxi[p] < maxi[q]
    {
      var w := Score(stats[i]);
      if w > max {
        max := w;
        maxi := [];
      }
      if w == max {
        maxi := maxi + [i];
      }
    }
  }

  /** The learner of src/main.rs: a table from boards to nine tallies and
      the log of this game's (board, choice) pairs. */
  class Ai {
    var lut: Table
    var choices: Log

    constructor ()
      ensures lut == map[] && choices == []
    {
      lut := map[];
      choices := [];
    }

    /** `feedback`: drains the log into the table, oldest choice first. */
    method Feedback(won: bool)
      modifies this
      ensures lut == Credited(old(lut), old(choices), won)
      ensures choices == []
    {
      var i := 0;
      while i < |choices|
        invariant 0 <= i <= |choices|
        invariant choices == old(choices)
        invariant Credited(lut, choices[i..], won) == Credited(old(lut), old(choices), won)
      {
        var key, choice := choices[i].0, choices[i].1;
        assert choices[i..][1..] == choices[i + 1..];
        ghost var next := Credit(lut, key, choice, won);
        var row := if key in lut then lut[key] else Zeros;
        if won {
          row := row[choice := (row[choice].0 + 1, row[choice].1)];
        } else {
          row := row[choice := (row[choice].0, row[choice].1 + 1)];
        }
        assert row == Row(lut, key)[choice := Bump(Row(lut, key)[choice], won)];
        lut := lut[key := row];
        assert lut == next;
        i := i + 1;
      }
      choices := [];
    }

    /** `mv`: on a known board, a cell among all nine (occupied ones
        included) whose score is the highest, logged; on a new board, a
        zero entry is stored and the first empty cell returned without
        being logged, or 0, logged, when the board is full. */
    method Mv(b: Engine.Board) returns (c: nat)
      modifies this
      ensures c < 9
      ensures old(b in lut) ==>
        lut == old(lut) && choices == old(choices) + [(b, c as Cell)] &&
        forall j :: 0 <= j < 9 ==> Score(lut[b][j]) <= Score(lut[b][c])
      ensures old(b !in lut) ==>
        lut == old(lut)[b := Zeros] &&
        if Engine.Spot.A in b then c == Engine.FirstEmpty(b) && choices == old(choices)
        else c == 0 && choices == old(choices) + [(b, 0 as Cell)]
    {
      if b in lut {
        var max, maxi := BestSlots(lut[b]);
        c := Rng.Choose(maxi);
      } else {
        lut := lut[b := Zeros];
        for i := 0 to 9
          invariant forall j :: 0 <= j < i ==> b[j] != Engine.Spot.A
          invariant lut == old(lut)[b := Zeros] && choices == old(choices)
        {
          if b[i] == Engine.Spot.A {
            return i;
          }
        }
        c := 0;
      }
      choices := choices + [(b, c as Cell)];
    }
  }

  /** The driver's pair of `feedback` calls after a decisive game: the
      second finds the log already drained, so each logged choice is
      counted once. */
  method FeedbackTwice(ai: Ai, won: bool)
    modifies ai
    ensures ai.lut == Credited(old(ai.lut), old(ai.choices), won)
    ensures ai.choices == []
  {
    ai.Feedback(won);
    ai.Feedback(won);
  }
}
