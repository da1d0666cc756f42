# tttai in Dafny

This project models the core of tttai, a tic-tac-toe program in which
learning players play against each other. The board always shows the side
to move as `X`; after every move it is flipped so that the other side sees
itself as `X`. The project has four modules:

- `Engine` (src/engine.rs) holds:
  - the nine-cell board;
  - `flip_board`, modelled as an in-place method on an array;
  - `x_wins` and its meaning in terms of rows, columns and diagonals;
  - the string that `prgame` builds;
  - the game loop `play`, modelled as an imperative method. It is proved
    equal to a recursive specification (`RunFrom`). A lemma shows that
    every game ends by the rules: an illegal proposal loses, a completed
    line wins, and a full board without a line is a draw.
- `Classic` (src/main.rs) holds:
  - the file's own `x_wins`, whose "in progress" answer is `A`, proved to
    agree with the engine's;
  - its copy of `play`;
  - the learner `Ai`. It keeps nine (win, loss) tallies per board and a
    log of this game's choices. `feedback` drains the log into the table.
    `mv` picks a best-scoring cell on a known board; on a new board it
    picks the first empty cell. The score `wilson` is win − loss.
- `Agents` (src/ai.rs) holds:
  - the learner `Ai`, which keeps one (good, bad) pair per board. `mv`
    gathers "slack-3" candidates. `feedback` alternates between the two
    slots along the given boards.
  - `RngAi::mv`, which plays a cell that wins at once and otherwise plays
    a random empty cell.
- `Rng` holds the random source, `choose(..).unwrap_or(&0)`. It is
  modelled as a method that returns some element of a non-empty sequence,
  or 0 for the empty one.

The two players of `play` are modelled as a script `moves`. Entry `k` is
the cell proposed at step `k`, by the side that `FlagAt(first, k)` names. A
game asks for at most nine proposals, so the script has at least nine
entries.

Where the code and its description differ, the model follows the code:

- In src/ai.rs, `feedback` with `scale` 0 still inserts a zero pair for
  every logged board it has not seen. `Agents.ZeroScale` states this.
- The candidate list of `Ai::mv` in src/ai.rs is restarted whenever a
  higher score appears. A cell scored before the last such rise is not a
  candidate, even when it is within 3 of the final best. `Agents.Ai.Candidates` states exactly
  which cells are.
- In src/main.rs, the driver calls `feedback` twice after a decisive game.
  The second call finds the log already drained and changes nothing.
  `Classic.FeedbackTwice` states this.

## Model

| member | source | states |
|---|---|---|
| Engine.HasEmptyIsMember | src/engine.rs:49 | the cell-by-cell emptiness test equals `b.contains(&Spot::A)` |
| Engine.FirstEmpty | src/main.rs:121-123 | the index returned is an empty cell and no earlier cell is empty |
| Engine.FlipBoard | src/engine.rs:29-37 | after the in-place loop the array is the flipped board of its old contents (the `flip_board` of src/main.rs:132-140 is identical) |
| Engine.FlipInvolution | src/engine.rs:31-35 | flipping swaps O and X, keeps empty cells, and flipping twice is the identity |
| Engine.XLineIsLine | src/engine.rs:40-48 | the eight patterns of the match are exactly "some row, some column or one of the two diagonals is all X" |
| Engine.XWins | src/engine.rs:39-51 | `x_wins` as written: the eight arms of the match give `X`, otherwise `O` while `b.contains(&Spot::A)`, else `OX`; its meaning is stated by `Engine.XWinsMeaning` |
| Engine.XWinsMeaning | src/engine.rs:39-51 | `x_wins` is `X` iff some line is all X, `O` iff there is no line and an empty cell remains, `OX` iff there is no line and the board is full |
| Engine.Render | src/engine.rs:16-27 | the string built has three lines of three characters, each ended by a newline, with cell `i` shown as O, X or `-` at position `i + i/3` |
| Engine.ReadDepicted | src/engine.rs:18-25 | the picture determines the board: reading it back gives the board drawn |
| Engine.Move | src/engine.rs:57-76 | a proposal is refused iff it is above 8 or names a non-empty cell; a move that goes on yields the flipped board with X placed, with one empty cell fewer and at least one left |
| Engine.MoveEnds | src/engine.rs:65-74 | a win carries the placed board and it has a line; a draw carries a full board without a line; a game that goes on has no line and an empty cell |
| Engine.PlaceAndFlip | src/engine.rs:65-75 | after placing and flipping, the played cell is O; every other cell is the flip of its old value; one empty cell fewer remains |
| Engine.EmptiesPlaced | src/engine.rs:65 | placing X on an empty cell leaves one empty cell fewer |
| Engine.EmptiesFlipped | src/engine.rs:75 | flipping keeps the number of empty cells |
| Engine.EvenIsMod | src/engine.rs:76 | the parity used for the turn flag toggled by `player ^= true` is `n % 2 == 0` |
| Engine.RunFrom | src/engine.rs:53-78 | the game loop from step `k` on ends after more than `k` and at most nine proposals |
| Engine.StopEnding | src/engine.rs:58-74 | a proposal that stops the game stops it by the rules: a forfeit loses for the proposer, a line wins for the proposer, a full board is a draw |
| Engine.RunFromEnding | src/engine.rs:53-78 | every game ends by the rules: the result matches how it ended and the side of the last proposal |
| Engine.Step | src/engine.rs:57-76 | one pass of the loop body on the array computes the turn the specification gives; an illegal proposal leaves the array unchanged, a win or a draw leaves the placed board in it, and "go on" leaves the flipped board |
| Engine.Play | src/engine.rs:53-78 | `play` on the array returns the result of the specified game |
| Classic.XWins | src/main.rs:142-154 | this file's `x_wins` as written: the same eight arms give `X`, otherwise `A` while a cell is empty, else `OX`; its meaning is stated by `Classic.XWinsMeaning` |
| Classic.XWinsMeaning | src/main.rs:142-154 | this `x_wins` never answers `O`; it answers `X` iff there is a line, `A` iff there is no line and an empty cell remains, `OX` iff there is no line and the board is full |
| Classic.XWinsAgree | src/main.rs:152 | the two `x_wins` agree, with `A` in src/main.rs where src/engine.rs says `O` |
| Classic.Step | src/main.rs:160-176 | one pass of this loop body, with the test `winner != A`, gives the same turn as the engine's; an illegal proposal leaves the array unchanged, a win or a draw leaves the placed board in it, and "go on" leaves the flipped board |
| Classic.Play | src/main.rs:156-178 | this `play` returns the result of the engine's specified game and never `A` |
| Classic.Wilson | src/main.rs:80-86 | the live body `up - (total - up)` lies between -total and total |
| Classic.CreditEntry | src/main.rs:38-57 | feeding back one choice bumps the win or loss count of that one (board, cell) and changes no other tally |
| Classic.CreditedCounts | src/main.rs:36-59 | after `feedback`, each (board, cell) has gained as many wins (on a win) or losses (on a loss) as times it was logged, and nothing else |
| Classic.CreditedKeys | src/main.rs:38-56 | after `feedback`, a board is in the table iff it was there before or was logged |
| Classic.BestSlots | src/main.rs:104-115 | on a known board, the scan returns the highest score and, in increasing order, exactly the cells that reach it |
| Classic.Ai.constructor | src/main.rs:29-35 | a new learner has an empty table and an empty log |
| Classic.Ai.Feedback | src/main.rs:36-59 | the table becomes the old table credited with the whole log, oldest first, and the log is emptied |
| Classic.Ai.Mv | src/main.rs:99-130 | on a known board: a highest-scoring cell, logged, table unchanged. On a new board: nine zero tallies are stored, and the first empty cell is returned unlogged, or 0 is returned and logged on a full board |
| Classic.FeedbackTwice | src/main.rs:192-195 | two `feedback` calls in a row credit each logged choice once and leave the log empty |
| Agents.HitsLast | src/ai.rs:94 | a board at position `k` of the list counts in slot 0 exactly when `k` has the parity that the starting flag selects |
| Agents.HitsTotal | src/ai.rs:94 | every occurrence of a board is counted in exactly one of the two slots |
| Agents.RewardedCounts | src/ai.rs:88-104 | after `feedback`, each board's two slots have gained `scale` times its occurrences at even and at odd positions (swapped when the flag starts false) |
| Agents.RewardedKeys | src/ai.rs:90-100 | after `feedback`, a board is in the table iff it was there before or is in the list |
| Agents.Untouched | src/ai.rs:89-103 | a board not in the list keeps its entry, or stays absent |
| Agents.ZeroScale | src/ai.rs:94-98 | with `scale` 0 no pair changes value, yet every listed board is now in the table |
| Agents.Ai.constructor | src/ai.rs:14-19 | a new learner has an empty table |
| Agents.Ai.Candidates | src/ai.rs:65-84 | the candidates are empty iff the board is full; they are empty cells in increasing order; `max` is the best score of an empty cell and the first candidate's score; no earlier empty cell reaches `max`; an empty cell is a candidate iff it is not before the first candidate and scores within 3 of `max` |
| Agents.Ai.Mv | src/ai.rs:63-86 | `mv` returns 0 on a full board; otherwise it returns an empty cell, no empty cell scores 3 or more above it, and some best-scoring empty cell lies at or before it, so a cell scored before the last rise of `max` is never returned |
| Agents.Ai.Feedback | src/ai.rs:88-104 | the table becomes the specified fold of the rewards over the list, the flag toggled after every board |
| Agents.WinsAtMeaning | src/ai.rs:114-116 | the test `testb.x_wins() == GameResult::X` holds iff playing there completes a line |
| Agents.RngMove | src/ai.rs:107-125 | if some empty cell wins at once, the lowest such cell is returned; otherwise some empty cell, or 0 on a full board |
| Rng.Choose | src/ai.rs:85 | `choose(..).unwrap_or(&0)` gives an element of a non-empty slice and 0 for an empty one |

## Left out

- Printing is left out: `prgame`'s `print!`, the `prwin` messages of `play`, the debug `println!` in `Ai::mv` of src/main.rs, and the messages of `main`. Only the string that `prgame` builds is modelled.
- `Human::mv` in both files is left out. It reads standard input and retries on bad input.
- `NeuralAi` and `sigmoid` are left out: they work on floating point.
- The commented-out Wilson bound is not modelled. `wilson` is modelled on integers, as its live body `up - (total - up)` computes on whole-number inputs.
- The driver `main` of src/main.rs is not modelled; it loops forever. Its doubled `feedback` calls are modelled by `Classic.FeedbackTwice`.
- The `Player` trait is not modelled. Each game's proposals are a sequence of cell numbers, one per step; `Engine.Play` and `Classic.Play` require at least nine of them, the most a game asks for. The trait's default `feedback(i32)` in src/engine.rs has a body that does nothing, so leaving it out loses no behaviour.
- The random generators are not modelled. `Rng.Choose` only promises an element of the slice, and which one is left open.
- `Engine.Play`, `Classic.Play`: players that adapt to the board they are shown are not modelled. The script fixes the proposals in advance, so the results hold for every sequence of proposals rather than for every strategy.
- `Agents.Ai.Feedback`, `Agents.RewardedCounts`: the `u32` counters are unbounded here. `+= scale` overflow, a panic or a wrap-around in Rust, is not modelled.
- `Classic.Ai.Feedback`, `Classic.CreditedCounts`: the `u32` tallies are unbounded here, so their overflow is not modelled.
- `Agents.Ai.Candidates`: the `isize` score `wl[0] - wl[1]` is an unbounded integer here. The starting value `isize::min_value()` is modelled as "no candidate yet"; every real score lies above it.
- `Classic.Ai.Mv`: the `(win+loss) as f64` of the score is computed on exact integers, so there is no rounding.
- The `u8` conversions of cell indices are not modelled. Every index is below 9, so they are exact.
- src/main.rs keeps its own `Spot` and `flip_board`, identical to those of src/engine.rs; the model uses the single definitions in `Engine`.
