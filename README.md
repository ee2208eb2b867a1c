# Tic-tac-toe board engine in Dafny

A model of the tic-tac-toe engine from the dunder-data precourse projects.
The board is a 3x3 grid of one-character cells. `' '` is an empty cell and
`'x'` and `'o'` are the two marks. The engine has one operation that changes
state: `tic_tac_toe(board, mark, row, col)`. It runs its checks in a fixed
order (row, column, mark, free cell) and stops at the first one that fails.
It then writes the mark, counts the round and decides what happened. The
placed mark may have completed a row, a column or a diagonal. Otherwise the
game may be a draw (a "cats game") because nine cells are taken. Otherwise
play goes on.

The project has two files.

- `tic_tac_toe.dfy` (module `TicTacToe`) holds the abstract board, a
  `seq<seq<char>>`, with pure functions for each step and lemmas about them.
  It also holds the class `Board`, which keeps the cells in an
  `array2<char>` and updates them in place. Its loop-based methods follow
  the Python helpers loop for loop and are proved against the pure
  functions.
- `tic_tac_toe_games.dfy` (module `TicTacToeGames`) plays move lists
  against the engine. It states the four scripted games as lemmas.

The Python code raises `ValueError` on a bad placement and prints the
outcome. The model returns both instead:

- an error is `Failure(OutOfRange(Row))`, `Failure(OutOfRange(Col))`,
  `Failure(BadMark)` or `Failure(Taken)`;
- an outcome is `Success(Win(mark))`, `Success(Draw)` or
  `Success(Continue)`.

## Model

| member | source | states |
|---|---|---|
| TicTacToe.EmptyBoard | dunder-data-precourse-assignment/projects/tic-tac-toe/solution/tic_tac_toe.py:9-13 | a fresh board is 3x3, every cell is `' '`, and its round number is 0 |
| TicTacToe.VerifyRc | dunder-data-precourse-assignment/projects/tic-tac-toe/solution/tic_tac_toe.py:15-17 | a coordinate passes exactly when it is 0, 1 or 2; otherwise the error names the coordinate ("row"/"col" out of range) |
| TicTacToe.VerifyMark | dunder-data-precourse-assignment/projects/tic-tac-toe/solution/tic_tac_toe.py:19-21 | a mark passes exactly when it is `'x'` or `'o'`; otherwise the mark error |
| TicTacToe.VerifyPositionOpen | dunder-data-precourse-assignment/projects/tic-tac-toe/solution/tic_tac_toe.py:23-25 | a cell passes exactly when it holds `' '`; otherwise "Position taken!" |
| TicTacToe.Validate | dunder-data-precourse-assignment/projects/tic-tac-toe/solution/tic_tac_toe.py:64-73 | the checks run row, column, mark, free cell; each error is reported exactly when its check fails and all earlier ones pass, and no error exactly when all four pass |
| TicTacToe.RowMarks | dunder-data-precourse-assignment/projects/tic-tac-toe/solution/tic_tac_toe.py:30-31 | the count of taken cells in a row prefix is at most its length |
| TicTacToe.BoardMarks | dunder-data-precourse-assignment/projects/tic-tac-toe/solution/tic_tac_toe.py:29-31 | the count of taken cells in the first i rows is at most 3i |
| TicTacToe.RoundNumber | dunder-data-precourse-assignment/projects/tic-tac-toe/solution/tic_tac_toe.py:27-32 | the round number, the count of non-`' '` cells, lies in [0, 9] |
| TicTacToe.RowMarksZero | dunder-data-precourse-assignment/projects/tic-tac-toe/solution/tic_tac_toe.py:30-31 | a row prefix counts 0 exactly when all its cells are empty |
| TicTacToe.RowMarksFull | dunder-data-precourse-assignment/projects/tic-tac-toe/solution/tic_tac_toe.py:30-31 | a row prefix counts its full length exactly when every cell is taken |
| TicTacToe.BoardMarksZero | dunder-data-precourse-assignment/projects/tic-tac-toe/solution/tic_tac_toe.py:29-31 | the first i rows count 0 exactly when all their cells are empty |
| TicTacToe.BoardMarksFull | dunder-data-precourse-assignment/projects/tic-tac-toe/solution/tic_tac_toe.py:29-31 | the first i rows count 3i exactly when all their cells are taken |
| TicTacToe.RoundNumberZero | dunder-data-precourse-assignment/projects/tic-tac-toe/solution/tic_tac_toe.py:27-32 | the round number is 0 exactly when the board is empty |
| TicTacToe.RoundNumberNine | dunder-data-precourse-assignment/projects/tic-tac-toe/solution/tic_tac_toe.py:91 | the round number is 9 exactly when every cell is taken, the cats-game condition |
| TicTacToe.RowMarksWrite | dunder-data-precourse-assignment/projects/tic-tac-toe/solution/tic_tac_toe.py:76-79 | writing a mark into an empty cell of a row adds one to every prefix count that contains the cell and leaves the others alone |
| TicTacToe.BoardMarksWrite | dunder-data-precourse-assignment/projects/tic-tac-toe/solution/tic_tac_toe.py:76-79 | writing a mark into an empty cell adds one to the count of every group of rows that contains it |
| TicTacToe.RoundNumberWrite | dunder-data-precourse-assignment/projects/tic-tac-toe/solution/tic_tac_toe.py:76-79 | writing a mark into an empty cell adds exactly one to the round number |
| TicTacToe.Triple | dunder-data-precourse-assignment/projects/tic-tac-toe/solution/tic_tac_toe.py:40 | `mark * 3`, the string a winning line spells: three characters, each the mark |
| TicTacToe.TripleEq | dunder-data-precourse-assignment/projects/tic-tac-toe/solution/tic_tac_toe.py:40-42 | a three-character string equals `mark * 3` exactly when each character is the mark |
| TicTacToe.RowWins | dunder-data-precourse-assignment/projects/tic-tac-toe/solution/tic_tac_toe.py:39-44 | the cell-by-cell row test that `Move` decides with: some row holds the mark in all three cells; `Board.IsRowWinner` is proved equal to it and `RowWinsJoined` ties it to the joined-string comparison |
| TicTacToe.ColWins | dunder-data-precourse-assignment/projects/tic-tac-toe/solution/tic_tac_toe.py:46-54 | the cell-by-cell column test that `Move` decides with: some column holds the mark in all three cells; `Board.IsColWinner` is proved equal to it and `ColWinsJoined` ties it to the column-string comparison |
| TicTacToe.DiagWins | dunder-data-precourse-assignment/projects/tic-tac-toe/solution/tic_tac_toe.py:56-62 | the cell-by-cell diagonal test that `Move` decides with: the main or the anti-diagonal holds the mark in all three cells; `Board.IsDiagWinner` is proved equal to it and `DiagWinsJoined` ties it to `winner_str in [diag1, diag2]` |
| TicTacToe.Wins | dunder-data-precourse-assignment/projects/tic-tac-toe/solution/tic_tac_toe.py:85-87 | the or-chain of the row, column and diagonal tests for the mark just placed; `WinsIffFullLine` restates it with quantifiers over the line index |
| TicTacToe.RowWinsJoined | dunder-data-precourse-assignment/projects/tic-tac-toe/solution/tic_tac_toe.py:39-44 | some row, joined, equals `mark * 3` exactly when the cell-by-cell row test holds |
| TicTacToe.ColWinsJoined | dunder-data-precourse-assignment/projects/tic-tac-toe/solution/tic_tac_toe.py:46-54 | some column's string equals `mark * 3` exactly when the cell-by-cell column test holds |
| TicTacToe.DiagWinsJoined | dunder-data-precourse-assignment/projects/tic-tac-toe/solution/tic_tac_toe.py:56-62 | `mark * 3` is one of the two diagonal strings exactly when the cell-by-cell diagonal test holds |
| TicTacToe.WinsIffFullLine | dunder-data-precourse-assignment/projects/tic-tac-toe/solution/tic_tac_toe.py:39-62 | the win test holds exactly when some row, some column, `board[i][i]` or `board[i][2-i]` is all the mark (a quantified restatement of `Wins`, not an independent definition) |
| TicTacToe.Move | dunder-data-precourse-assignment/projects/tic-tac-toe/solution/tic_tac_toe.py:64-92 | a placement fails exactly when a check fails, reports that check's error and leaves the board unchanged; the board stays 3x3 |
| TicTacToe.MoveWritesOneCell | dunder-data-precourse-assignment/projects/tic-tac-toe/solution/tic_tac_toe.py:73-79 | an accepted placement was in range on an empty cell; it turns exactly that cell into the mark, keeps every other cell, and adds one to the round number |
| TicTacToe.MoveMonotone | dunder-data-precourse-assignment/projects/tic-tac-toe/solution/tic_tac_toe.py:66-76 | no placement, accepted or refused, changes or erases a mark, and every cell stays `' '`, `'x'` or `'o'` |
| TicTacToe.MoveOutcome | dunder-data-precourse-assignment/projects/tic-tac-toe/solution/tic_tac_toe.py:85-92 | an accepted placement reports a win for the placed mark exactly when that mark fills a line, a draw exactly when there is no such line and the board is full, and continue exactly when there is no line and a free cell |
| TicTacToe.Board.constructor | dunder-data-precourse-assignment/projects/tic-tac-toe/solution/tic_tac_toe.py:9-13 | a new board's cells hold the empty board |
| TicTacToe.Board.RoundNum | dunder-data-precourse-assignment/projects/tic-tac-toe/solution/tic_tac_toe.py:27-32 | the nested counting loop returns the round number of the board its cells hold |
| TicTacToe.Board.IsRowWinner | dunder-data-precourse-assignment/projects/tic-tac-toe/solution/tic_tac_toe.py:39-44 | the row loop returns true exactly when some row is all the mark |
| TicTacToe.Board.IsColWinner | dunder-data-precourse-assignment/projects/tic-tac-toe/solution/tic_tac_toe.py:46-54 | the column loop, building each column's string, returns true exactly when some column is all the mark |
| TicTacToe.Board.IsDiagWinner | dunder-data-precourse-assignment/projects/tic-tac-toe/solution/tic_tac_toe.py:56-62 | building both diagonals' strings, returns true exactly when the main or the anti-diagonal is all the mark |
| TicTacToe.Board.Place | dunder-data-precourse-assignment/projects/tic-tac-toe/solution/tic_tac_toe.py:64-92 | the in-place placement returns what `Move` computes on the old board, and the cells then hold the board `Move` leaves |
| TicTacToeGames.Play | dunder-data-precourse-assignment/projects/tic-tac-toe/solution/tic_tac_toe_games.py:19-68 | a game makes its moves in order until one is refused; it records at most one outcome per move, one for every move when none is refused, and leaves a 3x3 board |
| TicTacToeGames.PlayStopsAtRefusal | dunder-data-precourse-assignment/projects/tic-tac-toe/solution/tic_tac_toe.py:15-25 | a refused move raises and ends the game: the game reports that move's error, keeps the board, and makes none of the later moves |
| TicTacToeGames.RefusedMoveEndsGame | dunder-data-precourse-assignment/projects/tic-tac-toe/solution/tic_tac_toe.py:15-17 | a game whose first move is at row 5 ends with the row error on a fresh board, and the next move is never made |
| TicTacToeGames.PlayAppend | dunder-data-precourse-assignment/projects/tic-tac-toe/solution/tic_tac_toe_games.py:19-68 | when every move of the first list is accepted, playing two move lists in turn is the same as playing their concatenation |
| TicTacToeGames.PlayAppendRefused | dunder-data-precourse-assignment/projects/tic-tac-toe/solution/tic_tac_toe_games.py:19-68 | when a move of the first list is refused, moves appended after it are never played |
| TicTacToeGames.PlayCountsRounds | dunder-data-precourse-assignment/projects/tic-tac-toe/solution/tic_tac_toe.py:76-79 | a game that accepts N moves raises the round number by exactly N, never past 9, and keeps every earlier mark in place |
| TicTacToeGames.PlayFromEmpty | dunder-data-precourse-assignment/projects/tic-tac-toe/solution/tic_tac_toe.py:79 | from a fresh board the round number equals the number of accepted moves, at most 9, so a game with no refused move has at most nine moves |
| TicTacToeGames.Advance | dunder-data-precourse-assignment/projects/tic-tac-toe/solution/tic_tac_toe.py:76-92 | the scenario lemmas' unfolding step: `Move` on a board of known round number, for a valid placement onto an empty cell, gives the stated new board and round number plus one |
| TicTacToeGames.Game1 | dunder-data-precourse-assignment/projects/tic-tac-toe/solution/tic_tac_toe_games.py:19-27 | game1: four moves that continue, then x wins on the main diagonal; each move's board is given |
| TicTacToeGames.Game2Opening | dunder-data-precourse-assignment/projects/tic-tac-toe/solution/tic_tac_toe_games.py:29-37 | game2, moves one to five: each lets play continue; each move's board is given |
| TicTacToeGames.Game2Endgame | dunder-data-precourse-assignment/projects/tic-tac-toe/solution/tic_tac_toe_games.py:38-43 | game2, moves six to nine: three continue and the ninth, with no line, reports a cats game |
| TicTacToeGames.Game3 | dunder-data-precourse-assignment/projects/tic-tac-toe/solution/tic_tac_toe_games.py:45-56 | game3: five moves that continue, then o wins on row 2 |
| TicTacToeGames.Game4 | dunder-data-precourse-assignment/projects/tic-tac-toe/solution/tic_tac_toe_games.py:58-68 | game4: four moves that continue, then x wins on column 1 |
| TicTacToeGames.PlayAfterWin | dunder-data-precourse-assignment/projects/tic-tac-toe/solution/tic_tac_toe.py:85-92 | a board where o already holds a row still accepts a move by x, which reports continue: only the placed mark is tested and a decided game is not guarded |

## Left out

- `output_board` and the `print` calls for the winner and the cats game are not modelled. They only display things; the model returns the outcome instead.
- The command-line driver of `tic_tac_toe_games.py` is not modelled, because it is I/O and reflection: it reads `sys.argv`, checks for digits and a range, and finds the `gameN` functions through `inspect` and `globals()`.
- A refused move raises `ValueError` in the source and nothing catches it, so the game stops there. `Play` models this by ending the run with the error. The traceback and the process exit are not modelled.
- The games use the module-level `board` in the driver file, and game1 and game2 share it. The driver runs one game per process, so each scenario lemma starts from an empty board.
- The scenario lemmas play the games through `Move` on the abstract board, not through `Board.Place` on an array. `Place` is proved to compute exactly `Move`, so each game's results carry over.
- Python's loose typing is not modelled. Rows and columns are `int` and marks are `char`. The model has no non-integer coordinates, no multi-character marks and no negative list indexing, since the range check runs before any indexing anyway.
- `Board.Valid` also demands that every cell is `' '`, `'x'` or `'o'`. The Python board is a plain list that a caller could fill with anything. The class keeps its cells to itself, and no placement can break this invariant (`MoveMonotone`).
- Placing a mark after a game has been won or drawn is accepted, as in the source (`PlayAfterWin`).
- `verify_position_open` is modelled by `VerifyPositionOpen` on the abstract board. In `Board.Place` it is a direct read of the array cell.
