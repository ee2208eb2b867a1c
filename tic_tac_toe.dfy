/** The tic-tac-toe board engine: a 3x3 grid of one-character cells, where
    ' ' is an empty cell and 'x' and 'o' are the two marks.

    The pure functions below work on the abstract board, a sequence of three
    rows of three characters; the class Board keeps the board in an array2
    and updates it in place, and its methods are proved against those
    functions. */
module TicTacToe {

  /** An empty cell. */
  const EMPTY: char := ' '

  datatype Option<T> = None | Some(value: T)

  datatype Result<T, E> = Success(value: T) | Failure(error: E)

  /** Which coordinate a range check is about ("row" or "col"). */
  datatype Axis = Row | Col

  /** Why a placement was refused: "<name> out of range",
      "mark must be x or o", "Position taken!". */
  datatype PlaceError = OutOfRange(name: Axis) | BadMark | Taken

  /** What a successful placement reports: play goes on, "Winner is <mark>!",
      or "Cats game!". */
  datatype Outcome = Continue | Win(mark: char) | Draw

  /** A placement's result together with the board after it. */
  datatype Step = Step(result: Result<Outcome, PlaceError>, grid: seq<seq<char>>)

  /** A move as the driver passes it to the engine. */
  datatype MoveArgs = MoveArgs(mark: char, row: int, col: int)

  // ---------------------------------------------------------------------
  // The abstract board
  // ---------------------------------------------------------------------

  predicate IsGrid(g: seq<seq<char>>)
  {
    |g| == 3 && forall i :: 0 <= i < 3 ==> |g[i]| == 3
  }

  /** Every cell is empty or holds one of the two marks. */
  predicate WellFormed(g: seq<seq<char>>)
  {
    IsGrid(g) && forall i, j :: 0 <= i < 3 && 0 <= j < 3 ==> g[i][j] in {EMPTY, 'x', 'o'}
  }

  /** Every cell is taken. */
  predicate Full(g: seq<seq<char>>)
    requires IsGrid(g)
  {
    forall i, j :: 0 <= i < 3 && 0 <= j < 3 ==> g[i][j] != EMPTY
  }

  /** g2 keeps every mark of g1: cells only go from empty to a mark. */
  predicate Extends(g1: seq<seq<char>>, g2: seq<seq<char>>)
    requires IsGrid(g1) && IsGrid(g2)
  {
    forall i, j :: 0 <= i < 3 && 0 <= j < 3 && g1[i][j] != EMPTY ==> g2[i][j] == g1[i][j]
  }

  /** A fresh board (create_empty_board). */
  function EmptyBoard(): (g: seq<seq<char>>)
    ensures WellFormed(g)
    ensures forall i, j :: 0 <= i < 3 && 0 <= j < 3 ==> g[i][j] == EMPTY
    ensures RoundNumber(g) == 0
  {
    var g := [[EMPTY, EMPTY, EMPTY],
              [EMPTY, EMPTY, EMPTY],
              [EMPTY, EMPTY, EMPTY]];
    RoundNumberZero(g);
    g
  }

  // ---------------------------------------------------------------------
  // Validation
  // ---------------------------------------------------------------------

  /** verify_rc: a coordinate must be one of 0, 1, 2. */
  function VerifyRc(v: int, name: Axis): (r: Option<PlaceError>)
    ensures r.None? <==> v in {0, 1, 2}
    ensures r.Some? ==> r.value == OutOfRange(name)
  {
    if 0 <= v < 3 then None else Some(OutOfRange(name))
  }

  /** verify_mark: the mark must be 'x' or 'o'. */
  function VerifyMark(mark: char): (r: Option<PlaceError>)
    ensures r.None? <==> mark in {'x', 'o'}
    ensures r.Some? ==> r.value == BadMark
  {
    if mark == 'x' || mark == 'o' then None else Some(BadMark)
  }

  /** verify_position_open: the target cell must be empty. */
  function VerifyPositionOpen(g: seq<seq<char>>, row: int, col: int): (r: Option<PlaceError>)
    requires IsGrid(g) && 0 <= row < 3 && 0 <= col < 3
    ensures r.None? <==> g[row][col] == EMPTY
    ensures r.Some? ==> r.value == Taken
  {
    if g[row][col] != EMPTY then Some(Taken) else None
  }

  /** The four checks of a placement in the order they run; the first one
      that fails decides the error. */
  function Validate(g: seq<seq<char>>, mark: char, row: int, col: int): (r: Option<PlaceError>)
    requires IsGrid(g)
    ensures r == Some(OutOfRange(Row)) <==> !(0 <= row < 3)
    ensures r == Some(OutOfRange(Col)) <==> 0 <= row < 3 && !(0 <= col < 3)
    ensures r == Some(BadMark) <==> 0 <= row < 3 && 0 <= col < 3 && mark != 'x' && mark != 'o'
    ensures r == Some(Taken) <==>
      0 <= row < 3 && 0 <= col < 3 && (mark == 'x' || mark == 'o') && g[row][col] != EMPTY
    ensures r == None <==>
      0 <= row < 3 && 0 <= col < 3 && (mark == 'x' || mark == 'o') && g[row][col] == EMPTY
  {
    if VerifyRc(row, Row).Some? then VerifyRc(row, Row)
    else if VerifyRc(col, Col).Some? then VerifyRc(col, Col)
    else if VerifyMark(mark).Some? then VerifyMark(mark)
    else VerifyPositionOpen(g, row, col)
  }

  // ---------------------------------------------------------------------
  // Round number: the count of non-empty cells
  // ---------------------------------------------------------------------

  /** Number of non-empty cells among the first j cells of a row. */
  function RowMarks(row: seq<char>, j: nat): (n: nat)
    requires j <= |row|
    ensures n <= j
  {
    if j == 0 then 0
    else RowMarks(row, j - 1) + (if row[j - 1] != EMPTY then 1 else 0)
  }

  /** Number of non-empty cells in the first i rows of the board. */
  function BoardMarks(g: seq<seq<char>>, i: nat): (n: nat)
    requires IsGrid(g) && i <= 3
    ensures n <= 3 * i
  {
    if i == 0 then 0
    else BoardMarks(g, i - 1) + RowMarks(g[i - 1], 3)
  }

  /** get_round_num: the number of non-empty cells on the board, at most 9. */
  function RoundNumber(g: seq<seq<char>>): (n: nat)
    requires IsGrid(g)
    ensures n <= 9
  {
    BoardMarks(g, 3)
  }

  /** A row prefix has no marks exactly when all of its cells are empty. */
  lemma {:induction false} RowMarksZero(row: seq<char>, j: nat)
    requires j <= |row|
    ensures RowMarks(row, j) == 0 <==> forall k :: 0 <= k < j ==> row[k] == EMPTY
  {
    if j > 0 {
      RowMarksZero(row, j - 1);
    }
  }

  /** A row prefix has a mark in every cell exactly when its count equals its length. */
  lemma {:induction false} RowMarksFull(row: seq<char>, j: nat)
    requires j <= |row|
    ensures RowMarks(row, j) == j <==> forall k :: 0 <= k < j ==> row[k] != EMPTY
  {
    if j > 0 {
      RowMarksFull(row, j - 1);
    }
  }

  lemma {:induction false} BoardMarksZero(g: seq<seq<char>>, i: nat)
    requires IsGrid(g) && i <= 3
    ensures BoardMarks(g, i) == 0 <==>
      forall r, c :: 0 <= r < i && 0 <= c < 3 ==> g[r][c] == EMPTY
  {
    if i > 0 {
      BoardMarksZero(g, i - 1);
      RowMarksZero(g[i - 1], 3);
    }
  }

  lemma {:induction false} BoardMarksFull(g: seq<seq<char>>, i: nat)
    requires IsGrid(g) && i <= 3
    ensures BoardMarks(g, i) == 3 * i <==>
      forall r, c :: 0 <= r < i && 0 <= c < 3 ==> g[r][c] != EMPTY
  {
    if i > 0 {
      BoardMarksFull(g, i - 1);
      RowMarksFull(g[i - 1], 3);
    }
  }

  /** The round number is 0 exactly when every cell is empty. */
  lemma RoundNumberZero(g: seq<seq<char>>)
    requires IsGrid(g)
    ensures RoundNumber(g) == 0 <==>
      forall i, j :: 0 <= i < 3 && 0 <= j < 3 ==> g[i][j] == EMPTY
  {
    BoardMarksZero(g, 3);
  }

  /** The round number is 9 exactly when the board is full (the "cats game"
      condition). */
  lemma RoundNumberNine(g: seq<seq<char>>)
    requires IsGrid(g)
    ensures RoundNumber(g) == 9 <==> Full(g)
  {
    BoardMarksFull(g, 3);
  }

  /** Writing a mark into an empty cell adds one to the count of every row
      prefix that contains the cell. */
  lemma {:induction false} RowMarksWrite(row: seq<char>, j: nat, k: int, c: char)
    requires j <= |row| && 0 <= k < |row| && row[k] == EMPTY && c != EMPTY
    ensures RowMarks(row[k := c], j) == RowMarks(row, j) + (if k < j then 1 else 0)
  {
    if j > 0 {
      RowMarksWrite(row, j - 1, k, c);
    }
  }

  lemma {:induction false} BoardMarksWrite(g: seq<seq<char>>, i: nat, row: int, col: int, c: char)
    requires IsGrid(g) && i <= 3 && 0 <= row < 3 && 0 <= col < 3
    requires g[row][col] == EMPTY && c != EMPTY
    ensures IsGrid(g[row := g[row][col := c]])
    ensures BoardMarks(g[row := g[row][col := c]], i) == BoardMarks(g, i) + (if row < i then 1 else 0)
  {
    var g' := g[row := g[row][col := c]];
    if i > 0 {
      BoardMarksWrite(g, i - 1, row, col, c);
      if i - 1 == row {
        RowMarksWrite(g[row], 3, col, c);
      } else {
        assert g'[i - 1] == g[i - 1];
      }
    }
  }

  /** Writing a mark into an empty cell of the board adds one to the round number. */
  lemma RoundNumberWrite(g: seq<seq<char>>, row: int, col: int, c: char)
    requires IsGrid(g) && 0 <= row < 3 && 0 <= col < 3
    requires g[row][col] == EMPTY && c != EMPTY
    ensures IsGrid(g[row := g[row][col := c]])
    ensures RoundNumber(g[row := g[row][col := c]]) == RoundNumber(g) + 1
  {
    BoardMarksWrite(g, 3, row, col, c);
  }

  // ---------------------------------------------------------------------
  // Winning lines
  // ---------------------------------------------------------------------

  /** The string a winning line spells (mark * 3). */
  function Triple(mark: char): (t: seq<char>)
    ensures |t| == 3 && forall k :: 0 <= k < 3 ==> t[k] == mark
  {
    [mark, mark, mark]
  }

  /** Row r holds the mark in all three cells. */
  predicate RowFull(g: seq<seq<char>>, r: int, mark: char)
    requires IsGrid(g) && 0 <= r < 3
  {
    g[r][0] == mark && g[r][1] == mark && g[r][2] == mark
  }

  /** Column c holds the mark in all three cells. */
  predicate ColFull(g: seq<seq<char>>, c: int, mark: char)
    requires IsGrid(g) && 0 <= c < 3
  {
    g[0][c] == mark && g[1][c] == mark && g[2][c] == mark
  }

  /** is_row_winner, cell by cell: some row is full of the mark. This is
      the row test that Move uses; RowWinsJoined ties it to the source's
      string comparison and Board.IsRowWinner is its loop. */
  predicate RowWins(g: seq<seq<char>>, mark: char)
    requires IsGrid(g)
  {
    RowFull(g, 0, mark) || RowFull(g, 1, mark) || RowFull(g, 2, mark)
  }

  /** is_col_winner, cell by cell: some column is full of the mark; see
      ColWinsJoined and Board.IsColWinner. */
  predicate ColWins(g: seq<seq<char>>, mark: char)
    requires IsGrid(g)
  {
    ColFull(g, 0, mark) || ColFull(g, 1, mark) || ColFull(g, 2, mark)
  }

  /** is_diag_winner, cell by cell: the main diagonal (0,0)-(1,1)-(2,2) or
      the anti-diagonal (0,2)-(1,1)-(2,0) is full of the mark; see
      DiagWinsJoined and Board.IsDiagWinner. */
  predicate DiagWins(g: seq<seq<char>>, mark: char)
    requires IsGrid(g)
  {
    (g[0][0] == mark && g[1][1] == mark && g[2][2] == mark) ||
    (g[0][2] == mark && g[1][1] == mark && g[2][0] == mark)
  }

  /** The engine's win test for the mark just placed: row, then column,
      then diagonal, as the or-chain of the placement decides it. */
  predicate Wins(g: seq<seq<char>>, mark: char)
    requires IsGrid(g)
  {
    RowWins(g, mark) || ColWins(g, mark) || DiagWins(g, mark)
  }

  /** Wins restated with quantifiers over the line index instead of three
      unrolled cases: some row, some column, the main diagonal g[i][i] or
      the anti-diagonal g[i][2-i] holds the mark in all three cells. It is
      not an independent definition; it only adds the g[i][2-i] spelling of
      the anti-diagonal, which is how the source indexes it. */
  predicate FullLine(g: seq<seq<char>>, mark: char)
    requires IsGrid(g)
  {
    (exists r :: 0 <= r < 3 && g[r][0] == mark && g[r][1] == mark && g[r][2] == mark) ||
    (exists c :: 0 <= c < 3 && g[0][c] == mark && g[1][c] == mark && g[2][c] == mark) ||
    (forall i :: 0 <= i < 3 ==> g[i][i] == mark) ||
    (forall i :: 0 <= i < 3 ==> g[i][2 - i] == mark)
  }

  lemma TripleEq(s: seq<char>, mark: char)
    requires |s| == 3
    ensures s == Triple(mark) <==> forall k :: 0 <= k < 3 ==> s[k] == mark
  {
  }

  /** Wins agrees with its quantified restatement FullLine. */
  lemma WinsIffFullLine(g: seq<seq<char>>, mark: char)
    requires IsGrid(g)
    ensures Wins(g, mark) <==> FullLine(g, mark)
  {
  }

  /** The source's row test joins each row and compares it with mark * 3;
      it holds exactly when the cell-by-cell RowWins does. */
  lemma RowWinsJoined(g: seq<seq<char>>, mark: char)
    requires IsGrid(g)
    ensures RowWins(g, mark) <==> exists r :: 0 <= r < 3 && g[r] == Triple(mark)
  {
  }

  /** The source's column test builds each column's string and compares
      it with mark * 3; it holds exactly when ColWins does. */
  lemma ColWinsJoined(g: seq<seq<char>>, mark: char)
    requires IsGrid(g)
    ensures ColWins(g, mark) <==>
      exists c :: 0 <= c < 3 && [g[0][c], g[1][c], g[2][c]] == Triple(mark)
  {
  }

  /** The source's diagonal test builds both diagonals' strings and looks
      for mark * 3 among them; it holds exactly when DiagWins does. */
  lemma DiagWinsJoined(g: seq<seq<char>>, mark: char)
    requires IsGrid(g)
    ensures DiagWins(g, mark) <==>
      Triple(mark) in [[g[0][0], g[1][1], g[2][2]], [g[0][2], g[1][1], g[2][0]]]
  {
  }

  // ---------------------------------------------------------------------
  // One placement
  // ---------------------------------------------------------------------

  /** tic_tac_toe(board, mark, row, col) on the abstract board: validate,
      write the mark, count the round, decide the outcome. A refused
      placement reports the first failing check and leaves the board alone. */
  function Move(g: seq<seq<char>>, mark: char, row: int, col: int): (s: Step)
    requires IsGrid(g)
    ensures IsGrid(s.grid)
    ensures s.result.Failure? <==> Validate(g, mark, row, col).Some?
    ensures s.result.Failure? ==> Validate(g, mark, row, col) == Some(s.result.error) && s.grid == g
  {
    match Validate(g, mark, row, col)
    case Some(e) => Step(Failure(e), g)
    case None =>
      var g' := g[row := g[row][col := mark]];
      var roundNum := RoundNumber(g');
      if Wins(g', mark) then Step(Success(Win(mark)), g')
      else if roundNum == 9 then Step(Success(Draw), g')
      else Step(Success(Continue), g')
  }

  /** An accepted placement turns exactly the target cell from empty into the
      mark, keeps every other cell, and adds one to the round number. */
  lemma MoveWritesOneCell(g: seq<seq<char>>, mark: char, row: int, col: int)
    requires IsGrid(g)
    requires Move(g, mark, row, col).result.Success?
    ensures var g' := Move(g, mark, row, col).grid;
      0 <= row < 3 && 0 <= col < 3 && g[row][col] == EMPTY && g'[row][col] == mark &&
      (forall i, j :: 0 <= i < 3 && 0 <= j < 3 && (i != row || j != col) ==> g'[i][j] == g[i][j]) &&
      RoundNumber(g') == RoundNumber(g) + 1
  {
    RoundNumberWrite(g, row, col, mark);
  }

  /** No placement, accepted or refused, erases or changes a mark, and none
      puts anything but a mark on the board. */
  lemma MoveMonotone(g: seq<seq<char>>, mark: char, row: int, col: int)
    requires IsGrid(g)
    ensures Extends(g, Move(g, mark, row, col).grid)
    ensures WellFormed(g) ==> WellFormed(Move(g, mark, row, col).grid)
  {
    if Move(g, mark, row, col).result.Success? {
      MoveWritesOneCell(g, mark, row, col);
    }
  }

  /** The outcome of an accepted placement: a win for the mark just placed
      exactly when it completes a line, otherwise a draw exactly when the
      board is full, otherwise play continues. */
  lemma MoveOutcome(g: seq<seq<char>>, mark: char, row: int, col: int)
    requires IsGrid(g)
    requires Move(g, mark, row, col).result.Success?
    ensures var s := Move(g, mark, row, col);
      (s.result.value == Win(mark) <==> FullLine(s.grid, mark)) &&
      (s.result.value == Draw <==> !FullLine(s.grid, mark) && Full(s.grid)) &&
      (s.result.value == Continue <==> !FullLine(s.grid, mark) && !Full(s.grid))
  {
    var g' := Move(g, mark, row, col).grid;
    RoundNumberNine(g');
    WinsIffFullLine(g', mark);
  }

  // ---------------------------------------------------------------------
  // The board, updated in place
  // ---------------------------------------------------------------------

  class Board {
    /** The cells, row by row. */
    var cells: array2<char>
    /** The abstract board the cells hold. */
    ghost var grid: seq<seq<char>>

    ghost predicate Valid()
      reads this, cells
    {
      cells.Length0 == 3 && cells.Length1 == 3 && WellFormed(grid) &&
      forall i, j :: 0 <= i < 3 && 0 <= j < 3 ==> grid[i][j] == cells[i, j]
    }

    /** create_empty_board */
    constructor ()
      ensures Valid() && fresh(cells)
      ensures grid == EmptyBoard()
    {
      cells := new char[3, 3]((i, j) => EMPTY);
      grid := EmptyBoard();
    }

    /** get_round_num: count the taken cells, row by row. */
    method RoundNum() returns (n: nat)
      requires Valid()
      ensures n == RoundNumber(grid)
    {
      n := 0;
      for i := 0 to 3
        invariant n == BoardMarks(grid, i)
      {
        for j := 0 to 3
          invariant n == BoardMarks(grid, i) + RowMarks(grid[i], j)
        {
          if cells[i, j] != EMPTY {
            n := n + 1;
          }
        }
      }
    }

    /** is_row_winner: compare each row, joined, with mark * 3. */
    method IsRowWinner(mark: char) returns (b: bool)
      requires Valid()
      ensures b == RowWins(grid, mark)
    {
      var winner := Triple(mark);
      for i := 0 to 3
        invariant forall k :: 0 <= k < i ==> !RowFull(grid, k, mark)
      {
        var row := [cells[i, 0], cells[i, 1], cells[i, 2]];
        TripleEq(row, mark);
        if row == winner {
          return true;
        }
      }
      return false;
    }

    /** is_col_winner: build each column's string cell by cell. */
    method IsColWinner(mark: char) returns (b: bool)
      requires Valid()
      ensures b == ColWins(grid, mark)
    {
      var winner := Triple(mark);
      for i := 0 to 3
        invariant forall k :: 0 <= k < i ==> !ColFull(grid, k, mark)
      {
        var marks := [];
        for j := 0 to 3
          invariant |marks| == j
          invariant forall r :: 0 <= r < j ==> marks[r] == grid[r][i]
        {
          marks := marks + [cells[j, i]];
        }
        TripleEq(marks, mark);
        if marks == winner {
          return true;
        }
      }
      return false;
    }

    /** is_diag_winner: build both diagonals' strings, then look for mark * 3. */
    method IsDiagWinner(mark: char) returns (b: bool)
      requires Valid()
      ensures b == DiagWins(grid, mark)
    {
      var winner := Triple(mark);
      var diag1, diag2 := [], [];
      for i := 0 to 3
        invariant |diag1| == i && |diag2| == i
        invariant forall k :: 0 <= k < i ==> diag1[k] == grid[k][k] && diag2[k] == grid[k][2 - k]
      {
        diag1 := diag1 + [cells[i, i]];
        diag2 := diag2 + [cells[i, 2 - i]];
      }
      TripleEq(diag1, mark);
      TripleEq(diag2, mark);
      b := winner in [diag1, diag2];
    }

    /** tic_tac_toe(board, mark, row, col): check, write, count, decide. */
    method Place(mark: char, row: int, col: int) returns (r: Result<Outcome, PlaceError>)
      requires Valid()
      modifies this, cells
      ensures Valid() && cells == old(cells)
      ensures Step(r, grid) == Move(old(grid), mark, row, col)
    {
      var e := VerifyRc(row, Row);
      if e.Some? {
        return Failure(e.value);
      }
      e := VerifyRc(col, Col);
      if e.Some? {
        return Failure(e.value);
      }
      e := VerifyMark(mark);
      if e.Some? {
        return Failure(e.value);
      }
      if cells[row, col] != EMPTY {
        return Failure(Taken);
      }

      cells[row, col] := mark;
      grid := grid[row := grid[row][col := mark]];

      var roundNum := RoundNum();

      var win := IsRowWinner(mark);
      if !win {
        win := IsColWinner(mark);
      }
      if !win {
        win := IsDiagWinner(mark);
      }
      if win {
        r := Success(Win(mark));
      } else if roundNum == 9 {
        r := Success(Draw);
      } else {
        r := Success(Continue);
      }
    }
  }
}
