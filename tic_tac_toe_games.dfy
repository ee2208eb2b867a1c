/** The scripted games played against the board engine. Each game starts
    from a fresh board and makes its moves one after another; the outcome of
    every move is collected instead of printed, and a refused move ends the
    game with its error. */
module TicTacToeGames {
  import opened TicTacToe

  /** What a sequence of moves did: the outcomes of the moves that were
      accepted, the error of the move that was refused, if any, and the
      board they leave. A refused move raises in the engine, so it ends the
      game and the moves after it are never made. */
  datatype Run = Run(outcomes: seq<Outcome>, error: Option<PlaceError>, grid: seq<seq<char>>)

  /** Make the moves in order, each on the board the previous one left,
      until one is refused. */
  function Play(g: seq<seq<char>>, moves: seq<MoveArgs>): (run: Run)
    requires IsGrid(g)
    ensures IsGrid(run.grid)
    ensures |run.outcomes| <= |moves|
    ensures run.error.None? ==> |run.outcomes| == |moves|
    decreases |moves|
  {
    if moves == [] then Run([], None, g)
    else
      var m := moves[0];
      var s := Move(g, m.mark, m.row, m.col);
      if s.result.Failure? then Run([], Some(s.result.error), g)
      else
        var rest := Play(s.grid, moves[1..]);
        Run([s.result.value] + rest.outcomes, rest.error, rest.grid)
  }

  /** A refused move is the error of the run and the moves after it are not
      played: the run keeps the board and the outcomes from before it. */
  lemma PlayStopsAtRefusal(g: seq<seq<char>>, m: MoveArgs, moves: seq<MoveArgs>)
    requires IsGrid(g) && Validate(g, m.mark, m.row, m.col).Some?
    ensures Play(g, [m] + moves) == Run([], Validate(g, m.mark, m.row, m.col), g)
  {
    assert ([m] + moves)[0] == m;
  }

  /** A scripted game with a bad first move: row 5 is out of range, so the
      game ends with that error on a fresh board and o never plays. */
  lemma RefusedMoveEndsGame()
    ensures Play(EmptyBoard(), [MoveArgs('x', 5, 0), MoveArgs('o', 0, 0)]) ==
            Run([], Some(OutOfRange(Row)), EmptyBoard())
  {
    PlayStopsAtRefusal(EmptyBoard(), MoveArgs('x', 5, 0), [MoveArgs('o', 0, 0)]);
  }

  /** Playing two move lists one after the other is playing their
      concatenation when every move of the first list is accepted: the
      outcomes line up and the errors and final boards agree. */
  lemma {:induction false} PlayAppend(g: seq<seq<char>>, a: seq<MoveArgs>, b: seq<MoveArgs>)
    requires IsGrid(g) && Play(g, a).error.None?
    ensures var first := Play(g, a);
      var second := Play(first.grid, b);
      Play(g, a + b) == Run(first.outcomes + second.outcomes, second.error, second.grid)
    decreases |a|
  {
    if a == [] {
      assert a + b == b;
    } else {
      assert (a + b)[0] == a[0] && (a + b)[1..] == a[1..] + b;
      var s := Move(g, a[0].mark, a[0].row, a[0].col);
      PlayCons(g, a);
      PlayCons(g, a + b);
      var o, g1 := s.result.value, s.grid;
      PlayAppend(g1, a[1..], b);
      var rest := Play(g1, a[1..]);
      var second := Play(rest.grid, b);
      AppendAssoc([o], rest.outcomes, second.outcomes);
    }
  }

  lemma AppendAssoc<T>(x: seq<T>, y: seq<T>, z: seq<T>)
    ensures x + (y + z) == (x + y) + z
  {
  }

  /** One step of a run: the first move is made, and when it is accepted
      its outcome comes first and the rest is played on the board it leaves. */
  lemma PlayCons(g: seq<seq<char>>, moves: seq<MoveArgs>)
    requires IsGrid(g) && moves != []
    ensures var s := Move(g, moves[0].mark, moves[0].row, moves[0].col);
      var rest := Play(s.grid, moves[1..]);
      Play(g, moves) == if s.result.Failure? then Run([], Some(s.result.error), g)
                        else Run([s.result.value] + rest.outcomes, rest.error, rest.grid)
  {
  }

  /** When a move of the first list is refused, the game ends there and a
      second list played after it is never reached. */
  lemma {:induction false} PlayAppendRefused(g: seq<seq<char>>, a: seq<MoveArgs>, b: seq<MoveArgs>)
    requires IsGrid(g) && Play(g, a).error.Some?
    ensures Play(g, a + b) == Play(g, a)
    decreases |a|
  {
    assert (a + b)[0] == a[0] && (a + b)[1..] == a[1..] + b;
    var s := Move(g, a[0].mark, a[0].row, a[0].col);
    if s.result.Success? {
      PlayAppendRefused(s.grid, a[1..], b);
    }
  }

  /** Each accepted placement adds one to the round number, so a run that
      starts from a board at round R and accepts N moves ends at round
      R + N, and R + N is at most 9; no mark placed along the way is ever
      overwritten. */
  lemma {:induction false} PlayCountsRounds(g: seq<seq<char>>, moves: seq<MoveArgs>)
    requires IsGrid(g)
    ensures var run := Play(g, moves);
      RoundNumber(run.grid) == RoundNumber(g) + |run.outcomes| <= 9 &&
      Extends(g, run.grid)
    decreases |moves|
  {
    if moves != [] {
      var m := moves[0];
      var s := Move(g, m.mark, m.row, m.col);
      MoveMonotone(g, m.mark, m.row, m.col);
      if s.result.Success? {
        MoveWritesOneCell(g, m.mark, m.row, m.col);
        PlayCountsRounds(s.grid, moves[1..]);
      }
    }
  }

  /** From a fresh board, the round number equals the number of accepted
      moves, which is the whole move list when none is refused. */
  lemma PlayFromEmpty(moves: seq<MoveArgs>)
    ensures var run := Play(EmptyBoard(), moves);
      RoundNumber(run.grid) == |run.outcomes| <= 9 &&
      (run.error.None? ==> |moves| <= 9)
  {
    PlayCountsRounds(EmptyBoard(), moves);
  }

  /** The unfolding step of the scenario lemmas below: Move on a board whose
      round number is known, for a valid placement onto an empty cell, with
      the new board g2 given, so each game can be checked one literal board
      at a time. */
  lemma Advance(g: seq<seq<char>>, round: nat, mark: char, row: int, col: int, g2: seq<seq<char>>)
    requires IsGrid(g) && RoundNumber(g) == round
    requires 0 <= row < 3 && 0 <= col < 3 && (mark == 'x' || mark == 'o') && g[row][col] == EMPTY
    requires g2 == g[row := g[row][col := mark]]
    ensures RoundNumber(g2) == round + 1
    ensures Move(g, mark, row, col) ==
      Step(Success(if Wins(g2, mark) then Win(mark) else if round + 1 == 9 then Draw else Continue), g2)
  {
    RoundNumberWrite(g, row, col, mark);
  }

  /** game1: x takes the main diagonal on the fifth move, and every earlier
      move lets play continue. Each ensures gives a move, what it reports
      and the board it leaves. */
  lemma Game1()
    ensures Move(EmptyBoard(), 'x', 1, 1) ==
            Step(Success(Continue), [[' ', ' ', ' '], [' ', 'x', ' '], [' ', ' ', ' ']])
    ensures Move([[' ', ' ', ' '], [' ', 'x', ' '], [' ', ' ', ' ']], 'o', 2, 0) ==
            Step(Success(Continue), [[' ', ' ', ' '], [' ', 'x', ' '], ['o', ' ', ' ']])
    ensures Move([[' ', ' ', ' '], [' ', 'x', ' '], ['o', ' ', ' ']], 'x', 0, 0) ==
            Step(Success(Continue), [['x', ' ', ' '], [' ', 'x', ' '], ['o', ' ', ' ']])
    ensures Move([['x', ' ', ' '], [' ', 'x', ' '], ['o', ' ', ' ']], 'o', 1, 0) ==
            Step(Success(Continue), [['x', ' ', ' '], ['o', 'x', ' '], ['o', ' ', ' ']])
    ensures Move([['x', ' ', ' '], ['o', 'x', ' '], ['o', ' ', ' ']], 'x', 2, 2) ==
            Step(Success(Win('x')), [['x', ' ', ' '], ['o', 'x', ' '], ['o', ' ', 'x']])
  {
    var g0 := EmptyBoard();
    var g1 := [[' ', ' ', ' '], [' ', 'x', ' '], [' ', ' ', ' ']];
    assert g0[1][1 := 'x'] == [' ', 'x', ' '];
    Advance(g0, 0, 'x', 1, 1, g1);
    var g2 := [[' ', ' ', ' '], [' ', 'x', ' '], ['o', ' ', ' ']];
    assert g1[2][0 := 'o'] == ['o', ' ', ' '];
    Advance(g1, 1, 'o', 2, 0, g2);
    var g3 := [['x', ' ', ' '], [' ', 'x', ' '], ['o', ' ', ' ']];
    assert g2[0][0 := 'x'] == ['x', ' ', ' '];
    Advance(g2, 2, 'x', 0, 0, g3);
    var g4 := [['x', ' ', ' '], ['o', 'x', ' '], ['o', ' ', ' ']];
    assert g3[1][0 := 'o'] == ['o', 'x', ' '];
    Advance(g3, 3, 'o', 1, 0, g4);
    var g5 := [['x', ' ', ' '], ['o', 'x', ' '], ['o', ' ', 'x']];
    assert g4[2][2 := 'x'] == ['o', ' ', 'x'];
    Advance(g4, 4, 'x', 2, 2, g5);
  }

  /** game2, moves one to five: x and o trade the centre, a corner and
      the sides, and nobody has a line yet. Each ensures gives a move, what it
      reports and the board it leaves. */
  lemma Game2Opening()
    ensures Move(EmptyBoard(), 'x', 1, 1) ==
            Step(Success(Continue), [[' ', ' ', ' '], [' ', 'x', ' '], [' ', ' ', ' ']])
    ensures Move([[' ', ' ', ' '], [' ', 'x', ' '], [' ', ' ', ' ']], 'o', 2, 0) ==
            Step(Success(Continue), [[' ', ' ', ' '], [' ', 'x', ' '], ['o', ' ', ' ']])
    ensures Move([[' ', ' ', ' '], [' ', 'x', ' '], ['o', ' ', ' ']], 'x', 0, 0) ==
            Step(Success(Continue), [['x', ' ', ' '], [' ', 'x', ' '], ['o', ' ', ' ']])
    ensures Move([['x', ' ', ' '], [' ', 'x', ' '], ['o', ' ', ' ']], 'o', 1, 0) ==
            Step(Success(Continue), [['x', ' ', ' '], ['o', 'x', ' '], ['o', ' ', ' ']])
    ensures Move([['x', ' ', ' '], ['o', 'x', ' '], ['o', ' ', ' ']], 'x', 2, 1) ==
            Step(Success(Continue), [['x', ' ', ' '], ['o', 'x', ' '], ['o', 'x', ' ']])
  {
    var g0 := EmptyBoard();
    var g1 := [[' ', ' ', ' '], [' ', 'x', ' '], [' ', ' ', ' ']];
    assert g0[1][1 := 'x'] == [' ', 'x', ' '];
    Advance(g0, 0, 'x', 1, 1, g1);
    var g2 := [[' ', ' ', ' '], [' ', 'x', ' '], ['o', ' ', ' ']];
    assert g1[2][0 := 'o'] == ['o', ' ', ' '];
    Advance(g1, 1, 'o', 2, 0, g2);
    var g3 := [['x', ' ', ' '], [' ', 'x', ' '], ['o', ' ', ' ']];
    assert g2[0][0 := 'x'] == ['x', ' ', ' '];
    Advance(g2, 2, 'x', 0, 0, g3);
    var g4 := [['x', ' ', ' '], ['o', 'x', ' '], ['o', ' ', ' ']];
    assert g3[1][0 := 'o'] == ['o', 'x', ' '];
    Advance(g3, 3, 'o', 1, 0, g4);
    var g5 := [['x', ' ', ' '], ['o', 'x', ' '], ['o', 'x', ' ']];
    assert g4[2][1 := 'x'] == ['o', 'x', ' '];
    Advance(g4, 4, 'x', 2, 1, g5);
  }

  /** game2, moves six to nine: the board fills without a line, so the
      last move reports a cats game and the others let play continue.
      Together with Game2Opening this is the whole game. */
  lemma Game2Endgame()
    ensures Move([['x', ' ', ' '], ['o', 'x', ' '], ['o', 'x', ' ']], 'o', 0, 1) ==
            Step(Success(Continue), [['x', 'o', ' '], ['o', 'x', ' '], ['o', 'x', ' ']])
    ensures Move([['x', 'o', ' '], ['o', 'x', ' '], ['o', 'x', ' ']], 'x', 1, 2) ==
            Step(Success(Continue), [['x', 'o', ' '], ['o', 'x', 'x'], ['o', 'x', ' ']])
    ensures Move([['x', 'o', ' '], ['o', 'x', 'x'], ['o', 'x', ' ']], 'o', 2, 2) ==
            Step(Success(Continue), [['x', 'o', ' '], ['o', 'x', 'x'], ['o', 'x', 'o']])
    ensures Move([['x', 'o', ' '], ['o', 'x', 'x'], ['o', 'x', 'o']], 'x', 0, 2) ==
            Step(Success(Draw), [['x', 'o', 'x'], ['o', 'x', 'x'], ['o', 'x', 'o']])
  {
    var g5 := [['x', ' ', ' '], ['o', 'x', ' '], ['o', 'x', ' ']];
    var g6 := [['x', 'o', ' '], ['o', 'x', ' '], ['o', 'x', ' ']];
    assert g5[0][1 := 'o'] == ['x', 'o', ' '];
    Advance(g5, 5, 'o', 0, 1, g6);
    var g7 := [['x', 'o', ' '], ['o', 'x', 'x'], ['o', 'x', ' ']];
    assert g6[1][2 := 'x'] == ['o', 'x', 'x'];
    Advance(g6, 6, 'x', 1, 2, g7);
    var g8 := [['x', 'o', ' '], ['o', 'x', 'x'], ['o', 'x', 'o']];
    assert g7[2][2 := 'o'] == ['o', 'x', 'o'];
    Advance(g7, 7, 'o', 2, 2, g8);
    var g9 := [['x', 'o', 'x'], ['o', 'x', 'x'], ['o', 'x', 'o']];
    assert g8[0][2 := 'x'] == ['x', 'o', 'x'];
    Advance(g8, 8, 'x', 0, 2, g9);
  }

  /** game3: o fills row 2 on the sixth move, and every earlier
      move lets play continue. Each ensures gives a move, what it reports
      and the board it leaves. */
  lemma Game3()
    ensures Move(EmptyBoard(), 'x', 1, 1) ==
            Step(Success(Continue), [[' ', ' ', ' '], [' ', 'x', ' '], [' ', ' ', ' ']])
    ensures Move([[' ', ' ', ' '], [' ', 'x', ' '], [' ', ' ', ' ']], 'o', 2, 0) ==
            Step(Success(Continue), [[' ', ' ', ' '], [' ', 'x', ' '], ['o', ' ', ' ']])
    ensures Move([[' ', ' ', ' '], [' ', 'x', ' '], ['o', ' ', ' ']], 'x', 0, 0) ==
            Step(Success(Continue), [['x', ' ', ' '], [' ', 'x', ' '], ['o', ' ', ' ']])
    ensures Move([['x', ' ', ' '], [' ', 'x', ' '], ['o', ' ', ' ']], 'o', 2, 1) ==
            Step(Success(Continue), [['x', ' ', ' '], [' ', 'x', ' '], ['o', 'o', ' ']])
    ensures Move([['x', ' ', ' '], [' ', 'x', ' '], ['o', 'o', ' ']], 'x', 0, 1) ==
            Step(Success(Continue), [['x', 'x', ' '], [' ', 'x', ' '], ['o', 'o', ' ']])
    ensures Move([['x', 'x', ' '], [' ', 'x', ' '], ['o', 'o', ' ']], 'o', 2, 2) ==
            Step(Success(Win('o')), [['x', 'x', ' '], [' ', 'x', ' '], ['o', 'o', 'o']])
  {
    var g0 := EmptyBoard();
    var g1 := [[' ', ' ', ' '], [' ', 'x', ' '], [' ', ' ', ' ']];
    assert g0[1][1 := 'x'] == [' ', 'x', ' '];
    Advance(g0, 0, 'x', 1, 1, g1);
    var g2 := [[' ', ' ', ' '], [' ', 'x', ' '], ['o', ' ', ' ']];
    assert g1[2][0 := 'o'] == ['o', ' ', ' '];
    Advance(g1, 1, 'o', 2, 0, g2);
    var g3 := [['x', ' ', ' '], [' ', 'x', ' '], ['o', ' ', ' ']];
    assert g2[0][0 := 'x'] == ['x', ' ', ' '];
    Advance(g2, 2, 'x', 0, 0, g3);
    var g4 := [['x', ' ', ' '], [' ', 'x', ' '], ['o', 'o', ' ']];
    assert g3[2][1 := 'o'] == ['o', 'o', ' '];
    Advance(g3, 3, 'o', 2, 1, g4);
    var g5 := [['x', 'x', ' '], [' ', 'x', ' '], ['o', 'o', ' ']];
    assert g4[0][1 := 'x'] == ['x', 'x', ' '];
    Advance(g4, 4, 'x', 0, 1, g5);
    var g6 := [['x', 'x', ' '], [' ', 'x', ' '], ['o', 'o', 'o']];
    assert g5[2][2 := 'o'] == ['o', 'o', 'o'];
    Advance(g5, 5, 'o', 2, 2, g6);
  }

  /** game4: x fills column 1 on the fifth move, and every earlier
      move lets play continue. Each ensures gives a move, what it reports
      and the board it leaves. */
  lemma Game4()
    ensures Move(EmptyBoard(), 'x', 1, 1) ==
            Step(Success(Continue), [[' ', ' ', ' '], [' ', 'x', ' '], [' ', ' ', ' ']])
    ensures Move([[' ', ' ', ' '], [' ', 'x', ' '], [' ', ' ', ' ']], 'o', 2, 0) ==
            Step(Success(Continue), [[' ', ' ', ' '], [' ', 'x', ' '], ['o', ' ', ' ']])
    ensures Move([[' ', ' ', ' '], [' ', 'x', ' '], ['o', ' ', ' ']], 'x', 0, 1) ==
            Step(Success(Continue), [[' ', 'x', ' '], [' ', 'x', ' '], ['o', ' ', ' ']])
    ensures Move([[' ', 'x', ' '], [' ', 'x', ' '], ['o', ' ', ' ']], 'o', 2, 2) ==
            Step(Success(Continue), [[' ', 'x', ' '], [' ', 'x', ' '], ['o', ' ', 'o']])
    ensures Move([[' ', 'x', ' '], [' ', 'x', ' '], ['o', ' ', 'o']], 'x', 2, 1) ==
            Step(Success(Win('x')), [[' ', 'x', ' '], [' ', 'x', ' '], ['o', 'x', 'o']])
  {
    var g0 := EmptyBoard();
    var g1 := [[' ', ' ', ' '], [' ', 'x', ' '], [' ', ' ', ' ']];
    assert g0[1][1 := 'x'] == [' ', 'x', ' '];
    Advance(g0, 0, 'x', 1, 1, g1);
    var g2 := [[' ', ' ', ' '], [' ', 'x', ' '], ['o', ' ', ' ']];
    assert g1[2][0 := 'o'] == ['o', ' ', ' '];
    Advance(g1, 1, 'o', 2, 0, g2);
    var g3 := [[' ', 'x', ' '], [' ', 'x', ' '], ['o', ' ', ' ']];
    assert g2[0][1 := 'x'] == [' ', 'x', ' '];
    Advance(g2, 2, 'x', 0, 1, g3);
    var g4 := [[' ', 'x', ' '], [' ', 'x', ' '], ['o', ' ', 'o']];
    assert g3[2][2 := 'o'] == ['o', ' ', 'o'];
    Advance(g3, 3, 'o', 2, 2, g4);
    var g5 := [[' ', 'x', ' '], [' ', 'x', ' '], ['o', 'x', 'o']];
    assert g4[2][1 := 'x'] == ['o', 'x', 'o'];
    Advance(g4, 4, 'x', 2, 1, g5);
  }

  /** Nothing stops play once the game is decided, and only the mark just
      placed is tested for a line: o already holds row 0, yet a further x
      is accepted and reports that play continues. */
  lemma PlayAfterWin()
    ensures Move([['o', 'o', 'o'], ['x', 'x', ' '], [' ', ' ', ' ']], 'x', 2, 2) ==
            Step(Success(Continue), [['o', 'o', 'o'], ['x', 'x', ' '], [' ', ' ', 'x']])
  {
    var g := [['o', 'o', 'o'], ['x', 'x', ' '], [' ', ' ', ' ']];
    var g' := [['o', 'o', 'o'], ['x', 'x', ' '], [' ', ' ', 'x']];
    assert g[2][2 := 'x'] == [' ', ' ', 'x'];
    Advance(g, 5, 'x', 2, 2, g');
  }
}
