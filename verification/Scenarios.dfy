/** Whole games played click by click from a fresh board. */
module Scenarios {
  import opened Board
  import opened TurnEngine

  /** Decides, for the board after the current player marks cell i, whether
      that player has a line and whether the board is full. */
  lemma Settle(g: Game, i: Index)
    ensures var b, p := g.board[i := Taken(g.player)], g.player;
      && (Wins(b, p) <==>
            || Holds(b, p, (0, 1, 2)) || Holds(b, p, (3, 4, 5)) || Holds(b, p, (6, 7, 8))
            || Holds(b, p, (0, 3, 6)) || Holds(b, p, (1, 4, 7)) || Holds(b, p, (2, 5, 8))
            || Holds(b, p, (0, 4, 8)) || Holds(b, p, (2, 4, 6)))
      && (Full(b) <==>
            && b[0] != Empty && b[1] != Empty && b[2] != Empty
            && b[3] != Empty && b[4] != Empty && b[5] != Empty
            && b[6] != Empty && b[7] != Empty && b[8] != Empty)
  {
    WinsCases(g.board[i := Taken(g.player)], g.player);
  }

  /** The state after the current player marks the empty, enabled cell i
      without ending the game. */
  function Step(g: Game, i: Index): Game
  {
    Game(g.board[i := Taken(g.player)], Other(g.player), g.active, g.interactable[i := false])
  }

  /** X:0, O:3, X:1, O:4, X:2: the last click is announced as a win on the
      top row, the first win condition, and ends the game with every button
      disabled. */
  lemma TopRowWin()
    ensures var before := Run(Fresh(), [0, 3, 1, 4]);
            var g := Run(Fresh(), [0, 3, 1, 4, 2]);
      && Verdict(before, 2) == Won((0, 1, 2))
      && g == Press(before, 2)
      && !g.active && g.player == X
      && IsFirstWin(g.board, X, 0) && WinConditions[0] == (0, 1, 2)
      && forall j :: 0 <= j < 9 ==> !g.interactable[j]
  {
    var g0 := Fresh();
    var g1 := Press(g0, 0);
    assert g1 == Step(g0, 0) by { Settle(g0, 0); }
    var g2 := Press(g1, 3);
    assert g2 == Step(g1, 3) by { Settle(g1, 3); }
    var g3 := Press(g2, 1);
    assert g3 == Step(g2, 1) by { Settle(g2, 1); }
    var g4 := Press(g3, 4);
    assert g4 == Step(g3, 4) by { Settle(g3, 4); }
    assert Run(g4, []) == g4;
    Settle(g4, 2); var g5 := Press(g4, 2);
    assert Run(g5, []) == g5;
    FirstWinExists(g5.board, X);
    assert IsFirstWin(g5.board, X, 0);
  }

  /** The position after X:0, O:1, X:2, O:4, X:3, O:5, X:7, with O to move
      and cells 6 and 8 still open; reached through the positions after the
      first two and the first four clicks. */
  const Opening: seq<Index> := [0, 1, 2, 4, 3, 5, 7]
  const OpeningBoard: Board :=
    [Taken(X), Taken(O), Taken(X),
     Taken(X), Taken(O), Taken(O),
     Empty,    Taken(X), Empty]
  const OpeningFlags: Flags := [false, false, false, false, false, false, true, false, true]

  const MidBoard: Board :=
    [Taken(X), Taken(O), Taken(X),
     Empty,    Taken(O), Empty,
     Empty,    Empty,    Empty]
  const MidFlags: Flags := [false, false, false, true, false, true, true, true, true]

  const EarlyBoard: Board :=
    [Taken(X), Taken(O), Empty,
     Empty,    Empty,    Empty,
     Empty,    Empty,    Empty]
  const EarlyFlags: Flags := [false, false, true, true, true, true, true, true, true]

  lemma FirstTwoClicks()
    ensures Run(Fresh(), [0, 1]) == Game(EarlyBoard, X, true, EarlyFlags)
  {
    var g0 := Fresh();
    var g1 := Press(g0, 0);
    assert g1 == Step(g0, 0) by { Settle(g0, 0); }
    var g2 := Press(g1, 1);
    assert g2 == Step(g1, 1) by { Settle(g1, 1); }
    assert Run(g2, []) == g2;
  }

  lemma NextTwoClicks()
    ensures Run(Game(EarlyBoard, X, true, EarlyFlags), [2, 4]) == Game(MidBoard, X, true, MidFlags)
  {
    var g2 := Game(EarlyBoard, X, true, EarlyFlags);
    var g3 := Press(g2, 2);
    assert g3 == Step(g2, 2) by { Settle(g2, 2); }
    var g4 := Press(g3, 4);
    assert g4 == Step(g3, 4) by { Settle(g3, 4); }
    assert Run(g4, []) == g4;
  }

  lemma NextThreeClicks()
    ensures Run(Game(MidBoard, X, true, MidFlags), [3, 5, 7]) == Game(OpeningBoard, O, true, OpeningFlags)
  {
    var g4 := Game(MidBoard, X, true, MidFlags);
    var g5 := Press(g4, 3);
    assert g5 == Step(g4, 3) by { Settle(g4, 3); }
    var g6 := Press(g5, 5);
    assert g6 == Step(g5, 5) by { Settle(g5, 5); }
    var g7 := Press(g6, 7);
    assert g7 == Step(g6, 7) by { Settle(g6, 7); }
    assert Run(g7, []) == g7;
  }

  lemma OpeningPosition()
    ensures Run(Fresh(), Opening) == Game(OpeningBoard, O, true, OpeningFlags)
  {
    var first, second, third := [0, 1], [2, 4], [3, 5, 7];
    assert Opening == (first + second) + third;
    FirstTwoClicks();
    NextTwoClicks();
    NextThreeClicks();
    RunAppend(Fresh(), first, second);
    RunAppend(Fresh(), first + second, third);
  }

  /** Neither player has a line on this board. */
  lemma DrawnBoardHasNoLine(b: Board)
    requires b == OpeningBoard[6 := Taken(O)][8 := Taken(X)]
    ensures !Wins(b, X) && !Wins(b, O)
  {
    WinsCases(b, X);
    WinsCases(b, O);
  }

  /** O:6, X:8 from the opening: X's last move fills the board and is
      announced as a draw. */
  lemma ClosingDraw()
    ensures var g7 := Game(OpeningBoard, O, true, OpeningFlags);
            var g8 := Run(g7, [6]);
            var g9 := Run(g7, [6, 8]);
      && Verdict(g8, 8) == Drawn
      && g9 == Press(g8, 8)
      && !g9.active && g9.player == X && Full(g9.board)
      && g9.board == OpeningBoard[6 := Taken(O)][8 := Taken(X)]
  {
    var g7 := Game(OpeningBoard, O, true, OpeningFlags);
    var g8 := Press(g7, 6);
    assert g8 == Step(g7, 6) by { Settle(g7, 6); }
    assert Run(g7, [6]) == g8;
    var g9 := Press(g8, 8);
    assert !Wins(g9.board, X) && Full(g9.board) by { Settle(g8, 8); }
    assert Run(g7, [6, 8]) == g9;
  }

  /** The opening continued with O:6, X:8 fills the board without a line for
      either player: the last click is announced as a draw and ends the game,
      with X as the last mover. */
  lemma FullBoardDraw()
    ensures var before := Run(Fresh(), Opening + [6]);
            var g := Run(Fresh(), Opening + [6, 8]);
      && Verdict(before, 8) == Drawn
      && g == Press(before, 8)
      && !g.active && g.player == X && Full(g.board)
      && !Wins(g.board, X) && !Wins(g.board, O)
  {
    var g7 := Game(OpeningBoard, O, true, OpeningFlags);
    assert Run(Fresh(), Opening + [6]) == Run(g7, [6]) by {
      OpeningPosition();
      RunAppend(Fresh(), Opening, [6]);
    }
    assert Run(Fresh(), Opening + [6, 8]) == Run(g7, [6, 8]) by {
      OpeningPosition();
      RunAppend(Fresh(), Opening, [6, 8]);
    }
    ClosingDraw();
    DrawnBoardHasNoLine(Run(g7, [6, 8]).board);
  }

  /** On this board the rows hold no line for X, so the left column is the
      first line reported. */
  lemma LeftColumnIsFirstWin(b: Board)
    requires b == OpeningBoard[8 := Taken(O)][6 := Taken(X)]
    ensures IsFirstWin(b, X, 3)
  {
    assert !Holds(b, X, WinConditions[0]) && !Holds(b, X, WinConditions[1]);
    assert !Holds(b, X, WinConditions[2]) && Holds(b, X, WinConditions[3]);
  }

  /** O:8, X:6 from the opening: X's last move fills the board and completes
      the left column, and is announced as a win on that column. */
  lemma ClosingWin()
    ensures var g7 := Game(OpeningBoard, O, true, OpeningFlags);
            var g8 := Run(g7, [8]);
            var g9 := Run(g7, [8, 6]);
      && Verdict(g8, 6) == Won((0, 3, 6))
      && g9 == Press(g8, 6)
      && !g9.active && g9.player == X && Full(g9.board)
      && g9.board == OpeningBoard[8 := Taken(O)][6 := Taken(X)]
      && forall j :: 0 <= j < 9 ==> !g9.interactable[j]
  {
    var g7 := Game(OpeningBoard, O, true, OpeningFlags);
    var g8 := Press(g7, 8);
    assert g8 == Step(g7, 8) by { Settle(g7, 8); }
    assert Run(g7, [8]) == g8;
    var g9 := Press(g8, 6);
    assert Wins(g9.board, X) && Full(g9.board) by { Settle(g8, 6); }
    assert Run(g7, [8, 6]) == g9;
    LeftColumnIsFirstWin(g9.board);
    FirstWinExists(g9.board, X);
  }

  /** The opening continued with O:8, X:6 fills the board and completes the
      left column with the same move: the last click is announced as a win
      on the left column, not as a draw, and every button is disabled. */
  lemma LastMoveWinsNotDraws()
    ensures var before := Run(Fresh(), Opening + [8]);
            var g := Run(Fresh(), Opening + [8, 6]);
      && Verdict(before, 6) == Won((0, 3, 6))
      && g == Press(before, 6)
      && !g.active && g.player == X && Full(g.board)
      && IsFirstWin(g.board, X, 3)
      && forall j :: 0 <= j < 9 ==> !g.interactable[j]
  {
    var g7 := Game(OpeningBoard, O, true, OpeningFlags);
    assert Run(Fresh(), Opening + [8]) == Run(g7, [8]) by {
      OpeningPosition();
      RunAppend(Fresh(), Opening, [8]);
    }
    assert Run(Fresh(), Opening + [8, 6]) == Run(g7, [8, 6]) by {
      OpeningPosition();
      RunAppend(Fresh(), Opening, [8, 6]);
    }
    ClosingWin();
    LeftColumnIsFirstWin(Run(g7, [8, 6]).board);
  }
}
