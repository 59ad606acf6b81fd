# XnO tic-tac-toe: the GameManager turn engine

This project models the turn engine of the tic-tac-toe game's `GameManager`
Unity script and proves properties about it. The engine's state is:

- the nine-cell `boardState`;
- `currentPlayer`, which is X (written "1") or O (written "0");
- `isGameActive`;
- the `interactable` flag of each of the nine grid buttons.

A click on a grid space (`OnGridSpaceClicked`) marks an empty cell for the
current player. It then checks the eight win conditions, then whether the
board is full. If neither holds, the turn passes to the other player.
`ResetGame` clears everything.

The model has four modules:

- `Board` (Board.dfy): players, cells, the eight win conditions in scanning
  order, and what it means to win (`Wins`, `IsFirstWin`) or to fill the
  board (`Full`).
- `TurnEngine` (TurnEngine.dfy): the engine state as a value (`Game`).
  - `Verdict` is the branch a call of `OnGridSpaceClicked` takes: an
    occupied cell, a win on a given line, a draw, or the next turn.
  - `Play` is the state after one call of `OnGridSpaceClicked`.
  - `Press` is a click as the button layer delivers it: a disabled button
    ignores it.
  - `Run` is a sequence of clicks.
  - `Consistent` is the invariant of every reachable state. The lemmas prove
    that clicks preserve it and what follows from it.
- `Manager` (GameManager.dfy): `class GameManager`. It holds the board and
  the button flags as arrays and updates them in place. `Start`, `Click`,
  `OnGridSpaceClicked` and `ResetGame` each ensure that the new `State()`
  equals the `TurnEngine` function applied to the old one (`Fresh`, `Press`,
  `Play`, `Fresh`). `SwitchPlayer` and `DisableButtons` state their effect on
  the one field or array they change. `CheckForWin` and `CheckForDraw` are
  read-only loops, proved against `Wins`, `IsFirstWin` and `Full`.
- `Scenarios` (Scenarios.dfy): whole games played click by click from a
  fresh board: a row win, a draw, and a last move that both fills the board
  and completes a line. Each states how its last click is announced.

## Model

| member | source | states |
|---|---|---|
| Board.Other | Assets/GameManager.cs:226-228 | switching always gives the other player |
| Board.SwitchTwiceIsIdentity | Assets/GameManager.cs:226-228 | switching twice gives the same player back |
| Board.CellText | Assets/GameManager.cs:35-36 | X is stored as "1" and O as "0"; a cell is empty exactly when its text is empty |
| Board.CellTextInjective | Assets/GameManager.cs:249-251 | comparing cell strings, as the C# GameManager does, is the same as comparing cells |
| Board.WinsCases | Assets/GameManager.cs:235-245 | a player wins exactly when one of the eight listed rows, columns or diagonals is all theirs |
| Board.FirstWinFrom | Assets/GameManager.cs:247-258 | the scan from a given win condition on returns the first condition the player holds, with none held before it, or nothing when none of the remaining ones is held |
| Board.FirstWin | Assets/GameManager.cs:233-259 | the scan reports a condition exactly when the player wins, and then the first winning condition in scanning order |
| Board.FirstWinExists | Assets/GameManager.cs:247-258 | a player who wins has exactly one first winning line in scanning order, so the scan always has one line to report |
| Board.MoveKeepsOtherLines | Assets/GameManager.cs:173 | marking an empty cell for one player neither creates nor destroys a line of the other player |
| Board.MoveCountsOneMark | Assets/GameManager.cs:173 | marking an empty cell adds exactly one mark for the mover and none for the other player |
| TurnEngine.Fresh | Assets/GameManager.cs:301-325 | the reset state: all nine cells empty and enabled, X to move, game active |
| TurnEngine.Verdict | Assets/GameManager.cs:137-223 | a click is ignored exactly when the cell is occupied; it is a win exactly when the mover then holds a line, announced with the first such line in scanning order; it is a draw exactly when the mover holds no line and the board is full; otherwise the turn passes |
| TurnEngine.Play | Assets/GameManager.cs:137-223 | an occupied cell changes nothing; otherwise only the clicked cell changes, to the mover's mark, and its button is disabled; a completed line wins even on a full board, keeps the player, ends the game and disables every button; a full board without a line is a draw that keeps the player; otherwise the player toggles and the active flag is left as it was |
| TurnEngine.Press | Assets/GameManager.cs:80-83 | a click on a disabled button changes nothing; on an enabled one it is OnGridSpaceClicked |
| TurnEngine.FreshConsistent | Assets/GameManager.cs:55-93 | the start and reset state satisfies the reachable-state invariant |
| TurnEngine.PressPreservesConsistent | Assets/GameManager.cs:186-221 | every click keeps the invariant. While the game is on, exactly the empty cells are enabled, nobody has a line, the board has room, and X has as many marks as O (X to move) or one more (O to move). Once it is over, every button is disabled and the last mover has a line or the board is full |
| TurnEngine.RunPreservesConsistent | Assets/GameManager.cs:186-221 | any sequence of clicks keeps the invariant |
| TurnEngine.GameOverIsFinal | Assets/GameManager.cs:273-279 | once a game is won or drawn, no sequence of clicks changes anything until reset |
| TurnEngine.TurnsAlternate | Assets/GameManager.cs:218-228 | from a fresh game X never has fewer marks than O or more than one extra; while play goes on, X is to move exactly when the counts are equal |
| TurnEngine.MarksAreKept | Assets/GameManager.cs:139-173 | a marked cell keeps its mark through any clicks |
| TurnEngine.PlayTwiceIsPlayOnce | Assets/GameManager.cs:139-173 | clicking the same cell a second time has no further effect |
| Scenarios.TopRowWin | Assets/GameManager.cs:188-202 | in X:0, O:3, X:1, O:4, X:2 the last click is announced as a win on the top row (0, 1, 2), the first win condition; the game ends with X as the last mover and all buttons disabled |
| Scenarios.FullBoardDraw | Assets/GameManager.cs:204-216 | in X:0, O:1, X:2, O:4, X:3, O:5, X:7, O:6, X:8 the last click is announced as a draw; the board is full, neither player has a line, and the game ends with X as the last mover |
| Scenarios.LastMoveWinsNotDraws | Assets/GameManager.cs:188-204 | in X:0, O:1, X:2, O:4, X:3, O:5, X:7, O:8, X:6 the last click fills the board and completes the left column; it is announced as a win on (0, 3, 6), not as a draw, and the game ends with every button disabled |
| Manager.GameManager.Start | Assets/GameManager.cs:55-93 | the engine starts in the reset state, which satisfies the invariant |
| Manager.GameManager.Click | Assets/GameManager.cs:80-83 | a click through the button layer performs Press in place and keeps the invariant |
| Manager.GameManager.OnGridSpaceClicked | Assets/GameManager.cs:137-223 | the in-place update performs Play on the fields and arrays, and the outcome it reports (the flashed winning line, a draw, the next turn, or nothing) is Verdict |
| Manager.GameManager.SwitchPlayer | Assets/GameManager.cs:226-231 | the current player becomes the other player |
| Manager.GameManager.CheckForWin | Assets/GameManager.cs:233-259 | reports a win exactly when the current player holds some win condition; the indices returned are those of the first such condition in scanning order; none otherwise |
| Manager.GameManager.CheckForDraw | Assets/GameManager.cs:261-271 | reports true exactly when no cell is empty |
| Manager.GameManager.DisableButtons | Assets/GameManager.cs:273-279 | every grid button becomes non-interactable |
| Manager.GameManager.ResetGame | Assets/GameManager.cs:299-327 | whatever the state before: a new empty board, X to move, every button enabled, game active, and the invariant holds |

## Left out

- Animation and easing are left out: hover, click bounce, wobble, flash, and
  the buttons animating in and out. They are calls into a tweening library
  with float timing.
- Audio and particle effects are left out. They are engine side effects.
- The frame timer in `Update` is left out, including its 20-second
  auto-reset. So are the 2-second delayed `ResetGame` calls after a win or a
  draw. These are float clock time and engine scheduling. Reset is an
  operation that may be called at any time.
- `SetRandomColors` is left out. It draws random hues from Unity's random
  number generator with a float separation check.
- The dark/light theme toggle and the turn-indicator colour are left out.
- The turn-indicator text, the timer text and the button labels are left
  out. They are UI output only.
- Manager.GameManager.ResetGame: the C# method clears the board and sets X at
  once, but re-enables the buttons and sets the game active only in the
  callback that runs when the buttons finish animating out. The model does
  the whole reset as one step, so it does not capture clicks that arrive
  during that animation.
- Manager.GameManager.Click: Unity's button component, which drops clicks on
  non-interactable buttons, is not in the C# GameManager. It is modelled as
  a guard on the button's flag.
- Manager.GameManager.Start: the C# `Start` never sets `interactable`; it
  relies on the grid buttons being enabled as the scene creates them. The
  model assumes that and sets all nine flags to true.
- Null and "" board entries are both modelled as `Empty`, since the C#
  GameManager tests them together with `string.IsNullOrEmpty`.
- The index passed to `OnGridSpaceClicked` is required to be in 0..8. The
  only callers are the listeners registered for the nine grid buttons; the
  C# method has no out-of-range error path.
- `OnGridSpaceClicked` has no invalid-move error and does not check
  `isGameActive`. Moves after a game ends are blocked only by the disabled
  buttons, and `GameOverIsFinal` proves that this is enough.
- The texts that `OnGridSpaceClicked` writes to the turn indicator are
  left out; `Verdict` stands for which of them is shown.
