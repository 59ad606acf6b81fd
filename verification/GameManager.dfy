/** GameManager's engine fields and the methods that update them in place. */
module Manager {
  import opened Board
  import opened TurnEngine

  class GameManager {
    var isGameActive: bool
    var currentPlayer: Player
    var boardState: array<Cell>
    /** gridSpaces[i].interactable for each of the nine grid buttons. */
    var interactable: array<bool>

    ghost predicate Valid()
      reads this
    {
      boardState.Length == 9 && interactable.Length == 9
    }

    /** The engine state as a value. */
    ghost function State(): Game
      reads this, boardState, interactable
      requires Valid()
    {
      Game(boardState[..], currentPlayer, isGameActive, interactable[..])
    }

    /** Start: X to move on an empty board, the game on, and the grid
        buttons enabled as they come from the scene. */
    constructor Start()
      ensures Valid() && State() == Fresh() && Consistent(State())
      ensures fresh(boardState) && fresh(interactable)
    {
      currentPlayer := X;
      boardState := new Cell[9](_ => Empty);
      interactable := new bool[9](_ => true);
      isGameActive := true;
      new;
      assert boardState[..] == EmptyBoard;
      assert interactable[..] == seq(9, _ => true);
      FreshConsistent();
    }

    /** The button layer: a click reaches OnGridSpaceClicked only through an
        enabled button. */
    method Click(index: int)
      requires Valid() && 0 <= index < 9
      modifies this`currentPlayer, this`isGameActive, boardState, interactable
      ensures Valid() && boardState == old(boardState) && interactable == old(interactable)
      ensures State() == Press(old(State()), index)
      ensures old(Consistent(State())) ==> Consistent(State())
    {
      ghost var before := State();
      if interactable[index] {
        var _ := OnGridSpaceClicked(index);
      }
      if Consistent(before) {
        PressPreservesConsistent(before, index);
      }
    }

    /** Marks an empty cell and settles the move. The outcome stands for what
        the C# method announces: the line passed to FlashButtons on a win,
        FlashButtons(null) on a draw, or the next player's turn. */
    method OnGridSpaceClicked(index: int) returns (outcome: Outcome)
      requires Valid() && 0 <= index < 9
      modifies this`currentPlayer, this`isGameActive, boardState, interactable
      ensures Valid() && boardState == old(boardState) && interactable == old(interactable)
      ensures State() == Play(old(State()), index)
      ensures outcome == Verdict(old(State()), index)
    {
      outcome := Ignored;
      if boardState[index] == Empty {
        boardState[index] := Taken(currentPlayer);
        interactable[index] := false;
        var won, winIndices := CheckForWin();
        if won {
          FirstWinExists(boardState[..], currentPlayer);
          outcome := Won(winIndices.value);
          DisableButtons();
          isGameActive := false;
          assert interactable[..] == seq(9, _ => false);
        } else {
          var draw := CheckForDraw();
          if draw {
            outcome := Drawn;
            isGameActive := false;
          } else {
            outcome := NextTurn;
            SwitchPlayer();
          }
        }
      }
    }

    method SwitchPlayer()
      modifies this`currentPlayer
      ensures currentPlayer == Other(old(currentPlayer))
    {
      currentPlayer := if currentPlayer == X then O else X;
    }

    /** Scans the win conditions in order for a line of the current player's
        marks and reports the first one found. */
    method CheckForWin() returns (won: bool, winIndices: Option<Line>)
      requires Valid()
      ensures won <==> Wins(boardState[..], currentPlayer)
      ensures won ==> exists k :: IsFirstWin(boardState[..], currentPlayer, k)
                                   && winIndices == Some(WinConditions[k])
      ensures !won ==> winIndices == None
    {
      ghost var b: Board := boardState[..];
      var i := 0;
      while i < |WinConditions|
        invariant 0 <= i <= |WinConditions|
        invariant forall j :: 0 <= j < i ==> !Holds(b, currentPlayer, WinConditions[j])
      {
        var line := WinConditions[i];
        if boardState[line.0] == Taken(currentPlayer) &&
           boardState[line.1] == Taken(currentPlayer) &&
           boardState[line.2] == Taken(currentPlayer)
        {
          assert IsFirstWin(b, currentPlayer, i);
          return true, Some(line);
        }
        i := i + 1;
      }
      return false, None;
    }

    /** The board is full: no cell is empty. */
    method CheckForDraw() returns (draw: bool)
      requires Valid()
      ensures draw <==> Full(boardState[..])
    {
      for i := 0 to boardState.Length
        invariant forall j :: 0 <= j < i ==> boardState[j] != Empty
      {
        if boardState[i] == Empty {
          return false;
        }
      }
      return true;
    }

    method DisableButtons()
      requires Valid()
      modifies interactable
      ensures forall j :: 0 <= j < interactable.Length ==> !interactable[j]
    {
      for i := 0 to interactable.Length
        invariant forall j :: 0 <= j < i ==> !interactable[j]
      {
        interactable[i] := false;
      }
    }

    /** ResetGame, with the deferred re-enabling of the buttons and of the
        game folded into one step: a new empty board, X to move, every
        button enabled and the game on, whatever the state before. */
    method ResetGame()
      requires Valid()
      modifies this`currentPlayer, this`isGameActive, this`boardState, interactable
      ensures Valid() && fresh(boardState) && interactable == old(interactable)
      ensures State() == Fresh() && Consistent(State())
    {
      currentPlayer := X;
      boardState := new Cell[9](_ => Empty);
      for i := 0 to interactable.Length
        modifies interactable
        invariant forall j :: 0 <= j < i ==> interactable[j]
      {
        interactable[i] := true;
      }
      isGameActive := true;
      assert boardState[..] == EmptyBoard;
      assert interactable[..] == seq(9, _ => true);
      FreshConsistent();
    }
  }
}
