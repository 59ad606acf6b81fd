/** The turn engine of GameManager as values: one game state, the effect of a
    click on a grid space, and the properties every reachable state keeps. The
    class in GameManager.dfy performs these steps in place. */
module TurnEngine {
  import opened Board

  /** Per-button `interactable` flags of the nine grid spaces. */
  type Flags = f: seq<bool> | |f| == 9 witness seq(9, _ => true)

  /** Everything the engine keeps: boardState, currentPlayer, isGameActive
      and the grid buttons' interactable flags. */
  datatype Game = Game(board: Board, player: Player, active: bool, interactable: Flags)

  /** The state Start and ResetGame leave behind. */
  function Fresh(): (g: Game)
    ensures forall i :: 0 <= i < 9 ==> g.board[i] == Empty && g.interactable[i]
    ensures g.player == X && g.active
  {
    Game(EmptyBoard, X, true, seq(9, _ => true))
  }

  /** What a click on grid space i announces: nothing on an occupied cell,
      a win with the line whose buttons flash, a draw, or the next turn. */
  datatype Outcome = Ignored | Won(line: Line) | Drawn | NextTurn

  /** The branch OnGridSpaceClicked(i) takes. The win check comes first, so
      a move that completes a line on a full board is a win; the line is the
      one CheckForWin reports. */
  function Verdict(g: Game, i: Index): (o: Outcome)
    ensures o == Ignored <==> g.board[i] != Empty
    ensures var b := g.board[i := Taken(g.player)];
      && (o.Won? <==> g.board[i] == Empty && Wins(b, g.player))
      && (o.Won? ==> exists k :: IsFirstWin(b, g.player, k) && o.line == WinConditions[k])
      && (o == Drawn <==> g.board[i] == Empty && !Wins(b, g.player) && Full(b))
  {
    if g.board[i] != Empty then Ignored
    else
      var b := g.board[i := Taken(g.player)];
      match FirstWin(b, g.player)
      case Some(k) => Won(WinConditions[k])
      case None => if Full(b) then Drawn else NextTurn
  }

  /** OnGridSpaceClicked(i). The move is taken only when cell i is empty; it
      does not look at the active flag or at the button flags. */
  function Play(g: Game, i: Index): (r: Game)
    // an occupied cell: nothing at all changes
    ensures g.board[i] != Empty ==> r == g
    // only cell i can change, and only from empty to the mover's mark
    ensures forall j :: 0 <= j < 9 && j != i ==> r.board[j] == g.board[j]
    ensures g.board[i] == Empty ==> r.board[i] == Taken(g.player) && !r.interactable[i]
    // a completed line wins, even when the board is also full
    ensures g.board[i] == Empty && Wins(r.board, g.player) ==>
              !r.active && r.player == g.player && forall j :: 0 <= j < 9 ==> !r.interactable[j]
    // a full board without a line is a draw
    ensures g.board[i] == Empty && !Wins(r.board, g.player) && Full(r.board) ==>
              !r.active && r.player == g.player
    // otherwise the turn passes and the active flag is left as it was
    ensures g.board[i] == Empty && !Wins(r.board, g.player) && !Full(r.board) ==>
              r.active == g.active && r.player == Other(g.player)
    // the flags of the other buttons change only when all are disabled on a win
    ensures !Wins(r.board, g.player) ==>
              forall j :: 0 <= j < 9 && j != i ==> r.interactable[j] == g.interactable[j]
  {
    var b := g.board[i := Taken(g.player)];
    var flags := g.interactable[i := false];
    match Verdict(g, i)
    case Ignored => g
    case Won(_) => Game(b, g.player, false, seq(9, _ => false))
    case Drawn => Game(b, g.player, false, flags)
    case NextTurn => Game(b, Other(g.player), g.active, flags)
  }

  /** A click as the button layer delivers it: a disabled button ignores it. */
  function Press(g: Game, i: Index): (r: Game)
    ensures !g.interactable[i] ==> r == g
    ensures g.interactable[i] ==> r == Play(g, i)
  {
    if g.interactable[i] then Play(g, i) else g
  }

  /** A sequence of clicks, one after the other. */
  function Run(g: Game, clicks: seq<Index>): Game
    decreases |clicks|
  {
    if clicks == [] then g else Run(Press(g, clicks[0]), clicks[1..])
  }

  /** Playing two sequences of clicks one after the other is playing their
      concatenation. */
  lemma {:induction false} RunAppend(g: Game, first: seq<Index>, second: seq<Index>)
    ensures Run(g, first + second) == Run(Run(g, first), second)
    decreases |first|
  {
    if first != [] {
      assert (first + second)[1..] == first[1..] + second;
      RunAppend(Press(g, first[0]), first[1..], second);
    } else {
      assert first + second == second;
    }
  }

  /** What holds of every state reachable by clicks from Fresh(). While the
      game is on, exactly the empty cells are clickable, nobody has a line,
      the board has room, and X has made as many moves as O when X is to
      move and one more when O is to move. When it is over, every button is
      disabled, the last mover has a line or the board is full, and the
      last mover made the latest move. The waiting player never has a line. */
  ghost predicate Consistent(g: Game)
  {
    var b, p := g.board, g.player;
    && !Wins(b, Other(p))
    && (g.active ==>
          && !Wins(b, p)
          && !Full(b)
          && (forall j :: 0 <= j < 9 ==> (g.interactable[j] <==> b[j] == Empty))
          && Marks(b, X) == Marks(b, O) + (if p == X then 0 else 1))
    && (!g.active ==>
          && (Wins(b, p) || Full(b))
          && (forall j :: 0 <= j < 9 ==> !g.interactable[j])
          && Marks(b, X) == Marks(b, O) + (if p == X then 1 else 0))
  }

  lemma FreshConsistent()
    ensures Consistent(Fresh())
  {
    var g := Fresh();
    assert Taken(X) !in multiset(g.board) && Taken(O) !in multiset(g.board);
    assert !Full(g.board) by { assert g.board[0] == Empty; }
    WinsCases(g.board, X);
    WinsCases(g.board, O);
  }

  /** A click keeps every property of reachable states. */
  lemma PressPreservesConsistent(g: Game, i: Index)
    requires Consistent(g)
    ensures Consistent(Press(g, i))
  {
    if g.interactable[i] {
      var p := g.player;
      assert g.active && g.board[i] == Empty;
      var b := g.board[i := Taken(p)];
      MoveKeepsOtherLines(g.board, i, p, Other(p));
      MoveCountsOneMark(g.board, i, p);
      var r := Play(g, i);
      if !Wins(b, p) && Full(b) {
        forall j | 0 <= j < 9 ensures !r.interactable[j] {
          assert b[j] != Empty;
        }
      } else if !Wins(b, p) && !Full(b) {
        assert Other(Other(p)) == p;
      }
    }
  }

  lemma {:induction false} RunPreservesConsistent(g: Game, clicks: seq<Index>)
    requires Consistent(g)
    ensures Consistent(Run(g, clicks))
    decreases |clicks|
  {
    if clicks != [] {
      PressPreservesConsistent(g, clicks[0]);
      RunPreservesConsistent(Press(g, clicks[0]), clicks[1..]);
    }
  }

  /** Once a game is over, no click changes anything until it is reset. */
  lemma {:induction false} GameOverIsFinal(g: Game, clicks: seq<Index>)
    requires Consistent(g) && !g.active
    ensures Run(g, clicks) == g
    decreases |clicks|
  {
    if clicks != [] {
      assert Press(g, clicks[0]) == g;
      GameOverIsFinal(g, clicks[1..]);
    }
  }

  /** Turns alternate X, O, X, ... from a fresh game: X is never behind and
      never more than one move ahead, and while the game is on X is to move
      exactly when both have made the same number of moves. */
  lemma TurnsAlternate(clicks: seq<Index>)
    ensures var g := Run(Fresh(), clicks);
      && (Marks(g.board, X) == Marks(g.board, O) || Marks(g.board, X) == Marks(g.board, O) + 1)
      && (g.active ==> (g.player == X <==> Marks(g.board, X) == Marks(g.board, O)))
  {
    FreshConsistent();
    RunPreservesConsistent(Fresh(), clicks);
  }

  /** A marked cell keeps its mark through any clicks; only a reset clears
      it. */
  lemma {:induction false} MarksAreKept(g: Game, clicks: seq<Index>, j: Index)
    requires g.board[j] != Empty
    ensures Run(g, clicks).board[j] == g.board[j]
    decreases |clicks|
  {
    if clicks != [] {
      MarksAreKept(Press(g, clicks[0]), clicks[1..], j);
    }
  }

  /** Clicking the same cell twice has the effect of clicking it once: a
      cell once marked is kept until the next reset. */
  lemma PlayTwiceIsPlayOnce(g: Game, i: Index)
    ensures Play(Play(g, i), i) == Play(g, i)
  {
  }
}
