/** The 3x3 board of the game: players, cells, the eight winning lines, and
    the win and draw conditions that GameManager.CheckForWin and
    GameManager.CheckForDraw scan for. */
module Board {

  datatype Option<T> = None | Some(value: T)

  /** Player X is written "1" on the board and player O is written "0". */
  datatype Player = X | O

  /** SwitchPlayer's toggle: "1" becomes "0" and anything else becomes "1". */
  function Other(p: Player): (q: Player)
    ensures q != p
  {
    if p == X then O else X
  }

  /** Switching twice gives the player back. */
  lemma SwitchTwiceIsIdentity(p: Player)
    ensures Other(Other(p)) == p
  {
  }

  /** A board cell: the C# GameManager stores null or "" for an empty cell
      and the mover's character otherwise. */
  datatype Cell = Empty | Taken(owner: Player)

  /** The text of a cell in the C# GameManager's string array. An empty cell
      holds null there, since Start and ResetGame allocate a fresh array; it
      is written "" here, and string.IsNullOrEmpty treats the two alike. */
  function CellText(c: Cell): (s: string)
    ensures s == "" <==> c == Empty
    ensures c == Taken(X) <==> s == "1"
    ensures c == Taken(O) <==> s == "0"
  {
    match c
    case Empty => ""
    case Taken(X) => "1"
    case Taken(O) => "0"
  }

  /** Comparing cell strings, as the C# GameManager does, is the same as
      comparing cells. */
  lemma CellTextInjective(c: Cell, d: Cell)
    ensures CellText(c) == CellText(d) <==> c == d
  {
  }

  /** A position on the board, numbered row by row from 0 to 8. */
  type Index = i: int | 0 <= i < 9

  /** The nine cells in row-major order. */
  type Board = b: seq<Cell> | |b| == 9 witness seq(9, _ => Empty)

  type Line = (Index, Index, Index)

  /** The win conditions in the order they are scanned: rows, columns, then
      the two diagonals. */
  const WinConditions: seq<Line> :=
    [(0, 1, 2), (3, 4, 5), (6, 7, 8),
     (0, 3, 6), (1, 4, 7), (2, 5, 8),
     (0, 4, 8), (2, 4, 6)]

  const EmptyBoard: Board := seq(9, _ => Empty)

  /** All three cells of `line` hold `p`. */
  predicate Holds(b: Board, p: Player, line: Line)
  {
    b[line.0] == Taken(p) && b[line.1] == Taken(p) && b[line.2] == Taken(p)
  }

  /** Some win condition is completed by `p`. */
  predicate Wins(b: Board, p: Player)
  {
    exists k :: 0 <= k < |WinConditions| && Holds(b, p, WinConditions[k])
  }

  /** Win condition `k` is the first one, in scanning order, that `p` holds. */
  predicate IsFirstWin(b: Board, p: Player, k: int)
  {
    && 0 <= k < |WinConditions|
    && Holds(b, p, WinConditions[k])
    && forall j :: 0 <= j < k ==> !Holds(b, p, WinConditions[j])
  }

  /** No cell is empty. */
  predicate Full(b: Board)
  {
    forall i :: 0 <= i < |b| ==> b[i] != Empty
  }

  /** The number of cells `p` has played. */
  function Marks(b: Board, p: Player): nat
  {
    multiset(b)[Taken(p)]
  }

  /** Whoever wins has a first winning line, so the scan always reports one
      line, and only one line can be the first. */
  lemma FirstWinExists(b: Board, p: Player)
    ensures Wins(b, p) <==> exists k :: IsFirstWin(b, p, k)
    ensures forall k, k' :: IsFirstWin(b, p, k) && IsFirstWin(b, p, k') ==> k == k'
  {
    if Wins(b, p) {
      var k :| 0 <= k < |WinConditions| && Holds(b, p, WinConditions[k]);
      var m := k;
      while m > 0 && !IsFirstWin(b, p, m)
        invariant 0 <= m <= k
        invariant Holds(b, p, WinConditions[m])
        decreases m
      {
        var j :| 0 <= j < m && Holds(b, p, WinConditions[j]);
        m := j;
      }
      assert IsFirstWin(b, p, m);
    }
  }

  /** CheckForWin's scan from win condition `from` on: the first condition
      that `p` holds, if there is one. */
  function FirstWinFrom(b: Board, p: Player, from: nat): (k: Option<int>)
    requires from <= |WinConditions|
    ensures k.Some? ==> from <= k.value < |WinConditions| && Holds(b, p, WinConditions[k.value])
    ensures k.Some? ==> forall j :: from <= j < k.value ==> !Holds(b, p, WinConditions[j])
    ensures k.None? ==> forall j :: from <= j < |WinConditions| ==> !Holds(b, p, WinConditions[j])
    decreases |WinConditions| - from
  {
    if from == |WinConditions| then None
    else if Holds(b, p, WinConditions[from]) then Some(from)
    else FirstWinFrom(b, p, from + 1)
  }

  /** The win condition CheckForWin reports: some condition exactly when `p`
      wins, and then the first one in scanning order. */
  function FirstWin(b: Board, p: Player): (k: Option<int>)
    ensures k.Some? <==> Wins(b, p)
    ensures k.Some? ==> IsFirstWin(b, p, k.value)
  {
    FirstWinFrom(b, p, 0)
  }

  /** The eight win conditions spelled out; used to decide concrete boards. */
  lemma WinsCases(b: Board, p: Player)
    ensures Wins(b, p) <==>
      || Holds(b, p, (0, 1, 2)) || Holds(b, p, (3, 4, 5)) || Holds(b, p, (6, 7, 8))
      || Holds(b, p, (0, 3, 6)) || Holds(b, p, (1, 4, 7)) || Holds(b, p, (2, 5, 8))
      || Holds(b, p, (0, 4, 8)) || Holds(b, p, (2, 4, 6))
  {
    if Wins(b, p) {
      var k :| 0 <= k < |WinConditions| && Holds(b, p, WinConditions[k]);
      assert WinConditions[k] in WinConditions;
    } else {
      assert !Holds(b, p, WinConditions[0]) && !Holds(b, p, WinConditions[1]);
      assert !Holds(b, p, WinConditions[2]) && !Holds(b, p, WinConditions[3]);
      assert !Holds(b, p, WinConditions[4]) && !Holds(b, p, WinConditions[5]);
      assert !Holds(b, p, WinConditions[6]) && !Holds(b, p, WinConditions[7]);
    }
  }

  /** Marking an empty cell for `p` cannot make or break a line of the other
      player. */
  lemma MoveKeepsOtherLines(b: Board, i: Index, p: Player, q: Player)
    requires b[i] == Empty && q != p
    ensures Wins(b[i := Taken(p)], q) <==> Wins(b, q)
  {
    var b' := b[i := Taken(p)];
    if Wins(b', q) {
      var k :| 0 <= k < |WinConditions| && Holds(b', q, WinConditions[k]);
      assert Holds(b, q, WinConditions[k]);
    }
    if Wins(b, q) {
      var k :| 0 <= k < |WinConditions| && Holds(b, q, WinConditions[k]);
      assert Holds(b', q, WinConditions[k]);
    }
  }

  /** Marking an empty cell for `p` adds one mark for `p` and none for the
      other player. */
  lemma MoveCountsOneMark(b: Board, i: Index, p: Player)
    requires b[i] == Empty
    ensures Marks(b[i := Taken(p)], p) == Marks(b, p) + 1
    ensures Marks(b[i := Taken(p)], Other(p)) == Marks(b, Other(p))
  {
    var b' := b[i := Taken(p)];
    assert multiset(b') == multiset(b) - multiset{Empty} + multiset{Taken(p)};
  }
}
