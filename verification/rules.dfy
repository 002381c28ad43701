/**
 * The board predicates of the move-resolution endpoint: who has a line,
 * whether the board is full, and which cells are still free.
 */
module Rules {
  import opened Protocol

  /** The eight winning lines, in the endpoint's order: rows, columns, diagonals. */
  const WIN_LINES: seq<seq<nat>> := [
    [0, 1, 2], [3, 4, 5], [6, 7, 8],
    [0, 3, 6], [1, 4, 7], [2, 5, 8],
    [0, 4, 8], [2, 4, 6]
  ]

  /** Each of the three cells of `line` holds `player`. */
  predicate LineHeld(b: Board, player: string, line: seq<nat>)
    requires |b| == CELLS && |line| == 3 && line[0] < CELLS && line[1] < CELLS && line[2] < CELLS
  {
    b[line[0]] == player && b[line[1]] == player && b[line[2]] == player
  }

  /** Every line of `lines` names three cells of the board. */
  predicate LinesOnBoard(lines: seq<seq<nat>>) {
    forall k :: 0 <= k < |lines| ==> |lines[k]| == 3 && lines[k][0] < CELLS && lines[k][1] < CELLS && lines[k][2] < CELLS
  }

  /** Some line of `lines` is held by `player`, trying them in order. */
  predicate AnyLineHeld(b: Board, player: string, lines: seq<seq<nat>>)
    requires |b| == CELLS && LinesOnBoard(lines)
  {
    lines != [] && (LineHeld(b, player, lines[0]) || AnyLineHeld(b, player, lines[1..]))
  }

  // A geometric reading of the 3x3 grid, independent of WIN_LINES.

  /** The cell in row `r`, column `c` of the row-major board. */
  function At(b: Board, r: nat, c: nat): string
    requires |b| == CELLS && r < 3 && c < 3
  {
    b[3 * r + c]
  }

  predicate RowHeld(b: Board, player: string, r: nat)
    requires |b| == CELLS && r < 3
  {
    forall c :: 0 <= c < 3 ==> At(b, r, c) == player
  }

  predicate ColumnHeld(b: Board, player: string, c: nat)
    requires |b| == CELLS && c < 3
  {
    forall r :: 0 <= r < 3 ==> At(b, r, c) == player
  }

  predicate DiagonalHeld(b: Board, player: string)
    requires |b| == CELLS
  {
    forall i :: 0 <= i < 3 ==> At(b, i, i) == player
  }

  function AntiAt(b: Board, i: nat): string
    requires |b| == CELLS && i < 3
  {
    At(b, i, 2 - i)
  }

  predicate AntiDiagonalHeld(b: Board, player: string)
    requires |b| == CELLS
  {
    forall i :: 0 <= i < 3 ==> AntiAt(b, i) == player
  }

  /** `check_winner`: some line of WIN_LINES is held entirely by `player`. */
  function CheckWinner(b: Board, player: string): bool
    requires |b| == CELLS
  {
    AnyLineHeld(b, player, WIN_LINES)
  }

  /** One step through the table, from line `i` on. */
  lemma AnyLineHeldCons(b: Board, player: string, lines: seq<seq<nat>>, i: nat)
    requires |b| == CELLS && LinesOnBoard(lines) && i < |lines|
    ensures AnyLineHeld(b, player, lines[i..]) <==>
      LineHeld(b, player, lines[i]) || AnyLineHeld(b, player, lines[i + 1..])
  {
    assert lines[i..][0] == lines[i];
    assert lines[i..][1..] == lines[i + 1..];
  }

  lemma RowCells(b: Board, player: string, r: nat)
    requires |b| == CELLS && r < 3
    ensures RowHeld(b, player, r) <==> b[3 * r] == player && b[3 * r + 1] == player && b[3 * r + 2] == player
    ensures ColumnHeld(b, player, r) <==> b[r] == player && b[r + 3] == player && b[r + 6] == player
  {
    assert At(b, r, 0) == b[3 * r] && At(b, r, 1) == b[3 * r + 1] && At(b, r, 2) == b[3 * r + 2];
    assert At(b, 0, r) == b[r] && At(b, 1, r) == b[r + 3] && At(b, 2, r) == b[r + 6];
  }

  /** The table, cell by cell. */
  lemma WinnerCells(b: Board, player: string)
    requires |b| == CELLS
    ensures CheckWinner(b, player) <==>
      (b[0] == player && b[1] == player && b[2] == player) ||
      (b[3] == player && b[4] == player && b[5] == player) ||
      (b[6] == player && b[7] == player && b[8] == player) ||
      (b[0] == player && b[3] == player && b[6] == player) ||
      (b[1] == player && b[4] == player && b[7] == player) ||
      (b[2] == player && b[5] == player && b[8] == player) ||
      (b[0] == player && b[4] == player && b[8] == player) ||
      (b[2] == player && b[4] == player && b[6] == player)
  {
    var l := WIN_LINES;
    assert !AnyLineHeld(b, player, l[8..]);
    AnyLineHeldCons(b, player, l, 7);
    AnyLineHeldCons(b, player, l, 6);
    AnyLineHeldCons(b, player, l, 5);
    AnyLineHeldCons(b, player, l, 4);
    AnyLineHeldCons(b, player, l, 3);
    AnyLineHeldCons(b, player, l, 2);
    AnyLineHeldCons(b, player, l, 1);
    AnyLineHeldCons(b, player, l, 0);
    assert l[0..] == l;
  }

  /**
   * The line table is exactly the three rows, the three columns and the two
   * diagonals of the row-major 3x3 grid.
   */
  lemma {:induction false} CheckWinnerGeometry(b: Board, player: string)
    requires |b| == CELLS
    ensures CheckWinner(b, player) <==>
      (exists r :: 0 <= r < 3 && RowHeld(b, player, r)) ||
      (exists c :: 0 <= c < 3 && ColumnHeld(b, player, c)) ||
      DiagonalHeld(b, player) || AntiDiagonalHeld(b, player)
  {
    WinnerCells(b, player);
    RowCells(b, player, 0);
    RowCells(b, player, 1);
    RowCells(b, player, 2);
    assert DiagonalHeld(b, player) <==> At(b, 0, 0) == player && At(b, 1, 1) == player && At(b, 2, 2) == player;
    assert AntiDiagonalHeld(b, player) <==> AntiAt(b, 0) == player && AntiAt(b, 1) == player && AntiAt(b, 2) == player;
    assert (exists r :: 0 <= r < 3 && RowHeld(b, player, r)) <==>
      RowHeld(b, player, 0) || RowHeld(b, player, 1) || RowHeld(b, player, 2);
    assert (exists c :: 0 <= c < 3 && ColumnHeld(b, player, c)) <==>
      ColumnHeld(b, player, 0) || ColumnHeld(b, player, 1) || ColumnHeld(b, player, 2);
  }

  /** `is_board_full`: no cell is "". */
  function IsBoardFull(b: Board): (full: bool)
    ensures full <==> forall i :: 0 <= i < |b| ==> b[i] != EMPTY
    ensures full <==> EmptyCount(b) == 0
  {
    EMPTY !in b
  }

  /** The indices of the empty cells from `start` on, ascending. */
  function AvailableFrom(b: Board, start: nat): (moves: seq<nat>)
    requires start <= |b|
    ensures EmptiesFrom(b, start, moves)
    decreases |b| - start
  {
    if start == |b| then []
    else
      var rest := AvailableFrom(b, start + 1);
      EmptiesFromStep(b, start, rest);
      (if b[start] == EMPTY then [start] else []) + rest
  }

  /** `moves` lists, in ascending order, exactly the empty cells of `b` from `start` on. */
  ghost predicate EmptiesFrom(b: Board, start: nat, moves: seq<nat>)
    requires start <= |b|
  {
    (forall i :: i in moves ==> start <= i < |b| && b[i] == EMPTY) &&
    (forall i :: start <= i < |b| && b[i] == EMPTY ==> i in moves) &&
    (forall j, k :: 0 <= j < k < |moves| ==> moves[j] < moves[k]) &&
    |moves| == EmptyCount(b[start..])
  }

  /** Prepending cell `start` (when empty) to the list for `start + 1` gives the list for `start`. */
  lemma EmptiesFromStep(b: Board, start: nat, rest: seq<nat>)
    requires start < |b| && EmptiesFrom(b, start + 1, rest)
    ensures EmptiesFrom(b, start, (if b[start] == EMPTY then [start] else []) + rest)
  {
    assert b[start..][1..] == b[start + 1..];
    assert forall k :: 0 <= k < |rest| ==> start < rest[k] by {
      forall k | 0 <= k < |rest| ensures start < rest[k] { assert rest[k] in rest; }
    }
  }

  /** `get_available_moves`: exactly the empty cells, in ascending order. */
  function AvailableMoves(b: Board): (moves: seq<nat>)
    ensures forall i :: i in moves <==> 0 <= i < |b| && b[i] == EMPTY
    ensures forall j, k :: 0 <= j < k < |moves| ==> moves[j] < moves[k]
    ensures |moves| == EmptyCount(b)
  {
    assert b[0..] == b;
    AvailableFrom(b, 0)
  }

  /** The cells in `moves` can all be marked: each is on the board and empty. */
  ghost predicate Playable(b: Board, moves: seq<nat>) {
    forall j :: 0 <= j < |moves| ==> moves[j] < |b| && b[moves[j]] == EMPTY
  }

  /** The board is full exactly when no move is available. */
  lemma FullIffNoMoves(b: Board)
    ensures IsBoardFull(b) <==> AvailableMoves(b) == []
  {
  }

  /** Placing a mark other than `player` cannot create a line for `player`. */
  lemma {:induction false} MarkKeepsOtherLines(b: Board, k: nat, mark: string, player: string)
    requires |b| == CELLS && k < CELLS && mark != player
    ensures CheckWinner(b[k := mark], player) ==> CheckWinner(b, player)
  {
    WinnerCells(b, player);
    WinnerCells(b[k := mark], player);
  }
}
