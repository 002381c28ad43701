/**
 * The minimax search of the hard bot. `Score` is the value the search
 * computes, as a recursive function on the board; `Minimax` is the search
 * itself, which tries each move by writing it into the board and erasing it
 * again.
 */
module Search {
  import opened Protocol
  import opened Rules

  const WIN_SCORE: int := 10
  /** Stand-ins for the float infinities: every score lies in -10..10. */
  const NEG_INF: int := -11
  const POS_INF: int := 11

  function Max(a: int, b: int): int { if a >= b then a else b }
  function Min(a: int, b: int): int { if a <= b then a else b }

  /** The mark the side to move places: O maximizes, X minimizes. */
  function Mover(maximizing: bool): string {
    if maximizing then MARK_O else MARK_X
  }

  /** The running maximum (or minimum) `acc`, folded left over `scores`. */
  function Fold(scores: seq<int>, maximizing: bool, acc: int): int {
    if scores == [] then acc
    else Fold(scores[1..], maximizing, if maximizing then Max(scores[0], acc) else Min(scores[0], acc))
  }

  /**
   * The value of `b` with `depth` moves already searched: a win for O is
   * worth 10 - depth, a win for X depth - 10, a full board 0, otherwise the
   * best value for the side to move over all empty cells.
   */
  function Score(b: Board, depth: nat, maximizing: bool): int
    requires |b| == CELLS
    decreases EmptyCount(b), 2
  {
    if CheckWinner(b, MARK_O) then WIN_SCORE - depth
    else if CheckWinner(b, MARK_X) then depth - WIN_SCORE
    else if IsBoardFull(b) then 0
    else
      AvailablePlayable(b);
      Fold(ChildScores(b, AvailableMoves(b), depth, maximizing), maximizing, if maximizing then NEG_INF else POS_INF)
  }

  /** The score of playing `m` on `b` for the side to move. */
  function ChildScore(b: Board, m: nat, depth: nat, maximizing: bool): int
    requires |b| == CELLS && m < CELLS && b[m] == EMPTY
    decreases EmptyCount(b), 0
  {
    EmptyCountMark(b, m, Mover(maximizing));
    Score(b[m := Mover(maximizing)], depth + 1, !maximizing)
  }

  /** The scores of the moves in `moves`, in order. */
  function ChildScores(b: Board, moves: seq<nat>, depth: nat, maximizing: bool): (scores: seq<int>)
    requires |b| == CELLS && Playable(b, moves)
    ensures |scores| == |moves|
    decreases EmptyCount(b), 1, |moves|
  {
    if moves == [] then []
    else [ChildScore(b, moves[0], depth, maximizing)] + ChildScores(b, moves[1..], depth, maximizing)
  }

  lemma AvailablePlayable(b: Board)
    ensures Playable(b, AvailableMoves(b))
  {
    forall j | 0 <= j < |AvailableMoves(b)|
      ensures AvailableMoves(b)[j] < |b| && b[AvailableMoves(b)[j]] == EMPTY
    {
      assert AvailableMoves(b)[j] in AvailableMoves(b);
    }
  }

  lemma {:induction false} ChildScoresAt(b: Board, moves: seq<nat>, depth: nat, maximizing: bool, k: nat)
    requires |b| == CELLS && Playable(b, moves) && k < |moves|
    ensures moves[k] < CELLS && b[moves[k]] == EMPTY
    ensures ChildScores(b, moves, depth, maximizing)[k] == ChildScore(b, moves[k], depth, maximizing)
  {
    if k > 0 {
      ChildScoresAt(b, moves[1..], depth, maximizing, k - 1);
    }
  }

  /**
   * The terminal values: 10 - depth when O holds a line, depth - 10 when X
   * does (and O does not), 0 on a full board without a line.
   */
  lemma ScoreTerminal(b: Board, depth: nat, maximizing: bool)
    requires |b| == CELLS
    ensures CheckWinner(b, MARK_O) ==> Score(b, depth, maximizing) == 10 - depth
    ensures !CheckWinner(b, MARK_O) && CheckWinner(b, MARK_X) ==> Score(b, depth, maximizing) == depth - 10
    ensures !CheckWinner(b, MARK_O) && !CheckWinner(b, MARK_X) && IsBoardFull(b) ==> Score(b, depth, maximizing) == 0
  {
  }

  /** Past the three terminal tests, the score is the fold over the available moves. */
  lemma ScoreUnfold(b: Board, depth: nat, maximizing: bool)
    requires |b| == CELLS
    requires !CheckWinner(b, MARK_O) && !CheckWinner(b, MARK_X) && !IsBoardFull(b)
    ensures Playable(b, AvailableMoves(b))
    ensures Score(b, depth, maximizing) ==
      Fold(ChildScores(b, AvailableMoves(b), depth, maximizing), maximizing, if maximizing then NEG_INF else POS_INF)
  {
    AvailablePlayable(b);
  }

  /** One step of the fold. */
  lemma FoldStep(scores: seq<int>, i: nat, maximizing: bool, acc: int)
    requires i < |scores|
    ensures Fold(scores[i..], maximizing, acc) ==
      Fold(scores[i + 1..], maximizing, if maximizing then Max(scores[i], acc) else Min(scores[i], acc))
  {
    assert scores[i..][0] == scores[i];
    assert scores[i..][1..] == scores[i + 1..];
  }

  /**
   * The fold computes the maximum (minimum) of `acc` and `scores`: it is no
   * smaller (no larger) than each of them and equal to one of them.
   */
  lemma {:induction false} FoldExtreme(scores: seq<int>, maximizing: bool, acc: int)
    ensures maximizing ==> (Fold(scores, maximizing, acc) >= acc &&
      forall k :: 0 <= k < |scores| ==> Fold(scores, maximizing, acc) >= scores[k])
    ensures !maximizing ==> (Fold(scores, maximizing, acc) <= acc &&
      forall k :: 0 <= k < |scores| ==> Fold(scores, maximizing, acc) <= scores[k])
    ensures Fold(scores, maximizing, acc) == acc ||
      (exists k :: 0 <= k < |scores| && Fold(scores, maximizing, acc) == scores[k])
  {
    if scores != [] {
      var acc' := if maximizing then Max(scores[0], acc) else Min(scores[0], acc);
      FoldExtreme(scores[1..], maximizing, acc');
      var r := Fold(scores, maximizing, acc);
      assert r == Fold(scores[1..], maximizing, acc');
      forall k | 0 < k < |scores|
        ensures maximizing ==> r >= scores[k]
        ensures !maximizing ==> r <= scores[k]
      {
        assert scores[k] == scores[1..][k - 1];
      }
      if r != acc' {
        var k :| 0 <= k < |scores[1..]| && r == scores[1..][k];
        assert r == scores[k + 1];
      }
    }
  }

  /**
   * Score range: with at most 10 plies searched in all, a board is worth
   * between depth - 10 and 10 - depth, so every score lies in -10..10 and
   * the sentinels NEG_INF and POS_INF are never returned.
   */
  lemma {:induction false} ScoreRange(b: Board, depth: nat, maximizing: bool)
    requires |b| == CELLS && depth + EmptyCount(b) <= 10
    ensures depth - WIN_SCORE <= Score(b, depth, maximizing) <= WIN_SCORE - depth
    decreases EmptyCount(b), 2
  {
    ScoreTerminal(b, depth, maximizing);
    if !CheckWinner(b, MARK_O) && !CheckWinner(b, MARK_X) && !IsBoardFull(b) {
      ScoreUnfold(b, depth, maximizing);
      var moves := AvailableMoves(b);
      var scores := ChildScores(b, moves, depth, maximizing);
      ChildScoresRange(b, moves, depth, maximizing);
      FoldExtreme(scores, maximizing, if maximizing then NEG_INF else POS_INF);
      // There is at least one move, so the sentinel start value is beaten.
      assert depth + 1 - WIN_SCORE <= scores[0] <= WIN_SCORE - (depth + 1);
    }
  }

  /** Every child of `b` is worth between depth + 1 - 10 and 10 - (depth + 1). */
  lemma {:induction false} ChildScoresRange(b: Board, moves: seq<nat>, depth: nat, maximizing: bool)
    requires |b| == CELLS && Playable(b, moves) && depth + EmptyCount(b) <= 10
    ensures forall k :: 0 <= k < |moves| ==>
      depth + 1 - WIN_SCORE <= ChildScores(b, moves, depth, maximizing)[k] <= WIN_SCORE - (depth + 1)
    decreases EmptyCount(b), 1
  {
    forall k | 0 <= k < |moves|
      ensures depth + 1 - WIN_SCORE <= ChildScores(b, moves, depth, maximizing)[k] <= WIN_SCORE - (depth + 1)
    {
      ChildScoresAt(b, moves, depth, maximizing, k);
      EmptyCountMark(b, moves[k], Mover(maximizing));
      ChildScoreRange(b, b[moves[k] := Mover(maximizing)], depth, maximizing);
    }
  }

  /** The induction step: a board `c` with fewer empty cells than `b`, one ply deeper. */
  lemma {:induction false} ChildScoreRange(b: Board, c: Board, depth: nat, maximizing: bool)
    requires |b| == CELLS && |c| == CELLS && EmptyCount(c) < EmptyCount(b) && depth + 1 + EmptyCount(c) <= 10
    ensures depth + 1 - WIN_SCORE <= Score(c, depth + 1, !maximizing) <= WIN_SCORE - (depth + 1)
    decreases EmptyCount(b), 0
  {
    ScoreRange(c, depth + 1, !maximizing);
  }

  /**
   * A move that completes a line for O is the best O can do: on a board with
   * no line yet, such a move makes the board worth 10 - (depth + 1) to O.
   */
  lemma ImmediateWin(b: Board, m: nat, depth: nat)
    requires |b| == CELLS && m < CELLS && b[m] == EMPTY && depth + EmptyCount(b) <= 10
    requires !CheckWinner(b, MARK_O) && !CheckWinner(b, MARK_X) && CheckWinner(b[m := MARK_O], MARK_O)
    ensures Score(b, depth, true) == WIN_SCORE - (depth + 1)
  {
    ImmediateCompletion(b, m, depth, true);
  }

  /**
   * Symmetrically, a move that completes a line for X is the best X can do:
   * the board is then worth depth + 1 - 10.
   */
  lemma ImmediateLoss(b: Board, m: nat, depth: nat)
    requires |b| == CELLS && m < CELLS && b[m] == EMPTY && depth + EmptyCount(b) <= 10
    requires !CheckWinner(b, MARK_O) && !CheckWinner(b, MARK_X) && CheckWinner(b[m := MARK_X], MARK_X)
    ensures Score(b, depth, false) == depth + 1 - WIN_SCORE
  {
    ImmediateCompletion(b, m, depth, false);
  }

  lemma ImmediateCompletion(b: Board, m: nat, depth: nat, maximizing: bool)
    requires |b| == CELLS && m < CELLS && b[m] == EMPTY && depth + EmptyCount(b) <= 10
    requires !CheckWinner(b, MARK_O) && !CheckWinner(b, MARK_X)
    requires CheckWinner(b[m := Mover(maximizing)], Mover(maximizing))
    ensures Score(b, depth, maximizing) ==
      if maximizing then WIN_SCORE - (depth + 1) else depth + 1 - WIN_SCORE
  {
    assert !IsBoardFull(b);
    ScoreUnfold(b, depth, maximizing);
    var moves := AvailableMoves(b);
    var scores := ChildScores(b, moves, depth, maximizing);
    assert m in moves;
    var i :| 0 <= i < |moves| && moves[i] == m;
    ChildScoresAt(b, moves, depth, maximizing, i);
    EmptyCountMark(b, m, Mover(maximizing));
    if maximizing {
      ScoreTerminal(b[m := MARK_O], depth + 1, false);
    } else {
      MarkKeepsOtherLines(b, m, MARK_X, MARK_O);
      ScoreTerminal(b[m := MARK_X], depth + 1, true);
    }
    ChildScoresRange(b, moves, depth, maximizing);
    FoldExtreme(scores, maximizing, if maximizing then NEG_INF else POS_INF);
  }

  lemma Restore(b: Board, k: nat, mark: string)
    requires k < |b| && b[k] == EMPTY
    ensures b[k := mark][k := EMPTY] == b
  {
  }

  /**
   * `minimax(board, depth, is_maximizing)`: returns the score of the board
   * and leaves the board as it found it, since every trial mark is erased.
   */
  method Minimax(board: array<string>, depth: nat, isMaximizing: bool) returns (score: int)
    requires board.Length == CELLS
    modifies board
    ensures board[..] == old(board[..])
    ensures score == Score(old(board[..]), depth, isMaximizing)
    decreases EmptyCount(board[..]), 1
  {
    ghost var b := board[..];
    ScoreTerminal(b, depth, isMaximizing);
    if CheckWinner(board[..], MARK_O) { return WIN_SCORE - depth; }
    if CheckWinner(board[..], MARK_X) { return depth - WIN_SCORE; }
    if IsBoardFull(board[..]) { return 0; }

    var moves := AvailableMoves(board[..]);
    ScoreUnfold(b, depth, isMaximizing);
    if isMaximizing {
      var bestScore := NEG_INF;
      ghost var scores := ChildScores(b, moves, depth, true);
      assert scores[0..] == scores;
      for i := 0 to |moves|
        invariant board[..] == b
        invariant Fold(scores[i..], true, bestScore) == Score(b, depth, true)
      {
        ChildScoresAt(b, moves, depth, true, i);
        FoldStep(scores, i, true, bestScore);
        var s := TryMove(board, moves[i], depth, true);
        bestScore := Max(s, bestScore);
      }
      assert scores[|moves|..] == [];
      score := bestScore;
    } else {
      var bestScore := POS_INF;
      ghost var scores := ChildScores(b, moves, depth, false);
      assert scores[0..] == scores;
      for i := 0 to |moves|
        invariant board[..] == b
        invariant Fold(scores[i..], false, bestScore) == Score(b, depth, false)
      {
        ChildScoresAt(b, moves, depth, false, i);
        FoldStep(scores, i, false, bestScore);
        var s := TryMove(board, moves[i], depth, false);
        bestScore := Min(s, bestScore);
      }
      assert scores[|moves|..] == [];
      score := bestScore;
    }
  }

  /**
   * The body of the search loops: mark `move` for the side to move, search
   * one level deeper, and erase the mark again.
   */
  method TryMove(board: array<string>, move: nat, depth: nat, isMaximizing: bool) returns (score: int)
    requires board.Length == CELLS && move < CELLS && board[move] == EMPTY
    modifies board
    ensures board[..] == old(board[..])
    ensures score == ChildScore(old(board[..]), move, depth, isMaximizing)
    decreases EmptyCount(board[..]), 0
  {
    ghost var b := board[..];
    var mark := Mover(isMaximizing);
    board[move] := mark;
    assert board[..] == b[move := mark];
    EmptyCountMark(b, move, mark);
    score := Minimax(board, depth + 1, !isMaximizing);
    board[move] := EMPTY;
    Restore(b, move, mark);
    assert board[..] == b;
  }
}
