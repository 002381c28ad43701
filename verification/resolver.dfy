/**
 * The decision body of POST /api/move: report a finished board, otherwise
 * let the bot place one O in "ai" mode. The random draws of the endpoint are
 * inputs (`Chance`), so every answer is a function of the request and them.
 */
module Resolver {
  import opened Protocol
  import opened Rules
  import opened Search

  const EASY: string := "easy"
  const MEDIUM: string := "medium"
  const HARD: string := "hard"
  /** The endpoint's "no move chosen yet". */
  const NO_MOVE: int := -1

  /**
   * The random draws of one request: `roll` is the value of `random.random()`
   * (drawn at most once), `pick` selects the element `random.choice` returns.
   */
  datatype Chance = Chance(roll: real, pick: nat)

  /** `random.choice(moves)`, with the draw supplied as `pick`. */
  function RandomChoice(moves: seq<nat>, pick: nat): (m: nat)
    requires moves != []
    ensures m in moves
  {
    moves[pick % |moves|]
  }

  /** Every available move can come out of the draw. */
  lemma RandomChoiceCovers(moves: seq<nat>, m: nat)
    requires m in moves
    ensures exists pick :: RandomChoice(moves, pick) == m
  {
    var i :| 0 <= i < |moves| && moves[i] == m;
    assert i % |moves| == i;
    assert RandomChoice(moves, i) == m;
  }

  // The medium bot: first winning move, then first blocking move.

  /** Placing `player` on `m` gives `player` a line. */
  predicate Completes(b: Board, m: nat, player: string)
    requires |b| == CELLS && m < CELLS
  {
    CheckWinner(b[m := player], player)
  }

  /** All cells in `moves` lie on the board. */
  predicate OnBoard(moves: seq<nat>) {
    forall j :: 0 <= j < |moves| ==> moves[j] < CELLS
  }

  /** `moves[i]` completes a line for `player` and no earlier move does. */
  predicate FirstCompletingAt(b: Board, moves: seq<nat>, player: string, i: nat)
    requires |b| == CELLS && OnBoard(moves) && i < |moves|
  {
    Completes(b, moves[i], player) && forall j :: 0 <= j < i ==> !Completes(b, moves[j], player)
  }

  /**
   * The first move of `moves` that completes a line for `player`, or NO_MOVE
   * when there is none: what one trial loop of the medium bot finds.
   */
  function FirstCompleting(b: Board, moves: seq<nat>, player: string): (move: int)
    requires |b| == CELLS && OnBoard(moves)
    ensures move == NO_MOVE <==> forall j :: 0 <= j < |moves| ==> !Completes(b, moves[j], player)
    ensures move != NO_MOVE ==> exists i :: 0 <= i < |moves| && move == moves[i] && FirstCompletingAt(b, moves, player, i)
  {
    if moves == [] then NO_MOVE
    else if Completes(b, moves[0], player) then moves[0]
    else
      var rest := FirstCompleting(b, moves[1..], player);
      assert forall j :: 0 < j < |moves| ==> moves[j] == moves[1..][j - 1];
      rest
  }

  lemma FirstCompletingStep(b: Board, moves: seq<nat>, player: string, i: nat)
    requires |b| == CELLS && OnBoard(moves) && i < |moves|
    ensures FirstCompleting(b, moves[i..], player) ==
      if Completes(b, moves[i], player) then moves[i] else FirstCompleting(b, moves[i + 1..], player)
  {
    assert moves[i..][0] == moves[i];
    assert moves[i..][1..] == moves[i + 1..];
  }

  /**
   * One trial loop of the medium bot: write `player` into each available cell
   * in turn, stop at the first that wins, and erase every trial mark.
   */
  method CompletingMove(board: array<string>, available: seq<nat>, player: string) returns (move: int)
    requires board.Length == CELLS && OnBoard(available)
    requires forall j :: 0 <= j < |available| ==> board[available[j]] == EMPTY
    modifies board
    ensures board[..] == old(board[..])
    ensures move == FirstCompleting(old(board[..]), available, player)
  {
    ghost var b := board[..];
    move := NO_MOVE;
    var i := 0;
    assert available[0..] == available;
    while i < |available|
      invariant 0 <= i <= |available|
      invariant board[..] == b
      invariant FirstCompleting(b, available[i..], player) == FirstCompleting(b, available, player)
      invariant move == NO_MOVE
    {
      var m := available[i];
      FirstCompletingStep(b, available, player, i);
      board[m] := player;
      assert board[..] == b[m := player];
      if CheckWinner(board[..], player) {
        move := m;
        board[m] := EMPTY;
        assert board[..] == b;
        return;
      }
      board[m] := EMPTY;
      assert board[..] == b;
      i := i + 1;
    }
    assert available[i..] == [];
  }

  // The hard bot: the first move with the strictly greatest minimax score.

  /** The score of O playing `m`, as the hard bot asks minimax for it. */
  function TrialScore(b: Board, m: nat): int
    requires |b| == CELLS && m < CELLS && b[m] == EMPTY
  {
    Score(b[m := MARK_O], 0, false)
  }

  function TrialScores(b: Board, moves: seq<nat>): (scores: seq<int>)
    requires |b| == CELLS && Playable(b, moves)
    ensures |scores| == |moves|
  {
    if moves == [] then [] else [TrialScore(b, moves[0])] + TrialScores(b, moves[1..])
  }

  lemma {:induction false} TrialScoresAt(b: Board, moves: seq<nat>, k: nat)
    requires |b| == CELLS && Playable(b, moves) && k < |moves|
    ensures moves[k] < CELLS && b[moves[k]] == EMPTY
    ensures TrialScores(b, moves)[k] == TrialScore(b, moves[k])
  {
    if k > 0 {
      TrialScoresAt(b, moves[1..], k - 1);
    }
  }

  /**
   * The hard bot's loop over `scores` (one per move of `moves`): a score
   * strictly above `best` replaces it and makes its move the choice.
   */
  function PickFrom(scores: seq<int>, moves: seq<nat>, best: int, move: int): int
    requires |scores| == |moves|
  {
    if scores == [] then move
    else if scores[0] > best then PickFrom(scores[1..], moves[1..], scores[0], moves[0])
    else PickFrom(scores[1..], moves[1..], best, move)
  }

  lemma PickFromStep(scores: seq<int>, moves: seq<nat>, i: nat, best: int, move: int)
    requires |scores| == |moves| && i < |scores|
    ensures PickFrom(scores[i..], moves[i..], best, move) ==
      if scores[i] > best then PickFrom(scores[i + 1..], moves[i + 1..], scores[i], moves[i])
      else PickFrom(scores[i + 1..], moves[i + 1..], best, move)
  {
    assert scores[i..][0] == scores[i] && moves[i..][0] == moves[i];
    assert scores[i..][1..] == scores[i + 1..] && moves[i..][1..] == moves[i + 1..];
  }

  /** `scores[i]` is the greatest of `scores` and no earlier score equals it. */
  ghost predicate FirstMaxAt(scores: seq<int>, i: nat)
    requires i < |scores|
  {
    (forall j :: 0 <= j < |scores| ==> scores[j] <= scores[i]) &&
    (forall j :: 0 <= j < i ==> scores[j] < scores[i])
  }

  /** When no score beats `best`, the loop keeps `move`. */
  lemma {:induction false} PickFromKeeps(scores: seq<int>, moves: seq<nat>, best: int, move: int)
    requires |scores| == |moves|
    requires forall j :: 0 <= j < |scores| ==> scores[j] <= best
    ensures PickFrom(scores, moves, best, move) == move
  {
    if scores != [] {
      PickFromKeeps(scores[1..], moves[1..], best, move);
    }
  }

  /** When some score beats `best`, the loop returns the move of the first greatest score. */
  lemma {:induction false} PickFromFirstMax(scores: seq<int>, moves: seq<nat>, best: int, move: int)
    requires |scores| == |moves|
    requires exists j :: 0 <= j < |scores| && scores[j] > best
    ensures exists i ::
      0 <= i < |scores| && PickFrom(scores, moves, best, move) == moves[i] && scores[i] > best && FirstMaxAt(scores, i)
  {
    var r := PickFrom(scores, moves, best, move);
    var tail, tailMoves := scores[1..], moves[1..];
    assert forall j :: 0 < j < |scores| ==> scores[j] == tail[j - 1];
    if scores[0] > best && forall j :: 0 <= j < |tail| ==> tail[j] <= scores[0] {
      PickFromKeeps(tail, tailMoves, scores[0], moves[0]);
      assert r == moves[0] && FirstMaxAt(scores, 0);
    } else {
      var best' := if scores[0] > best then scores[0] else best;
      var move' := if scores[0] > best then moves[0] else move;
      assert r == PickFrom(tail, tailMoves, best', move');
      PickFromFirstMax(tail, tailMoves, best', move');
      var k :| 0 <= k < |tail| && r == tailMoves[k] && tail[k] > best' && FirstMaxAt(tail, k);
      assert r == moves[k + 1] && FirstMaxAt(scores, k + 1);
    }
  }

  /** What the hard bot's perfect-play loop returns. */
  function PerfectChoice(b: Board, moves: seq<nat>): int
    requires |b| == CELLS && Playable(b, moves)
  {
    PickFrom(TrialScores(b, moves), moves, NEG_INF, NO_MOVE)
  }

  /** Every trial score lies in -10..10, above the NEG_INF sentinel. */
  lemma TrialScoreRange(b: Board, m: nat)
    requires |b| == CELLS && m < CELLS && b[m] == EMPTY
    ensures -WIN_SCORE <= TrialScore(b, m) <= WIN_SCORE
  {
    TopScoreRange(b[m := MARK_O]);
  }

  lemma TopScoreRange(c: Board)
    requires |c| == CELLS
    ensures -WIN_SCORE <= Score(c, 0, false) <= WIN_SCORE
  {
    ScoreRange(c, 0, false);
  }

  /**
   * Perfect play always picks an available move, one whose minimax score no
   * other move exceeds, and the first such move in `moves`.
   */
  lemma PerfectChoiceBest(b: Board, moves: seq<nat>)
    requires |b| == CELLS && Playable(b, moves) && moves != []
    ensures exists i ::
      0 <= i < |moves| && PerfectChoice(b, moves) == moves[i] && FirstMaxAt(TrialScores(b, moves), i)
    ensures forall k :: 0 <= k < |moves| ==> TrialScores(b, moves)[k] == TrialScore(b, moves[k])
  {
    var scores := TrialScores(b, moves);
    forall k | 0 <= k < |moves| ensures scores[k] == TrialScore(b, moves[k]) {
      TrialScoresAt(b, moves, k);
    }
    TrialScoreRange(b, moves[0]);
    PickFromFirstMax(scores, moves, NEG_INF, NO_MOVE);
  }

  /** On a board without an O line, the top score 10 means O has just completed a line. */
  lemma {:induction false} TopScoreIsWin(c: Board)
    requires |c| == CELLS
    ensures Score(c, 0, false) == WIN_SCORE <==> CheckWinner(c, MARK_O)
  {
    ScoreTerminal(c, 0, false);
    if !CheckWinner(c, MARK_O) && !CheckWinner(c, MARK_X) && !IsBoardFull(c) {
      ScoreUnfold(c, 0, false);
      var moves := AvailableMoves(c);
      var scores := ChildScores(c, moves, 0, false);
      ChildScoresRange(c, moves, 0, false);
      FoldExtreme(scores, false, POS_INF);
      assert scores[0] <= WIN_SCORE - 1;
    }
  }

  lemma TrialScoreWin(b: Board, m: nat)
    requires |b| == CELLS && m < CELLS && b[m] == EMPTY
    ensures TrialScore(b, m) == WIN_SCORE <==> Completes(b, m, MARK_O)
  {
    TopScoreIsWin(b[m := MARK_O]);
  }

  /** When some available move wins at once for O, perfect play takes the first one. */
  lemma PerfectTakesWin(b: Board, moves: seq<nat>)
    requires |b| == CELLS && Playable(b, moves)
    requires exists j :: 0 <= j < |moves| && Completes(b, moves[j], MARK_O)
    ensures PerfectChoice(b, moves) == FirstCompleting(b, moves, MARK_O)
  {
    PerfectChoiceBest(b, moves);
    var scores := TrialScores(b, moves);
    var i :| 0 <= i < |moves| && PerfectChoice(b, moves) == moves[i] && FirstMaxAt(scores, i);
    var w :| 0 <= w < |moves| && Completes(b, moves[w], MARK_O);
    TrialScoreWin(b, moves[w]);
    TrialScoreRange(b, moves[i]);
    TrialScoreWin(b, moves[i]);
    forall j | 0 <= j < i ensures !Completes(b, moves[j], MARK_O) {
      TrialScoreWin(b, moves[j]);
    }
    FirstCompletingIs(b, moves, MARK_O, i);
  }

  /** FirstCompleting is the first completing move: any index with that property names it. */
  lemma FirstCompletingIs(b: Board, moves: seq<nat>, player: string, i: nat)
    requires |b| == CELLS && OnBoard(moves) && i < |moves| && Completes(b, moves[i], player)
    requires forall j :: 0 <= j < i ==> !Completes(b, moves[j], player)
    ensures FirstCompleting(b, moves, player) == moves[i]
  {
    var r := FirstCompleting(b, moves, player);
    var k :| 0 <= k < |moves| && r == moves[k] && FirstCompletingAt(b, moves, player, k);
    assert k == i;
  }

  /**
   * The hard bot's perfect-play loop: try O in each available cell, ask
   * minimax for the score of the result, erase the trial mark, and keep the
   * first move whose score is strictly the best so far.
   */
  method PerfectMove(board: array<string>, available: seq<nat>) returns (move: int)
    requires board.Length == CELLS && Playable(board[..], available)
    modifies board
    ensures board[..] == old(board[..])
    ensures move == PerfectChoice(old(board[..]), available)
  {
    ghost var b := board[..];
    ghost var scores := TrialScores(b, available);
    var bestScore := NEG_INF;
    move := NO_MOVE;
    assert scores[0..] == scores && available[0..] == available;
    for i := 0 to |available|
      invariant board[..] == b
      invariant PickFrom(scores[i..], available[i..], bestScore, move) == PerfectChoice(b, available)
    {
      var m := available[i];
      TrialScoresAt(b, available, i);
      PickFromStep(scores, available, i, bestScore, move);
      board[m] := MARK_O;
      assert board[..] == b[m := MARK_O];
      var score := Minimax(board, 0, false);
      board[m] := EMPTY;
      assert board[..] == b;
      if score > bestScore {
        bestScore := score;
        move := m;
      }
    }
    assert scores[|available|..] == [] && available[|available|..] == [];
  }

  // The decision.

  /** The level names the endpoint knows. */
  predicate KnownLevel(level: string) {
    level == EASY || level == MEDIUM || level == HARD
  }

  /**
   * The move the bot picks among `available` (all empty cells of `b`):
   * easy draws one; medium, when its roll exceeds 0.5, wins if it can, else
   * blocks X if it can, else draws; hard, when its roll exceeds 0.15, plays
   * perfectly, else draws. An unknown level picks nothing.
   */
  function ChooseMove(b: Board, available: seq<nat>, level: string, chance: Chance): (move: int)
    requires |b| == CELLS && available == AvailableMoves(b) && available != []
    ensures move == NO_MOVE <==> !KnownLevel(level)
    ensures move != NO_MOVE ==> move in available
  {
    AvailablePlayable(b);
    if level == EASY then RandomChoice(available, chance.pick)
    else if level == MEDIUM then
      if chance.roll > 0.5 then
        var win := FirstCompleting(b, available, MARK_O);
        if win != NO_MOVE then win
        else
          var block := FirstCompleting(b, available, MARK_X);
          if block != NO_MOVE then block
          else RandomChoice(available, chance.pick)
      else RandomChoice(available, chance.pick)
    else if level == HARD then
      if chance.roll > 0.15 then
        PerfectChoiceBest(b, available);
        PerfectChoice(b, available)
      else RandomChoice(available, chance.pick)
    else NO_MOVE
  }

  /** The answer once the bot has put its O on `m`: an O line, then a full board, ends the round. */
  function Place(b: Board, m: nat): Response
    requires |b| == CELLS && m < CELLS
  {
    var after := b[m := MARK_O];
    if CheckWinner(after, MARK_O) then Response(after, true, Some(MARK_O))
    else if IsBoardFull(after) then Response(after, true, Some(DRAW))
    else Response(after, false, None)
  }

  /** The bot's turn on a board still in play. */
  function BotTurn(b: Board, level: string, chance: Chance): Response
    requires |b| == CELLS
  {
    var available := AvailableMoves(b);
    if available == [] then Response(b, true, Some(DRAW))
    else
      var move := ChooseMove(b, available, level, chance);
      if move == NO_MOVE then Response(b, false, None) else Place(b, move)
  }

  /** The answer of the endpoint to `b`, in `mode` and `level`, under the draws `chance`. */
  function Resolve(b: Board, mode: Mode, level: string, chance: Chance): (resp: Response)
    requires |b| == CELLS
    ensures |resp.board| == CELLS
  {
    if CheckWinner(b, MARK_X) then Response(b, true, Some(MARK_X))
    else if CheckWinner(b, MARK_O) then Response(b, true, Some(MARK_O))
    else if IsBoardFull(b) then Response(b, true, Some(DRAW))
    else if mode == Ai then BotTurn(b, level, chance)
    else Response(b, false, None)
  }

  /**
   * The report of `r` is exactly what the line and fullness tests say of its
   * board: the game is over iff someone has a line or the board is full; the
   * winner is X iff X has a line, O iff O has one and X does not, and Draw
   * iff the board is full without a line.
   */
  ghost predicate ReportSound(r: Response)
    requires |r.board| == CELLS
  {
    (r.gameOver <==> r.winner.Some?) &&
    (r.gameOver <==> CheckWinner(r.board, MARK_X) || CheckWinner(r.board, MARK_O) || IsBoardFull(r.board)) &&
    (r.winner == Some(MARK_X) <==> CheckWinner(r.board, MARK_X)) &&
    (r.winner == Some(MARK_O) <==> !CheckWinner(r.board, MARK_X) && CheckWinner(r.board, MARK_O)) &&
    (r.winner == Some(DRAW) <==> !CheckWinner(r.board, MARK_X) && !CheckWinner(r.board, MARK_O) && IsBoardFull(r.board))
  }

  /** The bot's O fills one empty cell, and the answer reports the board it gives. */
  lemma PlaceAddsOne(b: Board, m: nat)
    requires |b| == CELLS && m < CELLS && b[m] == EMPTY && !CheckWinner(b, MARK_X)
    ensures AddsOne(b, Place(b, m).board, MARK_O)
    ensures EmptyCount(Place(b, m).board) == EmptyCount(b) - 1
    ensures ReportSound(Place(b, m))
  {
    EmptyCountMark(b, m, MARK_O);
    MarkKeepsOtherLines(b, m, MARK_O, MARK_X);
  }

  /** A finished board is answered unchanged: an X line first, then an O line, then a full board. */
  lemma ResolveFinished(b: Board, mode: Mode, level: string, chance: Chance)
    requires |b| == CELLS
    ensures CheckWinner(b, MARK_X) ==> Resolve(b, mode, level, chance) == Response(b, true, Some(MARK_X))
    ensures !CheckWinner(b, MARK_X) && CheckWinner(b, MARK_O) ==>
      Resolve(b, mode, level, chance) == Response(b, true, Some(MARK_O))
    ensures !CheckWinner(b, MARK_X) && !CheckWinner(b, MARK_O) && IsBoardFull(b) ==>
      Resolve(b, mode, level, chance) == Response(b, true, Some(DRAW))
  {
  }

  /** A board still in play comes back unchanged and not over in human mode, and for an unknown level. */
  lemma ResolveNoBotMove(b: Board, mode: Mode, level: string, chance: Chance)
    requires |b| == CELLS && !CheckWinner(b, MARK_X) && !CheckWinner(b, MARK_O) && !IsBoardFull(b)
    requires mode == Human || !KnownLevel(level)
    ensures Resolve(b, mode, level, chance) == Response(b, false, None)
  {
  }

  /**
   * In ai mode with a known level, a board still in play comes back with
   * exactly one more O, in a previously empty cell.
   */
  lemma ResolveBotAddsOne(b: Board, level: string, chance: Chance)
    requires |b| == CELLS && !CheckWinner(b, MARK_X) && !CheckWinner(b, MARK_O) && !IsBoardFull(b)
    requires KnownLevel(level)
    ensures AddsOne(b, Resolve(b, Ai, level, chance).board, MARK_O)
    ensures EmptyCount(Resolve(b, Ai, level, chance).board) == EmptyCount(b) - 1
  {
    var available := AvailableMoves(b);
    var move := ChooseMove(b, available, level, chance);
    assert move in available;
    PlaceAddsOne(b, move);
  }

  /** The endpoint never removes or changes a mark, and adds at most one. */
  lemma ResolveNeverRetracts(b: Board, mode: Mode, level: string, chance: Chance)
    requires |b| == CELLS
    ensures Extends(b, Resolve(b, mode, level, chance).board)
    ensures EmptyCount(Resolve(b, mode, level, chance).board) >= EmptyCount(b) - 1
  {
    var resp := Resolve(b, mode, level, chance);
    if resp.board != b {
      ResolveBotAddsOne(b, level, chance);
      AddsOneExtends(b, resp.board, MARK_O);
    }
  }

  /** Every answer reports its own board soundly. */
  lemma ResolveReportSound(b: Board, mode: Mode, level: string, chance: Chance)
    requires |b| == CELLS
    ensures ReportSound(Resolve(b, mode, level, chance))
  {
    if !CheckWinner(b, MARK_X) && !CheckWinner(b, MARK_O) && !IsBoardFull(b) && mode == Ai {
      var available := AvailableMoves(b);
      var move := ChooseMove(b, available, level, chance);
      if move != NO_MOVE {
        assert move in available;
        PlaceAddsOne(b, move);
      }
    }
  }

  /** Some empty cell completes a line for `player`. */
  ghost predicate CanComplete(b: Board, player: string)
    requires |b| == CELLS
  {
    exists m: nat :: m < CELLS && b[m] == EMPTY && Completes(b, m, player)
  }

  /**
   * The first completing move over the available moves, which ascend: the
   * lowest-numbered empty cell that completes a line for `player`, NO_MOVE
   * when none does.
   */
  function LowestCompleting(b: Board, player: string): (r: int)
    requires |b| == CELLS
    ensures r != NO_MOVE <==> CanComplete(b, player)
    ensures r != NO_MOVE ==> 0 <= r < CELLS && b[r] == EMPTY && Completes(b, r, player)
    ensures r != NO_MOVE ==> forall m: nat :: m < r && b[m] == EMPTY ==> !Completes(b, m, player)
  {
    var moves := AvailableMoves(b);
    AvailablePlayable(b);
    FirstCompletingFound(b, moves, player);
    if FirstCompleting(b, moves, player) != NO_MOVE then
      FirstCompletingLowest(b, moves, player);
      FirstCompleting(b, moves, player)
    else NO_MOVE
  }

  /** Over all empty cells, a completing move is found exactly when some empty cell completes a line. */
  lemma FirstCompletingFound(b: Board, moves: seq<nat>, player: string)
    requires |b| == CELLS && moves == AvailableMoves(b) && OnBoard(moves)
    ensures FirstCompleting(b, moves, player) != NO_MOVE <==> CanComplete(b, player)
  {
    if CanComplete(b, player) {
      var m: nat :| m < CELLS && b[m] == EMPTY && Completes(b, m, player);
      assert m in moves;
    }
  }

  /** Over the ascending empty cells, the move found is the lowest-numbered completing cell. */
  lemma FirstCompletingLowest(b: Board, moves: seq<nat>, player: string)
    requires |b| == CELLS && moves == AvailableMoves(b) && OnBoard(moves)
    requires FirstCompleting(b, moves, player) != NO_MOVE
    ensures var r := FirstCompleting(b, moves, player);
      0 <= r < CELLS && b[r] == EMPTY && Completes(b, r, player) &&
      forall m: nat :: m < r && b[m] == EMPTY ==> !Completes(b, m, player)
  {
    var r := FirstCompleting(b, moves, player);
    var i :| 0 <= i < |moves| && r == moves[i] && FirstCompletingAt(b, moves, player, i);
    forall m: nat | m < r && b[m] == EMPTY ensures !Completes(b, m, player) {
      assert m in moves;
      var j :| 0 <= j < |moves| && moves[j] == m;
      AscendingIndex(moves, j, i);
    }
  }

  /** In an ascending sequence a smaller element sits at a smaller index. */
  lemma AscendingIndex(moves: seq<nat>, j: nat, i: nat)
    requires forall p, q :: 0 <= p < q < |moves| ==> moves[p] < moves[q]
    requires j < |moves| && i < |moves| && moves[j] < moves[i]
    ensures j < i
  {
  }

  /** The medium bot, when its roll exceeds 0.5, wins whenever an empty cell completes an O line. */
  lemma MediumTakesWin(b: Board, chance: Chance)
    requires |b| == CELLS && !CheckWinner(b, MARK_X) && !CheckWinner(b, MARK_O) && !IsBoardFull(b)
    requires chance.roll > 0.5 && CanComplete(b, MARK_O)
    ensures Resolve(b, Ai, MEDIUM, chance) == Place(b, LowestCompleting(b, MARK_O))
    ensures Resolve(b, Ai, MEDIUM, chance).winner == Some(MARK_O)
  {
    var w := LowestCompleting(b, MARK_O);
    assert BotTurn(b, MEDIUM, chance) == Place(b, w);
  }

  /**
   * Otherwise it blocks: it puts O on the lowest-numbered empty cell that
   * would complete an X line.
   */
  lemma MediumBlocks(b: Board, chance: Chance)
    requires |b| == CELLS && !CheckWinner(b, MARK_X) && !CheckWinner(b, MARK_O) && !IsBoardFull(b)
    requires chance.roll > 0.5 && !CanComplete(b, MARK_O) && CanComplete(b, MARK_X)
    ensures Resolve(b, Ai, MEDIUM, chance) == Place(b, LowestCompleting(b, MARK_X))
  {
    var w := LowestCompleting(b, MARK_O);
    var k := LowestCompleting(b, MARK_X);
    assert BotTurn(b, MEDIUM, chance) == Place(b, k);
  }

  /** Perfect play over all empty cells picks the lowest-numbered cell that completes an O line. */
  lemma PerfectPicksLowestWin(b: Board)
    requires |b| == CELLS && CanComplete(b, MARK_O)
    ensures Playable(b, AvailableMoves(b))
    ensures PerfectChoice(b, AvailableMoves(b)) == LowestCompleting(b, MARK_O)
  {
    var available := AvailableMoves(b);
    AvailablePlayable(b);
    FirstCompletingFound(b, available, MARK_O);
    var w := FirstCompleting(b, available, MARK_O);
    var i :| 0 <= i < |available| && w == available[i] && FirstCompletingAt(b, available, MARK_O, i);
    PerfectTakesWin(b, available);
  }

  /** The hard bot, when its roll exceeds 0.15, wins whenever an empty cell completes an O line. */
  lemma HardTakesWin(b: Board, chance: Chance)
    requires |b| == CELLS && !CheckWinner(b, MARK_X) && !CheckWinner(b, MARK_O) && !IsBoardFull(b)
    requires chance.roll > 0.15 && CanComplete(b, MARK_O)
    ensures Resolve(b, Ai, HARD, chance) == Place(b, LowestCompleting(b, MARK_O))
    ensures Resolve(b, Ai, HARD, chance).winner == Some(MARK_O)
  {
    PerfectPicksLowestWin(b);
    var w := LowestCompleting(b, MARK_O);
    assert ChooseMove(b, AvailableMoves(b), HARD, chance) == w;
  }

  /**
   * The AI-levels block of `process_move`: the move the bot picks among
   * `available`, which are all the empty cells of the board. The trial marks
   * of the medium and hard bots are all erased again.
   */
  method BotMove(board: array<string>, available: seq<nat>, level: string, chance: Chance) returns (move: int)
    requires board.Length == CELLS && available == AvailableMoves(board[..]) && available != []
    modifies board
    ensures board[..] == old(board[..])
    ensures move == ChooseMove(old(board[..]), available, level, chance)
  {
    AvailablePlayable(board[..]);
    move := NO_MOVE;
    if level == EASY {
      move := RandomChoice(available, chance.pick);
    } else if level == MEDIUM {
      if chance.roll > 0.5 {
        move := CompletingMove(board, available, MARK_O);
        if move == NO_MOVE {
          move := CompletingMove(board, available, MARK_X);
        }
        if move == NO_MOVE {
          move := RandomChoice(available, chance.pick);
        }
      } else {
        move := RandomChoice(available, chance.pick);
      }
    } else if level == HARD {
      if chance.roll > 0.15 {
        move := PerfectMove(board, available);
      } else {
        move := RandomChoice(available, chance.pick);
      }
    }
  }

  /**
   * `process_move` on the board it was sent: the random draws are `chance`,
   * and the board is changed in place, as the endpoint does before it
   * answers with it.
   */
  method ProcessMove(board: array<string>, mode: Mode, level: string, chance: Chance) returns (resp: Response)
    requires board.Length == CELLS
    modifies board
    ensures resp == Resolve(old(board[..]), mode, level, chance)
    ensures board[..] == resp.board
  {
    if CheckWinner(board[..], MARK_X) {
      return Response(board[..], true, Some(MARK_X));
    }
    if CheckWinner(board[..], MARK_O) {
      return Response(board[..], true, Some(MARK_O));
    }
    if IsBoardFull(board[..]) {
      return Response(board[..], true, Some(DRAW));
    }
    if mode == Ai {
      ghost var b := board[..];
      var available := AvailableMoves(board[..]);
      if available == [] {
        // The board is not full, so some move is available: the endpoint's
        // Draw answer for this case is never sent.
        assert false;
      }
      var move := BotMove(board, available, level, chance);
      if move != NO_MOVE {
        board[move] := MARK_O;
        assert board[..] == b[move := MARK_O];
        if CheckWinner(board[..], MARK_O) {
          return Response(board[..], true, Some(MARK_O));
        }
        if IsBoardFull(board[..]) {
          return Response(board[..], true, Some(DRAW));
        }
      }
    }
    return Response(board[..], false, None);
  }
}
