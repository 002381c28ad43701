/**
 * The browser side of the game: the page's global state and the handlers
 * that change it. A click places the player's mark at once (an optimistic
 * write), takes the single-flight lock and posts the board; the answer
 * replaces the board, releases the lock and either flips the turn or ends
 * the round and updates the scoreboard.
 */
module Client {
  import opened Protocol
  import opened Rules
  import Text
  import Resolver

  const EMPTY_BOARD: Board := [EMPTY, EMPTY, EMPTY, EMPTY, EMPTY, EMPTY, EMPTY, EMPTY, EMPTY]
  const BOT_NAME: string := "Bot"
  const DRAW_MESSAGE: string := "IT'S A DRAW!"
  const WIN_SUFFIX: string := " WINS!"
  /** Milliseconds before an answer is applied: longer when the bot has just moved. */
  const BOT_DELAY: nat := 1000
  const QUICK_DELAY: nat := 50

  /** The delay before `finalizeMove` runs on an answer. */
  function ReconcileDelay(mode: Mode, data: Response): (ms: nat)
    ensures ms == BOT_DELAY || ms == QUICK_DELAY
    ensures ms == BOT_DELAY <==> mode == Ai && !data.gameOver
  {
    if mode == Ai && !data.gameOver then BOT_DELAY else QUICK_DELAY
  }

  /** The other player's symbol; anything but "X" counts as "O". */
  function Other(player: string): (next: string)
    ensures next == MARK_X || next == MARK_O
    ensures player == MARK_X ==> next == MARK_O
    ensures player == MARK_O ==> next == MARK_X
  {
    if player == MARK_X then MARK_O else MARK_X
  }

  /**
   * The text of the winner dialog: the draw message exactly for the winner
   * "Draw", otherwise a name followed by " WINS!" — X's name for "X", O's
   * name for everything else.
   */
  function WinnerMessage(winner: Option<string>, xName: string, oName: string): (msg: string)
    ensures msg == DRAW_MESSAGE <==> winner == Some(DRAW)
    ensures winner == Some(MARK_X) ==> msg == xName + WIN_SUFFIX
    ensures winner != Some(MARK_X) && winner != Some(DRAW) ==> msg == oName + WIN_SUFFIX
  {
    if winner == Some(DRAW) then DRAW_MESSAGE
    else
      var name := if winner == Some(MARK_X) then xName else oName;
      assert (name + WIN_SUFFIX)[|name| + 4] == 'S';
      name + WIN_SUFFIX
  }

  /** The page's global state. */
  class Game {
    var gameMode: Mode
    var aiLevel: string
    var board: Board
    var gameActive: bool
    /** The single-flight lock: set while a move is waiting for the server. */
    var isProcessing: bool
    var playerXName: string
    var playerOName: string
    /** Whose turn it is in human mode. */
    var currentPlayer: string
    var scoreX: nat
    var scoreO: nat
    var scoreDraw: nat
    /** Rounds begun so far: every reset of the board starts a new one. */
    ghost var round: nat
    /** For each request still unanswered, the round that sent it, oldest first. */
    ghost var pending: seq<nat>

    ghost predicate Valid()
      reads this
    {
      currentPlayer == MARK_X || currentPlayer == MARK_O
    }

    /**
     * The lock is held exactly while one request of the current round is
     * unanswered, so every answer applies to the round that asked for it.
     */
    ghost predicate Synchronized()
      reads this
    {
      pending == if isProcessing then [round] else []
    }

    /** Games decided so far, draws included. */
    ghost function Total(): nat
      reads this
    {
      scoreX + scoreO + scoreDraw
    }

    /** The guard of `makeMove`: a round is on, the cell exists and is empty, and no request is out. */
    predicate CanPlay(index: int)
      reads this
    {
      gameActive && 0 <= index < |board| && board[index] == EMPTY && !isProcessing
    }

    /** The symbol a click places: always "X" against the bot, the player to move otherwise. */
    function Symbol(): (s: string)
      reads this
      requires Valid()
      ensures s == MARK_X || s == MARK_O
      ensures gameMode == Ai ==> s == MARK_X
      ensures gameMode == Human ==> s == currentPlayer
    {
      if gameMode == Ai then MARK_X else currentPlayer
    }

    /** A fresh round: empty board, round on, lock free, X to move. */
    ghost predicate FreshRound(before: nat)
      reads this
    {
      board == EMPTY_BOARD && gameActive && !isProcessing && currentPlayer == MARK_X && round == before + 1
    }

    /** The page as loaded: human mode, level "hard", default names, no round on. */
    constructor ()
      ensures gameMode == Human && aiLevel == Resolver.HARD
      ensures board == EMPTY_BOARD && !gameActive && !isProcessing
      ensures playerXName == "Player 1" && playerOName == "Player 2" && currentPlayer == MARK_X
      ensures scoreX == 0 && scoreO == 0 && scoreDraw == 0
      ensures round == 0 && Valid() && Synchronized()
    {
      gameMode := Human;
      aiLevel := Resolver.HARD;
      board := EMPTY_BOARD;
      gameActive := false;
      isProcessing := false;
      playerXName := "Player 1";
      playerOName := "Player 2";
      currentPlayer := MARK_X;
      scoreX, scoreO, scoreDraw := 0, 0, 0;
      round := 0;
      pending := [];
    }

    /** `selectMode`: only the mode is kept; the rest is presentation. */
    method SelectMode(mode: Mode)
      modifies this`gameMode
      ensures gameMode == mode
    {
      gameMode := mode;
    }

    /** `updateLocalBoard`: the one cell is written before the server answers. */
    method UpdateLocalBoard(index: nat, player: string)
      requires index < |board|
      modifies this`board
      ensures board == old(board)[index := player]
    {
      board := board[index := player];
    }

    /**
     * `makeMove`, up to the request it posts. A refused click changes
     * nothing; an accepted one writes the symbol into the cell, takes the
     * lock and returns the request body.
     */
    method MakeMove(index: int) returns (request: Option<Request>)
      requires Valid()
      modifies this`board, this`isProcessing, this`pending
      ensures request.Some? <==> old(CanPlay(index))
      ensures !old(CanPlay(index)) ==> unchanged(this)
      ensures old(CanPlay(index)) ==>
        board == old(board)[index := Symbol()] && isProcessing &&
        pending == old(pending) + [round] &&
        request == Some(Request(board, gameMode, aiLevel))
    {
      if !gameActive || !(0 <= index < |board| && board[index] == EMPTY) || isProcessing {
        return None;
      }
      var symbol := if gameMode == Ai then MARK_X else currentPlayer;
      UpdateLocalBoard(index, symbol);
      isProcessing := true;
      pending := pending + [round];
      request := Some(Request(board, gameMode, aiLevel));
    }

    /**
     * The transport-error path of `makeMove`: only the lock is released.
     * The optimistic mark stays on the board and the turn does not change.
     */
    method RequestFailed()
      modifies this`isProcessing, this`pending
      ensures !isProcessing
      ensures pending == if old(pending) == [] then [] else old(pending)[1..]
      ensures old(Synchronized()) ==> Synchronized()
    {
      isProcessing := false;
      if pending != [] {
        pending := pending[1..];
      }
    }

    /**
     * `handleGameOver`: the round ends and exactly one counter goes up —
     * X's for the winner "X", O's for "O", the draw counter for anything else.
     */
    method HandleGameOver(winner: Option<string>) returns (message: string)
      modifies this`gameActive, this`scoreX, this`scoreO, this`scoreDraw
      ensures !gameActive
      ensures scoreX == old(scoreX) + (if winner == Some(MARK_X) then 1 else 0)
      ensures scoreO == old(scoreO) + (if winner == Some(MARK_O) then 1 else 0)
      ensures scoreDraw == old(scoreDraw) + (if winner == Some(MARK_X) || winner == Some(MARK_O) then 0 else 1)
      ensures Total() == old(Total()) + 1
      ensures message == WinnerMessage(winner, playerXName, playerOName)
    {
      gameActive := false;
      if winner == Some(MARK_X) {
        scoreX := scoreX + 1;
      } else if winner == Some(MARK_O) {
        scoreO := scoreO + 1;
      } else {
        scoreDraw := scoreDraw + 1;
      }
      message := WinnerMessage(winner, playerXName, playerOName);
    }

    /**
     * `finalizeMove`: the board becomes the server's board as sent, the lock
     * is released, and then either the round ends or, in human mode, the turn
     * passes. `botSound` says whether the move sound plays for the bot.
     */
    method FinalizeMove(data: Response) returns (botSound: bool, message: Option<string>)
      requires Valid()
      modifies this`board, this`isProcessing, this`pending, this`currentPlayer
      modifies this`gameActive, this`scoreX, this`scoreO, this`scoreDraw
      ensures Valid()
      ensures botSound <==> EmptyCount(data.board) < EmptyCount(old(board)) && gameMode == Ai && !data.gameOver
      ensures board == data.board && !isProcessing
      ensures pending == if old(pending) == [] then [] else old(pending)[1..]
      ensures old(Synchronized()) ==> Synchronized()
      ensures data.gameOver ==>
        !gameActive && currentPlayer == old(currentPlayer) && Total() == old(Total()) + 1 &&
        scoreX == old(scoreX) + (if data.winner == Some(MARK_X) then 1 else 0) &&
        scoreO == old(scoreO) + (if data.winner == Some(MARK_O) then 1 else 0) &&
        scoreDraw == old(scoreDraw) + (if data.winner == Some(MARK_X) || data.winner == Some(MARK_O) then 0 else 1) &&
        message == Some(WinnerMessage(data.winner, playerXName, playerOName))
      ensures !data.gameOver ==>
        gameActive == old(gameActive) && Total() == old(Total()) && message == None &&
        scoreX == old(scoreX) && scoreO == old(scoreO) && scoreDraw == old(scoreDraw) &&
        currentPlayer == if gameMode == Human then Other(old(currentPlayer)) else old(currentPlayer)
    {
      botSound := EmptyCount(data.board) < EmptyCount(board) && gameMode == Ai && !data.gameOver;
      board := data.board;
      isProcessing := false;
      if pending != [] {
        pending := pending[1..];
      }
      if data.gameOver {
        var text := HandleGameOver(data.winner);
        message := Some(text);
      } else {
        if gameMode == Human {
          currentPlayer := Other(currentPlayer);
        }
        message := None;
      }
    }

    /**
     * `resetBoard`: a new round with an empty board, the lock released and X
     * to move. Names and scores are kept.
     */
    method ResetBoard()
      modifies this`board, this`gameActive, this`isProcessing, this`currentPlayer, this`round
      ensures FreshRound(old(round)) && Valid()
    {
      board := EMPTY_BOARD;
      gameActive := true;
      isProcessing := false;
      currentPlayer := MARK_X;
      round := round + 1;
    }

    /** The names and level a successful start records. */
    ghost predicate NamesSet(p1Input: string, p2Input: string, difficulty: string, oldLevel: string)
      reads this
    {
      playerXName == Text.Trim(p1Input) &&
      if gameMode == Human then playerOName == Text.Trim(p2Input) && aiLevel == oldLevel
      else playerOName == BOT_NAME && aiLevel == difficulty
    }

    /**
     * `startGame` as written: both names are trimmed and checked on their
     * own — the first always, the second only in human mode. A refused start
     * changes nothing; an accepted one records the names (and, against the
     * bot, the level and the name "Bot") and resets the board, even while a
     * request is still unanswered, which leaves the lock out of step with it.
     */
    method StartGameAsWritten(p1Input: string, p2Input: string, difficulty: string) returns (p1Error: bool, p2Error: bool)
      modifies this`playerXName, this`playerOName, this`aiLevel
      modifies this`board, this`gameActive, this`isProcessing, this`currentPlayer, this`round
      ensures p1Error <==> Text.Trim(p1Input) == []
      ensures p2Error <==> gameMode == Human && Text.Trim(p2Input) == []
      ensures p1Error || p2Error ==> unchanged(this)
      ensures !p1Error && !p2Error ==>
        NamesSet(p1Input, p2Input, difficulty, old(aiLevel)) && FreshRound(old(round)) && Valid()
      ensures old(Synchronized()) && old(isProcessing) && !p1Error && !p2Error ==> !Synchronized()
    {
      var p1Val := Text.Trim(p1Input);
      var p2Val := Text.Trim(p2Input);
      p1Error := p1Val == [];
      p2Error := gameMode == Human && p2Val == [];
      if p1Error || p2Error {
        return;
      }
      playerXName := p1Val;
      if gameMode == Human {
        playerOName := p2Val;
      } else {
        aiLevel := difficulty;
        playerOName := BOT_NAME;
      }
      ResetBoard();
    }

    /**
     * `startGame` as intended: the same checks and effects, but a start is
     * refused (`busy`) while a request is unanswered, so the lock stays in
     * step with the round.
     */
    method StartGame(p1Input: string, p2Input: string, difficulty: string) returns (p1Error: bool, p2Error: bool, busy: bool)
      modifies this`playerXName, this`playerOName, this`aiLevel
      modifies this`board, this`gameActive, this`isProcessing, this`currentPlayer, this`round
      ensures busy == old(isProcessing)
      ensures p1Error <==> Text.Trim(p1Input) == []
      ensures p2Error <==> gameMode == Human && Text.Trim(p2Input) == []
      ensures busy || p1Error || p2Error ==> unchanged(this)
      ensures !busy && !p1Error && !p2Error ==>
        NamesSet(p1Input, p2Input, difficulty, old(aiLevel)) && FreshRound(old(round)) && Valid()
      ensures old(Synchronized()) ==> Synchronized()
    {
      busy := isProcessing;
      if busy {
        p1Error := Text.Trim(p1Input) == [];
        p2Error := gameMode == Human && Text.Trim(p2Input) == [];
        return;
      }
      p1Error, p2Error := StartGameAsWritten(p1Input, p2Input, difficulty);
    }

    /**
     * The answer to a posted request arrives and `finalizeMove` applies it.
     * No mark is removed; the end of the round and the scoreboard follow the
     * resulting board; a bot of a known level answers a round still on with
     * its mark, which plays the move sound.
     */
    method Reconcile(request: Request, chance: Resolver.Chance) returns (botSound: bool, message: Option<string>)
      requires Valid() && Synchronized() && isProcessing && gameActive
      requires board == request.board && |board| == CELLS
      requires request.mode == gameMode && request.level == aiLevel
      modifies this`board, this`isProcessing, this`pending, this`currentPlayer
      modifies this`gameActive, this`scoreX, this`scoreO, this`scoreDraw
      ensures Valid() && Synchronized() && |board| == CELLS && !isProcessing
      ensures Extends(old(board), board) && EmptyCount(board) <= EmptyCount(old(board))
      ensures !gameActive <==> CheckWinner(board, MARK_X) || CheckWinner(board, MARK_O) || IsBoardFull(board)
      ensures Total() == old(Total()) + (if gameActive then 0 else 1)
      ensures scoreX == old(scoreX) + 1 <==> CheckWinner(board, MARK_X)
      ensures scoreX == old(scoreX) + (if CheckWinner(board, MARK_X) then 1 else 0)
      ensures scoreO == old(scoreO) + (if !CheckWinner(board, MARK_X) && CheckWinner(board, MARK_O) then 1 else 0)
      ensures scoreDraw == old(scoreDraw) +
        (if !CheckWinner(board, MARK_X) && !CheckWinner(board, MARK_O) && IsBoardFull(board) then 1 else 0)
      ensures gameMode == Ai && Resolver.KnownLevel(aiLevel) && gameActive ==>
        EmptyCount(board) == EmptyCount(old(board)) - 1 && botSound
      ensures gameMode == Human ==> board == old(board) && !botSound
      ensures currentPlayer ==
        if gameActive && gameMode == Human then Other(old(currentPlayer)) else old(currentPlayer)
    {
      var data := Post(request, chance);
      botSound, message := FinalizeMove(data);
      assert board == data.board && (gameActive <==> !data.gameOver);
    }

    /**
     * One click answered by the move-resolution endpoint: `makeMove`, then
     * the answer to the board it posted. During a round no mark is ever
     * removed; the end of the round and the scoreboard follow the resulting
     * board; against a bot of a known level a round that goes on has gained
     * the player's mark and the bot's.
     */
    method Turn(index: int, chance: Resolver.Chance) returns (accepted: bool, botSound: bool, message: Option<string>)
      requires Valid() && Synchronized() && |board| == CELLS
      modifies this`board, this`isProcessing, this`pending, this`currentPlayer
      modifies this`gameActive, this`scoreX, this`scoreO, this`scoreDraw
      ensures Valid() && Synchronized() && |board| == CELLS
      ensures accepted == old(CanPlay(index))
      ensures !accepted ==> unchanged(this)
      ensures accepted ==>
        !isProcessing && Extends(old(board), board) && EmptyCount(board) < EmptyCount(old(board))
      ensures accepted ==>
        (!gameActive <==> CheckWinner(board, MARK_X) || CheckWinner(board, MARK_O) || IsBoardFull(board))
      ensures accepted ==> Total() == old(Total()) + (if gameActive then 0 else 1)
      ensures accepted ==> (scoreX == old(scoreX) + 1 <==> CheckWinner(board, MARK_X))
      ensures accepted ==> scoreX == old(scoreX) + (if CheckWinner(board, MARK_X) then 1 else 0)
      ensures accepted ==>
        scoreO == old(scoreO) + (if !CheckWinner(board, MARK_X) && CheckWinner(board, MARK_O) then 1 else 0)
      ensures accepted ==>
        scoreDraw == old(scoreDraw) +
          (if !CheckWinner(board, MARK_X) && !CheckWinner(board, MARK_O) && IsBoardFull(board) then 1 else 0)
      ensures accepted && gameMode == Ai && Resolver.KnownLevel(aiLevel) && gameActive ==>
        EmptyCount(board) == EmptyCount(old(board)) - 2 && botSound
      ensures accepted ==> 0 <= index < CELLS && board[index] == old(Symbol())
      ensures accepted && gameMode == Human ==> board == old(board)[index := old(currentPlayer)]
      ensures accepted ==>
        currentPlayer == if gameActive && gameMode == Human then Other(old(currentPlayer)) else old(currentPlayer)
    {
      ghost var before := board;
      var request := MakeMove(index);
      accepted := request.Some?;
      if !accepted {
        return false, false, None;
      }
      EmptyCountMark(before, index, board[index]);
      ghost var posted := board;
      botSound, message := Reconcile(request.value, chance);
      ExtendsTransitive(before, posted, board);
    }
  }

  /**
   * The round trip to POST /api/move: the posted board becomes the
   * endpoint's board array and its decision comes back. What the client can
   * rely on: no mark is removed, at most one is added, the report matches
   * the board, and a bot of a known level answers a board still in play with
   * its mark.
   */
  method Post(request: Request, chance: Resolver.Chance) returns (data: Response)
    requires |request.board| == CELLS
    ensures |data.board| == CELLS && Extends(request.board, data.board)
    ensures EmptyCount(request.board) - 1 <= EmptyCount(data.board) <= EmptyCount(request.board)
    ensures Resolver.ReportSound(data)
    ensures request.mode == Ai && Resolver.KnownLevel(request.level) && !data.gameOver ==>
      EmptyCount(data.board) == EmptyCount(request.board) - 1
    ensures request.mode == Human ==> data.board == request.board
  {
    var b := request.board;
    var cells := new string[CELLS](i => if 0 <= i < |b| then b[i] else EMPTY);
    assert cells[..] == b;
    data := Resolver.ProcessMove(cells, request.mode, request.level, chance);
    Resolver.ResolveNeverRetracts(b, request.mode, request.level, chance);
    Resolver.ResolveReportSound(b, request.mode, request.level, chance);
    ExtendsEmptyCount(b, data.board);
    if request.mode == Ai && Resolver.KnownLevel(request.level) && !data.gameOver {
      Resolver.ResolveFinished(b, request.mode, request.level, chance);
      Resolver.ResolveBotAddsOne(b, request.level, chance);
    }
  }

  /**
   * A player clicks, and before the answer arrives starts a new game with
   * valid names: the new round begins with an empty board and a free lock
   * while the request of the previous round is still unanswered.
   */
  method RestartWhileWaiting(p1Input: string, p2Input: string) returns (g: Game, posted: Request)
    requires Text.Trim(p1Input) != [] && Text.Trim(p2Input) != []
    ensures fresh(g) && g.Valid() && g.gameMode == Human
    ensures g.board == EMPTY_BOARD && g.gameActive && !g.isProcessing && g.currentPlayer == MARK_X
    ensures !g.Synchronized()
    ensures posted == Request(EMPTY_BOARD[0 := MARK_X], Human, Resolver.HARD)
  {
    g := new Game();
    var e1, e2 := g.StartGameAsWritten(p1Input, p2Input, Resolver.HARD);
    assert g.CanPlay(0) && g.Synchronized();
    var request := g.MakeMove(0);
    posted := request.value;
    e1, e2 := g.StartGameAsWritten(p1Input, p2Input, Resolver.HARD);
  }

  /**
   * The answer to that earlier request then lands on the new round, which
   * shows X's mark and has O to move although nobody has played in it.
   */
  method StaleAnswerAfterRestart(p1Input: string, p2Input: string) returns (g: Game)
    requires Text.Trim(p1Input) != [] && Text.Trim(p2Input) != []
    ensures g.gameActive && g.board == EMPTY_BOARD[0 := MARK_X] && g.currentPlayer == MARK_O
  {
    var posted;
    g, posted := RestartWhileWaiting(p1Input, p2Input);
    WinnerCells(posted.board, MARK_X);
    WinnerCells(posted.board, MARK_O);
    var stale := Post(posted, Resolver.Chance(0.0, 0));
    assert stale.board == posted.board && !stale.gameOver;
    var sound, message := g.FinalizeMove(stale);
  }
}
