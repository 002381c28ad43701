# Neon tic-tac-toe: a verified model of the move lifecycle

The game has two cooperating pieces. The browser script (`static/script.js`) keeps one set of global state: the 9-cell board, whether a round is on, the single-flight lock `isProcessing`, whose turn it is, the player names and the three score counters. When a player clicks a cell, the script writes the mark at once (an optimistic write), takes the lock and posts `{board, mode, level}` to `POST /api/move`. The endpoint (`api/index.py`) reports a win or a draw that is already on the board. Otherwise, in `ai` mode and for a known level (`easy`, `medium` or `hard`), it places exactly one `"O"`, chosen by the level's rule:

- easy: a random free cell;
- medium: with probability 0.5, win, else block, else random; otherwise random;
- hard: with probability 0.85, minimax; otherwise random.

The script then replaces its board with the answer, releases the lock, and either ends the round (scoring it) or passes the turn.

The project has one module per part:

- `protocol.dfy` (`Protocol`): the wire values (`Board`, `Request`, `Response`), the empty-cell count, and the two board relations the rest of the model speaks in:
  - `Extends`: no mark removed or changed;
  - `AddsOne`: exactly one empty cell marked.
- `rules.dfy` (`Rules`): `check_winner`, `is_board_full`, `get_available_moves`.
- `search.dfy` (`Search`): minimax. It consists of:
  - `Score`, a recursive specification on sequences;
  - `Minimax`, an in-place method on an array that writes a trial mark, recurses and undoes the mark, proved equal to `Score` and to leave the array as it found it.
- `resolver.dfy` (`Resolver`): the decision body of `process_move`.
  - `Resolve` is the specification.
  - `ProcessMove` works in place on the board array and is proved equal to `Resolve`.
  - The random draws are inputs, `Chance(roll, pick)`: `roll` is the value of `random.random()`, and `random.choice(available)` is `available[pick % |available|]`.
- `text.dfy` (`Text`): `String.prototype.trim`, used on the name fields.
- `client.dfy` (`Client`): class `Game`, with one field per global variable and one method per handler.
  - `Turn` runs a click end to end against the endpoint's own decision.
  - Two ghost fields track rounds and unanswered requests. They state when the lock is in step with the round (`Synchronized`).

The code makes no shape checks, and the model keeps it that way:

- `finalizeMove` assigns the answer's board wholesale (static/script.js:197), with no length or retraction check.
- The board keeps its optimistic mark when the request fails (static/script.js:182-185).
- The endpoint has no shape check either.

## Model

| member | source | states |
|---|---|---|
| Protocol.EmptyCount | static/script.js:191-192 | the number of `""` cells: at most the board length, 0 exactly when no cell is empty, the full length exactly when every cell is empty |
| Protocol.EmptyCountMark | api/index.py:121 | writing a mark into an empty cell lowers the empty count by exactly one |
| Protocol.ExtendsEmptyCount | static/script.js:191-193 | a board that keeps every mark of another has no more empty cells than it |
| Protocol.AddsOneExtends | api/index.py:120-121 | a board with one empty cell newly marked keeps every earlier mark and has one empty cell fewer |
| Rules.WinnerCells | api/index.py:9-16 | `check_winner(b, p)` holds iff one of the eight listed index triples is entirely `p`, written out cell by cell |
| Rules.CheckWinnerGeometry | api/index.py:11-16 | the eight lines are exactly the three rows, three columns and two diagonals of the row-major 3x3 grid |
| Rules.MarkKeepsOtherLines | api/index.py:9-16 | writing a mark other than `p` cannot give `p` a line it did not have |
| Rules.IsBoardFull | api/index.py:18-19 | full iff no cell is `""`, iff the empty count is 0 |
| Rules.AvailableMoves | api/index.py:21-22 | the result holds exactly the indices of the empty cells, strictly ascending, as many as there are empty cells |
| Rules.FullIffNoMoves | api/index.py:18-22 | the board is full exactly when no move is available |
| Search.ScoreTerminal | api/index.py:26-28 | an O line scores `10 - depth`; else an X line scores `depth - 10`; else a full board scores 0 |
| Search.FoldExtreme | api/index.py:36 | the running max (min) is at least (at most) the start and every score, and equals the start or one of the scores |
| Search.ScoreRange | api/index.py:25-45 | for every board reachable from a root call (depth plus empty cells at most 10), the score lies in `[depth - 10, 10 - depth]`, so an infinite sentinel is never returned |
| Search.ImmediateCompletion | api/index.py:30-45 | if the player to move can complete a line, the position scores `±(10 - (depth + 1))` |
| Search.ImmediateWin | api/index.py:30-37 | O to move with a completing cell scores `10 - (depth + 1)` |
| Search.ImmediateLoss | api/index.py:38-45 | X to move with a completing cell scores `depth + 1 - 10` |
| Search.TryMove | api/index.py:33-35 | one trial write and undo: the array is as before and the result is that child's score |
| Search.Minimax | api/index.py:25-45 | the array is left as it was found, and the result is the minimax score of the board it was called on |
| Resolver.RandomChoice | api/index.py:84 | a random choice is always one of the available moves |
| Resolver.RandomChoiceCovers | api/index.py:84 | every available move is the choice for some draw |
| Resolver.FirstCompleting | api/index.py:90-98 | no move (-1) iff no listed move completes a line for the player; otherwise a listed move that completes one, with no completing move before it |
| Resolver.CompletingMove | api/index.py:90-98 | the trial-write loop with early exit leaves the array unchanged and returns the first completing move, or -1 |
| Resolver.PickFromKeeps | api/index.py:113-115 | with a strict `>` a score no greater than the best so far never replaces the chosen move |
| Resolver.PickFromFirstMax | api/index.py:108-115 | when some score beats the start, the chosen move is the first one carrying the greatest score |
| Resolver.PerfectChoiceBest | api/index.py:108-115 | the hard choice is the first available move whose minimax score (O placed, X to move) is maximal |
| Resolver.TrialScoreRange | api/index.py:110-112 | every trial score lies within ±10, so it beats the `-inf` start |
| Resolver.TopScoreRange | api/index.py:111 | a root minimax call scores within ±10 |
| Resolver.TopScoreIsWin | api/index.py:26 | a root minimax call scores 10 exactly when O already has a line |
| Resolver.TrialScoreWin | api/index.py:110-111 | a trial move scores 10 exactly when it completes an O line |
| Resolver.PerfectTakesWin | api/index.py:108-115 | when some available move wins for O, the hard choice is the first winning one |
| Resolver.PerfectMove | api/index.py:107-115 | the scoring loop leaves the array unchanged and returns the specified hard choice |
| Resolver.ChooseMove | api/index.py:80-117 | the chosen move is -1 exactly for a level other than easy, medium and hard, and otherwise an available move |
| Resolver.Resolve | api/index.py:61-129 | the answer's board has 9 cells; its decision is stated by the `Resolve…` lemmas below |
| Resolver.PlaceAddsOne | api/index.py:120-126 | the bot's mark adds exactly one `"O"` on an empty cell, and the report that follows (O wins, draw, or not over) matches the board |
| Resolver.ResolveFinished | api/index.py:63-70 | a board already won or full comes back unchanged with winner X, else O, else Draw, in that order |
| Resolver.ResolveNoBotMove | api/index.py:73-129 | in human mode, or for an unknown level, a board still in play comes back unchanged, not over, winner absent |
| Resolver.ResolveBotAddsOne | api/index.py:73-127 | in ai mode with a known level, a board still in play comes back with exactly one previously empty cell set to `"O"` |
| Resolver.ResolveNeverRetracts | api/index.py:61-129 | no answer removes or changes a mark, and at most one cell is filled |
| Resolver.ResolveReportSound | api/index.py:61-129 | every answer's `gameOver`/`winner` agree with its board: X for an X line, O for an O line without an X line, Draw for a full board without lines, absent otherwise |
| Resolver.LowestCompleting | api/index.py:89-98 | -1 iff no empty cell completes a line for the player; otherwise the lowest empty cell that does |
| Resolver.MediumTakesWin | api/index.py:87-92 | medium, smart branch: if O can complete a line it takes the lowest such cell and the answer reports O as winner |
| Resolver.MediumBlocks | api/index.py:94-98 | medium, smart branch: if O cannot win but X could, O takes the lowest cell that completes an X line |
| Resolver.PerfectPicksLowestWin | api/index.py:105-115 | when O can win at once, the minimax choice is the lowest winning cell |
| Resolver.HardTakesWin | api/index.py:105-124 | hard, perfect branch: if O can complete a line it takes the lowest such cell and the answer reports O as winner |
| Resolver.BotMove | api/index.py:80-117 | the level dispatch leaves the array unchanged and returns the specified move |
| Resolver.ProcessMove | api/index.py:61-129 | the in-place endpoint body returns exactly `Resolve` of the posted board, and the array ends as the answer's board |
| Text.TrimStartShape | static/script.js:91-92 | only leading white space is dropped, all of it |
| Text.TrimEndShape | static/script.js:91-92 | only trailing white space is dropped, all of it |
| Text.TrimShape | static/script.js:91-92 | the trimmed name is a stretch of the input with only white space around it, and it neither starts nor ends with white space |
| Text.TrimEmptyIff | static/script.js:102 | a name is rejected exactly when it consists of white space only |
| Text.TrimIdempotent | static/script.js:91-92 | trimming twice gives the same as trimming once |
| Client.ReconcileDelay | static/script.js:176 | the delay is 1000 exactly in ai mode on an answer that is not over, and 50 otherwise |
| Client.Other | static/script.js:207 | the turn flip always yields X or O, and swaps X and O |
| Client.WinnerMessage | static/script.js:241-245 | "IT'S A DRAW!" exactly for the winner "Draw"; X's name + " WINS!" for "X"; O's name + " WINS!" for anything else |
| Client.Game.constructor | static/script.js:8-20 | the page's initial state: human mode, level hard, empty board, no round, lock free, default names, X to move, scores 0 |
| Client.Game.SelectMode | static/script.js:66-67 | only the mode changes |
| Client.Game.Symbol | static/script.js:151-156 | the symbol a click places is X against the bot and the player to move otherwise, always X or O |
| Client.Game.UpdateLocalBoard | static/script.js:262-263 | the one cell is written and nothing else |
| Client.Game.MakeMove | static/script.js:147-170 | a click is accepted iff a round is on, the index is a cell, it is empty and the lock is free; a refused click changes nothing; an accepted one writes the symbol into that cell only, takes the lock and posts the new board with the mode and level |
| Client.Game.RequestFailed | static/script.js:182-185 | only the lock is released; the optimistic mark, the turn, the round and the scores stay |
| Client.Game.HandleGameOver | static/script.js:230-252 | the round ends and exactly one counter rises by one: X's for "X", O's for "O", draws for anything else; the dialog text is the winner message |
| Client.Game.FinalizeMove | static/script.js:189-211 | the board becomes the answer's board and the lock is released. The bot sound plays iff the answer has fewer empty cells, the mode is ai and the game is not over. A finished answer ends the round and adds one to X's counter for winner "X", to O's for "O", and to draws for anything else. Otherwise the turn flips in human mode and stays in ai mode, and the scores are unchanged |
| Client.Game.ResetBoard | static/script.js:285-296 | empty board, round on, lock free, X to move, names and scores kept |
| Client.Game.StartGameAsWritten | static/script.js:85-138 | name 1 is required in every mode and name 2 only in human mode, each checked on its own. A refused start changes nothing. An accepted one stores the trimmed names (against the bot: the level and "Bot"), then resets the board. A start while a request is out leaves the lock out of step with the round |
| Client.Game.StartGame | static/script.js:85-138 | the same checks and effects, but a start is refused while a request is unanswered, so the lock stays in step with the round |
| Client.Post | static/script.js:167-173 | the endpoint's answer keeps every mark, fills at most one cell, reports consistently with its board, leaves the board as posted in human mode, and, for a bot of a known level, adds one mark unless the game is over |
| Client.Game.Reconcile | static/script.js:173-180 | applying the answer keeps every mark. The round ends exactly when the board has a line or is full, and is then scored once. It states the whole scoreboard: X's counter rises for an X line, O's for an O line without an X line, draws for a full board without a line. A known-level bot that lets the round go on has placed its mark, with the move sound. In human mode the board stays as posted and no bot sound plays. The turn passes to the other player exactly in human mode with the round still on |
| Client.Game.Turn | static/script.js:147-211 | a whole click: refused clicks change nothing. An accepted click never removes a mark and always fills a cell. It ends the round exactly on a line or a full board, and scores it once: X's counter for an X line, O's for an O line without an X line, draws for a full board without a line. Against a known-level bot, a round that goes on has gained two marks. The clicked cell holds the clicked symbol; in human mode the board is the old one with just that cell set to the current player, and the turn passes to the other player exactly when the round goes on. The lock is in step with the round before and after |
| Client.RestartWhileWaiting | static/script.js:137 | starting again with valid names while a request is out gives an empty board and a free lock, with the request of the previous round still unanswered |
| Client.StaleAnswerAfterRestart | static/script.js:197-208 | the earlier answer then lands on the new round: the board shows X's mark and O is to move, though nobody has played in that round |

## Left out

- Audio (`playSound`), the confetti animation, `renderBoard`, the turn badges, `updateScoreUI`, the status message and every other DOM write: presentation only.
- The splash-screen `load` handler and `backToMenu`: they only switch screens. `backToMenu` is what lets a player reach the start screen while a request is out, which is how the finding below arises.
- `selectMode`'s button and field visibility toggling, and its reset of the difficulty selector: only the mode assignment is modelled.
- `fetch`, JSON encoding and decoding, and the `setTimeout` scheduling. The request is a `Request` value and the answer a `Response` value. The delay is a computed number (`ReconcileDelay`), not time.
- Client.Game.Turn: applies the answer straight after the click. The browser can interleave other events before the answer arrives; that interleaving is modelled only by the restart scenario.
- Client.Post: states what the client relies on (marks kept, at most one added, a sound report, human mode unchanged) rather than the exact answer. The exact answer is `Resolver.ProcessMove`'s contract.
- The Flask app, the routes, `render_template`, request parsing and the 500 error handler (api/index.py:1-5, 49-59, 131-139). `Resolver.ProcessMove` requires a 9-cell board, so boards of any other length are not modelled. The endpoint rejects some of them with an error response and processes others: `check_winner` reads only cells 0-8 while `get_available_moves` scans every cell, so a longer board can get an `"O"` past index 8, and an all-empty 8-cell board passes too.
- The endpoint's "no available move" Draw answer (api/index.py:77-78): it cannot be sent, because a board that is not full has an empty cell. The model marks that branch as unreachable.
- The random number generator. Each draw is a parameter: `roll` for `random.random()` and `pick` for `random.choice`.
- The floating-point infinities of minimax and of the hard branch: they are the integer sentinels ±11. `Search.ScoreRange` shows that every score lies within `depth - 10 .. 10 - depth`, so the sentinels never escape while the depth plus the number of empty cells is at most 10, which covers every call the endpoint makes (`Resolver.TrialScoreRange`, `Resolver.TopScoreRange`: the hard branch starts at depth 0 with at most 8 empty cells). For a deeper call on a nearly full board, Python's `max(score, -inf)` could return a score below -11 where `Search.Score` returns the sentinel; the endpoint never makes such a call.
- The claim that the hard bot cannot be beaten (api/index.py:104-107): it plays minimax only with probability 0.85, and unbeatability of perfect play is not stated.
- Modes other than "human" and "ai": the client only ever sends these two, and the endpoint treats every mode other than "ai" as human.
- Non-integer click indices: the index is an integer. Any index outside 0..8 is refused, as `board[index]` is then not `""`.

## Findings

| source | as written | input that shows it | evidently intended | confidence | as-written member | corrected member |
|---|---|---|---|---|---|---|
| static/script.js:137 | `startGame` calls `resetBoard`, which releases the lock even while a move request is still unanswered, and the answer is later applied to whatever round is showing | in human mode with valid names, click cell 0, then return to the menu and start again before the answer arrives: the old answer puts X on cell 0 of the new round and hands the turn to O | an answer applies only to the round that asked for it; starting a new round waits until no request is out | medium, not executed | Client.StaleAnswerAfterRestart | Client.Game.StartGame |
