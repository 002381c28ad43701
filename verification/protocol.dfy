/**
 * Values shared by the browser client and the move-resolution endpoint:
 * the 9-cell board as it travels in JSON, the request the client posts
 * and the response the endpoint answers with.
 */
module Protocol {

  datatype Option<+T> = None | Some(value: T)

  /** The game mode. The endpoint treats every mode other than "ai" like Human. */
  datatype Mode = Human | Ai

  /** A board is the JSON list of cells: "" for an empty cell, "X" or "O" for a mark. */
  type Board = seq<string>

  const EMPTY: string := ""
  const MARK_X: string := "X"
  const MARK_O: string := "O"
  const DRAW: string := "Draw"
  const CELLS: nat := 9

  /** The body of POST /api/move. */
  datatype Request = Request(board: Board, mode: Mode, level: string)

  /** The answer of POST /api/move; `winner` is absent (JSON null) while the round goes on. */
  datatype Response = Response(board: Board, gameOver: bool, winner: Option<string>)

  /** Number of empty cells, as `board.filter(c => c === "").length` computes it. */
  function EmptyCount(b: Board): (n: nat)
    ensures n <= |b|
    ensures n == 0 <==> forall i :: 0 <= i < |b| ==> b[i] != EMPTY
    ensures n == |b| <==> forall i :: 0 <= i < |b| ==> b[i] == EMPTY
  {
    if b == [] then 0
    else (if b[0] == EMPTY then 1 else 0) + EmptyCount(b[1..])
  }

  /** Marking an empty cell removes exactly one empty cell. */
  lemma {:induction false} EmptyCountMark(b: Board, k: nat, mark: string)
    requires k < |b| && b[k] == EMPTY && mark != EMPTY
    ensures EmptyCount(b[k := mark]) == EmptyCount(b) - 1
  {
    if k > 0 {
      assert b[k := mark][1..] == b[1..][k - 1 := mark];
      EmptyCountMark(b[1..], k - 1, mark);
    } else {
      assert b[k := mark][1..] == b[1..];
    }
  }

  /** `after` keeps every mark of `before`: no mark is removed or changed. */
  ghost predicate Extends(before: Board, after: Board) {
    |before| == |after| &&
    forall i :: 0 <= i < |before| && before[i] != EMPTY ==> after[i] == before[i]
  }

  /** `after` is `before` with exactly one previously empty cell set to `mark`. */
  ghost predicate AddsOne(before: Board, after: Board, mark: string) {
    exists k :: 0 <= k < |before| && before[k] == EMPTY && after == before[k := mark]
  }

  /** Keeping every mark cannot create empty cells. */
  lemma {:induction false} ExtendsEmptyCount(before: Board, after: Board)
    requires Extends(before, after)
    ensures EmptyCount(after) <= EmptyCount(before)
  {
    if before != [] {
      assert Extends(before[1..], after[1..]) by {
        forall i | 0 <= i < |before| - 1 && before[1..][i] != EMPTY
          ensures after[1..][i] == before[1..][i]
        {
          assert before[i + 1] != EMPTY;
        }
      }
      ExtendsEmptyCount(before[1..], after[1..]);
    }
  }

  lemma ExtendsTransitive(a: Board, b: Board, c: Board)
    requires Extends(a, b) && Extends(b, c)
    ensures Extends(a, c)
  {
  }

  lemma {:induction false} AddsOneExtends(before: Board, after: Board, mark: string)
    requires AddsOne(before, after, mark) && mark != EMPTY
    ensures Extends(before, after)
    ensures EmptyCount(after) == EmptyCount(before) - 1
  {
    var k :| 0 <= k < |before| && before[k] == EMPTY && after == before[k := mark];
    EmptyCountMark(before, k, mark);
  }
}
