/** The tic-tac-toe outcome (utils/gameLogic.ts): a first-match search over the
    eight lines of a 3x3 board, then a full-board test for a tie. */
module GameLogic {
  import opened Types

  datatype Player = X | O

  /** A cell holds a mark or is empty (null in the front end). */
  type Cell = Option<Player>

  datatype Winner = Won(player: Player) | Tie

  /** What checkWinner reports: the winner and the flat indices of the winning line
      (empty for a tie). */
  datatype WinnerInfo = WinnerInfo(winner: Winner, line: seq<nat>)

  /** Three rows of three cells. */
  predicate IsBoard(board: seq<seq<Cell>>) {
    |board| == 3 && forall r :: 0 <= r < 3 ==> |board[r]| == 3
  }

  /** board.flat(): the rows one after another, so cell (r, c) lands at 3r + c. */
  function Flat(board: seq<seq<Cell>>): (f: seq<Cell>)
    requires IsBoard(board)
    ensures |f| == 9
    ensures forall r, c :: 0 <= r < 3 && 0 <= c < 3 ==> f[3 * r + c] == board[r][c]
  {
    board[0] + board[1] + board[2]
  }

  /** The rows, then the columns, then the two diagonals, as flat indices. */
  const Lines: seq<seq<nat>> := [
    [0, 1, 2], [3, 4, 5], [6, 7, 8],
    [0, 3, 6], [1, 4, 7], [2, 5, 8],
    [0, 4, 8], [2, 4, 6]]

  /** Every line has three distinct cells of the board, and no line is listed twice. */
  lemma LinesShape()
    ensures |Lines| == 8
    ensures forall k :: 0 <= k < 8 ==>
      |Lines[k]| == 3 && Lines[k][0] < 9 && Lines[k][1] < 9 && Lines[k][2] < 9 &&
      Lines[k][0] != Lines[k][1] && Lines[k][1] != Lines[k][2] && Lines[k][0] != Lines[k][2]
    ensures forall j, k :: 0 <= j < k < 8 ==> Lines[j] != Lines[k]
  {
  }

  /** `flat[a] && flat[a] === flat[b] && flat[a] === flat[c]`: one mark fills the line. */
  predicate Complete(flat: seq<Cell>, k: nat)
    requires |flat| == 9 && k < 8
  {
    var line := Lines[k];
    flat[line[0]].Some? && flat[line[0]] == flat[line[1]] && flat[line[0]] == flat[line[2]]
  }

  /** No line before the k-th is complete. */
  predicate NoneCompleteBefore(flat: seq<Cell>, k: nat)
    requires |flat| == 9 && k <= 8
  {
    forall j :: 0 <= j < k ==> !Complete(flat, j)
  }

  /** The loop over the lines from the k-th on: the index of the first complete one. */
  function FirstComplete(flat: seq<Cell>, k: nat): (r: Option<nat>)
    requires |flat| == 9 && k <= 8
    ensures r.Some? ==> k <= r.value < 8 && Complete(flat, r.value)
    ensures r.Some? ==> forall j :: k <= j < r.value ==> !Complete(flat, j)
    ensures r.None? ==> forall j :: k <= j < 8 ==> !Complete(flat, j)
    decreases 8 - k
  {
    if k == 8 then None
    else if Complete(flat, k) then Some(k)
    else FirstComplete(flat, k + 1)
  }

  /** A complete line is three cells of the board holding the same mark. */
  lemma CompleteLine(flat: seq<Cell>, k: nat)
    requires |flat| == 9 && k < 8 && Complete(flat, k)
    ensures |Lines[k]| == 3 && flat[Lines[k][0]].Some?
    ensures forall i :: 0 <= i < 3 ==> Lines[k][i] < 9 && flat[Lines[k][i]] == flat[Lines[k][0]]
  {
    LinesShape();
    forall i | 0 <= i < 3
      ensures Lines[k][i] < 9 && flat[Lines[k][i]] == flat[Lines[k][0]]
    {
      if i == 1 {
        assert flat[Lines[k][1]] == flat[Lines[k][0]];
      }
    }
  }

  /** checkWinner: the first complete line in the listed order wins; otherwise a full
      board is a tie and anything else is undecided (None). */
  function CheckWinner(board: seq<seq<Cell>>): (r: Option<WinnerInfo>)
    requires IsBoard(board)
    ensures r.Some? && r.value.winner.Won? ==>
      |r.value.line| == 3 &&
      forall i :: 0 <= i < 3 ==>
        r.value.line[i] < 9 && Flat(board)[r.value.line[i]] == Some(r.value.winner.player)
    ensures r.Some? && r.value.winner.Won? ==>
      exists k :: 0 <= k < 8 && r.value.line == Lines[k] && NoneCompleteBefore(Flat(board), k)
    ensures r.Some? && r.value.winner.Tie? <==>
      NoneCompleteBefore(Flat(board), 8) && forall i :: 0 <= i < 9 ==> Flat(board)[i].Some?
    ensures r.Some? && r.value.winner.Tie? ==> r.value.line == []
    ensures r.None? <==>
      NoneCompleteBefore(Flat(board), 8) && exists i :: 0 <= i < 9 && Flat(board)[i].None?
  {
    var flat := Flat(board);
    match FirstComplete(flat, 0)
    case Some(k) =>
      assert !NoneCompleteBefore(flat, 8) by { assert !(!Complete(flat, k)); }
      CompleteLine(flat, k);
      Some(WinnerInfo(Won(flat[Lines[k][0]].value), Lines[k]))
    case None =>
      if forall i :: 0 <= i < 9 ==> flat[i].Some? then Some(WinnerInfo(Tie, []))
      else None
  }

  /** The example of a diagonal of X marks: X wins on the line 0, 4, 8. */
  lemma DiagonalWin()
    ensures CheckWinner([[Some(X), None, None], [None, Some(X), None], [None, None, Some(X)]])
      == Some(WinnerInfo(Won(X), [0, 4, 8]))
  {
    var board := [[Some(X), None, None], [None, Some(X), None], [None, None, Some(X)]];
    var flat := Flat(board);
    assert flat == [Some(X), None, None, None, Some(X), None, None, None, Some(X)];
    assert FirstComplete(flat, 0) == Some(6) by {
      assert !Complete(flat, 0) && !Complete(flat, 1) && !Complete(flat, 2);
      assert !Complete(flat, 3) && !Complete(flat, 4) && !Complete(flat, 5);
      assert Complete(flat, 6);
    }
  }
}
