/** The board view (components/TicTacToe.tsx): which clicks become moves, how a
    cell's (row, col) maps onto checkWinner's flat indices, and which of the three
    cell styles (winning, clickable, blocked) and mark colours a cell gets. */
module TicTacToe {
  import opened Types
  import opened GameLogic
  import opened Text

  /** `row * 3 + col`: the flat index of a cell; distinct cells get distinct indices. */
  function FlatIndex(row: nat, col: nat): (i: nat)
    requires row < 3 && col < 3
    ensures i < 9 && i / 3 == row && i % 3 == col
  {
    row * 3 + col
  }

  /** The view and checkWinner agree on where a cell is. */
  lemma FlatIndexAgrees(board: seq<seq<Cell>>, row: nat, col: nat)
    requires IsBoard(board) && row < 3 && col < 3
    ensures Flat(board)[FlatIndex(row, col)] == board[row][col]
  {
    assert FlatIndex(row, col) == 3 * row + col;
  }

  /** Every flat index is the index of exactly one cell. */
  lemma FlatIndexOnto(i: nat)
    requires i < 9
    ensures i / 3 < 3 && i % 3 < 3 && FlatIndex(i / 3, i % 3) == i
  {
  }

  /** `winnerInfo?.line.includes(flatIndex)` */
  predicate IsWinningCell(winnerInfo: Option<WinnerInfo>, index: nat) {
    winnerInfo.Some? && index in winnerInfo.value.line
  }

  /** A tie reports an empty line, so it highlights no cell. */
  lemma TieHighlightsNothing(board: seq<seq<Cell>>, index: nat)
    requires IsBoard(board)
    requires CheckWinner(board).Some? && CheckWinner(board).value.winner.Tie?
    ensures !IsWinningCell(CheckWinner(board), index)
  {
  }

  /** A win highlights exactly three cells, each holding the winner's mark. */
  lemma WinHighlightsItsLine(board: seq<seq<Cell>>, row: nat, col: nat)
    requires IsBoard(board) && row < 3 && col < 3
    requires CheckWinner(board).Some? && CheckWinner(board).value.winner.Won?
    requires IsWinningCell(CheckWinner(board), FlatIndex(row, col))
    ensures board[row][col] == Some(CheckWinner(board).value.winner.player)
  {
    var info := CheckWinner(board).value;
    var i :| 0 <= i < 3 && info.line[i] == FlatIndex(row, col);
    FlatIndexAgrees(board, row, col);
  }

  /** The click guard `isPlayerTurn && cell === null && !winnerInfo`. */
  predicate CanClick(isPlayerTurn: bool, cell: Cell, winnerInfo: Option<WinnerInfo>) {
    isPlayerTurn && cell.None? && winnerInfo.None?
  }

  /** A move handed to onPlayerMove. */
  datatype Move = Move(row: nat, col: nat)

  /** A click on cell (row, col): the move passed on, if the guard lets it through. */
  function Click(board: seq<seq<Cell>>, row: nat, col: nat, isPlayerTurn: bool,
                 winnerInfo: Option<WinnerInfo>): (m: Option<Move>)
    requires IsBoard(board) && row < 3 && col < 3
    ensures m.Some? <==> isPlayerTurn && board[row][col].None? && winnerInfo.None?
    ensures m.Some? ==> m.value == Move(row, col)
  {
    if CanClick(isPlayerTurn, board[row][col], winnerInfo) then Some(Move(row, col)) else None
  }

  /** The three looks a cell can have. */
  datatype CellStyle = Winning | Clickable | Blocked

  /** getCellClasses' branches: winning first, then clickable, otherwise blocked. */
  function Style(board: seq<seq<Cell>>, row: nat, col: nat, isPlayerTurn: bool,
                 winnerInfo: Option<WinnerInfo>): CellStyle
    requires IsBoard(board) && row < 3 && col < 3
  {
    if IsWinningCell(winnerInfo, FlatIndex(row, col)) then Winning
    else if board[row][col].None? && isPlayerTurn && winnerInfo.None? then Clickable
    else Blocked
  }

  /** The clickable style is shown exactly on the cells a click would turn into a move. */
  lemma ClickableStyleIffClick(board: seq<seq<Cell>>, row: nat, col: nat, isPlayerTurn: bool,
                               winnerInfo: Option<WinnerInfo>)
    requires IsBoard(board) && row < 3 && col < 3
    ensures Style(board, row, col, isPlayerTurn, winnerInfo) == Clickable <==>
      Click(board, row, col, isPlayerTurn, winnerInfo).Some?
  {
  }

  const BaseClasses: string := "w-24 h-24 md:w-32 md:h-32 flex items-center justify-center text-5xl md:text-7xl font-bold transition-all duration-300 rounded-lg shadow-lg "
  const WinningClasses: string := "bg-cyan-400 text-black animate-pulse"
  const PlainClasses: string := "bg-gray-900/80 border border-cyan-500/20 "
  const ClickableClasses: string := "cursor-pointer hover:bg-cyan-900/50"
  const BlockedClasses: string := "cursor-not-allowed"

  /** The class string getCellClasses builds with `+=` for a style: it always starts
      with the base classes, and only a winning cell drops the plain frame. */
  function CellClasses(style: CellStyle): (classes: string)
    ensures StartsWith(classes, BaseClasses)
    ensures style == Winning ==> classes[|BaseClasses|..] == WinningClasses
    ensures style != Winning ==> StartsWith(classes[|BaseClasses|..], PlainClasses)
  {
    match style
    case Winning => BaseClasses + WinningClasses
    case Clickable => BaseClasses + PlainClasses + ClickableClasses
    case Blocked => BaseClasses + PlainClasses + BlockedClasses
  }

  /** getPlayerSymbolClasses: X is cyan, O is red, an empty cell has no colour. */
  function SymbolClasses(cell: Cell): string {
    match cell
    case Some(X) => "text-cyan-300"
    case Some(O) => "text-red-400"
    case None => ""
  }

  /** Every mark is coloured, and the two players' colours differ. */
  lemma MarksAreColoured(p: Player)
    ensures SymbolClasses(Some(p)) != ""
    ensures SymbolClasses(Some(X)) != SymbolClasses(Some(O))
    ensures SymbolClasses(None) == ""
  {
    assert SymbolClasses(Some(X))[5] != SymbolClasses(Some(O))[5];
  }
}
