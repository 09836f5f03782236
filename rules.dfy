/** The board of the game and the two read-only scans over it: `checkWin`
    (is there a completed line?) and `findBestMove` (which empty cell would
    complete a line for a player?). Both scan the same eight lines in the
    same fixed order and stop at the first match. */
module Rules {

  datatype Option<T> = None | Some(value: T)

  /** The content of one cell: the empty string, "X" or "O". */
  datatype Mark = Empty | X | O

  /** A mark a player writes: never the empty string. */
  type Player = m: Mark | m != Empty witness X

  /** A cell position, 0..8, row by row. */
  type Index = i: nat | i < 9

  /** The nine cells of the board. */
  type Board = s: seq<Mark> | |s| == 9
    witness [Empty, Empty, Empty, Empty, Empty, Empty, Empty, Empty, Empty]

  const EmptyBoard: Board := [Empty, Empty, Empty, Empty, Empty, Empty, Empty, Empty, Empty]

  /** The turn flip `currentPlayer === "X" ? "O" : "X"`. */
  function Other(p: Player): (q: Player)
    ensures q != p
  {
    if p == X then O else X
  }

  /** One of the eight winning triples. */
  datatype Line = Line(a: Index, b: Index, c: Index)

  /** Rows, then columns, then the two diagonals. */
  const Lines: seq<Line> := [
    Line(0, 1, 2), Line(3, 4, 5), Line(6, 7, 8),
    Line(0, 3, 6), Line(1, 4, 7), Line(2, 5, 8),
    Line(0, 4, 8), Line(2, 4, 6)
  ]

  /** What `checkWin` reports: the winning mark and its line. */
  datatype WinInfo = WinInfo(player: Player, line: Line)

  /** The number of cells of `s` that hold `m`. */
  function Count(s: seq<Mark>, m: Mark): (n: nat)
    ensures n <= |s|
    ensures n == 0 <==> m !in s
  {
    if s == [] then 0 else (if s[0] == m then 1 else 0) + Count(s[1..], m)
  }

  /** `board.every((cell) => cell)`: no cell is empty. */
  predicate Full(board: Board) {
    forall i | 0 <= i < |board| :: board[i] != Empty
  }

  // ---------------------------------------------------------------------
  // checkWin
  // ---------------------------------------------------------------------

  /** All three cells of `l` hold the same non-empty mark. */
  predicate Complete(board: Board, l: Line) {
    board[l.a] != Empty && board[l.a] == board[l.b] && board[l.a] == board[l.c]
  }

  /** Lines[j] is complete and no line of Lines[k..j] before it is. */
  predicate FirstCompleteFrom(board: Board, k: nat, j: nat) {
    k <= j < |Lines| && Complete(board, Lines[j]) &&
    forall i | k <= i < j :: !Complete(board, Lines[i])
  }

  /** The scan of `checkWin` from line `k` on. */
  function WinFrom(board: Board, k: nat): (r: Option<WinInfo>)
    requires k <= |Lines|
    decreases |Lines| - k
    ensures r.None? <==> forall j | k <= j < |Lines| :: !Complete(board, Lines[j])
    ensures r.Some? ==>
      exists j: nat :: FirstCompleteFrom(board, k, j) && r.value == WinInfo(board[Lines[j].a], Lines[j])
  {
    if k == |Lines| then None
    else if Complete(board, Lines[k]) then
      assert FirstCompleteFrom(board, k, k);
      Some(WinInfo(board[Lines[k].a], Lines[k]))
    else
      var r := WinFrom(board, k + 1);
      assert r.Some? ==>
        exists j: nat :: FirstCompleteFrom(board, k, j) && r.value == WinInfo(board[Lines[j].a], Lines[j]) by {
        if r.Some? {
          var j: nat :| FirstCompleteFrom(board, k + 1, j) && r.value == WinInfo(board[Lines[j].a], Lines[j]);
          forall i | k <= i < j ensures !Complete(board, Lines[i]) {
            if i != k { assert k + 1 <= i; }
          }
          assert FirstCompleteFrom(board, k, j);
        }
      }
      r
  }

  /** `checkWin`: the first complete line in the fixed order, with its mark,
      or nothing when no line is complete. */
  function CheckWin(board: Board): (r: Option<WinInfo>)
    ensures r.None? <==> forall j | 0 <= j < |Lines| :: !Complete(board, Lines[j])
    ensures r.Some? ==>
      exists j: nat :: FirstCompleteFrom(board, 0, j) && r.value == WinInfo(board[Lines[j].a], Lines[j])
  {
    WinFrom(board, 0)
  }

  /** The first complete line is the one `checkWin` reports. */
  lemma CheckWinReportsFirst(board: Board, j: nat)
    requires FirstCompleteFrom(board, 0, j)
    ensures CheckWin(board) == Some(WinInfo(board[Lines[j].a], Lines[j]))
  {
    var r := CheckWin(board);
    var j': nat :| FirstCompleteFrom(board, 0, j') && r.value == WinInfo(board[Lines[j'].a], Lines[j']);
    assert j' == j;
  }

  /** A reported win is a complete line of the board, held by the reported player. */
  lemma CheckWinSound(board: Board)
    requires CheckWin(board).Some?
    ensures Complete(board, CheckWin(board).value.line)
    ensures CheckWin(board).value.line in Lines
    ensures CheckWin(board).value.player == board[CheckWin(board).value.line.a]
  {
    var w := CheckWin(board).value;
    var j: nat :| FirstCompleteFrom(board, 0, j) && w == WinInfo(board[Lines[j].a], Lines[j]);
  }

  // ---------------------------------------------------------------------
  // findBestMove
  // ---------------------------------------------------------------------

  /** `[board[a], board[b], board[c]]` for the line. */
  function CellsOf(board: Board, l: Line): (vals: seq<Mark>)
    ensures |vals| == 3
  {
    [board[l.a], board[l.b], board[l.c]]
  }

  /** Two cells of `l` hold `p` and the third is empty. */
  predicate Threat(board: Board, l: Line, p: Player) {
    || (board[l.a] == p && board[l.b] == p && board[l.c] == Empty)
    || (board[l.a] == p && board[l.b] == Empty && board[l.c] == p)
    || (board[l.a] == Empty && board[l.b] == p && board[l.c] == p)
  }

  /** The test `findBestMove` writes, `vals.filter((v) => v === player).length === 2
      && vals.includes("")`, is exactly a threat. */
  lemma ThreatIsFilterTest(board: Board, l: Line, p: Player)
    ensures Threat(board, l, p) <==>
      Count(CellsOf(board, l), p) == 2 && Empty in CellsOf(board, l)
  {
    var x, y, z := board[l.a], board[l.b], board[l.c];
    assert Count([z], p) == (if z == p then 1 else 0) by {
      assert [z][1..] == [];
    }
    assert Count([y, z], p) == (if y == p then 1 else 0) + Count([z], p) by {
      assert [y, z][1..] == [z];
    }
    assert Count(CellsOf(board, l), p) == (if x == p then 1 else 0) + Count([y, z], p) by {
      assert CellsOf(board, l)[1..] == [y, z];
    }
  }

  /** `line[vals.indexOf("")]`: the first empty cell of the line. */
  function Gap(board: Board, l: Line): (i: Index)
    requires board[l.a] == Empty || board[l.b] == Empty || board[l.c] == Empty
    ensures board[i] == Empty
    ensures i == l.a || i == l.b || i == l.c
  {
    if board[l.a] == Empty then l.a else if board[l.b] == Empty then l.b else l.c
  }

  /** Lines[j] is a threat for `p` and no line of Lines[k..j] before it is. */
  predicate FirstThreatFrom(board: Board, p: Player, k: nat, j: nat) {
    k <= j < |Lines| && Threat(board, Lines[j], p) &&
    forall i | k <= i < j :: !Threat(board, Lines[i], p)
  }

  /** Cell `c` is the gap of the first threatened line from `k` on. */
  ghost predicate GapOfFirstThreat(board: Board, p: Player, k: nat, c: Index) {
    exists j: nat :: FirstThreatFrom(board, p, k, j) && c == Gap(board, Lines[j])
  }

  /** The scan of `findBestMove` from line `k` on. */
  function ThreatFrom(board: Board, p: Player, k: nat): (r: Option<Index>)
    requires k <= |Lines|
    decreases |Lines| - k
    ensures r.None? <==> forall j | k <= j < |Lines| :: !Threat(board, Lines[j], p)
    ensures r.Some? ==> GapOfFirstThreat(board, p, k, r.value)
  {
    if k == |Lines| then None
    else if Threat(board, Lines[k], p) then
      assert FirstThreatFrom(board, p, k, k);
      Some(Gap(board, Lines[k]))
    else
      var r := ThreatFrom(board, p, k + 1);
      assert r.Some? ==> GapOfFirstThreat(board, p, k, r.value) by {
        if r.Some? {
          var j: nat :| FirstThreatFrom(board, p, k + 1, j) && r.value == Gap(board, Lines[j]);
          forall i | k <= i < j ensures !Threat(board, Lines[i], p) {
            if i != k { assert k + 1 <= i; }
          }
        }
      }
      r
  }

  /** `findBestMove(player)`: the empty cell of the first line, in the fixed
      order, that holds two marks of `p` and one empty cell; nothing if no
      line does. The cell returned is always empty. */
  function FindBestMove(board: Board, p: Player): (r: Option<Index>)
    ensures r.None? <==> forall j | 0 <= j < |Lines| :: !Threat(board, Lines[j], p)
    ensures r.Some? ==> GapOfFirstThreat(board, p, 0, r.value)
    ensures r.Some? ==> board[r.value] == Empty
  {
    ThreatFrom(board, p, 0)
  }

  /** The first threatened line is the one whose gap `findBestMove` returns. */
  lemma FindBestMoveReportsFirst(board: Board, p: Player, j: nat)
    requires FirstThreatFrom(board, p, 0, j)
    ensures FindBestMove(board, p) == Some(Gap(board, Lines[j]))
  {
    var r := FindBestMove(board, p);
    var j': nat :| FirstThreatFrom(board, p, 0, j') && r.value == Gap(board, Lines[j']);
    assert j' == j;
  }

  /** Filling the gap of a threatened line with `p` completes that line for `p`. */
  lemma ThreatCompletes(board: Board, l: Line, p: Player)
    requires Threat(board, l, p)
    ensures Complete(board[Gap(board, l) := p], l)
    ensures board[Gap(board, l) := p][l.a] == p
  {
  }

  /** Once its gap is filled, by either player, a line no longer threatens. */
  lemma FillingGapEndsThreat(board: Board, l: Line, p: Player, q: Player)
    requires Threat(board, l, p)
    ensures !Threat(board[Gap(board, l) := q], l, p)
  {
  }

  /** A line that is complete after one cell changed either was complete
      before or passes through that cell. */
  lemma NewLineUsesCell(board: Board, i: Index, m: Mark, l: Line)
    requires Complete(board[i := m], l) && !Complete(board, l)
    ensures i == l.a || i == l.b || i == l.c
    ensures board[i := m][l.a] == m
  {
  }

  /** The cell `findBestMove(p)` returns wins the game for `p`: placing `p`
      there makes `checkWin` report a line, and when the board had no
      complete line before, the reported winner is `p`. */
  lemma BestMoveWins(board: Board, p: Player)
    requires FindBestMove(board, p).Some?
    ensures CheckWin(board[FindBestMove(board, p).value := p]).Some?
    ensures CheckWin(board).None? ==>
      CheckWin(board[FindBestMove(board, p).value := p]).value.player == p
  {
    var i := FindBestMove(board, p).value;
    var j: nat :| FirstThreatFrom(board, p, 0, j) && i == Gap(board, Lines[j]);
    var after: Board := board[i := p];
    ThreatCompletes(board, Lines[j], p);
    assert Complete(after, Lines[j]);
    if CheckWin(board).None? {
      CheckWinSound(after);
      var w := CheckWin(after).value;
      assert !Complete(board, w.line);
      NewLineUsesCell(board, i, p, w.line);
    }
  }

  // ---------------------------------------------------------------------
  // Empty cells and counting
  // ---------------------------------------------------------------------

  /** The empty indices from `k` on, in increasing order. */
  function EmptyFrom(board: Board, k: nat): (r: seq<Index>)
    requires k <= 9
    decreases 9 - k
    ensures forall n | 0 <= n < |r| :: k <= r[n] && board[r[n]] == Empty
    ensures forall c: Index | k <= c && board[c] == Empty :: c in r
    ensures forall n, m | 0 <= n < m < |r| :: r[n] < r[m]
  {
    if k == 9 then []
    else (if board[k] == Empty then [k as Index] else []) + EmptyFrom(board, k + 1)
  }

  /** `board.map((cell, idx) => (cell ? null : idx)).filter((idx) => idx !== null)`:
      the empty cells, each once, in increasing order. */
  function EmptyCells(board: Board): (r: seq<Index>)
    ensures forall c: Index :: c in r <==> board[c] == Empty
    ensures forall n, m | 0 <= n < m < |r| :: r[n] < r[m]
    ensures |r| == 0 <==> Full(board)
  {
    var r := EmptyFrom(board, 0);
    assert forall c: Index :: c in r ==> board[c] == Empty;
    assert |r| == 0 <==> Full(board) by {
      if !Full(board) {
        var c :| 0 <= c < 9 && board[c] == Empty;
        assert (c as Index) in r;
      }
    }
    r
  }

  /** The empty board has no complete line, a free cell and no marks. */
  lemma EmptyBoardIsOpen()
    ensures CheckWin(EmptyBoard) == None && !Full(EmptyBoard)
    ensures Count(EmptyBoard, X) == 0 && Count(EmptyBoard, O) == 0
  {
    var e := EmptyBoard;
    assert forall j | 0 <= j < |Lines| :: !Complete(e, Lines[j]) by {
      assert forall i: Index :: e[i] == Empty;
    }
    assert e[0] == Empty;
    assert X !in e && O !in e;
  }

  /** Writing `m` over cell `i` moves one count from the old mark to `m`. */
  lemma {:induction false} CountUpdate(s: seq<Mark>, i: nat, m: Mark, q: Mark)
    requires i < |s|
    ensures Count(s[i := m], q) ==
      Count(s, q) - (if s[i] == q then 1 else 0) + (if m == q then 1 else 0)
  {
    if i == 0 {
      assert s[i := m][1..] == s[1..];
    } else {
      assert s[i := m][1..] == s[1..][i - 1 := m];
      CountUpdate(s[1..], i - 1, m, q);
    }
  }

  /** Every cell holds one of the three marks. */
  lemma {:induction false} CountSplit(s: seq<Mark>)
    ensures Count(s, X) + Count(s, O) + Count(s, Empty) == |s|
  {
    if s != [] {
      CountSplit(s[1..]);
    }
  }
}
