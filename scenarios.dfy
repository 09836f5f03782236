/** Concrete games: a top-row win, a last move that both fills the board and
    completes a line, a draw, a blocked threat, and the `||` quirk of `aiMove`
    that passes over a winning cell 0. */
module Scenarios {
  import opened Rules
  import opened Engine

  /** `checkWin` finds nothing on a board none of whose eight lines is complete. */
  lemma NoWinOn(board: Board)
    requires !Complete(board, Lines[0]) && !Complete(board, Lines[1]) && !Complete(board, Lines[2])
    requires !Complete(board, Lines[3]) && !Complete(board, Lines[4]) && !Complete(board, Lines[5])
    requires !Complete(board, Lines[6]) && !Complete(board, Lines[7])
    ensures CheckWin(board) == None
  {
    forall j | 0 <= j < |Lines| ensures !Complete(board, Lines[j]) {
      assert j == 0 || j == 1 || j == 2 || j == 3 || j == 4 || j == 5 || j == 6 || j == 7;
    }
  }

  /** `findBestMove(p)` finds nothing when no line threatens for `p`. */
  lemma NoThreatOn(board: Board, p: Player)
    requires !Threat(board, Lines[0], p) && !Threat(board, Lines[1], p) && !Threat(board, Lines[2], p)
    requires !Threat(board, Lines[3], p) && !Threat(board, Lines[4], p) && !Threat(board, Lines[5], p)
    requires !Threat(board, Lines[6], p) && !Threat(board, Lines[7], p)
    ensures FindBestMove(board, p) == None
  {
    forall j | 0 <= j < |Lines| ensures !Threat(board, Lines[j], p) {
      assert j == 0 || j == 1 || j == 2 || j == 3 || j == 4 || j == 5 || j == 6 || j == 7;
    }
  }

  /** Case (3) of `Engine.MoveOutcome` for a "pvp" click, written as one
      equation on the whole session so that the concrete games below can
      chain it: a click on a free cell that neither wins nor fills the board
      passes the turn. */
  lemma ClickPasses(s: Session, idx: Index, roll: nat, after: Board)
    requires s.active && s.mode == Pvp && s.board[idx] == Empty
    requires after == s.board[idx := s.current]
    requires CheckWin(after) == None && !Full(after)
    ensures Click(s, idx, roll) == Session(after, Other(s.current), true, Pvp)
  {
  }

  /** X plays 0, 1, 2 and O plays 4, 3 in "pvp" mode: X wins on the top row
      and a further click changes nothing. */
  lemma TopRowWin(events: seq<Event>, roll: nat, idx: Index)
    requires events == [CellClick(0, roll), CellClick(4, roll), CellClick(1, roll),
                        CellClick(3, roll), CellClick(2, roll)]
    ensures var r := Run(Initial(), events);
      && !r.active
      && StatusOf(r) == Won(WinInfo(X, Line(0, 1, 2)))
      && Click(r, idx, roll) == r
  {
    var s0 := Initial();
    var b1: Board := s0.board[0 := X];
    NoWinOn(b1);
    assert b1[1] == Empty;
    ClickPasses(s0, 0, roll, b1);
    var s1 := Session(b1, O, true, Pvp);
    var b2: Board := b1[4 := O];
    NoWinOn(b2);
    assert b2[1] == Empty;
    ClickPasses(s1, 4, roll, b2);
    var s2 := Session(b2, X, true, Pvp);
    var b3: Board := b2[1 := X];
    NoWinOn(b3);
    assert b3[2] == Empty;
    ClickPasses(s2, 1, roll, b3);
    var s3 := Session(b3, O, true, Pvp);
    var b4: Board := b3[3 := O];
    NoWinOn(b4);
    assert b4[2] == Empty;
    ClickPasses(s3, 3, roll, b4);
    var s4 := Session(b4, X, true, Pvp);
    var b5: Board := b4[2 := X];
    assert FirstCompleteFrom(b5, 0, 0);
    CheckWinReportsFirst(b5, 0);
    var s5 := Session(b5, X, false, Pvp);
    assert Click(s4, 2, roll) == s5;
    assert Run(s4, events[4..]) == s5 by {
      assert events[4..][1..] == [];
    }
    assert Run(s3, events[3..]) == Run(s4, events[4..]) by {
      assert events[3..][1..] == events[4..];
    }
    assert Run(s2, events[2..]) == Run(s3, events[3..]) by {
      assert events[2..][1..] == events[3..];
    }
    assert Run(s1, events[1..]) == Run(s2, events[2..]) by {
      assert events[1..][1..] == events[2..];
    }
    assert Run(s0, events) == Run(s1, events[1..]);
  }

  /** A win beats a draw: X's last move fills the board and completes the
      left column; the game is won, not drawn. */
  lemma WinOnFullBoard(s: Session)
    requires s == Session([X, O, X, X, O, O, Empty, X, O], X, true, Pvp)
    ensures var r := Move(s, 6, X);
      && Full(r.board) && !r.active
      && StatusOf(r) == Won(WinInfo(X, Line(0, 3, 6)))
  {
    var b: Board := s.board[6 := X];
    assert b == [X, O, X, X, O, O, X, X, O];
    assert Full(b);
    assert FirstCompleteFrom(b, 0, 3);
    CheckWinReportsFirst(b, 3);
  }

  /** A full board without a complete line is a draw, and `aiMove` finds no
      cell to play on it. */
  lemma DrawIsFinal(s: Session, roll: nat)
    requires s == Session([X, O, X, X, O, O, O, X, Empty], X, true, Pvp)
    ensures var r := Move(s, 8, X);
      && !r.active && StatusOf(r) == Draw
      && AiChoice(r.board, roll) == None
  {
    var b: Board := s.board[8 := X];
    NoWinOn(b);
    assert Full(b);
  }

  /** On this board O has no threat ... */
  lemma TopRowBoardNoThreatForO(b: Board)
    requires b == [X, X, Empty, Empty, O, Empty, Empty, Empty, Empty]
    ensures FindBestMove(b, O) == None
  {
    NoThreatOn(b, O);
  }

  /** ... and X threatens the top row at cell 2. */
  lemma TopRowBoardThreatForX(b: Board)
    requires b == [X, X, Empty, Empty, O, Empty, Empty, Empty, Empty]
    ensures FindBestMove(b, X) == Some(2)
  {
    assert FirstThreatFrom(b, X, 0, 0);
    FindBestMoveReportsFirst(b, X, 0);
  }

  /** O cannot win, X threatens the top row at cell 2: `aiMove` blocks there. */
  lemma AiBlocksTopRow(b: Board, roll: nat)
    requires b == [X, X, Empty, Empty, O, Empty, Empty, Empty, Empty]
    ensures AiChoice(b, roll) == Some(2)
  {
    assert b[2] == Empty;
    TopRowBoardNoThreatForO(b);
    TopRowBoardThreatForX(b);
    AiChoicePriority(b, roll);
  }

  /** On this board O wins the top row by playing cell 0 ... */
  lemma ZeroWinsForO(b: Board)
    requires b == [Empty, O, O, X, X, Empty, X, Empty, Empty]
    ensures CheckWin(b[0 := O]) == Some(WinInfo(O, Line(0, 1, 2)))
  {
    var won: Board := b[0 := O];
    assert FirstCompleteFrom(won, 0, 0);
    CheckWinReportsFirst(won, 0);
  }

  /** ... and `findBestMove("O")` returns that cell. */
  lemma ZeroIsWinningCell(b: Board)
    requires b == [Empty, O, O, X, X, Empty, X, Empty, Empty]
    ensures FindBestMove(b, O) == Some(0)
  {
    assert FirstThreatFrom(b, O, 0, 0);
    FindBestMoveReportsFirst(b, O, 0);
  }

  /** On the same board X threatens the middle row at cell 5. */
  lemma FiveBlocksX(b: Board)
    requires b == [Empty, O, O, X, X, Empty, X, Empty, Empty]
    ensures FindBestMove(b, X) == Some(5)
  {
    assert FirstThreatFrom(b, X, 0, 1);
    FindBestMoveReportsFirst(b, X, 1);
  }

  /** The `||` quirk: the winning cell 0 is falsy, so `aiMove` chooses X's
      blocking cell 5 instead, whatever the roll. */
  lemma WinAtZeroSkipped(b: Board, roll: nat)
    requires b == [Empty, O, O, X, X, Empty, X, Empty, Empty]
    ensures AiChoice(b, roll) == Some(5)
  {
    assert b[0] == Empty;
    ZeroIsWinningCell(b);
    FiveBlocksX(b);
    AiChoicePriority(b, roll);
  }

  /** Case (3) of `Engine.MoveOutcome` written as one equation on the whole
      session, for the concrete games: an accepted move that neither wins nor
      fills the board passes the turn. */
  lemma MovePasses(s: Session, idx: Index, p: Player, after: Board)
    requires s.active && s.board[idx] == Empty
    requires after == s.board[idx := p]
    requires CheckWin(after) == None && !Full(after)
    ensures Move(s, idx, p) == s.(board := after, current := Other(s.current))
  {
  }

  /** With the quirk, the game in "ai" mode goes on after the computer's
      move although O could have won it. */
  lemma WinAtZeroGameGoesOn(s: Session, roll: nat)
    requires s.board == [Empty, O, O, X, X, Empty, X, Empty, Empty]
    requires s.current == O && s.active && s.mode == Ai
    ensures var r := AiMove(s, roll);
      r.board == s.board[5 := O] && r.current == X && r.active
  {
    var after: Board := s.board[5 := O];
    NoWinOn(after);
    assert after[0] == Empty;
    ZeroWinsForO(s.board);
    WinAtZeroSkipped(s.board, roll);
    MovePasses(s, 5, O, after);
  }
}
