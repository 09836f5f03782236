/** The session state machine of script.js on values: the module-level
    `board`, `currentPlayer`, `gameActive` and `mode`, and what `makeMove`,
    `aiMove`, `restartGame`, `handleCellClick` and `handleModeChange` make of
    them. The class in module Game performs the same steps in place and is
    proved against these functions. */
module Engine {
  import opened Rules

  /** The radio value `mode`: "pvp" or "ai". */
  datatype Mode = Pvp | Ai

  datatype Session = Session(board: Board, current: Player, active: bool, mode: Mode)

  /** What the status line announces. */
  datatype Status = InProgress(turn: Player) | Won(info: WinInfo) | Draw

  /** The state at page load. */
  function Initial(): (s: Session)
    ensures s.active && s.current == X && s.mode == Pvp
    ensures forall i: Index :: s.board[i] == Empty
  {
    Session(EmptyBoard, X, true, Pvp)
  }

  /** The status text after the last accepted move: the winner while a line is
      complete, a draw on a finished game without one, the player to move
      otherwise. */
  function StatusOf(s: Session): (st: Status)
    ensures st.InProgress? <==> s.active
    ensures st.InProgress? ==> st.turn == s.current
    ensures st.Draw? ==> CheckWin(s.board).None?
    ensures st.Won? ==> Complete(s.board, st.info.line) && st.info.player == s.board[st.info.line.a]
  {
    if s.active then InProgress(s.current)
    else match CheckWin(s.board)
      case Some(w) => CheckWinSound(s.board); Won(w)
      case None => Draw
  }

  /** `makeMove(idx, player)`. */
  function Move(s: Session, idx: Index, p: Player): (r: Session)
    ensures r.mode == s.mode
  {
    if !s.active || s.board[idx] != Empty then s
    else
      var b: Board := s.board[idx := p];
      if CheckWin(b).Some? then s.(board := b, active := false)
      else if Full(b) then s.(board := b, active := false)
      else s.(board := b, current := Other(s.current))
  }

  /** `restartGame`: empty board, "X" to move, game active; `mode` is kept. */
  function Restart(s: Session): (r: Session)
    ensures r.mode == s.mode
  {
    Session(EmptyBoard, X, true, s.mode)
  }

  /** `handleModeChange`: store the chosen mode, then restart. */
  function ChangeMode(s: Session, m: Mode): (r: Session)
    ensures r.mode == m
    ensures r.board == EmptyBoard && r.current == X && r.active
  {
    Restart(s.(mode := m))
  }

  /** JavaScript truthiness of `findBestMove`'s result: `null` and `0` are falsy. */
  predicate Truthy(o: Option<Index>) {
    o.Some? && o.value != 0
  }

  /** The cell `aiMove` chooses: nothing on a full board, otherwise
      `findBestMove("O") || findBestMove("X") || empty[random]`, where the
      random pick is `empty[roll % empty.length]`. */
  function AiChoice(board: Board, roll: nat): (c: Option<Index>)
    ensures c.None? <==> Full(board)
    ensures c.Some? ==> board[c.value] == Empty
  {
    var empty := EmptyCells(board);
    if |empty| == 0 then None
    else
      var win := FindBestMove(board, O);
      if Truthy(win) then win
      else
        var block := FindBestMove(board, X);
        if Truthy(block) then block
        else Some(empty[roll % |empty|])
  }

  /** `aiMove`: place "O" at the chosen cell through `makeMove`. */
  function AiMove(s: Session, roll: nat): (r: Session)
    ensures r.mode == s.mode
  {
    match AiChoice(s.board, roll)
    case None => s
    case Some(c) => Move(s, c, O)
  }

  /** `handleCellClick` on cell `idx`, with the computer's reply made at once. */
  function Click(s: Session, idx: Index, roll: nat): (r: Session)
    ensures r.mode == s.mode
  {
    if !s.active || s.board[idx] != Empty then s
    else
      var t := Move(s, idx, s.current);
      if t.mode == Ai && t.active && t.current == O then AiMove(t, roll) else t
  }

  /** The inputs of the page: a click on a cell, the restart button, a mode radio. */
  datatype Event = CellClick(idx: Index, roll: nat) | RestartClick | ModeChange(mode: Mode)

  function Dispatch(s: Session, e: Event): Session {
    match e
    case CellClick(idx, roll) => Click(s, idx, roll)
    case RestartClick => Restart(s)
    case ModeChange(m) => ChangeMode(s, m)
  }

  function Run(s: Session, events: seq<Event>): Session
    decreases |events|
  {
    if events == [] then s else Run(Dispatch(s, events[0]), events[1..])
  }

  // ---------------------------------------------------------------------
  // makeMove
  // ---------------------------------------------------------------------

  /** A move in a finished game or on an occupied cell changes nothing. */
  lemma MoveRejected(s: Session, idx: Index, p: Player)
    requires !s.active || s.board[idx] != Empty
    ensures Move(s, idx, p) == s
  {
  }

  /** An accepted move writes `p` at `idx` and leaves the other eight cells. */
  lemma MovePlaces(s: Session, idx: Index, p: Player)
    requires s.active && s.board[idx] == Empty
    ensures Move(s, idx, p).board[idx] == p
    ensures forall i: Index | i != idx :: Move(s, idx, p).board[i] == s.board[i]
  {
  }

  /** The outcome of an accepted move, decided in this order: a completed
      line ends the game as a win (even on a full board), otherwise a full
      board ends it as a draw, otherwise the turn passes to the other player. */
  lemma MoveOutcome(s: Session, idx: Index, p: Player)
    requires s.active && s.board[idx] == Empty
    ensures var r := Move(s, idx, p);
      && (CheckWin(r.board).Some? ==>
            !r.active && r.current == s.current && StatusOf(r) == Won(CheckWin(r.board).value))
      && (CheckWin(r.board).None? && Full(r.board) ==>
            !r.active && r.current == s.current && StatusOf(r) == Draw)
      && (CheckWin(r.board).None? && !Full(r.board) ==>
            r.active && r.current == Other(s.current) && StatusOf(r) == InProgress(Other(s.current)))
  {
  }

  /** Playing the same cell twice: the second move is rejected. */
  lemma SecondMoveRejected(s: Session, idx: Index, p: Player, q: Player)
    ensures Move(Move(s, idx, p), idx, q) == Move(s, idx, p)
  {
  }

  /** A finished game absorbs every move, AI move and click. */
  lemma FinishedGameAbsorbs(s: Session, idx: Index, p: Player, roll: nat)
    requires !s.active
    ensures Move(s, idx, p) == s && AiMove(s, roll) == s && Click(s, idx, roll) == s
  {
  }

  // ---------------------------------------------------------------------
  // aiMove
  // ---------------------------------------------------------------------

  /** The priority of `aiMove`: O's winning cell when it is not 0, else X's
      blocking cell when it is not 0, else an empty cell picked by the roll. */
  lemma AiChoicePriority(board: Board, roll: nat)
    requires !Full(board)
    ensures Truthy(FindBestMove(board, O)) ==> AiChoice(board, roll) == FindBestMove(board, O)
    ensures !Truthy(FindBestMove(board, O)) && Truthy(FindBestMove(board, X)) ==>
      AiChoice(board, roll) == FindBestMove(board, X)
    ensures !Truthy(FindBestMove(board, O)) && !Truthy(FindBestMove(board, X)) ==>
      AiChoice(board, roll).value in EmptyCells(board)
  {
  }

  /** Without a win or a block to play, every empty cell is the one some roll
      picks: the fallback can reach the whole of `empty`. */
  lemma AiFallbackReachesEveryEmptyCell(board: Board, c: Index)
    requires board[c] == Empty
    requires !Truthy(FindBestMove(board, O)) && !Truthy(FindBestMove(board, X))
    ensures exists roll: nat :: AiChoice(board, roll) == Some(c)
  {
    var empty := EmptyCells(board);
    assert c in empty;
    var k :| 0 <= k < |empty| && empty[k] == c;
    SmallRollPicksItself(k, |empty|);
    assert !Full(board);
    assert AiChoice(board, k) == Some(empty[k % |empty|]);
  }

  /** A roll below the length of `empty` picks the cell at that position. */
  lemma SmallRollPicksItself(k: nat, n: nat)
    requires k < n
    ensures k % n == k
  {
  }

  /** On a full board `aiMove` returns without moving. */
  lemma AiMoveFullIsNoop(s: Session, roll: nat)
    requires Full(s.board)
    ensures AiMove(s, roll) == s
  {
  }

  /** In a running game `aiMove` writes "O" on the chosen cell and nowhere else. */
  lemma AiMovePlays(s: Session, roll: nat, c: Index)
    requires s.active && AiChoice(s.board, roll) == Some(c)
    ensures AiMove(s, roll).board == s.board[c := O]
  {
  }

  /** When O has a winning cell other than 0 in a running game, `aiMove`
      wins the game for O on that cell. */
  lemma AiTakesWin(s: Session, roll: nat)
    requires s.active && CheckWin(s.board).None? && !Full(s.board)
    requires Truthy(FindBestMove(s.board, O))
    ensures var r := AiMove(s, roll);
      && r.board == s.board[FindBestMove(s.board, O).value := O]
      && !r.active && StatusOf(r).Won? && StatusOf(r).info.player == O
  {
    BestMoveWins(s.board, O);
  }

  /** When O has no winning cell other than 0 but X has a threat away from
      cell 0, `aiMove` plays O on the gap of X's first threatened line ... */
  lemma AiBlocksCell(s: Session, roll: nat, j: nat)
    requires s.active && !Full(s.board)
    requires !Truthy(FindBestMove(s.board, O)) && Truthy(FindBestMove(s.board, X))
    requires FirstThreatFrom(s.board, X, 0, j)
    ensures AiMove(s, roll).board == s.board[Gap(s.board, Lines[j]) := O]
  {
    FindBestMoveReportsFirst(s.board, X, j);
    AiChoicePriority(s.board, roll);
    AiMovePlays(s, roll, Gap(s.board, Lines[j]));
  }

  /** ... so that line no longer threatens. */
  lemma AiBlocks(s: Session, roll: nat, j: nat)
    requires s.active && !Full(s.board)
    requires !Truthy(FindBestMove(s.board, O)) && Truthy(FindBestMove(s.board, X))
    requires FirstThreatFrom(s.board, X, 0, j)
    ensures !Threat(AiMove(s, roll).board, Lines[j], X)
  {
    AiBlocksCell(s, roll, j);
    FillingGapEndsThreat(s.board, Lines[j], X, O);
  }

  // ---------------------------------------------------------------------
  // handleCellClick
  // ---------------------------------------------------------------------

  /** A click in a finished game or on an occupied cell is ignored. */
  lemma ClickRejected(s: Session, idx: Index, roll: nat)
    requires !s.active || s.board[idx] != Empty
    ensures Click(s, idx, roll) == s
  {
  }

  /** In "pvp" mode, or when the human move ends the game or leaves X to
      move, a click is exactly `makeMove(idx, currentPlayer)`: the computer
      does not move. */
  lemma ClickWithoutAi(s: Session, idx: Index, roll: nat)
    requires s.mode == Pvp || !Move(s, idx, s.current).active || Move(s, idx, s.current).current == X
    ensures Click(s, idx, roll) == Move(s, idx, s.current)
  {
  }

  /** In "ai" mode, when the human move leaves the game running with O to
      move, the click is that move followed by exactly one `aiMove`, whether
      or not the computer's reply ends the game. */
  lemma ClickWithAi(s: Session, idx: Index, roll: nat)
    requires s.active && s.board[idx] == Empty && s.mode == Ai
    requires Move(s, idx, s.current).active && Move(s, idx, s.current).current == O
    ensures Click(s, idx, roll) == AiMove(Move(s, idx, s.current), roll)
  {
  }

  /** Without a restart or a mode change, a finished game stays exactly as it is. */
  lemma {:induction false} FinishedGameFrozen(s: Session, events: seq<Event>)
    requires !s.active
    requires forall n | 0 <= n < |events| :: events[n].CellClick?
    ensures Run(s, events) == s
    decreases |events|
  {
    if events != [] {
      assert Dispatch(s, events[0]) == s;
      assert forall n | 0 <= n < |events[1..]| :: events[1..][n] == events[n + 1];
      FinishedGameFrozen(s, events[1..]);
    }
  }

  // ---------------------------------------------------------------------
  // Session invariants
  // ---------------------------------------------------------------------

  /** The game is running exactly when no line is complete and a cell is free. */
  predicate Settled(s: Session) {
    s.active <==> CheckWin(s.board).None? && !Full(s.board)
  }

  /** X always moves first and the players alternate, so X has as many marks
      as O when X is to move in a running game (or O made the last move of a
      finished one), and one more otherwise. */
  predicate Alternating(s: Session) {
    Count(s.board, X) - Count(s.board, O) == if s.active <==> s.current == X then 0 else 1
  }

  /** The number of marks on the board. */
  function Marks(board: Board): (n: nat)
    ensures n <= 9
  {
    CountSplit(board);
    Count(board, X) + Count(board, O)
  }

  /** `restartGame` yields a settled, alternating session with no marks. */
  lemma RestartSettles(s: Session)
    ensures Settled(Restart(s)) && Alternating(Restart(s))
    ensures Marks(Restart(s).board) == 0
  {
    EmptyBoardIsOpen();
  }

  /** An accepted move adds exactly one mark. */
  lemma MoveAddsOneMark(s: Session, idx: Index, p: Player)
    requires s.active && s.board[idx] == Empty
    ensures Marks(Move(s, idx, p).board) == Marks(s.board) + 1
  {
    CountUpdate(s.board, idx, p, X);
    CountUpdate(s.board, idx, p, O);
  }

  /** A move by the player whose turn it is keeps both invariants. */
  lemma MoveKeepsInvariants(s: Session, idx: Index)
    requires Settled(s) && Alternating(s)
    ensures Settled(Move(s, idx, s.current)) && Alternating(Move(s, idx, s.current))
  {
    if s.active && s.board[idx] == Empty {
      CountUpdate(s.board, idx, s.current, X);
      CountUpdate(s.board, idx, s.current, O);
    }
  }

  /** A click, with the computer's reply in "ai" mode, keeps both invariants. */
  lemma ClickKeepsInvariants(s: Session, idx: Index, roll: nat)
    requires Settled(s) && Alternating(s)
    ensures Settled(Click(s, idx, roll)) && Alternating(Click(s, idx, roll))
  {
    if s.active && s.board[idx] == Empty {
      var t := Move(s, idx, s.current);
      MoveKeepsInvariants(s, idx);
      if t.mode == Ai && t.active && t.current == O {
        match AiChoice(t.board, roll)
        case None =>
        case Some(c) => MoveKeepsInvariants(t, c);
      }
    }
  }

  /** Each page event keeps both invariants. */
  lemma DispatchKeepsInvariants(s: Session, e: Event)
    requires Settled(s) && Alternating(s)
    ensures Settled(Dispatch(s, e)) && Alternating(Dispatch(s, e))
  {
    match e
    case CellClick(idx, roll) => ClickKeepsInvariants(s, idx, roll);
    case RestartClick => RestartSettles(s);
    case ModeChange(m) => RestartSettles(s.(mode := m));
  }

  /** Every run of page events from a settled, alternating state stays so. */
  lemma {:induction false} RunKeepsInvariants(s: Session, events: seq<Event>)
    requires Settled(s) && Alternating(s)
    ensures Settled(Run(s, events)) && Alternating(Run(s, events))
    decreases |events|
  {
    if events != [] {
      DispatchKeepsInvariants(s, events[0]);
      RunKeepsInvariants(Dispatch(s, events[0]), events[1..]);
    }
  }

  /** Turn alternation: in a running game X is to move exactly when an even
      number of marks is on the board. */
  lemma TurnParity(s: Session)
    requires Settled(s) && Alternating(s) && s.active
    ensures s.current == X <==> Marks(s.board) % 2 == 0
  {
  }

  /** After any page events from load, a running game has X to move exactly
      when the number of marks is even. */
  lemma TurnParityAfterRun(events: seq<Event>)
    requires Run(Initial(), events).active
    ensures Run(Initial(), events).current == X <==> Marks(Run(Initial(), events).board) % 2 == 0
  {
    var s0 := Initial();
    RestartSettles(s0);
    assert Restart(s0) == s0;
    RunKeepsInvariants(s0, events);
    TurnParity(Run(s0, events));
  }

  /** In "ai" mode an accepted click by X that leaves the game running is
      answered by exactly one move of O: two marks are added and X is to
      move again. */
  lemma AiAnswersOnce(s: Session, idx: Index, roll: nat)
    requires s.mode == Ai && s.active && s.current == X && s.board[idx] == Empty
    requires Click(s, idx, roll).active
    ensures Click(s, idx, roll).current == X
    ensures Marks(Click(s, idx, roll).board) == Marks(s.board) + 2
  {
    var t := Move(s, idx, X);
    MoveOutcome(s, idx, X);
    MoveAddsOneMark(s, idx, X);
    assert t.active && t.current == O;
    var c := AiChoice(t.board, roll).value;
    MoveOutcome(t, c, O);
    MoveAddsOneMark(t, c, O);
  }
}
