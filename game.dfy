/** The page's game state as script.js keeps it: a nine-cell `board` array
    written in place, and the variables `currentPlayer`, `gameActive` and
    `mode`. Each method does what its namesake in script.js does to them and
    is proved to produce the state that the Engine function of the same step
    computes from the old state. */
module Game {
  import opened Rules
  import opened Engine

  class Game {
    var board: array<Mark>
    var currentPlayer: Player
    var gameActive: bool
    var mode: Mode

    ghost predicate Valid()
      reads this
    {
      board.Length == 9
    }

    /** The state as a value. */
    function State(): Session
      reads this, board
      requires Valid()
    {
      Session(board[..], currentPlayer, gameActive, mode)
    }

    /** The module-level initialisation: empty board, "X" to move, "pvp". */
    constructor ()
      ensures Valid() && fresh(board)
      ensures State() == Initial()
    {
      board := new Mark[9](_ => Empty);
      currentPlayer := X;
      gameActive := true;
      mode := Pvp;
      new;
      assert board[..] == EmptyBoard;
    }

    /** `makeMove(idx, player)`: the only place where a cell is written. */
    method MakeMove(idx: Index, player: Player)
      requires Valid()
      modifies this, board
      ensures Valid() && board == old(board)
      ensures State() == Move(old(State()), idx, player)
      ensures !old(gameActive) || old(board[idx]) != Empty ==> unchanged(this) && unchanged(board)
      ensures old(gameActive) && old(board[idx]) == Empty ==>
        board[idx] == player && forall i | 0 <= i < 9 && i != idx :: board[i] == old(board[i])
    {
      if !gameActive || board[idx] != Empty {
        return;
      }
      board[idx] := player;
      assert board[..] == old(board[..])[idx := player];
      var winInfo := CheckWin(board[..]);
      if winInfo.Some? {
        gameActive := false;
      } else if Full(board[..]) {
        gameActive := false;
      } else {
        currentPlayer := Other(currentPlayer);
      }
    }

    /** `restartGame`: a fresh empty board, "X" to move, the game active;
        `mode` is left as it is. */
    method RestartGame()
      requires Valid()
      modifies this
      ensures Valid() && fresh(board)
      ensures State() == Restart(old(State()))
      ensures mode == old(mode)
    {
      board := new Mark[9](_ => Empty);
      currentPlayer := X;
      gameActive := true;
      assert board[..] == EmptyBoard;
    }

    /** `aiMove`: on a board with an empty cell, play "O" on O's winning
        cell, else on X's blocking cell, else on the empty cell the roll
        picks; a cell index 0 from `findBestMove` counts as no answer. */
    method AiMove(roll: nat)
      requires Valid()
      modifies this, board
      ensures Valid() && board == old(board)
      ensures State() == Engine.AiMove(old(State()), roll)
    {
      var empty := EmptyCells(board[..]);
      if |empty| == 0 {
        return;
      }
      var move: Index;
      var win := FindBestMove(board[..], O);
      if Truthy(win) {
        move := win.value;
      } else {
        var block := FindBestMove(board[..], X);
        if Truthy(block) {
          move := block.value;
        } else {
          move := empty[roll % |empty|];
        }
      }
      MakeMove(move, O);
    }

    /** `handleCellClick` on cell `idx`: ignored in a finished game or on an
        occupied cell; otherwise the current player moves there and, in "ai"
        mode with the game running and O to move, the computer answers once. */
    method HandleCellClick(idx: Index, roll: nat)
      requires Valid()
      modifies this, board
      ensures Valid() && board == old(board)
      ensures State() == Click(old(State()), idx, roll)
    {
      if !gameActive || board[idx] != Empty {
        return;
      }
      MakeMove(idx, currentPlayer);
      if mode == Ai && gameActive && currentPlayer == O {
        AiMove(roll);
      }
    }

    /** `handleModeChange`: take the selected mode and restart. */
    method HandleModeChange(m: Mode)
      requires Valid()
      modifies this
      ensures Valid() && fresh(board)
      ensures State() == ChangeMode(old(State()), m)
    {
      mode := m;
      RestartGame();
    }
  }
}
