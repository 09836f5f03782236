# Tic-tac-toe engine of script.js, modelled in Dafny

script.js is a browser tic-tac-toe game for two players ("pvp") or for
one player against the computer ("ai"). Its state is four module-level
variables:

- `board`: nine cells, each `""`, `"X"` or `"O"`.
- `currentPlayer`: the player to move.
- `gameActive`: whether the game is running.
- `mode`: "pvp" or "ai".

Handlers change that state:

- `handleCellClick`
- `makeMove`
- `aiMove`
- `restartGame`
- `handleModeChange`

Two read-only scans look at the board:

- `checkWin` finds the first complete line in a fixed order of eight lines.
- `findBestMove(player)` finds the empty cell of the first line that holds
  two of the player's marks and one empty cell.

The model has four modules:

- `Rules` (rules.dfy) holds the board, the eight lines and both scans as
  recursive functions. `checkWin` and `findBestMove` are proved to return the
  FIRST matching line, or nothing exactly when no line matches. It also holds
  the list of empty cells and the mark counts.
- `Engine` (engine.dfy) is the session state machine on values:
  - One function per handler.
  - A `Run` over a sequence of page events (cell clicks, the restart button,
    the mode radios).
  - Two invariants that every event keeps: `Settled` (the game runs exactly
    while no line is complete and a cell is free) and `Alternating` (X's and
    O's mark counts differ by 0 or 1, according to whose turn it is).
- `Game` (game.dfy) is a class with the four variables as fields. The board is
  an `array<Mark>` written in place. Each method does what its namesake does
  and is proved to produce the state that the `Engine` function computes from
  the old state.
- `Scenarios` (scenarios.dfy) holds concrete games: a top-row win, a win on
  the last free cell, a draw, a blocked threat, and the quirk below.

`aiMove` picks its cell with `findBestMove("O") || findBestMove("X") ||
empty[random]`. JavaScript's `||` treats the index 0 as false. So a winning
or blocking move on the top-left cell is passed over, and the next option
is taken instead. The model keeps this behaviour through `Engine.Truthy`. The
lemmas that promise a win or a block state it as a hypothesis ("a winning
cell other than 0"). `Scenarios.WinAtZeroGameGoesOn` shows a board where O
could win on cell 0, but the computer blocks X on cell 5 and the game goes
on.

## Model

| member | source | states |
|---|---|---|
| Rules.Other | script.js:45 | The turn flip always gives the other player. |
| Rules.Complete | script.js:63 | All three cells of the line hold the same non-empty mark: the test `board[a] && board[a] === board[b] && board[a] === board[c]`. |
| Rules.WinFrom | script.js:61-67 | The scan from line k finds nothing iff no line from k on is complete. Otherwise it returns the mark and line of the first complete line from k on. |
| Rules.CheckWin | script.js:50-68 | `checkWin` returns null iff none of the eight lines is complete. Otherwise it returns `{player: board[a], line}` of the first complete line in the order rows, columns, diagonals. |
| Rules.CheckWinReportsFirst | script.js:61-66 | Whenever line j is the first complete line, `checkWin` reports exactly line j and its mark. |
| Rules.CheckWinSound | script.js:63-64 | A reported win names one of the eight lines, that line is complete, and the reported player is the mark on it. |
| Rules.CellsOf | script.js:113 | `vals`: the three cells of the line, in the order a, b, c. |
| Rules.Count | script.js:114 | The number of cells holding m, as `vals.filter((v) => v === player).length` counts them. It is at most the length, and zero iff m is absent. |
| Rules.ThreatIsFilterTest | script.js:113-114 | The test "two cells equal the player and one cell is empty" holds exactly when the count of the player's marks among the three cells is 2 and one cell is empty. |
| Rules.Gap | script.js:115 | The returned cell is empty and lies on the line. |
| Rules.ThreatFrom | script.js:111-118 | The scan from line k finds nothing iff no line from k on is a threat for the player. Otherwise it returns the empty cell of the first threatened line from k on. |
| Rules.FindBestMove | script.js:99-119 | `findBestMove(p)` returns null iff no line holds two marks of p and one empty cell. Otherwise it returns the empty cell of the first such line, and that cell is empty. |
| Rules.FindBestMoveReportsFirst | script.js:111-116 | Whenever line j is the first threatened line, `findBestMove` returns the empty cell of line j. |
| Rules.ThreatCompletes | script.js:114-115 | Writing p on the empty cell of a threatened line completes that line with p. |
| Rules.FillingGapEndsThreat | script.js:114-115 | Once the empty cell of a threatened line is written, by either player, the line is no longer a threat. |
| Rules.NewLineUsesCell | script.js:61-66 | A line that becomes complete when one cell changes passes through that cell and carries the new mark. |
| Rules.BestMoveWins | script.js:100-116 | Playing p on the cell `findBestMove(p)` returns makes `checkWin` report a win. If the board had no complete line before, the winner is p. |
| Rules.Full | script.js:41 | `board.every((cell) => cell)`: no cell is empty. |
| Rules.EmptyFrom | script.js:87-89 | The indices from k on that hold an empty cell: all of them, only them, in increasing order. |
| Rules.EmptyCells | script.js:87-89 | The `empty` list of `aiMove` holds every empty cell, only empty cells, in increasing order. It is empty iff the board is full. |
| Rules.EmptyBoardIsOpen | script.js:6 | The initial board has no complete line, has a free cell, and has no X or O marks. |
| Rules.CountUpdate | script.js:34 | Writing a mark over one cell moves one count from the old mark to the new one. |
| Rules.CountSplit | script.js:6 | Every cell is empty, X or O, so the three counts sum to nine. |
| Engine.Initial | script.js:6-9 | At page load the board is empty, X is to move, the game is active and the mode is "pvp". |
| Engine.StatusOf | script.js:37-46 | The status shows a turn exactly while the game is active, and that turn is the current player's. A shown win names a complete line and the mark on it. A draw is shown only when no line is complete. |
| Engine.Move | script.js:32-48 | `makeMove` never changes the mode. Its other effects are stated by MoveRejected, MovePlaces and MoveOutcome. |
| Engine.Restart | script.js:77-83 | `restartGame` keeps the mode. The rest of the new state is stated by RestartSettles. |
| Engine.ChangeMode | script.js:121-124 | After `handleModeChange` the mode is the selected one, and the restart has left an empty board, X to move and an active game. |
| Engine.Truthy | script.js:92-94 | A result of `findBestMove` counts as a choice only when it is a cell other than 0. null and 0 fall through to the next option of `||`. |
| Engine.AiChoice | script.js:85-95 | `aiMove` chooses no cell iff the board is full. A chosen cell is always empty. |
| Engine.AiMove | script.js:85-97 | `aiMove` keeps the mode. On a full board it does nothing (AiMoveFullIsNoop). What it writes otherwise is stated by AiMovePlays, AiTakesWin and AiBlocks. |
| Engine.Click | script.js:23-30 | `handleCellClick` keeps the mode. The rest is stated by ClickRejected, ClickWithoutAi and ClickWithAi, which together cover every click. |
| Engine.MoveRejected | script.js:33 | A move in a finished game or on an occupied cell changes nothing. |
| Engine.MovePlaces | script.js:34 | An accepted move writes the player's mark on that cell and leaves the other eight cells unchanged. |
| Engine.MoveOutcome | script.js:36-47 | After an accepted move, exactly one of three outcomes holds, checked in this order. (1) A complete line ends the game as a win, even on a full board, with the turn unchanged. (2) Otherwise a full board ends it as a draw. (3) Otherwise the game continues with the other player to move. |
| Engine.SecondMoveRejected | script.js:33-34 | Playing the same cell twice: the second move changes nothing. |
| Engine.FinishedGameAbsorbs | script.js:25-33 | In a finished game, `makeMove`, `aiMove` and `handleCellClick` leave the state exactly as it is. |
| Engine.AiChoicePriority | script.js:92-95 | If O's winning cell is not 0, it is chosen. Otherwise, if X's blocking cell is not 0, that is chosen. Otherwise one of the empty cells is chosen. |
| Engine.AiFallbackReachesEveryEmptyCell | script.js:95 | With no win or block to play, some random value picks each empty cell. |
| Engine.AiMoveFullIsNoop | script.js:90 | On a full board `aiMove` leaves the state exactly as it is. |
| Engine.AiMovePlays | script.js:96 | In a running game `aiMove` writes "O" on the chosen cell and changes no other cell. |
| Engine.AiTakesWin | script.js:92-96 | In a running game where O has a winning cell other than 0, `aiMove` plays there and O wins. |
| Engine.AiBlocksCell | script.js:92-96 | Suppose O has no winning cell other than 0 and X has a threat with a cell other than 0. Then `aiMove` writes "O" on the empty cell of X's first threatened line. |
| Engine.AiBlocks | script.js:91-96 | After that move, the threatened line is no longer a threat for X. |
| Engine.ClickRejected | script.js:25 | A click in a finished game or on an occupied cell is ignored. |
| Engine.ClickWithoutAi | script.js:26-29 | In "pvp" mode, or when the human move ends the game or leaves X to move, a click is exactly `makeMove(idx, currentPlayer)`. |
| Engine.ClickWithAi | script.js:26-28 | In "ai" mode, when the human move leaves the game running with O to move, the click is that move followed by exactly one `aiMove`, whether or not the reply ends the game. |
| Engine.FinishedGameFrozen | script.js:25 | With no restart and no mode change, no sequence of clicks changes a finished game. |
| Engine.RestartSettles | script.js:77-80 | After a restart the state is settled and alternating, and the board has no marks. |
| Engine.MoveAddsOneMark | script.js:34 | An accepted move adds exactly one mark. |
| Engine.MoveKeepsInvariants | script.js:32-48 | A move by the current player keeps both invariants. (1) The game is active iff no line is complete and a cell is free. (2) X's count minus O's count is 0 or 1, according to whose turn it is. |
| Engine.ClickKeepsInvariants | script.js:23-30 | A click, including the computer's reply in "ai" mode, keeps both invariants. |
| Engine.DispatchKeepsInvariants | script.js:126-129 | Every page event (cell click, restart button, mode radio) keeps both invariants. |
| Engine.RunKeepsInvariants | script.js:126-129 | Any sequence of page events from a settled, alternating state keeps both invariants. |
| Engine.TurnParity | script.js:45 | In a running game that satisfies both invariants, X is to move iff the number of marks is even. |
| Engine.TurnParityAfterRun | script.js:6-9 | After any sequence of page events from page load, a running game has X to move iff the number of marks is even. |
| Engine.AiAnswersOnce | script.js:27-28 | In "ai" mode, suppose an accepted click by X leaves the game running. Then the computer has answered with exactly one move: two marks were added and X is to move. |
| Game.Game.constructor | script.js:6-9 | The page-load state: a fresh nine-cell array of empty cells, X to move, active, "pvp". |
| Game.Game.MakeMove | script.js:32-48 | The board array is written in place, and the new state is `Engine.Move` of the old one. A rejected move changes nothing. An accepted one writes only the chosen cell. |
| Game.Game.RestartGame | script.js:77-83 | The board is replaced by a fresh empty array. The new state is `Engine.Restart` of the old one, and the mode is kept. |
| Game.Game.AiMove | script.js:85-97 | The new state is `Engine.AiMove` of the old one, and the board array is the same object. |
| Game.Game.HandleCellClick | script.js:23-30 | The new state is `Engine.Click` of the old one. |
| Game.Game.HandleModeChange | script.js:121-124 | The new state is `Engine.ChangeMode` of the old one. |
| Scenarios.TopRowWin | script.js:23-48 | X plays 0, 1, 2 and O plays 4, 3 in "pvp" mode. X wins the top row, the game is over, and a further click changes nothing. |
| Scenarios.WinOnFullBoard | script.js:36-43 | X's last move fills the board and completes the left column. The game is won, not drawn. |
| Scenarios.DrawIsFinal | script.js:41-43 | X's last move fills the board without completing a line: the game ends in a draw, and `aiMove` then chooses nothing. |
| Scenarios.TopRowBoardNoThreatForO | script.js:111-118 | On the block board, `findBestMove("O")` is null. |
| Scenarios.TopRowBoardThreatForX | script.js:111-116 | On the block board, `findBestMove("X")` is 2. |
| Scenarios.AiBlocksTopRow | script.js:92-94 | With O unable to win and X threatening the top row, `aiMove` chooses cell 2 for every random value. |
| Scenarios.ZeroWinsForO | script.js:61-64 | On the quirk board, O on cell 0 completes the top row. |
| Scenarios.ZeroIsWinningCell | script.js:111-115 | On the quirk board, `findBestMove("O")` is 0. |
| Scenarios.FiveBlocksX | script.js:111-115 | On the quirk board, `findBestMove("X")` is 5. |
| Scenarios.WinAtZeroSkipped | script.js:92-95 | Because 0 is false for `||`, `aiMove` chooses 5 rather than O's winning cell 0. |
| Scenarios.WinAtZeroGameGoesOn | script.js:92-96 | On the quirk board in "ai" mode, the computer plays 5, X is to move, and the game goes on. |

## Left out

- Rendering is left out: `renderBoard`, `highlightWinner`, the cell
  elements and the status text. The status text is stated as a value by
  `Engine.StatusOf`. The highlighted line is the `line` of `Rules.CheckWin`.
- The 400 ms `setTimeout` before `aiMove` is left out: the model answers at
  once, within the click. A click or a restart during the delay, which can
  make the delayed `aiMove` play on a changed board, is therefore not modelled.
- `Math.random` becomes a parameter: `roll`, a natural number, and
  `empty[roll % empty.length]` is the pick. `Engine.AiFallbackReachesEveryEmptyCell`
  shows that every empty cell can be picked.
- Cell indices are numbers 0 to 8. The string that `dataset.index` yields in
  the browser is not modelled, since it addresses the same cell.
- `handleModeChange` takes the selected mode as a parameter. A radio value
  other than "pvp" or "ai", or no checked radio, is not modelled, since the
  page offers exactly those two.
- Engine.Move, Engine.Restart, Engine.AiMove, Engine.Click: their own
  contracts state only that the mode is kept. What each computes is stated
  by the lemmas and Game methods listed beside them.
