# Tic-tac-toe bot engine, modelled in Dafny

The bot (`main.py`) plays tic-tac-toe in a chat channel. `TTTGame` holds the
two players, whose turn it is and a `TTTGrid`. It reads moves from reactions:
each of nine control emojis (eight arrows and a centre button) stands for one
square. `TTTGrid` is a 3x3 list of ints (0 empty, 1 player 1, 2 player 2). It
can tell whether the game has ended (`check_for_end`, built on `is_winner` and
`win_indexes`) and render the board as emoji text (`pretty_grid`).

The model has two modules:

- `TttGrid` (`grid.dfy`) holds the board.
  - The board as a value: `Grid`, three rows of three ints.
  - The eight winning lines, `is_winner` and `check_for_end` as functions on
    that value, each proved against an independent statement of the rules
    (`HasLine`, `Full`).
  - The emoji rendering as a per-cell reference definition (`Render`).
  - Class `TTTGrid`, which keeps the board in a 3x3 `array2`. Its
    `PrettyGrid` method runs the source's sequence of `str.replace` passes
    and is proved equal to `Render`.
- `TttGame` (`game.dfy`) holds the turn logic.
  - The reaction table and `check`.
  - The game as a value (`GameState`), and what one accepted move does
    (`Play`).
  - The `start` loop as a function over a finite sequence of reaction events
    (`Run`).
  - Class `TTTGame`, with methods `Check`, `WaitFor`, `DoTurn` and `Start`.
    Each is proved to agree with those functions, so the properties proved
    about the functions hold for the object as well.

The chat platform is replaced by a sequence of events, each an emoji and the
user who added it. `bot.wait_for(..., check=self.check)` becomes a scan for
the first event that `check` accepts. Running out of events plays the part of
the 24-hour timeout.

## Model

| member | source | states |
|---|---|---|
| TttGrid.TTTGrid.constructor | main.py:90-91 | a new board is the 3x3 grid of zeros |
| TttGrid.WinIndexes | main.py:151-169 | eight lines, each of three coordinates inside the board |
| TttGrid.AnyLineHeld | main.py:145-149 | the loop over the lines is true exactly when some line has all three cells equal to the player |
| TttGrid.IsWinner | main.py:134-149 | `is_winner(p)`: the loop over `win_indexes`, true at the first line that `p` fills; `AnyLineHeld` and `IsWinnerIff` state what it means |
| TttGrid.IsWinnerIff | main.py:134-149 | `is_winner(p)` holds iff `p` fills a row, a column or one of the two diagonals, as stated independently of `win_indexes` |
| TttGrid.Flatten | main.py:129 | the values of all rows, row after row; `FlattenGrid` states it for a board |
| TttGrid.FlattenGrid | main.py:129 | the list comprehension lists the cells row by row |
| TttGrid.ZeroAbsentIffFull | main.py:129 | `0 not in [...]` holds iff every cell is taken |
| TttGrid.CheckForEnd | main.py:113-132 | `check_for_end`: a result, when there is one, is 1, 2 or 3; `CheckForEndSpec` states which one and when |
| TttGrid.CheckForEndSpec | main.py:113-132 | 1 iff player 1 has a line, even on a full board; 2 iff player 2 has a line and player 1 has none; 3 iff the board is full and nobody has a line; None iff some cell is empty and nobody has a line |
| TttGrid.FullEndsGame | main.py:129-130 | a full board always ends the game |
| TttGrid.EmptiesAfterMark | main.py:50 | writing a mark into an empty cell leaves exactly one empty cell fewer |
| TttGrid.EmptiesSpec | main.py:91 | the empty-cell count is zero iff the board is full, never exceeds nine, and is nine on a new board |
| TttGrid.Render | main.py:99-111 | the board drawn cell by cell: three emojis per row, rows separated by newlines; the reference that `PrettyGrid` is proved equal to |
| TttGrid.DigitText | main.py:107 | the digit text has eleven characters, newlines at positions 3 and 7, and the digit of cell (r, c) at position 4r + c |
| TttGrid.Replace | main.py:109 | `str.replace` for a one-character pattern: a one-character replacement keeps the length, and a text without the pattern comes back unchanged |
| TttGrid.SubstitutedGrid | main.py:107-111 | replacing the digits 0, 1, 2 in turn in the digit text yields the board drawn cell by cell, rows separated by newlines |
| TttGrid.SubstitutedDigit | main.py:108-109 | after the three passes in order, the digit of a cell value has become exactly that value's emoji |
| TttGrid.TTTGrid.Place | main.py:50 | writes one cell of the array; every other cell keeps its value |
| TttGrid.TTTGrid.PrettyGrid | main.py:99-111 | the replacement loop returns the per-cell rendering of the current board |
| TttGame.SquareOf | main.py:81 | the square an emoji stands for, when there is one, is on the board |
| TttGame.SquareOfTable | main.py:17-27 | the lookup used by the model agrees with `reaction_emojis`: same keys, same squares |
| TttGame.ControlsDistinct | main.py:17-27 | the nine emojis are distinct |
| TttGame.ControlsAreKeys | main.py:17-27 | the table's keys are exactly the nine control emojis |
| TttGame.ControlSquares | main.py:17-27 | the control emojis map onto the nine squares in row-major order |
| TttGame.SquareOfInjective | main.py:17-27 | two emojis that lead to the same square are the same emoji |
| TttGame.Accepts | main.py:76-86 | `check`: the emoji names a square, the user is the current player and that square is empty |
| TttGame.AcceptsIff | main.py:76-86 | `check` accepts iff the emoji is a key of the table, the user is the current player and the square is empty |
| TttGame.Initial | main.py:11-15 | a new game: the two given players, player 1 to move, every square empty |
| TttGame.Play | main.py:47-53 | an accepted move turns the chosen square from 0 into the mover's mark (1 for player 1, else 2), changes no other square, and passes the turn |
| TttGame.Step | main.py:46-53 | one event: an accepted event is played, any other changes nothing |
| TttGame.Run | main.py:42-43 | the loop of `start`: events in order until `check_for_end` reports an end; later events are ignored |
| TttGame.StepProgress | main.py:46-53 | a rejected event changes nothing; a played one fills one empty square, keeps every mark and passes the turn |
| TttGame.RunProgress | main.py:42-53 | over any run, every played move fills one empty square and passes the turn, and marks are never overwritten |
| TttGame.ConsumedEmojiRejected | main.py:81-86 | once a square is played, its emoji is rejected for the rest of the game |
| TttGame.Alternation | main.py:50-53 | over any run between two distinct players, each played move takes one empty square, and the first mover is to move again exactly after an even number of moves |
| TttGame.TurnsAlternate | main.py:13 | from a new game, after n moves n squares are taken, player 1 is to move iff n is even, and at most nine moves are played |
| TttGame.RunStops | main.py:42 | the loop does nothing once the game has ended, and a board with no empty square has ended |
| TttGame.FirstAccepted | main.py:46 | `wait_for` returns the first event that `check` accepts; every event before it was rejected |
| TttGame.RunSkips | main.py:46 | rejected events are skipped without effect |
| TttGame.RunPlays | main.py:42-53 | an accepted event is played and the loop goes on from the next event |
| TttGame.TakeTurn | main.py:45-53 | `do_turn`: the next position is within the events, and is either their end (the wait timed out) or just after an event `check` accepts |
| TttGame.RunTimesOut | main.py:46 | without an accepted event, the rest of the run leaves the game as it is |
| TttGame.RunPlaysFirst | main.py:46-53 | the events before the first accepted one are skipped, that one is played, and the run goes on after it |
| TttGame.RunTurn | main.py:42-53 | one turn of the loop leads to the same final game as the whole remaining run |
| TttGame.RunStopped | main.py:42 | with no events left, or once the game has ended, the run changes nothing |
| TttGame.CaptionOf | main.py:65-68 | the caption of `make_embed`: a turn caption names the current player, a win caption one of the two players |
| TttGame.CaptionSpec | main.py:65-68 | the caption names player 1 as winner whenever they have a line, otherwise player 2 if they have one, a draw only on a full board without a line, and otherwise whose turn it is |
| TttGame.TTTGame.constructor | main.py:9-15 | a new game: player 1 to move on an empty board |
| TttGame.TTTGame.Check | main.py:76-86 | returns exactly whether the event is acceptable in the current state |
| TttGame.TTTGame.WaitFor | main.py:46 | returns the position of the first accepted event, or the end of the events |
| TttGame.TTTGame.DoTurn | main.py:45-53 | the object's new state is one accepted move applied to its old state, or unchanged on a timeout |
| TttGame.TTTGame.Start | main.py:29-43 | the object ends in the state the event-level loop reaches, and returns `check_for_end` of the final board |

## Left out

- Chat I/O is not modelled: sending and editing the game message, adding the
  control reactions, and `bot.wait_for` itself (main.py:35-39, 46, 54). The
  events are a parameter.
- The 24-hour timeout and the `asyncio.TimeoutError` it raises are not
  modelled as such. Running out of events stands for the timeout: `DoTurn`
  reports it and `Start` stops with `None`, where the source raises instead.
- `make_embed` builds a `discord.Embed` from mention strings, which are not
  modelled. Only its choice of caption is modelled (`CaptionOf`).
- The `ttt` command and `main` (bot set-up and token) are not modelled. The
  command refuses a challenge to a missing member, a bot or the author
  (main.py:183), so the two players of a game always differ. The model takes
  the players as parameters and assumes this instead: the lemmas about whose
  turn it is require it. `StepProgress`, `RunProgress`, `ConsumedEmojiRejected`
  and `Alternation` require `TurnOk`, which includes `player1 != player2`;
  `TurnsAlternate` requires the two players to differ. The other run lemmas
  (`RunTurn`, `RunSkips`, `RunStops`, `RunTimesOut`, `RunPlaysFirst`,
  `RunStopped`, `RunPlays`) hold for any two players.
- Users are modelled as plain integers compared by identity.
- TttGame.AcceptsIff: `check` returns `None` for an unknown emoji, which
  `wait_for` treats as false; the model returns `false`.
- TttGame.SquareOf looks the emoji up by its single code point, in `Squares`.
  `SquareOfTable` proves this lookup agrees with the string-keyed
  `ReactionEmojis`.
- `Replace` models `str.replace` only for one-character patterns. Those are
  the only ones `pretty_grid` uses.
- The insertion order of `reaction_emojis` only decides the order in which
  the control reactions are added, which is I/O. The order of `grid_emojis`
  does matter, and is kept as a sequence.
- `check_for_end` and `is_winner` cannot change the board: they are functions
  on a board value.
- The code keeps no set of consumed emojis and raises no invalid-move error;
  a square's emptiness is the only guard (`ConsumedEmojiRejected`).
