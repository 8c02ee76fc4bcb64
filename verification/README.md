# Tic-tac-toe game engine in Dafny

This project models the game-state engine of the browser tic-tac-toe page
`Application/tic-tac-toe/script.js`. The page has a 3x3 board, a player to
move (`X` opens), and a flag saying whether the game still accepts moves.
Beside them sit three score counters: wins of `X`, wins of `O`, and draws.
These counters persist between visits.

A click on a square (`handleMove`) is ignored once the game is over or when
the square is taken. Otherwise the current player's mark is written. The
engine then checks the eight winning lines in a fixed order
(`getWinningLine`). A completed line ends the game as a win for the mover.
Failing that, a full board ends it as a draw. Failing both, the turn passes.
Each ending credits exactly one counter and writes the tally to storage.
`reset` starts a new game and keeps the tally. `loadScores` reloads the
tally on page load and falls back to zeros.

Everything is immutable values and pure functions:

- `wrappers.dfy` (`Wrappers`): `Option`.
- `board.dfy` (`Board`): marks, squares, the `Wins` table, `WinningLine` and
  its first-match characterisation, and the mark counts.
- `scores.dfy` (`Scores`): the `Tally`, `Record` (credit one game), the stored
  entry, `Load` with its zero fallback, and `Save`.
- `game.dfy` (`Game`): `Game` (board, current, active), `Session` (game plus
  tally), `Move`, `Reset`, `Startup`, `Play` (a run of clicks), and the
  `Consistent` invariant of reachable games.
- `scenarios.dfy` (`Scenarios`): two complete games played click by click. In
  one, `X` wins down the left column. In the other, the board fills with no
  line. Each is followed by an ignored click and a reset.

Two design notes. The state has no phase field: a game is only `active` or
not. The winning line is not stored; it is reported once, in the `Won`
event of the finishing move. And there is no separate score store: the move
itself credits the tally and writes it to storage.

## Model

| member | source | states |
|---|---|---|
| Board.Other | Application/tic-tac-toe/script.js:155 | the turn always passes to the other player |
| Board.EmptyBoard | Application/tic-tac-toe/script.js:10 | a fresh board has nine squares, all empty |
| Board.WinsDistinct | Application/tic-tac-toe/script.js:19-23 | the eight lines of the table are pairwise different |
| Board.FirstComplete | Application/tic-tac-toe/script.js:161-164 | scanning from line `k` on yields the index of a completed line with no completed line between `k` and it, or none when no line from `k` on is completed |
| Board.WinningLine | Application/tic-tac-toe/script.js:160-165 | the result is one of the eight listed lines and is completed; it is the first completed one in table order; it is none exactly when no line is completed |
| Board.WinningLineIsFirst | Application/tic-tac-toe/script.js:160-165 | the query reports `Wins[k]` if and only if `Wins[k]` is completed and no earlier line is, so the reported line is fixed by the board alone |
| Board.NewLineThroughMove | Application/tic-tac-toe/script.js:125-133 | a line that a move newly completes runs through the square just marked and carries the mover's mark |
| Board.CountUpdate | Application/tic-tac-toe/script.js:125 | writing one square moves exactly one unit of count from its old content to its new one |
| Board.FullIffNoEmpty | Application/tic-tac-toe/script.js:146 | every square is marked if and only if the number of empty squares is zero |
| Scores.Record | Application/tic-tac-toe/script.js:137-148 | a finished game raises the counter of its outcome by exactly one and leaves the other two unchanged; the total rises by one; non-negative tallies stay non-negative |
| Scores.RecordInjective | Application/tic-tac-toe/script.js:137-148 | two different outcomes never leave the same tally |
| Scores.FieldOrZero | Application/tic-tac-toe/script.js:60 | a missing stored field reads as 0; a present one is kept as stored |
| Scores.Load | Application/tic-tac-toe/script.js:57-61 | a missing entry or one that fails to parse yields all-zero counters and no error; a parsed entry yields each field, with a missing one read as 0 |
| Scores.Save | Application/tic-tac-toe/script.js:65-67 | the written entry holds all three counters |
| Scores.LoadSave | Application/tic-tac-toe/script.js:57-67 | reloading a saved tally gives back the same tally |
| Scores.LoadNonNegative | Application/tic-tac-toe/script.js:57-61 | an entry without negative numbers loads as a non-negative tally |
| Game.NewGame | Application/tic-tac-toe/script.js:10-12 | a new game has nine empty squares, `X` to move, and accepts moves |
| Game.Startup | Application/tic-tac-toe/script.js:198-200 | the page starts with a new game. The counters are zero when storage holds nothing readable. Otherwise each counter is the stored field, with a missing field read as 0 |
| Game.StartupConsistent | Application/tic-tac-toe/script.js:10-12 | the game the page opens with satisfies the engine invariant, whatever storage held |
| Game.Reset | Application/tic-tac-toe/script.js:167-170 | reset gives an all-empty board, `X` to move and an accepting game; the tally is unchanged |
| Game.Move | Application/tic-tac-toe/script.js:123-158 | a move is ignored, leaving everything unchanged, exactly when the game is over or the square is taken. An accepted move marks that square alone. It is a win exactly when a line is then completed, whether or not the board is also full; a win keeps the mover, ends the game and credits the mover. A draw needs no completed line and a full board; it keeps the mover, ends the game and credits a draw. Otherwise the turn passes to the other player, the game stays open and the tally is unchanged |
| Game.Persisted | Application/tic-tac-toe/script.js:136-150 | storage is written exactly when a move ends the game, and reloading what was written gives back the in-memory tally |
| Game.Play | Application/tic-tac-toe/script.js:123-153 | over any run of clicks a finished game stays finished and unchanged, and a game never becomes active again without a reset |
| Game.ResetConsistent | Application/tic-tac-toe/script.js:167-170 | the game after a reset, like the first game, satisfies the engine invariant |
| Game.MovePreservesConsistency | Application/tic-tac-toe/script.js:123-158 | every move keeps the invariant. While a game is open, no line is complete, a square is free, and X marks minus O marks is 0 with `X` to move and 1 with `O` to move. Once it is over, a line is complete or the board is full, the last mover is `current`, and a completed line is that player's |
| Game.PlayPreservesConsistency | Application/tic-tac-toe/script.js:123-158 | any run of clicks from a consistent game ends in a consistent game |
| Game.PlayCreditsOnce | Application/tic-tac-toe/script.js:132-152 | over any run of clicks within one game, the tally changes only if that game ends; then exactly one counter rises by exactly one, for the winner or for a draw |
| Game.PlayFromEmptyTally | Application/tic-tac-toe/script.js:132-152 | from an open game whose tally counts no games, such as the first game after a start with nothing readable in storage, any run of clicks leaves a tally that counts one game if the game has ended and none otherwise, with no negative counter |
| Game.PlayKeepsMarks | Application/tic-tac-toe/script.js:124-125 | a mark, once written, is never overwritten for the rest of the game |
| Game.MoveFillsOneSquare | Application/tic-tac-toe/script.js:125 | an accepted move fills exactly one more square |
| Scenarios.ColumnWinForX | Application/tic-tac-toe/script.js:123-165 | after clicks 0, 1, 3, 4, 6 the board is `X O _ X O _ X _ _`, the line 0-3-6 is reported as `X`'s win, the game is over and `X` is credited |
| Scenarios.FullBoardDraw | Application/tic-tac-toe/script.js:146-152 | with `X` on 0, 1, 5, 6, 8 and `O` on 2, 3, 4, 7, the last click ends in a draw that is credited as a draw |
| Scenarios.ResetAfterWin | Application/tic-tac-toe/script.js:167-170 | after `X`'s column win a further click is ignored, and a reset yields a new game while the credited win stays on the tally |
| Scenarios.ResetAfterDraw | Application/tic-tac-toe/script.js:167-170 | after the drawn game a further click is ignored, and a reset yields a new game while the credited draw stays on the tally |

## Left out

- Rendering: `setStatus`, `updateScoreboard`, `applyTheme`, and the cell
  class and text changes. The status a move would show is kept as the
  `Event` it returns: ignored, won (with the line to highlight), drawn, or
  the next player.
- `launchConfetti` (random floating-point particle animation), the
  cursor-following glow, and theme toggling and saving. All of these are
  presentation and storage I/O with no game logic.
- The storage calls and `JSON.parse`/`JSON.stringify`. Storage is modelled
  as the parsed entry `Stored`. `Absent` is a missing entry or an empty
  string; the code reads both as `{}`. `Corrupt` is text that does not
  parse, or that parses to `null`; reading a field of it throws. In both
  cases the result is zeros. JSON that parses to some other non-object
  (a number, say) has no fields and also loads as zeros. `Parsed` covers
  objects whose three fields are absent or numbers. A field holding a falsy
  non-number (`null`, `false`, `""`) reads as 0 through `|| 0` and is
  encoded as a missing field (`None`). Writing is `Save`,
  whose result is a value; the write itself is not modelled.
- Scores.Load: stored field values are integers or missing. The model omits
  values that `JSON.parse` can produce but that are not exact integers:
  - Fractions.
  - `Infinity`, from an oversized literal such as `1e400`.
  - Integer literals above 2^53, which parse to a neighbouring double. A
    stored `9007199254740993` loads as 9007199254740992, while `Load` keeps
    the stored value.
  - Truthy non-numbers. Strings, arrays and objects are kept and then
    concatenated on `+= 1` (`"5"` becomes `"51"`); `true` is kept and
    becomes 2.
- Game.Move: assumes the storage write never throws. `saveScores` has no
  `try`, so a failing write (storage full or disabled) escapes
  `handleMove` after the counter has risen and before `active = false`.
  The two branches then differ:
  - Win (lines 137-142): the game stays open with its line complete. The
    next click on a free square writes the same player's mark, credits that
    player again, and does not pass the turn.
  - Draw (lines 148-151): the game stays open, but the board is full and no
    line is complete. Every later click returns at line 124, so nothing is
    credited twice. Only `active` differs from the model.

  The model does not cover either path: every finished game ends inactive
  with one credit.
- Game.Persisted: likewise assumes the write succeeds. When it throws, the
  source keeps the raised in-memory tally, and the game stays open as
  described above.
- Scores.Record: counters are exact mathematical integers. JavaScript
  numbers are doubles. From a count of 2^53 or more, `+= 1` rounds to a
  neighbouring double (ties go to even), so it leaves the counter unchanged
  or raises it by two. Between 2^53 and 2^54, 9007199254740992 + 1 stays
  9007199254740992, while 9007199254740994 + 1 gives 9007199254740996. The
  counters are exact only for finite values below 2^53.
- Scores.Load: stored numbers are finite integers. A stored value such as
  `1e400` parses to `Infinity`. `JSON.stringify` writes that as `null`, which
  reloads as 0, so `LoadSave` holds only for finite counters below 2^53.
- Game.Move: requires a square index in 0..8. The only caller is the click
  handler of the nine cells, so an index off the board never reaches it.
- `k8s-test-app/app.py` is not part of this model. It is an HTTP endpoint
  that reports host, platform and environment data and holds no game logic.
