# Tic-tac-toe rules engine, modelled in Dafny

This project models the rules engine of an ink! smart contract for tic-tac-toe. The engine has five parts:

- the two roles (`XPlayer`, `OPlayer`) and the two marks (`X`, `O`), with their one-byte codes;
- a board of nine optional cells, where a mark can be placed only in a cell that exists and is empty;
- the game status (`NotStarted`, `PlayerTurning(p)`, `PlayerWin(p)`, `Draw`), stored as a code from 0 to 5;
- the `TicTacToe` controller. It holds the X player's identity, the optional O player's identity, the board and the stored status code. Its `join_game` operation admits the second player. Its `turn` operation resolves the caller's role, checks whose move it is, places the mark, then declares a win or a draw or passes the turn on.

Modules:

- `Types` (types.dfy): `u8`, `Option`, and the caller identity `AccountId`. The identity is an abstract type that supports only equality.
- `Errors` (errors.dfy): the nine-variant `Error` enum, in the source's order, and `Result<T>`.
- `Board` (board.dfy): `Player`, `Mark`, the mark codes, the cell counts `Filled`/`Owned`, and `Board::turn`. `Board::turn` is modelled twice:
  - `Place` is the specification, on cell sequences;
  - `Turn` is a method that writes one cell of an `array` in place and is proved equal to `Place`.
- `Status` (game_status.rs → game_status.dfy): the status enum and both byte conversions.
- `Game` (lib.rs → game.dfy): this module holds
  - the storage as a value, `State`;
  - `check_state`, as `CheckState`;
  - the specification functions `JoinOutcome` and `TurnOutcome`, which are written branch for branch after the source;
  - the game invariant `Consistent` and lemmas about it;
  - the class `TicTacToe`. Its methods change its fields and are proved equal to the specification functions. They also keep `Valid()`, which is `Consistent` of the stored state.

`Consistent` states what holds in every reachable state:

- the board has nine cells, and each cell is empty or holds code 0 or 1;
- the stored status code is at most 5;
- before the start the board is empty;
- once the game has started, the two players are distinct identities;
- while a player is to move, nobody has a complete line, some cell is free, and X has placed as many marks as O, or one more;
- a win is a complete line of the winner only;
- a draw is a full board with no complete line.

The lemmas `NewGameConsistent`, `JoinPreservesConsistent`, `TurnPreservesConsistent` and `RunPreservesConsistent` prove that every constructor, every call and every sequence of calls keeps this invariant. The central step is `CheckStateComplete`. `check_state` tests only the row and the column through the new mark, plus both diagonals. The lemma shows that this local test still finds every line that the move completed.

Behaviour of the code that the model keeps, although a reader might expect otherwise:

- Mark decoding is not a bijection. Code 0 reads as X and every other byte reads as O (`MarkFromByteNotInjective`).
- Status decoding reads every byte from 5 upward as `Draw`.
- Before the game starts, the error of a turn depends on how the game was created. In a `new` game there is no O player yet, so every caller gets `GameNotStarted`, whatever the identity. In a `with_opponent` game, X and the pre-declared O get `GameNotStarted`, and any other identity gets `UnknownPlayer`, because the role is resolved before the status is checked (`TurnGuards`).
- `with_opponent` does not reject a pre-declared opponent equal to the creator. Such a game can never start: `join_game` refuses that identity as the X player and refuses everyone else as not pre-declared. The model keeps this behaviour.

## Model

| member | source | states |
|---|---|---|
| `Board.MarkPredicatesPartition` | board.rs:19-27 | `is_x` and `is_o` each hold of exactly one mark |
| `Board.MarkToByte` | board.rs:29-36 | the code of a mark is at most 1 and decodes back to the same mark |
| `Board.MarkFromByteNotInjective` | board.rs:38-45 | decoding is total; only 0 gives X; distinct bytes (1, 2) both give O |
| `Board.Default` | board.rs:55-57 | the default board has `len` cells, all empty, none filled |
| `Board.Turn` | board.rs:59-74 | in-place placement on an array gives the result and cells `Place` specifies |
| `Board.PlaceOutcomes` | board.rs:59-74 | out of range iff `CoordinateNotExists`; in range and occupied iff `CoordinateAlreadyFilled`; in range and empty iff `Ok`; an error leaves the cells equal; success writes the player's code at the coordinate; no other cell changes |
| `Board.PlaceNeverOverwrites` | board.rs:63-70 | an occupied cell is the same after any placement |
| `Board.PlaceFillsOne` | board.rs:63-68 | a successful placement fills exactly one more cell, adds one mark of the player, and leaves the other player's count unchanged |
| `Board.FilledSplit` | board.rs:38-45 | every occupied cell reads as exactly one player's mark |
| `Board.PlaceScenario` | board.rs:96-107 | the unit test: coordinate 10 is `CoordinateNotExists`, the first move at 0 succeeds, a second move at 0 is `CoordinateAlreadyFilled` |
| `Status.StatusToByte` | game_status.rs:12-23 | every status encodes to at most 5 and decodes back to itself |
| `Status.StatusCodes` | game_status.rs:12-23 | the exact code table 0..5 |
| `Status.StatusToByteInjective` | game_status.rs:13-22 | two statuses share a code iff they are equal |
| `Status.StatusFromByteTable` | game_status.rs:25-36 | bytes 0..4 decode to their variants; every byte of 5 or more decodes to `Draw` |
| `Status.StatusByteRoundTrip` | game_status.rs:12-36 | encoding a decoded byte gives the byte for bytes up to 5, and 5 above |
| `Game.CheckStateSound` | lib.rs:165-197 | `check_state` answers only the mover's win or a draw; a reported win is a complete line of the mover; a draw is reported iff no win is reported and the board is full; no answer means a free cell |
| `Game.CheckStateComplete` | lib.rs:170-190 | if the mover had no line before the move, `check_state` reports a win iff the move completed a line of the grid |
| `Game.PlacingCannotWinForOpponent` | lib.rs:116-122 | a move never completes a line for the other player |
| `Game.CheckStateScenarios` | lib.rs:244-341 | the six unit-test boards: row wins for O and for X, a column win, both diagonal wins, a full board without a line is a draw |
| `Game.NewGame` | lib.rs:33-68 | both constructors start with an empty board and status `NotStarted` |
| `Game.JoinOutcome` | lib.rs:70-95 | join never changes the board or the X player, and a failed join changes nothing |
| `Game.TurnOutcome` | lib.rs:97-126 | turn keeps a nine-cell board and both identities, and a failed turn changes nothing |
| `Game.NewGameConsistent` | lib.rs:43-48 | a new game satisfies the game invariant |
| `Game.JoinPreservesConsistent` | lib.rs:85-93 | join keeps the game invariant |
| `Game.TurnPreservesConsistent` | lib.rs:116-123 | turn keeps the game invariant: marks alternate, no line while a player is to move, a win is the winner's line, a draw is full and lineless |
| `Game.JoinGuards` | lib.rs:74-83 | guard order of join: `GameAlreadyStarted`, then `ForGameNeedsAtLeast2Players`, then `WaitingAnotherDefinedPlayer`; join succeeds iff none applies; every failure leaves the state unchanged |
| `Game.JoinSuccess` | lib.rs:85-93 | a successful join binds the caller as O, stores status code 1 (X to move) and keeps the board and X |
| `Game.TurnGuards` | lib.rs:98-114 | no O player gives `GameNotStarted`; an identity neither O nor X gives `UnknownPlayer`; a resolved caller gets `GameNotStarted` before the start, `GameAlreadyOver` after a win or draw, and `AnotherPlayerShouldTurn` out of turn; every failure leaves the state unchanged |
| `Game.OnlyTurningPlayerMoves` | lib.rs:99-117 | a caller who may not move fails without change; the caller who may move gets exactly the board placement's result and cells |
| `Game.TurnBoardError` | lib.rs:116-118 | the mover's board errors `CoordinateNotExists` and `CoordinateAlreadyFilled` are propagated with board and status unchanged |
| `Game.TurnSuccess` | lib.rs:119-122 | after a successful move the status is the check's win or draw, otherwise the other player's turn, and never the mover's turn again |
| `Game.TerminalIsAbsorbing` | lib.rs:108-111 | after a win or draw every turn fails and changes nothing, and every join fails with `GameAlreadyStarted` |
| `Game.TurningPlayerCanMove` | lib.rs:115-118 | in a consistent game the player to move succeeds exactly on free in-range cells, and such a cell exists |
| `Game.OutcomesAreCorrect` | lib.rs:186-196 | in a consistent game a draw is a full board with no line for anyone, and a win is a line of the winner and not of the loser |
| `Game.JoinTwiceScenario` | lib.rs:70-95 | the first joiner starts the game, a second different joiner gets `GameAlreadyStarted`, and the creator cannot join its own game |
| `Game.RunPreservesConsistent` | lib.rs:69-126 | every sequence of joins and turns keeps the game invariant |
| `Game.RunNeverOverwrites` | lib.rs:116-118 | over any sequence of calls an occupied cell keeps its mark and the X player never changes |
| `Game.RunKeepsSecondPlayer` | lib.rs:85-122 | once the game has started, no sequence of calls rebinds the O player or returns the status to `NotStarted` |
| `Game.RunTerminalStays` | lib.rs:108-111 | once won or drawn, no sequence of calls changes the state |
| `Game.TicTacToe.New` | lib.rs:33-49 | the caller becomes X, no O, empty board, `NotStarted`; the invariant holds |
| `Game.TicTacToe.WithOpponent` | lib.rs:51-68 | as `New`, with the opponent pre-declared as O |
| `Game.TicTacToe.JoinGame` | lib.rs:69-95 | the result and new fields are those of `JoinOutcome`, and the invariant is kept |
| `Game.TicTacToe.Turn` | lib.rs:96-126 | the result and new fields, board included, are those of `TurnOutcome`, and the invariant is kept |
| `Game.TicTacToe.SwitchPlayer` | lib.rs:153-163 | from `PlayerTurning(p)` the stored status becomes `PlayerTurning` of the other player |
| `Game.TicTacToe.GetTurningPlayer` | lib.rs:128-139 | `None` exactly outside a `PlayerTurning` phase; otherwise the identity returned is exactly the one caller whose turn passes the role and status checks, so the `unwrap` cannot fail |
| `Game.TicTacToe.GetGameStatus` | lib.rs:147-151 | the stored code decodes without loss |
| `Game.TicTacToe.GetBoard` | lib.rs:141-145 | nine cells, each empty or holding code 0 or 1 |

## Left out

- Event emission (`WaitingOpponent`, `GameStarted`, and the `PlayerTurn` and `GameEnd` events, which are declared but never emitted) is left out. Events are a notification side effect and change no state.
- The ink! environment is left out. The caller is an explicit parameter of the operations. The contract's own account id appears only in events.
- Storage attributes, the `scale` encode/decode derives and the `no_std`/feature attributes are left out. They are serialisation glue from external crates.
- The board's genericity over `T: From<Mark> + Into<Mark>` and its `Deref`/`DerefMut` impls are left out. The model fixes `T = u8`, the only instance the contract uses. `Board.Turn` and `Place` keep the length generic: the bound checked is the array's length.
- `Board::new` is the identity wrapper around a cell array. The model works on the cell array directly, so nothing is left to state.
- `turn` copies the stored board, places the mark in the copy, and writes the copy back only on success. `Board::turn` leaves the array untouched on failure, so `TicTacToe.Turn` places the mark directly in the stored array. The observable states are the same.
- `switch_player` panics (`unreachable!`) outside a `PlayerTurning` phase. `TicTacToe.SwitchPlayer` requires that phase instead. `turn` calls it only in that phase.
- `check_state` indexes out of bounds, and so panics, for a coordinate of 9 or more. `CheckState` requires a coordinate below 9. `turn` calls it only after a successful placement, which guarantees one.
- The `u8` coordinate of `turn` is widened to `usize`. The model widens it to an unbounded natural number, which is the same for every `u8` value.
