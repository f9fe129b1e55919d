# Board-game domain model and registry, in Dafny

This project models the sequential core of a small Go program about two-player board games:

- the domain model in `internal/model`:
  - players: immutable identities shared by reference;
  - boards: a size × size grid of cell strings with bounds-checked reads and writes;
  - moves: coordinate-pair records with a short notation such as `e2-e4`;
  - games: a state machine over `not_started`, `in_progress` and `finished`, with an append-only move history, the player on turn and a winner;
- the in-memory registry in `internal/repository`: four insert-ordered collections (boards, games, moves, players), a removal by object identity, copying getters, and a change-event channel of capacity 128 that drops events when full;
- the checkerboard drawing loop in `main.go`.

One Dafny module corresponds to each source file:

| file | module | form |
|---|---|---|
| `player.dfy` | `Players` | class `Player` with constant fields and pure functions |
| `board.dfy` | `Boards` | class `Board` over an array of row arrays |
| `move.dfy` | `Moves` | datatypes `Position` and `Move`, pure functions |
| `game.dfy` | `Games` | class `Game`, specified by functions over a `GameState` value |
| `repository.dfy` | `Repository` | class `Registry` whose fields are the package-level slices and the channel |
| `checkerboard.dfy` | `Checkerboard` | a method with the nested loops, specified by `Rows` |

Every method that changes state is specified against a function of the old state. Examples:

- `Game.MakeMove` ensures `State() == AfterMove(old(State()), move)`.
- `Registry.RemoveGame` ensures `games == RemoveFirst(old(games), game)`.

The lemmas beside each module prove the properties the program relies on:

- the three rejection guards of `MakeMove`;
- strict turn alternation over any run of moves;
- the winner chosen by `Resign`;
- removal of exactly one occurrence, in order;
- the channel never holding more than 128 events;
- the notation reading back to its squares, with Go's 32-bit rune truncation and its U+FFFD replacement for values that are not Unicode scalar values;
- the layout of the drawn checkerboard.

Three behaviours of the code are easy to miss:

- `Start` is unguarded, so a finished game can be restarted.
- `Store` sends no change event. Only `RemoveGame` does.
- `MakeMove` checks both endpoints against the board's bounds and never touches the board.

## Model

| member | source | states |
|---|---|---|
| `Players.Player.constructor` | internal/model/player.go:16-27 | NewPlayer keeps name and colour and picks "♚" for Black and "♔" for any other colour |
| `Players.ColorTestsExclusive` | internal/model/player.go:29-35 | IsWhite holds iff the colour is "white", IsBlack iff it is "black"; never both |
| `Players.Player.DisplayName` | internal/model/player.go:37-43 | the display name starts with the player's name and ends with ")" |
| `Players.DisplayNameShape` | internal/model/player.go:37-43 | the display name is the name + " (" + colour word + " " + symbol + ")", with "черные" for Black and "белые" otherwise |
| `Players.DisplayNameDetermines` | internal/model/player.go:37-43 | two players built by NewPlayer with the same display name have the same name and agree on being black |
| `Boards.Board.constructor` | internal/model/board.go:8-18 | NewBoard(n) has size n and n distinct fresh rows of n cells, all "" |
| `Boards.Board.GetCell` | internal/model/board.go:20-25 | an off-board coordinate reads "", an on-board one reads the stored cell |
| `Boards.Board.SetCell` | internal/model/board.go:27-31 | a write on the board changes exactly cell (row, col), after which GetCell returns the piece; an off-board write changes nothing |
| `Boards.ValidPositionIsCell` | internal/model/board.go:33-35 | IsValidPosition(r, c) holds iff 0 ≤ r < size and 0 ≤ c < size, which are exactly the indices of stored cells |
| `Moves.NewMove` | internal/model/move.go:15-28 | the move holds the given coordinates, player and piece unchanged |
| `Moves.ValidityDependsOnSize` | internal/model/move.go:30-33 | IsValid depends only on the endpoints and the board's size, not on cells, player or piece |
| `Moves.Int32` | internal/model/move.go:38 | the rune conversion keeps a value in the int32 range that is congruent to its argument modulo 2^32 |
| `Moves.RuneChar` | internal/model/move.go:38 | string(rune(x)) is the code point of x truncated to 32 bits when that is a Unicode scalar value, and U+FFFD when it is negative, a surrogate or above U+10FFFF |
| `Moves.RuneCharPeriodic` | internal/model/move.go:38 | values 2^32 apart give the same character, because only the low 32 bits reach the rune |
| `Moves.Move.Notation` | internal/model/move.go:35-43 | "" when either column is 8 or more; otherwise five characters: file letter, rank, '-', file letter, rank |
| `Moves.RankDigit` | internal/model/move.go:38 | rows 0 to 7 are written as the digits '1' to '8' |
| `Moves.NotationRoundTrip` | internal/model/move.go:35-43 | the notation of a move on the 8 × 8 board reads back to its two endpoints |
| `Moves.NotationComplete` | internal/model/move.go:35-43 | every string that reads back as two squares is the notation of a move between them |
| `Games.Game.constructor` | internal/model/game.go:31-44 | NewGame: distinct white and black players, a fresh empty board of the given size, no moves, white on turn, not started, no winner; establishes the invariant `Valid()`: the players are distinct and one of them is on turn |
| `Games.Game.Start` | internal/model/game.go:46-48 | the status becomes InProgress from any status; nothing else changes |
| `Games.StartIdempotent` | internal/model/game.go:46-48 | Start yields InProgress, keeps history, turn and winner, and starting twice equals starting once |
| `Games.StatusTests` | internal/model/game.go:50-56 | IsInProgress and IsFinished hold exactly for their status and never together |
| `Games.Game.MakeMove` | internal/model/game.go:58-74 | the result is true iff the game is in progress, the mover is the same object as the player on turn and both endpoints are on the board; the new state is AfterMove of the old; `Valid()` is kept |
| `Games.MakeMoveRejects` | internal/model/game.go:58-69 | each guard on its own rejects the move and leaves status, history, turn and winner unchanged |
| `Games.MakeMoveAccepts` | internal/model/game.go:71-82 | an accepted move is appended to the history, the turn passes to the other player, and status and winner stay |
| `Games.Game.SwitchPlayer` | internal/model/game.go:76-82 | the turn passes to black after white and to white otherwise |
| `Games.Game.Finish` | internal/model/game.go:84-86 | the status becomes Finished and nothing else changes |
| `Games.Game.GetMoveCount` | internal/model/game.go:92-94 | the count is the length of the move history |
| `Games.ReplayAlternates` | internal/model/game.go:58-82 | over any run of MakeMove calls, the history grows by exactly the accepted moves, white is on turn iff the history length is even, and status and winner stay |
| `Games.NewGameRun` | internal/model/game.go:31-94 | from a new, started game, the history after a run is the accepted moves, and white is on turn iff their number is even |
| `Games.Game.Resign` | internal/model/game.go:100-107 | the new state is Resigned of the old: the player not on turn wins and the game is finished |
| `Games.ResignWinner` | internal/model/game.go:100-107 | the winner is the seated player not on turn; the turn and history stay; a second Resign changes nothing |
| `Repository.Registry.constructor` | internal/repository/repository.go:11-27 | the four collections and the channel start empty |
| `Repository.Registry.Store` | internal/repository/repository.go:29-48 | the entity is appended to the end of its own kind's collection; the other collections and the channel are unchanged |
| `Repository.Registry.RemoveGame` | internal/repository/repository.go:50-60 | the first entry that is the same object is removed; one "games"/"remove" event is offered to the channel if the game was present; otherwise nothing changes |
| `Repository.RemoveFirstAt` | internal/repository/repository.go:53-57 | removal at the first matching index i is the splice s[..i] + s[i+1..] |
| `Repository.RemoveFirstAbsent` | internal/repository/repository.go:50-60 | removing an absent game leaves the collection as it was |
| `Repository.RemoveFirstOneCopy` | internal/repository/repository.go:53-57 | removal of a present game drops exactly one copy: the length falls by one, other counts stay |
| `Repository.RemoveFirstKeepsOrder` | internal/repository/repository.go:53-57 | the remaining entries keep their relative order around the removed index |
| `Repository.Registry.GetBoards` | internal/repository/repository.go:62-68 | a fresh array equal to the current boards |
| `Repository.Registry.GetGames` | internal/repository/repository.go:70-76 | a fresh array equal to the current games |
| `Repository.Registry.GetMoves` | internal/repository/repository.go:78-84 | a fresh array equal to the current moves |
| `Repository.Registry.GetPlayers` | internal/repository/repository.go:86-92 | a fresh array equal to the current players |
| `Repository.SnapshotIsolation` | internal/repository/repository.go:62-92 | a copy taken by GetGames keeps its contents through later Store and RemoveGame calls |
| `Repository.Offered` | internal/repository/repository.go:94-104 | a send appends the event when fewer than 128 are buffered and otherwise leaves the channel unchanged |
| `Repository.OfferedAllKeepsFirst` | internal/repository/repository.go:27 | any series of sends keeps at most 128 events: those that fit are appended in order, the rest are dropped |
| `Repository.Registry.NotifySliceChange` | internal/repository/repository.go:94-104 | the channel becomes Offered of the old channel and the new event |
| `Repository.Registry.LogSliceChange` | internal/repository/repository.go:106-108 | the same non-blocking send, with the caller's text as the event's detail |
| `Checkerboard.Row` | main.go:11-18 | a drawn row is size + 1 characters long |
| `Checkerboard.Rows` | main.go:10-19 | k drawn rows take k · (size + 1) characters |
| `Checkerboard.Draw` | main.go:10-19 | the nested loops build exactly Rows(size, size) |
| `Checkerboard.DrawMain` | main.go:6-19 | main's board is the 8 × 8 drawing, 72 characters long |
| `Checkerboard.RowsAt` | main.go:12-18 | the character at i · (size + 1) + j is ' ' if i + j is even and '#' otherwise for j < size, and '\n' for j = size |
| `Checkerboard.RowsLineBreaks` | main.go:18 | a drawing of k rows holds exactly k line breaks |
| `Checkerboard.NeighboursDiffer` | main.go:12-16 | neighbouring squares in a row differ, and the first character is ' ' |

## Left out

- Locking: the read/write mutexes of `Game` and of the four registry collections are not modelled. Each operation is one atomic step.
- Timing: the duration and timestamp fields of `Game` and the timestamp of a change event are wall-clock values and are not modelled.
- Channel consumer: nothing in the modelled code receives from the change channel, so the channel is a queue that only grows, up to 128 events.
- Console output: `PrintStats` and the final `fmt.Print` in `main.go` only write to the console.
- `internal/service/service.go` is not part of this model. Its only behaviour is a random choice of an entity to store.
- `GameEntity` and `EntityType`: the interface is not among the modelled files. `Store`'s type switch is the `Entity` sum type, and the `EntityType` methods, which return constant names, are omitted.
- `GetMoveHistory` returns the game's own slice without copying. The model's `moves` field is that slice, so the function adds nothing.
- Nil pointers: every player, board, game and move reference in the model is non-null. A nil entity passed to `Store`, or a nil move passed to `MakeMove`, is not modelled.
- Integer width: coordinates and sizes are unbounded integers. The one conversion whose width is observable is `rune(...)` in `GetNotation`, and `Moves.Int32` models its 32-bit truncation.
- Event details: `RemoveGame` formats the removed game's address with `%p`. The model records the game reference itself in `Details.RemovedGame`.
- Moves by reference: the registry and the history hold `*Move` pointers. The model stores `Move` values, because no operation compares moves by identity.
- Boards.Board.GetCell and Boards.Board.SetCell: both require `Valid()`, the row layout that `NewBoard` builds. A board whose row slices were later shortened or aliased by other code is not modelled.
- Moves.Move.Notation: lengths are counted in characters. The source's byte length differs only for ranks outside '1' to '8'.
- Checkerboard.Draw: takes the side length as a parameter; `main` fixes it at 8, which `DrawMain` models.
- Boards.Board.constructor: a negative size makes the source panic, so the size is a natural number. The same holds for `NewGame`'s board size.
- Games.Game.Start, MakeMove, SwitchPlayer, Finish and Resign: each requires `Valid()`, which `NewGame` establishes and every method keeps. A game built by other code with one player in both seats, or with a third player on turn, is not modelled.
