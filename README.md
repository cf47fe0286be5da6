# coronene: a Dafny model of the Hex engine

coronene is a Hex-playing engine written in Rust. Hex is played on a rhombus of hexagonal cells.
- Black wins by joining the top row to the bottom row.
- White wins by joining the left column to the right column.

The project models four parts of the engine:

- **The board** (`src/player/board.rs`):
  - Modules `Hex`, `Layout`, `BoardSpec`, `Connectivity` and `HexBoard`.
  - The value types are colours, positions (`u8` coordinates) and moves, with their text forms.
  - `Board` keeps two bit vectors, the colour to play and one union-find per colour. In the model it is a class with two boolean arrays.
  - The union-finds hold two virtual edge nodes per colour. `HexBoard.Board.Valid` states that each union-find is exactly the connectivity of that colour's stones and edge nodes (`Connectivity.Tracks`). Every method keeps this invariant: `set`, `update_groups`, `rebuild_groups`, `play` and `clear_cell`.
  - `check_win` therefore reports the colour whose two edges are connected (`Connectivity.Winner`).
- **The random player** (`src/player/randomplayer.rs`):
  - Module `Players`.
  - It is a move stack on top of a board.
  - `PlayerState` and its functions give the player's state as a value. The class `RandomPlayer` updates a live `Board` and is proved to follow them.
  - The random choice is a parameter `draw`: the player picks the empty cell at index `draw` modulo their number.
- **The HTP front end** (`src/player/htp.rs`):
  - Module `Htp`. HTP is the Hex version of the Go Text Protocol.
  - `Step` is one pass of the read–dispatch–respond loop, as a value.
  - `SessionFrom` and `Session` are the whole loop over the lines of an input. `draws(i)` is the random number used while line `i` runs.
  - `Run` is the loop itself over a live `RandomPlayer`. It writes exactly the responses `Session` describes.
- **The search-tree node** (`src/player/graph.rs`):
  - Module `NodeGraph`.
  - Nodes have `incoming`/`outgoing` lists, and `add_child` updates both in place.

The union-find crate belongs to neither file. `UnionFind` models it by its contract: `find` names a class, and `union` merges two classes and nothing else.

Where the code and its comments or documentation disagree, the model follows the code:
- `winner()` at `src/player/htp.rs:85` is not a method of `Board`. It is modelled as `check_win`.
- `src/main.rs` runs a `RandomPlayer` although `src/player/mod.rs:12` comments that module out. The model uses `RandomPlayer` as the player HTP drives.

Rust `u8` arithmetic wraps around in release builds, and the model writes this out wherever it matters:
- `y - 1` on the parsed row: a row number of 0 parses to row 255.
- `y + 1` on the printed row: row 255 prints as row 0.
- `x + 'A'` for the column letter: columns 191 to 255 wrap to the characters with codes 0 to 64.

Two related effects are not wrap-around of `u8` arithmetic:
- The neighbour offsets of `update_groups` are cast back to `u8` with `as`, which truncates in every build, so a step below 0 lands on coordinate 255.
- The column letter is a byte value, not a letter: column 26 prints as `[`, the character after `Z`, without any overflow.

A panic is modelled as follows:
- Rust panics when `get`/`set` receive an off-board position. Board methods therefore `require` an on-board position.
- Over HTP, a line that would reach such a panic ends the session with `Abort`. Nothing more is written.

## Model

| member | source | states |
|---|---|---|
| Hex.ParseColor | src/player/board.rs:12-20 | the result is Black exactly when the first character is `b`/`B`, White exactly when it is `w`/`W`, and an error otherwise (including the empty string) |
| Hex.ColorName | src/player/board.rs:23-30 | a colour prints as one character that parses back to the same colour |
| Hex.Invert | src/player/board.rs:32-39 | `invert` has no fixed point |
| Hex.InvertInvolution | src/player/board.rs:32-39 | inverting twice gives the colour back |
| Hex.ColorFromBool | src/player/board.rs:41-49 | `true` converts to White and `false` to Black |
| Hex.ColorToBool | src/player/board.rs:51-55 | a colour converts to `true` exactly when it is White, and converting back gives the colour |
| Hex.BoolColorRoundTrip | src/player/board.rs:41-55 | bool to colour to bool is the identity |
| Hex.ColorIndex | src/player/board.rs:253 | `val as usize` is 0 or 1, and `(i > 0).into()` at line 223 maps it back to the colour |
| Hex.LowerFirstLetter | src/player/board.rs:77-84 | a character lower-cases to a lone ASCII letter exactly for `a`–`z`, `A`–`Z` and the Kelvin sign, and an upper-case ASCII letter lower-cases as in ASCII; U+0130, whose lower case is `i` followed by a combining mark, gives no letter, which changes no parse result |
| Hex.ParsePos | src/player/board.rs:75-91 | accepts exactly a letter followed by a `u8`; the column is the letter's distance from `a`; the row is the number minus one, wrapping 0 to 255 |
| Hex.ColumnLetter | src/player/board.rs:107 | columns 0–25 print as the capital letters `A`–`Z`, and the letter reads back as the same column |
| Hex.PosName | src/player/board.rs:105-109 | a position prints as its column letter followed by decimal digits whose value is the row plus one, wrapping as `u8` |
| Hex.PosRoundTrip | src/player/board.rs:105-109 | printing a position and parsing it back gives the position, for columns `a`–`z` and rows below 255 |
| Hex.ParsePosRejects | src/player/board.rs:80-87 | a first character that is not a letter, or a rest that is not a `u8`, is rejected |
| Hex.MovePos | src/player/board.rs:131-137 | a move has a position exactly when it places a stone, and it is that stone's position |
| Hex.MoveColor | src/player/board.rs:139-145 | a move has a colour exactly when it places a stone, and it is that stone's colour |
| Hex.MoveName | src/player/board.rs:148-156 | `resign` and `pass` print in lower case and a stone with a lettered column prints with a capital, so the two kinds never share a name |
| Hex.MoveNameRoundTrip | src/player/board.rs:148-156 | a printed stone is neither `resign` nor `pass`, and it parses back to its position |
| Layout.Index | src/player/board.rs:307 | the storage index of an on-board cell is below the board's area (stride corrected) |
| Layout.OnBoardBounds | src/player/board.rs:229-234 | an on-board cell has both coordinates below 255, so the row 255 that row number 0 wraps to is on no board, and a board with a cell has a positive area |
| Layout.IdxOf | src/player/board.rs:304-311 | `idx_of` is defined exactly on the board, and its value is a valid cell index (stride corrected) |
| Layout.IndexInjective | src/player/board.rs:304-311 | distinct on-board cells get distinct indices, on every board shape (stride corrected) |
| Layout.PosOfIndex | src/player/board.rs:364-365 | the position the iterator computes for an index is on the board and is stored at that index (stride corrected) |
| Layout.PosOfIndexOfPos | src/player/board.rs:364-365 | the iterator's position of a cell's index is that cell (stride corrected) |
| Layout.IndexRoundTrip | src/player/board.rs:361-373 | every index below the area is the index of the position the iterator reports for it (stride corrected) |
| Layout.EdgeIndex | src/player/board.rs:313-315 | the two edge nodes come right after the cells, so they never collide with a cell |
| Layout.AsWrittenAgreesOnSquare | src/player/board.rs:307 | on a square board the written stride `dims.y` gives the same index as the corrected one |
| Layout.IterAgreesOnSquare | src/player/board.rs:364-365 | on a square board the written iterator reports every index as the same cell as the corrected one |
| Layout.AsWrittenAliasesWideBoard | src/player/board.rs:307 | as written, on a 3x2 board the cells c1 and a2 share index 2 |
| Layout.AsWrittenOverrunsTallBoard | src/player/board.rs:307 | as written, on a 2x3 board cell b3 gets index 7 past the 6 stored cells |
| Layout.IterAsWrittenMisplaces | src/player/board.rs:364-365 | as written, on a 3x2 board the iterator reports index 2, where c1 is stored, as c2 |
| BoardSpec.EmptyBoard | src/player/board.rs:168-177 | a new board has the given dimensions, every cell empty and Black to play |
| BoardSpec.SetCell | src/player/board.rs:284-294 | `set` gives the cell the new value and leaves every other cell, the dimensions and the colour to play unchanged |
| BoardSpec.PlayBoard | src/player/board.rs:195-208 | resign and pass succeed and change nothing; a stone on an occupied cell fails and changes nothing; a stone on an empty cell succeeds, is placed, hands the turn to the other colour and leaves every other cell unchanged |
| BoardSpec.EmptyFrom | src/player/board.rs:358-374 | the iterator from index `i` on yields only on-board empty cells, in strictly increasing storage order |
| BoardSpec.EmptyFromComplete | src/player/board.rs:358-374 | every empty cell at index `i` or later is yielded |
| BoardSpec.EmptyListSpec | src/player/board.rs:210-216 | a position is listed by `empty_cells` exactly when it is an empty cell of the board |
| BoardSpec.EmptyListIsEmptyIffFull | src/player/board.rs:210-216 | `empty_cells` is empty exactly when every cell holds a stone |
| UnionFind.New | src/player/board.rs:175 | a new union-find of size `n` has every element in a class of its own |
| UnionFind.Union | src/player/board.rs:260 | after `union(a, b)`, `a` and `b` are together; two elements are together exactly when they were before or one was with `a` and the other with `b` |
| Connectivity.OffsetOf | src/player/board.rs:262 | every hex neighbour is reached by exactly one of the six offsets of `neighbor_patterns` |
| Connectivity.NeighbourCell | src/player/board.rs:262-267 | without wrap-around the cell under offset `k` is the hex neighbour reached by offset `k`; a step below coordinate 0 wraps to 255 |
| Connectivity.SideOf | src/player/board.rs:254-259 | a stone joins edge 0 exactly when it is on its colour's first line, and edge 1 exactly when it is on its colour's last line and not its first (the first arm wins on a one-line board) |
| Connectivity.NeighbourUnique | src/player/board.rs:264-268 | the only on-board neighbour under offset `k` is the wrapped `u8` sum that `update_groups` computes |
| Connectivity.TracksIff | src/player/board.rs:218-227 | for a union-find that tracks a colour, two nodes share a class exactly when a path of that colour's stones joins them |
| Connectivity.NewTracks | src/player/board.rs:175-176 | a fresh union-find tracks a graph without links |
| Connectivity.UnionSound | src/player/board.rs:260 | joining the two ends of a link keeps every class connected |
| Connectivity.UnionClosed | src/player/board.rs:270 | every union keeps the two ends of each existing link together |
| Connectivity.JoinSide | src/player/board.rs:254-261 | joining a stone to the edge node its colour and position call for keeps the union-find sound, and joins it to that edge |
| Connectivity.JoinStep | src/player/board.rs:268-271 | joining a stone to a same-coloured neighbour under offset `k` keeps the union-find sound, and extends the join to offsets up to `k` |
| Connectivity.JoinExtends | src/player/board.rs:270 | that union keeps every earlier join of the stone |
| Connectivity.JoinSkip | src/player/board.rs:268 | a neighbour that is off the board or not of the stone's colour needs no union |
| Connectivity.ReadyJoined | src/player/board.rs:246-273 | once a stone is joined to its edge node and to all same-coloured neighbours, the union-find tracks the board with that stone |
| Connectivity.ReadyUntouched | src/player/board.rs:248-251 | a colour that has no stone on the cell needs no change |
| Connectivity.ReadyAfterSet | src/player/board.rs:284-290 | after a stone is placed, the union-find from before is sound for the new board and closed for it without the new stone |
| Connectivity.GrowsRebuildStep | src/player/board.rs:277-281 | visiting the next cell of `rebuild_groups` adds exactly the links touching that cell |
| Connectivity.NothingVisited | src/player/board.rs:276 | before `rebuild_groups` visits any cell, the fresh union-finds track the graph |
| Connectivity.ColumnDone | src/player/board.rs:277-281 | a finished column is the start of the next |
| Connectivity.AllVisited | src/player/board.rs:275-282 | after the last column the union-finds track the whole board |
| Connectivity.UnreachableSide | src/player/board.rs:218-227 | an edge node that no link reaches is reachable from no other node |
| Connectivity.WinnerHasStone | src/player/board.rs:218-227 | the colour `check_win` reports has at least one stone on the board: a colour without stones cannot connect its two edges |
| Connectivity.OneRowBlackNeverWins | src/player/board.rs:254-257 | on a one-row board the first match arm joins every black stone to edge 0, so Black never wins |
| Connectivity.BlackColumnWins | src/player/board.rs:218-227 | a full black column wins for Black on a board of two or more rows |
| HexBoard.Board.constructor | src/player/board.rs:168-177 | a new board is valid and empty, with Black to play |
| HexBoard.Board.IsOnBoard | src/player/board.rs:229-234 | a position is on the board exactly when `idx_of` gives it a storage index |
| HexBoard.Board.Get | src/player/board.rs:236-244 | returns the stone on the cell |
| HexBoard.Board.IsEmpty | src/player/board.rs:183-187 | true exactly when the cell has no stone |
| HexBoard.Board.JoinStone | src/player/board.rs:252-273 | after the edge union and the loop over the six offsets, the stone's union-find tracks its colour |
| HexBoard.Board.JoinNeighbour | src/player/board.rs:263-272 | one pass of the offset loop keeps the union-find sound and extends the join by one offset |
| HexBoard.Board.UpdateGroups | src/player/board.rs:246-273 | after `update_groups(p)`, both union-finds track the graphs that include the links at `p` |
| HexBoard.Board.RebuildGroups | src/player/board.rs:275-282 | after fresh union-finds and `update_groups` on every cell column by column, both union-finds track the board |
| HexBoard.Board.Set | src/player/board.rs:284-294 | the board after `set` is `SetCell` of the board before, and the union-finds still track it |
| HexBoard.Board.ClearCell | src/player/board.rs:189-193 | exactly that cell becomes empty, and the groups are rebuilt from the remaining stones |
| HexBoard.Board.Play | src/player/board.rs:195-208 | the result and the new board are those of `PlayBoard`, and the invariant is kept |
| HexBoard.Board.SetToPlay | src/player/board.rs:300-302 | only the colour to play changes |
| HexBoard.Board.CheckWin | src/player/board.rs:218-227 | the result is Black exactly when Black's edges are connected, otherwise White exactly when White's are, otherwise nothing |
| HexBoard.Board.EmptyCells | src/player/board.rs:361-373 | walking the `empty_cells` bits with an index yields exactly the empty cells in storage order |
| Players.NewPlayer | src/player/randomplayer.rs:12-18 | a new player has an empty 13x13 board, Black to play and no moves |
| Players.PlayMoveResult | src/player/randomplayer.rs:36-39 | the move is appended to `moves` in every case; the result is true exactly for a non-stone or a stone on an empty cell; the board changes only when a stone is placed, and then in that cell and the turn only |
| Players.UndoResult | src/player/randomplayer.rs:41-45 | with no moves nothing changes; otherwise exactly the last move is popped; if it placed a stone that cell becomes empty and no other cell changes; otherwise the board is unchanged; the colour to play is not restored |
| Players.ChooseMove | src/player/randomplayer.rs:26-31 | resigns exactly when there is no empty cell, and otherwise places the requested colour on one of the empty cells |
| Players.GenerateMoveResult | src/player/randomplayer.rs:22-34 | once someone has won, it resigns and records nothing; otherwise it resigns exactly on a full board, or places the requested colour on an empty cell; either way the move is recorded as `play_move` does |
| Players.SetBoardSizeResult | src/player/randomplayer.rs:58-60 | the board becomes an empty board of the new size with Black to play, and the move list is kept |
| Players.PlayUndoRestores | src/player/randomplayer.rs:36-45 | a stone on an empty cell is accepted, and the `undo` after it gives back the cells and the move list; only the colour to play stays changed |
| Players.NonPlayUndoRestores | src/player/randomplayer.rs:36-45 | a pass or resignation followed by `undo` gives back exactly the state before |
| Players.UndoAfterRejectedPlay | src/player/randomplayer.rs:36-45 | a stone refused on an occupied cell is still recorded, so the next `undo` clears the stone that was there |
| Players.GeneratedMoveAccepted | src/player/randomplayer.rs:26-33 | the board always accepts the generated move |
| Players.GeneratedFromChoice | src/player/randomplayer.rs:26-31 | while nobody has won, the generated move is the choice among `empty_cells` |
| Players.AnyEmptyCellCanBeDrawn | src/player/randomplayer.rs:26-31 | while nobody has won, every empty cell is the generated move for some random draw |
| Players.UndoAfterShrinkFails | src/player/randomplayer.rs:58-60 | after a stone at m13 and a resize to 5x5, the kept move is off the board, so `undo` cannot run |
| Players.RandomPlayer.constructor | src/player/randomplayer.rs:12-18 | the new player's state is `NewPlayer` |
| Players.RandomPlayer.PlayMove | src/player/randomplayer.rs:36-39 | the result and the new state are those of `PlayMoveResult` |
| Players.RandomPlayer.Undo | src/player/randomplayer.rs:41-45 | the new state is `UndoResult` of the old one |
| Players.RandomPlayer.GenerateMove | src/player/randomplayer.rs:22-34 | the move and the new state are those of `GenerateMoveResult` for the same draw |
| Players.RandomPlayer.SetBoardSize | src/player/randomplayer.rs:58-60 | the new state is `SetBoardSizeResult` of the old one |
| Text.Tokens | src/player/htp.rs:46 | `split_whitespace` yields only non-empty words without whitespace |
| Text.TokensUnwords | src/player/htp.rs:46 | words joined by single spaces split back into the same words |
| Text.TokensTrailingWhitespace | src/player/htp.rs:42-46 | the newline `read_line` keeps, or any other trailing whitespace, does not change the words of a line |
| Text.ParseU8 | src/player/htp.rs:75-76 | `parse::<Coord>` accepts only an optional `+` and digits, with a value below 256 |
| Text.ParseU8Decimal | src/player/htp.rs:75-76 | the decimal form of a number below 256 parses back to it |
| Text.ParseU8Rejects | src/player/board.rs:85-88 | the empty string, a lone `+` and a string with a later non-digit are rejected |
| Text.Decimal | src/player/board.rs:105-109 | a number prints as non-empty decimal digits without a leading zero |
| Text.DecimalValue | src/player/board.rs:105-109 | the printed digits have the number's value |
| Htp.LineLength | src/player/htp.rs:96-103 | `read_line` takes everything up to and including the first newline, or the rest of the input |
| Htp.ReadLines | src/player/htp.rs:96-103 | every line read is non-empty, every line but the last ends in its only newline |
| Htp.ReadLinesConcat | src/player/htp.rs:96-103 | the lines read, put back together, are the whole input |
| Htp.ConcatAppend | src/player/htp.rs:105-114 | the output of two runs of responses is the output of the first followed by that of the second |
| Htp.Ok | src/player/htp.rs:105-109 | `write_ok` writes a framed response starting with `=` |
| Htp.Err | src/player/htp.rs:110-114 | `write_err` writes a framed response starting with `?` |
| Htp.OkInjective | src/player/htp.rs:105-109 | two success responses are equal only for equal messages |
| Htp.Played | src/player/htp.rs:59-64 | a stone off the board panics; otherwise the player is `play_move`'s result, and the answer is `=` exactly when the board accepted the move and `? invalid move` exactly when it did not |
| Htp.PlayCommand | src/player/htp.rs:52-64 | `resign` is played without reading the colour; a bad colour answers `? invalid color` and a bad position `? invalid move`, both without calling `play_move` (`try_htp!`); otherwise the named stone is played |
| Htp.BoardSizeCommand | src/player/htp.rs:74-79 | two `u8` tokens install an empty board of that size and answer `=`; otherwise the answer is `? invalid size` and the player is unchanged |
| Htp.FinalScore | src/player/htp.rs:84-90 | names the winner with `=`, or answers `? game is not finished!` |
| Htp.Parse | src/player/htp.rs:47 | a `play` line has exactly three words, and its position is the third |
| Htp.ParseCommandWords | src/player/htp.rs:47-91 | every command is recognised from its own words |
| Htp.ParseUnknown | src/player/htp.rs:91 | a list of words is a syntax error exactly when it is the word list of no command: an empty line, an unknown verb or a wrong arity |
| Htp.Exec | src/player/htp.rs:47-91 | the dispatch on a recognised command, as a value; its guarantees are `ExecProperties` |
| Htp.Step | src/player/htp.rs:41-91 | one pass of the loop for one line, as a value; its guarantees are `StepProperties` |
| Htp.ExecProperties | src/player/htp.rs:47-91 | every response is framed; only `quit` stops the loop, and it writes `= ` and an empty line; a panic changes nothing; an error leaves the board alone, and only a refused stone changes anything (its move is recorded) |
| Htp.StepProperties | src/player/htp.rs:41-91 | the same for a whole line, and the loop stops on `quit` exactly when the line's words are `quit` |
| Htp.UnknownCommand | src/player/htp.rs:91 | a line matching no pattern is answered `? syntax error` and changes nothing |
| Htp.StepCommand | src/player/htp.rs:46-47 | the words of a command, joined by spaces into one line, run that command |
| Htp.SessionFrom | src/player/htp.rs:40-94 | the loop from line `i` on, as a value |
| Htp.Session | src/player/htp.rs:38-94 | `run` on a whole input: at most one response per line read, exactly one per line when the input runs out, every response framed, and a loop ended by `quit` finishes with `= ` |
| Htp.SessionShape | src/player/htp.rs:40-94 | at most one response per line, exactly one per line when the input runs out, every response framed, and a loop ended by `quit` finishes with its `= ` response |
| Htp.SessionFromRespond | src/player/htp.rs:40-92 | an answered line's response comes first, and the loop goes on from the next line |
| Htp.SessionFromStop | src/player/htp.rs:80-83 | `quit` ends the loop with its response; a panic ends it with nothing more written; neither changes the player |
| Htp.StoppedIgnoresRest | src/player/htp.rs:80-83 | once `quit` or a panic has stopped the loop, further input changes nothing |
| Htp.SessionExtends | src/player/htp.rs:41-45 | while the loop runs to the end of its input, more input only adds responses after those already written |
| Htp.PlayResignAnyColor | src/player/htp.rs:53-54 | `play <any word> resign` answers `=` and records a resignation, without touching the board |
| Htp.PlayOverProtocol | src/player/htp.rs:52-64 | `play <colour> <position>`, for a position with a column letter and a row below 255, plays exactly the stone it names |
| Htp.UndoOverProtocol | src/player/htp.rs:66-69 | `undo` always answers `=` and is the player's `undo`, unless that would clear an off-board cell (a panic) |
| Htp.PlayThenUndoOverProtocol | src/player/htp.rs:52-69 | `play` on an empty cell and then `undo` answer `=` twice, and give back the board's stones and the move list |
| Htp.BoardSizeOverProtocol | src/player/htp.rs:74-79 | `boardsize` with two decimal `u8` numbers answers `=` and installs an empty board of that size |
| Htp.FinalScoreOverProtocol | src/player/htp.rs:84-90 | `final_score` names a colour exactly when that colour has won |
| Htp.GenmoveAfterWin | src/player/htp.rs:48-51 | once someone has won, `genmove` answers `= resign` and records nothing |
| Htp.ExecuteGenMove | src/player/htp.rs:48-51 | on the live player, `genmove` does what `Exec` describes |
| Htp.ExecutePlay | src/player/htp.rs:52-64 | on the live player, `play` does what `PlayCommand` describes |
| Htp.ExecuteUndo | src/player/htp.rs:66-69 | on the live player, `undo` does what `Exec` describes |
| Htp.ExecuteBoardSize | src/player/htp.rs:74-79 | on the live player, `boardsize` does what `BoardSizeCommand` describes |
| Htp.ExecuteFinalScore | src/player/htp.rs:84-90 | on the live player, the answer is `FinalScore` of its state |
| Htp.ExecuteCommand | src/player/htp.rs:47-91 | on the live player, the response and the new state are those of `Exec` |
| Htp.Execute | src/player/htp.rs:46-91 | on the live player, one line does what `Step` describes |
| Htp.ContinuesRespond | src/player/htp.rs:41-92 | writing an answered line's response keeps the output a prefix of the whole session |
| Htp.ContinuesStop | src/player/htp.rs:80-83 | on `quit` the output plus its response is the whole session; on a panic the output is the whole session |
| Htp.Serve | src/player/htp.rs:41-92 | one pass of the loop on the live player either continues the session or completes its output |
| Htp.Run | src/player/htp.rs:38-94 | `run` writes exactly the session's responses and leaves the player in the session's final state |
| NodeGraph.Node.New | src/player/graph.rs:51-53 | a new node carries its data and has no edges |
| NodeGraph.Node.NewRoot | src/player/graph.rs:55-57 | a new root has no data, so it is a root, and has no edges |
| NodeGraph.Node.Data | src/player/graph.rs:31-33 | only a node that is not the root has data, and it is the stored value |
| NodeGraph.Node.SetData | src/player/graph.rs:35-37 | through `data_mut` a node that is not the root gets new data and keeps its edges |
| NodeGraph.Node.AddChild | src/player/graph.rs:59-63 | the child is appended to this node's `outgoing` and this node to the child's `incoming`; the child is returned; nothing else changes, also when a node is its own child |
| NodeGraph.AddChildKeepsMirrored | src/player/graph.rs:59-63 | if every edge in a set of nodes is listed as often at its source as at its target, `add_child` keeps it so |
| NodeGraph.AddChildKeepsClosed | src/player/graph.rs:59-63 | if the edges of a set of nodes stay within it, `add_child` between two of its nodes keeps them within it |

## Left out

- `BoardSpec.Render` models `Display for Board` (`src/player/board.rs:318-350`), which `showboard` prints. No property of the diagram is proved.
- `Hex.ParsePos` requires a non-empty string. The source indexes the first byte, so it panics on the empty string. HTP only ever passes it a non-empty word.
- `Hex.PosRoundTrip` holds only for columns below 26 and rows below 255:
  - Column 26 and up do not print as a letter.
  - Row 255 prints as row 0, which parses back to 255 only by wrap-around.
  - So `Display` and `FromStr` are inverses only there.
- `Hex.LowerFirstLetter`, `Hex.ParseColor`: Unicode lower-casing is reduced to what can decide the result:
  - ASCII letters.
  - The Kelvin sign, which lower-cases to `k`.
  - Every other character, which cannot lead to an accepted colour or position.
- `HexBoard.Board.Set` requires the cell to be empty, to hold the same colour already, or to become empty.
  - The source also lets the caller overwrite a stone with one of the other colour. That colour's union-find would keep joins through the lost stone.
  - No caller does this: `play` checks that the cell is empty.
- The union-find's union by size and path compression are left out. `QuickUnionUf` is modelled by its classes only.
- Overflow panics of debug builds are not modelled. The model uses release-build wrap-around for the `u8` additions and subtractions listed above.
- Input and output objects:
  - The input is the text `read_line` delivers, already read.
  - A read error or invalid UTF-8 is not modelled; these end the source's loop as end of input does.
  - A failing write (`unwrap` in `write_ok`/`write_err`) is not modelled.
- Randomness: `rng.choose` is replaced by the `draw` parameter. No claim is made about the distribution.
- `Htp.Run` returns how the loop ended as a ghost out-parameter. The source's `run` returns nothing, and a panic unwinds out of it.
- The colour to play is not restored by `undo` and not used by `generate_move`. The model keeps it as the source does.
- `Arc<RwLock<…>>` in `src/player/graph.rs` is modelled as a plain object reference:
  - Locking only matters between threads.
  - `node`/`node_mut` only hand out the locked node.
  - `incoming()`/`outgoing()` are the fields themselves.
- `src/player/mctsplayer.rs` is not part of this model. It combines floating-point tree-search scoring, wall-clock search, threads, atomics and random choices.
- `src/player/misc/atomic_vec.rs` is not part of this model. It is a lock-free write-once cell.
- `src/main.rs` is not part of this model; it only wires standard input and output to `run`.
- `src/player/mod.rs` is not part of this model. Its `Player` trait is what `RandomPlayer` implements, and the model calls `RandomPlayer` directly.
- `HexBoard.Board`, `BoardSpec` (`BoardSpec.PlayBoard`, `BoardSpec.EmptyList`), `Connectivity.Winner`, `Players` and `Htp.Session`/`Htp.Run` use the corrected cell layout of `Layout.Index` and `Layout.PosOfIndex` (row stride `dims.x`). They match the program only on square boards, where `Layout.AsWrittenAgreesOnSquare` shows that `idx_of` agrees and `Layout.IterAgreesOnSquare` shows that `Iter::next` agrees. On other boards the program differs, as the Findings describe: after `boardsize 3 2` and `play b c1`, it answers `play w a2` with `? invalid move`, and after `boardsize 2 3` it panics on `play b b3`. The model answers `=` to both.
- `Pos::new`, `Pos::area`, `From<(Coord, Coord)>`, `From<&str> for Pos`, `Move::new`, `Board::to_play` and `Board::dimensions`: constructors and getters, which are the datatype constructors and fields here.

## Findings

| source | as written | input that shows it | evidently intended | confidence | as-written member | corrected member |
|---|---|---|---|---|---|---|
| src/player/board.rs:307 | `idx_of` uses `dims.y` as the row stride | `boardsize 3 2`: c1 and a2 both get index 2, so a stone on one makes the other occupied; `boardsize 2 3`: b3 gets index 7 of 6 cells, and `get` panics | stride `dims.x`, so each cell has its own index below the area | not executed | Layout.AsWrittenAliasesWideBoard | Layout.IndexInjective |
| src/player/board.rs:364-365 | `Iter::next` reports index `idx` as `(idx % dims.x, idx / dims.y)` | `boardsize 3 2`: index 2 (where the written `idx_of` stores c1) is reported as c2 | row `idx / dims.x`, the inverse of the corrected index | not executed | Layout.IterAsWrittenMisplaces | Layout.IndexRoundTrip |
