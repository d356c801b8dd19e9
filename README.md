# Tetris engine model

A Dafny model of the per-game Tetris engine of `tetris.py` (class `TetrisGame`)
and of the watcher registry that decides which observers follow which game.

- **`Shapes`** (`shapes.dfy`): the piece geometry.
  - The shape table and board size are a `Config`. Its `Valid` predicate states what the engine assumes of its unseen constants:
    - one to seven shapes, so that a cell fits in three bits;
    - every shape has an orientation, and every orientation has a block;
    - width and height are positive;
    - every spawn pose lies on the board.
  - Block coordinates, the topmost row of a piece, and the spawn position.
- **`Board`** (`board.dfy`): the board as a height × width grid of shape ids.
  - Specification functions for collision, fall distance (`MaxDrop`), row clearing (`Cleared`), settling (`Paint`) and the base-8 wire encoding.
  - The lemmas about them.
- **`Game`** (`game.dfy`): two classes.
  - `Piece` is a mutable piece record. In the source a piece is a dictionary, and `live` and `next` can be the same one.
  - `TetrisGame` has the fields `board`, `live`, `next` and `running`, with one method per engine operation.
  - Every command keeps the invariant `Valid`:
    - the board has exactly height rows of width cells, each 0 or a shape id;
    - both pieces are on the board;
    - the live piece of a running game overlaps nothing;
    - in a running game `live` and `next` are two different objects;
    - a preview piece that is not the live piece is still at its spawn pose;
    - `live.maxMovesDown` is exactly the fall distance.
  - Each method is proved against a specification function of `Board` or `Game`.
  - The effect of each command is a two-state predicate over the state before and after it (`SlidBy`, `RotatedBy`, `SteppedDown`, `SettledAt`, `MovedDown`, `Dropped`). The command and `HandleMessages` both ensure the same predicate.
  - A command returns the messages it emits, in order. `State` is a snapshot; `GameOverEvent` is the bare game-over event.
  - Random shape draws are a `nextShape` (or `firstShape` and `secondShape`) parameter.
- **`Watchers`** (`watchers.dfy`): the map from game id to the set of observers watching it.
  - `WatchRegistry.Subscribe` and `WatchRegistry.Unsubscribe` are proved against the pure `Subscribed` and `Discard`.
  - They keep every observer in at most one watcher set.

Two behaviours of the code worth knowing, both modelled as written:

- **Commands still run after a game over.** `handle_messages` (tetris.py:144-145) never reads `running`, so a command after a game over is handled like any other. The invariant is stated so it still holds then, and the live piece may then overlap the board.
- **A watcher set that becomes empty stays in the map.** The observer is only discarded from each set (tetris.py:286-287, 294-295), and no key is ever deleted. `Discard` keeps every key.

## Model

| member | source | states |
|---|---|---|
| Shapes.AbsoluteCoordinates | tetris.py:86-89 | specification function: block i of the piece sits at its offset plus the reference point; its property is AbsoluteCoordinatesMove |
| Shapes.AbsoluteCoordinatesMove | tetris.py:86-89 | moving the reference point by (dx, dy) translates every block by (dx, dy) |
| Shapes.MinRow | tetris.py:81-82 | the result is at most every block's row and equals some block's row |
| Shapes.MinRowLowered | tetris.py:86-89 | lowering the reference point by dy lowers the topmost block by dy |
| Shapes.InitialCoordinate | tetris.py:77-84 | specification function: the spawn column 4 and the absolute value of the smallest block row with the reference point in row 0; its property is SpawnTopRow |
| Shapes.SpawnTopRow | tetris.py:77-84 | the spawn column is 4 and the spawned topmost block is in row abs(m) + m, where m is the smallest row offset: never above the board, and row 0 when some block is at or above the reference point |
| Shapes.Config.SpawnPose | tetris.py:57-61 | a new piece has the drawn shape and orientation 0, and its pose is valid for the shape table |
| Board.Hits | tetris.py:100-106 | specification predicate: some block is off the board or over a non-zero cell; characterised by HitsOutside, HitsInside and FreeIsOnBoard, and computed by Collides |
| Board.HitsOutside | tetris.py:100-103 | a block off the board collides whatever the board holds |
| Board.HitsInside | tetris.py:100-106 | for blocks on the board, collision holds iff some block's cell is non-zero |
| Board.FreeIsOnBoard | tetris.py:100-106 | blocks that do not collide are all on the board |
| Board.EmptyBoardHits | tetris.py:35 | the initial board has height rows of width zeros, and on it a piece collides iff it leaves the board |
| Board.ProbeFrom | tetris.py:94-98 | specification function of the probe loop resumed at distance k; ProbeFromExact proves its answer exact |
| Board.MaxDrop | tetris.py:91-98 | specification function: the probe loop from distance 1; MaxDropExact and MaxDropUnique pin it down as the one distance IsMaxDrop describes |
| Board.ProbeFromExact | tetris.py:94-98 | the probe loop started at distance k, with every shorter distance free, computes an exact fall distance |
| Board.MaxDropExact | tetris.py:91-98 | the fall distance d is in [0, height-1]; every shift by 1..d is free; the shift by d+1 collides when d < height-1 |
| Board.MaxDropUnique | tetris.py:91-98 | at most one distance meets that description |
| Board.MaxDropStep | tetris.py:147-151 | a piece on the board with a positive fall distance can step down one row without colliding, and its fall distance then drops by exactly one |
| Board.MaxDropAfterSteps | tetris.py:147-151 | after k single steps (k at most the fall distance) the piece is still on the board and has k fewer rows to fall |
| Board.MaxDropLanding | tetris.py:210-212 | the pose a hard drop lands on is on the board, and it is free whenever the piece moved |
| Board.Survivors | tetris.py:239 | the kept rows are no more than the original rows, and each has an empty cell |
| Board.SurvivorsAppend | tetris.py:239 | filtering distributes over concatenation, so relative order is kept |
| Board.SurvivorsAllGaps | tetris.py:239 | rows that all have an empty cell are kept unchanged |
| Board.SurvivorsNoGaps | tetris.py:239 | full rows are all dropped |
| Board.SurvivorsAroundFull | tetris.py:239 | a full row between rows that all have an empty cell is the only row dropped; the others keep their order |
| Board.SurvivorsFrom | tetris.py:239 | every kept row is a row of the original board |
| Board.EmptyRowHasGap | tetris.py:242 | an inserted empty row is never full |
| Board.Cleared | tetris.py:238-243 | specification function: the rows with an empty cell, padded with empty rows on top up to height; its properties are ClearedShape, ClearedIdempotent and ClearSingleFullRow |
| Board.ClearedShape | tetris.py:238-243 | clearing gives exactly height rows and no full row; the kept rows sit at the bottom in order; every row above them is width zeros |
| Board.ClearedKeepsBoard | tetris.py:238-243 | clearing keeps the board's dimensions and keeps every cell in 0..number of shapes |
| Board.ClearedIdempotent | tetris.py:238-243 | clearing twice equals clearing once, so the second clear after place_on_board changes nothing |
| Board.ClearSingleFullRow | tetris.py:238-243 | with exactly one full row i, the result is one empty row on top of rows 0..i-1 and i+1.. |
| Board.Paint | tetris.py:228-229 | writing cells keeps the grid's dimensions |
| Board.PaintAt | tetris.py:228-229 | after settling, a cell holds the shape id iff it is one of the piece's blocks, and is otherwise unchanged |
| Board.PaintKeepsBoard | tetris.py:226-229 | settling a shape id keeps the dimensions and keeps every cell in 0..number of shapes |
| Board.BitOrShifted | tetris.py:125 | or-ing a value below 2^k into a number shifted left by k bits adds the value |
| Board.ShiftOr3 | tetris.py:125 | `(val << 3)` or-ed with a cell equals val * 8 + cell for a cell below 8 |
| Board.EncodeRow | tetris.py:123-126 | specification function: the row read as a base-8 number; EncodeRowRange, EncodeRowLeftmost and DecodeEncodeRow state what it means |
| Board.EncodedBoard | tetris.py:120-127 | specification function: one encoded number per row, top row first; DecodeEncodeBoard proves it lossless |
| Board.EncodeRowRange | tetris.py:123-126 | a row of cells in 0..7 encodes to a number in [0, 8^width) |
| Board.EncodeRowLeftmost | tetris.py:123-126 | the leftmost cell is the most significant base-8 digit |
| Board.DecodeEncodeRow | tetris.py:120-127 | decoding an encoded row with its width gives the row back |
| Board.DecodeEncodeBoard | tetris.py:120-127 | there is one number per row, top row first, and with the width the encoding is lossless |
| Game.Lookup | tetris.py:135-142 | specification function of the command table; LookupToken proves it one-to-one on the six tokens and None elsewhere |
| Game.LookupToken | tetris.py:134-145 | every command is found under its own token and only there; a message names no command iff it is no token |
| Game.TurnedOrientation | tetris.py:177-180 | the target orientation is valid for the shape and differs from orientation + 1 ("cw") or orientation − 1 (otherwise) by whole turns |
| Shapes.NudgedRow | tetris.py:185-189 | specification function of the row nudge on bare offsets: the reference row lowered by the height of the highest block above row 0, if any; its property is NudgedRowClearsTop |
| Shapes.NudgedRowClearsTop | tetris.py:184-190 | on bare block offsets: the nudged row is never above the old one; afterwards no block is above row 0; blocks with one above row 0 end with their topmost in row 0; others are not moved |
| Game.NudgedY | tetris.py:184-190 | specification function of the row nudge; its property is NudgedYClearsTop |
| Game.NudgedYClearsTop | tetris.py:182-190 | the nudge never raises the piece; afterwards no block is above row 0; a piece that had a block above row 0 ends with its topmost block in row 0; any other piece is not moved |
| Game.FirstKick | tetris.py:193-202 | specification function of the kick loop; its property is FirstKickFirstFit |
| Game.FirstKickFirstFit | tetris.py:193-202 | the chosen kick is the first in the list whose pose does not collide; none is chosen iff every kicked pose collides |
| Game.Rotated | tetris.py:176-207 | specification function of a rotation; its properties are RotatedFirstFit and RotatedKeepsFree |
| Game.RotatedFirstFit | tetris.py:176-207 | the committed pose is the first free one among x-offsets 0, -1, +1, -2, +2 from the nudged pose; if all collide, the pose is unchanged |
| Game.RotatedKeepsFree | tetris.py:176-207 | a rotation keeps a valid pose, and never turns a free piece into a colliding one |
| Game.Slid | tetris.py:158-174 | specification function of a one-column move reverted on collision; its property is SlidOutcome |
| Game.SlidOutcome | tetris.py:158-174 | a one-column move changes the pose iff the moved pose is free, and then it changes only x, by exactly dx; it never makes a free piece collide |
| Game.Piece.constructor | tetris.py:47-52 | a piece record holds the given shape, orientation, position and fall distance |
| Game.TetrisGame.constructor | tetris.py:32-55 | a new game is running on an empty board, has spawn-pose live and next pieces, an exact fall distance, and satisfies the invariant |
| Game.TetrisGame.Collides | tetris.py:100-106 | the early-return loop answers exactly whether some block leaves the board or hits a settled cell |
| Game.TetrisGame.MaxMovesDown | tetris.py:91-98 | the probe loop returns the exact fall distance (see MaxDropExact) |
| Game.TetrisGame.EncodeBoard | tetris.py:120-127 | the nested loops produce the base-8 row encoding, which DecodeEncodeBoard inverts |
| Game.TetrisGame.ClearRows | tetris.py:238-243 | the filter and the insert-at-front loop build exactly the cleared board (see ClearedShape) |
| Game.TetrisGame.PlaceOnBoard | tetris.py:226-230 | the board becomes the cleared board of the old board with the live shape id written into the piece's blocks, and keeps its dimensions and every cell in 0..number of shapes |
| Game.TetrisGame.GameOver | tetris.py:232-236 | the game stops running and the game-over event is emitted |
| Game.TetrisGame.CreateLiveTetromino | tetris.py:63-75 | the old next piece, same object and pose, becomes live with an exact fall distance; if it collides, the game ends, `next` stays and the game-over event is emitted; otherwise a fresh spawn-pose next piece is drawn |
| Game.TetrisGame.StateMessage | tetris.py:109-117 | specification function of the snapshot: the live piece's five numbers, the next shape and the encoded board; SendState computes it |
| Game.TetrisGame.SendState | tetris.py:108-118 | the emitted snapshot holds the live piece's five numbers, the next shape and the encoded board |
| Game.TetrisGame.RecomputeAndSend | tetris.py:164-165 | the fall distance is recomputed exactly for an unchanged pose, and one state message is emitted |
| Game.TetrisGame.Slide | tetris.py:158-174 | the pose becomes the one-column move when that is free, else it is restored and nothing is emitted; a successful move recomputes the fall distance and emits one state |
| Game.TetrisGame.MoveLeft | tetris.py:158-165 | Slide with dx = -1 |
| Game.TetrisGame.MoveRight | tetris.py:167-174 | Slide with dx = +1 |
| Game.TetrisGame.TryWallKicks | tetris.py:193-202 | the kick loop commits the first kick whose pose is free, or leaves the pose unchanged |
| Game.TetrisGame.RotationTarget | tetris.py:177-190 | computes the target orientation and the nudged row (see TurnedOrientation and NudgedYClearsTop) |
| Game.TetrisGame.Rotate | tetris.py:176-208 | the pose becomes the rotated pose (see RotatedFirstFit), the fall distance is recomputed, exactly one state is emitted, and the invariant holds |
| Game.TetrisGame.SettleAndPromote | tetris.py:153-155 | the board becomes the cleared, painted board; the next piece is promoted; the game keeps running iff the promoted piece is free |
| Game.TetrisGame.StepDown | tetris.py:148-151 | the live piece is one row lower with one row less to fall, a separate preview piece keeps its pose, one state is emitted, and the invariant holds |
| Game.TetrisGame.MoveDown | tetris.py:147-156 | with fall distance > 0, the piece steps down one row and the distance drops by one, and nothing else changes: board, running flag, both piece objects, and the preview piece's pose when it is a separate piece. Otherwise it settles, rows clear and `next` is promoted: running ends exactly when the promoted piece collides, `next` is replaced only when it does not, and the game-over event comes before the state |
| Game.TetrisGame.Drop | tetris.py:210-224 | the piece lands at its full fall distance, settles and is promoted as in MoveDown; the state message carries the game-over tag exactly when the game is no longer running |
| Game.TetrisGame.HandleMessages | tetris.py:134-145 | an unknown token changes nothing and emits nothing; each of the six tokens has exactly the effect and the emissions of the command it names (the contracts of Slide, Rotate, MoveDown and Drop), and left, right, cw and ccw leave the board, the running flag and both piece objects as they were; an unknown token, left, right, cw, ccw and a one-row down leave the preview piece's pose unchanged when it is a separate piece; every command keeps the invariant |
| Watchers.Discard | tetris.py:294-295 | the observer watches no game afterwards; other observers' memberships and the set of keys are unchanged |
| Watchers.Subscribed | tetris.py:286-288 | the observer watches exactly the chosen game; other observers are unchanged; the keys gain the chosen game |
| Watchers.DiscardKeepsExclusive | tetris.py:294-295 | removal keeps every observer in at most one watcher set |
| Watchers.SubscribedKeepsExclusive | tetris.py:286-288 | subscribing keeps every observer in at most one watcher set |
| Watchers.SubscribedIdempotent | tetris.py:286-288 | subscribing twice to the same game equals subscribing once |
| Watchers.SubscribedOverrides | tetris.py:286-288 | a later subscription replaces an earlier one |
| Watchers.WatchRegistry.constructor | tetris.py:12 | the registry starts empty |
| Watchers.WatchRegistry.Unsubscribe | tetris.py:294-295 | the loop over the watcher sets discards the observer from each, giving exactly Discard |
| Watchers.WatchRegistry.Subscribe | tetris.py:284-289 | an observer is subscribed iff the game id is live, with exactly Subscribed; otherwise nothing changes |

## Left out

- The gravity loop `fall`, `asyncio.sleep`, the `lock`, and task creation and cancellation (tetris.py:34, 53-54, 129-132, 234-235). These are timing and concurrency. `MoveDown` is the step the loop repeats.
- The constructor's own state broadcast (tetris.py:54) is not modelled, because constructors return no messages. Its message is `StateMessage(false)` of the new game.
- Message delivery: `send_to` and the fan-out to watchers (tetris.py:15-29). A command returns the messages it would send instead.
- The ordering of the game-over event. `game_over` schedules it with `create_task` (tetris.py:236), and the model records it at that call, before the state message of the same command.
- `random.randint` (tetris.py:58). The drawn shape id is a parameter.
- `previous_board` (tetris.py:36, 118) is written but never read.
- The contents of `TETS`, `BOARD_WIDTH` and `BOARD_HEIGHT`. They live in the `constants` module, which is not part of this model; `Config.Valid` states what the engine relies on.
- Websocket routing, static pages, `shutdown_ws` and the command line (tetris.py:245-317).
- In the observer handler: parsing the game id with `int`, the `"?"` reply, and the state sent to a new subscriber (tetris.py:280-283, 289).
- Row objects shared between the old and the cleared board in `clear_rows`. Rows are values here. The sharing is harmless because every call is `self.board = self.clear_rows()` (tetris.py:154, 214, 230): once the board is replaced, nothing refers to the old list, so a later in-place write such as tetris.py:229 reaches only the current board.
- Game.TetrisGame.TryWallKicks takes the kick list as a parameter, where the source loops over a list literal; `Rotate` passes `WallKicks`, which is that list.
