/** One game: a board, the falling (live) piece, the preview (next) piece and
    the running flag, with the player's commands. Every command returns the
    messages it emits, in the order it asks for them. */
module Game {
  import opened Shapes
  import opened Board

  /** The five numbers sent for the live piece. */
  datatype LiveData = LiveData(shape: int, orientation: int, x: int, y: int, maxMovesDown: int)

  /** A state snapshot (with the "gameover" event tag when gameOver holds), or
      the bare game-over event. */
  datatype Message =
    | State(live: LiveData, next: int, board: seq<int>, gameOver: bool)
    | GameOverEvent

  datatype Command = Clockwise | CounterClockwise | Left | Right | Down | HardDrop

  /** The token a player sends for each command. */
  function Token(c: Command): string
  {
    match c
    case Clockwise => "cw"
    case CounterClockwise => "ccw"
    case Left => "left"
    case Right => "right"
    case Down => "down"
    case HardDrop => "drop"
  }

  /** The command table: the command a token names, if any. */
  function Lookup(msg: string): Option<Command>
  {
    if msg == "cw" then Some(Clockwise)
    else if msg == "ccw" then Some(CounterClockwise)
    else if msg == "left" then Some(Left)
    else if msg == "right" then Some(Right)
    else if msg == "down" then Some(Down)
    else if msg == "drop" then Some(HardDrop)
    else None
  }

  /** Every command is found under its own token, and only there. */
  lemma LookupToken(msg: string, c: Command)
    ensures Lookup(Token(c)) == Some(c)
    ensures Lookup(msg) == Some(c) ==> msg == Token(c)
    ensures Lookup(msg) == None <==> forall d: Command :: msg != Token(d)
  {
    if Lookup(msg) == None {
      forall d: Command ensures msg != Token(d) {
        match d
        case Clockwise =>
        case CounterClockwise =>
        case Left =>
        case Right =>
        case Down =>
        case HardDrop =>
      }
    } else {
      var d := Lookup(msg).value;
      assert msg == Token(d);
    }
  }

  // ---------------------------------------------------------------------------
  // What the piece commands do to a pose

  /** A horizontal move by dx, reverted when the moved piece collides. */
  function Slid(cfg: Config, b: Grid, p: Pose, dx: int): Pose
    requires Dims(cfg, b) && cfg.PoseOk(p)
  {
    var q := p.(x := p.x + dx);
    if Hits(cfg, b, cfg.Blocks(q)) then p else q
  }

  /** The kick offsets tried after a colliding rotation, in order. */
  const WallKicks: seq<Offset> := [Offset(-1, 0), Offset(1, 0), Offset(-2, 0), Offset(2, 0)]

  function Kicked(q: Pose, k: Offset): Pose
  {
    q.(x := q.x + k.dx, y := q.y + k.dy)
  }

  /** The orientation a rotation aims for, counted modulo the shape's
      orientation count (the divisor is positive, so Python's floored modulo
      and Dafny's agree). */
  function TurnedOrientation(cfg: Config, p: Pose, direction: string): (o: int)
    requires cfg.PoseOk(p)
    ensures cfg.PoseOk(p.(orientation := o))
    ensures var step := if direction == "cw" then 1 else -1;
      exists turns {:trigger FullTurns(turns, |cfg.tets[p.shape - 1]|)} ::
        o == p.orientation + step + FullTurns(turns, |cfg.tets[p.shape - 1]|)
  {
    var n := |cfg.tets[p.shape - 1]|;
    var a := if direction == "cw" then p.orientation + 1 else p.orientation - 1;
    assert a % n == a + FullTurns(-(a / n), n);
    a % n
  }

  /** Proof helper: `turns` whole cycles through n orientations, named so
      that TurnedOrientation's postcondition has a trigger. */
  function FullTurns(turns: int, n: int): int
  {
    turns * n
  }

  /** The row the rotated piece is tested at: lowered just enough that no block
      is above row 0. */
  function NudgedY(cfg: Config, p: Pose): int
    requires cfg.TableOk() && cfg.PoseOk(p)
  {
    NudgedRow(cfg.tets[p.shape - 1][p.orientation], p.x, p.y)
  }

  /** The nudge lowers the piece just enough: afterwards no block is above row
      0, a piece with a block above row 0 ends with its topmost block in row 0,
      and a piece with none is not moved. */
  lemma NudgedYClearsTop(cfg: Config, p: Pose)
    requires cfg.TableOk() && cfg.PoseOk(p)
    ensures var r := NudgedY(cfg, p);
      var top := MinRow(cfg.Blocks(p.(y := r)));
      && r >= p.y
      && top >= 0
      && (MinRow(cfg.Blocks(p)) < 0 ==> top == 0)
      && (MinRow(cfg.Blocks(p)) >= 0 ==> r == p.y)
  {
    var offsets := cfg.tets[p.shape - 1][p.orientation];
    var r := NudgedY(cfg, p);
    NudgedRowClearsTop(offsets, p.x, p.y);
    assert cfg.Blocks(p) == AbsoluteCoordinates(offsets, p.x, p.y);
    assert cfg.Blocks(p.(y := r)) == AbsoluteCoordinates(offsets, p.x, r);
  }

  /** The first kick of `kicks` that frees the piece. */
  function FirstKick(cfg: Config, b: Grid, q: Pose, kicks: seq<Offset>): Option<Pose>
    requires Dims(cfg, b) && cfg.PoseOk(q)
    decreases |kicks|
  {
    if kicks == [] then None
    else if !Hits(cfg, b, cfg.Blocks(Kicked(q, kicks[0]))) then Some(Kicked(q, kicks[0]))
    else FirstKick(cfg, b, q, kicks[1..])
  }

  /** The poses a rotation tries, as offsets from the nudged pose: the nudged
      pose itself, then the wall kicks. */
  const RotationTries: seq<Offset> := [Offset(0, 0)] + WallKicks

  /** The pose after a rotation: the first free one it tries, else the pose it
      started from. */
  function Rotated(cfg: Config, b: Grid, p: Pose, direction: string): Pose
    requires cfg.TableOk() && Dims(cfg, b) && cfg.PoseOk(p)
  {
    var turned := p.(orientation := TurnedOrientation(cfg, p, direction));
    var q := turned.(y := NudgedY(cfg, turned));
    match FirstKick(cfg, b, q, RotationTries)
    case Some(t) => t
    case None => p
  }

  lemma {:induction false} FirstKickFirstFit(cfg: Config, b: Grid, q: Pose, kicks: seq<Offset>)
    requires Dims(cfg, b) && cfg.PoseOk(q)
    ensures match FirstKick(cfg, b, q, kicks)
      case Some(t) =>
        exists i :: 0 <= i < |kicks| && t == Kicked(q, kicks[i]) && !Hits(cfg, b, cfg.Blocks(t))
          && forall j :: 0 <= j < i ==> Hits(cfg, b, cfg.Blocks(Kicked(q, kicks[j])))
      case None => forall j :: 0 <= j < |kicks| ==> Hits(cfg, b, cfg.Blocks(Kicked(q, kicks[j])))
    decreases |kicks|
  {
    if kicks != [] && Hits(cfg, b, cfg.Blocks(Kicked(q, kicks[0]))) {
      FirstKickFirstFit(cfg, b, q, kicks[1..]);
      match FirstKick(cfg, b, q, kicks[1..])
      case Some(t) =>
        var i :| 0 <= i < |kicks[1..]| && t == Kicked(q, kicks[1..][i]) && !Hits(cfg, b, cfg.Blocks(t))
          && forall j :: 0 <= j < i ==> Hits(cfg, b, cfg.Blocks(Kicked(q, kicks[1..][j])));
        assert t == Kicked(q, kicks[i + 1]);
        assert forall j :: 0 <= j < i + 1 ==> Hits(cfg, b, cfg.Blocks(Kicked(q, kicks[j]))) by {
          forall j | 0 <= j < i + 1 ensures Hits(cfg, b, cfg.Blocks(Kicked(q, kicks[j]))) {
            if j > 0 { assert kicks[j] == kicks[1..][j - 1]; }
          }
        }
      case None =>
        forall j | 0 <= j < |kicks| ensures Hits(cfg, b, cfg.Blocks(Kicked(q, kicks[j]))) {
          if j > 0 { assert kicks[j] == kicks[1..][j - 1]; }
        }
    }
  }

  /** A rotation commits the first free pose among x-offsets 0, -1, +1, -2, +2
      from the nudged pose (target orientation, row raised to the board top),
      or, if all five collide, leaves the pose as it was. */
  lemma RotatedFirstFit(cfg: Config, b: Grid, p: Pose, direction: string)
    requires cfg.TableOk() && Dims(cfg, b) && cfg.PoseOk(p)
    ensures var turned := p.(orientation := TurnedOrientation(cfg, p, direction));
      var q := turned.(y := NudgedY(cfg, turned));
      var r := Rotated(cfg, b, p, direction);
      || (exists i :: 0 <= i < |RotationTries| && r == Kicked(q, RotationTries[i]) && !Hits(cfg, b, cfg.Blocks(r))
            && forall j :: 0 <= j < i ==> Hits(cfg, b, cfg.Blocks(Kicked(q, RotationTries[j]))))
      || (r == p && forall j :: 0 <= j < |RotationTries| ==> Hits(cfg, b, cfg.Blocks(Kicked(q, RotationTries[j]))))
  {
    var turned := p.(orientation := TurnedOrientation(cfg, p, direction));
    var q := turned.(y := NudgedY(cfg, turned));
    FirstKickFirstFit(cfg, b, q, RotationTries);
  }

  /** A rotation never moves a free piece onto a colliding pose; the pose it
      keeps is either free or the unchanged starting pose. */
  lemma RotatedKeepsFree(cfg: Config, b: Grid, p: Pose, direction: string)
    requires cfg.TableOk() && Dims(cfg, b) && cfg.PoseOk(p)
    ensures cfg.PoseOk(Rotated(cfg, b, p, direction))
    ensures Rotated(cfg, b, p, direction) == p || !Hits(cfg, b, cfg.Blocks(Rotated(cfg, b, p, direction)))
    ensures !Hits(cfg, b, cfg.Blocks(p)) ==> !Hits(cfg, b, cfg.Blocks(Rotated(cfg, b, p, direction)))
  {
    RotatedFirstFit(cfg, b, p, direction);
  }

  /** A horizontal move by one column moves the piece by exactly dx when the
      moved piece is free, and otherwise leaves it where it was; it never
      makes a free piece collide. */
  lemma SlidOutcome(cfg: Config, b: Grid, p: Pose, dx: int)
    requires Dims(cfg, b) && cfg.PoseOk(p) && (dx == -1 || dx == 1)
    ensures var r := Slid(cfg, b, p, dx);
      && (r != p <==> !Hits(cfg, b, cfg.Blocks(p.(x := p.x + dx))))
      && (r != p ==> r == p.(x := p.x + dx))
      && (!Hits(cfg, b, cfg.Blocks(p)) ==> !Hits(cfg, b, cfg.Blocks(r)))
  {
    assert p.(x := p.x + dx) != p;
  }

  // ---------------------------------------------------------------------------
  // The state the engine mutates

  /** A piece record; the live and next pieces are two of these, and after a
      game over they are the same one. */
  class Piece {
    var shape: int
    var orientation: int
    var x: int
    var y: int
    var maxMovesDown: int

    /** The preview piece carries no fall distance until it is promoted, so
        it is created with 0. */
    constructor (shape: int, orientation: int, x: int, y: int, maxMovesDown: int)
      ensures this.shape == shape && this.orientation == orientation
      ensures this.x == x && this.y == y && this.maxMovesDown == maxMovesDown
    {
      this.shape := shape;
      this.orientation := orientation;
      this.x := x;
      this.y := y;
      this.maxMovesDown := maxMovesDown;
    }

    function CurrentPose(): Pose
      reads this
    {
      Pose(shape, orientation, x, y)
    }
  }

  class TetrisGame {
    const cfg: Config
    var board: Grid
    var live: Piece
    var next: Piece
    var running: bool

    /** The game invariant without the fall distance: both pieces are on the
        board; in a running game they are two objects and the live piece does
        not overlap the settled cells; a separate preview piece still sits at
        its spawn pose (only a game over makes the two one object). */
    ghost predicate PiecesOk()
      reads this, live, next
    {
      && cfg.Valid()
      && Dims(cfg, board) && CellsOk(cfg, board)
      && cfg.PoseOk(live.CurrentPose()) && cfg.OnBoard(cfg.Blocks(live.CurrentPose()))
      && (next != live ==> cfg.PoseOk(next.CurrentPose()) && cfg.OnBoard(cfg.Blocks(next.CurrentPose())))
      && (running ==> !Hits(cfg, board, cfg.Blocks(live.CurrentPose())))
      && (running ==> live != next)
      && (next != live ==> next.CurrentPose() == cfg.SpawnPose(next.shape))
    }

    /** The game invariant: PiecesOk, and the live piece's fall distance is exact. */
    ghost predicate Valid()
      reads this, live, next
    {
      PiecesOk() && live.maxMovesDown == MaxDrop(cfg, board, live.CurrentPose())
    }

    /** The snapshot of the current state. */
    function StateMessage(gameOver: bool): Message
      reads this, live, next
    {
      State(LiveData(live.shape, live.orientation, live.x, live.y, live.maxMovesDown),
            next.shape, EncodedBoard(board), gameOver)
    }

    /** The live piece overlaps the settled cells: after a promotion, the
        game-over condition. */
    predicate LiveBlocked()
      requires PiecesOk()
      reads this, live, next
    {
      Hits(cfg, board, cfg.Blocks(live.CurrentPose()))
    }

    /** The effect of a one-column slide by dx: the move is kept only when it
        is free, and then the fall distance is recomputed and one state sent;
        otherwise the piece is restored and nothing is sent. */
    twostate predicate SlidBy(dx: int, sent: seq<Message>)
      requires old(Valid()) && Valid()
      reads this, live, next
    {
      && live.CurrentPose() == Slid(cfg, board, old(live.CurrentPose()), dx)
      && var moved := old(live.CurrentPose()).(x := old(live.x) + dx);
        if Hits(cfg, board, cfg.Blocks(moved))
        then live.maxMovesDown == old(live.maxMovesDown) && sent == []
        else live.maxMovesDown == MaxDrop(cfg, board, moved) && sent == [StateMessage(false)]
    }

    /** The effect of a rotation: the pose becomes the rotated pose and one
        state is sent. */
    twostate predicate RotatedBy(direction: string, sent: seq<Message>)
      requires old(Valid()) && Valid()
      reads this, live, next
    {
      live.CurrentPose() == Rotated(cfg, board, old(live.CurrentPose()), direction) && sent == [StateMessage(false)]
    }

    /** The effect of settling the live piece at `landed`: the shape id is
        written into its blocks and full rows are cleared, the preview piece
        becomes the live piece, the game stops exactly when that piece
        overlaps the board, and otherwise a fresh preview piece of shape
        `nextShape` appears at its spawn pose. */
    twostate predicate SettledAt(landed: Pose, nextShape: int)
      requires old(Valid()) && Valid() && cfg.IsShape(nextShape)
      reads this, live, next
    {
      && cfg.PoseOk(landed) && cfg.OnBoard(cfg.Blocks(landed)) && InGrid(old(board), cfg.Blocks(landed))
      && board == Cleared(cfg, Paint(old(board), cfg.Blocks(landed), old(live.shape)))
      && live == old(next)
      && (running <==> old(running) && !LiveBlocked())
      && (if LiveBlocked() then next == old(next)
          else fresh(next) && next.CurrentPose() == cfg.SpawnPose(nextShape))
    }

    /** The effect of a one-row step: the live piece is one row lower with one
        row less to fall, a separate preview piece keeps its pose, and one
        state is sent. */
    twostate predicate SteppedDown(sent: seq<Message>)
      reads this, live, next
    {
      && live.CurrentPose() == Lowered(old(live.CurrentPose()), 1)
      && live.maxMovesDown == old(live.maxMovesDown) - 1
      && (old(next) != old(live) ==> next.CurrentPose() == old(next.CurrentPose()))
      && sent == [StateMessage(false)]
    }

    /** The effect of a move down: with fall distance left, one row down and
        nothing else changes; otherwise the piece settles where it is, and
        the game-over event, if any, comes before the state. */
    twostate predicate MovedDown(nextShape: int, sent: seq<Message>)
      requires old(Valid()) && Valid() && cfg.IsShape(nextShape)
      reads this, live, next
    {
      if old(live.maxMovesDown) > 0 then
        && live == old(live) && next == old(next) && board == old(board) && running == old(running)
        && SteppedDown(sent)
      else
        && SettledAt(old(live.CurrentPose()), nextShape)
        && live.CurrentPose() == old(next.CurrentPose())
        && sent == (if LiveBlocked() then [GameOverEvent, StateMessage(false)] else [StateMessage(false)])
    }

    /** The effect of a hard drop: the piece settles at its whole fall
        distance, and the state carries the game-over tag exactly when the
        game is no longer running. */
    twostate predicate Dropped(nextShape: int, sent: seq<Message>)
      requires old(Valid()) && Valid() && cfg.IsShape(nextShape)
      reads this, live, next
    {
      var landed := Lowered(old(live.CurrentPose()), old(live.maxMovesDown));
      && SettledAt(landed, nextShape)
      && live.CurrentPose() == (if old(next) == old(live) then landed else old(next.CurrentPose()))
      && sent == (if LiveBlocked() then [GameOverEvent, StateMessage(true)] else [StateMessage(!running)])
    }

    /** A new game on an empty board; the two shape ids stand for the random
        draws. Its one-shot initial state message is StateMessage(false). */
    constructor (cfg: Config, firstShape: int, secondShape: int)
      requires cfg.Valid() && cfg.IsShape(firstShape) && cfg.IsShape(secondShape)
      ensures Valid() && running && this.cfg == cfg
      ensures board == Padding(cfg.height, cfg.width)
      ensures live.CurrentPose() == cfg.SpawnPose(firstShape)
      ensures next.CurrentPose() == cfg.SpawnPose(secondShape)
      ensures fresh(live) && fresh(next) && live != next
    {
      this.cfg := cfg;
      board := Padding(cfg.height, cfg.width);
      var first := cfg.SpawnPose(firstShape);
      live := new Piece(first.shape, first.orientation, first.x, first.y, 0);
      var second := cfg.SpawnPose(secondShape);
      next := new Piece(second.shape, second.orientation, second.x, second.y, 0);
      running := true;
      new;
      var maxDown := MaxMovesDown(first.shape, first.orientation, first.x, first.y);
      live.maxMovesDown := maxDown;
      assert cfg.SpawnFits(firstShape) && cfg.SpawnFits(secondShape);
      EmptyBoardHits(cfg, cfg.Blocks(live.CurrentPose()));
    }

    /** Whether the blocks leave the board or overlap a settled cell. */
    method Collides(blocks: seq<Cell>) returns (c: bool)
      requires Dims(cfg, board)
      ensures c == Hits(cfg, board, blocks)
    {
      var i := 0;
      while i < |blocks|
        invariant 0 <= i <= |blocks|
        invariant forall j :: 0 <= j < i ==> !Blocked(cfg, board, blocks[j])
      {
        var block := blocks[i];
        if block.x < 0 || block.x >= cfg.width || block.y < 0 || block.y >= cfg.height {
          return true;
        }
        if board[block.y][block.x] != 0 {
          return true;
        }
        i := i + 1;
      }
      return false;
    }

    /** How far the piece in the given pose can fall. */
    method MaxMovesDown(shape: int, orientation: int, x: int, y: int) returns (d: int)
      requires cfg.height >= 1 && Dims(cfg, board) && cfg.PoseOk(Pose(shape, orientation, x, y))
      ensures d == MaxDrop(cfg, board, Pose(shape, orientation, x, y))
      ensures IsMaxDrop(cfg, board, Pose(shape, orientation, x, y), d)
    {
      ghost var p := Pose(shape, orientation, x, y);
      MaxDropExact(cfg, board, p);
      var relativeBlocks := cfg.tets[shape - 1][orientation];
      var distance := 1;
      while distance < cfg.height
        invariant 1 <= distance <= cfg.height
        invariant MaxDrop(cfg, board, p) == ProbeFrom(cfg, board, p, distance)
      {
        var testBlocks := AbsoluteCoordinates(relativeBlocks, x, y + distance);
        assert testBlocks == cfg.Blocks(Lowered(p, distance));
        var hit := Collides(testBlocks);
        if hit {
          return distance - 1;
        }
        distance := distance + 1;
      }
      return cfg.height - 1;
    }

    /** The board's wire form: one base-8 number per row, top row first. */
    method EncodeBoard() returns (encoded: seq<int>)
      requires cfg.TableOk() && CellsOk(cfg, board)
      ensures encoded == EncodedBoard(board)
    {
      encoded := [];
      var r := 0;
      while r < |board|
        invariant 0 <= r <= |board|
        invariant encoded == EncodedBoard(board[..r])
      {
        var row := board[r];
        var val: nat := 0;
        var c := 0;
        while c < |row|
          invariant 0 <= c <= |row|
          invariant val == EncodeRow(row[..c])
        {
          var cell := row[c];
          ShiftOr3(val, cell);
          val := BitOr(val * 8, cell);
          assert row[..c + 1][..c] == row[..c];
          c := c + 1;
        }
        assert row[..c] == row;
        assert board[..r + 1][..r] == board[..r];
        encoded := encoded + [val];
        r := r + 1;
      }
      assert board[..r] == board;
    }

    /** The board with its full rows removed and empty rows added on top. */
    method ClearRows() returns (newBoard: Grid)
      ensures newBoard == Cleared(cfg, board)
    {
      var survivors := Survivors(board);
      newBoard := survivors;
      while |newBoard| < cfg.height
        invariant |survivors| <= |newBoard|
        invariant |survivors| < cfg.height ==> |newBoard| <= cfg.height
        invariant newBoard == Padding(|newBoard| - |survivors|, cfg.width) + survivors
        invariant |survivors| >= cfg.height ==> newBoard == survivors
        decreases cfg.height - |newBoard|
      {
        assert [EmptyRow(cfg.width)] + Padding(|newBoard| - |survivors|, cfg.width)
            == Padding(|newBoard| + 1 - |survivors|, cfg.width);
        newBoard := [EmptyRow(cfg.width)] + newBoard;
      }
    }

    /** Writes the live shape id into the live piece's cells, then clears rows. */
    method PlaceOnBoard()
      requires cfg.Valid() && Dims(cfg, board) && CellsOk(cfg, board)
      requires cfg.PoseOk(live.CurrentPose()) && cfg.OnBoard(cfg.Blocks(live.CurrentPose()))
      modifies this`board
      ensures board == Cleared(cfg, Paint(old(board), cfg.Blocks(live.CurrentPose()), live.shape))
      ensures Dims(cfg, board) && CellsOk(cfg, board)
    {
      var coords := AbsoluteCoordinates(cfg.tets[live.shape - 1][live.orientation], live.x, live.y);
      assert coords == cfg.Blocks(live.CurrentPose());
      var i := 0;
      while i < |coords|
        invariant 0 <= i <= |coords|
        invariant InGrid(old(board), coords[..i])
        invariant board == Paint(old(board), coords[..i], live.shape)
      {
        var c := coords[i];
        assert coords[..i + 1][..i] == coords[..i];
        board := board[c.y := board[c.y][c.x := live.shape]];
        i := i + 1;
      }
      assert coords[..i] == coords;
      PaintKeepsBoard(cfg, old(board), coords, live.shape);
      ClearedKeepsBoard(cfg, board);
      board := ClearRows();
    }

    method GameOver() returns (sent: seq<Message>)
      modifies this`running
      ensures !running && sent == [GameOverEvent]
    {
      running := false;
      sent := [GameOverEvent];
    }

    /** Promotes the preview piece to live, computes its fall distance, and
        either ends the game (the promoted piece collides) or draws a new
        preview piece of shape nextShape. */
    method CreateLiveTetromino(nextShape: int) returns (sent: seq<Message>)
      requires cfg.Valid() && cfg.IsShape(nextShape) && Dims(cfg, board)
      requires cfg.PoseOk(next.CurrentPose())
      modifies this, next
      ensures board == old(board)
      ensures live == old(next) && live.CurrentPose() == old(next.CurrentPose())
      ensures live.maxMovesDown == MaxDrop(cfg, board, live.CurrentPose())
      ensures Hits(cfg, board, cfg.Blocks(live.CurrentPose())) ==>
        !running && next == old(next) && sent == [GameOverEvent]
      ensures !Hits(cfg, board, cfg.Blocks(live.CurrentPose())) ==>
        running == old(running) && fresh(next) && next.CurrentPose() == cfg.SpawnPose(nextShape) && sent == []
    {
      live := next;
      var d := MaxMovesDown(live.shape, live.orientation, live.x, live.y);
      live.maxMovesDown := d;
      var hit := Collides(AbsoluteCoordinates(cfg.tets[live.shape - 1][live.orientation], live.x, live.y));
      if hit {
        sent := GameOver();
        return;
      }
      var p := cfg.SpawnPose(nextShape);
      next := new Piece(p.shape, p.orientation, p.x, p.y, 0);
      sent := [];
    }

    /** The state message, with the board encoded. */
    method SendState() returns (m: Message)
      requires cfg.TableOk() && CellsOk(cfg, board)
      ensures m == StateMessage(false)
    {
      var encoded := EncodeBoard();
      m := State(LiveData(live.shape, live.orientation, live.x, live.y, live.maxMovesDown),
                 next.shape, encoded, false);
    }

    /** The common tail of a successful move and of every rotation:
        recompute the live piece's fall distance and emit the state. */
    method RecomputeAndSend() returns (sent: seq<Message>)
      requires PiecesOk()
      modifies live
      ensures Valid()
      ensures live.CurrentPose() == old(live.CurrentPose())
      ensures sent == [StateMessage(false)]
    {
      live.maxMovesDown := MaxMovesDown(live.shape, live.orientation, live.x, live.y);
      var m := SendState();
      sent := [m];
    }

    /** Shared by the left and right commands. */
    method Slide(dx: int) returns (sent: seq<Message>)
      requires Valid() && (dx == -1 || dx == 1)
      modifies live
      ensures Valid()
      ensures SlidBy(dx, sent)
    {
      live.x := live.x + dx;
      var newCoords := AbsoluteCoordinates(cfg.tets[live.shape - 1][live.orientation], live.x, live.y);
      var hit := Collides(newCoords);
      if hit {
        live.x := live.x - dx;
        assert live.CurrentPose() == old(live.CurrentPose());
        return [];
      }
      FreeIsOnBoard(cfg, board, newCoords);
      sent := RecomputeAndSend();
    }

    method MoveLeft() returns (sent: seq<Message>)
      requires Valid()
      modifies live
      ensures Valid()
      ensures SlidBy(-1, sent)
    {
      sent := Slide(-1);
    }

    method MoveRight() returns (sent: seq<Message>)
      requires Valid()
      modifies live
      ensures Valid()
      ensures SlidBy(1, sent)
    {
      sent := Slide(1);
    }

    /** The wall-kick loop of a rotation whose nudged pose collides: commits
        the first free kick in `kicks` from (orientation, live.x, adjustedY), if any. */
    method TryWallKicks(orientation: int, adjustedY: int, kicks: seq<Offset>)
      requires Dims(cfg, board) && cfg.PoseOk(live.CurrentPose())
      requires cfg.PoseOk(live.CurrentPose().(orientation := orientation))
      modifies live
      ensures live.maxMovesDown == old(live.maxMovesDown)
      ensures var q := old(live.CurrentPose()).(orientation := orientation, y := adjustedY);
        live.CurrentPose() == match FirstKick(cfg, board, q, kicks)
          case Some(t) => t
          case None => old(live.CurrentPose())
    {
      ghost var q := live.CurrentPose().(orientation := orientation, y := adjustedY);
      ghost var outcome := FirstKick(cfg, board, q, kicks);
      var i := 0;
      while i < |kicks|
        invariant 0 <= i <= |kicks|
        invariant live.CurrentPose() == old(live.CurrentPose())
        invariant live.maxMovesDown == old(live.maxMovesDown)
        invariant outcome == FirstKick(cfg, board, q, kicks[i..])
      {
        var kick := kicks[i];
        var movedX := live.x + kick.dx;
        var movedY := adjustedY + kick.dy;
        var testCoords := AbsoluteCoordinates(cfg.tets[live.shape - 1][orientation], movedX, movedY);
        assert testCoords == cfg.Blocks(Kicked(q, kick));
        var blocked := Collides(testCoords);
        if !blocked {
          live.x := movedX;
          live.y := movedY;
          live.orientation := orientation;
          return;
        }
        assert kicks[i..][1..] == kicks[i + 1..];
        i := i + 1;
      }
    }

    /** The orientation a rotation aims for and the row it is tested at. */
    method RotationTarget(direction: string) returns (newOrientation: int, adjustedY: int)
      requires cfg.TableOk() && cfg.PoseOk(live.CurrentPose())
      ensures newOrientation == TurnedOrientation(cfg, live.CurrentPose(), direction)
      ensures adjustedY == NudgedY(cfg, live.CurrentPose().(orientation := newOrientation))
    {
      var n := |cfg.tets[live.shape - 1]|;
      if direction == "cw" {
        newOrientation := (live.orientation + 1) % n;
      } else {
        newOrientation := (live.orientation - 1) % n;
      }
      var newCoords := AbsoluteCoordinates(cfg.tets[live.shape - 1][newOrientation], live.x, live.y);
      var minY := MinRow(newCoords);
      adjustedY := live.y;
      if minY < 0 {
        var shiftY := -minY;
        adjustedY := adjustedY + shiftY;
      }
    }

    /** Turns the live piece, nudging it below the board top and trying wall
        kicks; always recomputes the fall distance and emits. */
    method Rotate(direction: string) returns (sent: seq<Message>)
      requires Valid()
      modifies live
      ensures Valid()
      ensures RotatedBy(direction, sent)
    {
      ghost var p := live.CurrentPose();
      var newOrientation, adjustedY := RotationTarget(direction);
      ghost var q := p.(orientation := newOrientation, y := adjustedY);
      var newCoords := AbsoluteCoordinates(cfg.tets[live.shape - 1][newOrientation], live.x, adjustedY);
      assert newCoords == cfg.Blocks(q);
      var hit := Collides(newCoords);
      if hit {
        TryWallKicks(newOrientation, adjustedY, WallKicks);
      } else {
        live.orientation := newOrientation;
        live.y := adjustedY;
      }
      assert Kicked(q, RotationTries[0]) == q && RotationTries[1..] == WallKicks;
      ghost var r := live.CurrentPose();
      assert r == Rotated(cfg, board, p, direction);
      RotatedKeepsFree(cfg, board, p, direction);
      if r != p {
        FreeIsOnBoard(cfg, board, cfg.Blocks(r));
      }
      sent := RecomputeAndSend();
    }

    /** The settle half of a move down or a drop: place_on_board followed by
        the caller's own second clear_rows, then the promotion of the preview
        piece. Returns the game-over event if the promotion ended the game. */
    method SettleAndPromote(nextShape: int) returns (promoted: seq<Message>)
      requires cfg.Valid() && cfg.IsShape(nextShape) && Dims(cfg, board) && CellsOk(cfg, board)
      requires cfg.PoseOk(live.CurrentPose()) && cfg.OnBoard(cfg.Blocks(live.CurrentPose()))
      requires cfg.PoseOk(next.CurrentPose()) && cfg.OnBoard(cfg.Blocks(next.CurrentPose()))
      modifies this, next
      ensures Valid()
      ensures board == Cleared(cfg, Paint(old(board), cfg.Blocks(old(live.CurrentPose())), old(live.shape)))
      ensures live == old(next) && live.CurrentPose() == old(next.CurrentPose())
      ensures running <==> old(running) && !Hits(cfg, board, cfg.Blocks(live.CurrentPose()))
      ensures if Hits(cfg, board, cfg.Blocks(live.CurrentPose()))
        then next == old(next) && promoted == [GameOverEvent]
        else fresh(next) && next.CurrentPose() == cfg.SpawnPose(nextShape) && promoted == []
    {
      ghost var painted := Paint(board, cfg.Blocks(live.CurrentPose()), live.shape);
      PlaceOnBoard();
      board := ClearRows();
      ClearedIdempotent(cfg, painted);
      promoted := CreateLiveTetromino(nextShape);
      assert cfg.SpawnFits(nextShape);
    }

    /** The step half of a move down: the live piece falls one row. */
    method StepDown() returns (sent: seq<Message>)
      requires Valid() && live.maxMovesDown > 0
      modifies live
      ensures Valid()
      ensures SteppedDown(sent)
    {
      MaxDropStep(cfg, board, live.CurrentPose());
      live.y := live.y + 1;
      live.maxMovesDown := live.maxMovesDown - 1;
      FreeIsOnBoard(cfg, board, cfg.Blocks(live.CurrentPose()));
      var m := SendState();
      sent := [m];
    }

    /** One step down, or, for a piece at rest, settle it, clear rows and
        promote the preview piece. */
    method MoveDown(nextShape: int) returns (sent: seq<Message>)
      requires Valid() && cfg.IsShape(nextShape)
      modifies this, live, next
      ensures Valid()
      ensures MovedDown(nextShape, sent)
    {
      if live.maxMovesDown > 0 {
        sent := StepDown();
      } else {
        ghost var p := live.CurrentPose();
        OnBoardInGrid(cfg, board, cfg.Blocks(p));
        var promoted := SettleAndPromote(nextShape);
        var m := SendState();
        sent := promoted + [m];
        assert SettledAt(p, nextShape);
      }
    }

    /** Drops the live piece by its whole fall distance, settles it and
        promotes the preview piece; the message is tagged "gameover" whenever
        the game is no longer running. */
    method Drop(nextShape: int) returns (sent: seq<Message>)
      requires Valid() && cfg.IsShape(nextShape)
      modifies this, live, next
      ensures Valid()
      ensures Dropped(nextShape, sent)
    {
      ghost var landed := Lowered(live.CurrentPose(), live.maxMovesDown);
      MaxDropLanding(cfg, board, live.CurrentPose());
      OnBoardInGrid(cfg, board, cfg.Blocks(landed));
      live.y := live.y + live.maxMovesDown;
      live.maxMovesDown := 0;
      assert live.CurrentPose() == landed;
      assert next.CurrentPose() == if next == live then landed else old(next.CurrentPose());
      var promoted := SettleAndPromote(nextShape);
      var m;
      if !running {
        var encoded := EncodeBoard();
        m := State(LiveData(live.shape, live.orientation, live.x, live.y, live.maxMovesDown),
                   next.shape, encoded, true);
      } else {
        m := SendState();
      }
      sent := promoted + [m];
      assert SettledAt(landed, nextShape);
    }

    /** Runs the command a token names; any other token is ignored. */
    method HandleMessages(msg: string, nextShape: int) returns (sent: seq<Message>)
      requires Valid() && cfg.IsShape(nextShape)
      modifies this, live, next
      ensures Valid()
      ensures Lookup(msg) == None ==>
        sent == [] && board == old(board) && live == old(live) && next == old(next)
        && running == old(running) && live.CurrentPose() == old(live.CurrentPose())
        && live.maxMovesDown == old(live.maxMovesDown)
      ensures var keepsNext :=
          Lookup(msg) in {None, Some(Left), Some(Right), Some(Clockwise), Some(CounterClockwise)}
          || (Lookup(msg) == Some(Down) && old(live.maxMovesDown) > 0);
        old(next) != old(live) && keepsNext ==> next.CurrentPose() == old(next.CurrentPose())
      ensures Lookup(msg) in {Some(Left), Some(Right), Some(Clockwise), Some(CounterClockwise)} ==>
        board == old(board) && live == old(live) && next == old(next) && running == old(running)
      ensures Lookup(msg) == Some(Left) ==> SlidBy(-1, sent)
      ensures Lookup(msg) == Some(Right) ==> SlidBy(1, sent)
      ensures Lookup(msg) == Some(Clockwise) ==> RotatedBy("cw", sent)
      ensures Lookup(msg) == Some(CounterClockwise) ==> RotatedBy("ccw", sent)
      ensures Lookup(msg) == Some(Down) ==> MovedDown(nextShape, sent)
      ensures Lookup(msg) == Some(HardDrop) ==> Dropped(nextShape, sent)
    {
      match Lookup(msg)
      case Some(Clockwise) => sent := Rotate("cw");
      case Some(CounterClockwise) => sent := Rotate("ccw");
      case Some(Left) => sent := MoveLeft();
      case Some(Right) => sent := MoveRight();
      case Some(Down) => sent := MoveDown(nextShape);
      case Some(HardDrop) => sent := Drop(nextShape);
      case None => sent := [];
    }
  }
}
