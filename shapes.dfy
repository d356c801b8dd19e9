/** Piece geometry: the shape table, piece poses and their block coordinates. */
module Shapes {

  datatype Option<T> = None | Some(value: T)

  /** Offset of one block from a piece's reference point. */
  datatype Offset = Offset(dx: int, dy: int)

  /** An absolute board position: column x, row y (row 0 is the top row). */
  datatype Cell = Cell(x: int, y: int)

  /** Where a piece is: its 1-based shape id, orientation index and reference point. */
  datatype Pose = Pose(shape: int, orientation: int, x: int, y: int)

  /** Column of the reference point of every freshly spawned piece. */
  const SpawnColumn: int := 4

  function Abs(n: int): nat { if n < 0 then -n else n }

  /** The blocks of a piece whose offsets are `offsets` and whose reference point is (x, y). */
  function AbsoluteCoordinates(offsets: seq<Offset>, x: int, y: int): seq<Cell>
  {
    seq(|offsets|, i requires 0 <= i < |offsets| => Cell(offsets[i].dx + x, offsets[i].dy + y))
  }

  /** Every cell moved by (dx, dy). */
  function Translate(cells: seq<Cell>, dx: int, dy: int): seq<Cell>
  {
    seq(|cells|, i requires 0 <= i < |cells| => Cell(cells[i].x + dx, cells[i].y + dy))
  }

  /** Moving the reference point moves every block rigidly with it. */
  lemma AbsoluteCoordinatesMove(offsets: seq<Offset>, x: int, y: int, dx: int, dy: int)
    ensures AbsoluteCoordinates(offsets, x + dx, y + dy) == Translate(AbsoluteCoordinates(offsets, x, y), dx, dy)
  {
  }

  /** The smallest row among `cells`. */
  function MinRow(cells: seq<Cell>): (m: int)
    requires |cells| > 0
    ensures forall i :: 0 <= i < |cells| ==> m <= cells[i].y
    ensures exists i :: 0 <= i < |cells| && cells[i].y == m
    decreases |cells|
  {
    if |cells| == 1 then cells[0].y
    else
      var rest := MinRow(cells[1..]);
      assert exists j :: 1 <= j < |cells| && cells[j].y == rest by {
        var k :| 0 <= k < |cells[1..]| && cells[1..][k].y == rest;
        assert cells[k + 1].y == rest;
      }
      if cells[0].y <= rest then cells[0].y else rest
  }

  /** The spawn reference point of a piece whose offsets are `offsets`: the fixed
      spawn column, and the absolute value of the smallest block row the piece
      would have with its reference point in row 0. */
  function InitialCoordinate(offsets: seq<Offset>): Cell
    requires |offsets| > 0
  {
    var absolute := AbsoluteCoordinates(offsets, SpawnColumn, 0);
    var minY := Abs(MinRow(absolute));
    Cell(SpawnColumn, minY)
  }

  /** At the spawn point the topmost block lands in row |m| + m, where m is the
      smallest row offset: row 0 whenever some block lies at or above the
      reference point, and never above the board. */
  lemma {:induction false} SpawnTopRow(offsets: seq<Offset>)
    requires |offsets| > 0
    ensures var m := MinRow(AbsoluteCoordinates(offsets, SpawnColumn, 0));
            var c := InitialCoordinate(offsets);
            && c.x == SpawnColumn
            && MinRow(AbsoluteCoordinates(offsets, c.x, c.y)) == Abs(m) + m
            && MinRow(AbsoluteCoordinates(offsets, c.x, c.y)) >= 0
            && (m <= 0 ==> MinRow(AbsoluteCoordinates(offsets, c.x, c.y)) == 0)
  {
    var base := AbsoluteCoordinates(offsets, SpawnColumn, 0);
    var m := MinRow(base);
    var c := InitialCoordinate(offsets);
    var spawned := AbsoluteCoordinates(offsets, c.x, c.y);
    var top := MinRow(spawned);
    assert forall i :: 0 <= i < |offsets| ==> spawned[i].y == base[i].y + Abs(m);
    var j :| 0 <= j < |base| && base[j].y == m;
    assert top <= spawned[j].y == m + Abs(m);
    var k :| 0 <= k < |spawned| && spawned[k].y == top;
    assert m <= base[k].y == top - Abs(m);
  }

  /** Moving the reference point down by dy moves the topmost block down by dy. */
  lemma MinRowLowered(offsets: seq<Offset>, x: int, y: int, dy: int)
    requires |offsets| > 0
    ensures MinRow(AbsoluteCoordinates(offsets, x, y + dy)) == MinRow(AbsoluteCoordinates(offsets, x, y)) + dy
  {
    var base := AbsoluteCoordinates(offsets, x, y);
    var moved := AbsoluteCoordinates(offsets, x, y + dy);
    var m := MinRow(base);
    var top := MinRow(moved);
    var j :| 0 <= j < |base| && base[j].y == m;
    assert top <= moved[j].y == m + dy;
    var k :| 0 <= k < |moved| && moved[k].y == top;
    assert m <= base[k].y == top - dy;
  }

  /** The reference row that lowers blocks `offsets` at (x, y) just enough
      that none is above row 0. */
  function NudgedRow(offsets: seq<Offset>, x: int, y: int): int
    requires |offsets| > 0
  {
    var m := MinRow(AbsoluteCoordinates(offsets, x, y));
    if m < 0 then y + -m else y
  }

  /** The nudge never raises the blocks; afterwards none is above row 0;
      blocks that had one above row 0 end with their topmost in row 0; any
      others are not moved. */
  lemma NudgedRowClearsTop(offsets: seq<Offset>, x: int, y: int)
    requires |offsets| > 0
    ensures var r := NudgedRow(offsets, x, y);
      var m := MinRow(AbsoluteCoordinates(offsets, x, y));
      var top := MinRow(AbsoluteCoordinates(offsets, x, r));
      && r >= y
      && top >= 0
      && (m < 0 ==> top == 0)
      && (m >= 0 ==> r == y)
  {
    var m := MinRow(AbsoluteCoordinates(offsets, x, y));
    var r := NudgedRow(offsets, x, y);
    if m < 0 {
      assert r == y + -m;
      MinRowLowered(offsets, x, y, -m);
      assert MinRow(AbsoluteCoordinates(offsets, x, r)) == 0;
    } else {
      assert r == y;
    }
  }

  /** The read-only configuration the engine runs with: the shape table
      (shape, then orientation, then block offsets) and the board size. */
  datatype Config = Config(tets: seq<seq<seq<Offset>>>, width: nat, height: nat) {

    predicate IsShape(s: int) { 1 <= s <= |tets| }

    /** At most seven shapes, so a cell fits in three bits; every shape has an
        orientation and every orientation a block. */
    predicate TableOk()
    {
      1 <= |tets| <= 7 &&
      forall i :: 0 <= i < |tets| ==>
        |tets[i]| >= 1 && forall o :: 0 <= o < |tets[i]| ==> |tets[i][o]| >= 1
    }

    predicate PoseOk(p: Pose)
    {
      IsShape(p.shape) && 0 <= p.orientation < |tets[p.shape - 1]|
    }

    /** The absolute blocks of a piece in pose `p`. */
    function Blocks(p: Pose): seq<Cell>
      requires PoseOk(p)
    {
      AbsoluteCoordinates(tets[p.shape - 1][p.orientation], p.x, p.y)
    }

    predicate OnBoard(cells: seq<Cell>)
    {
      forall i :: 0 <= i < |cells| ==> 0 <= cells[i].x < width && 0 <= cells[i].y < height
    }

    /** A fresh piece of shape `s`: orientation 0 at its initial coordinate. */
    function SpawnPose(s: int): (p: Pose)
      requires TableOk() && IsShape(s)
      ensures PoseOk(p) && p.shape == s && p.orientation == 0
    {
      var c := InitialCoordinate(tets[s - 1][0]);
      Pose(s, 0, c.x, c.y)
    }

    predicate SpawnFits(s: int)
      requires TableOk() && IsShape(s)
    {
      OnBoard(Blocks(SpawnPose(s)))
    }

    /** What the engine assumes of its unseen constants. */
    predicate Valid()
    {
      TableOk() && width >= 1 && height >= 1 &&
      forall s :: 1 <= s <= |tets| ==> SpawnFits(s)
    }
  }
}
