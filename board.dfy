/** The board: a height x width grid of cells, 0 for empty or the id of the
    shape that settled there, with collision tests, row clearing, settling and
    the base-8 wire encoding. */
module Board {
  import opened Shapes

  type Row = seq<int>
  type Grid = seq<Row>

  predicate Dims(cfg: Config, b: Grid)
  {
    |b| == cfg.height && forall r :: 0 <= r < |b| ==> |b[r]| == cfg.width
  }

  /** Every cell is empty or holds a shape id. */
  predicate CellsOk(cfg: Config, b: Grid)
  {
    forall r, c :: 0 <= r < |b| && 0 <= c < |b[r]| ==> 0 <= b[r][c] <= |cfg.tets|
  }

  // ---------------------------------------------------------------------------
  // Collision

  predicate OutOfBounds(cfg: Config, c: Cell)
  {
    c.x < 0 || c.x >= cfg.width || c.y < 0 || c.y >= cfg.height
  }

  predicate Blocked(cfg: Config, b: Grid, c: Cell)
    requires Dims(cfg, b)
  {
    OutOfBounds(cfg, c) || b[c.y][c.x] != 0
  }

  /** Some block leaves the board or lands on a settled cell. */
  predicate Hits(cfg: Config, b: Grid, cells: seq<Cell>)
    requires Dims(cfg, b)
  {
    exists i :: 0 <= i < |cells| && Blocked(cfg, b, cells[i])
  }

  /** A block outside the board collides, whatever the board holds. */
  lemma HitsOutside(cfg: Config, b: Grid, cells: seq<Cell>, i: int)
    requires Dims(cfg, b) && 0 <= i < |cells| && OutOfBounds(cfg, cells[i])
    ensures Hits(cfg, b, cells)
  {
  }

  /** For blocks on the board, a collision is exactly an occupied cell. */
  lemma HitsInside(cfg: Config, b: Grid, cells: seq<Cell>)
    requires Dims(cfg, b) && cfg.OnBoard(cells)
    ensures Hits(cfg, b, cells) <==> exists i :: 0 <= i < |cells| && b[cells[i].y][cells[i].x] != 0
  {
  }

  lemma FreeIsOnBoard(cfg: Config, b: Grid, cells: seq<Cell>)
    requires Dims(cfg, b) && !Hits(cfg, b, cells)
    ensures cfg.OnBoard(cells)
  {
    forall i | 0 <= i < |cells| ensures 0 <= cells[i].x < cfg.width && 0 <= cells[i].y < cfg.height {
      assert !Blocked(cfg, b, cells[i]);
    }
  }

  /** On an empty board only leaving the board collides. */
  lemma EmptyBoardHits(cfg: Config, cells: seq<Cell>)
    ensures Dims(cfg, Padding(cfg.height, cfg.width))
    ensures Hits(cfg, Padding(cfg.height, cfg.width), cells) <==> !cfg.OnBoard(cells)
  {
    var b := Padding(cfg.height, cfg.width);
    if Hits(cfg, b, cells) {
      var i :| 0 <= i < |cells| && Blocked(cfg, b, cells[i]);
      assert OutOfBounds(cfg, cells[i]);
    }
    if !cfg.OnBoard(cells) {
      var i :| 0 <= i < |cells| && !(0 <= cells[i].x < cfg.width && 0 <= cells[i].y < cfg.height);
      assert Blocked(cfg, b, cells[i]);
    }
  }

  // ---------------------------------------------------------------------------
  // Fall distance

  function Lowered(p: Pose, k: int): Pose
  {
    p.(y := p.y + k)
  }

  /** The piece moved down by k rows does not collide. */
  predicate FreeAt(cfg: Config, b: Grid, p: Pose, k: int)
    requires Dims(cfg, b) && cfg.PoseOk(p)
  {
    !Hits(cfg, b, cfg.Blocks(Lowered(p, k)))
  }

  /** The probe loop: test distances k, k + 1, ... below height and answer one
      less than the first that collides, or height - 1 when none does. */
  function ProbeFrom(cfg: Config, b: Grid, p: Pose, k: int): int
    requires Dims(cfg, b) && cfg.PoseOk(p) && k >= 1
    decreases cfg.height - k
  {
    if k >= cfg.height then cfg.height - 1
    else if !FreeAt(cfg, b, p, k) then k - 1
    else ProbeFrom(cfg, b, p, k + 1)
  }

  function MaxDrop(cfg: Config, b: Grid, p: Pose): int
    requires Dims(cfg, b) && cfg.PoseOk(p)
  {
    ProbeFrom(cfg, b, p, 1)
  }

  /** d is in [0, height - 1], every shift by 1..d is free, and the shift by
      d + 1 collides unless d is already height - 1. */
  predicate IsMaxDrop(cfg: Config, b: Grid, p: Pose, d: int)
    requires Dims(cfg, b) && cfg.PoseOk(p)
  {
    && 0 <= d < cfg.height
    && (forall k :: 1 <= k <= d ==> FreeAt(cfg, b, p, k))
    && (d < cfg.height - 1 ==> !FreeAt(cfg, b, p, d + 1))
  }

  lemma {:induction false} ProbeFromExact(cfg: Config, b: Grid, p: Pose, k: int)
    requires Dims(cfg, b) && cfg.PoseOk(p) && 1 <= k <= cfg.height
    requires forall j :: 1 <= j < k ==> FreeAt(cfg, b, p, j)
    ensures IsMaxDrop(cfg, b, p, ProbeFrom(cfg, b, p, k))
    decreases cfg.height - k
  {
    if k < cfg.height && FreeAt(cfg, b, p, k) {
      ProbeFromExact(cfg, b, p, k + 1);
    }
  }

  /** MaxDrop is exact: it is the distance IsMaxDrop describes. */
  lemma MaxDropExact(cfg: Config, b: Grid, p: Pose)
    requires Dims(cfg, b) && cfg.PoseOk(p) && cfg.height >= 1
    ensures IsMaxDrop(cfg, b, p, MaxDrop(cfg, b, p))
  {
    ProbeFromExact(cfg, b, p, 1);
  }

  /** IsMaxDrop determines the distance uniquely. */
  lemma MaxDropUnique(cfg: Config, b: Grid, p: Pose, d1: int, d2: int)
    requires Dims(cfg, b) && cfg.PoseOk(p)
    requires IsMaxDrop(cfg, b, p, d1) && IsMaxDrop(cfg, b, p, d2)
    ensures d1 == d2
  {
  }

  /** A piece on the board whose fall distance is positive can step down one
      row without colliding, and its fall distance drops by exactly one. */
  lemma MaxDropStep(cfg: Config, b: Grid, p: Pose)
    requires cfg.TableOk() && cfg.height >= 1 && Dims(cfg, b) && cfg.PoseOk(p)
    requires cfg.OnBoard(cfg.Blocks(p)) && MaxDrop(cfg, b, p) > 0
    ensures !Hits(cfg, b, cfg.Blocks(Lowered(p, 1)))
    ensures MaxDrop(cfg, b, Lowered(p, 1)) == MaxDrop(cfg, b, p) - 1
  {
    var d := MaxDrop(cfg, b, p);
    var q := Lowered(p, 1);
    MaxDropExact(cfg, b, p);
    assert FreeAt(cfg, b, p, 1);
    forall k | 1 <= k <= d - 1 ensures FreeAt(cfg, b, q, k) {
      assert Lowered(q, k) == Lowered(p, k + 1);
      assert FreeAt(cfg, b, p, k + 1);
    }
    assert Lowered(q, d) == Lowered(p, d + 1);
    if d == cfg.height - 1 {
      var blocks := cfg.Blocks(Lowered(p, d + 1));
      assert blocks[0].y == cfg.Blocks(p)[0].y + cfg.height;
      assert OutOfBounds(cfg, blocks[0]);
      assert Blocked(cfg, b, blocks[0]);
    }
    assert !FreeAt(cfg, b, q, d);
    assert IsMaxDrop(cfg, b, q, d - 1);
    MaxDropExact(cfg, b, q);
    MaxDropUnique(cfg, b, q, d - 1, MaxDrop(cfg, b, q));
  }

  /** After k single steps down (k at most the fall distance) the fall
      distance left is the original one minus k, so the step after the last
      one finds a piece at rest. */
  lemma {:induction false} MaxDropAfterSteps(cfg: Config, b: Grid, p: Pose, k: nat)
    requires cfg.TableOk() && cfg.height >= 1 && Dims(cfg, b) && cfg.PoseOk(p)
    requires cfg.OnBoard(cfg.Blocks(p)) && k <= MaxDrop(cfg, b, p)
    ensures cfg.OnBoard(cfg.Blocks(Lowered(p, k)))
    ensures MaxDrop(cfg, b, Lowered(p, k)) == MaxDrop(cfg, b, p) - k
    decreases k
  {
    if k > 0 {
      MaxDropStep(cfg, b, p);
      var q := Lowered(p, 1);
      FreeIsOnBoard(cfg, b, cfg.Blocks(q));
      MaxDropAfterSteps(cfg, b, q, k - 1);
      assert Lowered(q, k - 1) == Lowered(p, k);
    }
  }

  /** The pose a hard drop lands on is on the board, and free when it moved. */
  lemma MaxDropLanding(cfg: Config, b: Grid, p: Pose)
    requires cfg.height >= 1 && Dims(cfg, b) && cfg.PoseOk(p) && cfg.OnBoard(cfg.Blocks(p))
    ensures cfg.OnBoard(cfg.Blocks(Lowered(p, MaxDrop(cfg, b, p))))
    ensures MaxDrop(cfg, b, p) >= 1 ==> !Hits(cfg, b, cfg.Blocks(Lowered(p, MaxDrop(cfg, b, p))))
  {
    var d := MaxDrop(cfg, b, p);
    MaxDropExact(cfg, b, p);
    if d >= 1 {
      assert FreeAt(cfg, b, p, d);
      FreeIsOnBoard(cfg, b, cfg.Blocks(Lowered(p, d)));
    } else {
      assert Lowered(p, d) == p;
    }
  }

  // ---------------------------------------------------------------------------
  // Row clearing

  /** A row with an empty cell survives clearing. */
  predicate HasGap(row: Row)
  {
    exists c :: 0 <= c < |row| && row[c] == 0
  }

  /** The rows with a gap, in their original order. */
  function Survivors(b: Grid): (s: Grid)
    ensures |s| <= |b|
    ensures forall i :: 0 <= i < |s| ==> HasGap(s[i])
    decreases |b|
  {
    if b == [] then []
    else (if HasGap(b[0]) then [b[0]] else []) + Survivors(b[1..])
  }

  function EmptyRow(w: nat): Row
  {
    seq(w, _ => 0)
  }

  function Padding(n: nat, w: nat): Grid
  {
    seq(n, _ => EmptyRow(w))
  }

  /** The board after clearing: empty rows on top of the surviving rows, up to height rows. */
  function Cleared(cfg: Config, b: Grid): Grid
  {
    var s := Survivors(b);
    if |s| < cfg.height then Padding(cfg.height - |s|, cfg.width) + s else s
  }

  lemma {:induction false} SurvivorsAppend(a: Grid, b: Grid)
    ensures Survivors(a + b) == Survivors(a) + Survivors(b)
    decreases |a|
  {
    if a != [] {
      assert (a + b)[1..] == a[1..] + b;
      SurvivorsAppend(a[1..], b);
    } else {
      assert a + b == b;
    }
  }

  /** Rows that all have a gap are kept as they are. */
  lemma {:induction false} SurvivorsAllGaps(b: Grid)
    requires forall i :: 0 <= i < |b| ==> HasGap(b[i])
    ensures Survivors(b) == b
    decreases |b|
  {
    if b != [] {
      SurvivorsAllGaps(b[1..]);
    }
  }

  /** Full rows are dropped. */
  lemma {:induction false} SurvivorsNoGaps(b: Grid)
    requires forall i :: 0 <= i < |b| ==> !HasGap(b[i])
    ensures Survivors(b) == []
    decreases |b|
  {
    if b != [] {
      SurvivorsNoGaps(b[1..]);
    }
  }

  lemma EmptyRowHasGap(w: nat)
    requires w >= 1
    ensures HasGap(EmptyRow(w))
  {
    assert EmptyRow(w)[0] == 0;
  }

  /** Clearing gives exactly height rows, none of them full; the surviving rows
      sit at the bottom in their order, and every row above them is an empty
      row of width cells. */
  lemma ClearedShape(cfg: Config, b: Grid)
    requires cfg.width >= 1 && |b| <= cfg.height
    ensures var r := Cleared(cfg, b); var s := Survivors(b);
      && |r| == cfg.height
      && (forall i :: 0 <= i < |r| ==> HasGap(r[i]))
      && r[cfg.height - |s|..] == s
      && (forall i :: 0 <= i < cfg.height - |s| ==> r[i] == EmptyRow(cfg.width))
  {
    EmptyRowHasGap(cfg.width);
  }

  /** Clearing keeps the board's dimensions and keeps every cell in 0..number of shapes. */
  lemma ClearedKeepsBoard(cfg: Config, b: Grid)
    requires cfg.width >= 1 && Dims(cfg, b) && CellsOk(cfg, b)
    ensures Dims(cfg, Cleared(cfg, b)) && CellsOk(cfg, Cleared(cfg, b))
  {
    SurvivorsFrom(b);
    ClearedShape(cfg, b);
  }

  lemma {:induction false} SurvivorsFrom(b: Grid)
    ensures forall i :: 0 <= i < |Survivors(b)| ==> Survivors(b)[i] in b
    decreases |b|
  {
    if b != [] {
      SurvivorsFrom(b[1..]);
    }
  }

  /** Clearing twice is clearing once. */
  lemma ClearedIdempotent(cfg: Config, b: Grid)
    requires cfg.width >= 1
    ensures Cleared(cfg, Cleared(cfg, b)) == Cleared(cfg, b)
  {
    var s := Survivors(b);
    var r := Cleared(cfg, b);
    EmptyRowHasGap(cfg.width);
    assert forall i :: 0 <= i < |r| ==> HasGap(r[i]);
    SurvivorsAllGaps(r);
  }

  /** A full row between rows that all have a gap is the only one dropped. */
  lemma {:induction false} SurvivorsAroundFull(above: Grid, row: Row, below: Grid)
    requires forall j :: 0 <= j < |above| ==> HasGap(above[j])
    requires forall j :: 0 <= j < |below| ==> HasGap(below[j])
    requires !HasGap(row)
    ensures Survivors(above + [row] + below) == above + below
    decreases |above|
  {
    var b := above + [row] + below;
    if above == [] {
      assert b[0] == row && b[1..] == below;
      SurvivorsAllGaps(below);
    } else {
      assert b[0] == above[0] && b[1..] == above[1..] + [row] + below;
      SurvivorsAroundFull(above[1..], row, below);
      assert [above[0]] + (above[1..] + below) == above + below;
    }
  }

  /** Clearing a board whose only full row is row i removes that row and puts
      one empty row on top. */
  lemma ClearSingleFullRow(cfg: Config, b: Grid, i: int)
    requires Dims(cfg, b) && 0 <= i < |b|
    requires !HasGap(b[i]) && forall j :: 0 <= j < |b| && j != i ==> HasGap(b[j])
    ensures Cleared(cfg, b) == [EmptyRow(cfg.width)] + b[..i] + b[i + 1..]
  {
    var above, below := b[..i], b[i + 1..];
    forall j | 0 <= j < |above| ensures HasGap(above[j]) {
      assert above[j] == b[j];
    }
    forall j | 0 <= j < |below| ensures HasGap(below[j]) {
      assert below[j] == b[i + 1 + j];
    }
    assert b == above + [b[i]] + below;
    SurvivorsAroundFull(above, b[i], below);
    assert |above + below| == cfg.height - 1;
    assert Padding(1, cfg.width) == [EmptyRow(cfg.width)];
    assert [EmptyRow(cfg.width)] + above + below == [EmptyRow(cfg.width)] + (above + below);
  }



  // ---------------------------------------------------------------------------
  // Settling

  predicate InGrid(b: Grid, cells: seq<Cell>)
  {
    forall i :: 0 <= i < |cells| ==> 0 <= cells[i].y < |b| && 0 <= cells[i].x < |b[cells[i].y]|
  }

  /** Blocks on a board of the configured size lie inside the grid. */
  lemma OnBoardInGrid(cfg: Config, b: Grid, cells: seq<Cell>)
    requires Dims(cfg, b) && cfg.OnBoard(cells)
    ensures InGrid(b, cells)
  {
  }

  /** The board after writing v into the cells, one after the other. */
  function Paint(b: Grid, cells: seq<Cell>, v: int): (r: Grid)
    requires InGrid(b, cells)
    ensures |r| == |b| && forall y :: 0 <= y < |b| ==> |r[y]| == |b[y]|
    decreases |cells|
  {
    if cells == [] then b
    else
      var before := Paint(b, cells[..|cells| - 1], v);
      var c := cells[|cells| - 1];
      before[c.y := before[c.y][c.x := v]]
  }

  /** Settling writes v into exactly the given cells. */
  lemma {:induction false} PaintAt(b: Grid, cells: seq<Cell>, v: int, y: int, x: int)
    requires InGrid(b, cells) && 0 <= y < |b| && 0 <= x < |b[y]|
    ensures Paint(b, cells, v)[y][x] == if Cell(x, y) in cells then v else b[y][x]
    decreases |cells|
  {
    if cells != [] {
      var init := cells[..|cells| - 1];
      assert cells == init + [cells[|cells| - 1]];
      PaintAt(b, init, v, y, x);
    }
  }

  /** Settling a shape id keeps the board's dimensions and keeps every cell in 0..number of shapes. */
  lemma PaintKeepsBoard(cfg: Config, b: Grid, cells: seq<Cell>, v: int)
    requires Dims(cfg, b) && CellsOk(cfg, b) && InGrid(b, cells) && cfg.IsShape(v)
    ensures Dims(cfg, Paint(b, cells, v)) && CellsOk(cfg, Paint(b, cells, v))
  {
    var r := Paint(b, cells, v);
    forall y, x | 0 <= y < |r| && 0 <= x < |r[y]| ensures 0 <= r[y][x] <= |cfg.tets| {
      PaintAt(b, cells, v, y, x);
    }
  }

  // ---------------------------------------------------------------------------
  // Wire encoding

  function Pow8(n: nat): nat
  {
    if n == 0 then 1 else 8 * Pow8(n - 1)
  }

  function Pow2(n: nat): nat
  {
    if n == 0 then 1 else 2 * Pow2(n - 1)
  }

  /** Bitwise or of two naturals. */
  function BitOr(a: nat, b: nat): nat
    decreases a + b
  {
    if a == 0 then b
    else if b == 0 then a
    else 2 * BitOr(a / 2, b / 2) + (if a % 2 == 1 || b % 2 == 1 then 1 else 0)
  }

  /** Or-ing a value below 2^k into a number shifted left by k bits adds it. */
  lemma {:induction false} BitOrShifted(v: nat, k: nat, c: nat)
    requires c < Pow2(k)
    ensures BitOr(v * Pow2(k), c) == v * Pow2(k) + c
    decreases k
  {
    if k > 0 && v * Pow2(k) != 0 && c != 0 {
      var a := v * Pow2(k);
      assert a == 2 * (v * Pow2(k - 1));
      assert a / 2 == v * Pow2(k - 1) && a % 2 == 0;
      BitOrShifted(v, k - 1, c / 2);
    }
  }

  /** `(v << 3) | c` is v * 8 + c for a cell value below 8. */
  lemma ShiftOr3(v: nat, c: nat)
    requires c < 8
    ensures BitOr(v * 8, c) == v * 8 + c
  {
    assert Pow2(3) == 8;
    BitOrShifted(v, 3, c);
  }

  /** A row read as a base-8 number, leftmost cell most significant. */
  function EncodeRow(row: Row): int
    decreases |row|
  {
    if row == [] then 0 else EncodeRow(row[..|row| - 1]) * 8 + row[|row| - 1]
  }

  /** The w base-8 digits of v, most significant first. */
  function DecodeRow(v: int, w: nat): Row
    decreases w
  {
    if w == 0 then [] else DecodeRow(v / 8, w - 1) + [v % 8]
  }

  function EncodedBoard(b: Grid): seq<int>
  {
    seq(|b|, i requires 0 <= i < |b| => EncodeRow(b[i]))
  }

  function DecodedBoard(vs: seq<int>, w: nat): Grid
  {
    seq(|vs|, i requires 0 <= i < |vs| => DecodeRow(vs[i], w))
  }

  predicate Octal(row: Row)
  {
    forall c :: 0 <= c < |row| ==> 0 <= row[c] < 8
  }

  lemma {:induction false} EncodeRowRange(row: Row)
    requires Octal(row)
    ensures 0 <= EncodeRow(row) < Pow8(|row|)
    decreases |row|
  {
    if row != [] {
      EncodeRowRange(row[..|row| - 1]);
    }
  }

  /** The leftmost cell is the most significant base-8 digit. */
  lemma {:induction false} EncodeRowLeftmost(row: Row)
    requires |row| > 0
    ensures EncodeRow(row) == row[0] * Pow8(|row| - 1) + EncodeRow(row[1..])
    decreases |row|
  {
    var n := |row|;
    if n > 1 {
      var init := row[..n - 1];
      EncodeRowLeftmost(init);
      assert init[1..] == row[1..][..n - 2];
      assert init[0] == row[0];
      calc {
        EncodeRow(row);
        EncodeRow(init) * 8 + row[n - 1];
        (row[0] * Pow8(n - 2) + EncodeRow(init[1..])) * 8 + row[n - 1];
        row[0] * Pow8(n - 1) + (EncodeRow(row[1..][..n - 2]) * 8 + row[1..][n - 2]);
      }
    } else {
      assert row[1..] == [];
      assert row[..0] == [];
    }
  }

  /** Decoding an encoded row with its width gives the row back. */
  lemma {:induction false} DecodeEncodeRow(row: Row)
    requires Octal(row)
    ensures DecodeRow(EncodeRow(row), |row|) == row
    decreases |row|
  {
    if row != [] {
      var n := |row|;
      var init := row[..n - 1];
      EncodeRowRange(init);
      var v := EncodeRow(row);
      assert v == EncodeRow(init) * 8 + row[n - 1];
      assert v / 8 == EncodeRow(init) && v % 8 == row[n - 1];
      DecodeEncodeRow(init);
      assert row == init + [row[n - 1]];
    }
  }

  /** The wire form of a board is lossless given the width. */
  lemma DecodeEncodeBoard(cfg: Config, b: Grid)
    requires Dims(cfg, b) && forall r :: 0 <= r < |b| ==> Octal(b[r])
    ensures |EncodedBoard(b)| == cfg.height
    ensures DecodedBoard(EncodedBoard(b), cfg.width) == b
  {
    forall r | 0 <= r < |b| ensures DecodedBoard(EncodedBoard(b), cfg.width)[r] == b[r] {
      DecodeEncodeRow(b[r]);
    }
  }
}
