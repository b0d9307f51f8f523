/**
  The toroidal board: tiles addressed by index, cardinal directions and the
  wrap-around neighbour lookup (`Board.tileAt` and the `Tile` neighbour getters).
*/
module Grid {
  import opened Wrappers
  import opened JsMath

  /** The four headings a hog can face. */
  datatype Dir = N | E | S | W

  /** Clockwise quarter turns from north: the compass order the turns walk through. */
  function Quarter(d: Dir): nat
  {
    match d
    case N => 0
    case E => 1
    case S => 2
    case W => 3
  }

  /** Clockwise successor (`Hog.right`): one quarter turn further round the compass. */
  function Right(d: Dir): (r: Dir)
    ensures Quarter(r) == (Quarter(d) + 1) % 4
  {
    match d
    case N => E
    case E => S
    case S => W
    case W => N
  }

  /** Counter-clockwise successor (`Hog.left`): one quarter turn back round the compass. */
  function Left(d: Dir): (r: Dir)
    ensures Quarter(r) == (Quarter(d) + 3) % 4
  {
    match d
    case N => W
    case W => S
    case S => E
    case E => N
  }

  /** Opposite heading (`Hog.back`): a half turn. */
  function Back(d: Dir): (r: Dir)
    ensures Quarter(r) == (Quarter(d) + 2) % 4
  {
    match d
    case N => S
    case S => N
    case W => E
    case E => W
  }

  /** Left undoes Right, Back is two right turns, and four right turns are the identity. */
  lemma RotationAlgebra(d: Dir)
    ensures Left(Right(d)) == d && Right(Left(d)) == d
    ensures Back(d) == Right(Right(d)) && Back(d) == Left(Left(d))
    ensures Right(Right(Right(Right(d)))) == d
    ensures Right(d) != d && Left(d) != d && Back(d) != d
    ensures Right(d) != Left(d) && Right(d) != Back(d) && Left(d) != Back(d)
  {
  }

  /** A tile is its index in the board's row-major tile array. */
  type Tile = nat

  /**
    The board's dimensions and its road layout (`floor === 'r'`).
    Occupants and facilities live in the arena, not here.
  */
  datatype Board = Board(width: int, height: int, road: seq<bool>) {
    ghost predicate Valid() {
      width > 0 && height > 0 && |road| == width * height
    }

    function Size(): int {
      width * height
    }

    predicate IsTile(t: int) {
      0 <= t < width * height
    }

    predicate IsRoad(t: Tile)
      requires Valid() && IsTile(t)
    {
      road[t]
    }
  }

  /** Row-major packing of in-range coordinates stays inside the board and can be unpacked. */
  lemma {:induction false} PackCoordinates(w: int, h: int, x: int, y: int)
    requires w > 0 && h > 0 && 0 <= x < w && 0 <= y < h
    ensures 0 <= x + w * y < w * h
    ensures (x + w * y) % w == x && (x + w * y) / w == y
  {
    assert w * y <= w * (h - 1) by {
      MulMonotone(w, y, h - 1);
    }
    assert w * (h - 1) == w * h - w;
    assert x + w * y == y * w + x;
    EuclidUnique(x + w * y, w, y, x);
  }

  lemma MulMonotone(a: int, b: int, c: int)
    requires a > 0 && b <= c
    ensures a * b <= a * c
  {
  }

  /** `Board.tileAt(x, y)`: both coordinates reduced with `mod`, so the result is always a board tile. */
  function TileAt(b: Board, x: int, y: int): (t: Tile)
    requires b.Valid()
    ensures b.IsTile(t)
  {
    var mx, my := Mod(x, b.width), Mod(y, b.height);
    PackCoordinates(b.width, b.height, mx, my);
    mx + b.width * my
  }

  /** The tile `TileAt(x, y)` sits in column `mod(x, width)` and row `mod(y, height)` of the row-major layout. */
  lemma TileAtCoordinates(b: Board, x: int, y: int)
    requires b.Valid()
    ensures TileAt(b, x, y) % b.width == Mod(x, b.width)
    ensures TileAt(b, x, y) / b.width == Mod(y, b.height)
  {
    PackCoordinates(b.width, b.height, Mod(x, b.width), Mod(y, b.height));
  }

  /** Column of a tile, as the `Board` constructor assigns it (`mod(index, width)`). */
  function X(b: Board, t: Tile): int
    requires b.Valid() && b.IsTile(t)
  {
    Mod(t, b.width)
  }

  /** Row of a tile, as the `Board` constructor assigns it (`Math.floor(index / width)`). */
  function Y(b: Board, t: Tile): int
    requires b.Valid() && b.IsTile(t)
  {
    t / b.width
  }

  /** The row of an in-range tile index is a row of the board. */
  lemma {:induction false} DivInBoard(t: int, w: int, h: int)
    requires w > 0 && h > 0 && 0 <= t < w * h
    ensures 0 <= t / w < h
  {
    var q, r := t / w, t % w;
    assert t == q * w + r && 0 <= r < w;
    if q < 0 {
      JsMath.AtLeastOnce(-q, w);
    } else if q >= h {
      MulMonotone(w, h, q);
    }
  }

  /** `TileAt` only sees the reduced coordinates. */
  lemma TileAtReduced(b: Board, x: int, y: int, x': int, y': int)
    requires b.Valid()
    requires Mod(x, b.width) == Mod(x', b.width) && Mod(y, b.height) == Mod(y', b.height)
    ensures TileAt(b, x, y) == TileAt(b, x', y')
  {
  }

  /** A tile is found again at its own coordinates. */
  lemma {:induction false} TileAtOwnCoordinates(b: Board, t: Tile)
    requires b.Valid() && b.IsTile(t)
    ensures 0 <= X(b, t) < b.width && 0 <= Y(b, t) < b.height
    ensures TileAt(b, X(b, t), Y(b, t)) == t
  {
    var w, h := b.width, b.height;
    var q, r := t / w, t % w;
    DivInBoard(t, w, h);
    ModIsEuclidean(t, w);
    ModOfSmall(r, w);
    ModOfSmall(q, h);
    assert t == q * w + r;
    assert TileAt(b, r, q) == r + w * q;
  }

  /** The coordinates of `TileAt(x, y)` are the reduced coordinates. */
  lemma {:induction false} CoordinatesOfTileAt(b: Board, x: int, y: int)
    requires b.Valid()
    ensures X(b, TileAt(b, x, y)) == Mod(x, b.width)
    ensures Y(b, TileAt(b, x, y)) == Mod(y, b.height)
  {
    var t := TileAt(b, x, y);
    TileAtCoordinates(b, x, y);
    ModIsEuclidean(t, b.width);
  }

  /** The unit step of a heading: north is `y + 1`, east is `x + 1`. */
  function DX(d: Dir): int
  {
    match d
    case E => 1
    case W => -1
    case _ => 0
  }

  function DY(d: Dir): int
  {
    match d
    case N => 1
    case S => -1
    case _ => 0
  }

  /** `Tile.to_my(direction)`: the `north`/`south`/`east`/`west` getters. */
  function Neighbor(b: Board, t: Tile, d: Dir): (n: Tile)
    requires b.Valid() && b.IsTile(t)
    ensures b.IsTile(n)
  {
    TileAt(b, X(b, t) + DX(d), Y(b, t) + DY(d))
  }

  /** A neighbour's coordinates are the tile's own, shifted one unit and wrapped around the torus. */
  lemma NeighborCoordinates(b: Board, t: Tile, d: Dir)
    requires b.Valid() && b.IsTile(t)
    ensures X(b, Neighbor(b, t, d)) == Mod(X(b, t) + DX(d), b.width)
    ensures Y(b, Neighbor(b, t, d)) == Mod(Y(b, t) + DY(d), b.height)
  {
    CoordinatesOfTileAt(b, X(b, t) + DX(d), Y(b, t) + DY(d));
  }

  /** Stepping one way and then back returns to the start tile (east then west, north then south). */
  lemma {:induction false} NeighborBack(b: Board, t: Tile, d: Dir)
    requires b.Valid() && b.IsTile(t)
    ensures Neighbor(b, Neighbor(b, t, d), Back(d)) == t
  {
    var n := Neighbor(b, t, d);
    var x, y := X(b, t), Y(b, t);
    NeighborCoordinates(b, t, d);
    TileAtOwnCoordinates(b, t);
    assert DX(Back(d)) == -DX(d) && DY(Back(d)) == -DY(d);
    ModBack(x, DX(d), b.width);
    ModBack(y, DY(d), b.height);
    TileAtReduced(b, X(b, n) + DX(Back(d)), Y(b, n) + DY(Back(d)), x, y);
  }

  /** On one axis: a step forward then a step back, each wrapped, returns to the start. */
  lemma ModBack(x: int, dx: int, n: int)
    requires 0 <= x < n
    ensures Mod(Mod(x + dx, n) + -dx, n) == Mod(x, n)
  {
    ModAddReduced(x + dx, -dx, n);
  }

  /** East then west, in the repository's own terms. */
  lemma EastThenWest(b: Board, t: Tile)
    requires b.Valid() && b.IsTile(t)
    ensures Neighbor(b, Neighbor(b, t, E), W) == t
    ensures Neighbor(b, Neighbor(b, t, N), S) == t
  {
    NeighborBack(b, t, E);
    NeighborBack(b, t, N);
  }

  /** A neighbour is a different tile whenever the board is at least two tiles wide and high. */
  lemma {:induction false} NeighborMoves(b: Board, t: Tile, d: Dir)
    requires b.Valid() && b.IsTile(t)
    requires b.width >= 2 && b.height >= 2
    ensures Neighbor(b, t, d) != t
  {
    var n := Neighbor(b, t, d);
    NeighborCoordinates(b, t, d);
    TileAtOwnCoordinates(b, t);
    if d == E || d == W {
      if X(b, t) + DX(d) == b.width {
        ModOfSmall(0, b.width);
        ModPeriodic(0, 1, b.width);
      } else if X(b, t) + DX(d) == -1 {
        ModOfSmall(b.width - 1, b.width);
        ModPeriodic(b.width - 1, -1, b.width);
      } else {
        ModOfSmall(X(b, t) + DX(d), b.width);
      }
      assert X(b, n) != X(b, t);
    } else {
      if Y(b, t) + DY(d) == b.height {
        ModOfSmall(0, b.height);
        ModPeriodic(0, 1, b.height);
      } else if Y(b, t) + DY(d) == -1 {
        ModOfSmall(b.height - 1, b.height);
        ModPeriodic(b.height - 1, -1, b.height);
      } else {
        ModOfSmall(Y(b, t) + DY(d), b.height);
      }
      assert Y(b, n) != Y(b, t);
    }
  }

  /** A cell of a layout matrix: an integer, or a hole / `null` / `undefined`. */
  type Cell = Option<int>

  /** Cell `(j, i)` (row `j`, column `i`) of the matrix holds the slot number `k >= 0`. */
  predicate Slot(m: seq<seq<Cell>>, j: int, i: int, k: nat)
  {
    0 <= j < |m| && 0 <= i < |m[j]| && m[j][i] == Some(k)
  }

  /** Row-major order: `(j, i)` is visited before `(jj, ii)`. */
  predicate Before(j: int, i: int, jj: int, ii: int)
  {
    j < jj || (j == jj && i < ii)
  }

  /** `(j, i)` is the last cell holding `k` among those visited before `(jj, ii)`. */
  ghost predicate LastBefore(m: seq<seq<Cell>>, j: int, i: int, k: nat, jj: int, ii: int)
  {
    && Slot(m, j, i, k)
    && Before(j, i, jj, ii)
    && forall j', i' :: Slot(m, j', i', k) && Before(j', i', jj, ii) ==> !Before(j, i, j', i')
  }

  /** A cell holding `k` is the last such cell before the next position. */
  lemma LastBeforeNew(m: seq<seq<Cell>>, j: int, i: int, k: nat)
    requires Slot(m, j, i, k)
    ensures LastBefore(m, j, i, k, j, i + 1)
  {
  }

  /** Passing over a cell that does not hold `k` keeps the last cell holding `k`. */
  lemma LastBeforeSkip(m: seq<seq<Cell>>, j: int, i: int, k: nat, jj: int, ii: int)
    requires LastBefore(m, j, i, k, jj, ii)
    requires !Slot(m, jj, ii, k)
    ensures LastBefore(m, j, i, k, jj, ii + 1)
  {
  }

  /** Passing to the next row keeps the last cell holding `k`. */
  lemma LastBeforeNextRow(m: seq<seq<Cell>>, j: int, i: int, k: nat, jj: int)
    requires 0 <= jj < |m|
    requires LastBefore(m, j, i, k, jj, |m[jj]|)
    ensures LastBefore(m, j, i, k, jj + 1, 0)
  {
  }

  /** `(j, i)` is the last cell of the whole matrix holding `k`, i.e. the one whose write survives. */
  ghost predicate LastSlot(m: seq<seq<Cell>>, j: int, i: int, k: nat)
  {
    LastBefore(m, j, i, k, |m|, 0)
  }

  /**
    The partial result of `tilesFromMatrix` once every cell before `(jj, ii)` is visited:
    `tiles` holds exactly the slots seen so far, each with the tile of the last cell that
    named it (`writer` records that cell).
  */
  ghost predicate Filled(b: Board, m: seq<seq<Cell>>, cx: int, cy: int,
                         tiles: map<nat, Tile>, writer: map<nat, (int, int)>, jj: int, ii: int)
    requires b.Valid()
  {
    && (forall k :: k in tiles ==> k in writer)
    && WrittenLast(b, m, cx, cy, tiles, writer, jj, ii)
    && Covered(m, tiles, jj, ii)
  }

  /** Each slot written so far holds the tile of the last cell that named it. */
  ghost predicate WrittenLast(b: Board, m: seq<seq<Cell>>, cx: int, cy: int,
                              tiles: map<nat, Tile>, writer: map<nat, (int, int)>, jj: int, ii: int)
    requires b.Valid()
  {
    forall k :: k in tiles && k in writer ==>
      LastBefore(m, writer[k].0, writer[k].1, k, jj, ii)
      && tiles[k] == TileAt(b, cx + writer[k].1, cy - writer[k].0)
  }

  /** Every slot named by a cell visited so far has been written. */
  ghost predicate Covered(m: seq<seq<Cell>>, tiles: map<nat, Tile>, jj: int, ii: int)
  {
    forall j', i', k :: Slot(m, j', i', k) && Before(j', i', jj, ii) ==> k in tiles
  }

  lemma FilledWrite(b: Board, m: seq<seq<Cell>>, cx: int, cy: int,
                    tiles: map<nat, Tile>, writer: map<nat, (int, int)>, j: int, i: int, k: nat)
    requires b.Valid() && Slot(m, j, i, k)
    requires Filled(b, m, cx, cy, tiles, writer, j, i)
    ensures Filled(b, m, cx, cy, tiles[k := TileAt(b, cx + i, cy - j)], writer[k := (j, i)], j, i + 1)
  {
    var tiles', writer' := tiles[k := TileAt(b, cx + i, cy - j)], writer[k := (j, i)];
    assert WrittenLast(b, m, cx, cy, tiles', writer', j, i + 1) by {
      forall k' | k' in tiles' && k' in writer'
        ensures LastBefore(m, writer'[k'].0, writer'[k'].1, k', j, i + 1)
        ensures tiles'[k'] == TileAt(b, cx + writer'[k'].1, cy - writer'[k'].0)
      {
        if k' == k {
          LastBeforeNew(m, j, i, k);
        } else {
          LastBeforeSkip(m, writer[k'].0, writer[k'].1, k', j, i);
        }
      }
    }
    assert Covered(m, tiles', j, i + 1) by {
      forall j', i', k' | Slot(m, j', i', k') && Before(j', i', j, i + 1)
        ensures k' in tiles'
      {
        if !(j' == j && i' == i) {
          assert Before(j', i', j, i);
        }
      }
    }
  }

  lemma FilledPass(b: Board, m: seq<seq<Cell>>, cx: int, cy: int,
                   tiles: map<nat, Tile>, writer: map<nat, (int, int)>, j: int, i: int)
    requires b.Valid() && 0 <= j < |m| && 0 <= i < |m[j]|
    requires m[j][i].None? || m[j][i].value < 0
    requires Filled(b, m, cx, cy, tiles, writer, j, i)
    ensures Filled(b, m, cx, cy, tiles, writer, j, i + 1)
  {
    forall k' | k' in tiles
      ensures LastBefore(m, writer[k'].0, writer[k'].1, k', j, i + 1)
    {
      LastBeforeSkip(m, writer[k'].0, writer[k'].1, k', j, i);
    }
  }

  lemma FilledRow(b: Board, m: seq<seq<Cell>>, cx: int, cy: int,
                  tiles: map<nat, Tile>, writer: map<nat, (int, int)>, j: int)
    requires b.Valid() && 0 <= j < |m|
    requires Filled(b, m, cx, cy, tiles, writer, j, |m[j]|)
    ensures Filled(b, m, cx, cy, tiles, writer, j + 1, 0)
  {
    forall k' | k' in tiles
      ensures LastBefore(m, writer[k'].0, writer[k'].1, k', j + 1, 0)
    {
      LastBeforeNextRow(m, writer[k'].0, writer[k'].1, k', j);
    }
  }

  /** One visit of the inner loop: an entry `k >= 0` writes slot `k`, any other entry is skipped. */
  method FillCell(b: Board, matrix: seq<seq<Cell>>, cx: int, cy: int, j: int, i: int,
                  tiles0: map<nat, Tile>, writer0: map<nat, (int, int)>)
    returns (tiles: map<nat, Tile>, writer: map<nat, (int, int)>)
    requires b.Valid() && 0 <= j < |matrix| && 0 <= i < |matrix[j]|
    requires Filled(b, matrix, cx, cy, tiles0, writer0, j, i)
    ensures Filled(b, matrix, cx, cy, tiles, writer, j, i + 1)
  {
    var entry := matrix[j][i];
    if entry.Some? && entry.value > -1 {
      var k: nat := entry.value;
      FilledWrite(b, matrix, cx, cy, tiles0, writer0, j, i, k);
      tiles := tiles0[k := TileAt(b, cx + i, cy - j)];
      writer := writer0[k := (j, i)];
    } else {
      FilledPass(b, matrix, cx, cy, tiles0, writer0, j, i);
      tiles, writer := tiles0, writer0;
    }
  }

  /** The inner loop of `tilesFromMatrix`: visits row `j` left to right. */
  method FillRow(b: Board, matrix: seq<seq<Cell>>, cx: int, cy: int, j: int,
                 tiles0: map<nat, Tile>, writer0: map<nat, (int, int)>)
    returns (tiles: map<nat, Tile>, writer: map<nat, (int, int)>)
    requires b.Valid() && 0 <= j < |matrix|
    requires Filled(b, matrix, cx, cy, tiles0, writer0, j, 0)
    ensures Filled(b, matrix, cx, cy, tiles, writer, j + 1, 0)
  {
    tiles, writer := tiles0, writer0;
    var i := 0;
    while i < |matrix[j]|
      invariant 0 <= i <= |matrix[j]|
      invariant Filled(b, matrix, cx, cy, tiles, writer, j, i)
    {
      tiles, writer := FillCell(b, matrix, cx, cy, j, i, tiles, writer);
      i := i + 1;
    }
    FilledRow(b, matrix, cx, cy, tiles, writer, j);
  }

  /**
    `Board.tilesFromMatrix(matrix, corner)`: every integer entry `k >= 0` at row `j`,
    column `i` names slot `k` of the result, which is `tileAt(corner.x + i, corner.y - j)`;
    other entries are ignored and a later cell holding the same `k` overwrites an earlier one.
    The sparse JavaScript array is a map from slot number to tile.
  */
  method TilesFromMatrix(b: Board, matrix: seq<seq<Cell>>, cx: int, cy: int) returns (tiles: map<nat, Tile>)
    requires b.Valid()
    ensures forall k: nat :: k in tiles <==> exists j, i :: Slot(matrix, j, i, k)
    ensures forall k :: k in tiles ==>
              exists j, i :: LastSlot(matrix, j, i, k) && tiles[k] == TileAt(b, cx + i, cy - j)
  {
    tiles := map[];
    var writer: map<nat, (int, int)> := map[];
    var j := 0;
    while j < |matrix|
      invariant 0 <= j <= |matrix|
      invariant Filled(b, matrix, cx, cy, tiles, writer, j, 0)
    {
      tiles, writer := FillRow(b, matrix, cx, cy, j, tiles, writer);
      j := j + 1;
    }
    forall k | k in tiles
      ensures exists j, i :: LastSlot(matrix, j, i, k) && tiles[k] == TileAt(b, cx + i, cy - j)
    {
      assert LastSlot(matrix, writer[k].0, writer[k].1, k);
    }
  }
}
