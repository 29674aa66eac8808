/**
 * The floor: one tile sprite repeated over the world, row by row, at steps
 * of the tile's own width and height.
 */
module Tiles {
  import opened TextureAtlas

  /** The world size the grid covers, `INTIAL_WORLD_W as i32` by `INTIAL_WORLD_H as i32`. */
  const TILE_WORLD_W: nat := 2000
  const TILE_WORLD_H: nat := 1000

  /** The atlas frame every floor tile shows. */
  const FLOOR_TILE: string := "floor_tile.png"

  /** A floor tile: its sprite and its top-left corner in the world. */
  datatype TileSprite = TileSprite(sprite: Sprite, position: (real, real))

  /** How many values `(0..limit).step_by(step)` yields: 0, step, 2 * step, ... below `limit`. */
  function CountBelow(limit: nat, step: nat): (c: nat)
    requires step >= 1
    ensures limit > 0 ==> c >= 1
    ensures c <= limit
    decreases limit
  {
    if limit == 0 then 0
    else if limit <= step then 1
    else 1 + CountBelow(limit - step, step)
  }

  /** The k-th value of the stepped range exists exactly when k * step is below the limit. */
  lemma {:induction false} CountBelowMeaning(limit: nat, step: nat, k: nat)
    requires step >= 1
    ensures k < CountBelow(limit, step) <==> k * step < limit
    decreases limit
  {
    if limit == 0 {
    } else if limit <= step {
      if k >= 1 {
        assert k * step >= step by { MultiplyAtLeast(k, step); }
      }
    } else if k >= 1 {
      CountBelowMeaning(limit - step, step, k - 1);
      assert (k - 1) * step == k * step - step;
    }
  }

  lemma MultiplyAtLeast(k: nat, step: nat)
    requires k >= 1
    ensures k * step >= step
  {
  }

  /** The count is the ceiling of limit / step. */
  lemma {:induction false} CountBelowIsCeiling(limit: nat, step: nat)
    requires step >= 1
    ensures CountBelow(limit, step) == (limit + step - 1) / step
    decreases limit
  {
    if limit == 0 {
      assert (step - 1) / step == 0;
    } else if limit <= step {
      assert step <= limit + step - 1 < 2 * step;
      DivisionByRange(limit + step - 1, step, 1);
    } else {
      CountBelowIsCeiling(limit - step, step);
      var q := (limit - 1) / step;
      assert (limit - step + step - 1) / step == q;
      DivisionShift(limit - 1, step);
    }
  }

  lemma DivisionByRange(n: nat, step: nat, q: nat)
    requires step >= 1 && q * step <= n < (q + 1) * step
    ensures n / step == q
  {
    var d := n / step;
    assert d * step <= n < d * step + step;
    if d > q {
      MultiplyMonotone(q + 1, d, step);
    } else if d < q {
      MultiplyMonotone(d + 1, q, step);
    }
  }

  lemma DivisionShift(n: nat, step: nat)
    requires step >= 1
    ensures (n + step) / step == n / step + 1
  {
    var d := n / step;
    assert d * step <= n < d * step + step;
    assert (d + 1) * step == d * step + step;
    assert (d + 2) * step == d * step + step + step;
    DivisionByRange(n + step, step, d + 1);
  }

  /** One row of the grid: a tile every `width` along x, below the world width, at height y. */
  function Row(floor: Sprite, width: nat, y: nat): (row: seq<TileSprite>)
    requires width >= 1
    ensures |row| == CountBelow(TILE_WORLD_W, width)
  {
    seq(CountBelow(TILE_WORLD_W, width), i => TileSprite(floor, ((i * width) as real, y as real)))
  }

  /** The first `rows` rows of the grid, appended in order of y. */
  function Rows(floor: Sprite, width: nat, height: nat, rows: nat): (tiles: seq<TileSprite>)
    requires width >= 1
    ensures |tiles| == rows * CountBelow(TILE_WORLD_W, width)
    decreases rows
  {
    if rows == 0 then []
    else Rows(floor, width, height, rows - 1) + Row(floor, width, (rows - 1) * height)
  }

  /** The floor sprite, by its name, when the atlas has it. */
  predicate HasFloorTile(atlas: Atlas) {
    HasSprite(atlas, FLOOR_TILE)
  }

  /**
   * `create_tiles`: rows at y = 0, h, 2h, ... below the world height, each
   * the row of tiles at that y. The steps are the tile sprite's size cast
   * to an integer; `step_by` panics on a zero step, so the size is a
   * precondition.
   */
  method CreateTiles(atlas: Atlas) returns (tiles: seq<TileSprite>)
    requires HasFloorTile(atlas)
    requires CreateSprite(atlas, FLOOR_TILE).width >= 1.0 && CreateSprite(atlas, FLOOR_TILE).height >= 1.0
    ensures var floor := CreateSprite(atlas, FLOOR_TILE);
      tiles == Rows(floor, floor.width.Floor, floor.height.Floor, CountBelow(TILE_WORLD_H, floor.height.Floor))
  {
    var floorTile := CreateSprite(atlas, FLOOR_TILE);
    var width: nat := floorTile.width.Floor;
    var height: nat := floorTile.height.Floor;
    tiles := [];
    var y: nat := 0;
    ghost var rows: nat := 0;
    while y < TILE_WORLD_H
      invariant y == rows * height
      invariant rows <= CountBelow(TILE_WORLD_H, height)
      invariant tiles == Rows(floorTile, width, height, rows)
      decreases TILE_WORLD_H - y
    {
      CountBelowMeaning(TILE_WORLD_H, height, rows);
      NextRow(floorTile, width, height, rows);
      var tileRow := Row(floorTile, width, y);
      tiles := tiles + tileRow;
      y := y + height;
      rows := rows + 1;
    }
    CountBelowMeaning(TILE_WORLD_H, height, rows);
  }

  /** One more row of the grid starts one tile height further down. */
  lemma NextRow(floor: Sprite, width: nat, height: nat, rows: nat)
    requires width >= 1
    ensures Rows(floor, width, height, rows + 1) == Rows(floor, width, height, rows) + Row(floor, width, rows * height)
    ensures (rows + 1) * height == rows * height + height
  {
  }

  /** The grid has one tile per (row, column) pair. */
  lemma TileCount(floor: Sprite, width: nat, height: nat)
    requires width >= 1 && height >= 1
    ensures |Rows(floor, width, height, CountBelow(TILE_WORLD_H, height))|
      == ((TILE_WORLD_H + height - 1) / height) * ((TILE_WORLD_W + width - 1) / width)
  {
    CountBelowIsCeiling(TILE_WORLD_H, height);
    CountBelowIsCeiling(TILE_WORLD_W, width);
  }

  /** Row-major layout: the tile of row r and column c is at (c * w, r * h) and shows the floor sprite. */
  lemma RowMajor(floor: Sprite, width: nat, height: nat, rows: nat, r: nat, c: nat)
    requires width >= 1
    requires r < rows && c < CountBelow(TILE_WORLD_W, width)
    ensures r * CountBelow(TILE_WORLD_W, width) + c < |Rows(floor, width, height, rows)|
    ensures Rows(floor, width, height, rows)[r * CountBelow(TILE_WORLD_W, width) + c]
      == TileSprite(floor, ((c * width) as real, (r * height) as real))
  {
    var k := |Rows(floor, width, height, r)| + c;
    RowTile(floor, width, height, r, c);
    RowsPrefix(floor, width, height, rows, r + 1, k);
  }

  /** Row n of the grid follows the first n rows and holds the tiles at height n * h. */
  lemma RowTile(floor: Sprite, width: nat, height: nat, n: nat, c: nat)
    requires width >= 1 && c < CountBelow(TILE_WORLD_W, width)
    ensures |Rows(floor, width, height, n)| + c < |Rows(floor, width, height, n + 1)|
    ensures Rows(floor, width, height, n + 1)[|Rows(floor, width, height, n)| + c]
      == TileSprite(floor, ((c * width) as real, (n * height) as real))
  {
    var prefix := Rows(floor, width, height, n);
    var row := Row(floor, width, n * height);
    assert Rows(floor, width, height, n + 1) == prefix + row;
    assert (prefix + row)[|prefix| + c] == row[c];
  }

  /** The first n rows of the grid are a prefix of any longer grid. */
  lemma {:induction false} RowsPrefix(floor: Sprite, width: nat, height: nat, rows: nat, n: nat, k: nat)
    requires width >= 1 && n <= rows && k < |Rows(floor, width, height, n)|
    ensures k < |Rows(floor, width, height, rows)|
    ensures Rows(floor, width, height, rows)[k] == Rows(floor, width, height, n)[k]
    decreases rows
  {
    if n < rows {
      RowsPrefix(floor, width, height, rows - 1, n, k);
      EarlierRowTile(floor, width, height, rows, k);
    }
  }

  /** Adding a row leaves the tiles of the earlier rows where they were. */
  lemma EarlierRowTile(floor: Sprite, width: nat, height: nat, rows: nat, k: nat)
    requires width >= 1 && rows >= 1 && k < |Rows(floor, width, height, rows - 1)|
    ensures k < |Rows(floor, width, height, rows)|
    ensures Rows(floor, width, height, rows)[k] == Rows(floor, width, height, rows - 1)[k]
  {
    var prefix := Rows(floor, width, height, rows - 1);
    var row := Row(floor, width, (rows - 1) * height);
    assert Rows(floor, width, height, rows) == prefix + row;
  }

  lemma MultiplyMonotone(a: nat, b: nat, m: nat)
    requires a <= b
    ensures a * m <= b * m
  {
  }

  /**
   * Every tile of the grid: tile k is in column k % cols and row k / cols,
   * so it sits at a whole multiple of the tile size, strictly inside the
   * world, and shows the floor sprite.
   */
  lemma TileAt(floor: Sprite, width: nat, height: nat, rows: nat, k: nat)
    requires width >= 1 && height >= 1 && rows <= CountBelow(TILE_WORLD_H, height)
    requires k < |Rows(floor, width, height, rows)|
    ensures var cols := CountBelow(TILE_WORLD_W, width);
      && Rows(floor, width, height, rows)[k]
         == TileSprite(floor, (((k % cols) * width) as real, ((k / cols) * height) as real))
      && (k % cols) * width < TILE_WORLD_W
      && (k / cols) * height < TILE_WORLD_H
  {
    var cols := CountBelow(TILE_WORLD_W, width);
    var r, c := DivideIndex(k, cols, rows);
    RowMajor(floor, width, height, rows, r, c);
    CountBelowMeaning(TILE_WORLD_W, width, c);
    CountBelowMeaning(TILE_WORLD_H, height, r);
  }

  /** An index below rows * cols splits into a row below rows and a column below cols. */
  lemma DivideIndex(k: nat, cols: nat, rows: nat) returns (r: nat, c: nat)
    requires cols >= 1 && k < rows * cols
    ensures r == k / cols && c == k % cols
    ensures k == r * cols + c && r < rows && c < cols
  {
    r, c := k / cols, k % cols;
    if r >= rows {
      MultiplyMonotone(rows, r, cols);
      assert false;
    }
  }

  /** The first tile is at the world origin. */
  lemma FirstTileAtOrigin(floor: Sprite, width: nat, height: nat)
    requires width >= 1 && height >= 1
    ensures |Rows(floor, width, height, CountBelow(TILE_WORLD_H, height))| > 0
    ensures Rows(floor, width, height, CountBelow(TILE_WORLD_H, height))[0] == TileSprite(floor, (0.0, 0.0))
  {
    RowMajor(floor, width, height, CountBelow(TILE_WORLD_H, height), 0, 0);
  }
}
