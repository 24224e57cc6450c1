/**
 * Tile rendering of a very large volume (`Graphic3D.tiled`): the target is cut
 * into `count.width x count.height x count.depth` tiles, a caller-supplied
 * callback renders each tile, padded tiles are cropped back to their slot, and
 * the tiles are put back together: tiles into rows (horizontal stacking), rows
 * into grids (vertical stacking), grids into the volume (depth stacking).
 *
 * The callback and the graphics calls (`crop`, `hStacked`, `vStacked`,
 * `dStacked`) are function parameters the model does not interpret; `calls`
 * records every tile the callback is asked to render, in order.
 */
module Tiles {
  import opened Wrappers
  import Values

  /** `Tile.Size`: the number of tiles along each axis. */
  datatype Count = Count(width: int, height: int, depth: int)

  /** The tile's position in the grid, in tiles. */
  datatype Origin = Origin(x: int, y: int, z: int)

  /** `Tile`: what the render callback receives. */
  datatype Tile = Tile(origin: Origin, count: Count, padding: real)

  /** `TileError`. */
  datatype TileError = BadResolution(resolution: Values.Size3) | BadCount(count: Count)

  /** `Rect3D`. */
  datatype Rect3 = Rect3(origin: Values.Point3, size: Values.Size3)

  /** The render callback and the graphics calls, left uninterpreted. */
  datatype Operations<!G> = Operations(
    render: Tile -> G,
    crop: (G, Rect3) -> G,
    hStacked: (G, G) -> G,
    vStacked: (G, G) -> G,
    dStacked: (G, G) -> G)

  /** The arguments of `tiled`: tile counts, padding and the final resolution. */
  datatype Request = Request(count: Count, padding: real, resolution: Values.Size3)

  // ---------------------------------------------------------------- validation

  predicate ValidCount(c: Count) {
    c.width > 0 && c.height > 0 && c.depth > 0
  }

  /** Every axis of the resolution is strictly larger than the tile count along it. */
  predicate Fits(r: Values.Size3, c: Count) {
    r.width > c.width as real && r.height > c.height as real && r.depth > c.depth as real
  }

  predicate Valid(req: Request) {
    ValidCount(req.count) && Fits(req.resolution, req.count)
  }

  // ---------------------------------------------------------------- one tile

  /** The padding handed to every tile, relative to a tile's height: `padding / (height / count.height)`. */
  function TilePadding(req: Request): real
    requires Valid(req)
  {
    req.padding / (req.resolution.height / req.count.height as real)
  }

  /** The tile padding scales the padding by the number of tiles over the final height, on every axis alike. */
  lemma TilePaddingFromHeight(req: Request)
    requires Valid(req)
    ensures TilePadding(req) * req.resolution.height == req.padding * req.count.height as real
  {
    var h := req.resolution.height;
    var n := req.count.height as real;
    assert TilePadding(req) == req.padding / (h / n);
    assert (req.padding / (h / n)) * h == req.padding * n;
  }

  function TileAt(req: Request, x: int, y: int, z: int): Tile
    requires Valid(req)
  {
    Tile(Origin(x, y, z), req.count, TilePadding(req))
  }

  /** The region a padded tile is cropped to: origin (padding, padding, padding), size one slot. */
  function CropRect(req: Request): Rect3
    requires Valid(req)
  {
    Rect3(Values.Point3(req.padding, req.padding, req.padding),
          Values.Size3(req.resolution.width / req.count.width as real,
                       req.resolution.height / req.count.height as real,
                       req.resolution.depth / req.count.depth as real))
  }

  /** A rendered tile, cropped only when the padding is positive. */
  function TileGraphic<G>(req: Request, ops: Operations<G>, tile: Tile): G
    requires Valid(req)
  {
    var g := ops.render(tile);
    if req.padding > 0.0 then ops.crop(g, CropRect(req)) else g
  }

  // ---------------------------------------------------------------- the order tiles are rendered in

  /** The first `n` tiles of row `y` of grid `z`. */
  function RowTiles(req: Request, y: int, z: int, n: nat): seq<Tile>
    requires Valid(req)
  {
    if n == 0 then [] else RowTiles(req, y, z, n - 1) + [TileAt(req, n - 1, y, z)]
  }

  /** The tiles of the first `n` rows of grid `z`. */
  function GridTiles(req: Request, z: int, n: nat): seq<Tile>
    requires Valid(req)
  {
    if n == 0 then [] else GridTiles(req, z, n - 1) + RowTiles(req, n - 1, z, req.count.width as nat)
  }

  /** The tiles of the first `n` grids. */
  function VolumeTiles(req: Request, n: nat): seq<Tile>
    requires Valid(req)
  {
    if n == 0 then [] else VolumeTiles(req, n - 1) + GridTiles(req, n - 1, req.count.height as nat)
  }

  /** Every tile the callback is asked for, in the order it is asked. */
  function AllTiles(req: Request): seq<Tile>
    requires Valid(req)
  {
    VolumeTiles(req, req.count.depth as nat)
  }

  // ---------------------------------------------------------------- assembly

  /** A left fold whose first element seeds the accumulator. */
  function FoldSeeded<G>(op: (G, G) -> G, s: seq<G>): G
    requires |s| > 0
  {
    if |s| == 1 then s[0] else op(FoldSeeded(op, s[..|s| - 1]), s[|s| - 1])
  }

  /** The graphics of the first `n` tiles of row `y` of grid `z`, cropped where padded. */
  function RowGraphics<G>(req: Request, ops: Operations<G>, y: int, z: int, n: nat): (r: seq<G>)
    requires Valid(req)
    ensures |r| == n
  {
    if n == 0 then [] else RowGraphics(req, ops, y, z, n - 1) + [TileGraphic(req, ops, TileAt(req, n - 1, y, z))]
  }

  /** Row `y` of grid `z`: its tiles stacked horizontally, in x order. */
  function Row<G>(req: Request, ops: Operations<G>, y: int, z: int): G
    requires Valid(req)
  {
    FoldSeeded(ops.hStacked, RowGraphics(req, ops, y, z, req.count.width as nat))
  }

  function GridRows<G>(req: Request, ops: Operations<G>, z: int, n: nat): (r: seq<G>)
    requires Valid(req)
    ensures |r| == n
  {
    if n == 0 then [] else GridRows(req, ops, z, n - 1) + [Row(req, ops, n - 1, z)]
  }

  /** Grid `z`: its rows stacked vertically, in y order. */
  function Grid<G>(req: Request, ops: Operations<G>, z: int): G
    requires Valid(req)
  {
    FoldSeeded(ops.vStacked, GridRows(req, ops, z, req.count.height as nat))
  }

  function VolumeGrids<G>(req: Request, ops: Operations<G>, n: nat): (r: seq<G>)
    requires Valid(req)
    ensures |r| == n
  {
    if n == 0 then [] else VolumeGrids(req, ops, n - 1) + [Grid(req, ops, n - 1)]
  }

  /** The volume: the grids stacked in depth, in z order. */
  function Volume<G>(req: Request, ops: Operations<G>): G
    requires Valid(req)
  {
    FoldSeeded(ops.dStacked, VolumeGrids(req, ops, req.count.depth as nat))
  }

  /** What `tiled` returns or throws. */
  function Tiling<G>(req: Request, ops: Operations<G>): Result<G, TileError> {
    if !ValidCount(req.count) then Failure(BadCount(req.count))
    else if !Fits(req.resolution, req.count) then Failure(BadResolution(req.resolution))
    else Success(Volume(req, ops))
  }

  // ---------------------------------------------------------------- the loop

  /**
   * `tiled(count:padding:resolution:render:)`. The count is checked before the
   * resolution, and neither failure renders anything. On success the callback
   * is called once per tile, z outermost and x innermost, and the result is
   * the three-level fold.
   */
  method Tiled<G>(count: Count, padding: real, resolution: Values.Size3, ops: Operations<G>)
    returns (result: Result<G, TileError>, calls: seq<Tile>)
    ensures result == Tiling(Request(count, padding, resolution), ops)
    ensures result == Failure(BadCount(count)) <==> !ValidCount(count)
    ensures result == Failure(BadResolution(resolution)) <==> ValidCount(count) && !Fits(resolution, count)
    ensures result.Failure? ==> calls == []
    ensures result.Success? ==> calls == AllTiles(Request(count, padding, resolution))
  {
    var req := Request(count, padding, resolution);
    calls := [];
    if !(count.width > 0 && count.height > 0 && count.depth > 0) {
      return Failure(BadCount(count)), calls;
    }
    if !(resolution.width > count.width as real && resolution.height > count.height as real
         && resolution.depth > count.depth as real) {
      return Failure(BadResolution(resolution)), calls;
    }

    var tilePadding := padding / (resolution.height / count.height as real);

    var volumeGraphic: Option<G> := None;
    for z := 0 to count.depth
      invariant calls == VolumeTiles(req, z)
      invariant volumeGraphic == if z == 0 then None else Some(FoldSeeded(ops.dStacked, VolumeGrids(req, ops, z)))
    {
      var grid, gridCalls := TiledGrid(req, ops, tilePadding, z);
      calls := calls + gridCalls;
      assert VolumeGrids(req, ops, z + 1)[..z] == VolumeGrids(req, ops, z);
      match volumeGraphic
      case Some(previousGraphic) =>
        volumeGraphic := Some(ops.dStacked(previousGraphic, grid));
      case None =>
        volumeGraphic := Some(grid);
    }
    if volumeGraphic.None? {
      // the volume fatalError is unreachable: the loop ran count.depth > 0 times
      assert false;
    }
    return Success(volumeGraphic.value), calls;
  }

  /** The middle loop of `tiled`: the rows y = 0 .. count.height - 1 of grid `z`, stacked vertically. */
  method TiledGrid<G>(req: Request, ops: Operations<G>, tilePadding: real, z: int)
    returns (grid: G, calls: seq<Tile>)
    requires Valid(req) && tilePadding == TilePadding(req)
    ensures grid == Grid(req, ops, z)
    ensures calls == GridTiles(req, z, req.count.height as nat)
  {
    calls := [];
    var gridGraphic: Option<G> := None;
    for y := 0 to req.count.height
      invariant calls == GridTiles(req, z, y)
      invariant gridGraphic == if y == 0 then None else Some(FoldSeeded(ops.vStacked, GridRows(req, ops, z, y)))
    {
      var row, rowCalls := TiledRow(req, ops, tilePadding, y, z);
      calls := calls + rowCalls;
      assert GridRows(req, ops, z, y + 1)[..y] == GridRows(req, ops, z, y);
      match gridGraphic
      case Some(previousGraphic) =>
        gridGraphic := Some(ops.vStacked(previousGraphic, row));
      case None =>
        gridGraphic := Some(row);
    }
    if gridGraphic.None? {
      // the grid fatalError is unreachable: the loop ran count.height > 0 times
      assert false;
    }
    grid := gridGraphic.value;
  }

  /** The inner loop of `tiled`: tiles x = 0 .. count.width - 1 of row `y` of grid `z`, each rendered, cropped when padded, stacked horizontally. */
  method TiledRow<G>(req: Request, ops: Operations<G>, tilePadding: real, y: int, z: int)
    returns (row: G, calls: seq<Tile>)
    requires Valid(req) && tilePadding == TilePadding(req)
    ensures row == Row(req, ops, y, z)
    ensures calls == RowTiles(req, y, z, req.count.width as nat)
  {
    var count, padding, resolution := req.count, req.padding, req.resolution;
    calls := [];
    var rowGraphic: Option<G> := None;
    for x := 0 to count.width
      invariant calls == RowTiles(req, y, z, x)
      invariant rowGraphic == if x == 0 then None else Some(FoldSeeded(ops.hStacked, RowGraphics(req, ops, y, z, x)))
    {
      var tile := Tile(Origin(x, y, z), count, tilePadding);
      calls := calls + [tile];
      var tileGraphic := ops.render(tile);
      if padding > 0.0 {
        var cropOrigin := Values.Point3(padding, padding, padding);
        var cropResolution := Values.Size3(resolution.width / count.width as real,
                                           resolution.height / count.height as real,
                                           resolution.depth / count.depth as real);
        tileGraphic := ops.crop(tileGraphic, Rect3(cropOrigin, cropResolution));
      }
      assert RowGraphics(req, ops, y, z, x + 1)[..x] == RowGraphics(req, ops, y, z, x);
      match rowGraphic
      case Some(previousGraphic) =>
        rowGraphic := Some(ops.hStacked(previousGraphic, tileGraphic));
      case None =>
        rowGraphic := Some(tileGraphic);
    }
    if rowGraphic.None? {
      // the row fatalError is unreachable: the loop ran count.width > 0 times
      assert false;
    }
    row := rowGraphic.value;
  }

  // ---------------------------------------------------------------- properties of the tile order

  /** Position of `column` in row `row` when rows are `width` long, by repeated addition. */
  function RowMajor(width: nat, row: int, column: nat): nat
    decreases row
  {
    if row <= 0 then column else RowMajor(width, row - 1, column) + width
  }

  /** The position of tile (x, y, z) in the trace. */
  function TileIndex(count: Count, x: nat, y: nat, z: int): nat
    requires count.width >= 0 && count.height >= 0
  {
    RowMajor(count.width, RowMajor(count.height, z, y), x)
  }

  lemma {:induction false} RowMajorIsProduct(width: nat, row: nat, column: nat)
    ensures RowMajor(width, row, column) == row * width + column
  {
    if row > 0 {
      RowMajorIsProduct(width, row - 1, column);
    }
  }

  lemma {:induction false} RowMajorShift(width: nat, row: nat, column: nat)
    ensures RowMajor(width, row, column) == RowMajor(width, row, 0) + column
  {
    if row > 0 {
      RowMajorShift(width, row - 1, column);
    }
  }

  lemma {:induction false} RowMajorAdd(width: nat, a: nat, b: nat, column: nat)
    ensures RowMajor(width, a + b, column) == RowMajor(width, a, column) + RowMajor(width, b, 0)
  {
    if b > 0 {
      RowMajorAdd(width, a, b - 1, column);
    }
  }

  /** Indexing grids of rows is indexing rows of a grid-sized stride. */
  lemma {:induction false} SplitIndex(width: nat, height: nat, z: nat, y: nat, x: nat)
    ensures RowMajor(width, RowMajor(height, z, y), x)
         == RowMajor(RowMajor(width, height, 0), z, RowMajor(width, y, x))
  {
    if z > 0 {
      SplitIndex(width, height, z - 1, y, x);
      RowMajorAdd(width, RowMajor(height, z - 1, y), height, x);
    }
  }

  lemma {:induction false} RowTilesAt(req: Request, y: int, z: int, n: nat)
    requires Valid(req)
    ensures |RowTiles(req, y, z, n)| == n
    ensures forall x :: 0 <= x < n ==> RowTiles(req, y, z, n)[x] == TileAt(req, x, y, z)
  {
    if n > 0 {
      RowTilesAt(req, y, z, n - 1);
    }
  }

  lemma {:induction false} GridTilesAt(req: Request, z: int, n: nat)
    requires Valid(req)
    ensures |GridTiles(req, z, n)| == RowMajor(req.count.width, n, 0)
    ensures forall y, x :: 0 <= y < n && 0 <= x < req.count.width ==>
      RowMajor(req.count.width, y, x) < |GridTiles(req, z, n)| &&
      GridTiles(req, z, n)[RowMajor(req.count.width, y, x)] == TileAt(req, x, y, z)
  {
    var w := req.count.width as nat;
    if n > 0 {
      GridTilesAt(req, z, n - 1);
      RowTilesAt(req, n - 1, z, w);
      var prior := GridTiles(req, z, n - 1);
      var row := RowTiles(req, n - 1, z, w);
      assert GridTiles(req, z, n) == prior + row;
      forall y, x | 0 <= y < n && 0 <= x < w
        ensures RowMajor(w, y, x) < |GridTiles(req, z, n)| && GridTiles(req, z, n)[RowMajor(w, y, x)] == TileAt(req, x, y, z)
      {
        var k := RowMajor(w, y, x);
        if y < n - 1 {
          assert k < |prior|;
        } else {
          RowMajorShift(w, y, x);
          assert k == |prior| + x;
        }
      }
    }
  }

  lemma {:induction false} VolumeTilesLength(req: Request, n: nat)
    requires Valid(req)
    ensures |VolumeTiles(req, n)| == RowMajor(RowMajor(req.count.width, req.count.height, 0), n, 0)
  {
    if n > 0 {
      VolumeTilesLength(req, n - 1);
      GridTilesAt(req, n - 1, req.count.height as nat);
    }
  }

  lemma {:induction false} VolumeTileAt(req: Request, n: nat, x: nat, y: nat, z: nat)
    requires Valid(req)
    requires z < n && y < req.count.height && x < req.count.width
    ensures TileIndex(req.count, x, y, z) < |VolumeTiles(req, n)|
    ensures VolumeTiles(req, n)[TileIndex(req.count, x, y, z)] == TileAt(req, x, y, z)
  {
    var w, h := req.count.width as nat, req.count.height as nat;
    var stride := RowMajor(w, h, 0);
    VolumeTilesLength(req, n - 1);
    GridTilesAt(req, n - 1, h);
    var prior := VolumeTiles(req, n - 1);
    var grid := GridTiles(req, n - 1, h);
    assert VolumeTiles(req, n) == prior + grid;
    var j := RowMajor(w, y, x);
    SplitIndex(w, h, z, y, x);
    var k := RowMajor(stride, z, j);
    assert TileIndex(req.count, x, y, z) == k;
    if z < n - 1 {
      VolumeTileAt(req, n - 1, x, y, z);
      assert VolumeTiles(req, n)[k] == prior[k];
    } else {
      RowMajorShift(stride, z, j);
      assert k == |prior| + j;
      assert VolumeTiles(req, n)[k] == grid[j];
    }
  }

  /** `TileIndex` is the row-major position `(z * height + y) * width + x`. */
  lemma TileIndexClosedForm(count: Count, x: nat, y: nat, z: nat)
    requires count.width >= 0 && count.height >= 0
    ensures TileIndex(count, x, y, z) == (z * count.height + y) * count.width + x
  {
    var r := RowMajor(count.height, z, y);
    RowMajorIsProduct(count.height, z, y);
    RowMajorIsProduct(count.width, r, x);
    assert r == z * count.height + y;
  }

  /** The callback is asked for exactly width x height x depth tiles. */
  lemma TileCount(req: Request)
    requires Valid(req)
    ensures |AllTiles(req)| == req.count.depth * (req.count.height * req.count.width)
  {
    var w, h, d := req.count.width as nat, req.count.height as nat, req.count.depth as nat;
    var stride := RowMajor(w, h, 0);
    VolumeTilesLength(req, d);
    RowMajorIsProduct(w, h, 0);
    RowMajorIsProduct(stride, d, 0);
    assert stride == h * w;
  }

  /**
   * The tile at position `TileIndex` of the trace has origin (x, y, z), so z
   * varies slowest and x fastest; every tile carries the full count and the
   * same tile padding.
   */
  lemma TileOrder(req: Request)
    requires Valid(req)
    ensures forall z, y, x :: 0 <= z < req.count.depth && 0 <= y < req.count.height && 0 <= x < req.count.width ==>
      TileIndex(req.count, x, y, z) < |AllTiles(req)| &&
      AllTiles(req)[TileIndex(req.count, x, y, z)] == Tile(Origin(x, y, z), req.count, TilePadding(req))
  {
    forall z, y, x | 0 <= z < req.count.depth && 0 <= y < req.count.height && 0 <= x < req.count.width
      ensures TileIndex(req.count, x, y, z) < |AllTiles(req)|
      ensures AllTiles(req)[TileIndex(req.count, x, y, z)] == Tile(Origin(x, y, z), req.count, TilePadding(req))
    {
      VolumeTileAt(req, req.count.depth as nat, x, y, z);
    }
  }

  /** Without positive padding a tile is the callback's graphic itself; with it, a crop of one slot. */
  lemma CropOnlyWhenPadded<G>(req: Request, ops: Operations<G>, tile: Tile)
    requires Valid(req)
    ensures req.padding <= 0.0 ==> TileGraphic(req, ops, tile) == ops.render(tile)
    ensures req.padding > 0.0 ==> TileGraphic(req, ops, tile) == ops.crop(ops.render(tile), CropRect(req))
    ensures CropRect(req).origin == Values.Point3(req.padding, req.padding, req.padding)
    ensures CropRect(req).size.width * req.count.width as real == req.resolution.width
    ensures CropRect(req).size.height * req.count.height as real == req.resolution.height
    ensures CropRect(req).size.depth * req.count.depth as real == req.resolution.depth
  {
  }

  /**
   * A resolution of depth 1 cannot be tiled even with one tile in depth: the
   * guard wants every axis strictly larger than its tile count.
   */
  lemma SingleSliceRejected<G>(ops: Operations<G>)
    ensures Tiling(Request(Count(2, 1, 1), 0.0, Values.Size3(100.0, 50.0, 1.0)), ops)
         == Failure(BadResolution(Values.Size3(100.0, 50.0, 1.0)))
  {
  }

  /** Two tiles across, no padding: the callback is asked for (0,0,0) then (1,0,0), and the two are stacked side by side. */
  lemma TwoTilesAcross<G>(ops: Operations<G>)
    ensures var req := Request(Count(2, 1, 1), 0.0, Values.Size3(100.0, 50.0, 2.0));
            && Valid(req)
            && AllTiles(req) == [Tile(Origin(0, 0, 0), req.count, 0.0), Tile(Origin(1, 0, 0), req.count, 0.0)]
            && Tiling(req, ops) == Success(ops.hStacked(ops.render(Tile(Origin(0, 0, 0), req.count, 0.0)),
                                                        ops.render(Tile(Origin(1, 0, 0), req.count, 0.0))))
  {
    var req := Request(Count(2, 1, 1), 0.0, Values.Size3(100.0, 50.0, 2.0));
    assert TilePadding(req) == 0.0;
    var t0 := Tile(Origin(0, 0, 0), req.count, 0.0);
    var t1 := Tile(Origin(1, 0, 0), req.count, 0.0);
    assert RowTiles(req, 0, 0, 2) == [t0, t1];
    assert GridTiles(req, 0, 1) == [t0, t1];
    assert VolumeTiles(req, 1) == [t0, t1];
    var row := RowGraphics(req, ops, 0, 0, 2);
    assert RowGraphics(req, ops, 0, 0, 1) == [ops.render(t0)];
    assert row == [ops.render(t0), ops.render(t1)];
    assert row[..1] == [ops.render(t0)];
    assert FoldSeeded(ops.hStacked, row[..1]) == ops.render(t0);
    assert Row(req, ops, 0, 0) == ops.hStacked(ops.render(t0), ops.render(t1));
    assert GridRows(req, ops, 0, 1) == [Row(req, ops, 0, 0)];
    assert VolumeGrids(req, ops, 1) == [Grid(req, ops, 0)];
  }
}
