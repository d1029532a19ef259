/**
 * `Map::get_tile_rectangle_by_id`: the pixel rectangle of a tile inside the
 * first image of its tileset. Tiles are packed row-major from `margin`, with
 * `spacing` pixels after each tile, and a row holds
 * `img.width / (spacing + tile_width)` tiles.
 *
 * The source works in `u32` and would panic on a division by zero and, in a
 * debug build, on an arithmetic overflow; both panics are outcomes here.
 */
module TileRects {
  import opened Wrappers
  import opened Decimal
  import opened Maps
  import opened GidResolution

  /** `(x, y, w, h)`: top-left corner and size, in pixels. */
  datatype Rect = Rect(x: u32, y: u32, width: u32, height: u32)

  datatype PanicCause = DivideByZero | ArithmeticOverflow

  datatype RectOutcome =
    | NoRect
    | Found(rect: Rect)
    | Panicked(cause: PanicCause)

  /** Horizontal distance between the starts of neighbouring tiles. */
  function Stride(ts: Tileset): nat {
    ts.spacing + ts.tileWidth
  }

  /** Tiles per row of the image. */
  function Columns(ts: Tileset, img: Image): nat
    requires 0 < Stride(ts)
  {
    img.width / Stride(ts)
  }

  /** The rectangle of local tile `local` in image `img` of tileset `ts`. */
  function SheetRectangle(ts: Tileset, img: Image, local: u32): (r: RectOutcome)
    ensures r != NoRect
    ensures r.Panicked? && r.cause == DivideByZero <==>
              Stride(ts) < U32_LIMIT && (Stride(ts) == 0 || img.width < Stride(ts))
    ensures r.Found? ==> 0 < Stride(ts) <= img.width
    ensures 0 < Stride(ts) <= img.width && Stride(ts) < U32_LIMIT ==>
      var c := Columns(ts, img);
      (r.Found? <==>
        && ts.margin + Stride(ts) * (local % c) < U32_LIMIT
        && ts.tileHeight + ts.spacing < U32_LIMIT
        && ts.margin + (ts.tileHeight + ts.spacing) * (local / c) < U32_LIMIT)
    ensures r.Found? ==> r.rect.width == ts.tileWidth && r.rect.height == ts.tileHeight
  {
    var stride: nat := ts.spacing + ts.tileWidth;
    if stride >= U32_LIMIT then Panicked(ArithmeticOverflow)
    else if stride == 0 then Panicked(DivideByZero)
    else
      var columns: nat := img.width / stride;
      QuotientIsZero(img.width, stride);
      if columns == 0 then Panicked(DivideByZero)
      else
        var col: nat := local % columns;
        var row: nat := local / columns;
        var xOffset: nat := (ts.tileWidth + ts.spacing) * col;
        var x: nat := ts.margin + xOffset;
        var yStride: nat := ts.tileHeight + ts.spacing;
        if xOffset >= U32_LIMIT || x >= U32_LIMIT || yStride >= U32_LIMIT then Panicked(ArithmeticOverflow)
        else
          var yOffset: nat := yStride * row;
          var y: nat := ts.margin + yOffset;
          if yOffset >= U32_LIMIT || y >= U32_LIMIT then Panicked(ArithmeticOverflow)
          else Found(Rect(x, y, ts.tileWidth, ts.tileHeight))
  }

  lemma MulMonotone(s: nat, a: nat, b: nat)
    requires a <= b
    ensures s * a <= s * b
  {
    assert s * b == s * a + s * (b - a);
  }

  lemma DivModUnique(a: nat, c: nat, q: nat, r: nat)
    requires 0 < c && r < c && a == q * c + r
    ensures a / c == q && a % c == r
  {
    var q', r' := a / c, a % c;
    assert a == q' * c + r';
    if q < q' {
      MulMonotone(c, q + 1, q');
    } else if q' < q {
      MulMonotone(c, q' + 1, q);
    }
  }

  lemma QuotientIsZero(a: nat, c: nat)
    requires 0 < c
    ensures a / c == 0 <==> a < c
  {
    if a < c {
      DivModUnique(a, c, 0, a);
    } else {
      DivModUnique(a, c, a / c, a % c);
    }
  }

  /**
   * A tile occupying column `col` and row `row` of the row-major packing
   * starts at `margin + (tile_width + spacing) * col` across and
   * `margin + (tile_height + spacing) * row` down.
   */
  lemma SheetRectangleSlot(ts: Tileset, img: Image, local: u32, col: nat, row: nat)
    requires SheetRectangle(ts, img, local).Found?
    requires col < Columns(ts, img) && local == row * Columns(ts, img) + col
    ensures SheetRectangle(ts, img, local).rect.x == ts.margin + (ts.tileWidth + ts.spacing) * col
    ensures SheetRectangle(ts, img, local).rect.y == ts.margin + (ts.tileHeight + ts.spacing) * row
  {
    DivModUnique(local, Columns(ts, img), row, col);
  }

  /** The column is below the column count, so a tile never starts past the image's right edge. */
  lemma SheetRectangleWithinWidth(ts: Tileset, img: Image, local: u32)
    requires SheetRectangle(ts, img, local).Found?
    ensures SheetRectangle(ts, img, local).rect.x + ts.tileWidth + ts.spacing <= ts.margin + img.width
  {
    var s, c := Stride(ts), Columns(ts, img);
    var col := local % c;
    MulMonotone(s, col + 1, c);
    assert s * c <= img.width;
  }

  /** The local tile index can be read back from the rectangle when rows have a height. */
  lemma SheetRectangleRecoversIndex(ts: Tileset, img: Image, local: u32)
    requires SheetRectangle(ts, img, local).Found?
    requires 0 < ts.tileHeight + ts.spacing
    ensures var r := SheetRectangle(ts, img, local).rect;
      local == ((r.y - ts.margin) / (ts.tileHeight + ts.spacing)) * Columns(ts, img)
               + (r.x - ts.margin) / Stride(ts)
  {
    var c := Columns(ts, img);
    var col, row := local % c, local / c;
    var r := SheetRectangle(ts, img, local).rect;
    SheetRectangleSlot(ts, img, local, col, row);
    DivModUnique(r.x - ts.margin, Stride(ts), col, 0);
    DivModUnique(r.y - ts.margin, ts.tileHeight + ts.spacing, row, 0);
  }

  /** 32 by 32 tiles, no margin or spacing, a 256 pixel wide image: local tile 9 is column 1, row 1. */
  lemma SheetRectangleExample(ts: Tileset, img: Image)
    requires ts.tileWidth == 32 && ts.tileHeight == 32 && ts.spacing == 0 && ts.margin == 0
    requires img.width == 256
    ensures SheetRectangle(ts, img, 9) == Found(Rect(32, 32, 32, 32))
  {
  }

  /** `Map::get_tile_rectangle_by_id`. */
  function TileRectangle(m: Map, id: u32): (r: RectOutcome)
    ensures r.NoRect? <==>
      GetTilesetByGid(m, id).None? || |GetTilesetByGid(m, id).value.images| == 0
    ensures !r.NoRect? ==>
      var ts := GetTilesetByGid(m, id).value;
      ts.firstGid <= id && r == SheetRectangle(ts, ts.images[0], id - ts.firstGid)
  {
    match GetTilesetByGid(m, id)
    case None => NoRect
    case Some(ts) =>
      if |ts.images| == 0 then NoRect
      else SheetRectangle(ts, ts.images[0], id - ts.firstGid)
  }
}
