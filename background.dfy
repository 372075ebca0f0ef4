// The grid of positions at which get_background repeats the background
// image so that it fills the window.
module Background {
  import opened Config
  import opened Arith

  /** Number of tile columns and rows get_background uses for a w x h image. */
  function Columns(w: int): int
    requires w > 0
  {
    Width / w + 1
  }

  function Rows(h: int): int
    requires h > 0
  {
    Height / h + 1
  }

  /** The origin of the tile in column i and row j. */
  function Origin(i: int, j: int, w: int, h: int): (int, int)
  {
    (i * w, j * h)
  }

  /** The tile origins, column by column and, within a column, row by row. */
  function TileGrid(w: int, h: int): seq<(int, int)>
    requires w > 0 && h > 0
  {
    var rows := Rows(h);
    seq(Columns(w) * rows, k requires 0 <= k => Origin(k / rows, k % rows, w, h))
  }

  /**
   * get_background's nested loops: column i outer, row j inner, appending the
   * origin (i * w, j * h) each time.
   */
  method GetBackgroundTiles(w: int, h: int) returns (tiles: seq<(int, int)>)
    requires w > 0 && h > 0
    ensures tiles == TileGrid(w, h)
  {
    var cols, rows := Columns(w), Rows(h);
    tiles := [];
    var i := 0;
    while i < cols
      invariant 0 <= i <= cols
      invariant |tiles| == i * rows
      invariant forall k :: 0 <= k < |tiles| ==> tiles[k] == Origin(k / rows, k % rows, w, h)
    {
      var j := 0;
      while j < rows
        invariant 0 <= j <= rows
        invariant |tiles| == i * rows + j
        invariant forall k :: 0 <= k < |tiles| ==> tiles[k] == Origin(k / rows, k % rows, w, h)
      {
        DivModUnique(i * rows + j, rows, i, j);
        tiles := tiles + [Origin(i, j, w, h)];
        j := j + 1;
      }
      assert i * rows + rows == (i + 1) * rows;
      i := i + 1;
    }
  }

  /** There are (Width / w + 1) * (Height / h + 1) origins, the one of column i and row j at i * rows + j. */
  lemma TileGridShape(w: int, h: int, i: int, j: int)
    requires w > 0 && h > 0
    requires 0 <= i < Columns(w) && 0 <= j < Rows(h)
    ensures |TileGrid(w, h)| == (Width / w + 1) * (Height / h + 1)
    ensures 0 <= i * Rows(h) + j < |TileGrid(w, h)|
    ensures TileGrid(w, h)[i * Rows(h) + j] == Origin(i, j, w, h)
  {
    var rows := Rows(h);
    DivModUnique(i * rows + j, rows, i, j);
    assert i * rows + j < Columns(w) * rows by {
      assert i * rows + j < i * rows + rows == (i + 1) * rows;
      assert (i + 1) * rows <= Columns(w) * rows;
    }
  }

  /** Every origin is (i * w, j * h) for a column and a row of the grid, so none lies left of or above the window. */
  lemma TileGridOrigins(w: int, h: int, k: int)
    requires w > 0 && h > 0
    requires 0 <= k < |TileGrid(w, h)|
    ensures exists i, j :: 0 <= i < Columns(w) && 0 <= j < Rows(h) && TileGrid(w, h)[k] == Origin(i, j, w, h)
    ensures 0 <= TileGrid(w, h)[k].0 <= Width && 0 <= TileGrid(w, h)[k].1 <= Height
  {
    var rows := Rows(h);
    var i, j := k / rows, k % rows;
    DivMonotone(k, Columns(w) * rows - 1, rows);
    DivModUnique(Columns(w) * rows - 1, rows, Columns(w) - 1, rows - 1);
    assert i < Columns(w);
    MulMonotone(i, Width / w, w);
    MulMonotone(j, Height / h, h);
    DivMulBelow(Width, w);
    DivMulBelow(Height, h);
    assert TileGrid(w, h)[k] == Origin(i, j, w, h);
  }

  /** The tiles of the grid together cover every pixel of the window. */
  lemma TileGridCovers(w: int, h: int, px: int, py: int)
    requires w > 0 && h > 0
    requires 0 <= px < Width && 0 <= py < Height
    ensures exists k :: 0 <= k < |TileGrid(w, h)| &&
                        TileGrid(w, h)[k].0 <= px < TileGrid(w, h)[k].0 + w &&
                        TileGrid(w, h)[k].1 <= py < TileGrid(w, h)[k].1 + h
  {
    var i, j := px / w, py / h;
    assert i <= Width / w by {
      DivMonotone(px, Width, w);
    }
    assert j <= Height / h by {
      DivMonotone(py, Height, h);
    }
    TileGridShape(w, h, i, j);
    var k := i * Rows(h) + j;
    assert TileGrid(w, h)[k] == (i * w, j * h);
  }
}
