/**
 * The integer arithmetic of `Map.updateCoordinate`: the marker's column and row
 * are looked up in `x_list`/`y_list` with `list.index`, and the marker is put
 * at 256 pixels per index plus its offset inside the tile.
 */
module Marker {
  import opened Wrappers
  import opened TileGrid

  /** The position of the first v in s at or after position k, or None. */
  function IndexFrom(s: seq<int>, v: int, k: nat): (r: Option<nat>)
    requires k <= |s|
    ensures r.None? <==> v !in s[k..]
    ensures r.Some? ==> k <= r.value < |s| && s[r.value] == v && v !in s[k..r.value]
    decreases |s| - k
  {
    if k == |s| then None
    else if s[k] == v then Some(k)
    else
      assert s[k..] == [s[k]] + s[k + 1..];
      var r := IndexFrom(s, v, k + 1);
      assert r.Some? ==> s[k..r.value] == [s[k]] + s[k + 1..r.value];
      r
  }

  /** Python's `s.index(v)`: the position of the first v, or None where it raises ValueError. */
  function IndexOf(s: seq<int>, v: int): (r: Option<nat>)
    ensures r.None? <==> v !in s
    ensures r.Some? ==> r.value < |s| && s[r.value] == v && v !in s[..r.value]
  {
    assert s[0..] == s;
    IndexFrom(s, v, 0)
  }

  /** Lines 117-124: the marker's pixel position on the canvas, given the tile
      (ix, iy) holding the point and the point's pixel offset (px, py) inside
      that tile; None where either `list.index` raises ValueError. */
  function MarkerPosition(xList: seq<int>, yList: seq<int>, ix: int, px: int, iy: int, py: int): Option<Point>
  {
    match (IndexOf(xList, ix), IndexOf(yList, iy))
    case (Some(i), Some(j)) => Some(Point(TileSize * i + px, TileSize * j + py))
    case _ => None
  }

  /** In the list xmin..xmax, value v is found at position v - xmin exactly when
      it lies in the range. */
  lemma {:induction false} IndexOfRange(lo: int, hi: int, v: int)
    ensures IndexOf(Range(lo, hi), v) == if lo <= v < hi then Some(v - lo) else None
  {
    RangeAt(lo, hi);
    var r := IndexOf(Range(lo, hi), v);
    if lo <= v < hi {
      var i := r.value;
      assert Range(lo, hi)[i] == lo + i;
    }
  }

  /** With the lists of a complete scan, a point in tile (ix, iy) of the
      rectangle is drawn inside the box that tile was pasted at, at its offset
      (px, py) from the box's corner. */
  lemma MarkerInPastedTile(xmin: int, xmax: int, ymin: int, ymax: int, ix: int, px: int, iy: int, py: int)
    requires xmin <= ix <= xmax && ymin <= iy <= ymax
    requires 0 <= px < TileSize && 0 <= py < TileSize
    ensures var box := PasteBox(Tile(ix, iy), xmin, ymin);
      && MarkerPosition(Range(xmin, xmax + 1), Range(ymin, ymax + 1), ix, px, iy, py)
         == Some(Point(box.x + px, box.y + py))
      && box.x <= box.x + px < box.x + TileSize
      && box.y <= box.y + py < box.y + TileSize
  {
    IndexOfRange(xmin, xmax + 1, ix);
    IndexOfRange(ymin, ymax + 1, iy);
    assert IndexOf(Range(xmin, xmax + 1), ix) == Some(ix - xmin);
    assert IndexOf(Range(ymin, ymax + 1), iy) == Some(iy - ymin);
  }

  /** With the lists of a complete scan, a point outside the rectangle makes
      `list.index` raise, and no marker position is computed. */
  lemma MarkerOutsideGrid(xmin: int, xmax: int, ymin: int, ymax: int, ix: int, px: int, iy: int, py: int)
    requires !(xmin <= ix <= xmax && ymin <= iy <= ymax)
    ensures MarkerPosition(Range(xmin, xmax + 1), Range(ymin, ymax + 1), ix, px, iy, py) == None
  {
    IndexOfRange(xmin, xmax + 1, ix);
    IndexOfRange(ymin, ymax + 1, iy);
  }
}
