/**
 * The integer geometry of `Map.getImageCluster`: the order in which the nested
 * loop visits the tiles xmin..xmax x ymin..ymax, the `x_list`/`y_list` that the
 * loop fills by "append if not already there", the box each tile is pasted at
 * and the size of the stitched canvas.
 */
module TileGrid {

  /** Width and height of one tile image, in pixels. */
  const TileSize: int := 256

  /** A tile address (x, y) at the window's fixed zoom level. */
  datatype Tile = Tile(x: int, y: int)

  /** A pixel position (left, top) on the stitched canvas. */
  datatype Point = Point(x: int, y: int)

  /** One `Cluster.paste(tile, box=...)` call. */
  datatype Paste = Paste(tile: Tile, box: Point)

  /** The stitched image: its size and the pastes made onto it, in order. */
  datatype Canvas = Canvas(width: int, height: int, pastes: seq<Paste>)

  /** Python's `list(range(lo, hi))`. */
  function Range(lo: int, hi: int): (r: seq<int>)
    ensures |r| == if lo <= hi then hi - lo else 0
    decreases hi - lo
  {
    if lo >= hi then [] else Range(lo, hi - 1) + [hi - 1]
  }

  /** `range(lo, hi)` counts up from lo by one and holds exactly lo..hi-1. */
  lemma {:induction false} RangeAt(lo: int, hi: int)
    ensures forall i :: 0 <= i < |Range(lo, hi)| ==> Range(lo, hi)[i] == lo + i
    ensures forall v :: v in Range(lo, hi) <==> lo <= v < hi
    decreases hi - lo
  {
    if lo < hi {
      RangeAt(lo, hi - 1);
    }
  }

  /** The tiles the inner loop visits in column x, from y = lo up to hi - 1. */
  function Column(x: int, lo: int, hi: int): (r: seq<Tile>)
    ensures |r| == if lo <= hi then hi - lo else 0
    decreases hi - lo
  {
    if lo >= hi then [] else Column(x, lo, hi - 1) + [Tile(x, hi - 1)]
  }

  /** The i-th tile of column x is (x, lo + i). */
  lemma {:induction false} ColumnAt(x: int, lo: int, hi: int)
    ensures forall i :: 0 <= i < |Column(x, lo, hi)| ==> Column(x, lo, hi)[i] == Tile(x, lo + i)
    decreases hi - lo
  {
    if lo < hi {
      ColumnAt(x, lo, hi - 1);
    }
  }

  /** The tiles the nested loop visits in columns lo..hi-1, rows ymin..ymax. */
  function Columns(lo: int, hi: int, ymin: int, ymax: int): seq<Tile>
    decreases hi - lo
  {
    if lo >= hi then [] else Columns(lo, hi - 1, ymin, ymax) + Column(hi - 1, ymin, ymax + 1)
  }

  /** Every tile of columns lo..hi-1 lies in those columns and in rows ymin..ymax. */
  lemma {:induction false} ColumnsInRectangle(lo: int, hi: int, ymin: int, ymax: int)
    ensures forall i :: 0 <= i < |Columns(lo, hi, ymin, ymax)| ==>
      lo <= Columns(lo, hi, ymin, ymax)[i].x < hi && ymin <= Columns(lo, hi, ymin, ymax)[i].y <= ymax
    decreases hi - lo
  {
    if lo < hi {
      ColumnsInRectangle(lo, hi - 1, ymin, ymax);
      ColumnAt(hi - 1, ymin, ymax + 1);
    }
  }

  /** Every tile of the rectangle, x outer and y inner, as lines 87-88 visit them. */
  function ScanOrder(xmin: int, xmax: int, ymin: int, ymax: int): seq<Tile>
  {
    Columns(xmin, xmax + 1, ymin, ymax)
  }

  /** The tiles the scan has visited when it reaches tile (x, y). */
  function VisitedBefore(xmin: int, ymin: int, ymax: int, x: int, y: int): seq<Tile>
  {
    Columns(xmin, x, ymin, ymax) + Column(x, ymin, y)
  }

  /** Tile t comes before tile u in the scan: a smaller column, or the same column and a smaller row. */
  predicate ScansBefore(t: Tile, u: Tile)
  {
    t.x < u.x || (t.x == u.x && t.y < u.y)
  }

  /** The scan visits exactly the tiles of the rectangle. */
  lemma {:induction false} ScanOrderCovers(xmin: int, xmax: int, ymin: int, ymax: int, t: Tile)
    requires ymin <= ymax
    ensures t in ScanOrder(xmin, xmax, ymin, ymax) <==> xmin <= t.x <= xmax && ymin <= t.y <= ymax
  {
    ColumnsInRectangle(xmin, xmax + 1, ymin, ymax);
    if xmin <= t.x <= xmax && ymin <= t.y <= ymax {
      ColumnsContains(xmin, xmax + 1, ymin, ymax, t);
    }
  }

  lemma {:induction false} ColumnsContains(lo: int, hi: int, ymin: int, ymax: int, t: Tile)
    requires lo <= t.x < hi && ymin <= t.y <= ymax
    ensures t in Columns(lo, hi, ymin, ymax)
    decreases hi - lo
  {
    var column := Column(hi - 1, ymin, ymax + 1);
    if t.x == hi - 1 {
      ColumnAt(hi - 1, ymin, ymax + 1);
      assert column[t.y - ymin] == t;
    } else {
      ColumnsContains(lo, hi - 1, ymin, ymax, t);
    }
  }

  /** The scan is strictly increasing in (x, y) order, so it visits no tile twice. */
  lemma {:induction false} ScanOrderIncreasing(lo: int, hi: int, ymin: int, ymax: int, i: int, j: int)
    requires 0 <= i < j < |Columns(lo, hi, ymin, ymax)|
    ensures ScansBefore(Columns(lo, hi, ymin, ymax)[i], Columns(lo, hi, ymin, ymax)[j])
    decreases hi - lo
  {
    var before := Columns(lo, hi - 1, ymin, ymax);
    var column := Column(hi - 1, ymin, ymax + 1);
    assert Columns(lo, hi, ymin, ymax) == before + column;
    if j < |before| {
      ScanOrderIncreasing(lo, hi - 1, ymin, ymax, i, j);
    } else if i < |before| {
      ColumnsInRectangle(lo, hi - 1, ymin, ymax);
      ColumnAt(hi - 1, ymin, ymax + 1);
      assert before[i].x < hi - 1;
    } else {
      ColumnAt(hi - 1, ymin, ymax + 1);
      assert column[i - |before|].y < column[j - |before|].y;
    }
  }

  /** The scan has (xmax - xmin + 1) * (ymax - ymin + 1) tiles. */
  lemma {:induction false} ColumnsLength(lo: int, hi: int, ymin: int, ymax: int)
    requires lo <= hi && ymin <= ymax + 1
    ensures |Columns(lo, hi, ymin, ymax)| == (hi - lo) * (ymax - ymin + 1)
    decreases hi - lo
  {
    if lo < hi {
      ColumnsLength(lo, hi - 1, ymin, ymax);
      assert (hi - lo) * (ymax - ymin + 1) == (hi - 1 - lo) * (ymax - ymin + 1) + (ymax - ymin + 1);
    }
  }

  /** A shorter run of columns is a prefix of a longer one. */
  lemma {:induction false} ColumnsPrefix(lo: int, mid: int, hi: int, ymin: int, ymax: int)
    requires lo <= mid <= hi
    ensures Columns(lo, mid, ymin, ymax) <= Columns(lo, hi, ymin, ymax)
    decreases hi - mid
  {
    if mid < hi {
      ColumnsPrefix(lo, mid, hi - 1, ymin, ymax);
      assert Columns(lo, hi, ymin, ymax) == Columns(lo, hi - 1, ymin, ymax) + Column(hi - 1, ymin, ymax + 1);
    }
  }

  /** Tile (x, y) is the next tile of the scan after the ones visited before it. */
  lemma VisitedBeforeIsPrefix(xmin: int, xmax: int, ymin: int, ymax: int, x: int, y: int)
    requires xmin <= x <= xmax && ymin <= y <= ymax
    ensures VisitedBefore(xmin, ymin, ymax, x, y) + [Tile(x, y)] <= ScanOrder(xmin, xmax, ymin, ymax)
  {
    var done := Columns(xmin, x, ymin, ymax);
    var full := Column(x, ymin, ymax + 1);
    var part := Column(x, ymin, y) + [Tile(x, y)];
    ColumnAt(x, ymin, ymax + 1);
    ColumnAt(x, ymin, y);
    assert part == full[..y + 1 - ymin];
    assert Columns(xmin, x + 1, ymin, ymax) == done + full;
    ColumnsPrefix(xmin, x + 1, xmax + 1, ymin, ymax);
    assert VisitedBefore(xmin, ymin, ymax, x, y) + [Tile(x, y)] == done + part;
  }

  /** The x (or y) coordinates of a run of tiles. */
  function Xs(tiles: seq<Tile>): seq<int>
  {
    seq(|tiles|, i requires 0 <= i < |tiles| => tiles[i].x)
  }

  function Ys(tiles: seq<Tile>): seq<int>
  {
    seq(|tiles|, i requires 0 <= i < |tiles| => tiles[i].y)
  }

  predicate NoDuplicates(s: seq<int>)
  {
    forall i, j :: 0 <= i < j < |s| ==> s[i] != s[j]
  }

  /** Lines 95-98: `if v not in s: s.append(v)`. */
  function AppendNew(s: seq<int>, v: int): seq<int>
  {
    if v in s then s else s + [v]
  }

  /** The list that `AppendNew` builds from [] when fed `s` in order: each value
      of `s` exactly once. */
  function Distinct(s: seq<int>): (r: seq<int>)
    ensures forall v :: v in r <==> v in s
    decreases |s|
  {
    if s == [] then [] else AppendNew(Distinct(s[..|s| - 1]), s[|s| - 1])
  }

  /** Appending only values not already there never makes a duplicate. */
  lemma {:induction false} DistinctNoDuplicates(s: seq<int>)
    ensures NoDuplicates(Distinct(s))
    decreases |s|
  {
    if s != [] {
      DistinctNoDuplicates(s[..|s| - 1]);
    }
  }

  lemma DistinctSnoc(s: seq<int>, v: int)
    ensures Distinct(s + [v]) == AppendNew(Distinct(s), v)
  {
    assert (s + [v])[..|s|] == s;
  }

  lemma XsSnoc(tiles: seq<Tile>, t: Tile)
    ensures Xs(tiles + [t]) == Xs(tiles) + [t.x]
    ensures Ys(tiles + [t]) == Ys(tiles) + [t.y]
  {
  }

  /** Reaching the top of column x, the scan has visited all of column x - 1. */
  lemma ColumnStart(xmin: int, ymin: int, ymax: int, x: int)
    requires xmin < x
    ensures VisitedBefore(xmin, ymin, ymax, x, ymin) == VisitedBefore(xmin, ymin, ymax, x - 1, ymax + 1)
  {
    assert Column(x, ymin, ymin) == [];
  }

  /** Before the first tile both lists are empty. */
  lemma NothingVisited(xmin: int, ymin: int, ymax: int)
    ensures VisitedBefore(xmin, ymin, ymax, xmin, ymin) == []
    ensures Distinct(Xs([])) == [] == Distinct(Ys([]))
  {
    assert Columns(xmin, xmin, ymin, ymax) == [];
  }

  /** Visiting tile (x, y - 1) extends the visited run by that tile. */
  lemma VisitedBeforeSnoc(xmin: int, ymin: int, ymax: int, x: int, y: int)
    requires ymin < y
    ensures VisitedBefore(xmin, ymin, ymax, x, y) == VisitedBefore(xmin, ymin, ymax, x, y - 1) + [Tile(x, y - 1)]
  {
    assert Column(x, ymin, y) == Column(x, ymin, y - 1) + [Tile(x, y - 1)];
  }

  /** The x_list when the scan reaches tile (x, y): xmin..x-1, and x once
      the column's first tile has been visited. */
  lemma {:induction false} XListAt(xmin: int, ymin: int, ymax: int, x: int, y: int)
    requires xmin <= x && ymin <= ymax && ymin <= y <= ymax + 1
    ensures Distinct(Xs(VisitedBefore(xmin, ymin, ymax, x, y))) ==
            Range(xmin, x) + (if y > ymin then [x] else [])
    decreases x - xmin, y - ymin
  {
    if y == ymin {
      if x > xmin {
        XListAt(xmin, ymin, ymax, x - 1, ymax + 1);
        ColumnStart(xmin, ymin, ymax, x);
      } else {
        NothingVisited(xmin, ymin, ymax);
      }
    } else {
      XListAt(xmin, ymin, ymax, x, y - 1);
      XListStep(xmin, ymin, ymax, x, y);
    }
  }

  /** Visiting tile (x, y - 1) appends x to x_list only if it starts column x. */
  lemma XListStep(xmin: int, ymin: int, ymax: int, x: int, y: int)
    requires xmin <= x && ymin < y <= ymax + 1
    requires Distinct(Xs(VisitedBefore(xmin, ymin, ymax, x, y - 1))) ==
             Range(xmin, x) + (if y - 1 > ymin then [x] else [])
    ensures Distinct(Xs(VisitedBefore(xmin, ymin, ymax, x, y))) ==
            Range(xmin, x) + [x]
  {
    var before := VisitedBefore(xmin, ymin, ymax, x, y - 1);
    VisitedBeforeSnoc(xmin, ymin, ymax, x, y);
    XsSnoc(before, Tile(x, y - 1));
    DistinctSnoc(Xs(before), x);
    var listed := Distinct(Xs(before));
    if y - 1 > ymin {
      assert listed[|listed| - 1] == x;
      assert AppendNew(listed, x) == listed;
    } else {
      RangeAt(xmin, x);
      assert AppendNew(listed, x) == Range(xmin, x) + [x];
    }
  }

  /** The y_list when the scan reaches tile (x, y): ymin..y-1 in the first
      column, and all of ymin..ymax after it. */
  lemma {:induction false} YListAt(xmin: int, ymin: int, ymax: int, x: int, y: int)
    requires xmin <= x && ymin <= ymax && ymin <= y <= ymax + 1
    ensures Distinct(Ys(VisitedBefore(xmin, ymin, ymax, x, y))) ==
            if x == xmin then Range(ymin, y) else Range(ymin, ymax + 1)
    decreases x - xmin, y - ymin
  {
    if y == ymin {
      if x > xmin {
        YListAt(xmin, ymin, ymax, x - 1, ymax + 1);
        ColumnStart(xmin, ymin, ymax, x);
      } else {
        NothingVisited(xmin, ymin, ymax);
      }
    } else {
      YListAt(xmin, ymin, ymax, x, y - 1);
      YListStep(xmin, ymin, ymax, x, y);
    }
  }

  /** Visiting tile (x, y - 1) appends y - 1 to y_list only in the first column. */
  lemma YListStep(xmin: int, ymin: int, ymax: int, x: int, y: int)
    requires xmin <= x && ymin < y <= ymax + 1
    requires Distinct(Ys(VisitedBefore(xmin, ymin, ymax, x, y - 1))) ==
             if x == xmin then Range(ymin, y - 1) else Range(ymin, ymax + 1)
    ensures Distinct(Ys(VisitedBefore(xmin, ymin, ymax, x, y))) ==
            if x == xmin then Range(ymin, y) else Range(ymin, ymax + 1)
  {
    var before := VisitedBefore(xmin, ymin, ymax, x, y - 1);
    VisitedBeforeSnoc(xmin, ymin, ymax, x, y);
    XsSnoc(before, Tile(x, y - 1));
    DistinctSnoc(Ys(before), y - 1);
    if x == xmin {
      RangeAt(ymin, y - 1);
    } else {
      RangeAt(ymin, ymax + 1);
    }
  }

  /** When the whole rectangle has been scanned, x_list is xmin..xmax and
      y_list is ymin..ymax, both increasing. */
  lemma FullScanLists(xmin: int, xmax: int, ymin: int, ymax: int)
    requires xmin <= xmax && ymin <= ymax
    ensures Distinct(Xs(ScanOrder(xmin, xmax, ymin, ymax))) == Range(xmin, xmax + 1)
    ensures Distinct(Ys(ScanOrder(xmin, xmax, ymin, ymax))) == Range(ymin, ymax + 1)
  {
    assert ScanOrder(xmin, xmax, ymin, ymax) == VisitedBefore(xmin, ymin, ymax, xmax, ymax + 1);
    XListAt(xmin, ymin, ymax, xmax, ymax + 1);
    YListAt(xmin, ymin, ymax, xmax, ymax + 1);
  }

  /** Line 85: the size of the stitched canvas, one pixel short of the tiles in each direction. */
  function CanvasSize(xmin: int, xmax: int, ymin: int, ymax: int): Point
  {
    Point((xmax - xmin + 1) * TileSize - 1, (ymax - ymin + 1) * TileSize - 1)
  }

  /** Line 101: the box tile t is pasted at. */
  function PasteBox(t: Tile, xmin: int, ymin: int): Point
  {
    Point(TileSize * (t.x - xmin), TileSize * (t.y - ymin))
  }

  /** The tile whose paste box has (left, top) as its corner: the inverse of `PasteBox`. */
  function TileAtBox(box: Point, xmin: int, ymin: int): Tile
  {
    Tile(xmin + box.x / TileSize, ymin + box.y / TileSize)
  }

  lemma TileAtPasteBox(t: Tile, xmin: int, ymin: int)
    ensures TileAtBox(PasteBox(t, xmin, ymin), xmin, ymin) == t
  {
  }

  /** Distinct tiles are pasted at distinct boxes. */
  lemma PasteBoxInjective(t: Tile, u: Tile, xmin: int, ymin: int)
    requires t != u
    ensures PasteBox(t, xmin, ymin) != PasteBox(u, xmin, ymin)
  {
    TileAtPasteBox(t, xmin, ymin);
    TileAtPasteBox(u, xmin, ymin);
  }

  /** Every tile of the rectangle is pasted at a non-negative multiple of 256,
      only the top-left tile at (0, 0), and the last column (row) reaches one
      pixel past the right (bottom) edge of the canvas. */
  lemma PasteBoxPlacement(xmin: int, xmax: int, ymin: int, ymax: int, t: Tile)
    requires xmin <= t.x <= xmax && ymin <= t.y <= ymax
    ensures var box, size := PasteBox(t, xmin, ymin), CanvasSize(xmin, xmax, ymin, ymax);
      && 0 <= box.x && box.x % TileSize == 0
      && 0 <= box.y && box.y % TileSize == 0
      && (box == Point(0, 0) <==> t == Tile(xmin, ymin))
      && box.x + TileSize <= size.x + 1 && box.y + TileSize <= size.y + 1
      && (box.x + TileSize == size.x + 1 <==> t.x == xmax)
      && (box.y + TileSize == size.y + 1 <==> t.y == ymax)
  {
  }
}
