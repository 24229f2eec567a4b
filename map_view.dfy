/**
 * The state of the `Map` window that `getImageCluster` and `updateCoordinate`
 * update: the lists of tile columns and rows on show, the tile bounds, and the
 * marker. The floating-point projection, the float parsing and the tile files
 * are inputs: `proj`, `parsesAsFloat` and `tileFiles`.
 */
module MapView {
  import opened Wrappers
  import opened LatLonText
  import opened TileGrid
  import opened Marker

  /** The integers the Web Mercator projection yields for one render: the
      tile bounds from `deg2num` at the corners of the box around the point
      (lines 82-83), and the point's tile (ix, iy) and pixel offset (px, py)
      inside it from `deg2num_float` (lines 115-118). */
  datatype Projection = Projection(xmin: int, xmax: int, ymin: int, ymax: int,
                                   ix: int, px: int, iy: int, py: int)

  /** The projection is monotone (longitude to x increasing, latitude to y
      decreasing), so the bounds are ordered; `(v % 1) * 256` lies in [0, 256). */
  predicate ValidProjection(p: Projection)
  {
    p.xmin <= p.xmax && p.ymin <= p.ymax && 0 <= p.px < TileSize && 0 <= p.py < TileSize
  }

  /** How one `getImageCluster` call ends. */
  datatype Outcome =
    | NoComma                  // `latlon_deg[1]` raises IndexError
    | InvalidCoordinate        // `float(...)` raises ValueError: message, return
    | MissingTile(tile: Tile)  // a tile file is missing: message, return
    | MarkerOffGrid            // `list.index` in updateCoordinate raises ValueError
    | Rendered(marker: Point)  // the canvas is shown and the marker placed

  /** The tiles pasted, in the order of the pastes. */
  function Tiles(pastes: seq<Paste>): seq<Tile>
  {
    seq(|pastes|, i requires 0 <= i < |pastes| => pastes[i].tile)
  }

  /** The pastes line 101 makes for a run of tiles, each at its box. */
  function PastesOf(tiles: seq<Tile>, xmin: int, ymin: int): seq<Paste>
  {
    seq(|tiles|, i requires 0 <= i < |tiles| => Paste(tiles[i], PasteBox(tiles[i], xmin, ymin)))
  }

  /** Every tile of the run has a tile file. */
  predicate AllExist(tiles: seq<Tile>, tileFiles: set<Tile>)
  {
    forall i :: 0 <= i < |tiles| ==> tiles[i] in tileFiles
  }

  lemma PastesOfSnoc(tiles: seq<Tile>, t: Tile, xmin: int, ymin: int)
    ensures PastesOf(tiles + [t], xmin, ymin) == PastesOf(tiles, xmin, ymin) + [Paste(t, PasteBox(t, xmin, ymin))]
  {
  }

  /** The pastes for a run of tiles paste exactly those tiles, each at its box. */
  lemma PastesOfTiles(tiles: seq<Tile>, tileFiles: set<Tile>, xmin: int, ymin: int)
    requires AllExist(tiles, tileFiles)
    ensures Tiles(PastesOf(tiles, xmin, ymin)) == tiles
    ensures PastedAtBoxes(PastesOf(tiles, xmin, ymin), xmin, ymin)
    ensures forall t :: t in Tiles(PastesOf(tiles, xmin, ymin)) ==> t in tileFiles
  {
    assert Tiles(PastesOf(tiles, xmin, ymin)) == tiles;
  }

  /** Every paste is at the box line 101 computes for its tile. */
  predicate PastedAtBoxes(pastes: seq<Paste>, xmin: int, ymin: int)
  {
    forall i :: 0 <= i < |pastes| ==> pastes[i].box == PasteBox(pastes[i].tile, xmin, ymin)
  }

  class Map {
    const zoomLevel: int
    var xList: seq<int>
    var yList: seq<int>
    var xmin: int
    var xmax: int
    var ymin: int
    var ymax: int
    var locationPoint: Option<Point>

    /** Lines 41-44; the bounds, unset in the source until the first render, start at 0. */
    constructor ()
      ensures zoomLevel == 15 && xList == [] && yList == [] && locationPoint == None
    {
      zoomLevel := 15;
      xList, yList := [], [];
      xmin, xmax, ymin, ymax := 0, 0, 0, 0;
      locationPoint := None;
    }

    /** Lines 109-124: look the point's tile up in the lists and place the
        marker; on ValueError the marker is not replaced. */
    method UpdateCoordinate(ix: int, px: int, iy: int, py: int) returns (marker: Option<Point>)
      modifies this`locationPoint
      ensures marker == MarkerPosition(xList, yList, ix, px, iy, py)
      ensures locationPoint == if marker.Some? then marker else old(locationPoint)
    {
      var xIndex := IndexOf(xList, ix);
      var yIndex := IndexOf(yList, iy);
      if xIndex.None? || yIndex.None? {
        return None;
      }
      marker := Some(Point(TileSize * xIndex.value + px, TileSize * yIndex.value + py));
      locationPoint := marker;
    }

    /** Lines 88-101, for one column x: visit its tiles top to bottom,
        stopping at the first missing tile file; each visited tile adds its
        column and row to the lists unless already there and is pasted at its
        box. `missing` is the tile whose file was missing, if any. */
    method ScanColumn(x: int, tileFiles: set<Tile>, canvas: Canvas) returns (missing: Option<Tile>, cluster: Canvas)
      requires xmin <= x && ymin <= ymax
      requires ScanReached(canvas.pastes, xList, yList, tileFiles, xmin, ymin, ymax, x, ymin)
      modifies this`xList, this`yList
      ensures cluster.width == canvas.width && cluster.height == canvas.height
      ensures missing.None? ==> ScanReached(cluster.pastes, xList, yList, tileFiles, xmin, ymin, ymax, x, ymax + 1)
      ensures missing.Some? ==>
        && missing.value.x == x && ymin <= missing.value.y <= ymax
        && missing.value !in tileFiles
        && ScanReached(cluster.pastes, xList, yList, tileFiles, xmin, ymin, ymax, x, missing.value.y)
    {
      cluster := canvas;
      for y := ymin to ymax + 1
        invariant cluster.width == canvas.width && cluster.height == canvas.height
        invariant ScanReached(cluster.pastes, xList, yList, tileFiles, xmin, ymin, ymax, x, y)
      {
        var tile := Tile(x, y);
        if tile !in tileFiles {
          return Some(tile), cluster;
        }
        ghost var pastesBefore, xListBefore, yListBefore := cluster.pastes, xList, yList;
        xList := AppendNew(xList, x);
        yList := AppendNew(yList, y);
        cluster := cluster.(pastes := cluster.pastes + [Paste(tile, PasteBox(tile, xmin, ymin))]);
        VisitTile(pastesBefore, xListBefore, yListBefore, cluster.pastes, xList, yList,
                  tileFiles, xmin, ymin, ymax, x, y);
      }
      missing := None;
    }

    /** Lines 85-101: make the canvas, then scan the columns from xmin to
        xmax, stopping at the first missing tile file. */
    method ScanTiles(tileFiles: set<Tile>) returns (missing: Option<Tile>, cluster: Canvas)
      requires xmin <= xmax && ymin <= ymax
      requires xList == [] && yList == []
      modifies this`xList, this`yList
      ensures Point(cluster.width, cluster.height) == CanvasSize(xmin, xmax, ymin, ymax)
      ensures PastedAtBoxes(cluster.pastes, xmin, ymin)
      ensures Tiles(cluster.pastes) <= ScanOrder(xmin, xmax, ymin, ymax)
      ensures forall t :: t in Tiles(cluster.pastes) ==> t in tileFiles
      ensures xList == Distinct(Xs(Tiles(cluster.pastes)))
      ensures yList == Distinct(Ys(Tiles(cluster.pastes)))
      ensures missing.Some? ==>
        && |cluster.pastes| < |ScanOrder(xmin, xmax, ymin, ymax)|
        && ScanOrder(xmin, xmax, ymin, ymax)[|cluster.pastes|] == missing.value
        && missing.value !in tileFiles
        && xList == Range(xmin, missing.value.x) + (if missing.value.y > ymin then [missing.value.x] else [])
        && yList == (if missing.value.x == xmin then Range(ymin, missing.value.y) else Range(ymin, ymax + 1))
      ensures missing.None? ==>
        && Tiles(cluster.pastes) == ScanOrder(xmin, xmax, ymin, ymax)
        && xList == Range(xmin, xmax + 1) && yList == Range(ymin, ymax + 1)
    {
      var size := CanvasSize(xmin, xmax, ymin, ymax);
      cluster := Canvas(size.x, size.y, []);

      for x := xmin to xmax + 1
        invariant Point(cluster.width, cluster.height) == size
        invariant ScanReached(cluster.pastes, xList, yList, tileFiles, xmin, ymin, ymax, x, ymin)
      {
        missing, cluster := ScanColumn(x, tileFiles, cluster);
        if missing.Some? {
          ScanStopsAt(cluster.pastes, xList, yList, tileFiles, xmin, xmax, ymin, ymax, missing.value);
          return;
        }
        NextColumn(cluster.pastes, xList, yList, tileFiles, xmin, ymin, ymax, x);
      }
      ScanCompletes(cluster.pastes, xList, yList, tileFiles, xmin, xmax, ymin, ymax);
      missing := None;
    }

    /** Lines 80-107, once both fields parse: take the tile bounds from the
        projection, scan the tiles onto the canvas and place the marker. */
    method Render(proj: Projection, tileFiles: set<Tile>) returns (outcome: Outcome, cluster: Canvas)
      requires ValidProjection(proj)
      requires xList == [] && yList == []
      modifies this`xList, this`yList, this`xmin, this`xmax, this`ymin, this`ymax, this`locationPoint
      ensures outcome.MissingTile? || outcome == MarkerOffGrid || outcome.Rendered?
      // Once the fields parse, the tiles pasted are the longest run at the start
      // of the scan whose files exist, each at its box, and the lists hold the
      // columns and rows of those tiles, each once.
      ensures outcome != NoComma && outcome != InvalidCoordinate ==>
        && xmin == proj.xmin && xmax == proj.xmax && ymin == proj.ymin && ymax == proj.ymax
        && Point(cluster.width, cluster.height) == CanvasSize(xmin, xmax, ymin, ymax)
        && PastedAtBoxes(cluster.pastes, xmin, ymin)
        && Tiles(cluster.pastes) <= ScanOrder(xmin, xmax, ymin, ymax)
        && (forall t :: t in Tiles(cluster.pastes) ==> t in tileFiles)
        && xList == Distinct(Xs(Tiles(cluster.pastes)))
        && yList == Distinct(Ys(Tiles(cluster.pastes)))
      // The first missing tile stops the scan: it and every later tile stay
      // unpasted and the marker is not touched.
      ensures outcome.MissingTile? ==>
        && |cluster.pastes| < |ScanOrder(xmin, xmax, ymin, ymax)|
        && ScanOrder(xmin, xmax, ymin, ymax)[|cluster.pastes|] == outcome.tile
        && outcome.tile !in tileFiles
        && xList == Range(xmin, outcome.tile.x) + (if outcome.tile.y > ymin then [outcome.tile.x] else [])
        && yList == (if outcome.tile.x == xmin then Range(ymin, outcome.tile.y) else Range(ymin, ymax + 1))
        && locationPoint == old(locationPoint)
      // Otherwise every tile is pasted, and the lists are xmin..xmax and ymin..ymax.
      ensures outcome == MarkerOffGrid || outcome.Rendered? ==>
        && Tiles(cluster.pastes) == ScanOrder(xmin, xmax, ymin, ymax)
        && xList == Range(xmin, xmax + 1) && yList == Range(ymin, ymax + 1)
      ensures outcome == MarkerOffGrid ==>
        MarkerPosition(xList, yList, proj.ix, proj.px, proj.iy, proj.py) == None &&
        locationPoint == old(locationPoint)
      ensures outcome.Rendered? ==>
        MarkerPosition(xList, yList, proj.ix, proj.px, proj.iy, proj.py) == Some(outcome.marker) &&
        locationPoint == Some(outcome.marker)
    {
      xmin, ymax := proj.xmin, proj.ymax;
      xmax, ymin := proj.xmax, proj.ymin;

      var missing;
      missing, cluster := ScanTiles(tileFiles);
      if missing.Some? {
        return MissingTile(missing.value), cluster;
      }

      var marker := UpdateCoordinate(proj.ix, proj.px, proj.iy, proj.py);
      if marker.Some? {
        outcome := Rendered(marker.value);
      } else {
        outcome := MarkerOffGrid;
      }
    }

    /** Lines 64-107: split the text, clear the lists, check that both fields
        parse, then render. `cluster` is the canvas the tiles are pasted on; it
        is empty when the call ends before the canvas is made. */
    method GetImageCluster(latlon: string, parsesAsFloat: string -> bool, proj: Projection,
                           tileFiles: set<Tile>)
      returns (outcome: Outcome, cluster: Canvas)
      requires ValidProjection(proj)
      modifies this
      // Without a comma the call raises before anything changes.
      ensures outcome == NoComma <==> ',' !in latlon
      ensures outcome == NoComma ==> unchanged(this)
      // Both lists are cleared before the fields are parsed.
      ensures outcome == InvalidCoordinate <==>
        ',' in latlon &&
        var (lat, lon) := ParseLatLon(latlon).value; !(parsesAsFloat(lat) && parsesAsFloat(lon))
      ensures outcome == InvalidCoordinate ==>
        && xList == [] && yList == []
        && xmin == old(xmin) && xmax == old(xmax) && ymin == old(ymin) && ymax == old(ymax)
        && locationPoint == old(locationPoint)
      // Once the fields parse, the tiles pasted are the longest run at the start
      // of the scan whose files exist, each at its box, and the lists hold the
      // columns and rows of those tiles, each once.
      ensures outcome != NoComma && outcome != InvalidCoordinate ==>
        && xmin == proj.xmin && xmax == proj.xmax && ymin == proj.ymin && ymax == proj.ymax
        && Point(cluster.width, cluster.height) == CanvasSize(xmin, xmax, ymin, ymax)
        && PastedAtBoxes(cluster.pastes, xmin, ymin)
        && Tiles(cluster.pastes) <= ScanOrder(xmin, xmax, ymin, ymax)
        && (forall t :: t in Tiles(cluster.pastes) ==> t in tileFiles)
        && xList == Distinct(Xs(Tiles(cluster.pastes)))
        && yList == Distinct(Ys(Tiles(cluster.pastes)))
      // The first missing tile stops the scan: it and every later tile stay
      // unpasted and the marker is not touched.
      ensures outcome.MissingTile? ==>
        && |cluster.pastes| < |ScanOrder(xmin, xmax, ymin, ymax)|
        && ScanOrder(xmin, xmax, ymin, ymax)[|cluster.pastes|] == outcome.tile
        && outcome.tile !in tileFiles
        && xList == Range(xmin, outcome.tile.x) + (if outcome.tile.y > ymin then [outcome.tile.x] else [])
        && yList == (if outcome.tile.x == xmin then Range(ymin, outcome.tile.y) else Range(ymin, ymax + 1))
        && locationPoint == old(locationPoint)
      // Otherwise every tile is pasted, and the lists are xmin..xmax and ymin..ymax.
      ensures outcome == MarkerOffGrid || outcome.Rendered? ==>
        && Tiles(cluster.pastes) == ScanOrder(xmin, xmax, ymin, ymax)
        && xList == Range(xmin, xmax + 1) && yList == Range(ymin, ymax + 1)
      ensures outcome == MarkerOffGrid ==>
        MarkerPosition(xList, yList, proj.ix, proj.px, proj.iy, proj.py) == None &&
        locationPoint == old(locationPoint)
      ensures outcome.Rendered? ==>
        MarkerPosition(xList, yList, proj.ix, proj.px, proj.iy, proj.py) == Some(outcome.marker) &&
        locationPoint == Some(outcome.marker)
    {
      cluster := Canvas(0, 0, []);
      var fields := ParseLatLon(latlon);
      if fields.None? {
        return NoComma, cluster;
      }
      var (lat, lon) := fields.value;

      xList := [];
      yList := [];

      if !(parsesAsFloat(lat) && parsesAsFloat(lon)) {
        return InvalidCoordinate, cluster;
      }

      outcome, cluster := Render(proj, tileFiles);
    }
  }

  /** The state of the scan when it reaches tile (x, y): the tiles visited
      before it are pasted at their boxes and their files exist; x_list holds
      the columns entered so far and y_list the rows seen so far. */
  predicate ScanReached(pastes: seq<Paste>, xList: seq<int>, yList: seq<int>, tileFiles: set<Tile>,
                        xmin: int, ymin: int, ymax: int, x: int, y: int)
  {
    && pastes == PastesOf(VisitedBefore(xmin, ymin, ymax, x, y), xmin, ymin)
    && AllExist(VisitedBefore(xmin, ymin, ymax, x, y), tileFiles)
    && xList == Range(xmin, x) + (if y > ymin then [x] else [])
    && yList == (if x == xmin then Range(ymin, y) else Range(ymin, ymax + 1))
  }

  /** Pasting an existing tile (x, y), and adding its column and row to the
      lists unless already there, takes the scan on to (x, y + 1). */
  lemma VisitTile(pastes: seq<Paste>, xList: seq<int>, yList: seq<int>,
                  pastes': seq<Paste>, xList': seq<int>, yList': seq<int>,
                  tileFiles: set<Tile>, xmin: int, ymin: int, ymax: int, x: int, y: int)
    requires xmin <= x && ymin <= y <= ymax && Tile(x, y) in tileFiles
    requires ScanReached(pastes, xList, yList, tileFiles, xmin, ymin, ymax, x, y)
    requires pastes' == pastes + [Paste(Tile(x, y), PasteBox(Tile(x, y), xmin, ymin))]
    requires xList' == AppendNew(xList, x) && yList' == AppendNew(yList, y)
    ensures ScanReached(pastes', xList', yList', tileFiles, xmin, ymin, ymax, x, y + 1)
  {
    VisitedBeforeSnoc(xmin, ymin, ymax, x, y + 1);
    PastesOfSnoc(VisitedBefore(xmin, ymin, ymax, x, y), Tile(x, y), xmin, ymin);
    if y > ymin {
      assert xList[|xList| - 1] == x;
    } else {
      RangeAt(xmin, x);
    }
    if x == xmin {
      RangeAt(ymin, y);
      assert Range(ymin, y + 1) == Range(ymin, y) + [y];
    } else {
      RangeAt(ymin, ymax + 1);
    }
  }

  /** Finishing column x takes the scan on to the top of column x + 1. */
  lemma NextColumn(pastes: seq<Paste>, xList: seq<int>, yList: seq<int>, tileFiles: set<Tile>,
                   xmin: int, ymin: int, ymax: int, x: int)
    requires xmin <= x && ymin <= ymax
    requires ScanReached(pastes, xList, yList, tileFiles, xmin, ymin, ymax, x, ymax + 1)
    ensures ScanReached(pastes, xList, yList, tileFiles, xmin, ymin, ymax, x + 1, ymin)
  {
    ColumnStart(xmin, ymin, ymax, x + 1);
    assert Range(xmin, x + 1) == Range(xmin, x) + [x];
  }

  /** The closed forms of the lists are what AppendNew builds from the tiles visited. */
  lemma ScanListsAreDistinct(pastes: seq<Paste>, xList: seq<int>, yList: seq<int>, tileFiles: set<Tile>,
                             xmin: int, ymin: int, ymax: int, x: int, y: int)
    requires xmin <= x && ymin <= ymax && ymin <= y <= ymax + 1
    requires ScanReached(pastes, xList, yList, tileFiles, xmin, ymin, ymax, x, y)
    ensures Tiles(pastes) == VisitedBefore(xmin, ymin, ymax, x, y)
    ensures PastedAtBoxes(pastes, xmin, ymin) && forall t :: t in Tiles(pastes) ==> t in tileFiles
    ensures xList == Distinct(Xs(Tiles(pastes))) && yList == Distinct(Ys(Tiles(pastes)))
  {
    PastesOfTiles(VisitedBefore(xmin, ymin, ymax, x, y), tileFiles, xmin, ymin);
    XListAt(xmin, ymin, ymax, x, y);
    YListAt(xmin, ymin, ymax, x, y);
  }

  /** A scan stopped at a missing tile has pasted exactly the tiles before it. */
  lemma ScanStopsAt(pastes: seq<Paste>, xList: seq<int>, yList: seq<int>, tileFiles: set<Tile>,
                    xmin: int, xmax: int, ymin: int, ymax: int, tile: Tile)
    requires xmin <= tile.x <= xmax && ymin <= tile.y <= ymax
    requires ScanReached(pastes, xList, yList, tileFiles, xmin, ymin, ymax, tile.x, tile.y)
    ensures Tiles(pastes) <= ScanOrder(xmin, xmax, ymin, ymax)
    ensures |pastes| < |ScanOrder(xmin, xmax, ymin, ymax)|
    ensures ScanOrder(xmin, xmax, ymin, ymax)[|pastes|] == tile
    ensures PastedAtBoxes(pastes, xmin, ymin) && forall t :: t in Tiles(pastes) ==> t in tileFiles
    ensures xList == Range(xmin, tile.x) + (if tile.y > ymin then [tile.x] else [])
    ensures yList == (if tile.x == xmin then Range(ymin, tile.y) else Range(ymin, ymax + 1))
    ensures xList == Distinct(Xs(Tiles(pastes))) && yList == Distinct(Ys(Tiles(pastes)))
  {
    VisitedBeforeIsPrefix(xmin, xmax, ymin, ymax, tile.x, tile.y);
    ScanListsAreDistinct(pastes, xList, yList, tileFiles, xmin, ymin, ymax, tile.x, tile.y);
  }

  /** A scan that passed the last column has pasted every tile. */
  lemma ScanCompletes(pastes: seq<Paste>, xList: seq<int>, yList: seq<int>, tileFiles: set<Tile>,
                      xmin: int, xmax: int, ymin: int, ymax: int)
    requires xmin <= xmax && ymin <= ymax
    requires ScanReached(pastes, xList, yList, tileFiles, xmin, ymin, ymax, xmax + 1, ymin)
    ensures Tiles(pastes) == ScanOrder(xmin, xmax, ymin, ymax)
    ensures PastedAtBoxes(pastes, xmin, ymin) && forall t :: t in Tiles(pastes) ==> t in tileFiles
    ensures xList == Range(xmin, xmax + 1) && yList == Range(ymin, ymax + 1)
    ensures xList == Distinct(Xs(Tiles(pastes))) && yList == Distinct(Ys(Tiles(pastes)))
  {
    assert Column(xmax + 1, ymin, ymin) == [];
    ScanListsAreDistinct(pastes, xList, yList, tileFiles, xmin, ymin, ymax, xmax + 1, ymin);
  }
}
