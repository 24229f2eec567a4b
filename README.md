# Offline map viewer: tile stitching and marker placement

`map.py` is a small desktop map viewer. The user types a latitude and
longitude. `Map.getImageCluster` then does four things:

- it projects a box of about ±0.02° around that point onto the Web Mercator
  tile grid at zoom 15;
- it pastes the local tile images of that rectangle, column by column, onto
  one canvas;
- it records in `x_list`/`y_list` the tile columns and rows it pasted;
- it calls `Map.updateCoordinate`, which puts a marker at the point's pixel
  on the canvas.

The marker's pixel is found by looking the point's tile up in those two lists.

This project models the integer part of that logic, which is the part that
decides what ends up where:

- **`LatLonText`**: the text handling of lines 66-68. `str.split(',')` is
  defined directly by recursion, and `join` is proved to be its inverse in
  both directions. `replace(" ", "")` removes every space, and the text
  raises IndexError when it has no comma.
- **`TileGrid`**: the nested scan of lines 87-88 and the order in which it
  visits the tiles (column-major). It also covers the "append unless already
  there" lists of lines 95-98, the box each tile is pasted at (line 101), and
  the canvas size of line 85. That size is `(n·256 − 1)`, so the last column
  and the last row of tiles overhang the canvas by one pixel.
- **`Marker`**: `list.index` and the marker position of lines 117-124.
- **`MapView`**: class `Map` with the fields the source updates in place:
  `x_list`, `y_list`, the four tile bounds and the marker. Its methods are:
  - `GetImageCluster`, split into the input checks and `Render`;
  - `ScanTiles`, the outer loop;
  - `ScanColumn`, the inner loop;
  - `UpdateCoordinate`.

  They are imperative methods proved against the specification functions
  above; `ScanTiles` and `ScanColumn` hold the two loops of lines 87-88,
  while `UpdateCoordinate`, `Render` and `GetImageCluster` are straight-line
  code.

The main facts proved are the following. Once the input parses, the tiles
pasted are exactly the longest run at the start of the scan whose files
exist, each at its box. The scan stops at the first missing tile file. At
every point, `x_list` and `y_list` hold each column and row of the pasted
tiles exactly once, in scan order. After a complete scan they are
`range(xmin, xmax+1)` and `range(ymin, ymax+1)`, so `x_list.index(ix)` is
`ix - xmin` and the marker lands inside the box its tile was pasted at.

Three things come in as inputs instead of being computed:

- **`proj: Projection`**: the floating-point projection (`deg2num`,
  `deg2num_float`, `% 1`) gives integers, and the model takes those integers
  as this input. They are the tile bounds, the point's tile `(ix, iy)` and
  its pixel offset `(px, py)`.
- **`parsesAsFloat`**: a predicate standing for whether Python's `float()`
  accepts a field.
- **`tileFiles`**: the set of tiles whose image file exists on disk.

Not every invalid input just prints a message:

- A text without a comma raises IndexError at line 68, before the lists are
  cleared (outcome `NoComma`, state unchanged).
- A point whose tile is not in the lists raises ValueError at lines 120-121
  (outcome `MarkerOffGrid`). Only a float parse failure (lines 73-78) and a
  missing tile file (lines 91-93) print a message and return.
- `MarkerOffGrid` cannot arise from the program's own projection.
  `deg2num` and `deg2num_float` compute the same expression and `int()` is
  monotone, so the point's tile satisfies `xmin <= ix <= xmax` and
  `ymin <= iy <= ymax`. By `Marker.MarkerInPastedTile`, a complete scan
  then ends `Rendered`. `ValidProjection` does not require this, so the
  model also covers a projection given from outside.

## Model

| member | source | states |
|---|---|---|
| LatLonText.Split | map.py:66 | `str.split(sep)` gives at least one piece and no piece holds `sep`. It gives exactly one piece iff `sep` does not occur, and then that piece is the whole text |
| LatLonText.JoinSplit | map.py:66 | joining the pieces of a split with the separator gives back the original text |
| LatLonText.SplitJoin | map.py:66 | splitting the join of separator-free pieces gives back those pieces |
| LatLonText.RemoveSpaces | map.py:67-68 | `replace(" ", "")` leaves no space, never lengthens the text, and leaves a text without spaces unchanged |
| LatLonText.RemoveSpacesKeeps | map.py:67-68 | a character survives space removal iff it was in the text and is not a space |
| LatLonText.RemoveSpacesAppend | map.py:67-68 | space removal distributes over concatenation, so the kept characters stay in their order |
| LatLonText.ParseLatLon | map.py:66-68 | the fields are absent (IndexError) iff the text has no comma; otherwise both fields are free of spaces and commas |
| LatLonText.ParseLatLonFields | map.py:66-68 | for `lat,lon[,rest]` the fields are `lat` and `lon` without their spaces; any further pieces are ignored |
| TileGrid.Range | map.py:87-88 | `range(lo, hi)` has `hi - lo` elements, or none when `hi <= lo` |
| TileGrid.RangeAt | map.py:87-88 | element i of `range(lo, hi)` is `lo + i`, and v is in it iff `lo <= v < hi` |
| TileGrid.ScanOrderCovers | map.py:87-88 | the nested loop visits a tile iff it lies in the rectangle xmin..xmax × ymin..ymax |
| TileGrid.ScanOrderIncreasing | map.py:87-88 | the visits are strictly increasing, x first and then y, so no tile is visited twice |
| TileGrid.ColumnsLength | map.py:87-88 | the loop makes (xmax-xmin+1)·(ymax-ymin+1) visits |
| TileGrid.VisitedBeforeIsPrefix | map.py:87-89 | the tiles visited before reaching (x, y), followed by (x, y), are a prefix of the full scan |
| TileGrid.Distinct | map.py:95-98 | the list built by "append v unless already present" holds exactly the values fed to it |
| TileGrid.DistinctNoDuplicates | map.py:95-98 | that list never holds a value twice |
| TileGrid.XListAt | map.py:87-96 | on reaching tile (x, y), `x_list` is xmin..x-1, followed by x once column x has begun |
| TileGrid.YListAt | map.py:87-98 | on reaching tile (x, y), `y_list` is ymin..y-1 in the first column and ymin..ymax in every later column |
| TileGrid.FullScanLists | map.py:87-98 | after a complete scan `x_list` is `range(xmin, xmax+1)` and `y_list` is `range(ymin, ymax+1)` |
| TileGrid.TileAtPasteBox | map.py:101 | the tile can be recovered from the box it is pasted at |
| TileGrid.PasteBoxInjective | map.py:101 | distinct tiles are pasted at distinct boxes |
| TileGrid.PasteBoxPlacement | map.py:85-101 | boxes are non-negative multiples of 256, and only the top-left tile is at (0, 0). Each box ends at most one pixel past the canvas edge, with equality exactly in the last column or row |
| Marker.IndexOf | map.py:120-121 | `list.index(v)` raises (None) iff v is absent; otherwise it is a position holding v with no v before it |
| Marker.IndexOfRange | map.py:120-121 | in `range(lo, hi)` the index of v is `v - lo` when `lo <= v < hi`, and it raises otherwise |
| Marker.MarkerInPastedTile | map.py:117-124 | with the lists of a complete scan, the marker for a point in tile (ix, iy) is that tile's paste box plus the in-tile offset, and lies inside the box |
| Marker.MarkerOutsideGrid | map.py:120-121 | with the lists of a complete scan, a point outside the rectangle makes `list.index` raise |
| MapView.Map.constructor | map.py:41-44 | zoom is 15, both lists are empty and there is no marker |
| MapView.Map.UpdateCoordinate | map.py:109-124 | the result is the marker position from the two `list.index` lookups. The marker field is replaced only when both lookups succeed |
| MapView.Map.ScanColumn | map.py:88-101 | the inner loop moves the scan state from the top of column x to its end, or stops at the first missing tile of x, which is reported |
| MapView.Map.ScanTiles | map.py:85-101 | the canvas has the size of line 85. The pastes are the longest existing prefix of the scan, at their boxes, and the lists are the dedup lists of the pasted tiles. A stop happens at a missing tile, and a complete scan gives the full ranges |
| MapView.Map.Render | map.py:80-107 | sets the bounds from the projection, scans the tiles, then places the marker only when every tile was pasted |
| MapView.Map.GetImageCluster | map.py:64-107 | without a comma nothing changes. An unparsable field clears the lists and leaves the bounds and marker alone. Otherwise the scan and marker facts of `Render` hold |
| MapView.VisitTile | map.py:95-101 | pasting an existing tile and appending its column and row unless present moves the scan state on by one tile |
| MapView.PastesOfTiles | map.py:101 | the pastes made for a run of existing tiles paste exactly those tiles, each at its box |
| MapView.ScanStopsAt | map.py:91-93 | a scan stopped at a missing tile has pasted exactly the tiles before it in scan order, and its lists are the dedup lists of those tiles |
| MapView.ScanCompletes | map.py:87-101 | a scan past the last column has pasted every tile, and its lists are the full ranges |

## Left out

- `deg2num`, `deg2num_float` and the `% 1` offsets (lines 49-62, 82-83, 115-118) use floating point, which is not modelled. Their integer results come in as `Projection`. `ValidProjection` assumes the bounds are ordered and the offsets lie in [0, 256). This holds whenever the projection returns at all, because it is monotone where it is defined and `(v % 1) * 256` is below 256.
- `deg2num` can raise (lines 82-83). Examples: ValueError from `math.log` of a negative number, say for "100, 10"; ValueError from `int(nan)`; OverflowError from `int(inf)`. This happens after lines 70-71 have cleared the lists and before line 83 sets `xmax` and `ymin`. When only line 83 raises (for example "89.99, 10"), line 82 has already set `xmin` and `ymax` to the new bounds. That exception is not an outcome of the model: once both fields parse, `GetImageCluster` always sets the bounds to `proj` and scans.
- `Image.open` can raise (line 100) on a path that exists but is not a readable image, such as a directory. This happens after lines 95-98 have already appended that tile's column and row. That exception is not an outcome of the model. `tileFiles` stands for the tiles whose file both exists and opens, so the model's claim that the lists hold exactly the pasted tiles' columns and rows does not cover that case.
- `int(x)` truncation (line 120) is folded into `Projection.ix`/`iy`, which are the truncated values.
- `float()` parsing (lines 74-75) is the predicate parameter `parsesAsFloat`. Python's float grammar is not modelled.
- `os.path.exists` and the tile path format (lines 80, 89-91) become the set `tileFiles`. The zoom level is fixed at 15, so a tile is identified by (x, y).
- Image contents are not modelled. `Image.new`, `Image.open` and `Cluster.paste` (lines 85, 100-101) become a `Canvas` value: its size plus the sequence of (tile, box) pastes. The local `Cluster` is returned as an out-parameter and is not kept as a field.
- The Qt/pyqtgraph widgets are not modelled. This covers the window setup (lines 14-39), showing the canvas (lines 103-105), and adding and removing the marker item (lines 110-111, 127-129). In particular, when `list.index` raises, the source has already removed the old marker item from the widget. The model only records that `location_point` is not reassigned.
- The initial `getImageCluster("1.34047, 103.70935")` call in `__init__` (line 46) and the `__main__` block (lines 131-134) are left to the caller. The constructor stops after line 44, and the bounds, unset there in the source, start at 0.
- Console messages (lines 77, 92) are not modelled. They are represented by the `InvalidCoordinate` and `MissingTile` outcomes.
- Exceptions become outcomes: IndexError at line 68 is `NoComma` and ValueError at lines 120-121 is `MarkerOffGrid`. The model does not propagate an exception to the caller.
- `MapView.Map.ScanColumn` and `MapView.Map.Render` are method boundaries that the source does not have. The inner loop of lines 88-101 and lines 80-107 of `getImageCluster` are split out so that each proof stays small. The order of effects is the source's.
