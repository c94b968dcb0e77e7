# Trail map drawing exercise: a Dafny model

This project models the interactive map of the trail-building lesson page
(`script.js`). The page shows a 4×4 mosaic of OpenTopoMap tiles at zoom 13,
anchored at tile (2487, 2947). The user clicks on the map to draw a path, and
the page shows the path's real-world length in miles. Two pieces of
per-session state sit behind the exercise:

- **The tile loader.** `loadTiles` issues one image request per grid cell.
  Each request settles exactly once, through `onload` or `onerror`. A settle
  increments `tilesLoaded` and pushes one `{img, i, j}` record onto
  `tileImages`. A failed tile is replaced by a white 256×256 placeholder.
  The settle that brings the count to 16 calls `draw()`.
- **The path recorder.** A click appends the clicked pixel and its projection
  to `pathPoints`, redraws the map and recomputes the length text. The reset
  button empties the path and the text and then redraws.

Modules, one per component of the script:

- `Geodesy`: the grid constants, the pixel-to-longitude map (exact over
  reals), the latitude and haversine formulas, and the OSM tile-edge formulas
  they are checked against. The host's `Math.sin`, `cos`, `sqrt`, `atan`,
  `atan2` and `sinh` are a `MathLib` parameter, and nothing is assumed about
  them unless a lemma says so in its `requires`. `Math.PI` is the real
  3.141592653589793, the decimal form of that double; the double itself
  is a rounding of pi.
- `TileUrl`: the z/x/y tile address and a parser for it. The parser serves
  as the address's inverse.
- `Tiles`: the requests of `loadTiles`, settle events, and the loader as a
  pure state machine (`Settle`, `Replay`, `DrawCount`).
- `Canvas`: what one `draw()` issues, as a list of abstract commands
  (`Frame`), and which tile image ends up on top at a pixel (`ImageAt`).
- `Path`: path points, the segment sum, the length text (`PathLength`), and
  the recorder as a pure state machine (`Click`, `Reset`, `Run`).
- `Session`: the class `MapSession`, with the script's variables as fields
  and its handlers as methods. Each method's contract ties the new state to
  the pure step functions above. The canvas is a field holding every command
  issued so far.
- `Wrappers`: `Option`.

## Model

| member | source | states |
|---|---|---|
| `Geodesy.GridConstants` | script.js:15-17 | n is 2^zoom with zoom 13, and the world is tileSize·n pixels wide |
| `Geodesy.LonAtTileEdge` | script.js:95-98 | pixel column i·256 maps to the west edge of world tile column 2487 + i |
| `Geodesy.LatAtTileEdge` | script.js:95-101 | pixel row j·256 maps to the north edge of world tile row 2947 + j (the inverse-Mercator formula) |
| `Geodesy.LonStrictlyIncreasing` | script.js:96-98 | longitude strictly increases with the pixel column |
| `Geodesy.LonRoundTrip` | script.js:96-98 | the longitude map is a bijection on reals: it and `PixelForLon` are inverse in both directions |
| `Geodesy.LonWithinMosaic` | script.js:96-98 | pixel columns 0..1024 span exactly the longitudes of tiles 2487..2490 and stay within [-180, 180] |
| `Geodesy.LatStrictlyDecreasing` | script.js:97-100 | if atan and sinh are increasing, latitude strictly decreases down the mosaic |
| `Geodesy.HaversineLonShift` | script.js:104-114 | the distance depends on the longitudes only through their difference |
| `TileUrl.ParseRender` | script.js:40 | parsing the address `https://a.tile.opentopomap.org/z/x/y.png` gives back (z, x, y) |
| `TileUrl.RenderInjective` | script.js:40 | distinct tiles get distinct addresses |
| `Tiles.LoadTiles` | script.js:33-40 | the nested loops issue the requests of `Requests()`, with i in the outer loop and j in the inner one |
| `Tiles.RequestsAreOfGridCells` | script.js:34-37 | there are tilesX·tilesY = 16 requests, each for a cell (i, j) with 0 ≤ i, j < 4 |
| `Tiles.RequestsCoverGridOnce` | script.js:34-37 | every grid cell is requested, and no cell is requested twice |
| `Tiles.RequestAddress` | script.js:36-40 | the address for cell (i, j) names zoom 13, column 2487 + i and row 2947 + j |
| `Tiles.ReplayRecords` | script.js:41-59 | after k settles, success or failure in any order, the counter is k and there are k records; record k belongs to event k, carries its (i, j), and is the white 256×256 placeholder when that event failed |
| `Tiles.DrawFiresAtSixteenth` | script.js:41-62 | a settle runs `draw()` exactly when it is the sixteenth |
| `Tiles.DrawFiresOnce` | script.js:41-62 | over any sequence of settles, `draw()` runs once if there are at least 16 and never otherwise |
| `Tiles.DrawFiresOnceWhenEachTileOnce` | script.js:41-62 | when each tile settles once, `draw()` runs exactly once, on the last settle |
| `Tiles.EachTileOnceCoversGrid` | script.js:34-37 | sixteen settles for distinct grid cells cover every cell of the 4×4 grid |
| `Canvas.PathOverlayInClickOrder` | script.js:76-91 | the path is one line whose k-th vertex is the k-th click, then one dot per click in click order; nothing is drawn for an empty path |
| `Canvas.TileCommandCovers` | script.js:72-74 | a record's image covers exactly the pixels of its own cell (i·256, j·256) |
| `Canvas.TileCommandInCanvas` | script.js:72-74 | a tile of the grid is drawn inside the 1024×1024 canvas |
| `Canvas.FrameShowsTiles` | script.js:70-91 | drawing the path over the map never changes which tile image shows at a pixel |
| `Canvas.ImageAtOwnCell` | script.js:72-74 | with one record per cell, a pixel shows the image of its own cell's record, wherever that record is in the list |
| `Canvas.ImageAtEmptyCell` | script.js:72-74 | a pixel whose cell has no record yet shows no image |
| `Canvas.ReplayShowsEvent` | script.js:41-74 | when the settled cells are distinct, a pixel whose cell has settled shows that settle's record: the fetched tile or the white placeholder |
| `Canvas.ReplayShowsNothing` | script.js:41-74 | a pixel whose cell has not settled yet shows no tile |
| `Canvas.MosaicComplete` | script.js:50-74 | once each tile has settled once, every canvas pixel shows its cell's tile: the fetched image, or the white placeholder where the fetch failed |
| `Canvas.MosaicOrderIndependent` | script.js:72-74 | two completion orders of the same settles paint the same mosaic |
| `Path.ComputeLength` | script.js:116-129 | the length is empty for fewer than 2 points, otherwise the sum of consecutive-pair distances in click order divided by 1609.34 |
| `Path.TotalMetersSplit` | script.js:121-126 | cutting a path at any point splits its total into the totals of the two pieces |
| `Path.TotalMetersEitherEnd` | script.js:121-126 | summing the segments from either end gives the same total |
| `Path.PathLengthCases` | script.js:116-127 | the length is empty iff there are fewer than 2 points; for 2 points it is their one distance in miles; one more point adds the distance from the last point |
| `Path.RunRecordsClicksSinceReset` | script.js:131-147 | after any clicks and resets, the path is exactly the points of the clicks since the last reset, in click order, never reordered or deduplicated |
| `Path.RunKeepsLengthText` | script.js:137-147 | after any clicks and resets, the length text is the length of the current path |
| `Path.ClickAppends` | script.js:137-138 | a click appends one projected point at the end and leaves earlier points unchanged |
| `Path.ResetIdempotent` | script.js:143-145 | reset empties the path and the text, and resetting twice is resetting once |
| `Session.MapSession.constructor` | script.js:24-30 | the canvas is 1024×1024; nothing is loaded, the path is empty and nothing is drawn |
| `Session.MapSession.Draw` | script.js:70-92 | appends to the canvas the tiles in record order, then the path line and the dots |
| `Session.MapSession.OnLoad` | script.js:41-49 | performs one `Settle` step for a success, drawing exactly when that step fires |
| `Session.MapSession.OnError` | script.js:50-63 | performs one `Settle` step for a failure (a white placeholder), drawing exactly when that step fires |
| `Session.MapSession.UpdateLength` | script.js:116-129 | sets the length text to the length of the current path |
| `Session.MapSession.Click` | script.js:131-141 | appends the projected point, draws the full frame and updates the length, keeping the session invariant |
| `Session.MapSession.Reset` | script.js:143-147 | empties the path and the text and redraws the tiles, keeping the session invariant |

## Left out

- Network fetches, `crossOrigin` and the `Image` lifecycle are left out. Each request becomes a settle event, a success or a failure, delivered in any order. A fetch that never settles is simply an event that never arrives.
- Canvas pixels, stroke and fill styles (`#e74c3c`, line width 3) and the arc geometry are not modelled. `draw()` produces abstract commands. `ImageAt` tracks only which tile image is on top at a pixel, not the pixels of the path.
- Reset does not clear the canvas: it redraws the loaded tiles over the old path. `MapSession.Reset` models this: the old path's commands stay in the `canvas` log, and the tiles drawn after them hide it only where a tile has already loaded. Pixels of the path itself are not modelled, so the model does not say which parts of the old path stay visible.
- The DOM wiring, the `DOMContentLoaded` and `if (canvas)` guards, and the click scaling through `getBoundingClientRect` are left out. `MapSession.Click` takes the scaled pixel (px, py) directly.
- `toFixed(2)` and the HTML of the length text are left out. The text is `Option<real>`: `None` is the empty text, and `Some(miles)` is the shown length.
- Floating-point arithmetic is modelled as exact reals. That drops rounding, including the rounding order of the segment sum.
- `Geodesy.Haversine` and `Geodesy.Lat`: the values of sin, cos, sqrt, atan, atan2 and sinh are not modelled. So symmetry of the distance, zero distance for equal points and the ~111 km per equatorial degree are not proved. Only properties of the formulas' structure are proved, such as longitude-shift invariance and monotonicity given monotone atan and sinh.
- MapSession.constructor: the model assumes the length output starts empty (`lengthText == None`). The script writes the length text only in `updateLength` and in the reset handler, so its content before the first click or reset comes from the page's HTML, which is not part of this model.
- Out-of-canvas clicks are projected like any other click, as in the code. No bounds are checked.
