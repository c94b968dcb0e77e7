/**
 * The page's per-session state and its event handlers (script.js, the
 * closure set up when the map canvas exists): the tile counter and records,
 * the clicked points, the length text and the canvas the handlers draw on.
 */
module Session {
  import opened Wrappers
  import opened Geodesy
  import opened Tiles
  import opened Path
  import opened Canvas

  class MapSession {
    /** The host's transcendental functions. */
    const math: MathLib
    const width: int
    const height: int
    var tilesLoaded: int
    var tileImages: seq<TileRecord>
    var pathPoints: seq<PathPoint>
    /** The length text: None is the empty text, Some(miles) the shown length. */
    var lengthText: Option<real>
    /** Every drawing command issued to the canvas, oldest first. */
    var canvas: seq<DrawCommand>

    /**
     * The counter equals the number of tile records, every recorded point is
     * the projection of its pixel, and the length text matches the path.
     */
    ghost predicate Valid()
      reads this
    {
      && width == CANVAS_WIDTH && height == CANVAS_HEIGHT
      && tilesLoaded == |tileImages|
      && (forall k :: 0 <= k < |pathPoints| ==> Projected(math, pathPoints[k]))
      && lengthText == PathLength(math, pathPoints)
    }

    function LoaderState(): Loader
      reads this
    {
      Loader(tilesLoaded, tileImages)
    }

    function RecorderState(): Recorder
      reads this
    {
      Recorder(pathPoints, lengthText)
    }

    /** Canvas sized to the tile grid, nothing loaded, no path, nothing drawn. */
    constructor (m: MathLib)
      ensures Valid()
      ensures math == m
      ensures LoaderState() == INITIAL && RecorderState() == EMPTY && canvas == []
    {
      math := m;
      width := TILE_SIZE * TILES_X;
      height := TILE_SIZE * TILES_Y;
      tilesLoaded := 0;
      tileImages := [];
      pathPoints := [];
      lengthText := None;
      canvas := [];
    }

    /** Draws every stored tile in its cell, then the path in click order. */
    method Draw()
      modifies this`canvas
      ensures canvas == old(canvas) + Frame(tileImages, pathPoints)
    {
      var k := 0;
      while k < |tileImages|
        invariant 0 <= k <= |tileImages|
        invariant canvas == old(canvas) + TileCommands(tileImages[..k])
      {
        assert TileCommands(tileImages[..k + 1]) == TileCommands(tileImages[..k]) + [TileCommand(tileImages[k])];
        canvas := canvas + [TileCommand(tileImages[k])];
        k := k + 1;
      }
      assert tileImages[..k] == tileImages;
      if |pathPoints| > 0 {
        var line := [Vertex(pathPoints[0])];
        var p := 1;
        while p < |pathPoints|
          invariant 1 <= p <= |pathPoints|
          invariant line == Vertices(pathPoints[..p])
        {
          assert Vertices(pathPoints[..p + 1]) == Vertices(pathPoints[..p]) + [Vertex(pathPoints[p])];
          line := line + [Vertex(pathPoints[p])];
          p := p + 1;
        }
        assert pathPoints[..p] == pathPoints;
        canvas := canvas + [Polyline(line)];
        ghost var withLine := canvas;
        var q := 0;
        while q < |pathPoints|
          invariant 0 <= q <= |pathPoints|
          invariant canvas == withLine + Markers(pathPoints[..q])
        {
          assert Markers(pathPoints[..q + 1])
            == Markers(pathPoints[..q]) + [Marker(pathPoints[q].px, pathPoints[q].py, MARKER_RADIUS)];
          canvas := canvas + [Marker(pathPoints[q].px, pathPoints[q].py, MARKER_RADIUS)];
          q := q + 1;
        }
        assert pathPoints[..q] == pathPoints;
        assert PathOverlay(pathPoints) == [Polyline(line)] + Markers(pathPoints);
      }
    }

    /** onload of the tile for cell (i, j). */
    method OnLoad(i: int, j: int)
      requires Valid()
      modifies this`tilesLoaded, this`tileImages, this`canvas
      ensures Valid()
      ensures LoaderState() == Settle(old(LoaderState()), Loaded(i, j)).0
      ensures canvas == old(canvas)
        + if Settle(old(LoaderState()), Loaded(i, j)).1 then Frame(tileImages, pathPoints) else []
    {
      tilesLoaded := tilesLoaded + 1;
      tileImages := tileImages + [TileRecord(Fetched(X_START + i, Y_START + j), i, j)];
      if tilesLoaded == TILE_COUNT {
        Draw();
      }
    }

    /** onerror of the tile for cell (i, j): a white placeholder takes its place. */
    method OnError(i: int, j: int)
      requires Valid()
      modifies this`tilesLoaded, this`tileImages, this`canvas
      ensures Valid()
      ensures LoaderState() == Settle(old(LoaderState()), Errored(i, j)).0
      ensures canvas == old(canvas)
        + if Settle(old(LoaderState()), Errored(i, j)).1 then Frame(tileImages, pathPoints) else []
    {
      tilesLoaded := tilesLoaded + 1;
      tileImages := tileImages + [TileRecord(BlankTile(), i, j)];
      if tilesLoaded == TILE_COUNT {
        Draw();
      }
    }

    /** Recomputes the length text from the current path. */
    method UpdateLength()
      modifies this`lengthText
      ensures lengthText == PathLength(math, pathPoints)
    {
      lengthText := ComputeLength(math, pathPoints);
    }

    /** A click on the canvas at pixel (px, py): record the point, redraw, update the length. */
    method Click(px: real, py: real)
      requires Valid()
      modifies this`pathPoints, this`lengthText, this`canvas
      ensures Valid()
      ensures RecorderState() == Path.Click(math, old(RecorderState()), px, py)
      ensures pathPoints == old(pathPoints) + [ClickPoint(math, px, py)]
      ensures canvas == old(canvas) + Frame(tileImages, pathPoints)
    {
      var g := PixelToLatLon(math, px, py);
      pathPoints := pathPoints + [PathPoint(px, py, g.lat, g.lon)];
      Draw();
      UpdateLength();
    }

    /** The reset button: empty path, empty length text, redraw. */
    method Reset()
      requires Valid()
      modifies this`pathPoints, this`lengthText, this`canvas
      ensures Valid()
      ensures RecorderState() == Path.Reset(old(RecorderState()))
      ensures pathPoints == [] && lengthText == None
      ensures canvas == old(canvas) + Frame(tileImages, [])
    {
      pathPoints := [];
      lengthText := None;
      Draw();
    }
  }

  /**
   * Three clicks, a reset, a second reset and one more click, checked from
   * the handlers' contracts alone.
   */
  method ClickResetScenario(m: MathLib)
  {
    var s := new MapSession(m);
    s.Click(0.0, 0.0);
    s.Click(256.0, 0.0);
    s.Click(256.0, 256.0);
    assert |s.pathPoints| == 3;
    assert s.pathPoints[0].px == 0.0 && s.pathPoints[1].px == 256.0 && s.pathPoints[2].py == 256.0;
    assert s.lengthText.Some?;
    s.Reset();
    assert s.pathPoints == [] && s.lengthText == None;
    s.Reset();
    assert s.pathPoints == [] && s.lengthText == None;
    s.Click(10.0, 20.0);
    assert |s.pathPoints| == 1 && s.lengthText == None;
  }
}
