/**
 * What draw() puts on the canvas (script.js, draw), as a list of abstract
 * drawing commands, and which tile image ends up on top at each pixel.
 */
module Canvas {
  import opened Wrappers
  import opened Geodesy
  import opened Tiles
  import opened Path

  /** The canvas is sized to the tile grid: TILE_SIZE * TILES_X by TILE_SIZE * TILES_Y. */
  const CANVAS_WIDTH: int := TILE_SIZE * TILES_X
  const CANVAS_HEIGHT: int := TILE_SIZE * TILES_Y
  /** Radius of the dot drawn at each path point. */
  const MARKER_RADIUS: real := 4.0

  datatype DrawCommand =
    | DrawImage(img: Bitmap, x: int, y: int, w: int, h: int)
    | Polyline(vertices: seq<(real, real)>)
    | Marker(cx: real, cy: real, radius: real)

  /** A tile record is drawn in its own cell, whatever its position in the list. */
  function TileCommand(r: TileRecord): DrawCommand
  {
    DrawImage(r.img, r.i * TILE_SIZE, r.j * TILE_SIZE, TILE_SIZE, TILE_SIZE)
  }

  function TileCommands(rs: seq<TileRecord>): seq<DrawCommand>
  {
    seq(|rs|, k requires 0 <= k < |rs| => TileCommand(rs[k]))
  }

  function Vertex(p: PathPoint): (real, real)
  {
    (p.px, p.py)
  }

  function Vertices(pts: seq<PathPoint>): seq<(real, real)>
  {
    seq(|pts|, k requires 0 <= k < |pts| => Vertex(pts[k]))
  }

  function Markers(pts: seq<PathPoint>): seq<DrawCommand>
  {
    seq(|pts|, k requires 0 <= k < |pts| => Marker(pts[k].px, pts[k].py, MARKER_RADIUS))
  }

  /** The path drawn over the map: one line through the points, then a dot per point. */
  function PathOverlay(pts: seq<PathPoint>): seq<DrawCommand>
  {
    if |pts| == 0 then [] else [Polyline(Vertices(pts))] + Markers(pts)
  }

  /** Everything one draw() issues: the tiles, then the path. */
  function Frame(rs: seq<TileRecord>, pts: seq<PathPoint>): (cmds: seq<DrawCommand>)
  {
    TileCommands(rs) + PathOverlay(pts)
  }

  /** The path is drawn in click order: one line whose k-th vertex is the k-th click, and one dot per click. */
  lemma PathOverlayInClickOrder(pts: seq<PathPoint>)
    ensures |pts| == 0 ==> PathOverlay(pts) == []
    ensures |pts| > 0 ==>
      && |PathOverlay(pts)| == 1 + |pts|
      && PathOverlay(pts)[0].Polyline?
      && |PathOverlay(pts)[0].vertices| == |pts|
      && (forall k :: 0 <= k < |pts| ==> PathOverlay(pts)[0].vertices[k] == (pts[k].px, pts[k].py))
      && (forall k :: 0 <= k < |pts| ==> PathOverlay(pts)[1 + k] == Marker(pts[k].px, pts[k].py, MARKER_RADIUS))
  {
    if |pts| > 0 {
      assert PathOverlay(pts)[0] == Polyline(Vertices(pts));
      assert PathOverlay(pts)[1..] == Markers(pts);
    }
  }

  predicate Covers(c: DrawCommand, x: int, y: int)
  {
    c.DrawImage? && c.x <= x < c.x + c.w && c.y <= y < c.y + c.h
  }

  /** The image painted last over pixel (x, y), if any. */
  function ImageAt(cmds: seq<DrawCommand>, x: int, y: int): Option<Bitmap>
  {
    if cmds == [] then None
    else if Covers(cmds[|cmds| - 1], x, y) then Some(cmds[|cmds| - 1].img)
    else ImageAt(cmds[..|cmds| - 1], x, y)
  }

  /** A tile's command covers exactly the pixels of its cell. */
  lemma TileCommandCovers(r: TileRecord, x: int, y: int)
    ensures Covers(TileCommand(r), x, y) <==> r.i == x / TILE_SIZE && r.j == y / TILE_SIZE
  {
    assert x == (x / TILE_SIZE) * TILE_SIZE + x % TILE_SIZE;
    assert y == (y / TILE_SIZE) * TILE_SIZE + y % TILE_SIZE;
  }

  /** A tile of the grid is drawn inside the canvas. */
  lemma TileCommandInCanvas(r: TileRecord)
    requires InGrid(r.i, r.j)
    ensures var c := TileCommand(r);
      0 <= c.x && c.x + c.w <= CANVAS_WIDTH && 0 <= c.y && c.y + c.h <= CANVAS_HEIGHT
  {
  }

  /** Commands that draw no image do not change which image shows at a pixel. */
  lemma {:induction false} ImageAtIgnoresOverlay(a: seq<DrawCommand>, b: seq<DrawCommand>, x: int, y: int)
    requires forall k :: 0 <= k < |b| ==> !b[k].DrawImage?
    ensures ImageAt(a + b, x, y) == ImageAt(a, x, y)
  {
    if b != [] {
      var b' := b[..|b| - 1];
      assert (a + b)[..|a + b| - 1] == a + b';
      ImageAtIgnoresOverlay(a, b', x, y);
    } else {
      assert a + b == a;
    }
  }

  /** The path drawn over the map never changes which tile shows at a pixel. */
  lemma FrameShowsTiles(rs: seq<TileRecord>, pts: seq<PathPoint>, x: int, y: int)
    ensures ImageAt(Frame(rs, pts), x, y) == ImageAt(TileCommands(rs), x, y)
  {
    ImageAtIgnoresOverlay(TileCommands(rs), PathOverlay(pts), x, y);
  }

  predicate DistinctRecordCells(rs: seq<TileRecord>)
  {
    forall a, b :: 0 <= a < b < |rs| ==> (rs[a].i, rs[a].j) != (rs[b].i, rs[b].j)
  }

  /** With one record per cell, a pixel shows the image of the record for its cell. */
  lemma {:induction false} ImageAtOwnCell(rs: seq<TileRecord>, x: int, y: int, k: int)
    requires DistinctRecordCells(rs)
    requires 0 <= k < |rs| && rs[k].i == x / TILE_SIZE && rs[k].j == y / TILE_SIZE
    ensures ImageAt(TileCommands(rs), x, y) == Some(rs[k].img)
  {
    var cmds := TileCommands(rs);
    var last := |rs| - 1;
    TileCommandCovers(rs[last], x, y);
    if k < last {
      assert cmds[..last] == TileCommands(rs[..last]);
      ImageAtOwnCell(rs[..last], x, y, k);
    }
  }

  /** A pixel whose cell has no record shows no image. */
  lemma {:induction false} ImageAtEmptyCell(rs: seq<TileRecord>, x: int, y: int)
    requires forall k :: 0 <= k < |rs| ==> (rs[k].i, rs[k].j) != (x / TILE_SIZE, y / TILE_SIZE)
    ensures ImageAt(TileCommands(rs), x, y) == None
  {
    if rs != [] {
      var last := |rs| - 1;
      TileCommandCovers(rs[last], x, y);
      assert TileCommands(rs)[..last] == TileCommands(rs[..last]);
      ImageAtEmptyCell(rs[..last], x, y);
    }
  }

  lemma ReplayDistinct(events: seq<SettleEvent>)
    requires DistinctCells(events)
    ensures DistinctRecordCells(Replay(events).tileImages)
    ensures |Replay(events).tileImages| == |events|
    ensures forall k :: 0 <= k < |events| ==> Replay(events).tileImages[k] == Record(events[k])
  {
    ReplayRecords(events);
    var rs := Replay(events).tileImages;
    forall a, b | 0 <= a < b < |rs| ensures (rs[a].i, rs[a].j) != (rs[b].i, rs[b].j) {
      assert CellOf(events[a]) != CellOf(events[b]);
    }
  }

  /**
   * Once each tile has settled once, every pixel of the canvas shows the
   * image of its own cell's tile, drawn under the path: a fetched tile, or
   * the white placeholder where the fetch failed; no pixel is left without one.
   */
  lemma MosaicComplete(events: seq<SettleEvent>, pts: seq<PathPoint>, x: int, y: int)
    requires EachTileOnce(events)
    requires 0 <= x < CANVAS_WIDTH && 0 <= y < CANVAS_HEIGHT
    ensures ImageAt(Frame(Replay(events).tileImages, pts), x, y).Some?
    ensures forall k :: 0 <= k < |events| && CellOf(events[k]) == (x / TILE_SIZE, y / TILE_SIZE) ==>
      ImageAt(Frame(Replay(events).tileImages, pts), x, y) == Some(Record(events[k]).img)
    ensures forall k :: 0 <= k < |events| && events[k] == Errored(x / TILE_SIZE, y / TILE_SIZE) ==>
      ImageAt(Frame(Replay(events).tileImages, pts), x, y) == Some(BlankTile())
  {
    EachTileOnceCoversGrid(events);
    assert InGrid(x / TILE_SIZE, y / TILE_SIZE);
    var k0 :| 0 <= k0 < |events| && events[k0].i == x / TILE_SIZE && events[k0].j == y / TILE_SIZE;
    FrameShowsCellTile(events, pts, x, y, k0);
    forall k | 0 <= k < |events| && CellOf(events[k]) == (x / TILE_SIZE, y / TILE_SIZE)
      ensures ImageAt(Frame(Replay(events).tileImages, pts), x, y) == Some(Record(events[k]).img)
    {
      FrameShowsCellTile(events, pts, x, y, k);
    }
  }

  /** With distinct cells, a pixel of a frame shows the record of the settle for its cell. */
  lemma FrameShowsCellTile(events: seq<SettleEvent>, pts: seq<PathPoint>, x: int, y: int, k: int)
    requires DistinctCells(events)
    requires 0 <= k < |events| && CellOf(events[k]) == (x / TILE_SIZE, y / TILE_SIZE)
    ensures ImageAt(Frame(Replay(events).tileImages, pts), x, y) == Some(Record(events[k]).img)
  {
    FrameShowsTiles(Replay(events).tileImages, pts, x, y);
    ReplayShowsEvent(events, x, y, k);
  }

  /**
   * Which tile shows at a pixel does not depend on the order in which the
   * tiles settled: two orders of the same settle events paint the same mosaic.
   */
  lemma MosaicOrderIndependent(e1: seq<SettleEvent>, e2: seq<SettleEvent>, x: int, y: int)
    requires DistinctCells(e1) && DistinctCells(e2)
    requires multiset(e1) == multiset(e2)
    ensures ImageAt(TileCommands(Replay(e1).tileImages), x, y)
         == ImageAt(TileCommands(Replay(e2).tileImages), x, y)
  {
    var cell := (x / TILE_SIZE, y / TILE_SIZE);
    if k1 :| 0 <= k1 < |e1| && CellOf(e1[k1]) == cell {
      assert e1[k1] in multiset(e2);
      var k2 :| 0 <= k2 < |e2| && e2[k2] == e1[k1];
      ReplayShowsEvent(e1, x, y, k1);
      ReplayShowsEvent(e2, x, y, k2);
    } else {
      forall k2 | 0 <= k2 < |e2| ensures CellOf(e2[k2]) != cell {
        assert e2[k2] in multiset(e1);
      }
      ReplayShowsNothing(e1, x, y);
      ReplayShowsNothing(e2, x, y);
    }
  }

  /** With distinct cells, a pixel shows the record of the settle for its cell. */
  lemma ReplayShowsEvent(events: seq<SettleEvent>, x: int, y: int, k: int)
    requires DistinctCells(events)
    requires 0 <= k < |events| && CellOf(events[k]) == (x / TILE_SIZE, y / TILE_SIZE)
    ensures ImageAt(TileCommands(Replay(events).tileImages), x, y) == Some(Record(events[k]).img)
  {
    ReplayDistinct(events);
    ImageAtOwnCell(Replay(events).tileImages, x, y, k);
  }

  /** A pixel whose cell has not settled shows no image. */
  lemma ReplayShowsNothing(events: seq<SettleEvent>, x: int, y: int)
    requires forall k :: 0 <= k < |events| ==> CellOf(events[k]) != (x / TILE_SIZE, y / TILE_SIZE)
    ensures ImageAt(TileCommands(Replay(events).tileImages), x, y) == None
  {
    ReplayRecords(events);
    ImageAtEmptyCell(Replay(events).tileImages, x, y);
  }
}
