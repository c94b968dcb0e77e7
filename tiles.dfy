/**
 * The 4x4 tile mosaic loader (script.js, loadTiles and its onload/onerror
 * handlers), as a pure state machine over settle events.  Network fetches
 * are not modelled: each requested tile settles by one event, a success or a
 * failure, and the events arrive in any order.
 */
module Tiles {
  import opened Geodesy
  import TileUrl
  import opened Wrappers

  const TILES_X: int := 4
  const TILES_Y: int := 4
  /** Number of tiles in the mosaic. */
  const TILE_COUNT: int := TILES_X * TILES_Y
  /** Fill colour of the placeholder drawn for a tile that failed to load. */
  const BLANK_FILL: string := "#ffffff"

  /** What a tile record holds: the fetched image of a world tile, or a placeholder canvas. */
  datatype Bitmap =
    | Fetched(xTile: int, yTile: int)
    | Blank(width: int, height: int, fill: string)

  /** One entry of tileImages: an image and the grid cell (i, j) it belongs to. */
  datatype TileRecord = TileRecord(img: Bitmap, i: int, j: int)

  /** One image request issued by loadTiles. */
  datatype TileRequest = TileRequest(i: int, j: int, url: string)

  /** The settling of the request for cell (i, j): onload or onerror. */
  datatype SettleEvent = Loaded(i: int, j: int) | Errored(i: int, j: int)

  /** The loader's state: the tilesLoaded counter and the tileImages list. */
  datatype Loader = Loader(tilesLoaded: int, tileImages: seq<TileRecord>)

  predicate InGrid(i: int, j: int)
  {
    0 <= i < TILES_X && 0 <= j < TILES_Y
  }

  function Request(i: int, j: int): TileRequest
    requires InGrid(i, j)
  {
    TileRequest(i, j, TileUrl.Render(ZOOM, X_START + i, Y_START + j))
  }

  /** The requests of loadTiles in issue order: i in the outer loop, j in the inner. */
  function Requests(): seq<TileRequest>
  {
    seq(TILE_COUNT, k requires 0 <= k < TILE_COUNT => Request(k / TILES_Y, k % TILES_Y))
  }

  /** Issues one request per grid cell, column by column. */
  method LoadTiles() returns (requests: seq<TileRequest>)
    ensures requests == Requests()
  {
    requests := [];
    var i := 0;
    while i < TILES_X
      invariant 0 <= i <= TILES_X
      invariant |requests| == i * TILES_Y
      invariant forall k :: 0 <= k < |requests| ==> requests[k] == Request(k / TILES_Y, k % TILES_Y)
    {
      var j := 0;
      while j < TILES_Y
        invariant 0 <= j <= TILES_Y
        invariant |requests| == i * TILES_Y + j
        invariant forall k :: 0 <= k < |requests| ==> requests[k] == Request(k / TILES_Y, k % TILES_Y)
      {
        CellIndex(i, j);
        requests := requests + [Request(i, j)];
        j := j + 1;
      }
      i := i + 1;
    }
  }

  /** Index k = 4i + j of the request for cell (i, j), and back. */
  lemma CellIndex(i: int, j: int)
    requires InGrid(i, j)
    ensures (i * TILES_Y + j) / TILES_Y == i && (i * TILES_Y + j) % TILES_Y == j
    ensures 0 <= i * TILES_Y + j < TILE_COUNT
  {
  }

  /**
   * loadTiles issues TILES_X * TILES_Y requests, each the request of a grid
   * cell, and the request of cell (i, j) is for that cell's own tile.
   */
  lemma RequestsAreOfGridCells()
    ensures |Requests()| == TILES_X * TILES_Y
    ensures forall k :: 0 <= k < |Requests()| ==>
      InGrid(Requests()[k].i, Requests()[k].j) && Requests()[k] == Request(Requests()[k].i, Requests()[k].j)
  {
  }

  /** The address requested for cell (i, j) names zoom 13, column X_START + i and row Y_START + j. */
  lemma RequestAddress(i: int, j: int)
    requires InGrid(i, j)
    ensures Request(i, j).i == i && Request(i, j).j == j
    ensures TileUrl.Parse(Request(i, j).url) == Some((ZOOM, X_START + i, Y_START + j))
  {
    TileUrl.ParseRender(ZOOM, X_START + i, Y_START + j);
  }

  /** Every cell of the grid is requested, and no cell twice. */
  lemma RequestsCoverGridOnce()
    ensures forall i, j :: InGrid(i, j) ==>
      exists k :: 0 <= k < |Requests()| && Requests()[k].i == i && Requests()[k].j == j
    ensures forall a, b :: 0 <= a < b < |Requests()| ==>
      (Requests()[a].i, Requests()[a].j) != (Requests()[b].i, Requests()[b].j)
  {
    var rs := Requests();
    forall i, j | InGrid(i, j)
      ensures exists k :: 0 <= k < |rs| && rs[k].i == i && rs[k].j == j
    {
      CellIndex(i, j);
      var k := i * TILES_Y + j;
      assert rs[k] == Request(i, j);
    }
    forall a, b | 0 <= a < b < |rs|
      ensures (rs[a].i, rs[a].j) != (rs[b].i, rs[b].j)
    {
      assert rs[a] == Request(a / TILES_Y, a % TILES_Y);
      assert rs[b] == Request(b / TILES_Y, b % TILES_Y);
      assert a == (a / TILES_Y) * TILES_Y + a % TILES_Y;
      assert b == (b / TILES_Y) * TILES_Y + b % TILES_Y;
    }
  }

  const INITIAL: Loader := Loader(0, [])

  /** The placeholder substituted for a failed tile: a white tile-sized canvas. */
  function BlankTile(): Bitmap
  {
    Blank(TILE_SIZE, TILE_SIZE, BLANK_FILL)
  }

  /** The record a settle event pushes onto tileImages. */
  function Record(e: SettleEvent): TileRecord
  {
    match e
    case Loaded(i, j) => TileRecord(Fetched(X_START + i, Y_START + j), i, j)
    case Errored(i, j) => TileRecord(BlankTile(), i, j)
  }

  /**
   * One handler run: count the tile, store its record, and report whether
   * this was the settle that brought the count to TILE_COUNT (and so ran draw()).
   */
  function Settle(s: Loader, e: SettleEvent): (r: (Loader, bool))
  {
    var n := s.tilesLoaded + 1;
    (Loader(n, s.tileImages + [Record(e)]), n == TILE_COUNT)
  }

  /** The loader's state after the events, in the order given, from the start. */
  function Replay(events: seq<SettleEvent>): (s: Loader)
  {
    if events == [] then INITIAL
    else Settle(Replay(events[..|events| - 1]), events[|events| - 1]).0
  }

  /** How many of the events ran draw(). */
  function DrawCount(events: seq<SettleEvent>): nat
  {
    if events == [] then 0
    else
      var prefix := events[..|events| - 1];
      DrawCount(prefix) + if Settle(Replay(prefix), events[|events| - 1]).1 then 1 else 0
  }

  /**
   * Every settle, success or failure, counts once and stores one record for
   * its own cell: after k events the counter is k, there are k records, and
   * record k belongs to event k (a failed tile's record is the white placeholder).
   */
  lemma {:induction false} ReplayRecords(events: seq<SettleEvent>)
    ensures Replay(events).tilesLoaded == |events| == |Replay(events).tileImages|
    ensures forall k :: 0 <= k < |events| ==> Replay(events).tileImages[k] == Record(events[k])
    ensures forall k :: 0 <= k < |events| ==>
      && Replay(events).tileImages[k].i == events[k].i
      && Replay(events).tileImages[k].j == events[k].j
      && (events[k].Errored? ==> Replay(events).tileImages[k].img == BlankTile())
  {
    if events != [] {
      var prefix := events[..|events| - 1];
      ReplayRecords(prefix);
      assert forall k :: 0 <= k < |prefix| ==> prefix[k] == events[k];
    }
  }

  /** The settle at position k runs draw() exactly when it is the sixteenth. */
  lemma DrawFiresAtSixteenth(events: seq<SettleEvent>, k: int)
    requires 0 <= k < |events|
    ensures Settle(Replay(events[..k]), events[k]).1 <==> k == TILE_COUNT - 1
  {
    ReplayRecords(events[..k]);
  }

  /**
   * draw() runs once when at least TILE_COUNT tiles have settled and never
   * before, whatever the order and mix of successes and failures.
   */
  lemma {:induction false} DrawFiresOnce(events: seq<SettleEvent>)
    ensures DrawCount(events) == if |events| >= TILE_COUNT then 1 else 0
  {
    if events != [] {
      var prefix := events[..|events| - 1];
      DrawFiresOnce(prefix);
      DrawFiresAtSixteenth(events, |events| - 1);
    }
  }

  /** The grid cell an event settles. */
  function CellOf(e: SettleEvent): (int, int)
  {
    (e.i, e.j)
  }

  predicate DistinctCells(events: seq<SettleEvent>)
  {
    forall a, b :: 0 <= a < b < |events| ==> CellOf(events[a]) != CellOf(events[b])
  }

  /** Each of the sixteen requested tiles settles exactly once, in some order. */
  predicate EachTileOnce(events: seq<SettleEvent>)
  {
    && |events| == TILE_COUNT
    && (forall k :: 0 <= k < |events| ==> InGrid(events[k].i, events[k].j))
    && DistinctCells(events)
  }

  /** When every tile settles once, draw() runs exactly once, on the last settle. */
  lemma DrawFiresOnceWhenEachTileOnce(events: seq<SettleEvent>)
    requires EachTileOnce(events)
    ensures DrawCount(events) == 1
    ensures Settle(Replay(events[..|events| - 1]), events[|events| - 1]).1
  {
    DrawFiresOnce(events);
    DrawFiresAtSixteenth(events, |events| - 1);
  }

  function Elements<T>(s: seq<T>): set<T>
  {
    set k | 0 <= k < |s| :: s[k]
  }

  lemma {:induction false} DistinctCardinality<T>(s: seq<T>)
    requires forall a, b :: 0 <= a < b < |s| ==> s[a] != s[b]
    ensures |Elements(s)| == |s|
  {
    if s != [] {
      var p := s[..|s| - 1];
      DistinctCardinality(p);
      assert Elements(s) == Elements(p) + {s[|s| - 1]};
      assert s[|s| - 1] !in Elements(p);
    }
  }

  /** The cells of the grid in request order. */
  function GridCells(): seq<(int, int)>
  {
    seq(TILE_COUNT, k requires 0 <= k < TILE_COUNT => (k / TILES_Y, k % TILES_Y))
  }

  /**
   * Sixteen distinct cells of the 4x4 grid are all of it: when each tile
   * settles once, every cell of the grid has its settle event.
   */
  lemma EachTileOnceCoversGrid(events: seq<SettleEvent>)
    requires EachTileOnce(events)
    ensures forall i, j :: InGrid(i, j) ==>
      exists k :: 0 <= k < |events| && events[k].i == i && events[k].j == j
  {
    var cells := seq(|events|, k requires 0 <= k < |events| => CellOf(events[k]));
    var grid := GridCells();
    DistinctCardinality(cells);
    forall a, b | 0 <= a < b < |grid| ensures grid[a] != grid[b] {
      assert a == (a / TILES_Y) * TILES_Y + a % TILES_Y;
      assert b == (b / TILES_Y) * TILES_Y + b % TILES_Y;
    }
    DistinctCardinality(grid);
    var have, all := Elements(cells), Elements(grid);
    forall c | c in have ensures c in all {
      var k :| 0 <= k < |cells| && cells[k] == c;
      CellIndex(c.0, c.1);
      assert grid[c.0 * TILES_Y + c.1] == c;
    }
    SubsetOfSameSize(have, all);
    forall i, j | InGrid(i, j)
      ensures exists k :: 0 <= k < |events| && events[k].i == i && events[k].j == j
    {
      CellIndex(i, j);
      assert grid[i * TILES_Y + j] == (i, j);
      assert (i, j) in have;
      var k :| 0 <= k < |cells| && cells[k] == (i, j);
      assert events[k].i == i && events[k].j == j;
    }
  }

  lemma SubsetOfSameSize<T>(a: set<T>, b: set<T>)
    requires a <= b && |a| == |b|
    ensures a == b
  {
    if a != b {
      var x :| x in b && x !in a;
      SubsetCardinality(a, b - {x});
    }
  }

  lemma {:induction false} SubsetCardinality<T>(a: set<T>, b: set<T>)
    requires a <= b
    ensures |a| <= |b|
  {
    if a != {} {
      var x :| x in a;
      SubsetCardinality(a - {x}, b - {x});
    }
  }
}
