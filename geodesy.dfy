/**
 * Projection of mosaic pixels to geographic coordinates and the
 * great-circle distance between two coordinates (script.js, pixelToLatLon
 * and haversine).
 *
 * The transcendental functions of the host (Math.sin, Math.cos, Math.sqrt,
 * Math.atan, Math.atan2, Math.sinh) are not defined here: they are handed in
 * as a `MathLib` value and nothing is assumed about them unless a lemma says
 * so in its `requires`.  Floating-point numbers are modelled as reals.
 */
module Geodesy {

  /** Side of one slippy-map tile, in pixels. */
  const TILE_SIZE: int := 256
  /** Zoom level of the mosaic. */
  const ZOOM: nat := 13
  /** Tiles per axis of the world grid at ZOOM, that is 2^ZOOM. */
  const N: int := 8192
  /** Tile indices of the mosaic's top-left tile. */
  const X_START: int := 2487
  const Y_START: int := 2947
  /** Width (and height) of the whole world map at ZOOM, in pixels. */
  const WORLD_PIXELS: real := 2097152.0
  /** The decimal form of the host's Math.PI; the double itself is a rounding of pi, and reals here are exact. */
  const PI: real := 3.141592653589793
  /** Earth radius used by the distance formula, in metres. */
  const EARTH_RADIUS: real := 6371000.0

  /** The host's transcendental functions, left uninterpreted. */
  datatype MathLib = MathLib(
    sin: real -> real,
    cos: real -> real,
    sqrt: real -> real,
    atan: real -> real,
    atan2: (real, real) -> real,
    sinh: real -> real)

  datatype GeoPoint = GeoPoint(lat: real, lon: real)

  function Pow2(k: nat): nat
  {
    if k == 0 then 1 else 2 * Pow2(k - 1)
  }

  /** The grid constants agree with each other: n = 2^zoom, and the world is n tiles wide. */
  lemma GridConstants()
    ensures N == Pow2(ZOOM)
    ensures WORLD_PIXELS == (TILE_SIZE * N) as real
  {
  }

  /** Longitude of the mosaic pixel column px: a linear map of the global pixel column. */
  function Lon(px: real): (lon: real)
  {
    ((X_START * TILE_SIZE) as real + px) / WORLD_PIXELS * 360.0 - 180.0
  }

  /** Latitude of the mosaic pixel row py, by the inverse Mercator relation. */
  function Lat(m: MathLib, py: real): (lat: real)
  {
    var globalY := (Y_START * TILE_SIZE) as real + py;
    var latRad := m.atan(m.sinh(PI * (1.0 - (2.0 * globalY) / WORLD_PIXELS)));
    (latRad * 180.0) / PI
  }

  function PixelToLatLon(m: MathLib, px: real, py: real): GeoPoint
  {
    GeoPoint(Lat(m, py), Lon(px))
  }

  /** Great-circle distance in metres by the haversine formula. */
  function Haversine(m: MathLib, lat1: real, lon1: real, lat2: real, lon2: real): (meters: real)
  {
    var toRad := PI / 180.0;
    var phi1 := lat1 * toRad;
    var phi2 := lat2 * toRad;
    var dPhi := (lat2 - lat1) * toRad;
    var dLambda := (lon2 - lon1) * toRad;
    var sPhi := m.sin(dPhi / 2.0);
    var sLambda := m.sin(dLambda / 2.0);
    var a := sPhi * sPhi + m.cos(phi1) * m.cos(phi2) * (sLambda * sLambda);
    var c := 2.0 * m.atan2(m.sqrt(a), m.sqrt(1.0 - a));
    EARTH_RADIUS * c
  }

  /** Longitude of the west edge of world tile column x (slippy-map convention). */
  function TileWestLon(x: int): real
  {
    x as real / N as real * 360.0 - 180.0
  }

  /** Latitude of the north edge of world tile row y (slippy-map convention). */
  function TileNorthLat(m: MathLib, y: int): real
  {
    m.atan(m.sinh(PI * (1.0 - 2.0 * y as real / N as real))) * 180.0 / PI
  }

  /** Pixel column whose longitude is lon: the inverse of Lon. */
  function PixelForLon(lon: real): real
  {
    (lon + 180.0) / 360.0 * WORLD_PIXELS - (X_START * TILE_SIZE) as real
  }

  /** Pixel column i * 256 of the mosaic is the west edge of world tile X_START + i. */
  lemma LonAtTileEdge(i: int)
    ensures Lon((i * TILE_SIZE) as real) == TileWestLon(X_START + i)
  {
  }

  /** Pixel row j * 256 of the mosaic is the north edge of world tile Y_START + j. */
  lemma LatAtTileEdge(m: MathLib, j: int)
    ensures Lat(m, (j * TILE_SIZE) as real) == TileNorthLat(m, Y_START + j)
  {
    var globalY := (Y_START * TILE_SIZE) as real + (j * TILE_SIZE) as real;
    assert (2.0 * globalY) / WORLD_PIXELS == 2.0 * (Y_START + j) as real / N as real;
  }

  /** Longitude strictly increases with the pixel column, so no two columns share one. */
  lemma LonStrictlyIncreasing(px1: real, px2: real)
    requires px1 < px2
    ensures Lon(px1) < Lon(px2)
  {
  }

  /** Lon and PixelForLon are inverse to each other. */
  lemma LonRoundTrip(px: real, lon: real)
    ensures PixelForLon(Lon(px)) == px
    ensures Lon(PixelForLon(lon)) == lon
  {
  }

  /** The mosaic's columns [0, 1024] span the longitudes of tiles X_START .. X_START + 3. */
  lemma LonWithinMosaic(px: real)
    requires 0.0 <= px <= (4 * TILE_SIZE) as real
    ensures TileWestLon(X_START) <= Lon(px) <= TileWestLon(X_START + 4)
    ensures -180.0 <= Lon(px) <= 180.0
  {
  }

  /**
   * When the host's atan and sinh are increasing (as the true functions are),
   * latitude strictly decreases from the top row of the mosaic downwards.
   */
  lemma LatStrictlyDecreasing(m: MathLib, py1: real, py2: real)
    requires forall a, b :: a < b ==> m.atan(a) < m.atan(b)
    requires forall a, b :: a < b ==> m.sinh(a) < m.sinh(b)
    requires py1 < py2
    ensures Lat(m, py2) < Lat(m, py1)
  {
    var g1 := (Y_START * TILE_SIZE) as real + py1;
    var g2 := (Y_START * TILE_SIZE) as real + py2;
    var u1 := PI * (1.0 - (2.0 * g1) / WORLD_PIXELS);
    var u2 := PI * (1.0 - (2.0 * g2) / WORLD_PIXELS);
    assert u2 < u1;
    assert m.atan(m.sinh(u2)) < m.atan(m.sinh(u1));
  }

  /** The distance depends on the two longitudes only through their difference. */
  lemma HaversineLonShift(m: MathLib, lat1: real, lon1: real, lat2: real, lon2: real, t: real)
    ensures Haversine(m, lat1, lon1 + t, lat2, lon2 + t) == Haversine(m, lat1, lon1, lat2, lon2)
  {
    assert ((lon2 + t) - (lon1 + t)) * (PI / 180.0) == (lon2 - lon1) * (PI / 180.0);
  }
}
