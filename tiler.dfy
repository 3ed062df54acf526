/**
 * The region computed from the four corner boxes, and the grid of tiles
 * that `generateUrls` in getAllAreaUrls.js lays over it, with exact real
 * arithmetic in place of IEEE doubles.
 */
module Tiler {
  import opened Coordinates

  /** The crawl region. */
  datatype Region = Region(minLat: real, maxLat: real, minLng: real, maxLng: real)

  /** One grid cell: `lat1` is its north edge, `lat2` its south edge, `lng1` west, `lng2` east. */
  datatype Tile = Tile(lat1: real, lat2: real, lng1: real, lng2: real)

  /** The tiling of a region with fixed positive steps. */
  datatype Tiling = Tiling(region: Region, stepLat: real, stepLng: real)
  {
    predicate Valid()
    {
      stepLat > 0.0 && stepLng > 0.0
    }
  }

  /** The step sizes the crawler uses (getAllAreaUrls.js:40-41). */
  const StepLat: real := 0.05521467008009
  const StepLng: real := 0.10657609410838

  function Min(a: real, b: real): real
  {
    if a <= b then a else b
  }

  function Max(a: real, b: real): real
  {
    if a >= b then a else b
  }

  /** `Math.min` of four values. */
  function Min4(a: real, b: real, c: real, d: real): (m: real)
    ensures m <= a && m <= b && m <= c && m <= d
    ensures m == a || m == b || m == c || m == d
  {
    Min(Min(Min(a, b), c), d)
  }

  /** `Math.max` of four values. */
  function Max4(a: real, b: real, c: real, d: real): (m: real)
    ensures m >= a && m >= b && m >= c && m >= d
    ensures m == a || m == b || m == c || m == d
  {
    Max(Max(Max(a, b), c), d)
  }

  /**
   * Each bound of `r` lies beyond the field of `b` it is taken from: `minLat`
   * at most `lat2`, `maxLat` at least `lat1`, `minLng` at most `lng1` and
   * `maxLng` at least `lng2`. This is not containment of the box: a box whose
   * `lat2` exceeds its `lat1` can reach above `maxLat`.
   */
  predicate BoundsFields(r: Region, b: Box)
  {
    r.minLat <= b.lat2 && b.lat1 <= r.maxLat && r.minLng <= b.lng1 && b.lng2 <= r.maxLng
  }

  /**
   * The region of getAllAreaUrls.js:34-37: `minLat` is the least `lat2`,
   * `maxLat` the greatest `lat1`, `minLng` the least `lng1` and `maxLng` the
   * greatest `lng2` of the four corners.
   */
  function RegionOf(tl: Box, tr: Box, bl: Box, br: Box): (r: Region)
    ensures BoundsFields(r, tl) && BoundsFields(r, tr) && BoundsFields(r, bl) && BoundsFields(r, br)
    ensures r.minLat == tl.lat2 || r.minLat == tr.lat2 || r.minLat == bl.lat2 || r.minLat == br.lat2
    ensures r.maxLat == tl.lat1 || r.maxLat == tr.lat1 || r.maxLat == bl.lat1 || r.maxLat == br.lat1
    ensures r.minLng == tl.lng1 || r.minLng == tr.lng1 || r.minLng == bl.lng1 || r.minLng == br.lng1
    ensures r.maxLng == tl.lng2 || r.maxLng == tr.lng2 || r.maxLng == bl.lng2 || r.maxLng == br.lng2
  {
    Region(Min4(tl.lat2, tr.lat2, bl.lat2, br.lat2), Max4(tl.lat1, tr.lat1, bl.lat1, br.lat1),
           Min4(tl.lng1, tr.lng1, bl.lng1, br.lng1), Max4(tl.lng2, tr.lng2, bl.lng2, br.lng2))
  }

  /**
   * The four corner boxes of getAllAreaUrls.js:12-15, as their literals read.
   * Each literal is `QueryText` of its four decimals, after a prefix without
   * `lat1=` and with the tail `&map_level=6`, which is the shape
   * `ParseQueryText` reads back as these boxes (`getCoordinateRange`, lines
   * 28-31). That instance is not stated for the literals themselves: it
   * would need the verifier to compute the exact value of each 14-digit
   * fraction, so the values are written out here.
   */
  const TopLeft: Box := Box(37.72323943557199, 37.78288884527683, 126.52385262394026, 126.63680707556247)
  const TopRight: Box := Box(37.86220887888556, 37.9196986198796, 128.734433861587, 128.84931701308585)
  const BottomRight: Box := Box(35.001919778472356, 35.05919373564475, 129.11676227403254, 129.22765992426346)
  const BottomLeft: Box := Box(34.34540487380353, 34.405486900071004, 126.03443918440303, 126.14233279529881)

  /**
   * In the corner literals `lat1` is the south edge, so the region runs from
   * the lowest north edge to the highest south edge and leaves out part of
   * the corner boxes in latitude, while it spans them fully in longitude.
   */
  lemma CrawlRegion()
    ensures RegionOf(TopLeft, TopRight, BottomLeft, BottomRight)
         == Region(34.405486900071004, 37.86220887888556, 126.03443918440303, 129.22765992426346)
    ensures TopRight.lat2 > RegionOf(TopLeft, TopRight, BottomLeft, BottomRight).maxLat
  {
  }

  /** `k * step`: how far the k-th row or column starts from the region's starting edge. */
  function Offset(k: nat, step: real): real
  {
    k as real * step
  }

  lemma OffsetMonotone(k: nat, m: nat, step: real)
    requires step > 0.0 && k <= m
    ensures 0.0 <= Offset(k, step) <= Offset(m, step)
    ensures k < m ==> Offset(k, step) < Offset(m, step)
  {
  }

  /**
   * How many times `for (x = start; x < start + span; x += step)` runs:
   * the number of k >= 0 with k * step < span.
   */
  function Count(span: real, step: real): nat
    requires step > 0.0
  {
    if span <= 0.0 then 0
    else
      var q := (span / step).Floor;
      if q < 0 then 0 else if Offset(q, step) < span then q + 1 else q
  }

  /** `Offset(k + 1)` is one step past `Offset(k)`. */
  lemma OffsetNext(k: nat, step: real)
    ensures Offset(k + 1, step) == Offset(k, step) + step
  {
    assert (k + 1) as real == k as real + 1.0;
  }

  lemma ScaleMonotone(a: real, b: real, step: real)
    requires step > 0.0 && a <= b
    ensures a * step <= b * step
    ensures a < b ==> a * step < b * step
  {
  }

  /** The offset of `floor(d / step)` is the last one at or below `d`. */
  lemma FloorOffset(d: real, step: real)
    requires step > 0.0 && d >= 0.0
    ensures (d / step).Floor >= 0
    ensures Offset((d / step).Floor, step) <= d < Offset((d / step).Floor, step) + step
  {
    var x := d / step;
    var k := x.Floor;
    var kr := k as real;
    assert x * step == d;
    if x < 0.0 {
      ScaleMonotone(x, 0.0, step);
    }
    assert kr <= x < kr + 1.0;
    ScaleMonotone(kr, x, step);
    ScaleMonotone(x, kr + 1.0, step);
    assert (kr + 1.0) * step == kr * step + step;
    assert Offset(k, step) == kr * step;
    assert x * step < (kr + 1.0) * step;
    assert d < kr * step + step;
    assert d < Offset(k, step) + step;
  }

  /** `Count(span, step)` is exactly the number of offsets that stay below `span`. */
  lemma CountIsOffsetsBelow(span: real, step: real, k: nat)
    requires step > 0.0
    ensures k < Count(span, step) <==> Offset(k, step) < span
  {
    if span > 0.0 {
      var q := (span / step).Floor;
      FloorOffset(span, step);
      OffsetNext(q, step);
      if Offset(q, step) < span {
        if k <= q {
          OffsetMonotone(k, q, step);
        } else {
          OffsetMonotone(q + 1, k, step);
        }
      } else {
        if k < q {
          OffsetMonotone(k, q, step);
        } else {
          OffsetMonotone(q, k, step);
        }
      }
    } else {
      OffsetMonotone(0, k, step);
    }
  }

  /** Number of rows: latitudes `maxLat - k * stepLat` that are still above `minLat`. */
  function Rows(t: Tiling): nat
    requires t.Valid()
  {
    Count(t.region.maxLat - t.region.minLat, t.stepLat)
  }

  /** Number of columns: longitudes `minLng + k * stepLng` that are still below `maxLng`. */
  function Cols(t: Tiling): nat
    requires t.Valid()
  {
    Count(t.region.maxLng - t.region.minLng, t.stepLng)
  }

  /** The tile in row `i`, column `j`, its far edges clamped to the region (getAllAreaUrls.js:79-80). */
  function TileAt(t: Tiling, i: nat, j: nat): Tile
  {
    var lat := t.region.maxLat - Offset(i, t.stepLat);
    var lng := t.region.minLng + Offset(j, t.stepLng);
    Tile(lat, Max(lat - t.stepLat, t.region.minLat), lng, Min(lng + t.stepLng, t.region.maxLng))
  }

  /** The tiles of row `i`, west to east. */
  function RowTiles(t: Tiling, i: nat): seq<Tile>
    requires t.Valid()
  {
    seq(Cols(t), j requires 0 <= j => TileAt(t, i, j))
  }

  /** The tiles of the first `k` rows, in the order they are queued. */
  function GridRows(t: Tiling, k: nat): seq<Tile>
    requires t.Valid()
  {
    if k == 0 then [] else GridRows(t, k - 1) + RowTiles(t, k - 1)
  }

  /** Every tile of the region, row by row from the north, each row from the west. */
  function Grid(t: Tiling): seq<Tile>
    requires t.Valid()
  {
    GridRows(t, Rows(t))
  }

  /** The first `k` rows hold `k * Cols` tiles, the one at `i * Cols + j` being `TileAt(i, j)`. */
  lemma {:induction false} GridRowsAt(t: Tiling, k: nat, i: nat, j: nat)
    requires t.Valid() && i < k && j < Cols(t)
    ensures |GridRows(t, k)| == k * Cols(t)
    ensures i * Cols(t) + j < k * Cols(t)
    ensures GridRows(t, k)[i * Cols(t) + j] == TileAt(t, i, j)
  {
    GridRowsLength(t, k - 1);
    var c := Cols(t);
    assert (k - 1) * c + c == k * c;
    if i < k - 1 {
      GridRowsAt(t, k - 1, i, j);
    } else {
      assert i * c + j - (k - 1) * c == j;
    }
  }

  lemma {:induction false} GridRowsLength(t: Tiling, k: nat)
    requires t.Valid()
    ensures |GridRows(t, k)| == k * Cols(t)
  {
    if k > 0 {
      GridRowsLength(t, k - 1);
      assert (k - 1) * Cols(t) + Cols(t) == k * Cols(t);
    }
  }

  /** Below `r * c`, division by `c` gives a row under `r` and a column under `c`. */
  lemma DivideBelow(n: nat, c: nat, r: nat)
    requires c > 0 && n < r * c
    ensures n / c < r && n == (n / c) * c + n % c && 0 <= n % c < c
  {
  }

  lemma FactorBelow(x: int, y: int, c: nat)
    requires c > 0 && x * c < y * c
    ensures x < y
  {
  }

  /** Of two positions, the earlier lies in an earlier row, or earlier in the same row. */
  lemma DivideOrdered(a: nat, b: nat, c: nat)
    requires c > 0 && a < b
    ensures a / c < b / c || (a / c == b / c && a % c < b % c)
  {
    var qa, qb := a / c, b / c;
    assert qa * c <= a && b < qb * c + c;
    assert qa * c < (qb + 1) * c;
    FactorBelow(qa, qb + 1, c);
  }

  /** Queue position `n` of the grid holds the tile in row `n / Cols`, column `n % Cols`. */
  lemma GridAt(t: Tiling, n: nat)
    requires t.Valid() && n < |Grid(t)|
    ensures Cols(t) > 0 && n / Cols(t) < Rows(t)
    ensures Grid(t)[n] == TileAt(t, n / Cols(t), n % Cols(t))
  {
    var c, r := Cols(t), Rows(t);
    GridRowsLength(t, r);
    assert c > 0;
    DivideBelow(n, c, r);
    var i, j := n / c, n % c;
    assert n == i * c + j;
    GridRowsAt(t, r, i, j);
  }

  /** The grid holds `Rows * Cols` tiles. */
  lemma GridSize(t: Tiling)
    requires t.Valid()
    ensures |Grid(t)| == Rows(t) * Cols(t)
  {
    GridRowsLength(t, Rows(t));
  }

  /** `b` lies inside `r` with a non-empty extent in both directions. */
  predicate InRegion(r: Region, b: Tile)
  {
    r.minLat <= b.lat2 < b.lat1 <= r.maxLat && r.minLng <= b.lng1 < b.lng2 <= r.maxLng
  }

  /** Every tile of the grid is a non-empty box inside the region. */
  lemma TileInRegion(t: Tiling, i: nat, j: nat)
    requires t.Valid() && i < Rows(t) && j < Cols(t)
    ensures InRegion(t.region, TileAt(t, i, j))
  {
    CountIsOffsetsBelow(t.region.maxLat - t.region.minLat, t.stepLat, i);
    CountIsOffsetsBelow(t.region.maxLng - t.region.minLng, t.stepLng, j);
    OffsetMonotone(0, i, t.stepLat);
    OffsetMonotone(0, j, t.stepLng);
  }

  lemma GridTileInRegion(t: Tiling, n: nat)
    requires t.Valid() && n < |Grid(t)|
    ensures InRegion(t.region, Grid(t)[n])
  {
    GridAt(t, n);
    TileInRegion(t, n / Cols(t), n % Cols(t));
  }

  lemma GridInRegion(t: Tiling)
    requires t.Valid()
    ensures forall n :: 0 <= n < |Grid(t)| ==> InRegion(t.region, Grid(t)[n])
  {
    forall n | 0 <= n < |Grid(t)| ensures InRegion(t.region, Grid(t)[n]) {
      GridTileInRegion(t, n);
    }
  }

  /** Tile `a` comes before tile `b` in the generation order: a row further north, or further west in the same row. */
  predicate Precedes(a: Tile, b: Tile)
  {
    a.lat1 > b.lat1 || (a.lat1 == b.lat1 && a.lng1 < b.lng1)
  }

  /** The first tile starts at the region's north-west corner. */
  lemma GridStartsAtCorner(t: Tiling)
    requires t.Valid() && |Grid(t)| > 0
    ensures Grid(t)[0].lat1 == t.region.maxLat && Grid(t)[0].lng1 == t.region.minLng
  {
    GridAt(t, 0);
  }

  /** Rows are queued in descending `lat1`, and within a row `lng1` ascends. */
  lemma GridOrdered(t: Tiling, a: nat, b: nat)
    requires t.Valid() && a < b < |Grid(t)|
    ensures Precedes(Grid(t)[a], Grid(t)[b])
  {
    GridAt(t, a);
    GridAt(t, b);
    var c := Cols(t);
    DivideOrdered(a, b, c);
    TilesOrdered(t, a / c, a % c, b / c, b % c);
  }

  /** A tile in an earlier row, or earlier in the same row, comes first. */
  lemma TilesOrdered(t: Tiling, ia: nat, ja: nat, ib: nat, jb: nat)
    requires t.Valid() && (ia < ib || (ia == ib && ja < jb))
    ensures Precedes(TileAt(t, ia, ja), TileAt(t, ib, jb))
  {
    if ia == ib {
      OffsetMonotone(ja, jb, t.stepLng);
    } else {
      OffsetMonotone(ia, ib, t.stepLat);
    }
  }

  /** Within a row each tile's east edge is the next tile's west edge. */
  lemma NoGapInRow(t: Tiling, i: nat, j: nat)
    requires t.Valid() && j + 1 < Cols(t)
    ensures TileAt(t, i, j).lng2 == TileAt(t, i, j + 1).lng1
  {
    CountIsOffsetsBelow(t.region.maxLng - t.region.minLng, t.stepLng, j + 1);
  }

  /** Each row's south edge is the next row's north edge. */
  lemma NoGapBetweenRows(t: Tiling, i: nat, j: nat)
    requires t.Valid() && i + 1 < Rows(t)
    ensures TileAt(t, i, j).lat2 == TileAt(t, i + 1, j).lat1
  {
    CountIsOffsetsBelow(t.region.maxLat - t.region.minLat, t.stepLat, i + 1);
  }

  /** The last row is clamped to the region's south edge, the last column to its east edge. */
  lemma LastRowAndColumnClamped(t: Tiling, i: nat, j: nat)
    requires t.Valid() && i < Rows(t) && j < Cols(t)
    ensures i == Rows(t) - 1 ==> TileAt(t, i, j).lat2 == t.region.minLat
    ensures j == Cols(t) - 1 ==> TileAt(t, i, j).lng2 == t.region.maxLng
  {
    if i == Rows(t) - 1 {
      LastBandReaches(t.region.maxLat - t.region.minLat, t.stepLat, i);
    }
    if j == Cols(t) - 1 {
      LastBandReaches(t.region.maxLng - t.region.minLng, t.stepLng, j);
    }
  }

  /** The last band counted reaches the far edge. */
  lemma LastBandReaches(span: real, step: real, k: nat)
    requires step > 0.0 && k + 1 == Count(span, step)
    ensures Offset(k, step) + step >= span
  {
    CountIsOffsetsBelow(span, step, k + 1);
    OffsetNext(k, step);
  }

  /** The closed box of `b` holds the point (`lat`, `lng`). */
  predicate Covers(b: Tile, lat: real, lng: real)
  {
    b.lat2 <= lat <= b.lat1 && b.lng1 <= lng <= b.lng2
  }

  /** The row (or column) whose band holds a point at distance `d` in from the starting edge. */
  function BandOf(d: real, span: real, step: real): nat
    requires step > 0.0 && 0.0 <= d <= span && span > 0.0
  {
    var k := (d / step).Floor;
    var n := Count(span, step);
    if k < 0 then 0 else if k < n then k else n - 1
  }

  lemma BandHolds(d: real, span: real, step: real)
    requires step > 0.0 && 0.0 <= d <= span && span > 0.0
    ensures BandOf(d, span, step) < Count(span, step)
    ensures Offset(BandOf(d, span, step), step) <= d
    ensures d <= Offset(BandOf(d, span, step), step) + step
  {
    var n := Count(span, step);
    CountIsOffsetsBelow(span, step, 0);
    var k := (d / step).Floor;
    FloorOffset(d, step);
    if k >= n {
      CountIsOffsetsBelow(span, step, n - 1);
      CountIsOffsetsBelow(span, step, n);
      OffsetNext(n - 1, step);
      OffsetMonotone(n - 1, k, step);
    }
  }

  /** The tile in the point's row and column band holds the point. */
  lemma BandTileCovers(t: Tiling, lat: real, lng: real)
    requires t.Valid()
    requires t.region.minLat < t.region.maxLat && t.region.minLng < t.region.maxLng
    requires t.region.minLat <= lat <= t.region.maxLat && t.region.minLng <= lng <= t.region.maxLng
    ensures var r := t.region;
      var i := BandOf(r.maxLat - lat, r.maxLat - r.minLat, t.stepLat);
      var j := BandOf(lng - r.minLng, r.maxLng - r.minLng, t.stepLng);
      i < Rows(t) && j < Cols(t) && Covers(TileAt(t, i, j), lat, lng)
  {
    var r := t.region;
    BandHolds(r.maxLat - lat, r.maxLat - r.minLat, t.stepLat);
    BandHolds(lng - r.minLng, r.maxLng - r.minLng, t.stepLng);
  }

  /** Every point of a non-empty region lies in some tile: the tiles leave no gaps. */
  lemma GridCoversRegion(t: Tiling, lat: real, lng: real)
    requires t.Valid()
    requires t.region.minLat < t.region.maxLat && t.region.minLng < t.region.maxLng
    requires t.region.minLat <= lat <= t.region.maxLat && t.region.minLng <= lng <= t.region.maxLng
    ensures exists n :: 0 <= n < |Grid(t)| && Covers(Grid(t)[n], lat, lng)
  {
    var r := t.region;
    var i := BandOf(r.maxLat - lat, r.maxLat - r.minLat, t.stepLat);
    var j := BandOf(lng - r.minLng, r.maxLng - r.minLng, t.stepLng);
    BandTileCovers(t, lat, lng);
    GridRowsAt(t, Rows(t), i, j);
    assert Covers(Grid(t)[i * Cols(t) + j], lat, lng);
  }

  /** The example region of 4 by 3 degrees with one-degree steps has 4 rows of 3 tiles. */
  lemma TwelveTiles()
    ensures var t := Tiling(Region(34.0, 38.0, 126.0, 129.0), 1.0, 1.0);
      Rows(t) == 4 && Cols(t) == 3 && |Grid(t)| == 12
  {
    var t := Tiling(Region(34.0, 38.0, 126.0, 129.0), 1.0, 1.0);
    GridSize(t);
  }

  /** The script's own tiling, the region of its four corners with its two steps, has at least one tile. */
  lemma CrawlGridNotEmpty()
    ensures Grid(Tiling(RegionOf(TopLeft, TopRight, BottomLeft, BottomRight), StepLat, StepLng)) != []
  {
    var r := RegionOf(TopLeft, TopRight, BottomLeft, BottomRight);
    var t := Tiling(r, StepLat, StepLng);
    CrawlRegion();
    CountIsOffsetsBelow(r.maxLat - r.minLat, StepLat, 0);
    CountIsOffsetsBelow(r.maxLng - r.minLng, StepLng, 0);
    GridSize(t);
  }
}
