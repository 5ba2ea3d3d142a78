/** The terrain grid: a fixed number of rows of square tiles filling the
    viewport, each tile's biome read from a seeded noise field, and the
    spatial queries the agents use (water at a point, nearest water, a random
    ground or grass tile). */
module Terrain {
  import opened Helpers
  import opened Vectors
  import opened Tiles
  import Random

  const RowsNumber: int := 400

  /** Noise samples are taken at `(column / NoiseScale, row / NoiseScale)`. */
  const NoiseScale: real := 200.0

  /** The cap on the search distance in `getClosestWater`, squared. */
  const WaterSearchCapSq: int := 1000 * 1000

  // ---------------------------------------------------------------------
  // Biome banding
  // ---------------------------------------------------------------------

  /** The threshold bands of generateTiles, lowest noise first. */
  function BiomeOf(noiseValue: real): (b: Biome)
    ensures b == Dirt <==> noiseValue < -0.8
    ensures b == DarkGrass <==> -0.8 <= noiseValue < -0.5
    ensures b == Grass <==> -0.5 <= noiseValue < 0.2
    ensures b == Sand <==> 0.2 <= noiseValue < 0.4
    ensures b == Water <==> 0.4 <= noiseValue
  {
    if noiseValue < -0.8 then Dirt
    else if noiseValue < -0.5 then DarkGrass
    else if noiseValue < 0.2 then Grass
    else if noiseValue < 0.4 then Sand
    else Water
  }

  /** The position of a biome in the banding order. */
  function BandRank(b: Biome): nat {
    match b
    case Dirt => 0
    case DarkGrass => 1
    case Grass => 2
    case Sand => 3
    case Water => 4
  }

  /** A higher noise value never gives a lower band. */
  lemma BandingMonotone(a: real, b: real)
    requires a <= b
    ensures BandRank(BiomeOf(a)) <= BandRank(BiomeOf(b))
  {
  }

  // ---------------------------------------------------------------------
  // Grid geometry
  // ---------------------------------------------------------------------

  /** The geometry fixed by the constructor for a viewport `width` x `height`. */
  datatype Geometry = Geometry(side: real, columnsNumber: int, rowOffset: real, columnOffset: real)

  function GeometryOf(width: real, height: real): (g: Geometry)
    requires width >= 0.0 && height > 0.0
    ensures g.side > 0.0 && g.columnsNumber >= 0
    ensures g.side * RowsNumber as real == height
    ensures g.side * g.columnsNumber as real <= width
    ensures width < g.side * (g.columnsNumber + 1) as real
    ensures g.rowOffset == 0.0 && g.columnOffset >= 0.0
  {
    var side := height / RowsNumber as real;
    var q := width / side;
    var cols := q.Floor;
    assert side * q == width;
    Bracket(width, side, q, cols);
    Geometry(side, cols, (height - side * RowsNumber as real) / 2.0,
             (width - side * cols as real) / 2.0)
  }

  /** A multiple `side * q` of the side, with `k <= q < k + 1`, lies in the `k`-th band of multiples. */
  lemma Bracket(w: real, side: real, q: real, k: int)
    requires side > 0.0 && side * q == w && k as real <= q < k as real + 1.0
    ensures side * k as real <= w < side * (k + 1) as real
  {
    var below, above := q - k as real, (k + 1) as real - q;
    ProductSign(side, below);
    ProductSign(side, above);
    assert side * q == side * k as real + side * below;
    calc {
      w;
    ==
      side * q;
    <
      side * q + side * above;
    ==
      side * (q + above);
    ==
      side * (k + 1) as real;
    }
  }

  /** A positive factor keeps the sign of the other one. */
  lemma ProductSign(a: real, b: real)
    requires a > 0.0 && b >= 0.0
    ensures a * b >= 0.0 && (b > 0.0 ==> a * b > 0.0)
  {
  }

  lemma LessTimesPositive(a: real, b: real, c: real)
    requires a < b && c > 0.0
    ensures c * a < c * b && a * c < b * c
  {
    assert c * b - c * a == c * (b - a);
  }

  lemma ProductZero(a: real, b: real)
    requires a * b == 0.0 && b != 0.0
    ensures a == 0.0
  {
    if a > 0.0 && b > 0.0 { LessTimesPositive(0.0, a, b); }
    if a < 0.0 && b > 0.0 { LessTimesPositive(a, 0.0, b); }
    if a > 0.0 && b < 0.0 { LessTimesPositive(b, 0.0, a); }
    if a < 0.0 && b < 0.0 { LessTimesPositive(0.0, -a, -b); }
  }

  lemma MulLeq(c: int, a: int, b: int)
    requires c >= 0 && a <= b
    ensures c * a <= c * b
  {
    var d := b - a;
    assert c * d >= 0;
    assert c * b == c * a + c * d;
  }

  /** `(side/2 + k*side) / side` lies in `[k, k+1)`, so its floor is `k`. */
  lemma CentreFloor(k: int, side: real)
    requires side > 0.0
    ensures ((side / 2.0 + k as real * side) / side).Floor == k
  {
    var v := side / 2.0 + k as real * side;
    var x := k as real + 0.5;
    assert v == x * side;
    var q := v / side;
    assert q * side == v;
    assert (q - x) * side == q * side - x * side;
    ProductZero(q - x, side);
  }

  /** A coordinate at the centre of cell `k`, measured from the grid's edge,
      maps back to `k`. */
  lemma CentreMaps(v: real, k: int, side: real)
    requires side > 0.0 && v == side / 2.0 + k as real * side
    ensures (v / side).Floor == k
  {
    CentreFloor(k, side);
  }

  // ---------------------------------------------------------------------
  // Filters over the tile array
  // ---------------------------------------------------------------------

  /** `tiles.filter(t => p(t.type))`; holes of a sparse array are skipped. */
  function Select(s: seq<Option<Tile>>, p: Biome -> bool): (r: seq<Tile>)
    ensures |r| <= |s|
  {
    if s == [] then []
    else (if s[0].Some? && p(s[0].value.biome) then [s[0].value] else []) + Select(s[1..], p)
  }

  lemma {:induction false} SelectSound(s: seq<Option<Tile>>, p: Biome -> bool, k: nat)
    requires k < |Select(s, p)|
    ensures p(Select(s, p)[k].biome)
    ensures Some(Select(s, p)[k]) in s
  {
    if s[0].Some? && p(s[0].value.biome) {
      if k > 0 { SelectSound(s[1..], p, k - 1); }
    } else {
      SelectSound(s[1..], p, k);
    }
  }

  lemma {:induction false} SelectComplete(s: seq<Option<Tile>>, p: Biome -> bool, i: nat)
    requires i < |s| && s[i].Some? && p(s[i].value.biome)
    ensures s[i].value in Select(s, p)
  {
    if i > 0 {
      SelectComplete(s[1..], p, i - 1);
    }
  }

  /** A draw picks a matching tile of the array, and picks one whenever one exists. */
  lemma PickFromSelection(s: seq<Option<Tile>>, p: Biome -> bool, r: real)
    requires 0.0 <= r < 1.0
    ensures Pick(Select(s, p), r).Some? ==>
              p(Pick(Select(s, p), r).value.biome) && Some(Pick(Select(s, p), r).value) in s
    ensures Pick(Select(s, p), r).Some? <==> exists k :: 0 <= k < |s| && s[k].Some? && p(s[k].value.biome)
  {
    var sel := Select(s, p);
    var t := Pick(sel, r);
    if t.Some? {
      var k :| 0 <= k < |sel| && sel[k] == t.value;
      SelectSound(s, p, k);
      var i :| 0 <= i < |s| && s[i] == Some(sel[k]);
      assert s[i].Some? && p(s[i].value.biome);
    }
    if exists k :: 0 <= k < |s| && s[k].Some? && p(s[k].value.biome) {
      var k :| 0 <= k < |s| && s[k].Some? && p(s[k].value.biome);
      SelectComplete(s, p, k);
    }
  }

  predicate NotWater(b: Biome) {
    b != Water
  }

  /** `array[Math.floor(r * array.length)]` for a draw `r` in [0, 1). */
  function Pick(choices: seq<Tile>, r: real): (t: Option<Tile>)
    requires 0.0 <= r < 1.0
    ensures t.Some? <==> |choices| > 0
    ensures t.Some? ==> t.value in choices
  {
    if |choices| == 0 then None
    else
      var n := |choices| as real;
      var k := (r * n).Floor;
      assert 0.0 <= r * n < n by { LessTimesPositive(r, 1.0, n); }
      Some(choices[k])
  }

  // ---------------------------------------------------------------------
  // The environment
  // ---------------------------------------------------------------------

  class Environment {
    const width: real
    const height: real
    const side: real
    const columnsNumber: int
    const rowOffset: real
    const columnOffset: real
    const palette: Biome -> string
    const tiles: array<Option<Tile>>

    ghost predicate Valid()
    {
      && width >= 0.0 && height > 0.0
      && side > 0.0 && columnsNumber >= 0
      && side * RowsNumber as real == height
      && side * columnsNumber as real <= width
      && rowOffset == 0.0 && columnOffset >= 0.0
      && tiles.Length == columnsNumber * RowsNumber
    }

    /** The array slot of row `i`, column `j`: `i * columnsNumber + j`. */
    function Slot(i: int, j: int): (k: int)
      ensures k == columnsNumber * i + j
      ensures 0 <= i < RowsNumber && 0 <= j < columnsNumber ==> 0 <= k < columnsNumber * RowsNumber
    {
      if 0 <= i < RowsNumber && 0 <= j < columnsNumber then
        IndexInGrid(i, j, columnsNumber);
        columnsNumber * i + j
      else
        columnsNumber * i + j
    }

    /** The centre of the tile in row `i`, column `j`. */
    function CentreX(j: int): real
    {
      side / 2.0 + j as real * side + columnOffset
    }

    function CentreY(i: int): real
    {
      side / 2.0 + i as real * side + rowOffset
    }

    /** The tile generateTiles places in row `i`, column `j` for the seeded noise field. */
    function GridTile(i: int, j: int, seed: real, simplex: (real, real, real) -> real): Tile
    {
      var noiseValue := simplex(seed, j as real / NoiseScale, i as real / NoiseScale);
      NewTile(Slot(i, j), CentreX(j), CentreY(i), BiomeOf(noiseValue), None, None, palette)
    }

    /** `simplex(seed, x, y)` is `noise.simplex2(x, y)` after `noise.seed(seed)`. */
    constructor (width: real, height: real, palette: Biome -> string,
                 rng: Random.Rng, simplex: (real, real, real) -> real)
      requires width >= 0.0 && height > 0.0 && rng.Valid()
      modifies rng
      ensures Valid() && fresh(tiles)
      ensures Geometry(side, columnsNumber, rowOffset, columnOffset) == GeometryOf(width, height)
      ensures this.width == width && this.height == height && this.palette == palette
      ensures rng.Valid() && rng.cursor == old(rng.cursor) + 1
      ensures forall i, j :: 0 <= i < RowsNumber && 0 <= j < columnsNumber ==>
                tiles[Slot(i, j)] == Some(GridTile(i, j, rng.stream(old(rng.cursor)), simplex))
    {
      var g := GeometryOf(width, height);
      this.width, this.height, this.palette := width, height, palette;
      side, columnsNumber, rowOffset, columnOffset := g.side, g.columnsNumber, g.rowOffset, g.columnOffset;
      tiles := new Option<Tile>[g.columnsNumber * RowsNumber](_ => None);
      new;
      GenerateTiles(rng, simplex);
    }

    /** Fills every slot `i * columnsNumber + j`, row by row. */
    method GenerateTiles(rng: Random.Rng, simplex: (real, real, real) -> real)
      requires Valid() && rng.Valid()
      modifies tiles, rng
      ensures rng.Valid() && rng.cursor == old(rng.cursor) + 1
      ensures forall i, j :: 0 <= i < RowsNumber && 0 <= j < columnsNumber ==>
                tiles[Slot(i, j)] == Some(GridTile(i, j, rng.stream(old(rng.cursor)), simplex))
    {
      var seed := rng.Next();
      var i := 0;
      while i < RowsNumber
        modifies tiles
        invariant 0 <= i <= RowsNumber
        invariant forall i', j' :: 0 <= i' < i && 0 <= j' < columnsNumber ==>
                    tiles[Slot(i', j')] == Some(GridTile(i', j', seed, simplex))
      {
        var j := 0;
        while j < columnsNumber
          modifies tiles
          invariant 0 <= i < RowsNumber && 0 <= j <= columnsNumber
          invariant forall i', j' :: 0 <= i' < i && 0 <= j' < columnsNumber ==>
                      tiles[Slot(i', j')] == Some(GridTile(i', j', seed, simplex))
          invariant forall j' :: 0 <= j' < j ==>
                      tiles[Slot(i, j')] == Some(GridTile(i, j', seed, simplex))
        {
          forall i', j' | 0 <= i' < i && 0 <= j' < columnsNumber
            ensures Slot(i', j') < Slot(i, j)
          {
            IndexBeforeRow(i', j', i, j, columnsNumber);
          }
          tiles[Slot(i, j)] := Some(GridTile(i, j, seed, simplex));
          j := j + 1;
        }
        i := i + 1;
      }
    }

    // -------------------------------------------------------------------
    // isWater
    // -------------------------------------------------------------------

    function MapX(x: real): int
      requires Valid()
    {
      ((x - columnOffset) / side).Floor
    }

    function MapY(y: real): int
      requires Valid()
    {
      ((y - rowOffset) / side).Floor
    }

    /** The slot `columnsNumber * row + column` holds a water tile. */
    predicate WaterSlot(index: int)
      reads this, tiles
    {
      0 <= index < tiles.Length && tiles[index].Some? && tiles[index].value.biome == Water
    }

    /** `isWater(x, y)`: the column is not bounds-checked, so a point past the
        right edge reads the next row; an index with no tile is falsy. */
    predicate IsWater(x: real, y: real)
      requires Valid()
      reads this, tiles
      ensures IsWater(x, y) <==> var k := columnsNumber * ((y - rowOffset) / side).Floor + ((x - columnOffset) / side).Floor;
                                  0 <= k < tiles.Length && tiles[k].Some? && tiles[k].value.biome == Water
    {
      WaterSlot(Slot(MapY(y), MapX(x)))
    }

    /** The query at a tile's centre looks up that very tile. */
    lemma IsWaterAtCentre(i: int, j: int)
      requires Valid()
      ensures IsWater(CentreX(j), CentreY(i)) == WaterSlot(Slot(i, j))
    {
      CentreMaps(CentreX(j) - columnOffset, j, side);
      CentreMaps(CentreY(i) - rowOffset, i, side);
    }

    /** One column past the right edge of row `i` is the first tile of row `i + 1`. */
    lemma IsWaterWrapsToNextRow(i: int)
      requires Valid()
      ensures IsWater(CentreX(columnsNumber), CentreY(i)) == WaterSlot(Slot(i + 1, 0))
    {
      IsWaterAtCentre(i, columnsNumber);
      assert Slot(i, columnsNumber) == Slot(i + 1, 0);
    }

    /** A point whose slot lies outside the array is never water. */
    lemma IsWaterOutsideArray(x: real, y: real)
      requires Valid()
      requires Slot(MapY(y), MapX(x)) < 0 || Slot(MapY(y), MapX(x)) >= tiles.Length
      ensures !IsWater(x, y)
    {
    }

    // -------------------------------------------------------------------
    // Random tiles
    // -------------------------------------------------------------------

    function GroundTiles(): seq<Tile>
      reads this, tiles
    {
      Select(tiles[..], NotWater)
    }

    function GrassTiles(): seq<Tile>
      reads this, tiles
    {
      Select(tiles[..], IsGrassy)
    }

    /** The tile `getRandomGroundTile` returns for the draw `r`. */
    function RandomGroundTile(r: real): (t: Option<Tile>)
      requires 0.0 <= r < 1.0
      reads this, tiles
      ensures t.Some? ==> t.value.biome != Water && Some(t.value) in tiles[..]
      ensures t.Some? <==> HasGround()
    {
      PickFromSelection(tiles[..], NotWater, r);
      Pick(GroundTiles(), r)
    }

    /** The tile `getRandomGrassTile` returns for the draw `r`. */
    function RandomGrassTile(r: real): (t: Option<Tile>)
      requires 0.0 <= r < 1.0
      reads this, tiles
      ensures t.Some? ==> IsGrassy(t.value.biome) && Some(t.value) in tiles[..]
      ensures t.Some? <==> HasGrass()
    {
      PickFromSelection(tiles[..], IsGrassy, r);
      Pick(GrassTiles(), r)
    }

    ghost predicate HasGrass()
      reads this, tiles
    {
      exists k :: 0 <= k < tiles.Length && tiles[k].Some? && IsGrassy(tiles[k].value.biome)
    }

    ghost predicate HasGround()
      reads this, tiles
    {
      exists k :: 0 <= k < tiles.Length && tiles[k].Some? && tiles[k].value.biome != Water
    }

    method GetRandomGroundTile(rng: Random.Rng) returns (t: Option<Tile>)
      requires rng.Valid()
      modifies rng
      ensures rng.Valid() && rng.cursor == old(rng.cursor) + 1
      ensures t == RandomGroundTile(rng.stream(old(rng.cursor)))
      ensures t.Some? <==> HasGround()
    {
      var r := rng.Next();
      t := RandomGroundTile(r);
    }

    method GetRandomGrassTile(rng: Random.Rng) returns (t: Option<Tile>)
      requires rng.Valid()
      modifies rng
      ensures rng.Valid() && rng.cursor == old(rng.cursor) + 1
      ensures t == RandomGrassTile(rng.stream(old(rng.cursor)))
      ensures t.Some? <==> HasGrass()
    {
      var r := rng.Next();
      t := RandomGrassTile(r);
    }

    // -------------------------------------------------------------------
    // getClosestWater
    // -------------------------------------------------------------------

    /** The search window, clamped to the grid. */
    function Window(mapX: int, mapY: int, radius: int): (w: (int, int, int, int))
      ensures 0 <= w.0 && w.1 <= RowsNumber - 1
      ensures 0 <= w.2 && w.3 <= columnsNumber - 1
    {
      (if mapY - radius < 0 then 0 else mapY - radius,
       if mapY + radius >= RowsNumber - 1 then RowsNumber - 1 else mapY + radius,
       if mapX - radius < 0 then 0 else mapX - radius,
       if mapX + radius >= columnsNumber - 1 then columnsNumber - 1 else mapX + radius)
    }

    predicate InWindow(i: int, j: int, w: (int, int, int, int)) {
      w.0 <= i <= w.1 && w.2 <= j <= w.3
    }

    /** A water tile of the window within the distance cap: a tile the search may return. */
    ghost predicate WaterCandidate(i: int, j: int, mapX: int, mapY: int, w: (int, int, int, int))
      reads this, tiles
    {
      InWindow(i, j, w) && WaterSlot(Slot(i, j)) && GridDistSq(i, j, mapX, mapY) < WaterSearchCapSq
    }

    /** The search returns the tile in row `ci`, column `cj`: a candidate with no
        candidate strictly closer, and none as close earlier in row-major order. */
    ghost predicate ClosestWaterCell(ci: int, cj: int, mapX: int, mapY: int, w: (int, int, int, int))
      reads this, tiles
    {
      && WaterCandidate(ci, cj, mapX, mapY, w)
      && (forall i, j :: WaterCandidate(i, j, mapX, mapY, w) ==>
            GridDistSq(ci, cj, mapX, mapY) <= GridDistSq(i, j, mapX, mapY))
      && (forall i, j :: WaterCandidate(i, j, mapX, mapY, w) && RowMajorBefore(i, j, ci, cj) ==>
            GridDistSq(ci, cj, mapX, mapY) < GridDistSq(i, j, mapX, mapY))
    }

    /** No water tile of the window around the point's tile lies within the search cap. */
    ghost predicate NoWaterNear(x: real, y: real, radius: int)
      requires Valid()
      reads this, tiles
    {
      forall i, j :: !WaterCandidate(i, j, MapX(x), MapY(y), Window(MapX(x), MapY(y), radius))
    }

    /** `v` is the centre of a closest water tile of the window around the
        point's tile: the tile `getClosestWater` may return. */
    ghost predicate ClosestWaterAt(x: real, y: real, radius: int, v: Vec)
      requires Valid()
      reads this, tiles
    {
      exists i, j :: ClosestWaterCell(i, j, MapX(x), MapY(y), Window(MapX(x), MapY(y), radius))
                     && v == ToVec(tiles[Slot(i, j)].value)
    }

    /** `getClosestWater(x, y, radius)`: the centre of the closest water tile in the
        clamped square window around the point's tile, or `None`. The ghost
        outputs name the row and column of the tile returned. */
    method GetClosestWater(x: real, y: real, radius: int) returns (closest: Option<Vec>, ghost ci: int, ghost cj: int)
      requires Valid()
      ensures closest.Some? ==>
                && ClosestWaterCell(ci, cj, MapX(x), MapY(y), Window(MapX(x), MapY(y), radius))
                && closest.value == ToVec(tiles[Slot(ci, cj)].value)
      ensures closest.None? <==> NoWaterNear(x, y, radius)
    {
      var mapX := MapX(x);
      var mapY := MapY(y);
      var w := Window(mapX, mapY, radius);
      var found: Option<int> := None;
      var currentMin := WaterSearchCapSq;
      ci, cj := 0, 0;
      var i := w.0;
      while i <= w.1
        invariant w.0 <= i
        invariant found.None? ==> currentMin == WaterSearchCapSq
        invariant found.None? ==> forall i', j' :: WaterCandidate(i', j', mapX, mapY, w) && i' < i ==> false
        invariant found.Some? ==> found.value == Slot(ci, cj) && currentMin == GridDistSq(ci, cj, mapX, mapY)
        invariant found.Some? ==> WaterCandidate(ci, cj, mapX, mapY, w) && ci < i
        invariant found.Some? ==> forall i', j' :: WaterCandidate(i', j', mapX, mapY, w) && i' < i ==>
                    currentMin <= GridDistSq(i', j', mapX, mapY)
        invariant found.Some? ==> forall i', j' :: WaterCandidate(i', j', mapX, mapY, w) && RowMajorBefore(i', j', ci, cj) ==>
                    currentMin < GridDistSq(i', j', mapX, mapY)
      {
        var j := w.2;
        while j <= w.3
          invariant w.2 <= j
          invariant found.None? ==> currentMin == WaterSearchCapSq
          invariant found.None? ==> forall i', j' :: WaterCandidate(i', j', mapX, mapY, w) && RowMajorBefore(i', j', i, j) ==> false
          invariant found.Some? ==> found.value == Slot(ci, cj) && currentMin == GridDistSq(ci, cj, mapX, mapY)
          invariant found.Some? ==> WaterCandidate(ci, cj, mapX, mapY, w) && RowMajorBefore(ci, cj, i, j)
          invariant found.Some? ==> forall i', j' :: WaterCandidate(i', j', mapX, mapY, w) && RowMajorBefore(i', j', i, j) ==>
                      currentMin <= GridDistSq(i', j', mapX, mapY)
          invariant found.Some? ==> forall i', j' :: WaterCandidate(i', j', mapX, mapY, w) && RowMajorBefore(i', j', ci, cj) ==>
                      currentMin < GridDistSq(i', j', mapX, mapY)
        {
          IndexInGrid(i, j, columnsNumber);
          var index := Slot(i, j);
          if tiles[index].Some? && tiles[index].value.biome == Water {
            var distance := GridDistSq(i, j, mapX, mapY);
            if distance < currentMin {
              currentMin := distance;
              found := Some(index);
              ci, cj := i, j;
            }
          }
          j := j + 1;
        }
        i := i + 1;
      }
      if found.Some? {
        closest := Some(ToVec(tiles[found.value].value));
      } else {
        closest := None;
      }
    }
  }

  /** The squared grid distance from the query tile, `(j - mapX)^2 + (i - mapY)^2`. */
  function GridDistSq(i: int, j: int, mapX: int, mapY: int): (d: int)
    ensures d >= 0
  {
    (j - mapX) * (j - mapX) + (i - mapY) * (i - mapY)
  }

  predicate RowMajorBefore(i: int, j: int, i2: int, j2: int) {
    i < i2 || (i == i2 && j < j2)
  }

  lemma IndexInGrid(i: int, j: int, cols: int)
    requires 0 <= i < RowsNumber && 0 <= j < cols
    ensures 0 <= cols * i + j < cols * RowsNumber
  {
    MulLeq(cols, 0, i);
    MulLeq(cols, i, RowsNumber - 1);
    assert cols * (RowsNumber - 1) + cols == cols * RowsNumber;
  }

  lemma IndexBeforeRow(i': int, j': int, i: int, j: int, cols: int)
    requires 0 <= i' < i && 0 <= j' < cols && 0 <= j < cols
    ensures cols * i' + j' < cols * i + j
  {
    MulLeq(cols, i' + 1, i);
    assert cols * (i' + 1) == cols * i' + cols;
  }
}
