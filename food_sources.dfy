/** The fixed pool of food sources placed on grass: the nearest-full-source
    query the rabbits use, and the per-frame pass that packs the full sources
    for drawing and, with a small chance per frame, regrows each eaten one at
    a fresh grass tile. */
module FoodSupply {
  import opened Helpers
  import opened Vectors
  import opened Foods
  import opened Tiles
  import Terrain
  import Random

  /** `this.amount`: the number of food sources. */
  const Amount: int := 250

  /** The starting `minDistance` of getClosestFoodSource, squared. */
  const FoodSearchCapSq: real := 1000.0 * 1000.0

  /** The chance per frame that an eaten source regrows: `Math.random() < 0.0001`. */
  const RegrowChance: real := 0.0001

  /** `foodSources.filter(source => !source.empty)`, in array order. */
  function Full(s: seq<Food>): (r: seq<Food>)
    ensures |r| <= |s|
    ensures forall k :: 0 <= k < |r| ==> !r[k].empty
  {
    if s == [] then [] else Full(s[..|s| - 1]) + (if s[|s| - 1].empty then [] else [s[|s| - 1]])
  }

  /** The full sources of a sequence are those of its prefix followed by those of its last element. */
  lemma FullAppend(s: seq<Food>, f: Food)
    ensures Full(s + [f]) == Full(s) + (if f.empty then [] else [f])
  {
    assert (s + [f])[..|s + [f]| - 1] == s;
  }

  /** Every full source of the array is kept by the filter, and nothing else is. */
  lemma {:induction false} FullExactly(s: seq<Food>, f: Food)
    ensures f in Full(s) <==> f in s && !f.empty
  {
    if s != [] {
      FullExactly(s[..|s| - 1], f);
      assert s == s[..|s| - 1] + [s[|s| - 1]];
    }
  }

  /** From `before` to `after` every source stayed as it was or was eaten:
      the rabbits only ever mark a source empty. */
  predicate Eaten(before: seq<Food>, after: seq<Food>) {
    |after| == |before| && forall k :: 0 <= k < |before| ==> after[k] == before[k] || after[k] == before[k].(empty := true)
  }

  lemma EatenTrans(s0: seq<Food>, s1: seq<Food>, s2: seq<Food>)
    requires Eaten(s0, s1) && Eaten(s1, s2)
    ensures Eaten(s0, s2)
  {
  }

  /** Eating never adds a full source. */
  lemma {:induction false} EatenFewerFull(before: seq<Food>, after: seq<Food>)
    requires Eaten(before, after)
    ensures |Full(after)| <= |Full(before)|
  {
    if before != [] {
      var n := |before|;
      assert Eaten(before[..n - 1], after[..n - 1]);
      EatenFewerFull(before[..n - 1], after[..n - 1]);
    }
  }

  // ---------------------------------------------------------------------
  // Grass placement, stated over the tile sequence of the environment
  // ---------------------------------------------------------------------

  ghost predicate HasGrassIn(tiles: seq<Option<Tile>>) {
    exists k :: 0 <= k < |tiles| && tiles[k].Some? && IsGrassy(tiles[k].value.biome)
  }

  /** A position is that of a grass or dark-grass tile. */
  ghost predicate OnGrass(f: Food, tiles: seq<Option<Tile>>) {
    exists k :: 0 <= k < |tiles| && tiles[k].Some? && IsGrassy(tiles[k].value.biome)
                && tiles[k].value.x == f.x && tiles[k].value.y == f.y
  }

  ghost predicate AllOnGrass(s: seq<Food>, tiles: seq<Option<Tile>>) {
    forall k :: 0 <= k < |s| ==> OnGrass(s[k], tiles)
  }

  /** The full source that the grass draw `r` places: `new Food(tile.x, tile.y)`
      for the tile `getRandomGrassTile` picks. */
  function GrassFood(tiles: seq<Option<Tile>>, r: real): (f: Food)
    requires 0.0 <= r < 1.0 && HasGrassIn(tiles)
    ensures !f.empty && OnGrass(f, tiles)
  {
    Terrain.PickFromSelection(tiles, IsGrassy, r);
    var t := Terrain.Pick(Terrain.Select(tiles, IsGrassy), r).value;
    assert exists k :: 0 <= k < |tiles| && tiles[k] == Some(t);
    NewFood(t.x, t.y)
  }

  /** The sources after the regrowth pass over `s`, in array order, and the
      cursor after it: each eaten source takes one draw and, when that draw
      is below the regrowth chance, a second draw that picks its new grass
      tile; full sources take no draw. */
  function Regenerate(s: seq<Food>, tiles: seq<Option<Tile>>, stream: nat -> real, cursor: nat): (r: (seq<Food>, nat))
    requires Random.UnitStream(stream) && HasGrassIn(tiles)
    ensures |r.0| == |s|
    ensures cursor <= r.1
    decreases |s|
  {
    if s == [] then ([], cursor)
    else RegrowStep(Regenerate(s[..|s| - 1], tiles, stream, cursor), s[|s| - 1], tiles, stream)
  }

  /** The pass touches eaten sources only: a full source is unchanged, and a
      source that changes becomes full on a grass tile; a source still eaten
      afterwards is the one that was there. */
  lemma {:induction false} RegenerateTouchesOnlyEaten(s: seq<Food>, tiles: seq<Option<Tile>>, stream: nat -> real, cursor: nat)
    requires Random.UnitStream(stream) && HasGrassIn(tiles)
    ensures var r := Regenerate(s, tiles, stream, cursor).0;
            && (forall k :: 0 <= k < |s| && !s[k].empty ==> r[k] == s[k])
            && (forall k :: 0 <= k < |s| && r[k] != s[k] ==> !r[k].empty && OnGrass(r[k], tiles))
            && (forall k :: 0 <= k < |s| && r[k].empty ==> r[k] == s[k])
    decreases |s|
  {
    if s != [] {
      RegenerateTouchesOnlyEaten(s[..|s| - 1], tiles, stream, cursor);
    }
  }

  /** One source of the pass, given the sources and cursor so far. */
  function RegrowStep(before: (seq<Food>, nat), f: Food, tiles: seq<Option<Tile>>, stream: nat -> real): (r: (seq<Food>, nat))
    requires Random.UnitStream(stream) && HasGrassIn(tiles)
  {
    var one := RegrowOne(f, tiles, stream, before.1);
    (before.0 + [one.0], one.1)
  }

  /** An eaten source takes one draw and, when it is below the regrowth
      chance, a second draw that picks its new grass tile; a full source
      takes no draw. The source after the step, and the cursor. */
  function RegrowOne(f: Food, tiles: seq<Option<Tile>>, stream: nat -> real, c: nat): (r: (Food, nat))
    requires Random.UnitStream(stream) && HasGrassIn(tiles)
  {
    if !f.empty then (f, c)
    else if stream(c) < RegrowChance then (GrassFood(tiles, stream(c + 1)), c + 2)
    else (f, c + 1)
  }

  lemma RegenerateExtend(s: seq<Food>, tiles: seq<Option<Tile>>, stream: nat -> real, cursor: nat, i: nat)
    requires Random.UnitStream(stream) && HasGrassIn(tiles) && i < |s|
    ensures Regenerate(s[..i + 1], tiles, stream, cursor)
            == RegrowStep(Regenerate(s[..i], tiles, stream, cursor), s[i], tiles, stream)
  {
    assert s[..i + 1][..i] == s[..i];
  }

  /** The regrowth pass consumes one draw per eaten source plus one per
      source that regrows: between one and two draws for each eaten source. */
  lemma {:induction false} RegenerateDraws(s: seq<Food>, tiles: seq<Option<Tile>>, stream: nat -> real, cursor: nat)
    requires Random.UnitStream(stream) && HasGrassIn(tiles)
    ensures cursor + |s| - |Full(s)| <= Regenerate(s, tiles, stream, cursor).1 <= cursor + 2 * (|s| - |Full(s)|)
    decreases |s|
  {
    if s != [] {
      RegenerateDraws(s[..|s| - 1], tiles, stream, cursor);
    }
  }

  /** With no eaten source, the pass changes nothing and draws nothing. */
  lemma {:induction false} RegenerateAllFull(s: seq<Food>, tiles: seq<Option<Tile>>, stream: nat -> real, cursor: nat)
    requires Random.UnitStream(stream) && HasGrassIn(tiles)
    requires forall k :: 0 <= k < |s| ==> !s[k].empty
    ensures Regenerate(s, tiles, stream, cursor) == (s, cursor)
    decreases |s|
  {
    if s != [] {
      RegenerateAllFull(s[..|s| - 1], tiles, stream, cursor);
      assert s[..|s| - 1] + [s[|s| - 1]] == s;
    }
  }

  /** The pass keeps every source on grass. */
  lemma RegrowKeepsGrass(s: seq<Food>, tiles: seq<Option<Tile>>, stream: nat -> real, cursor: nat)
    requires Random.UnitStream(stream) && HasGrassIn(tiles) && AllOnGrass(s, tiles)
    ensures AllOnGrass(Regenerate(s, tiles, stream, cursor).0, tiles)
  {
    var r := Regenerate(s, tiles, stream, cursor).0;
    RegenerateTouchesOnlyEaten(s, tiles, stream, cursor);
    forall k | 0 <= k < |r| ensures OnGrass(r[k], tiles) {
      if r[k] == s[k] { assert OnGrass(s[k], tiles); }
    }
  }

  lemma SplitAt<T>(p: seq<T>, s: seq<T>, i: nat)
    requires i < |s|
    ensures p + s[i..] == p + [s[i]] + s[i + 1..]
    ensures (p + s[i..])[|p|] == s[i]
  {
    assert s[i..] == [s[i]] + s[i + 1..];
  }

  lemma ReplaceAt<T>(p: seq<T>, x: T, rest: seq<T>, v: T)
    ensures (p + [x] + rest)[|p| := v] == p + [v] + rest
  {
  }

  /** A source the query may return: full, strictly nearer than `distance`
      and than the cap of 1000. */
  predicate CandidateIn(s: seq<Food>, k: int, p: Vec, distance: real)
    requires 0 <= k < |s|
  {
    !s[k].empty && Within(p, Vec(s[k].x, s[k].y), distance) && DistSq(p, Vec(s[k].x, s[k].y)) < FoodSearchCapSq
  }

  /** No source is a candidate for the point and distance. */
  predicate NoFoodNearIn(s: seq<Food>, p: Vec, distance: real) {
    forall k :: 0 <= k < |s| ==> !CandidateIn(s, k, p, distance)
  }

  function SourceDistSqIn(s: seq<Food>, k: int, p: Vec): real
    requires 0 <= k < |s|
  {
    DistSq(p, Vec(s[k].x, s[k].y))
  }

  /** Source `k` is a candidate no further than any other, and nearer
      than every candidate before it: the one `getClosestFoodSource` returns. */
  predicate NearestIn(s: seq<Food>, k: int, p: Vec, distance: real) {
    && 0 <= k < |s| && CandidateIn(s, k, p, distance)
    && (forall j :: 0 <= j < |s| && CandidateIn(s, j, p, distance) ==> SourceDistSqIn(s, k, p) <= SourceDistSqIn(s, j, p))
    && (forall j :: 0 <= j < k && CandidateIn(s, j, p, distance) ==> SourceDistSqIn(s, k, p) < SourceDistSqIn(s, j, p))
  }

  class FoodSources {
    const environment: Terrain.Environment
    const foodSources: array<Food>
    var rawData: array<real>

    ghost predicate Valid()
      reads this, environment.tiles, foodSources
    {
      && environment.Valid() && HasGrassIn(environment.tiles[..])
      && foodSources.Length == Amount
      && rawData.Length == 2 * Amount
      && AllOnGrass(foodSources[..], environment.tiles[..])
    }

    constructor (environment: Terrain.Environment, rng: Random.Rng)
      requires environment.Valid() && HasGrassIn(environment.tiles[..]) && rng.Valid()
      modifies rng
      ensures Valid() && fresh(foodSources) && fresh(rawData)
      ensures this.environment == environment
      ensures rng.Valid() && rng.cursor == old(rng.cursor) + Amount
      ensures forall k :: 0 <= k < Amount ==>
                foodSources[k] == GrassFood(environment.tiles[..], rng.stream(old(rng.cursor) + k))
      ensures forall k :: 0 <= k < 2 * Amount ==> rawData[k] == 0.0
    {
      this.environment := environment;
      foodSources := new Food[Amount](_ => Food(0.0, 0.0, true));
      rawData := new real[0];
      new;
      GenerateFood(rng);
    }

    /** `generateFood()`: every slot gets a full source on a random grass tile,
        one draw per slot in order, and the packing buffer is allocated zeroed. */
    method GenerateFood(rng: Random.Rng)
      requires environment.Valid() && HasGrassIn(environment.tiles[..]) && rng.Valid()
      requires foodSources.Length == Amount
      modifies this, foodSources, rng
      ensures Valid() && fresh(rawData)
      ensures rng.Valid() && rng.cursor == old(rng.cursor) + Amount
      ensures forall k :: 0 <= k < Amount ==>
                foodSources[k] == GrassFood(environment.tiles[..], rng.stream(old(rng.cursor) + k))
      ensures forall k :: 0 <= k < 2 * Amount ==> rawData[k] == 0.0
    {
      var i := 0;
      while i < foodSources.Length
        invariant 0 <= i <= foodSources.Length
        invariant rng.Valid() && rng.cursor == old(rng.cursor) + i
        invariant forall k :: 0 <= k < i ==>
                    foodSources[k] == GrassFood(environment.tiles[..], rng.stream(old(rng.cursor) + k))
      {
        var t := environment.GetRandomGrassTile(rng);
        foodSources[i] := NewFood(t.value.x, t.value.y);
        i := i + 1;
      }
      rawData := new real[2 * Amount](_ => 0.0);
    }

    // -------------------------------------------------------------------
    // getClosestFoodSource
    // -------------------------------------------------------------------

    /** `getClosestFoodSource(x, y, distance)`: the index of the nearest
        candidate, the first one on ties, or `None` when there is no candidate. */
    method GetClosestFoodSource(x: real, y: real, distance: real) returns (closest: Option<nat>)
      ensures closest.Some? ==> NearestIn(foodSources[..], closest.value, Vec(x, y), distance)
      ensures closest.None? <==> NoFoodNearIn(foodSources[..], Vec(x, y), distance)
    {
      ghost var s := foodSources[..];
      var p := Vec(x, y);
      var minDistSq := FoodSearchCapSq;
      closest := None;
      var i := 0;
      while i < foodSources.Length
        invariant 0 <= i <= foodSources.Length
        invariant closest.None? ==> minDistSq == FoodSearchCapSq
        invariant closest.None? ==> forall k :: 0 <= k < i ==> !CandidateIn(s, k, p, distance)
        invariant closest.Some? ==> closest.value < i && CandidateIn(s, closest.value, p, distance)
        invariant closest.Some? ==> minDistSq == SourceDistSqIn(s, closest.value, p)
        invariant closest.Some? ==> forall k :: 0 <= k < i && CandidateIn(s, k, p, distance) ==>
                    minDistSq <= SourceDistSqIn(s, k, p)
        invariant closest.Some? ==> forall k :: 0 <= k < closest.value && CandidateIn(s, k, p, distance) ==>
                    minDistSq < SourceDistSqIn(s, k, p)
      {
        var source := foodSources[i];
        assert source == s[i];
        var dsq := DistSq(p, Vec(source.x, source.y));
        if Within(p, Vec(source.x, source.y), distance) && dsq < minDistSq && !source.empty {
          closest := Some(i);
          minDistSq := dsq;
        }
        i := i + 1;
      }
    }

    // -------------------------------------------------------------------
    // draw
    // -------------------------------------------------------------------

    /** `draw()`: the coordinates of the full sources, in array order, are
        packed into the front of `rawData` and their number is returned as the
        draw count; only then are eaten sources considered for regrowth, so a
        source that regrows in this frame is drawn from the next one. */
    method Draw(rng: Random.Rng) returns (count: nat)
      requires Valid() && rng.Valid()
      modifies foodSources, rawData, rng
      ensures Valid() && rng.Valid()
      ensures count == |Full(old(foodSources[..]))|
      ensures forall i :: 0 <= i < count ==>
                rawData[2 * i] == Full(old(foodSources[..]))[i].x
                && rawData[2 * i + 1] == Full(old(foodSources[..]))[i].y
      ensures forall i :: 2 * count <= i < rawData.Length ==> rawData[i] == old(rawData[i])
      ensures (foodSources[..], rng.cursor)
              == Regenerate(old(foodSources[..]), environment.tiles[..], rng.stream, old(rng.cursor))
    {
      ghost var tiles := environment.tiles[..];
      count := PackFull();
      Regrow(rng);
      RegrowKeepsGrass(old(foodSources[..]), tiles, rng.stream, old(rng.cursor));
    }

    /** The packing half of `draw()`. */
    method PackFull() returns (count: nat)
      requires rawData.Length == 2 * foodSources.Length
      modifies rawData
      ensures count == |Full(foodSources[..])|
      ensures forall i :: 0 <= i < count ==>
                rawData[2 * i] == Full(foodSources[..])[i].x && rawData[2 * i + 1] == Full(foodSources[..])[i].y
      ensures forall i :: 2 * count <= i < rawData.Length ==> rawData[i] == old(rawData[i])
    {
      ghost var s0 := foodSources[..];
      var n := 0;
      var i := 0;
      while i < foodSources.Length
        invariant 0 <= i <= foodSources.Length
        invariant n == |Full(s0[..i])| && n <= i
        invariant forall k :: 0 <= k < n ==>
                    rawData[2 * k] == Full(s0[..i])[k].x && rawData[2 * k + 1] == Full(s0[..i])[k].y
        invariant forall k :: 2 * n <= k < rawData.Length ==> rawData[k] == old(rawData[k])
      {
        FullAppend(s0[..i], s0[i]);
        assert s0[..i + 1] == s0[..i] + [s0[i]];
        if !foodSources[i].empty {
          var pair := Foods.ToArray(foodSources[i]);
          rawData[2 * n], rawData[2 * n + 1] := pair[0], pair[1];
          n := n + 1;
        }
        i := i + 1;
      }
      assert s0[..foodSources.Length] == s0;
      count := n;
    }

    /** The regrowth half of `draw()`: every eaten source, in array order. */
    method Regrow(rng: Random.Rng)
      requires HasGrassIn(environment.tiles[..]) && rng.Valid()
      modifies foodSources, rng
      ensures rng.Valid()
      ensures (foodSources[..], rng.cursor)
              == Regenerate(old(foodSources[..]), environment.tiles[..], rng.stream, old(rng.cursor))
    {
      ghost var s0 := foodSources[..];
      ghost var tiles := environment.tiles[..];
      ghost var c0 := rng.cursor;
      ghost var acc := Regenerate(s0[..0], tiles, rng.stream, c0);
      var i := 0;
      while i < foodSources.Length
        invariant 0 <= i <= foodSources.Length
        invariant rng.Valid() && environment.tiles[..] == tiles
        invariant acc == Regenerate(s0[..i], tiles, rng.stream, c0)
        invariant foodSources[..] == acc.0 + s0[i..]
        invariant rng.cursor == acc.1
      {
        RegenerateExtend(s0, tiles, rng.stream, c0, i);
        ghost var one := RegrowOne(s0[i], tiles, rng.stream, acc.1);
        SplitAt(acc.0, s0, i);
        RegrowSource(i, rng);
        ReplaceAt(acc.0, s0[i], s0[i + 1..], one.0);
        acc := (acc.0 + [one.0], one.1);
        i := i + 1;
      }
      assert s0[..foodSources.Length] == s0;
      assert acc.0 + s0[foodSources.Length..] == acc.0;
      assert (foodSources[..], rng.cursor) == acc;
    }

    /** The callback of the regrowth pass for source `i`. */
    method RegrowSource(i: nat, rng: Random.Rng)
      requires HasGrassIn(environment.tiles[..]) && rng.Valid() && i < foodSources.Length
      modifies foodSources, rng
      ensures rng.Valid()
      ensures var one := RegrowOne(old(foodSources[i]), environment.tiles[..], rng.stream, old(rng.cursor));
              foodSources[..] == old(foodSources[..])[i := one.0] && rng.cursor == one.1
    {
      if foodSources[i].empty {
        var r := rng.Next();
        if r < RegrowChance {
          ghost var r2 := rng.stream(rng.cursor);
          var t := environment.GetRandomGrassTile(rng);
          assert t == Terrain.Pick(Terrain.Select(environment.tiles[..], IsGrassy), r2);
          foodSources[i] := NewFood(t.value.x, t.value.y);
        }
      }
    }

    /** A rabbit eats source `k`: `closestFoodSource.empty = true`. */
    method MarkEmpty(k: nat)
      requires Valid() && k < foodSources.Length
      modifies foodSources
      ensures Valid()
      ensures foodSources[..] == old(foodSources[..])[k := old(foodSources[k]).(empty := true)]
    {
      foodSources[k] := foodSources[k].(empty := true);
    }
  }
}
