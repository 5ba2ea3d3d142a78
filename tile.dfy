/** A terrain tile: its position, biome, colour and walkability. */
module Tiles {
  import opened Helpers
  import opened Vectors

  /** The tile types `dirt`, `darkGrass`, `grass`, `sand` and `water`. */
  datatype Biome = Dirt | DarkGrass | Grass | Sand | Water

  predicate IsGrassy(b: Biome) {
    b == Grass || b == DarkGrass
  }

  datatype Tile = Tile(id: int, x: real, y: real, biome: Biome, colorHex: string,
                       color: Option<Rgb>, walkable: bool)

  /** `new Tile(id, x, y, type, walkable = true, color)`. The colour table of
      colors.js is not part of this model and is the parameter `palette`;
      `color || colors[type]` takes the palette entry when `color` is absent
      or the empty string. */
  function NewTile(id: int, x: real, y: real, biome: Biome, walkable: Option<bool>,
                   color: Option<string>, palette: Biome -> string): (t: Tile)
    ensures t.id == id && t.x == x && t.y == y && t.biome == biome
    ensures walkable.None? ==> t.walkable
    ensures walkable.Some? ==> t.walkable == walkable.value
    ensures color.Some? && color.value != "" ==> t.colorHex == color.value
    ensures color.None? || color.value == "" ==> t.colorHex == palette(biome)
    ensures t.color == HexToRgb(t.colorHex)
  {
    var hex := if color.Some? && color.value != "" then color.value else palette(biome);
    Tile(id, x, y, biome, hex, HexToRgb(hex), if walkable.Some? then walkable.value else true)
  }

  /** `toArray()`: `[x, y, r, g, b]`. When the colour did not parse, `color` is
      null and reading `color.r` throws; that is `None` here. */
  function ToArray(t: Tile): (a: Option<seq<real>>)
    ensures a.Some? <==> t.color.Some?
    ensures a.Some? ==> |a.value| == 5 && a.value[0] == t.x && a.value[1] == t.y
    ensures a.Some? ==> a.value[2..] == [t.color.value.r, t.color.value.g, t.color.value.b]
  {
    match t.color
    case Some(c) => Some([t.x, t.y, c.r, c.g, c.b])
    case None => None
  }

  /** `toVec()`: the tile's centre. */
  function ToVec(t: Tile): (v: Vec)
    ensures v.x == t.x && v.y == t.y
  {
    Vec(t.x, t.y)
  }

  /** A tile whose colour is a well-formed hex string always packs five channels in [0, 1]. */
  lemma ToArrayInUnit(t: Tile)
    requires t.color == HexToRgb(t.colorHex) && HexColourShape(t.colorHex)
    ensures ToArray(t).Some?
    ensures forall k :: 2 <= k < 5 ==> InUnit(ToArray(t).value[k])
  {
    var a := ToArray(t).value;
    assert a[2] == t.color.value.r && a[3] == t.color.value.g && a[4] == t.color.value.b;
  }
}
