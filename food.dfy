/** A food source: a position and whether it has been eaten. */
module Foods {

  datatype Food = Food(x: real, y: real, empty: bool)

  /** `new Food(x, y)`: a full source at the given position. */
  function NewFood(x: real, y: real): (f: Food)
    ensures f.x == x && f.y == y
    ensures !f.empty
  {
    Food(x, y, false)
  }

  /** `toArray()`: the position as a pair of coordinates. */
  function ToArray(f: Food): (a: seq<real>)
    ensures |a| == 2
  {
    [f.x, f.y]
  }

  /** The packed pair gives back the position, and a full source is rebuilt
      exactly from it. */
  lemma ToArrayRoundTrip(f: Food)
    ensures ToArray(f)[0] == f.x && ToArray(f)[1] == f.y
    ensures !f.empty ==> NewFood(ToArray(f)[0], ToArray(f)[1]) == f
  {
  }
}
