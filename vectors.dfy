/** Two-dimensional vectors over the reals, with the operations of the vector
    library that need no square root or trigonometry. Normalisation, rotation
    and random unit vectors use both, so they are supplied from outside as
    function values bundled in `Glm`. */
module Vectors {

  datatype Vec = Vec(x: real, y: real)

  const Zero: Vec := Vec(0.0, 0.0)

  /** The value of JavaScript's Math.PI. */
  const Pi: real := 3.141592653589793

  function Add(a: Vec, b: Vec): (r: Vec)
    ensures r.x == a.x + b.x && r.y == a.y + b.y
  {
    Vec(a.x + b.x, a.y + b.y)
  }

  function Scale(a: Vec, k: real): (r: Vec)
    ensures r.x == a.x * k && r.y == a.y * k
  {
    Vec(a.x * k, a.y * k)
  }

  /** The square of the Euclidean distance: `dist < d` is `d > 0 && DistSq < d*d`. */
  function DistSq(a: Vec, b: Vec): (r: real)
    ensures r >= 0.0
  {
    var dx := a.x - b.x;
    var dy := a.y - b.y;
    assert dx * dx >= 0.0 && dy * dy >= 0.0;
    dx * dx + dy * dy
  }

  /** `distance(a, b) < d`, decided without a square root. */
  predicate Within(a: Vec, b: Vec, d: real) {
    d > 0.0 && DistSq(a, b) < d * d
  }

  /** `distance(a, b) > d`, decided without a square root. */
  predicate Beyond(a: Vec, b: Vec, d: real) {
    d < 0.0 || DistSq(a, b) > d * d
  }

  lemma WithinNotBeyond(a: Vec, b: Vec, d: real)
    ensures !(Within(a, b, d) && Beyond(a, b, d))
  {
  }

  /** The parts of the vector library that use `sqrt`, `sin` and `cos`:
      `normalize(v)`, `rotate(v, angle)` about the origin, and
      `random(u, scale)`, the vector of length `scale` at angle `2*pi*u`. */
  datatype Glm = Glm(normalize: Vec -> Vec, rotate: (Vec, real) -> Vec, random: (real, real) -> Vec)
}
