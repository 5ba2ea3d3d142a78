/** `Math.random` as an explicit generator: a fixed stream of draws in [0, 1)
    and a cursor saying how many have been consumed. Every caller that draws
    a number advances the same cursor, so the order of consumption is exact. */
module Random {

  ghost predicate UnitStream(stream: nat -> real) {
    forall i :: 0.0 <= stream(i) < 1.0
  }

  class Rng {
    const stream: nat -> real
    var cursor: nat

    ghost predicate Valid() {
      UnitStream(stream)
    }

    constructor (s: nat -> real)
      requires UnitStream(s)
      ensures Valid() && stream == s && cursor == 0
    {
      stream := s;
      cursor := 0;
    }

    /** One call of `Math.random()`. */
    method Next() returns (r: real)
      requires Valid()
      modifies this
      ensures Valid()
      ensures r == stream(old(cursor)) && cursor == old(cursor) + 1
      ensures 0.0 <= r < 1.0
    {
      r := stream(cursor);
      cursor := cursor + 1;
    }
  }
}
