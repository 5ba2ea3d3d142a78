/** The game loop around the world: the frame clock of `draw(now)`, the
    frame-rate gate that decides whether a frame is drawn, and the mouse-down
    handler that highlights the rabbit under the pointer. The wall clock and
    the animation-frame timestamp are parameters. */
module Driver {
  import opened Helpers
  import Rabbits
  import Random
  import Foods
  import FoodSupply
  import Constants

  /** The frame rate `limitFps` is started with. */
  const Fps: real := 144.0
  /** A frame later than this many seconds after the last one counts as no time. */
  const MaxDelta: real := 0.1

  // ---------------------------------------------------------------------
  // Arithmetic of the clock
  // ---------------------------------------------------------------------

  /** JavaScript's `a % b` on numbers: the remainder of the quotient rounded
      toward zero. It takes the sign of `a`, unlike Dafny's Euclidean `%`. */
  function JsRem(a: real, b: real): (r: real)
    requires b > 0.0
  {
    a - b * Trunc(a / b) as real
  }

  /** `b * q` lies in `[0, b)` when `q` does in `[0, 1)`. */
  lemma ScaleUnit(b: real, q: real)
    requires b > 0.0 && 0.0 <= q < 1.0
    ensures 0.0 <= b * q < b
  {
    assert b - b * q == b * (1.0 - q);
  }

  /** What a whole number `n` of divisors leaves of `a = b * q`, for `n` up to one below `q`. */
  lemma LeftoverBelow(a: real, b: real, q: real, n: real)
    requires b > 0.0 && a == b * q && 0.0 <= q - n < 1.0
    ensures 0.0 <= a - b * n < b
  {
    var d := q - n;
    assert a - b * n == b * d;
    ScaleUnit(b, d);
  }

  /** The same for `n` up to one above `q`. */
  lemma LeftoverAbove(a: real, b: real, q: real, n: real)
    requires b > 0.0 && a == b * q && 0.0 <= n - q < 1.0
    ensures -b < a - b * n <= 0.0
  {
    var d := n - q;
    assert a - b * n == -(b * d);
    ScaleUnit(b, d);
  }

  /** Dividing by a positive number keeps the sign. */
  lemma QuotientSign(a: real, b: real)
    requires b > 0.0
    ensures 0.0 <= a <==> 0.0 <= a / b
  {
    var q := a / b;
    assert a == b * q;
  }

  /** The remainder has the sign of the dividend and is smaller than the
      divisor, and what it leaves out is a whole number of divisors. */
  lemma JsRemRange(a: real, b: real)
    requires b > 0.0
    ensures 0.0 <= a ==> 0.0 <= JsRem(a, b) < b
    ensures a < 0.0 ==> -b < JsRem(a, b) <= 0.0
    ensures a - JsRem(a, b) == Trunc(a / b) as real * b
  {
    var q := a / b;
    QuotientSign(a, b);
    if 0.0 <= a {
      LeftoverBelow(a, b, q, Trunc(q) as real);
    } else {
      LeftoverAbove(a, b, q, Trunc(q) as real);
    }
  }

  /** On a non-negative dividend the remainder agrees with the floored one,
      and changing the dividend's sign changes only the remainder's sign. */
  lemma JsRemFloored(a: real, b: real)
    requires b > 0.0
    ensures 0.0 <= a ==> JsRem(a, b) == a - b * (a / b).Floor as real
    ensures JsRem(-a, b) == -JsRem(a, b)
  {
    assert -a / b == -(a / b);
  }

  /** `deltaTime`: the seconds since the last frame, counted as zero when
      more than a tenth of a second has passed. */
  function DeltaTime(now: real, frameEnd: real): (d: real)
    ensures d <= MaxDelta
    ensures (now - frameEnd) / 1000.0 <= MaxDelta ==> d == (now - frameEnd) / 1000.0
    ensures (now - frameEnd) / 1000.0 > MaxDelta ==> d == 0.0
    ensures frameEnd <= now ==> 0.0 <= d
  {
    var d := (now - frameEnd) / 1000.0;
    if d > MaxDelta then 0.0 else d
  }

  /** Whether the frame end is truthy: set and not zero. */
  predicate Truthy(t: Option<real>) {
    t.Some? && t.value != 0.0
  }

  // ---------------------------------------------------------------------
  // The game
  // ---------------------------------------------------------------------

  /** Simulated time `sim` after a frame of `dt` seconds at speed `factor`:
      it advances only while there are rabbits (`n` of them). */
  function Advanced(sim: real, n: nat, dt: real, factor: real): real {
    if n > 0 then sim + dt * factor else sim
  }

  class Game {
    const population: Rabbits.Population
    var deltaTime: real
    var simulationTime: real
    var timeFromStart: real
    var speedUpFactor: real
    var startTime: real
    /** `frameEndTime`: undefined until the first frame. */
    var frameEndTime: Option<real>
    /** `highlightedRabbit`. */
    var highlighted: Rabbits.Rabbit?
    var fpsInterval: real
    /** `then`: the time the frame-rate gate measures from. */
    var thenTime: real

    /** The frame interval is positive and the speed is not negative. */
    ghost predicate Valid()
      reads this
    {
      fpsInterval > 0.0 && speedUpFactor >= 0.0
    }

    /** The population and the food sources are each coherent. */
    ghost predicate World()
      reads population, population.everyone, population.foodSources,
            population.foodSources.environment.tiles, population.foodSources.foodSources
    {
      population.Valid() && population.environment.Valid() && population.foodSources.Valid()
    }

    /** The rabbits whose highlight is set: none but the selected one. */
    ghost predicate OneHighlighted()
      reads this, population, population.rabbits
    {
      forall q :: q in population.rabbits && q.state.highlighted != 0.0 ==> q == highlighted
    }

    /** The globals start at zero with speed 1; `start()` reads the clock
        into `startTime` and `limitFps(144)` reads it again into `then`. */
    constructor (population: Rabbits.Population, startTime: real, dateNow: real)
      ensures this.population == population
      ensures deltaTime == 0.0 && simulationTime == 0.0 && timeFromStart == 0.0 && speedUpFactor == 1.0
      ensures this.startTime == startTime && frameEndTime.None? && highlighted == null
      ensures Valid() && fpsInterval == 1000.0 / Fps && thenTime == dateNow
    {
      this.population := population;
      deltaTime, simulationTime, timeFromStart, speedUpFactor := 0.0, 0.0, 0.0, 1.0;
      this.startTime := startTime;
      frameEndTime, highlighted := Option.None, null;
      new;
      LimitFps(Fps, dateNow);
    }

    /** `limitFps(fps)`: the interval between frames in milliseconds, and the
        gate measures from now. */
    method LimitFps(fps: real, dateNow: real)
      requires fps > 0.0
      modifies this`fpsInterval, this`thenTime
      ensures fpsInterval == 1000.0 / fps && thenTime == dateNow
      ensures fpsInterval > 0.0 && fpsInterval * fps == 1000.0
    {
      fpsInterval := 1000.0 / fps;
      thenTime := dateNow;
    }

    /** The clock part of `draw(now)`: the first frame measures from itself;
        the time since the last frame is clamped; simulated time advances by
        it, scaled by the speed, only while there are rabbits; the time since
        start is read from the wall clock `dateNow`. */
    method Clock(now: real, dateNow: real)
      modifies this`frameEndTime, this`deltaTime, this`simulationTime, this`timeFromStart
      ensures frameEndTime == if Truthy(old(frameEndTime)) then old(frameEndTime) else Some(now)
      ensures deltaTime == DeltaTime(now, frameEndTime.value)
      ensures !Truthy(old(frameEndTime)) ==> deltaTime == 0.0
      ensures |population.rabbits| == 0 ==> simulationTime == old(simulationTime)
      ensures |population.rabbits| > 0 ==> simulationTime == old(simulationTime) + deltaTime * speedUpFactor
      ensures speedUpFactor >= 0.0 && frameEndTime.value <= now ==> old(simulationTime) <= simulationTime
      ensures timeFromStart == (dateNow - startTime) / 1000.0
    {
      if !Truthy(frameEndTime) {
        frameEndTime := Some(now);
      }
      deltaTime := (now - frameEndTime.value) / 1000.0;
      if deltaTime > MaxDelta {
        deltaTime := 0.0;
      }
      if |population.rabbits| > 0 {
        simulationTime := simulationTime + deltaTime * speedUpFactor;
      }
      timeFromStart := (dateNow - startTime) / 1000.0;
    }

    /** What the world's tick did, from the rabbits `s0` in the states `t0`,
        the obituary `o0`, the unrecorded count `u0` and the food sources
        `f0`: the population's `draw()` (`Population.Draw`) left the states
        `t` for the sweep, in which no rabbit dead before is alive, settled
        the list with the `mothers`, and left the sources `eaten`, at most
        eaten, at cursor `c`; then the food sources' `draw()` counted
        `count` full sources of those and regrew the eaten ones from `c` on,
        up to `cursor`. */
    ghost predicate Ticked(s0: seq<Rabbits.Rabbit>, t0: seq<Rabbits.State>, o0: map<Constants.DeathReason, nat>, u0: nat,
                           f0: seq<Foods.Food>, t: seq<Rabbits.State>, mothers: seq<Rabbits.Rabbit>, count: nat,
                           eaten: seq<Foods.Food>, c: nat, cursor: nat, stream: nat -> real)
      reads population, population.rabbits, s0, population.foodSources, population.foodSources.environment.tiles
      reads population.foodSources.foodSources
    {
      && population.Settled(s0, o0, u0, t, mothers)
      && |t0| == |t| && (forall k :: 0 <= k < |t| && !t0[k].alive ==> !t[k].alive)
      && FoodSupply.Eaten(f0, eaten) && count == |FoodSupply.Full(eaten)|
      && Random.UnitStream(stream) && FoodSupply.HasGrassIn(population.foodSources.environment.tiles[..])
      && (population.foodSources.foodSources[..], cursor)
         == FoodSupply.Regenerate(eaten, population.foodSources.environment.tiles[..], stream, c)
    }

    /** `draw(now)`: the clock, then the world's tick (`Tick`), and the
        frame end moves to `now`. The environment's own `draw` only renders.
        The ghost outputs are those of `Tick`. */
    method Frame(now: real, dateNow: real, sin: real -> real, rng: Random.Rng)
      returns (ghost t: seq<Rabbits.State>, ghost mothers: seq<Rabbits.Rabbit>, count: nat,
               ghost eaten: seq<Foods.Food>, ghost c: nat)
      requires Valid() && World() && rng.Valid()
      modifies this`frameEndTime, this`deltaTime, this`simulationTime, this`timeFromStart
      modifies population`rabbits, population`obituary, population`unrecordedDeaths, population`everyone
      modifies population.everyone, population.foodSources.foodSources, population.foodSources.rawData, rng
      ensures Valid() && World() && rng.Valid() && frameEndTime == Some(now)
      ensures thenTime == old(thenTime) && fpsInterval == old(fpsInterval) && startTime == old(startTime)
      ensures deltaTime == DeltaTime(now, if Truthy(old(frameEndTime)) then old(frameEndTime).value else now)
      ensures !Truthy(old(frameEndTime)) ==> deltaTime == 0.0
      ensures simulationTime == Advanced(old(simulationTime), |old(population.rabbits)|, deltaTime, speedUpFactor)
      ensures timeFromStart == (dateNow - startTime) / 1000.0
      ensures Ticked(old(population.rabbits), old(Rabbits.States(population.rabbits)), old(population.obituary),
                     old(population.unrecordedDeaths), old(population.foodSources.foodSources[..]),
                     t, mothers, count, eaten, c, rng.cursor, rng.stream)
      ensures forall q :: q in old(population.everyone) ==>
                q.lives == old(q.lives) + (if q in Lived(old(population.rabbits), old(Rabbits.States(population.rabbits))) then 1 else 0)
    {
      Clock(now, dateNow);
      assert simulationTime == Advanced(old(simulationTime), |old(population.rabbits)|, deltaTime, speedUpFactor);
      ghost var sim, dt := simulationTime, deltaTime;
      t, mothers, count, eaten, c := Tick(dateNow, sin, rng);
      assert simulationTime == sim && deltaTime == dt;
      frameEndTime := Some(now);
    }

    /** The rabbits of `s`, in the states `t`, that the living pass runs: the living ones. */
    ghost function Lived(s: seq<Rabbits.Rabbit>, t: seq<Rabbits.State>): seq<Rabbits.Rabbit>
      requires |t| == |s|
    {
      Rabbits.Filter(s, Rabbits.AliveFlags(t))
    }

    /** The world's part of `draw(now)`: the population's tick, then the
        food sources' tick, as `Ticked`; the rabbits alive at the start each
        live once, and no other. */
    method Tick(dateNow: real, sin: real -> real, rng: Random.Rng)
      returns (ghost t: seq<Rabbits.State>, ghost mothers: seq<Rabbits.Rabbit>, count: nat,
               ghost eaten: seq<Foods.Food>, ghost c: nat)
      requires World() && rng.Valid()
      modifies population`rabbits, population`obituary, population`unrecordedDeaths, population`everyone
      modifies population.everyone, population.foodSources.foodSources, population.foodSources.rawData, rng
      ensures World() && rng.Valid()
      ensures Ticked(old(population.rabbits), old(Rabbits.States(population.rabbits)), old(population.obituary),
                     old(population.unrecordedDeaths), old(population.foodSources.foodSources[..]),
                     t, mothers, count, eaten, c, rng.cursor, rng.stream)
      ensures forall q :: q in old(population.everyone) ==>
                q.lives == old(q.lives) + (if q in Lived(old(population.rabbits), old(Rabbits.States(population.rabbits))) then 1 else 0)
    {
      t, mothers := population.Draw(sin, dateNow, rng);
      eaten, c := population.foodSources.foodSources[..], rng.cursor;
      count := population.foodSources.Draw(rng);
    }

    /** `animateWithLimitedFps(now)`: a frame is drawn only when more than
        one interval has passed since `then`; `then` then moves forward by a
        whole number of intervals, to within one interval of the wall clock,
        so frames keep to the grid of intervals. Otherwise nothing changes at
        all. The ghost outputs are those of `Frame`. */
    method AnimateWithLimitedFps(now: real, dateNow: real, sin: real -> real, rng: Random.Rng)
      returns (drew: bool, ghost t: seq<Rabbits.State>, ghost mothers: seq<Rabbits.Rabbit>, ghost count: nat,
               ghost eaten: seq<Foods.Food>, ghost c: nat)
      requires Valid() && World() && rng.Valid()
      modifies this`frameEndTime, this`deltaTime, this`simulationTime, this`timeFromStart, this`thenTime
      modifies population`rabbits, population`obituary, population`unrecordedDeaths, population`everyone
      modifies population.everyone, population.foodSources.foodSources, population.foodSources.rawData, rng
      ensures Valid() && World() && rng.Valid()
      ensures drew <==> dateNow - old(thenTime) > fpsInterval
      ensures drew ==> && thenTime == dateNow - JsRem(dateNow - old(thenTime), fpsInterval)
                       && old(thenTime) < thenTime <= dateNow && dateNow - thenTime < fpsInterval
                       && thenTime - old(thenTime) == Trunc((dateNow - old(thenTime)) / fpsInterval) as real * fpsInterval
                       && Trunc((dateNow - old(thenTime)) / fpsInterval) >= 1
                       && frameEndTime == Some(now)
                       && deltaTime == DeltaTime(now, if Truthy(old(frameEndTime)) then old(frameEndTime).value else now)
                       && simulationTime == Advanced(old(simulationTime), |old(population.rabbits)|, deltaTime, speedUpFactor)
                       && timeFromStart == (dateNow - startTime) / 1000.0
                       && Ticked(old(population.rabbits), old(Rabbits.States(population.rabbits)), old(population.obituary),
                                 old(population.unrecordedDeaths), old(population.foodSources.foodSources[..]),
                                 t, mothers, count, eaten, c, rng.cursor, rng.stream)
      ensures drew ==> forall q :: q in old(population.everyone) ==>
                q.lives == old(q.lives) + (if q in Lived(old(population.rabbits), old(Rabbits.States(population.rabbits))) then 1 else 0)
      ensures !drew ==> && unchanged(this) && unchanged(population) && unchanged(population.everyone)
                        && unchanged(population.foodSources.foodSources, population.foodSources.rawData, rng)
    {
      var elapsed := dateNow - thenTime;
      drew := elapsed > fpsInterval;
      t, mothers, count, eaten, c := [], [], 0, [], 0;
      if drew {
        NextThen(thenTime, dateNow, fpsInterval);
        thenTime := dateNow - JsRem(elapsed, fpsInterval);
        t, mothers, count, eaten, c := Frame(now, dateNow, sin, rng);
      }
    }

    /** The mouse-down handler: clicking a rabbit moves the highlight to it,
        clicking elsewhere clears the highlight and the selection. No other
        rabbit changes, so the handler never leaves a second rabbit lit. */
    method Select(x: real, y: real)
      modifies this`highlighted, population.rabbits`state, (if highlighted == null then {} else {highlighted})`state
      ensures highlighted == old(population.GetRabbitAt(x, y))
      ensures var h := highlighted;
              h != null ==> h.state == old(h.state).(highlighted := 1.0)
      ensures var h := old(highlighted);
              h != null && h != highlighted ==> h.state == old(h.state).(highlighted := 0.0)
      ensures forall q :: q in population.rabbits && q != old(highlighted) && q != highlighted ==> q.state == old(q.state)
      ensures old(OneHighlighted()) ==> OneHighlighted()
    {
      var r := population.GetRabbitAt(x, y);
      if highlighted != null {
        highlighted.state := highlighted.state.(highlighted := 0.0);
      }
      highlighted := r;
      if r != null {
        r.state := r.state.(highlighted := 1.0);
      }
    }
  }

  /** More than one interval elapsed is at least one whole interval. */
  /** The frame limiter's new `then`, from the old one `then0` and the wall
      clock `now`, when more than one `interval` has passed: it lies after
      `then0`, not after `now`, within one interval of `now`, and a whole
      number (at least one) of intervals after `then0`. */
  lemma NextThen(then0: real, now: real, interval: real)
    requires interval > 0.0 && now - then0 > interval
    ensures var th := now - JsRem(now - then0, interval);
            && then0 < th <= now && now - th < interval
            && th - then0 == Trunc((now - then0) / interval) as real * interval
            && Trunc((now - then0) / interval) >= 1
  {
    JsRemRange(now - then0, interval);
    QuotientAtLeastOne(now - then0, interval);
  }

  lemma QuotientAtLeastOne(elapsed: real, interval: real)
    requires interval > 0.0 && elapsed > interval
    ensures Trunc(elapsed / interval) >= 1
  {
    var q := elapsed / interval;
    QuotientSign(elapsed, interval);
    assert q * interval == elapsed;
    if q < 1.0 {
      ScaleUnit(interval, q);
    }
  }
}
