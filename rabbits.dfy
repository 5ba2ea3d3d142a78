/** The rabbit agent and the population that owns it. A rabbit hops along its
    velocity, ages, gets thirsty, hungry and, for males, eager to mate; while
    idle it looks for water, then food, then a female, and walks to the one it
    found. The population advances the living rabbits, sweeps the dead into
    its obituary and turns completed pregnancies into litters. */
module Rabbits {
  import opened Helpers
  import opened Vectors
  import opened Constants
  import opened RabbitRules
  import Terrain
  import Tiles
  import FoodSupply
  import Foods
  import Random
  import Genetics
  import Movement

  /** `config`: fixed at birth. The names table is not part of this model;
      `nameDraw` is the draw that picks the name. */
  datatype Config = Config(nameDraw: real, descendants: int, seed: real, sex: Sex, maxAgeMs: real)

  /** `state`: everything a rabbit updates as it lives. */
  datatype State = State(
    activity: Need,
    isMating: bool,
    isDrinking: bool,
    stats: Stats,
    size: real,
    alive: bool,
    birthday: real,
    pregnant: bool,
    speed: real,
    highlighted: real,
    currentAge: int,
    projectedSize: real,
    waterSearchThreshold: int,
    foodSearchThreshold: int,
    matingThreshold: real,
    position: Vec,
    velocity: Vec,
    fieldOfView: Vec,
    deathReason: Option<DeathReason>,
    childbirths: int,
    fatherProps: Option<Genetics.Traits>)

  /** Arrival and give-up distances of the three pursuits. */
  const ArrivalDistance: real := 20.0
  const WaterGiveUp: real := 100.0
  const FoodGiveUp: real := 100.0
  const FemaleGiveUp: real := 200.0
  const FoodSearchRadius: real := 60.0
  const FemaleSearchRadius: real := 100.0
  /** The female search ignores anything 1000 or further away. */
  const FemaleSearchCapSq: real := 1000.0 * 1000.0
  /** A female younger than this is not courted. */
  const CourtingAge: int := 10
  /** The chance per tick that an idle rabbit turns aside. */
  const IdleWanderChance: real := 0.001
  /** The field of view is the heading scaled to this length. */
  const LookAhead: real := 30.0
  const InitialSize: real := 20.0

  /** The tile radius of the water search, `floor(rowsNumber / 15)`. */
  function WaterSearchRadius(): (r: int)
    ensures r == 26 && r as real * 15.0 <= Terrain.RowsNumber as real < (r + 1) as real * 15.0
  {
    (Terrain.RowsNumber as real / 15.0).Floor
  }

  // ---------------------------------------------------------------------
  // The state changes, as functions of the state
  // ---------------------------------------------------------------------

  /** `updateFieldOfView()`: the look-ahead vector points the way the
      velocity's normal form does and is `LookAhead` times as long. */
  function FieldOfView(glm: Glm, v: Vec): (f: Vec)
    ensures var n := glm.normalize(v);
            && f.x * n.y == f.y * n.x && f.x * n.x >= 0.0 && f.y * n.y >= 0.0
            && DistSq(f, Zero) == LookAhead * LookAhead * DistSq(n, Zero)
  {
    var n := glm.normalize(v);
    assert n.x * n.x >= 0.0 && n.y * n.y >= 0.0;
    Scale(n, LookAhead)
  }

  /** The state right after the constructor's own draws, before `startMoving`. */
  function Newborn(x: real, y: real, now: real, rWater: real, rFood: real, rWaterT: real, rFoodT: real): (s: State)
    ensures s.activity == NoNeed && !s.isMating && !s.isDrinking && s.alive && !s.pregnant
    ensures s.stats.mate == 0.0 && s.stats.pregnancy == 0.0
    ensures 0.0 <= rWater < 1.0 ==> 60.0 <= s.stats.water <= 89.0
    ensures 0.0 <= rFood < 1.0 ==> 40.0 <= s.stats.food <= 69.0
    ensures s.birthday == now && s.position == Vec(x, y)
    ensures s.matingThreshold == MatingThreshold && s.highlighted == 0.0 && s.currentAge == 0
  {
    State(NoNeed, false, false,
          Stats(InitialWater(rWater) as real, InitialFood(rFood) as real, 0.0, 0.0),
          InitialSize, true, now, false, 1.0, 0.0, 0, InitialSize,
          SearchThreshold(BaseWaterSearchThreshold, rWaterT),
          SearchThreshold(BaseFoodSearchThreshold, rFoodT),
          MatingThreshold, Vec(x, y), Zero, Zero, Option.None, 0, Option.None)
  }

  /** What moving, turning and stopping keep: the needs and their
      thresholds, life and the mating flag. */
  predicate Kept(s: State, t: State) {
    && t.stats == s.stats && t.alive == s.alive && t.isMating == s.isMating
    && t.waterSearchThreshold == s.waterSearchThreshold && t.foodSearchThreshold == s.foodSearchThreshold
    && t.matingThreshold == s.matingThreshold
  }

  /** `startMoving()`: speed 1, a random heading of length 0.1 and activity
      NONE whatever the activity was; nothing else changes. */
  function StartedMoving(glm: Glm, s: State, r: real): (t: State)
    ensures t.speed == 1.0 && t.activity == NoNeed
    ensures t.velocity == glm.random(r, Movement.VelocityScale) && t.fieldOfView == FieldOfView(glm, t.velocity)
    ensures t.(speed := s.speed, velocity := s.velocity, fieldOfView := s.fieldOfView, activity := s.activity) == s
    ensures Kept(s, t)
  {
    var v := glm.random(r, Movement.VelocityScale * 1.0);
    s.(speed := 1.0, velocity := v, fieldOfView := FieldOfView(glm, v), activity := NoNeed)
  }

  /** The turn of `wander()`: `pi/6 + r*pi/2`, between 30 and 120 degrees. */
  function TurnAngle(r: real): (a: real)
    ensures 0.0 <= r < 1.0 ==> Pi / 6.0 <= a < Pi / 6.0 + Pi / 2.0
  {
    Pi / 6.0 + (r * Pi) / 2.0
  }

  /** `wander()`: speed 1, the heading turned by `TurnAngle(r)` and rescaled
      to 0.1, the field of view follows, activity NONE. */
  function Wandered(glm: Glm, s: State, r: real): (t: State)
    ensures t.speed == 1.0 && t.activity == NoNeed
    ensures t.velocity == Scale(glm.normalize(glm.rotate(s.velocity, TurnAngle(r))), Movement.VelocityScale)
    ensures t.fieldOfView == FieldOfView(glm, t.velocity)
    ensures t.(speed := s.speed, velocity := s.velocity, fieldOfView := s.fieldOfView, activity := s.activity) == s
    ensures Kept(s, t)
  {
    var v := Scale(glm.normalize(glm.rotate(s.velocity, TurnAngle(r))), Movement.VelocityScale * 1.0);
    s.(speed := 1.0, velocity := v, fieldOfView := FieldOfView(glm, v), activity := NoNeed)
  }

  /** `setDirection(x, y)`: head along `(x, y)` at 0.1 times the current speed. */
  function Directed(glm: Glm, s: State, x: real, y: real): (t: State)
    ensures t.velocity == Scale(glm.normalize(Vec(x, y)), Movement.VelocityScale * s.speed)
    ensures t.fieldOfView == FieldOfView(glm, t.velocity)
    ensures t.(velocity := s.velocity, fieldOfView := s.fieldOfView) == s
    ensures Kept(s, t)
  {
    var v := Scale(glm.normalize(Vec(x, y)), Movement.VelocityScale * s.speed);
    s.(velocity := v, fieldOfView := FieldOfView(glm, v))
  }

  /** `stop()`: speed 1 and a zero velocity. The field of view is left as it
      was, so the rabbit keeps looking where it was heading. */
  function Stopped(s: State): (t: State)
    ensures t.speed == 1.0 && t.velocity == Zero && t.fieldOfView == s.fieldOfView
    ensures t.(speed := s.speed, velocity := s.velocity) == s
    ensures Kept(s, t)
  {
    s.(speed := 1.0, velocity := Zero)
  }

  /** The hop at the start of `live()`: the position moves by the velocity
      times the coefficient, and the drawn size swells with the coefficient. */
  function Hopped(s: State, coefficient: real): (t: State)
    ensures t.position == Add(s.position, Scale(s.velocity, coefficient))
    ensures coefficient >= 0.0 ==> t.projectedSize >= s.size
    ensures t.(position := s.position, projectedSize := s.projectedSize) == s
  {
    s.(position := Add(s.position, Scale(s.velocity, coefficient)), projectedSize := s.size + 5.0 * coefficient)
  }

  /** `updateStats()` before its drinking check: one tick of the needs. */
  function Ticked(s: State, sex: Sex): (t: State)
    ensures t.stats == TickStats(s.stats, sex, s.pregnant, s.isDrinking)
    ensures t.(stats := s.stats) == s
  {
    s.(stats := TickStats(s.stats, sex, s.pregnant, s.isDrinking))
  }

  /** `checkAge(now)`: age and size from the time since birth; too old dies. */
  function AgeChecked(s: State, maxAgeMs: real, now: real): (t: State)
    requires maxAgeMs > 0.0
    ensures t.currentAge == CurrentAge(now - s.birthday, maxAgeMs)
    ensures 0.0 <= now - s.birthday <= maxAgeMs ==> 0 <= t.currentAge <= 80 && MinSize <= t.size <= MinSize + MaxSize
    ensures t.alive == (s.alive && !Expired(now - s.birthday, maxAgeMs))
    ensures t.(currentAge := s.currentAge, size := s.size, alive := s.alive) == s
  {
    var age := CurrentAge(now - s.birthday, maxAgeMs);
    s.(currentAge := age, size := Size(age), alive := s.alive && !Expired(now - s.birthday, maxAgeMs))
  }

  /** `checkStats()`: a depleted need kills; nothing revives. */
  function StatsChecked(s: State): (t: State)
    ensures t.alive == (s.alive && !Depleted(s.stats))
    ensures t.(alive := s.alive) == s
  {
    s.(alive := s.alive && !Depleted(s.stats))
  }

  // ---------------------------------------------------------------------
  // The search order of live()
  // ---------------------------------------------------------------------

  /** The searches `live()` runs in one tick and the activity it commits to,
      from whether the rabbit is idle, which needs cross their thresholds and
      which searches would find a target. Each search runs only while the
      rabbit is still idle, in the order water, food, mate. */
  function Searches(idle: bool, wantsWater: bool, wantsFood: bool, wantsMate: bool,
                    foundWater: bool, foundFood: bool, foundFemale: bool): (seq<Need>, Need)
  {
    var water := idle && wantsWater && foundWater;
    var idle2 := idle && !water;
    var food := idle2 && wantsFood && foundFood;
    var idle3 := idle2 && !food;
    var mate := idle3 && wantsMate && foundFemale;
    var searched := (if idle && wantsWater then [Water] else [])
                    + (if idle2 && wantsFood then [Food] else [])
                    + (if idle3 && wantsMate then [Mate] else []);
    (searched, if water then Water else if food then Food else if mate then Mate else NoNeed)
  }

  /** The priorities of `live()`: nothing is searched when the rabbit is
      busy; water, food and mate are searched in that order; each search runs
      exactly when the rabbit is still idle and wants it; and the activity
      taken is the last search run, when that search found something. */
  lemma SearchesPriority(idle: bool, ww: bool, wf: bool, wm: bool, fw: bool, ff: bool, fm: bool)
    ensures var r := Searches(idle, ww, wf, wm, fw, ff, fm);
            && (!idle ==> r == ([], NoNeed))
            && |r.0| <= 3
            && (forall k :: 0 <= k < |r.0| - 1 ==> NeedCode(r.0[k]) < NeedCode(r.0[k + 1]))
            && (r.1 != NoNeed ==> |r.0| > 0 && r.0[|r.0| - 1] == r.1)
            && (r.1 == Water <==> idle && ww && fw)
            && (r.1 == Food <==> idle && !(ww && fw) && wf && ff)
            && (r.1 == Mate <==> idle && !(ww && fw) && !(wf && ff) && wm && fm)
            && (Water in r.0 <==> idle && ww)
            && (Food in r.0 <==> idle && !(ww && fw) && wf)
            && (Mate in r.0 <==> idle && !(ww && fw) && !(wf && ff) && wm)
  {
  }

  /** A search that fails leaves the rabbit idle; so at most one search per
      tick changes the activity, and it is the last one run. */
  lemma {:induction false} EarlierSearchesFailed(idle: bool, ww: bool, wf: bool, wm: bool, fw: bool, ff: bool, fm: bool)
    ensures var r := Searches(idle, ww, wf, wm, fw, ff, fm);
            forall k :: 0 <= k < |r.0| - 1 ==>
              (r.0[k] == Water ==> !fw) && (r.0[k] == Food ==> !ff)
  {
    SearchesPriority(idle, ww, wf, wm, fw, ff, fm);
    var r := Searches(idle, ww, wf, wm, fw, ff, fm);
    forall k | 0 <= k < |r.0| - 1
      ensures (r.0[k] == Water ==> !fw) && (r.0[k] == Food ==> !ff)
    {
      if r.0[k] == Water {
        assert r.0[k + 1] in r.0;
      }
      if r.0[k] == Food {
        assert r.0[k + 1] == Mate by {
          assert NeedCode(r.0[k + 1]) > NeedCode(Food);
          assert r.0[k + 1] in r.0;
        }
      }
    }
  }

  // ---------------------------------------------------------------------
  // One tick of live(), as relations on scenes
  // ---------------------------------------------------------------------

  /** What one tick of `live()` reads and changes of a rabbit, besides the
      draws and the states of other rabbits: its state, its three targets
      and the food sources. */
  datatype Scene = Scene(state: State, water: Option<Vec>, food: Option<nat>, female: Rabbit?, foods: seq<Foods.Food>)

  /** The hop coefficient of `live()`, `max(0, 2 sin(pi seed + speed now / 200))`. */
  function HopCoefficient(sin: real -> real, config: Config, s: State, now: real): (c: real)
    ensures c >= 0.0
  {
    Movement.Coefficient(sin(Pi * config.seed + (s.speed * now) / 200.0))
  }

  /** The draws of `updateStats()`: one, for `startMoving()`, when drinking ends. */
  function MetabolismDraws(config: Config, s: State): (n: nat)
    ensures n == 1 <==> DrinkingEnds(TickStats(s.stats, config.sex, s.pregnant, s.isDrinking), s.isDrinking)
    ensures n <= 1
  {
    if DrinkingEnds(TickStats(s.stats, config.sex, s.pregnant, s.isDrinking), s.isDrinking) then 1 else 0
  }

  /** The part of `live()` before the `isMating` return: the hop by `c`,
      `updateStats()` (whose `startMoving()` draws `r` when drinking ends),
      `checkAge(now)` and `checkStats()`. The rabbit moves by its velocity
      times `c`, ticks its needs, ages, and is alive afterwards exactly when
      it was, is not too old and has no need depleted; nothing revives it. */
  function Metabolised(glm: Glm, config: Config, s: State, c: real, now: real, r: real): (t: State)
    requires config.maxAgeMs > 0.0
    ensures t.position == Add(s.position, Scale(s.velocity, c))
    ensures c >= 0.0 ==> t.projectedSize >= s.size
    ensures t.stats == TickStats(s.stats, config.sex, s.pregnant, s.isDrinking)
    ensures t.currentAge == CurrentAge(now - s.birthday, config.maxAgeMs)
    ensures 0.0 <= now - s.birthday <= config.maxAgeMs ==> MinSize <= t.size <= MinSize + MaxSize
    ensures t.alive == AliveAfterChecks(s.alive, t.stats, now - s.birthday, config.maxAgeMs)
    ensures t.isDrinking == (s.isDrinking && MetabolismDraws(config, s) == 0)
    ensures MetabolismDraws(config, s) == 1 ==>
              t.activity == NoNeed && t.speed == 1.0 && t.velocity == glm.random(r, Movement.VelocityScale)
    ensures MetabolismDraws(config, s) == 0 ==>
              t.activity == s.activity && t.speed == s.speed && t.velocity == s.velocity
    ensures t.isMating == s.isMating && t.pregnant == s.pregnant && t.birthday == s.birthday
    ensures t.waterSearchThreshold == s.waterSearchThreshold && t.foodSearchThreshold == s.foodSearchThreshold
    ensures t.matingThreshold == s.matingThreshold
  {
    Tended(glm, config, Hopped(s, c), now, r)
  }

  /** `updateStats()`, `checkAge(now)` and `checkStats()` after the hop. */
  function Tended(glm: Glm, config: Config, s: State, now: real, r: real): (t: State)
    requires config.maxAgeMs > 0.0
  {
    var h := Ticked(s, config.sex);
    var d := if DrinkingEnds(h.stats, h.isDrinking) then StartedMoving(glm, h.(isDrinking := false), r) else h;
    StatsChecked(AgeChecked(d, config.maxAgeMs, now))
  }

  /** The idle turn of `live()` on the draws from cursor `c`: one draw, and
      with chance 0.001 a wander on the next. The new state and cursor. */
  function Turned(glm: Glm, stream: nat -> real, s: State, c: nat): (t: (State, nat))
    ensures Kept(s, t.0) && t.0.position == s.position
    ensures t.1 == c + (if stream(c) < IdleWanderChance then 2 else 1)
    ensures stream(c) < IdleWanderChance ==> t.0 == Wandered(glm, s, stream(c + 1))
    ensures stream(c) >= IdleWanderChance ==> t.0 == s
  {
    if stream(c) < IdleWanderChance then (Wandered(glm, s, stream(c + 1)), c + 2) else (s, c + 1)
  }

  /** The ending of a search that found its target at `p`: speed 2, heading for `p`. */
  function Aim(glm: Glm, s: State, p: Vec): (t: State)
    ensures t.speed == 2.0
    ensures t.velocity == Scale(glm.normalize(Vec(p.x - s.position.x, p.y - s.position.y)), Movement.VelocityScale * 2.0)
    ensures Kept(s, t) && t.position == s.position && t.activity == s.activity
  {
    Directed(glm, s.(speed := 2.0), p.x - s.position.x, p.y - s.position.y)
  }

  /** Whether `live()` runs each search, from the state before the searches
      and which earlier ones found a target. */
  predicate WantsWater(s: State) {
    s.stats.water < s.waterSearchThreshold as real
  }

  predicate WantsFood(s: State) {
    s.stats.food < s.foodSearchThreshold as real
  }

  predicate WantsMate(s: State) {
    s.stats.mate > s.matingThreshold
  }

  /** Rabbit `q`, in state `s`, is one `getClosestFemale` may return for the
      point `p`: alive, female, strictly within `distance` and the cap of 1000. */
  predicate FemaleAt(q: Rabbit, s: State, p: Vec, distance: real) {
    s.alive && q.config.sex == Female && Within(p, s.position, distance) && DistSq(p, s.position) < FemaleSearchCapSq
  }

  /** The mate search from `p` over the rabbits `herd`, in the states `st`,
      as seen by the searcher `me`: when it runs it returns null exactly when
      no other rabbit is a female within 100, and otherwise one of them,
      whose state is `fs`, no further than any other. */
  ghost predicate FemaleFound(p: Vec, ran: bool, f: Rabbit?, fs: State, herd: seq<Rabbit>, st: seq<State>, me: Rabbit)
    requires |st| == |herd|
  {
    ran ==> && (f == null <==> forall k :: 0 <= k < |herd| && herd[k] != me ==> !FemaleAt(herd[k], st[k], p, FemaleSearchRadius))
            && (f != null ==>
                  && f in herd && f != me && FemaleAt(f, fs, p, FemaleSearchRadius)
                  && (forall k :: 0 <= k < |herd| && herd[k] == f ==> st[k] == fs)
                  && forall k :: 0 <= k < |herd| && herd[k] != me && FemaleAt(herd[k], st[k], p, FemaleSearchRadius) ==>
                                 DistSq(p, fs.position) <= DistSq(p, st[k].position))
  }

  /** The mate search does not look at the searcher's own state. */
  lemma FemaleFoundElsewhere(p: Vec, ran: bool, f: Rabbit?, fs: State, herd: seq<Rabbit>, st0: seq<State>, st1: seq<State>, me: Rabbit)
    requires |st0| == |herd| && |st1| == |herd|
    requires forall k :: 0 <= k < |herd| && herd[k] != me ==> st0[k] == st1[k]
    requires FemaleFound(p, ran, f, fs, herd, st0, me)
    ensures FemaleFound(p, ran, f, fs, herd, st1, me)
  {
  }

  /** Between the snapshots `before` and `now` of the rabbits `herd`, every
      rabbit but `me` kept its life, and every one but `me` and `f` its
      whole state. */
  ghost predicate Spared(herd: seq<Rabbit>, now: seq<State>, before: seq<State>, me: Rabbit, f: Rabbit?) {
    && |now| == |herd| && |before| == |herd|
    && forall k :: 0 <= k < |herd| && herd[k] != me ==>
                     now[k].alive == before[k].alive && (herd[k] != f ==> now[k] == before[k])
  }

  /** A step that spares everyone but `me` after one that spares everyone
      but `me` and `f` spares everyone but `me` and `f`. */
  lemma SparedAfter(herd: seq<Rabbit>, s0: seq<State>, s1: seq<State>, s2: seq<State>, me: Rabbit, f: Rabbit?)
    requires Spared(herd, s1, s0, me, null) && Spared(herd, s2, s1, me, f)
    ensures Spared(herd, s2, s0, me, f)
  {
  }

  /** The food search from `p` over the sources `foods`: when it runs it
      finds food exactly when a full source lies within 60, and the target
      `k` is then the nearest, the first on ties. */
  ghost predicate FoodFound(p: Vec, ran: bool, found: bool, k: Option<nat>, foods: seq<Foods.Food>) {
    ran ==> && (found <==> !FoodSupply.NoFoodNearIn(foods, p, FoodSearchRadius))
            && (found ==> k.Some? && FoodSupply.NearestIn(foods, k.value, p, FoodSearchRadius))
  }

  /** The searches of an idle rabbit in state `s`, from the scene `a` to the
      scene `b`. Each runs only while nothing was found before it and its
      need has crossed its threshold; a search that runs overwrites its
      target, and `fw`, `ff`, `fm` say which one found something. The first
      target found becomes the activity and the heading, at speed 2. `fs` is
      the state of the female the mate search returned and `fs'` hers
      afterwards: when courted, she stops and waits. Which targets the
      searches return is stated by `Rabbit.Found`. */
  ghost predicate Sought(glm: Glm, s: State, a: Scene, b: Scene, fw: bool, ff: bool, fm: bool, fs: State, fs': State) {
    var ww := WantsWater(s);
    var wf := !fw && WantsFood(s);
    var wm := !fw && !ff && WantsMate(s);
    && (fw ==> ww) && (ff ==> wf) && (fm ==> wm)
    && (if ww then (fw <==> b.water.Some?) else b.water == a.water)
    && (if wf then (ff <==> b.food.Some?) else b.food == a.food)
    && (if wm then (fm <==> b.female != null && !fs.pregnant && fs.currentAge > CourtingAge) else b.female == a.female)
    && b.foods == a.foods
    && (ff ==> b.food.value < |b.foods|)
    && fs' == (if fm then Stopped(fs).(isMating := true) else fs)
    && b.state == (if fw then Aim(glm, s, b.water.value).(activity := Water)
                   else if ff then Aim(glm, s, Vec(b.foods[b.food.value].x, b.foods[b.food.value].y)).(activity := Food)
                   else if fm then Aim(glm, s, fs.position).(activity := Mate)
                   else s)
  }

  /** The decision part of `live()`, from scene `a` at cursor `c` to scene `b`
      at cursor `c'`: a busy rabbit changes nothing and draws nothing; an idle
      one turns (`Turned`), then searches (`Sought`). */
  ghost predicate Decided(glm: Glm, stream: nat -> real, a: Scene, c: nat, b: Scene, c': nat,
                          fw: bool, ff: bool, fm: bool, fs: State, fs': State) {
    if a.state.activity != NoNeed then b == a && c' == c && !fw && !ff && !fm && fs' == fs
    else var t := Turned(glm, stream, a.state, c);
         c' == t.1 && Sought(glm, t.0, a, b, fw, ff, fm, fs, fs')
  }

  /** The pursuit part of `live()`, from scene `a` at cursor `c` to scene `b`
      at cursor `c'`: the handler of the activity runs. `fs` and `fs'` are
      the chased female's state before and after. Water: within 20 the rabbit
      stops and drinks, beyond 100 it gives up and wanders. Food: an eaten
      source is abandoned, within 20 the source is eaten and food set to
      100, beyond 100 the source is abandoned, each ending with a wander.
      Mate: a pregnant female is abandoned, within 20 she conceives and
      starts moving while he drops his urge to 0, beyond 200 she is
      abandoned, each ending with a wander. Otherwise nothing changes. */
  ghost predicate Pursued(glm: Glm, stream: nat -> real, a: Scene, c: nat, fs: State, b: Scene, c': nat, fs': State) {
    var s := a.state;
    var r := stream(c);
    match s.activity
    case NoNeed => b == a && c' == c && fs' == fs
    case Water =>
      && a.water.Some? && fs' == fs
      && var w := a.water.value;
         if Within(s.position, w, ArrivalDistance) then b == a.(state := Stopped(s).(isDrinking := true)) && c' == c
         else if Beyond(s.position, w, WaterGiveUp) then
           b == a.(state := Wandered(glm, s.(activity := NoNeed), r)) && c' == c + 1
         else b == a && c' == c
    case Food =>
      && a.food.Some? && a.food.value < |a.foods| && fs' == fs
      && var k := a.food.value;
         var f := a.foods[k];
         if f.empty then b == a.(state := Wandered(glm, s, r), food := Option.None) && c' == c + 1
         else if Within(s.position, Vec(f.x, f.y), ArrivalDistance) then
           && b == a.(state := Wandered(glm, s.(stats := s.stats.(food := Sated)), r), food := Option.None,
                      foods := a.foods[k := f.(empty := true)])
           && c' == c + 1
         else if Beyond(s.position, Vec(f.x, f.y), FoodGiveUp) then
           b == a.(state := Wandered(glm, s, r), food := Option.None) && c' == c + 1
         else b == a && c' == c
    case Mate =>
      && a.female != null
      && if fs.pregnant then b == a.(state := Wandered(glm, s, r), female := null) && c' == c + 1 && fs' == fs
         else if Within(s.position, fs.position, ArrivalDistance) then
           && fs' == StartedMoving(a.female.glm, fs.(pregnant := true, isMating := false), r)
           && b == a.(state := Wandered(glm, s.(stats := s.stats.(mate := 0.0)), stream(c + 1)), female := null)
           && c' == c + 2
         else if Beyond(s.position, fs.position, FemaleGiveUp) then
           b == a.(state := Wandered(glm, s, r), female := null) && c' == c + 1 && fs' == fs
         else b == a && c' == c && fs' == fs
  }

  /** `checkEnvironment()` on a scene at cursor `c`: with an obstacle ahead
      the rabbit wanders on the next draw, otherwise nothing changes. */
  function LookedAhead(glm: Glm, stream: nat -> real, p: Scene, c: nat, blocked: bool): (r: (Scene, nat))
    ensures r.0 == p.(state := r.0.state) && Kept(p.state, r.0.state)
    ensures blocked ==> r.0.state == Wandered(glm, p.state, stream(c)) && r.1 == c + 1
    ensures !blocked ==> r == (p, c)
  {
    if blocked then (p.(state := Wandered(glm, p.state, stream(c))), c + 1) else (p, c)
  }

  /** The scenes of one tick of `live()` between its phases: `m` after the
      hop and the checks, at cursor `cm`; `d` after the decision, at `cd`,
      with which searches found something, the state `fs` of the female
      the mate search returned (or chased) and hers `fs1` after courting;
      `p` after the pursuit, at `cp`, with her state `fs2`; and whether an
      obstacle lay ahead. */
  datatype Trace = Trace(m: State, cm: nat, d: Scene, cd: nat, fw: bool, ff: bool, fm: bool,
                         fs: State, fs1: State, p: Scene, cp: nat, fs2: State, blocked: bool)

  /** The rest of `live()` after the `isMating` return, from scene `a` at
      cursor `c` through the trace `t` to scene `b` at cursor `cb`: decide,
      pursue, look ahead. */
  ghost predicate Acted(glm: Glm, stream: nat -> real, a: Scene, c: nat, t: Trace, b: Scene, cb: nat) {
    && Decided(glm, stream, a, c, t.d, t.cd, t.fw, t.ff, t.fm, t.fs, t.fs1)
    && Pursued(glm, stream, t.d, t.cd, t.fs1, t.p, t.cp, t.fs2)
    && (b, cb) == LookedAhead(glm, stream, t.p, t.cp, t.blocked)
  }

  /** The searches agree with `Searches`: one tick commits to the activity
      it names, in priority order, and keeps the needs and life. */
  lemma {:induction false} SoughtFollowsSearches(glm: Glm, s: State, a: Scene, b: Scene, fw: bool, ff: bool, fm: bool,
                                                 fs: State, fs': State)
    requires s.activity == NoNeed && Sought(glm, s, a, b, fw, ff, fm, fs, fs')
    ensures b.state.activity == Searches(true, WantsWater(s), WantsFood(s), WantsMate(s), fw, ff, fm).1
    ensures Kept(s, b.state) && b.state.position == s.position
  {
    var ww, wf, wm := WantsWater(s), !fw && WantsFood(s), !fw && !ff && WantsMate(s);
    if fw {
      assert b.state == Aim(glm, s, b.water.value).(activity := Water);
    } else if ff {
      assert b.state == Aim(glm, s, Vec(b.foods[b.food.value].x, b.foods[b.food.value].y)).(activity := Food);
    } else if fm {
      assert b.state == Aim(glm, s, fs.position).(activity := Mate);
    } else {
      assert b.state == s;
    }
  }

  /** Each pursuit keeps life, the mating flag and the thresholds, and
      leaves the activity as it was or NONE; so after one handler ran no
      other handler of `live()` applies. */
  lemma {:induction false} PursuitKeeps(glm: Glm, stream: nat -> real, a: Scene, c: nat, fs: State, b: Scene, c': nat, fs': State)
    requires Pursued(glm, stream, a, c, fs, b, c', fs')
    ensures b.state.alive == a.state.alive && b.state.isMating == a.state.isMating
    ensures b.state.activity == a.state.activity || b.state.activity == NoNeed
    ensures c <= c' <= c + 2
    ensures fs'.alive == fs.alive && fs'.position == fs.position
  {
    var s := a.state;
    match s.activity
    case NoNeed =>
    case Water =>
    case Food =>
    case Mate =>
      if !fs.pregnant && Within(s.position, fs.position, ArrivalDistance) {
        assert fs' == StartedMoving(a.female.glm, fs.(pregnant := true, isMating := false), stream(c));
      }
  }

  /** One tick of `live()` at most marks the food source it reached as
      eaten: the decision, the other pursuits and the look ahead leave the
      sources alone. */
  lemma ActedEats(glm: Glm, stream: nat -> real, a: Scene, c: nat, t: Trace, b: Scene, cb: nat)
    requires Acted(glm, stream, a, c, t, b, cb)
    ensures FoodSupply.Eaten(a.foods, b.foods)
  {
    assert t.d.foods == a.foods;
    assert b.foods == t.p.foods;
    if t.d.state.activity == Food && t.p.foods != t.d.foods {
      var k := t.d.food.value;
      assert t.p.foods == t.d.foods[k := t.d.foods[k].(empty := true)];
    }
  }

  /** Where the newborns of a litter land: `floor((2r - 1) * 5)`, in [-5, 4]. */
  function Jitter(r: real): (d: int)
    ensures 0.0 <= r < 1.0 ==> -5 <= d <= 4
  {
    var v := (2.0 * r - 1.0) * 5.0;
    if 0.0 <= r < 1.0 then
      assert -5.0 <= v < 5.0;
      v.Floor
    else v.Floor
  }

  /** The ten draws of the rabbit constructor, in the constructor's order:
      the configuration (name, descendants, seed, sex, maximum age), the
      starting needs and thresholds, and the draw of the closing `startMoving()`. */
  method DrawBirth(glm: Glm, x: real, y: real, now: real, rng: Random.Rng) returns (config: Config, state: State)
    requires rng.Valid()
    modifies rng
    ensures rng.Valid() && rng.cursor == old(rng.cursor) + 10
    ensures var d := rng.stream;
            var c := old(rng.cursor);
            && config == Config(d(c), Descendants(d(c + 1)), d(c + 2), SexOf(d(c + 3)), MaxAgeMs(d(c + 4)))
            && state == StartedMoving(glm, Newborn(x, y, now, d(c + 5), d(c + 6), d(c + 7), d(c + 8)), d(c + 9))
    ensures config.maxAgeMs > 0.0 && 1 <= config.descendants <= 7
  {
    var rName := rng.Next();
    var rDescendants := rng.Next();
    var rSeed := rng.Next();
    var rSex := rng.Next();
    var rAge := rng.Next();
    config := Config(rName, Descendants(rDescendants), rSeed, SexOf(rSex), MaxAgeMs(rAge));
    DescendantsRange(rDescendants);
    var rWater := rng.Next();
    var rFood := rng.Next();
    var rWaterT := rng.Next();
    var rFoodT := rng.Next();
    var r := rng.Next();
    state := StartedMoving(glm, Newborn(x, y, now, rWater, rFood, rWaterT, rFoodT), r);
  }

  // ---------------------------------------------------------------------
  // The rabbit
  // ---------------------------------------------------------------------

  /** A female never wants to mate, and every pursuit has a target: water to
      fetch, a food source of the array, or a female courted by a male.
      `courted` is the sex of the rabbit courted, if any. */
  predicate Coherent(config: Config, s: State, water: Option<Vec>, food: Option<nat>, courted: Option<Sex>) {
    && config.maxAgeMs > 0.0 && config.descendants >= 1
    && s.matingThreshold == MatingThreshold
    && (config.sex == Female ==> s.stats.mate == 0.0)
    && (s.activity == Water ==> water.Some?)
    && (s.activity == Food ==> food.Some? && food.value < FoodSupply.Amount)
    && (s.activity == Mate ==> courted == Some(Female) && config.sex == Male)
  }

  class Rabbit {
    const config: Config
    /** The vector library's normalize, rotate and random. */
    const glm: Glm
    const environment: Terrain.Environment
    const foodSources: FoodSupply.FoodSources
    const population: Population

    var state: State
    var closestWaterTile: Option<Vec>
    /** The food source chased, as its index in the food sources' array. */
    var closestFoodSource: Option<nat>
    var closestFemale: Rabbit?
    /** How many times `live()` has run on this rabbit. */
    ghost var lives: nat

    /** `Coherent`, and the rabbit never chases itself. */
    ghost predicate Valid()
      reads this
    {
      && Coherent(config, state, closestWaterTile, closestFoodSource,
                  if closestFemale == null then Option.None else Some(closestFemale.config.sex))
      && closestFemale != this
    }

    /** The female chased, as a frame. */
    function Courted(): set<Rabbit>
      reads this
    {
      if closestFemale == null then {} else {closestFemale}
    }

    /** The rabbit's scene now. */
    function View(): Scene
      reads this, foodSources.foodSources
    {
      Scene(state, closestWaterTile, closestFoodSource, closestFemale, foodSources.foodSources[..])
    }

    /** The state of the female chased, or the rabbit's own when there is none. */
    function ChasedState(): State
      reads this, Courted()
    {
      if closestFemale == null then state else closestFemale.state
    }

    constructor (x: real, y: real, environment: Terrain.Environment, foodSources: FoodSupply.FoodSources,
                 population: Population, glm: Glm, rng: Random.Rng, now: real)
      requires rng.Valid()
      modifies rng
      ensures Valid() && rng.Valid() && rng.cursor == old(rng.cursor) + 10
      ensures this.environment == environment && this.foodSources == foodSources
      ensures this.population == population && this.glm == glm
      ensures var d := rng.stream;
              var c := old(rng.cursor);
              && config == Config(d(c), Descendants(d(c + 1)), d(c + 2), SexOf(d(c + 3)), MaxAgeMs(d(c + 4)))
              && state == StartedMoving(glm, Newborn(x, y, now, d(c + 5), d(c + 6), d(c + 7), d(c + 8)), d(c + 9))
      ensures closestWaterTile.None? && closestFoodSource.None? && closestFemale == null && lives == 0
    {
      var c, st := DrawBirth(glm, x, y, now, rng);
      config, state := c, st;
      this.environment, this.foodSources, this.population, this.glm := environment, foodSources, population, glm;
      closestWaterTile, closestFoodSource, closestFemale := Option.None, Option.None, null;
      lives := 0;
    }

    // -------------------------------------------------------------------
    // Velocity and needs
    // -------------------------------------------------------------------

    method StartMoving(rng: Random.Rng)
      requires rng.Valid()
      modifies this`state, rng
      ensures rng.Valid() && rng.cursor == old(rng.cursor) + 1
      ensures state == StartedMoving(glm, old(state), rng.stream(old(rng.cursor)))
    {
      var r := rng.Next();
      state := StartedMoving(glm, state, r);
    }

    method Wander(rng: Random.Rng)
      requires rng.Valid()
      modifies this`state, rng
      ensures rng.Valid() && rng.cursor == old(rng.cursor) + 1
      ensures state == Wandered(glm, old(state), rng.stream(old(rng.cursor)))
    {
      var r := rng.Next();
      state := Wandered(glm, state, r);
    }

    method SetDirection(x: real, y: real)
      modifies this`state
      ensures state == Directed(glm, old(state), x, y)
    {
      state := Directed(glm, state, x, y);
    }

    method Stop()
      modifies this`state
      ensures state == Stopped(old(state))
    {
      state := Stopped(state);
    }

    /** `updateStats()`: one tick of the needs; when drinking takes water
        above 100, drinking stops and the rabbit starts moving, idle. */
    method UpdateStats(rng: Random.Rng)
      requires rng.Valid()
      modifies this`state, rng
      ensures rng.Valid()
      ensures var t := Ticked(old(state), config.sex);
              if DrinkingEnds(t.stats, t.isDrinking) then
                rng.cursor == old(rng.cursor) + 1
                && state == StartedMoving(glm, t.(isDrinking := false), rng.stream(old(rng.cursor)))
              else rng.cursor == old(rng.cursor) && state == t
    {
      state := Ticked(state, config.sex);
      if state.isDrinking && state.stats.water > Sated {
        state := state.(isDrinking := false);
        StartMoving(rng);
        state := state.(activity := NoNeed);
      }
    }

    method CheckStats()
      modifies this`state
      ensures state == StatsChecked(old(state))
    {
      if Depleted(state.stats) {
        state := state.(alive := false);
      }
    }

    method CheckAge(now: real)
      requires config.maxAgeMs > 0.0
      modifies this`state
      ensures state == AgeChecked(old(state), config.maxAgeMs, now)
    {
      var age := CurrentAge(now - state.birthday, config.maxAgeMs);
      state := state.(currentAge := age, size := Size(age));
      if Expired(now - state.birthday, config.maxAgeMs) {
        state := state.(alive := false);
      }
    }

    // -------------------------------------------------------------------
    // Searches
    // -------------------------------------------------------------------

    /** `searchForWater()`: the closest water tile in the window becomes the
        target; when there is one, the rabbit heads there at speed 2. */
    method SearchForWater() returns (found: bool)
      requires Valid() && state.activity == NoNeed && environment.Valid()
      modifies this`state, this`closestWaterTile
      ensures Valid()
      ensures Kept(old(state), state) && state.activity == (if found then Water else NoNeed)
      ensures found <==> closestWaterTile.Some?
      ensures !found <==> environment.NoWaterNear(old(state).position.x, old(state).position.y, WaterSearchRadius())
      ensures found ==> environment.ClosestWaterAt(old(state).position.x, old(state).position.y, WaterSearchRadius(),
                                                   closestWaterTile.value)
      ensures state == if found then Aim(glm, old(state), closestWaterTile.value).(activity := Water) else old(state)
    {
      var tile, ci, cj := environment.GetClosestWater(state.position.x, state.position.y, WaterSearchRadius());
      closestWaterTile := tile;
      found := tile.Some?;
      if found {
        ghost var p := state.position;
        assert environment.ClosestWaterAt(p.x, p.y, WaterSearchRadius(), tile.value) by {
          var mx, my := environment.MapX(p.x), environment.MapY(p.y);
          assert environment.ClosestWaterCell(ci, cj, mx, my, environment.Window(mx, my, WaterSearchRadius()));
        }
        HeadForWater(tile.value);
      }
    }

    /** The ending of `searchForWater()` with water found at `v`: speed 2,
        heading for it, activity WATER. */
    method HeadForWater(v: Vec)
      requires Valid() && closestWaterTile == Some(v)
      modifies this`state
      ensures Valid() && state == Aim(glm, old(state), v).(activity := Water)
    {
      state := state.(speed := 2.0);
      SetDirection(v.x - state.position.x, v.y - state.position.y);
      state := state.(activity := Water);
    }

    /** `searchForFood()`: the closest non-empty source within 60 becomes the
        target; when there is one, the rabbit heads there at speed 2. */
    method SearchForFood() returns (found: bool)
      requires Valid() && state.activity == NoNeed && foodSources.Valid()
      modifies this`state, this`closestFoodSource
      ensures Valid()
      ensures Kept(old(state), state) && state.activity == (if found then Food else NoNeed)
      ensures found <==> closestFoodSource.Some?
      ensures found ==> FoodSupply.NearestIn(foodSources.foodSources[..], closestFoodSource.value, old(state).position, FoodSearchRadius)
      ensures !found <==> FoodSupply.NoFoodNearIn(foodSources.foodSources[..], old(state).position, FoodSearchRadius)
      ensures found ==> var f := foodSources.foodSources[closestFoodSource.value];
                        state == Aim(glm, old(state), Vec(f.x, f.y)).(activity := Food)
      ensures !found ==> state == old(state)
    {
      var k := foodSources.GetClosestFoodSource(state.position.x, state.position.y, FoodSearchRadius);
      closestFoodSource := k;
      found := false;
      if k.Some? && !foodSources.foodSources[k.value].empty {
        found := true;
        HeadForFood(foodSources.foodSources[k.value]);
      }
    }

    /** The ending of `searchForFood()` with the source `f` found: speed 2,
        heading for it, activity FOOD. */
    method HeadForFood(f: Foods.Food)
      requires Valid() && closestFoodSource.Some? && closestFoodSource.value < FoodSupply.Amount
      modifies this`state
      ensures Valid() && state == Aim(glm, old(state), Vec(f.x, f.y)).(activity := Food)
    {
      state := state.(speed := 2.0);
      SetDirection(f.x - state.position.x, f.y - state.position.y);
      state := state.(activity := Food);
    }

    /** `searchForFemale()`, run by a male: the closest living female within
        100 becomes the target (`FemaleFound`, over the states before the
        search); only one that is not pregnant and older than 10 is courted:
        the male heads for her at speed 2, she stops and waits. The ghost
        output `fs` is her state before the search. */
    method SearchForFemale() returns (found: bool, ghost fs: State)
      requires Valid() && state.activity == NoNeed && config.sex == Male
      requires forall q :: q in population.rabbits ==> q.Valid()
      modifies this`state, this`closestFemale, population.rabbits`state
      ensures Valid() && forall q :: q in population.rabbits ==> q.Valid()
      ensures Kept(old(state), state) && state.activity == (if found then Mate else NoNeed)
      ensures closestFemale == null || closestFemale in population.rabbits
      ensures FemaleFound(old(state).position, true, closestFemale, fs, population.rabbits, old(States(population.rabbits)), this)
      ensures found <==> closestFemale != null && !fs.pregnant && fs.currentAge > CourtingAge
      ensures state == if found then Aim(glm, old(state), fs.position).(activity := Mate) else old(state)
      ensures found ==> closestFemale.state == Stopped(fs).(isMating := true)
      ensures !found ==> fs == ChasedState()
      ensures forall q :: q in population.rabbits && q != this && (q != closestFemale || !found) ==> q.state == old(q.state)
    {
      ghost var st := States(population.rabbits);
      ghost var p := state.position;
      var f, idx := population.GetClosestFemale(state.position.x, state.position.y, FemaleSearchRadius);
      closestFemale := f;
      fs := if f == null then state else f.state;
      assert FemaleFound(p, true, f, fs, population.rabbits, st, this) by {
        assert !FemaleAt(this, state, p, FemaleSearchRadius);
      }
      found := false;
      if f != null && !f.state.pregnant && f.state.currentAge > CourtingAge {
        found := true;
        Court(f);
      }
    }

    /** The courting ending of `searchForFemale()`: he heads for her at speed
        2, she stops and waits. */
    method Court(f: Rabbit)
      requires Valid() && config.sex == Male && f != this && f.Valid() && closestFemale == f && f.config.sex == Female
      modifies this`state, f`state
      ensures Valid() && f.Valid() && Kept(old(state), state) && state.activity == Mate
      ensures state == Aim(glm, old(state), old(f.state).position).(activity := Mate)
      ensures f.state == Stopped(old(f.state)).(isMating := true) && closestFemale == f
    {
      state := state.(speed := 2.0);
      SetDirection(f.state.position.x - state.position.x, f.state.position.y - state.position.y);
      state := state.(activity := Mate);
      f.Stop();
      f.state := f.state.(isMating := true);
    }

    // -------------------------------------------------------------------
    // Pursuits
    // -------------------------------------------------------------------

    /** `moveTowardsWater()`: within 20 the rabbit stops and drinks; further
        than 100 it gives up and wanders. */
    method MoveTowardsWater(rng: Random.Rng)
      requires Valid() && closestWaterTile.Some? && rng.Valid()
      modifies this`state, rng
      ensures rng.Valid()
      ensures Valid() && state.alive == old(state).alive && state.isMating == old(state).isMating
      ensures state.activity == old(state).activity || state.activity == NoNeed
      ensures var w := closestWaterTile.value;
              if Within(old(state).position, w, ArrivalDistance) then
                state == Stopped(old(state)).(isDrinking := true) && rng.cursor == old(rng.cursor)
              else if Beyond(old(state).position, w, WaterGiveUp) then
                state == Wandered(glm, old(state).(activity := NoNeed), rng.stream(old(rng.cursor)))
                && rng.cursor == old(rng.cursor) + 1
              else state == old(state) && rng.cursor == old(rng.cursor)
    {
      var w := closestWaterTile.value;
      if Within(state.position, w, ArrivalDistance) {
        Stop();
        state := state.(isDrinking := true);
      } else if Beyond(state.position, w, WaterGiveUp) {
        state := state.(activity := NoNeed);
        Wander(rng);
      }
    }

    /** `moveTowardsFood()`: an eaten target is abandoned; within 20 the
        source is eaten, food goes to 100 and the target is dropped; further
        than 100 the target is abandoned. Every ending wanders. */
    method MoveTowardsFood(rng: Random.Rng)
      requires Valid() && closestFoodSource.Some? && rng.Valid() && foodSources.Valid()
      requires closestFoodSource.value < foodSources.foodSources.Length
      modifies this`state, this`closestFoodSource, foodSources.foodSources, rng
      ensures rng.Valid() && foodSources.Valid()
      ensures Valid() && state.alive == old(state).alive && state.isMating == old(state).isMating
      ensures state.activity == old(state).activity || state.activity == NoNeed
      ensures var k := old(closestFoodSource).value;
              var f := old(foodSources.foodSources[k]);
              var r := rng.stream(old(rng.cursor));
              if f.empty then
                && state == Wandered(glm, old(state), r) && closestFoodSource.None?
                && foodSources.foodSources[..] == old(foodSources.foodSources[..])
                && rng.cursor == old(rng.cursor) + 1
              else if Within(old(state).position, Vec(f.x, f.y), ArrivalDistance) then
                && state == Wandered(glm, old(state).(stats := old(state).stats.(food := Sated)), r)
                && closestFoodSource.None?
                && foodSources.foodSources[..] == old(foodSources.foodSources[..])[k := f.(empty := true)]
                && rng.cursor == old(rng.cursor) + 1
              else if Beyond(old(state).position, Vec(f.x, f.y), FoodGiveUp) then
                && state == Wandered(glm, old(state), r) && closestFoodSource.None?
                && foodSources.foodSources[..] == old(foodSources.foodSources[..])
                && rng.cursor == old(rng.cursor) + 1
              else
                && state == old(state) && closestFoodSource == old(closestFoodSource)
                && foodSources.foodSources[..] == old(foodSources.foodSources[..])
                && rng.cursor == old(rng.cursor)
    {
      var k := closestFoodSource.value;
      var f := foodSources.foodSources[k];
      if f.empty {
        Wander(rng);
        closestFoodSource := Option.None;
        return;
      }
      if Within(state.position, Vec(f.x, f.y), ArrivalDistance) {
        foodSources.MarkEmpty(k);
        state := state.(stats := state.stats.(food := Sated));
        closestFoodSource := Option.None;
        Wander(rng);
      } else if Beyond(state.position, Vec(f.x, f.y), FoodGiveUp) {
        Wander(rng);
        closestFoodSource := Option.None;
      }
    }

    /** What a male's arrival does to the female he courts: she is pregnant,
        no longer waiting, and starts moving again. */
    method Conceive(rng: Random.Rng)
      requires Valid() && rng.Valid()
      modifies this`state, rng
      ensures Valid() && rng.Valid() && rng.cursor == old(rng.cursor) + 1
      ensures state == StartedMoving(glm, old(state).(pregnant := true, isMating := false), rng.stream(old(rng.cursor)))
    {
      state := state.(pregnant := true, isMating := false);
      StartMoving(rng);
    }

    /** `moveTowardsFemale()`: a female already pregnant is abandoned; within
        20 she becomes pregnant, stops waiting and starts moving, and the
        male's urge goes to 0; further than 200 she is abandoned. Every
        ending wanders. */
    method MoveTowardsFemale(rng: Random.Rng)
      requires Valid() && closestFemale != null && closestFemale != this && rng.Valid()
      requires closestFemale.Valid()
      modifies this`state, this`closestFemale, closestFemale`state, rng
      ensures rng.Valid()
      ensures Valid() && state.alive == old(state).alive && state.isMating == old(state).isMating
      ensures state.activity == old(state).activity || state.activity == NoNeed
      ensures old(closestFemale).Valid() && old(closestFemale).state.alive == old(closestFemale.state.alive)
      ensures var f := old(closestFemale);
              var fs := old(closestFemale.state);
              var r := rng.stream(old(rng.cursor));
              if fs.pregnant then
                && state == Wandered(glm, old(state), r) && closestFemale == null
                && f.state == fs && rng.cursor == old(rng.cursor) + 1
              else if Within(old(state).position, fs.position, ArrivalDistance) then
                && f.state == StartedMoving(f.glm, fs.(pregnant := true, isMating := false), r)
                && state == Wandered(glm, old(state).(stats := old(state).stats.(mate := 0.0)), rng.stream(old(rng.cursor) + 1))
                && closestFemale == null && rng.cursor == old(rng.cursor) + 2
              else if Beyond(old(state).position, fs.position, FemaleGiveUp) then
                && state == Wandered(glm, old(state), r) && closestFemale == null
                && f.state == fs && rng.cursor == old(rng.cursor) + 1
              else
                && state == old(state) && closestFemale == old(closestFemale)
                && f.state == fs && rng.cursor == old(rng.cursor)
    {
      var f := closestFemale;
      if f.state.pregnant {
        GiveUpFemale(rng);
      } else if Within(state.position, f.state.position, ArrivalDistance) {
        Couple(rng);
      } else if Beyond(state.position, f.state.position, FemaleGiveUp) {
        GiveUpFemale(rng);
      }
    }

    /** The abandoning endings of `moveTowardsFemale()`: wander, and forget her. */
    method GiveUpFemale(rng: Random.Rng)
      requires Valid() && rng.Valid()
      modifies this`state, this`closestFemale, rng
      ensures Valid() && rng.Valid() && rng.cursor == old(rng.cursor) + 1
      ensures state == Wandered(glm, old(state), rng.stream(old(rng.cursor))) && closestFemale == null
    {
      Wander(rng);
      closestFemale := null;
    }

    /** The mating ending of `moveTowardsFemale()`: she conceives and starts
        moving, he forgets her, drops his urge to 0 and wanders. */
    method Couple(rng: Random.Rng)
      requires Valid() && closestFemale != null && closestFemale != this && rng.Valid()
      requires closestFemale.Valid()
      modifies this`state, this`closestFemale, closestFemale`state, rng
      ensures Valid() && rng.Valid() && rng.cursor == old(rng.cursor) + 2
      ensures old(closestFemale).Valid()
      ensures old(closestFemale).state
              == StartedMoving(old(closestFemale).glm, old(closestFemale.state).(pregnant := true, isMating := false),
                               rng.stream(old(rng.cursor)))
      ensures state == Wandered(glm, old(state).(stats := old(state).stats.(mate := 0.0)), rng.stream(old(rng.cursor) + 1))
      ensures closestFemale == null
    {
      var f := closestFemale;
      f.Conceive(rng);
      closestFemale := null;
      state := state.(stats := state.stats.(mate := 0.0));
      Wander(rng);
    }

    /** What the rabbit sees ahead: leaving the viewport, or water when it is
        not fetching water. */
    predicate Obstacle(s: State)
      requires environment.Valid()
      reads environment, environment.tiles
    {
      var ahead := Add(s.position, s.fieldOfView);
      || ahead.x < 0.0 || ahead.x > environment.width
      || ahead.y < 0.0 || ahead.y > environment.height
      || (environment.IsWater(ahead.x.Floor as real, ahead.y.Floor as real) && s.activity != Water)
    }

    /** `checkEnvironment()`: an obstacle ahead makes the rabbit wander. */
    method CheckEnvironment(rng: Random.Rng)
      requires Valid() && environment.Valid() && rng.Valid()
      modifies this`state, rng
      ensures Valid() && rng.Valid() && Kept(old(state), state)
      ensures Obstacle(old(state)) ==> state == Wandered(glm, old(state), rng.stream(old(rng.cursor)))
                                       && rng.cursor == old(rng.cursor) + 1
      ensures !Obstacle(old(state)) ==> state == old(state) && rng.cursor == old(rng.cursor)
    {
      if Obstacle(state) {
        Wander(rng);
      }
    }

    // -------------------------------------------------------------------
    // live()
    // -------------------------------------------------------------------

    /** The water search seen from the world: when it runs, it finds water
        exactly when a water tile lies in the window around the rabbit, and
        the target is a closest one. */
    ghost predicate WaterFound(s: State, ran: bool, found: bool, tile: Option<Vec>)
      requires environment.Valid()
      reads environment, environment.tiles
    {
      ran ==> && (found <==> !environment.NoWaterNear(s.position.x, s.position.y, WaterSearchRadius()))
              && (found ==> tile.Some? && environment.ClosestWaterAt(s.position.x, s.position.y, WaterSearchRadius(), tile.value))
    }

    /** What the searches of an idle rabbit in state `s` return, for the
        outcome `b` of `Sought`, with `st` the rabbits' states before them. */
    ghost predicate Found(s: State, b: Scene, fw: bool, ff: bool, fs: State, st: seq<State>)
      requires environment.Valid()
      reads environment, environment.tiles, population
    {
      && WaterFound(s, WantsWater(s), fw, b.water)
      && FoodFound(s.position, !fw && WantsFood(s), ff, b.food, b.foods)
      && |st| == |population.rabbits|
      && FemaleFound(s.position, !fw && !ff && WantsMate(s), b.female, fs, population.rabbits, st, this)
    }

    /** The decision part of `live()`, as `Decided`: an idle rabbit draws once
        and turns aside with chance 0.001; then water, food and mate are
        searched for, in that order, each only while nothing was found and
        its need has crossed its threshold; `Found` says what they return,
        over the snapshot `st` of the rabbits' states, which agrees with
        theirs except perhaps for this rabbit's. The ghost outputs are the
        searches run, whether each found a target, and the state of the
        female returned before she was courted. */
    method Decide(rng: Random.Rng, ghost st: seq<State>) returns (ghost searched: seq<Need>, ghost fw: bool, ghost ff: bool,
                                                                  ghost fm: bool, ghost fs: State)
      requires Valid() && environment.Valid() && foodSources.Valid() && rng.Valid()
      requires forall q :: q in population.rabbits ==> q.Valid()
      requires closestFemale != null ==> closestFemale.Valid()
      requires Spared(population.rabbits, States(population.rabbits), st, this, null)
      modifies this`state, this`closestWaterTile, this`closestFoodSource, this`closestFemale, population.rabbits`state, rng
      ensures Valid() && rng.Valid()
      ensures var s := old(state);
              searched == Searches(s.activity == NoNeed, WantsWater(s), WantsFood(s), WantsMate(s), fw, ff, fm).0
      ensures Decided(glm, rng.stream, old(View()), old(rng.cursor), View(), rng.cursor, fw, ff, fm, fs, ChasedState())
      ensures old(state).activity == NoNeed ==>
                Found(Turned(glm, rng.stream, old(state), old(rng.cursor)).0, View(), fw, ff, fs, st)
      ensures state.alive == old(state).alive && state.isMating == old(state).isMating
      ensures forall q :: q in population.rabbits ==> q.Valid()
      ensures closestFemale != null ==> closestFemale.Valid()
      ensures Spared(population.rabbits, States(population.rabbits), st, this, closestFemale)
      ensures var f := old(closestFemale);
              f != this && (f != null ==> f.Valid() && f.state.alive == old(f.state).alive && (f != closestFemale ==> f.state == old(f.state)))
      ensures closestFemale == null || closestFemale == old(closestFemale) || closestFemale in population.rabbits
    {
      searched, fw, ff, fm, fs := [], false, false, false, ChasedState();
      if state.activity != NoNeed {
        return;
      }
      ghost var st0 := States(population.rabbits);
      IdleTurn(rng);
      ghost var st1 := States(population.rabbits);
      searched, fw, ff, fm, fs := Seek();
      ghost var s := Turned(glm, rng.stream, old(state), old(rng.cursor)).0;
      FemaleFoundElsewhere(s.position, !fw && !ff && WantsMate(s), closestFemale, fs, population.rabbits, st1, st, this);
    }

    /** The searches of an idle rabbit, as `Sought`: water, food then mate,
        each while the rabbit is still idle and wants it. */
    method Seek() returns (ghost searched: seq<Need>, ghost fw: bool, ghost ff: bool, ghost fm: bool, ghost fs: State)
      requires Valid() && state.activity == NoNeed && environment.Valid() && foodSources.Valid()
      requires forall q :: q in population.rabbits ==> q.Valid()
      modifies this`state, this`closestWaterTile, this`closestFoodSource, this`closestFemale, population.rabbits`state
      ensures Valid()
      ensures var s := old(state);
              searched == Searches(true, WantsWater(s), WantsFood(s), WantsMate(s), fw, ff, fm).0
      ensures Sought(glm, old(state), old(View()), View(), fw, ff, fm, fs, ChasedState())
      ensures Found(old(state), View(), fw, ff, fs, old(States(population.rabbits)))
      ensures forall q :: q in population.rabbits ==> q.Valid()
      ensures forall q :: q in population.rabbits && q != this && q != closestFemale ==> q.state == old(q.state)
      ensures forall q :: q in population.rabbits && q != this ==> q.state.alive == old(q.state.alive)
      ensures closestFemale == old(closestFemale) || closestFemale == null || closestFemale in population.rabbits
    {
      ff, fm := false, false;
      var ran, found := SeekWater();
      fw, searched := found, if ran then [Water] else [];
      if found {
        fs := ChasedState();
        return;
      }
      ghost var more;
      more, ff, fm, fs := SeekRest();
      searched := searched + more;
    }

    /** The searches after a water search that found nothing or did not
        run: food then mate, as `Sought` with no water found. */
    method SeekRest() returns (ghost searched: seq<Need>, ghost ff: bool, ghost fm: bool, ghost fs: State)
      requires Valid() && state.activity == NoNeed && environment.Valid() && foodSources.Valid()
      requires forall q :: q in population.rabbits ==> q.Valid()
      requires WantsWater(state) ==> closestWaterTile.None?
      requires WaterFound(state, WantsWater(state), false, closestWaterTile)
      modifies this`state, this`closestFoodSource, this`closestFemale, population.rabbits`state
      ensures Valid()
      ensures var s := old(state);
              searched == Searches(true, false, WantsFood(s), WantsMate(s), false, ff, fm).0
      ensures Sought(glm, old(state), old(View()), View(), false, ff, fm, fs, ChasedState())
      ensures Found(old(state), View(), false, ff, fs, old(States(population.rabbits)))
      ensures forall q :: q in population.rabbits ==> q.Valid()
      ensures forall q :: q in population.rabbits && q != this && q != closestFemale ==> q.state == old(q.state)
      ensures forall q :: q in population.rabbits && q != this ==> q.state.alive == old(q.state.alive)
      ensures closestFemale == old(closestFemale) || closestFemale == null || closestFemale in population.rabbits
    {
      fm := false;
      var ran, found := SeekFood();
      ff, searched := found, if ran then [Food] else [];
      if found {
        fs := ChasedState();
        return;
      }
      ran, found, fs := SeekFemale();
      fm, searched := found, searched + if ran then [Mate] else [];
    }

    /** The idle turn of `live()`, as `Turned`: one draw, and a wander with chance 0.001. */
    method IdleTurn(rng: Random.Rng)
      requires Valid() && state.activity == NoNeed && rng.Valid()
      modifies this`state, rng
      ensures Valid() && rng.Valid() && Kept(old(state), state) && state.activity == NoNeed
      ensures (state, rng.cursor) == Turned(glm, rng.stream, old(state), old(rng.cursor))
    {
      var r := rng.Next();
      if r < IdleWanderChance {
        Wander(rng);
      }
    }

    /** The water step of `live()`: the search runs when water is below its
        threshold, and then overwrites the target. */
    method SeekWater() returns (ran: bool, found: bool)
      requires Valid() && state.activity == NoNeed && environment.Valid()
      modifies this`state, this`closestWaterTile
      ensures Valid()
      ensures ran == WantsWater(old(state)) && (found ==> ran)
      ensures ran ==> (found <==> closestWaterTile.Some?)
      ensures !ran ==> closestWaterTile == old(closestWaterTile)
      ensures WaterFound(old(state), ran, found, closestWaterTile)
      ensures state == if found then Aim(glm, old(state), closestWaterTile.value).(activity := Water) else old(state)
    {
      ran, found := false, false;
      if state.stats.water < state.waterSearchThreshold as real {
        ran := true;
        found := SearchForWater();
      }
    }

    /** The food step of `live()`: the search runs when food is below its
        threshold, and then overwrites the target. */
    method SeekFood() returns (ran: bool, found: bool)
      requires Valid() && state.activity == NoNeed && foodSources.Valid()
      modifies this`state, this`closestFoodSource
      ensures Valid()
      ensures ran == WantsFood(old(state)) && (found ==> ran)
      ensures ran ==> (found <==> closestFoodSource.Some?)
      ensures !ran ==> closestFoodSource == old(closestFoodSource)
      ensures found ==> closestFoodSource.value < foodSources.foodSources.Length
      ensures FoodFound(old(state).position, ran, found, closestFoodSource, foodSources.foodSources[..])
      ensures found ==> var f := foodSources.foodSources[closestFoodSource.value];
                        state == Aim(glm, old(state), Vec(f.x, f.y)).(activity := Food)
      ensures !found ==> state == old(state)
    {
      ran, found := false, false;
      if state.stats.food < state.foodSearchThreshold as real {
        ran := true;
        found := SearchForFood();
      }
    }

    /** The mate step of `live()`: the search runs when the urge passes its
        threshold, which only a male's can, and then overwrites the target.
        The ghost output is the state of the female returned before the
        search, or the chased state when none is courted. */
    method SeekFemale() returns (ran: bool, found: bool, ghost fs: State)
      requires Valid() && state.activity == NoNeed
      requires forall q :: q in population.rabbits ==> q.Valid()
      modifies this`state, this`closestFemale, population.rabbits`state
      ensures Valid() && forall q :: q in population.rabbits ==> q.Valid()
      ensures ran == WantsMate(old(state)) && (found ==> ran)
      ensures !ran ==> closestFemale == old(closestFemale)
      ensures closestFemale == old(closestFemale) || closestFemale == null || closestFemale in population.rabbits
      ensures FemaleFound(old(state).position, ran, closestFemale, fs, population.rabbits, old(States(population.rabbits)), this)
      ensures ran ==> (found <==> closestFemale != null && !fs.pregnant && fs.currentAge > CourtingAge)
      ensures state == if found then Aim(glm, old(state), fs.position).(activity := Mate) else old(state)
      ensures ChasedState() == if found then Stopped(fs).(isMating := true) else fs
      ensures forall q :: q in population.rabbits && q != this && (q != closestFemale || !found) ==> q.state == old(q.state)
      ensures forall q :: q in population.rabbits && q != this ==> q.state.alive == old(q.state.alive)
    {
      ran, found, fs := false, false, ChasedState();
      if state.stats.mate > state.matingThreshold {
        ran := true;
        found, fs := SearchForFemale();
      }
    }

    /** The pursuit part of `live()`, as `Pursued`: the handler of the current
        activity runs, and only that one, since each handler leaves the
        activity as it was or NONE. */
    method Pursue(rng: Random.Rng)
      requires Valid() && rng.Valid() && foodSources.Valid()
      requires closestFemale != null ==> closestFemale.Valid()
      modifies this`state, this`closestFoodSource, this`closestFemale, Courted()`state, foodSources.foodSources, rng
      ensures Valid() && rng.Valid() && foodSources.Valid()
      ensures old(closestFemale) != null ==> old(closestFemale).Valid()
      ensures old(closestFemale) != null && old(closestFemale) != this ==>
                old(closestFemale).state.alive == old(closestFemale.state.alive)
      ensures state.alive == old(state).alive && state.isMating == old(state).isMating
      ensures closestFemale == null || closestFemale == old(closestFemale)
      ensures state.activity == old(state).activity || state.activity == NoNeed
      ensures var f := old(closestFemale);
              Pursued(glm, rng.stream, old(View()), old(rng.cursor), old(ChasedState()), View(), rng.cursor,
                      if f == null then old(state) else f.state)
    {
      match state.activity
      case Water => MoveTowardsWater(rng);
      case Food => MoveTowardsFood(rng);
      case Mate => MoveTowardsFemale(rng);
      case NoNeed =>
    }

    /** The start of `live()`, as `Metabolised`: the hop along the velocity,
        then `updateStats()`, `checkAge(now)` and `checkStats()`. */
    method Metabolise(sin: real -> real, now: real, rng: Random.Rng)
      requires Valid() && rng.Valid()
      modifies this`state, rng
      ensures Valid() && rng.Valid()
      ensures state == Metabolised(glm, config, old(state), HopCoefficient(sin, config, old(state), now), now,
                                   rng.stream(old(rng.cursor)))
      ensures rng.cursor == old(rng.cursor) + MetabolismDraws(config, old(state))
    {
      Hop(sin, now);
      Tend(now, rng);
    }

    /** The hop at the start of `live()`. */
    method Hop(sin: real -> real, now: real)
      requires Valid()
      modifies this`state
      ensures Valid() && state == Hopped(old(state), HopCoefficient(sin, config, old(state), now))
    {
      var c := HopCoefficient(sin, config, state, now);
      state := Hopped(state, c);
    }

    /** `updateStats()`, `checkAge(now)` and `checkStats()`. */
    method Tend(now: real, rng: Random.Rng)
      requires Valid() && rng.Valid()
      modifies this`state, rng
      ensures Valid() && rng.Valid()
      ensures state == Tended(glm, config, old(state), now, rng.stream(old(rng.cursor)))
      ensures rng.cursor == old(rng.cursor) + MetabolismDraws(config, old(state))
    {
      UpdateStats(rng);
      CheckAge(now);
      CheckStats();
    }

    /** `live()` with `sin` for `Math.sin` and `now` for `Date.now()`: the hop,
        the needs, age and death checks (`Metabolised`); a rabbit waiting to
        mate does nothing more; any other decides, pursues and looks ahead
        (`Acted`), and `Found` says what its searches returned. Only the
        rabbit itself and the female it ends the decision with change
        (`Spared`), and only the rabbit's count of lives goes up. The ghost
        outputs are the searches run, in priority order, and the trace. */
    method Live(sin: real -> real, now: real, rng: Random.Rng) returns (ghost searched: seq<Need>, ghost t: Trace)
      requires Valid() && environment.Valid() && foodSources.Valid() && rng.Valid()
      requires forall q :: q in population.rabbits ==> q.Valid()
      requires closestFemale != null ==> closestFemale.Valid()
      modifies this, Courted()`state, population.rabbits`state, foodSources.foodSources, rng
      ensures Valid() && foodSources.Valid() && rng.Valid()
      ensures lives == old(lives) + 1
      ensures t.m == Metabolised(glm, config, old(state), HopCoefficient(sin, config, old(state), now), now,
                                 rng.stream(old(rng.cursor)))
      ensures t.cm == old(rng.cursor) + MetabolismDraws(config, old(state))
      ensures t.m.isMating ==> View() == old(View()).(state := t.m) && rng.cursor == t.cm && searched == []
      ensures !t.m.isMating ==> Acted(glm, rng.stream, old(View()).(state := t.m), t.cm, t, View(), rng.cursor)
      ensures !t.m.isMating ==> t.blocked == Obstacle(t.p.state)
      ensures !t.m.isMating && t.m.activity == NoNeed ==>
                Found(Turned(glm, rng.stream, t.m, t.cm).0, t.d, t.fw, t.ff, t.fs, old(States(population.rabbits)))
      ensures !t.m.isMating && t.d.female != null ==> t.d.female.state == t.fs2
      ensures !t.m.isMating ==>
                searched == Searches(t.m.activity == NoNeed, WantsWater(t.m), WantsFood(t.m), WantsMate(t.m), t.fw, t.ff, t.fm).0
      ensures |searched| <= 3 && forall k :: 0 <= k < |searched| - 1 ==> NeedCode(searched[k]) < NeedCode(searched[k + 1])
      ensures forall q :: q in population.rabbits ==> q.Valid()
      ensures Spared(population.rabbits, States(population.rabbits), old(States(population.rabbits)), this,
                     if t.m.isMating then null else t.d.female)
      ensures var f := old(closestFemale);
              f != null ==> && f.Valid() && f.state.alive == old(f.state).alive
                            && (t.m.isMating || f != t.d.female ==> f.state == old(f.state))
      ensures closestFemale == null || closestFemale == old(closestFemale) || closestFemale in population.rabbits
      ensures FoodSupply.Eaten(old(foodSources.foodSources[..]), foodSources.foodSources[..])
    {
      ghost var st := States(population.rabbits);
      Metabolise(sin, now, rng);
      lives := lives + 1;
      if state.isMating {
        searched := [];
        t := Trace(state, rng.cursor, View(), rng.cursor, false, false, false, ChasedState(), ChasedState(),
                   View(), rng.cursor, ChasedState(), false);
        return;
      }
      ghost var a, c := View(), rng.cursor;
      searched, t := Act(rng, st);
      ActedEats(glm, rng.stream, a, c, t, View(), rng.cursor);
    }

    /** `live()` as the population sees it: the rabbit lives once more, no
        other rabbit dies or comes back, every rabbit stays coherent, and the
        food sources are at most eaten. */
    method Step(sin: real -> real, now: real, rng: Random.Rng)
      requires Valid() && environment.Valid() && foodSources.Valid() && rng.Valid()
      requires forall q :: q in population.rabbits ==> q.Valid()
      requires closestFemale != null ==> closestFemale.Valid()
      modifies this, Courted()`state, population.rabbits`state, foodSources.foodSources, rng
      ensures Valid() && foodSources.Valid() && rng.Valid()
      ensures lives == old(lives) + 1
      ensures forall q :: q in population.rabbits ==> q.Valid()
      ensures var f := old(closestFemale); f != null ==> f.Valid()
      ensures closestFemale == null || closestFemale == old(closestFemale) || closestFemale in population.rabbits
      ensures forall k :: 0 <= k < |population.rabbits| && population.rabbits[k] != this ==>
                population.rabbits[k].state.alive == old(States(population.rabbits))[k].alive
      ensures FoodSupply.Eaten(old(foodSources.foodSources[..]), foodSources.foodSources[..])
    {
      ghost var searched, t := Live(sin, now, rng);
    }

    /** The rest of `live()` for a rabbit not waiting to mate, as `Acted`:
        decide, pursue, look ahead. The trace starts from the state as it is;
        `st` is a snapshot of the rabbits' states that agrees with theirs now
        except perhaps for this rabbit's, and `Found` is stated over it. */
    method Act(rng: Random.Rng, ghost st: seq<State>) returns (ghost searched: seq<Need>, ghost t: Trace)
      requires Valid() && environment.Valid() && foodSources.Valid() && rng.Valid()
      requires forall q :: q in population.rabbits ==> q.Valid()
      requires closestFemale != null ==> closestFemale.Valid()
      requires Spared(population.rabbits, States(population.rabbits), st, this, null)
      modifies this`state, this`closestWaterTile, this`closestFoodSource, this`closestFemale
      modifies Courted()`state, population.rabbits`state, foodSources.foodSources, rng
      ensures Valid() && foodSources.Valid() && rng.Valid()
      ensures state.alive == t.m.alive && state.isMating == t.m.isMating
      ensures t.m == old(state) && t.cm == old(rng.cursor)
      ensures Acted(glm, rng.stream, old(View()), old(rng.cursor), t, View(), rng.cursor)
      ensures t.blocked == Obstacle(t.p.state)
      ensures t.m.activity == NoNeed ==> Found(Turned(glm, rng.stream, t.m, t.cm).0, t.d, t.fw, t.ff, t.fs, st)
      ensures t.d.female != null ==> t.d.female.state == t.fs2
      ensures var s := old(state);
              searched == Searches(s.activity == NoNeed, WantsWater(s), WantsFood(s), WantsMate(s), t.fw, t.ff, t.fm).0
      ensures |searched| <= 3 && forall k :: 0 <= k < |searched| - 1 ==> NeedCode(searched[k]) < NeedCode(searched[k + 1])
      ensures forall q :: q in population.rabbits ==> q.Valid()
      ensures Spared(population.rabbits, States(population.rabbits), st, this, t.d.female)
      ensures var f := old(closestFemale);
              f != null ==> f.Valid() && f.state.alive == old(f.state).alive && (f != t.d.female ==> f.state == old(f.state))
      ensures closestFemale == null || closestFemale == old(closestFemale) || closestFemale in population.rabbits
    {
      ghost var a, c, cf := View(), rng.cursor, closestFemale;
      ghost var cfs := if cf == null then state else cf.state;
      ghost var fw, ff, fm, fs;
      searched, fw, ff, fm, fs := Decide(rng, st);
      SearchesPriority(a.state.activity == NoNeed, WantsWater(a.state), WantsFood(a.state), WantsMate(a.state), fw, ff, fm);
      t := Respond(rng, a, c, st, cf, cfs, fw, ff, fm, fs);
    }

    /** The end of `live()`, after the decision: pursue the target
        (`Pursued`), then look ahead (`LookedAhead`), completing the trace of
        `Act` from the scene `a` at cursor `c`, the snapshot `st`, the female
        `cf` chased then, in state `cfs`, and the decision's findings. */
    method Respond(rng: Random.Rng, ghost a: Scene, ghost c: nat, ghost st: seq<State>, ghost cf: Rabbit?, ghost cfs: State,
                   ghost fw: bool, ghost ff: bool, ghost fm: bool, ghost fs: State) returns (ghost t: Trace)
      requires Valid() && environment.Valid() && foodSources.Valid() && rng.Valid()
      requires forall q :: q in population.rabbits ==> q.Valid()
      requires closestFemale != null ==> closestFemale.Valid()
      requires state.alive == a.state.alive && state.isMating == a.state.isMating
      requires Decided(glm, rng.stream, a, c, View(), rng.cursor, fw, ff, fm, fs, ChasedState())
      requires a.state.activity == NoNeed ==> Found(Turned(glm, rng.stream, a.state, c).0, View(), fw, ff, fs, st)
      requires Spared(population.rabbits, States(population.rabbits), st, this, closestFemale)
      requires cf != this && (cf != null ==> cf.Valid() && cf.state.alive == cfs.alive && (cf != closestFemale ==> cf.state == cfs))
      requires closestFemale == null || closestFemale == cf || closestFemale in population.rabbits
      modifies this`state, this`closestFoodSource, this`closestFemale, Courted()`state, foodSources.foodSources, rng
      ensures Valid() && foodSources.Valid() && rng.Valid()
      ensures state.alive == t.m.alive && state.isMating == t.m.isMating
      ensures t.m == a.state && t.cm == c && t.fw == fw && t.ff == ff && t.fm == fm && t.fs == fs
      ensures Acted(glm, rng.stream, a, c, t, View(), rng.cursor)
      ensures t.blocked == Obstacle(t.p.state)
      ensures t.m.activity == NoNeed ==> Found(Turned(glm, rng.stream, t.m, t.cm).0, t.d, t.fw, t.ff, t.fs, st)
      ensures t.d.female != null ==> t.d.female.state == t.fs2
      ensures forall q :: q in population.rabbits ==> q.Valid()
      ensures Spared(population.rabbits, States(population.rabbits), st, this, t.d.female)
      ensures cf != null ==> cf.Valid() && cf.state.alive == cfs.alive && (cf != t.d.female ==> cf.state == cfs)
      ensures closestFemale == null || closestFemale == cf || closestFemale in population.rabbits
    {
      ghost var d, cd, fs1 := View(), rng.cursor, ChasedState();
      Pursue(rng);
      t := LookAround(rng, a, c, st, cf, cfs, fw, ff, fm, fs, d, cd, fs1);
    }

    /** The last step of `live()`, `checkEnvironment()` after the pursuit
        from the scene `d` at cursor `cd`, with the chased female in state
        `fs1`; completes the trace that `Respond` promises. */
    method LookAround(rng: Random.Rng, ghost a: Scene, ghost c: nat, ghost st: seq<State>, ghost cf: Rabbit?, ghost cfs: State,
                      ghost fw: bool, ghost ff: bool, ghost fm: bool, ghost fs: State,
                      ghost d: Scene, ghost cd: nat, ghost fs1: State) returns (ghost t: Trace)
      requires Valid() && environment.Valid() && foodSources.Valid() && rng.Valid()
      requires forall q :: q in population.rabbits ==> q.Valid()
      requires state.alive == a.state.alive && state.isMating == a.state.isMating
      requires Decided(glm, rng.stream, a, c, d, cd, fw, ff, fm, fs, fs1)
      requires Pursued(glm, rng.stream, d, cd, fs1, View(), rng.cursor, if d.female == null then d.state else d.female.state)
      requires closestFemale == null || closestFemale == d.female
      requires a.state.activity == NoNeed ==> Found(Turned(glm, rng.stream, a.state, c).0, d, fw, ff, fs, st)
      requires Spared(population.rabbits, States(population.rabbits), st, this, d.female)
      requires d.female != this && (d.female != null ==> d.female.Valid())
      requires cf != this && (cf != null ==> cf.Valid() && cf.state.alive == cfs.alive && (cf != d.female ==> cf.state == cfs))
      requires closestFemale == null || closestFemale == cf || closestFemale in population.rabbits
      modifies this`state, rng
      ensures Valid() && foodSources.Valid() && rng.Valid()
      ensures state.alive == t.m.alive && state.isMating == t.m.isMating
      ensures t.m == a.state && t.cm == c && t.fw == fw && t.ff == ff && t.fm == fm && t.fs == fs && t.d == d
      ensures Acted(glm, rng.stream, a, c, t, View(), rng.cursor)
      ensures t.blocked == Obstacle(t.p.state)
      ensures t.m.activity == NoNeed ==> Found(Turned(glm, rng.stream, t.m, t.cm).0, t.d, t.fw, t.ff, t.fs, st)
      ensures t.d.female != null ==> t.d.female.state == t.fs2
      ensures forall q :: q in population.rabbits ==> q.Valid()
      ensures Spared(population.rabbits, States(population.rabbits), st, this, t.d.female)
      ensures cf != null ==> cf.Valid() && cf.state.alive == cfs.alive && (cf != t.d.female ==> cf.state == cfs)
      ensures closestFemale == null || closestFemale == cf || closestFemale in population.rabbits
    {
      ghost var p, cp := View(), rng.cursor;
      ghost var fs2 := if d.female == null then d.state else d.female.state;
      ghost var blocked := Obstacle(state);
      CheckEnvironment(rng);
      t := Trace(a.state, c, d, cd, fw, ff, fm, fs, fs1, p, cp, fs2, blocked);
    }
  }

  // ---------------------------------------------------------------------
  // The population's bookkeeping, on snapshots of the rabbits' states
  // ---------------------------------------------------------------------

  /** The elements of `s` whose flag is set, in order. */
  function Filter<T>(s: seq<T>, keep: seq<bool>): (r: seq<T>)
    requires |keep| == |s|
    ensures |r| <= |s|
    decreases |s|
  {
    if s == [] then []
    else Filter(s[..|s| - 1], keep[..|s| - 1]) + (if keep[|s| - 1] then [s[|s| - 1]] else [])
  }

  /** Everything kept comes from `s`, and what was distinct stays distinct. */
  lemma FilterSubsequence<T>(s: seq<T>, keep: seq<bool>)
    requires |keep| == |s|
    ensures forall x :: x in Filter(s, keep) ==> x in s
    ensures Distinct(s) ==> Distinct(Filter(s, keep))
    ensures forall k :: 0 <= k < |s| && keep[k] ==> s[k] in Filter(s, keep)
    ensures forall k :: 0 <= k < |s| && !keep[k] && Distinct(s) ==> s[k] !in Filter(s, keep)
  {
    FilterKeeps(s, keep);
    if Distinct(s) {
      FilterDistinct(s, keep);
    }
  }

  /** What the filter keeps is exactly the flagged elements, as a membership fact. */
  lemma {:induction false} FilterKeeps<T>(s: seq<T>, keep: seq<bool>)
    requires |keep| == |s|
    ensures forall x :: x in Filter(s, keep) ==> x in s
    ensures forall k :: 0 <= k < |s| && keep[k] ==> s[k] in Filter(s, keep)
    decreases |s|
  {
    if s != [] {
      var n := |s| - 1;
      var p := Filter(s[..n], keep[..n]);
      FilterKeeps(s[..n], keep[..n]);
      assert Filter(s, keep) == p + (if keep[n] then [s[n]] else []);
      assert s == s[..n] + [s[n]];
      forall k | 0 <= k < |s| && keep[k]
        ensures s[k] in Filter(s, keep)
      {
        if k < n {
          assert s[..n][k] == s[k] && keep[..n][k] == keep[k];
          assert s[k] in p;
        }
      }
    }
  }

  /** Over distinct elements the filter stays distinct and drops every unflagged one. */
  lemma {:induction false} FilterDistinct<T>(s: seq<T>, keep: seq<bool>)
    requires |keep| == |s| && Distinct(s)
    ensures Distinct(Filter(s, keep))
    ensures forall k :: 0 <= k < |s| && !keep[k] ==> s[k] !in Filter(s, keep)
    decreases |s|
  {
    if s != [] {
      var n := |s| - 1;
      var p := Filter(s[..n], keep[..n]);
      assert Distinct(s[..n]);
      FilterDistinct(s[..n], keep[..n]);
      FilterKeeps(s[..n], keep[..n]);
      assert Filter(s, keep) == p + (if keep[n] then [s[n]] else []);
      assert s[n] !in s[..n];
      assert s[n] !in p;
      forall k | 0 <= k < |s| && !keep[k]
        ensures s[k] !in Filter(s, keep)
      {
        if k < n {
          assert s[..n][k] == s[k] && keep[..n][k] == keep[k];
          assert s[k] !in p;
          assert s[k] != s[n];
        }
      }
    }
  }

  lemma FilterSnoc<T>(s: seq<T>, keep: seq<bool>, x: T, b: bool)
    requires |keep| == |s|
    ensures Filter(s + [x], keep + [b]) == Filter(s, keep) + (if b then [x] else [])
  {
    assert (s + [x])[..|s|] == s;
    assert (keep + [b])[..|s|] == keep;
  }

  /** Filtering two lists of the same length by the same flags keeps as many. */
  lemma {:induction false} FilterLength<T, U>(s: seq<T>, t: seq<U>, keep: seq<bool>)
    requires |s| == |t| == |keep|
    ensures |Filter(s, keep)| == |Filter(t, keep)|
    decreases |s|
  {
    if s != [] {
      FilterLength(s[..|s| - 1], t[..|t| - 1], keep[..|s| - 1]);
    }
  }

  /** The states of the kept rabbits are the kept states. */
  lemma {:induction false} StatesOfFilter(s: seq<Rabbit>, keep: seq<bool>)
    requires |keep| == |s|
    ensures States(Filter(s, keep)) == Filter(States(s), keep)
    decreases |s|
  {
    if s != [] {
      var n := |s| - 1;
      StatesOfFilter(s[..n], keep[..n]);
      assert States(s)[..n] == States(s[..n]);
      var tail := if keep[n] then [s[n]] else [];
      assert States(Filter(s[..n], keep[..n]) + tail) == States(Filter(s[..n], keep[..n])) + States(tail);
    }
  }

  predicate Distinct<T(==)>(s: seq<T>) {
    forall i, j :: 0 <= i < j < |s| ==> s[i] != s[j]
  }

  function AliveFlags(t: seq<State>): (f: seq<bool>)
    ensures |f| == |t| && forall k :: 0 <= k < |t| ==> f[k] == t[k].alive
  {
    seq(|t|, k requires 0 <= k < |t| => t[k].alive)
  }

  /** The condition for giving birth: pregnant, with the pregnancy past 100. */
  predicate DueToGiveBirth(s: State) {
    s.pregnant && s.stats.pregnancy > 100.0
  }

  function DueFlags(t: seq<State>): (f: seq<bool>)
    ensures |f| == |t| && forall k :: 0 <= k < |t| ==> f[k] == DueToGiveBirth(t[k])
  {
    seq(|t|, k requires 0 <= k < |t| => DueToGiveBirth(t[k]))
  }

  /** The rabbits' states, in order. */
  function States(s: seq<Rabbit>): (t: seq<State>)
    reads s
    ensures |t| == |s| && forall k :: 0 <= k < |s| ==> t[k] == s[k].state
  {
    seq(|s|, k requires 0 <= k < |s| reads s => s[k].state)
  }

  /** The dead of a snapshot recorded under `d`. */
  function DeathsIn(t: seq<State>, d: DeathReason): nat
    decreases |t|
  {
    if t == [] then 0
    else DeathsIn(t[..|t| - 1], d) + (if !t[|t| - 1].alive && t[|t| - 1].deathReason == Some(d) then 1 else 0)
  }

  /** The dead of a snapshot that carry no reason. */
  function UnrecordedIn(t: seq<State>): nat
    decreases |t|
  {
    if t == [] then 0
    else UnrecordedIn(t[..|t| - 1]) + (if !t[|t| - 1].alive && t[|t| - 1].deathReason.None? then 1 else 0)
  }

  /** The deaths of a snapshot: those with no reason plus those under each reason. */
  function Tally(t: seq<State>): nat {
    UnrecordedIn(t) + DeathsIn(t, Drawn) + DeathsIn(t, Starvation) + DeathsIn(t, Thirst)
      + DeathsIn(t, Age) + DeathsIn(t, DeathReason.OutOfBounds) + DeathsIn(t, Illness)
  }

  /** The sweep conserves rabbits: those kept plus those counted, under a
      reason or under none, are all the rabbits. */
  lemma {:induction false} SweepConserves(t: seq<State>)
    ensures |Filter(t, AliveFlags(t))| + Tally(t) == |t|
    decreases |t|
  {
    if t != [] {
      var n := |t| - 1;
      SweepConserves(t[..n]);
      assert AliveFlags(t)[..n] == AliveFlags(t[..n]);
      assert Filter(t, AliveFlags(t)) == Filter(t[..n], AliveFlags(t[..n])) + (if t[n].alive then [t[n]] else []);
      var p := t[..n];
      assert UnrecordedIn(t) == UnrecordedIn(p) + (if !t[n].alive && t[n].deathReason.None? then 1 else 0);
      forall d: DeathReason
        ensures DeathsIn(t, d) == DeathsIn(p, d) + (if !t[n].alive && t[n].deathReason == Some(d) then 1 else 0)
      {
      }
      if !t[n].alive && t[n].deathReason.Some? {
        match t[n].deathReason.value
        case Drawn =>
        case Starvation =>
        case Thirst =>
        case Age =>
        case OutOfBounds =>
        case Illness =>
      }
    }
  }

  /** `o` is `o0` with the deaths of `t` added under each reason. */
  ghost predicate Tallied(o: map<DeathReason, nat>, o0: map<DeathReason, nat>, t: seq<State>) {
    forall d: DeathReason :: d in o && d in o0 && o[d] == o0[d] + DeathsIn(t, d)
  }

  /** `o` is `o0` with the death of `x` added under its reason, if it is dead. */
  ghost predicate Bumped(o: map<DeathReason, nat>, o0: map<DeathReason, nat>, x: State) {
    forall d: DeathReason :: d in o && d in o0 && o[d] == o0[d] + (if !x.alive && x.deathReason == Some(d) then 1 else 0)
  }

  lemma TalliedStep(o2: map<DeathReason, nat>, o1: map<DeathReason, nat>, o0: map<DeathReason, nat>, t: seq<State>, x: State)
    requires Tallied(o1, o0, t) && Bumped(o2, o1, x)
    ensures Tallied(o2, o0, t + [x])
  {
    CountsSnoc(t, x);
  }

  /** How the counts grow by one state. */
  lemma CountsSnoc(p: seq<State>, x: State)
    ensures UnrecordedIn(p + [x]) == UnrecordedIn(p) + (if !x.alive && x.deathReason.None? then 1 else 0)
    ensures forall d: DeathReason :: DeathsIn(p + [x], d) == DeathsIn(p, d) + (if !x.alive && x.deathReason == Some(d) then 1 else 0)
  {
    assert (p + [x])[..|p|] == p;
  }

  /** Every rabbit of the list is alive. */
  ghost predicate AllAlive(s: seq<Rabbit>)
    reads s
  {
    forall k :: 0 <= k < |s| ==> s[k].state.alive
  }

  lemma AliveSnoc(s: seq<Rabbit>, t: seq<Rabbit>, r: Rabbit)
    requires AllAlive(s) && r.state.alive && t == s + [r]
    ensures AllAlive(t)
  {
    forall k | 0 <= k < |t|
      ensures t[k].state.alive
    {
      if k < |s| {
        assert t[k] == s[k];
      }
    }
  }

  /** What the sweep keeps is alive. */
  lemma {:induction false} SurvivorsAlive(s: seq<Rabbit>)
    ensures AllAlive(Filter(s, AliveFlags(States(s))))
    decreases |s|
  {
    if s != [] {
      var n := |s| - 1;
      SurvivorsAlive(s[..n]);
      assert AliveFlags(States(s))[..n] == AliveFlags(States(s[..n]));
      var f := Filter(s[..n], AliveFlags(States(s[..n])));
      if s[n].state.alive {
        AliveSnoc(f, f + [s[n]], s[n]);
      }
    }
  }

  /** Newborn `j` of a litter lands at the mother's position moved by the
      jitters of draws `12 j` and `12 j + 1` after `c0`. */
  ghost predicate Litter(s: seq<Rabbit>, p: Vec, stream: nat -> real, c0: nat)
    reads s
  {
    forall j :: 0 <= j < |s| ==>
      s[j].state.position == Vec(p.x + Jitter(stream(c0 + 12 * j)) as real, p.y + Jitter(stream(c0 + 12 * j + 1)) as real)
  }

  lemma LitterSnoc(s: seq<Rabbit>, t: seq<Rabbit>, r: Rabbit, p: Vec, stream: nat -> real, c0: nat)
    requires Litter(s, p, stream, c0) && t == s + [r]
    requires r.state.position == Vec(p.x + Jitter(stream(c0 + 12 * |s|)) as real, p.y + Jitter(stream(c0 + 12 * |s| + 1)) as real)
    ensures Litter(t, p, stream, c0)
  {
    forall j | 0 <= j < |t|
      ensures t[j].state.position
              == Vec(p.x + Jitter(stream(c0 + 12 * j)) as real, p.y + Jitter(stream(c0 + 12 * j + 1)) as real)
    {
      if j < |s| {
        assert t[j] == s[j];
      }
    }
  }

  /** A rabbit's state after the births of `draw()`: a mother is delivered,
      everyone else is untouched. */
  function AfterBirths(s: State): (t: State)
    ensures DueToGiveBirth(s) ==> t == Delivered(s)
    ensures !DueToGiveBirth(s) ==> t == s
    ensures !DueToGiveBirth(t) && t.alive == s.alive
  {
    if DueToGiveBirth(s) then Delivered(s) else s
  }

  /** The snapshot `t` with the births applied to its first `i` states. */
  function BirthsUpTo(t: seq<State>, i: nat): (u: seq<State>)
    ensures |u| == |t|
    ensures forall k :: 0 <= k < |t| ==> u[k] == (if k < i then AfterBirths(t[k]) else t[k])
  {
    seq(|t|, k requires 0 <= k < |t| => if k < i then AfterBirths(t[k]) else t[k])
  }

  lemma BirthsUpToStep(t: seq<State>, i: nat)
    requires i < |t|
    ensures BirthsUpTo(t, i)[i := AfterBirths(t[i])] == BirthsUpTo(t, i + 1)
  {
  }

  lemma LittersSnoc(mothers: seq<Rabbit>, m: Rabbit)
    requires m.config.descendants >= 1
    ensures Litters(mothers + [m]) == Litters(mothers) + m.config.descendants
  {
    assert (mothers + [m])[..|mothers|] == mothers;
  }

  /** The litters a list of mothers will have. */
  function Litters(mothers: seq<Rabbit>): nat
    decreases |mothers|
  {
    if mothers == [] then 0
    else Litters(mothers[..|mothers| - 1]) + (if mothers[|mothers| - 1].config.descendants > 0 then mothers[|mothers| - 1].config.descendants else 0)
  }

  /** A mother after the birth: no longer pregnant, one more childbirth, the
      father's traits forgotten and the pregnancy reset. */
  function Delivered(s: State): (t: State)
    ensures !t.pregnant && t.stats.pregnancy == 0.0 && t.childbirths == s.childbirths + 1 && t.fatherProps.None?
    ensures !DueToGiveBirth(t)
    ensures t.alive == s.alive && t.activity == s.activity && t.stats.mate == s.stats.mate
  {
    s.(pregnant := false, childbirths := s.childbirths + 1, fatherProps := Option.None,
       stats := s.stats.(pregnancy := 0.0))
  }

  /** The number of rabbits `generateRabbits` creates. */
  const InitialPopulation: nat := 100

  /** The open box of half-width `projectedSize / 4` around a rabbit. */
  predicate Hit(s: State, x: real, y: real) {
    var h := s.projectedSize / 4.0;
    x > s.position.x - h && x < s.position.x + h && y > s.position.y - h && y < s.position.y + h
  }

  /** The index of the first rabbit hit at `(x, y)`, or `|s|`. */
  function FirstHit(s: seq<Rabbit>, x: real, y: real): (k: nat)
    reads s
    ensures k <= |s|
    ensures k < |s| ==> Hit(s[k].state, x, y)
    ensures forall i :: 0 <= i < k ==> !Hit(s[i].state, x, y)
    decreases |s|
  {
    if s == [] then 0
    else if Hit(s[0].state, x, y) then 0
    else 1 + FirstHit(s[1..], x, y)
  }

  class Population {
    const environment: Terrain.Environment
    const foodSources: FoodSupply.FoodSources
    const glm: Glm
    var rabbits: seq<Rabbit>
    /** The deaths counted under each reason. */
    var obituary: map<DeathReason, nat>
    /** The deaths that carry no reason. */
    var unrecordedDeaths: nat
    /** Every rabbit of this population, past or present. */
    ghost var everyone: set<Rabbit>

    ghost predicate Valid()
      reads this, everyone
    {
      && (forall i :: 0 <= i < |rabbits| ==> rabbits[i] in everyone)
      && Distinct(rabbits)
      && (forall d: DeathReason :: d in obituary)
      && (forall q :: q in everyone ==> Member(q) && (q.closestFemale == null || q.closestFemale in everyone))
    }

    /** A rabbit of this population: valid, and sharing its world. */
    ghost predicate Member(q: Rabbit)
      reads q
    {
      q.Valid() && q.population == this && q.environment == environment
      && q.foodSources == foodSources && q.glm == glm
    }

    /** The new population: an obituary of zeros for every reason, and
        `generateRabbits`. A ground tile must exist, since each rabbit is
        placed on one. */
    constructor (environment: Terrain.Environment, foodSources: FoodSupply.FoodSources, glm: Glm,
                 rng: Random.Rng, now: real)
      requires environment.Valid() && environment.HasGround() && rng.Valid()
      modifies rng
      ensures Valid() && rng.Valid()
      ensures forall d: DeathReason :: obituary[d] == 0
      ensures unrecordedDeaths == 0
      ensures |rabbits| == InitialPopulation
      ensures AllPlaced(rabbits, rng.stream, old(rng.cursor))
    {
      this.environment, this.foodSources, this.glm := environment, foodSources, glm;
      rabbits := [];
      obituary := map d: DeathReason | d in AllDeathReasons :: 0;
      unrecordedDeaths := 0;
      everyone := {};
      new;
      DeathCodesAreExactlyZeroToFive();
      GenerateRabbits(rng, now);
    }

    /** `generateRabbits()`: 100 rabbits, each born on a random ground tile. */
    method GenerateRabbits(rng: Random.Rng, now: real)
      requires environment.Valid() && environment.HasGround() && rng.Valid()
      requires Valid()
      modifies this`rabbits, this`everyone, rng
      ensures Valid() && rng.Valid() && rng.cursor == old(rng.cursor) + 11 * InitialPopulation
      ensures |rabbits| == InitialPopulation
      ensures AllPlaced(rabbits, rng.stream, old(rng.cursor))
    {
      ghost var c0 := rng.cursor;
      rabbits := [];
      var i := 0;
      while i < InitialPopulation
        invariant 0 <= i <= InitialPopulation && |rabbits| == i
        invariant rng.Valid() && rng.cursor == c0 + 11 * i
        invariant Valid() && environment.Valid() && environment.HasGround()
        invariant AllPlaced(rabbits, rng.stream, c0)
      {
        PlaceRabbit(rng, now, c0);
        i := i + 1;
      }
    }

    /** The rabbit stands on the ground tile `getRandomGroundTile` picks for the draw `r`. */
    ghost predicate PlacedBy(q: Rabbit, r: real)
      reads q, environment, environment.tiles
    {
      && 0.0 <= r < 1.0
      && var t := environment.RandomGroundTile(r);
         t.Some? && q.state.position == Tiles.ToVec(t.value)
    }

    /** Rabbit `k` of `s` stands where the draw `11 k` after `c0` puts it. */
    ghost predicate AllPlaced(s: seq<Rabbit>, stream: nat -> real, c0: nat)
      reads s, environment, environment.tiles
    {
      forall k :: 0 <= k < |s| ==> PlacedBy(s[k], stream(c0 + 11 * k))
    }

    lemma PlacedSnoc(s: seq<Rabbit>, t: seq<Rabbit>, stream: nat -> real, c0: nat)
      requires |t| == |s| + 1 && t[..|s|] == s
      requires AllPlaced(s, stream, c0) && PlacedBy(t[|s|], stream(c0 + 11 * |s|))
      ensures AllPlaced(t, stream, c0)
    {
      forall k | 0 <= k < |s|
        ensures t[k] == s[k]
      {
        assert t[..|s|][k] == t[k];
      }
    }

    /** One step of `generateRabbits()`: a newborn on a random ground tile. */
    method PlaceRabbit(rng: Random.Rng, now: real, ghost c0: nat)
      requires Valid() && environment.Valid() && environment.HasGround() && rng.Valid()
      requires AllPlaced(rabbits, rng.stream, c0) && rng.cursor == c0 + 11 * |rabbits|
      modifies this`rabbits, this`everyone, rng
      ensures Valid() && rng.Valid() && rng.cursor == old(rng.cursor) + 11
      ensures |rabbits| == |old(rabbits)| + 1 && rabbits[..|old(rabbits)|] == old(rabbits)
      ensures AllPlaced(rabbits, rng.stream, c0)
    {
      ghost var before := rabbits;
      var t := environment.GetRandomGroundTile(rng);
      var r := Bear(t.value.x, t.value.y, rng, now);
      PlacedSnoc(before, rabbits, rng.stream, c0);
    }

    /** `this.rabbits.push(new Rabbit(x, y, ...))`: a newborn joins the end of
        the list. */
    method Bear(x: real, y: real, rng: Random.Rng, now: real) returns (r: Rabbit)
      requires Valid() && rng.Valid()
      modifies this`rabbits, this`everyone, rng
      ensures Valid() && rng.Valid() && rng.cursor == old(rng.cursor) + 10
      ensures fresh(r) && rabbits == old(rabbits) + [r] && everyone == old(everyone) + {r}
      ensures r.state.position == Vec(x, y) && r.state.alive && !DueToGiveBirth(r.state)
    {
      r := new Rabbit(x, y, environment, foodSources, this, glm, rng, now);
      rabbits := rabbits + [r];
      everyone := everyone + {r};
    }

    /** A living female strictly within `distance` and closer than 1000. */
    predicate FemaleCandidate(q: Rabbit, p: Vec, distance: real)
      reads q
    {
      FemaleAt(q, q.state, p, distance)
    }

    /** `getClosestFemale(x, y, distance)`: the nearest candidate, the first
        one on ties, or null. The ghost output is its index. */
    method GetClosestFemale(x: real, y: real, distance: real) returns (f: Rabbit?, ghost idx: int)
      ensures f != null ==> 0 <= idx < |rabbits| && rabbits[idx] == f && FemaleCandidate(f, Vec(x, y), distance)
      ensures f != null ==> forall k :: 0 <= k < |rabbits| && FemaleCandidate(rabbits[k], Vec(x, y), distance) ==>
                DistSq(Vec(x, y), f.state.position) <= DistSq(Vec(x, y), rabbits[k].state.position)
      ensures f != null ==> forall k :: 0 <= k < idx && FemaleCandidate(rabbits[k], Vec(x, y), distance) ==>
                DistSq(Vec(x, y), f.state.position) < DistSq(Vec(x, y), rabbits[k].state.position)
      ensures f == null <==> forall k :: 0 <= k < |rabbits| ==> !FemaleCandidate(rabbits[k], Vec(x, y), distance)
    {
      var p := Vec(x, y);
      var minDistSq := FemaleSearchCapSq;
      f, idx := null, -1;
      var i := 0;
      while i < |rabbits|
        invariant 0 <= i <= |rabbits|
        invariant f == null ==> minDistSq == FemaleSearchCapSq
        invariant f == null ==> forall k :: 0 <= k < i ==> !FemaleCandidate(rabbits[k], p, distance)
        invariant f != null ==> 0 <= idx < i && rabbits[idx] == f && FemaleCandidate(f, p, distance)
                                && minDistSq == DistSq(p, f.state.position)
        invariant f != null ==> forall k :: 0 <= k < i && FemaleCandidate(rabbits[k], p, distance) ==>
                                  minDistSq <= DistSq(p, rabbits[k].state.position)
        invariant f != null ==> forall k :: 0 <= k < idx && FemaleCandidate(rabbits[k], p, distance) ==>
                                  minDistSq < DistSq(p, rabbits[k].state.position)
      {
        var q := rabbits[i];
        if q.state.alive && q.config.sex == Female {
          var d := DistSq(p, q.state.position);
          if Within(p, q.state.position, distance) && d < minDistSq {
            f, idx := q, i;
            minDistSq := d;
          }
        }
        i := i + 1;
      }
    }

    /** `getRabbitAt(x, y)`: the first rabbit whose box contains the point, or null. */
    function GetRabbitAt(x: real, y: real): (r: Rabbit?)
      reads this, rabbits
      ensures r != null <==> exists k :: 0 <= k < |rabbits| && Hit(rabbits[k].state, x, y)
      ensures r != null ==> r in rabbits && Hit(r.state, x, y)
      ensures r != null ==> r == rabbits[FirstHit(rabbits, x, y)]
    {
      var k := FirstHit(rabbits, x, y);
      if k < |rabbits| then rabbits[k] else null
    }

    /** The sweep of `draw()`: the dead leave the list, which keeps the living
        in order, and each is counted under its reason. `t` is the snapshot of
        the rabbits' states. */
    method Sweep(ghost t: seq<State>)
      requires t == States(rabbits) && forall d: DeathReason :: d in obituary
      modifies this`rabbits, this`obituary, this`unrecordedDeaths
      ensures rabbits == Filter(old(rabbits), AliveFlags(t))
      ensures Tallied(obituary, old(obituary), t)
      ensures unrecordedDeaths == old(unrecordedDeaths) + UnrecordedIn(t)
    {
      var s0 := rabbits;
      ghost var o0 := obituary;
      ghost var flags := AliveFlags(t);
      var kept: seq<Rabbit> := [];
      var i := 0;
      while i < |s0|
        invariant 0 <= i <= |s0|
        invariant kept == Filter(s0[..i], flags[..i])
        invariant Tallied(obituary, o0, t[..i])
        invariant unrecordedDeaths == old(unrecordedDeaths) + UnrecordedIn(t[..i])
      {
        var q := s0[i];
        assert q.state == t[i];
        ghost var o1 := obituary;
        kept := Sift(q, kept);
        SweepStep(s0, t, i, o0, o1, obituary);
        i := i + 1;
      }
      assert s0[..|s0|] == s0 && t[..|s0|] == t && flags[..|s0|] == flags;
      rabbits := kept;
    }

    /** One rabbit of the sweep: a living one is kept, a dead one recorded. */
    method Sift(q: Rabbit, kept: seq<Rabbit>) returns (kept': seq<Rabbit>)
      requires forall d: DeathReason :: d in obituary
      modifies this`obituary, this`unrecordedDeaths
      ensures kept' == kept + (if q.state.alive then [q] else [])
      ensures Bumped(obituary, old(obituary), q.state)
      ensures unrecordedDeaths == old(unrecordedDeaths) + (if !q.state.alive && q.state.deathReason.None? then 1 else 0)
    {
      if q.state.alive {
        kept' := kept + [q];
      } else {
        kept' := kept;
        Record(q.state);
      }
    }

    /** `this.obituary[rabbit.state.deathReason] += 1` for one dead rabbit;
        a death without a reason is counted apart. */
    method Record(s: State)
      requires !s.alive && forall d: DeathReason :: d in obituary
      modifies this`obituary, this`unrecordedDeaths
      ensures Bumped(obituary, old(obituary), s)
      ensures unrecordedDeaths == old(unrecordedDeaths) + (if s.deathReason.None? then 1 else 0)
    {
      if s.deathReason.Some? {
        var d := s.deathReason.value;
        obituary := obituary[d := obituary[d] + 1];
      } else {
        unrecordedDeaths := unrecordedDeaths + 1;
      }
    }

    /** What one more rabbit adds to the sweep's list and counts. */
    static lemma SweepStep(s0: seq<Rabbit>, t: seq<State>, i: nat,
                           o0: map<DeathReason, nat>, o1: map<DeathReason, nat>, o2: map<DeathReason, nat>)
      requires |t| == |s0| && i < |s0|
      requires Tallied(o1, o0, t[..i]) && Bumped(o2, o1, t[i])
      ensures Filter(s0[..i + 1], AliveFlags(t)[..i + 1])
              == Filter(s0[..i], AliveFlags(t)[..i]) + (if t[i].alive then [s0[i]] else [])
      ensures UnrecordedIn(t[..i + 1]) == UnrecordedIn(t[..i]) + (if !t[i].alive && t[i].deathReason.None? then 1 else 0)
      ensures Tallied(o2, o0, t[..i + 1])
    {
      assert s0[..i + 1] == s0[..i] + [s0[i]];
      assert AliveFlags(t)[..i + 1] == AliveFlags(t)[..i] + [t[i].alive];
      FilterSnoc(s0[..i], AliveFlags(t)[..i], s0[i], t[i].alive);
      assert t[..i + 1] == t[..i] + [t[i]];
      CountsSnoc(t[..i], t[i]);
      TalliedStep(o2, o1, o0, t[..i], t[i]);
    }

    /** The births of `draw()` for one mother: `descendants` newborns, each
        on the mother's position jittered by two draws, then the mother is
        delivered. */
    method GiveBirth(m: Rabbit, rng: Random.Rng, now: real)
      requires Valid() && rng.Valid() && m in everyone && AllAlive(rabbits)
      modifies this`rabbits, this`everyone, rng, m`state
      ensures Valid() && rng.Valid() && AllAlive(rabbits)
      ensures rng.cursor == old(rng.cursor) + 12 * m.config.descendants
      ensures |rabbits| == |old(rabbits)| + m.config.descendants && rabbits[..|old(rabbits)|] == old(rabbits)
      ensures Litter(rabbits[|old(rabbits)|..], old(m.state.position), rng.stream, old(rng.cursor))
      ensures m.state == Delivered(old(m.state))
    {
      var p := m.state.position;
      ghost var n0 := |rabbits|;
      ghost var c0 := rng.cursor;
      var i := 0;
      while i < m.config.descendants
        invariant 0 <= i <= m.config.descendants
        invariant Valid() && rng.Valid() && AllAlive(rabbits)
        invariant rng.cursor == c0 + 12 * i
        invariant |rabbits| == n0 + i && rabbits[..n0] == old(rabbits)
        invariant Litter(rabbits[n0..], p, rng.stream, c0)
        invariant m.state == old(m.state) && m in everyone
      {
        ghost var before := rabbits;
        BearJittered(p, rng, now, n0, c0);
        assert rabbits[..n0] == before[..|before|][..n0];
        i := i + 1;
      }
      Deliver(m);
    }

    /** One newborn of a litter around `p`: two jitter draws, then the birth. */
    method BearJittered(p: Vec, rng: Random.Rng, now: real, ghost n0: nat, ghost c0: nat)
      requires Valid() && rng.Valid() && AllAlive(rabbits)
      requires n0 <= |rabbits| && Litter(rabbits[n0..], p, rng.stream, c0)
      requires rng.cursor == c0 + 12 * (|rabbits| - n0)
      modifies this`rabbits, this`everyone, rng
      ensures Valid() && rng.Valid() && AllAlive(rabbits) && old(everyone) <= everyone
      ensures |rabbits| == |old(rabbits)| + 1 && rabbits[..|old(rabbits)|] == old(rabbits)
      ensures Litter(rabbits[n0..], p, rng.stream, c0)
      ensures rng.cursor == old(rng.cursor) + 12
    {
      ghost var before := rabbits;
      ghost var litter := rabbits[n0..];
      ghost var j := |litter|;
      var dx, dy := DrawOffsets(rng);
      assert dx == Jitter(rng.stream(c0 + 12 * j)) && dy == Jitter(rng.stream(c0 + 12 * j + 1));
      var r := Bear(p.x + dx as real, p.y + dy as real, rng, now);
      assert rabbits[n0..] == litter + [r];
      AliveSnoc(before, rabbits, r);
      LitterSnoc(litter, rabbits[n0..], r, p, rng.stream, c0);
    }

    /** The two offsets `floor((2 * random() - 1) * 5)` of a newborn, x first. */
    static method DrawOffsets(rng: Random.Rng) returns (dx: int, dy: int)
      requires rng.Valid()
      modifies rng
      ensures rng.Valid() && rng.cursor == old(rng.cursor) + 2
      ensures dx == Jitter(rng.stream(old(rng.cursor))) && dy == Jitter(rng.stream(old(rng.cursor) + 1))
      ensures -5 <= dx <= 4 && -5 <= dy <= 4
    {
      var rx := rng.Next();
      var ry := rng.Next();
      dx, dy := Jitter(rx), Jitter(ry);
    }

    /** The mother after the litter: not pregnant, one more childbirth. */
    method Deliver(m: Rabbit)
      requires Valid() && m in everyone && AllAlive(rabbits)
      modifies m`state
      ensures Valid() && AllAlive(rabbits)
      ensures m.state == Delivered(old(m.state))
    {
      m.state := Delivered(m.state);
      forall k | 0 <= k < |rabbits|
        ensures rabbits[k].state.alive
      {
      }
    }

    /** The mothers among the first `i + 1` rabbits, and their litters. */
    static lemma MothersStep(s0: seq<Rabbit>, t: seq<State>, i: nat, mothers: seq<Rabbit>) returns (next: seq<Rabbit>)
      requires |t| == |s0| && i < |s0| && s0[i].config.descendants >= 1
      requires mothers == Filter(s0[..i], DueFlags(t)[..i])
      ensures next == Filter(s0[..i + 1], DueFlags(t)[..i + 1])
      ensures Litters(next) == Litters(mothers) + (if DueToGiveBirth(t[i]) then s0[i].config.descendants else 0)
    {
      assert s0[..i + 1] == s0[..i] + [s0[i]];
      assert DueFlags(t)[..i + 1] == DueFlags(t)[..i] + [DueToGiveBirth(t[i])];
      FilterSnoc(s0[..i], DueFlags(t)[..i], s0[i], DueToGiveBirth(t[i]));
      next := mothers + (if DueToGiveBirth(t[i]) then [s0[i]] else []);
      if DueToGiveBirth(t[i]) {
        LittersSnoc(mothers, s0[i]);
      } else {
        assert next == mothers;
      }
    }

    /** How far the births have got: the first `i` rabbits of the snapshot
        `s0` (with states `t`) are attended to, `mothers` are the ones among
        them that were due, and their litters follow `s0` in the list. */
    ghost predicate BirthsSoFar(s0: seq<Rabbit>, t: seq<State>, i: nat, mothers: seq<Rabbit>, rng: Random.Rng, c0: nat)
      reads this, s0, rng
    {
      && i <= |s0| && |t| == |s0|
      && mothers == Filter(s0[..i], DueFlags(t)[..i])
      && |rabbits| == |s0| + Litters(mothers) && rabbits[..|s0|] == s0
      && rng.cursor == c0 + 12 * Litters(mothers)
      && States(s0) == BirthsUpTo(t, i)
    }

    /** One mother of `pregnantRabbits.forEach`: a rabbit due to give birth
        has her litter, any other is left alone. */
    method Attend(rng: Random.Rng, now: real, s0: seq<Rabbit>, ghost t: seq<State>, i: nat,
                  ghost mothers: seq<Rabbit>, ghost c0: nat) returns (ghost next: seq<Rabbit>)
      requires Valid() && rng.Valid() && AllAlive(rabbits)
      requires BirthsSoFar(s0, t, i, mothers, rng, c0) && i < |s0| && Distinct(s0)
      modifies this`rabbits, this`everyone, rng, s0`state
      ensures Valid() && rng.Valid() && AllAlive(rabbits)
      ensures BirthsSoFar(s0, t, i + 1, next, rng, c0)
    {
      var m := s0[i];
      ghost var pre := States(s0);
      ghost var before := rabbits;
      assert m == rabbits[i] && m.state == t[i] by {
        assert rabbits[..|s0|][i] == rabbits[i];
      }
      next := MothersStep(s0, t, i, mothers);
      if m.state.pregnant && m.state.stats.pregnancy > 100.0 {
        GiveBirth(m, rng, now);
      }
      assert m.state == AfterBirths(t[i]);
      assert States(s0) == BirthsUpTo(t, i + 1) by {
        forall k | 0 <= k < |s0| && k != i
          ensures s0[k].state == pre[k]
        {
          assert s0[k] != m;
        }
        assert States(s0) == pre[i := m.state];
        BirthsUpToStep(t, i);
      }
      assert |rabbits| == |s0| + Litters(next) && rng.cursor == c0 + 12 * Litters(next);
      assert rabbits[..|s0|] == s0 by {
        assert rabbits[..|s0|] == before[..|before|][..|s0|];
      }
    }

    /** The births of `draw()`: every rabbit due to give birth, in list order,
        has its litter appended to the list and is then delivered. The ghost
        output is the list of those mothers. */
    method Births(rng: Random.Rng, now: real) returns (ghost mothers: seq<Rabbit>)
      requires Valid() && rng.Valid() && AllAlive(rabbits)
      modifies this`rabbits, this`everyone, rng, rabbits`state
      ensures Valid() && rng.Valid() && AllAlive(rabbits)
      ensures mothers == Filter(old(rabbits), DueFlags(old(States(rabbits))))
      ensures |rabbits| == |old(rabbits)| + Litters(mothers) && rabbits[..|old(rabbits)|] == old(rabbits)
      ensures rng.cursor == old(rng.cursor) + 12 * Litters(mothers)
      ensures States(old(rabbits)) == BirthsUpTo(old(States(rabbits)), |old(rabbits)|)
    {
      var s0 := rabbits;
      ghost var t := States(rabbits);
      ghost var c0 := rng.cursor;
      mothers := [];
      var i := 0;
      while i < |s0|
        invariant Valid() && rng.Valid() && AllAlive(rabbits)
        invariant BirthsSoFar(s0, t, i, mothers, rng, c0)
      {
        mothers := Attend(rng, now, s0, t, i, mothers, c0);
        i := i + 1;
      }
      assert s0[..|s0|] == s0 && DueFlags(t)[..|s0|] == DueFlags(t);
    }

    /** `aliveRabbits[i].live()` for one rabbit of the list: it lives once
        more, no other rabbit's count changes, no other rabbit of the list
        dies or comes back, and the food sources are at most eaten. */
    method LiveOne(q: Rabbit, sin: real -> real, now: real, rng: Random.Rng)
      requires Valid() && environment.Valid() && foodSources.Valid() && rng.Valid() && q in rabbits
      modifies everyone, foodSources.foodSources, rng
      ensures Valid() && foodSources.Valid() && rng.Valid()
      ensures everyone == old(everyone)
      ensures q.lives == old(q.lives) + 1
      ensures forall r :: r in everyone && r != q ==> r.lives == old(r.lives)
      ensures forall r :: r in rabbits && r != q ==> r.state.alive == old(r.state.alive)
      ensures FoodSupply.Eaten(old(foodSources.foodSources[..]), foodSources.foodSources[..])
    {
      ghost var cf := q.closestFemale;
      ghost var s := rabbits;
      ghost var st := States(rabbits);
      q.Step(sin, now, rng);
      forall r | r in everyone
        ensures r.Valid() && (r.closestFemale == null || r.closestFemale in everyone)
      {
        if r in s || r == q || r == cf {
        } else {
          assert r.closestFemale == old(r.closestFemale);
        }
      }
      forall r | r in rabbits && r != q
        ensures r.state.alive == old(r.state.alive)
      {
        var k :| 0 <= k < |rabbits| && rabbits[k] == r;
        assert st[k] == old(r.state);
      }
    }

    /** The living pass of `draw()`: the rabbits alive when it starts live
        once each, in list order, and exactly they; who was dead stays dead,
        and the food sources are at most eaten. */
    method LiveAll(sin: real -> real, now: real, rng: Random.Rng)
      requires Valid() && environment.Valid() && foodSources.Valid() && rng.Valid()
      modifies everyone, foodSources.foodSources, rng
      ensures Valid() && foodSources.Valid() && rng.Valid()
      ensures everyone == old(everyone)
      ensures forall q :: q in everyone ==>
                q.lives == old(q.lives) + (if q in Filter(old(rabbits), AliveFlags(old(States(rabbits)))) then 1 else 0)
      ensures forall k :: 0 <= k < |rabbits| && !old(rabbits[k].state.alive) ==> !rabbits[k].state.alive
      ensures FoodSupply.Eaten(old(foodSources.foodSources[..]), foodSources.foodSources[..])
    {
      var living := Filter(rabbits, AliveFlags(States(rabbits)));
      ghost var s0, t0 := rabbits, States(rabbits);
      FilterSubsequence(rabbits, AliveFlags(States(rabbits)));
      var i := 0;
      while i < |living|
        invariant 0 <= i <= |living|
        invariant Valid() && foodSources.Valid() && rng.Valid() && everyone == old(everyone)
        invariant forall q :: q in living ==> q in rabbits
        invariant forall q :: q in everyone ==> q.lives == old(q.lives) + (if q in living[..i] then 1 else 0)
        invariant forall q :: q in rabbits && q !in living[..i] ==> q.state.alive == old(q.state.alive)
        invariant FoodSupply.Eaten(old(foodSources.foodSources[..]), foodSources.foodSources[..])
      {
        ghost var fs := foodSources.foodSources[..];
        assert living[i] !in living[..i] by {
          forall k | 0 <= k < i ensures living[k] != living[i] { }
        }
        LiveOne(living[i], sin, now, rng);
        FoodSupply.EatenTrans(old(foodSources.foodSources[..]), fs, foodSources.foodSources[..]);
        assert living[..i + 1] == living[..i] + [living[i]];
        i := i + 1;
      }
      assert living[..|living|] == living;
      forall k | 0 <= k < |rabbits| && !old(rabbits[k].state.alive)
        ensures !rabbits[k].state.alive
      {
        assert !AliveFlags(t0)[k];
      }
    }

    /** The bookkeeping of `draw()` after the lives, from the list `s0`
        whose states were `t`, the obituary `o0` and the count `u0`: the list
        is the survivors, in order, followed by the litters of the `mothers`,
        the survivors that were due; the mothers are delivered; each death
        is counted under its reason, or as unrecorded. */
    ghost predicate Settled(s0: seq<Rabbit>, o0: map<DeathReason, nat>, u0: nat, t: seq<State>, mothers: seq<Rabbit>)
      reads this, rabbits, s0
    {
      && |t| == |s0|
      && (var survivors := Filter(s0, AliveFlags(t));
          && |rabbits| == |survivors| + Litters(mothers) && rabbits[..|survivors|] == survivors
          && |Filter(t, AliveFlags(t))| == |survivors|
          && mothers == Filter(survivors, DueFlags(Filter(t, AliveFlags(t))))
          && States(survivors) == BirthsUpTo(Filter(t, AliveFlags(t)), |survivors|))
      && (forall d: DeathReason :: d in obituary && d in o0 && obituary[d] == o0[d] + DeathsIn(t, d))
      && unrecordedDeaths == u0 + UnrecordedIn(t)
    }

    /** `draw()` without the drawing: every rabbit alive at its start lives
        one tick, in list order, and no other; the dead are then swept into
        the obituary, and the mothers due give birth (`Settled`). The ghost
        outputs are the states after the lives, which the sweep saw, and the
        mothers. */
    method Draw(sin: real -> real, now: real, rng: Random.Rng) returns (ghost t: seq<State>, ghost mothers: seq<Rabbit>)
      requires Valid() && environment.Valid() && foodSources.Valid() && rng.Valid()
      modifies this`rabbits, this`obituary, this`unrecordedDeaths, this`everyone, everyone, foodSources.foodSources, rng
      ensures Valid() && foodSources.Valid() && rng.Valid() && AllAlive(rabbits)
      ensures forall q :: q in old(everyone) ==>
                q.lives == old(q.lives) + (if q in Filter(old(rabbits), AliveFlags(old(States(rabbits)))) then 1 else 0)
      ensures |t| == |old(rabbits)| && forall k :: 0 <= k < |t| && !old(rabbits[k].state.alive) ==> !t[k].alive
      ensures FoodSupply.Eaten(old(foodSources.foodSources[..]), foodSources.foodSources[..])
      ensures Settled(old(rabbits), old(obituary), old(unrecordedDeaths), t, mothers)
    {
      LiveAll(sin, now, rng);
      t, mothers := Settle(rng, now);
    }

    /** The part of `draw()` after the lives: the sweep, which keeps the
        living in order, then the births of the mothers due among them. */
    method Settle(rng: Random.Rng, now: real) returns (ghost t: seq<State>, ghost mothers: seq<Rabbit>)
      requires Valid() && rng.Valid()
      modifies this`rabbits, this`obituary, this`unrecordedDeaths, this`everyone, everyone`state, rng
      ensures Valid() && rng.Valid() && AllAlive(rabbits)
      ensures t == old(States(rabbits)) && rng.cursor == old(rng.cursor) + 12 * Litters(mothers)
      ensures Settled(old(rabbits), old(obituary), old(unrecordedDeaths), t, mothers)
    {
      t := Cull();
      StatesOfFilter(old(rabbits), AliveFlags(t));
      mothers := Births(rng, now);
    }

    /** The sweep of `draw()` from outside: it keeps the population valid,
        leaves exactly the living, in order, and returns the states it saw. */
    method Cull() returns (ghost t: seq<State>)
      requires Valid()
      modifies this`rabbits, this`obituary, this`unrecordedDeaths
      ensures Valid() && AllAlive(rabbits)
      ensures t == old(States(rabbits)) && rabbits == Filter(old(rabbits), AliveFlags(t))
      ensures forall d: DeathReason :: d in obituary && obituary[d] == old(obituary[d]) + DeathsIn(t, d)
      ensures unrecordedDeaths == old(unrecordedDeaths) + UnrecordedIn(t)
    {
      var s0 := rabbits;
      t := States(rabbits);
      Sweep(t);
      assert States(s0) == t;
      SurvivorsAlive(s0);
      FilterSubsequence(s0, AliveFlags(t));
      forall i | 0 <= i < |rabbits|
        ensures rabbits[i] in everyone
      {
        assert rabbits[i] in s0;
      }
    }
  }
}
