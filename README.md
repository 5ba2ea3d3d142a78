# Rabbit ecosystem simulation, modelled in Dafny

The program is a simulation that runs in a browser. A terrain of square tiles covers the viewport:
- the tiles are dirt, dark grass, grass, sand and water, banded from a simplex-noise field;
- 250 food sources sit on grass tiles;
- 100 rabbits are born on random ground tiles.

Every animation frame, gated to 144 frames per second, does the following:
- The clock advances.
- Every living rabbit lives one tick:
  - it hops along its velocity;
  - its needs change: it gets thirsty and hungry, and a male grows eager to mate;
  - it ages, and dies of old age or of a depleted need;
  - while idle it looks for water, then food, then a female, and heads for what it found;
  - on arrival it drinks, eats the food source, or makes the female pregnant. When the target is too far away or gone, it gives up.
- The dead are removed and counted in an obituary by reason.
- Every mother past her term gives birth to a litter around her.
- The food sources are packed for drawing, and each eaten source may regrow on a random grass tile.

A separate movable agent follows a precomputed path node by node. It wanders when its hop stalls, and bounces off hazards with a deferred rotate. It dies when it leaves the viewport or stands on water.

The model is in these modules:
- `Constants`: the enumerations.
- `Vectors`: two-dimensional vectors. Distances are compared squared, so no square root is needed.
- `Random`: `Math.random` as a stream of draws in [0, 1) with a cursor. It records how many draws each operation takes, in order.
- `Helpers`: colour parsing, smoothstep and the canvas resize.
- `Tiles` and `Terrain`: the tile record and the terrain grid.
- `Foods` and `FoodSupply`: the food record and the food sources.
- `Genetics`: trait inheritance.
- `Movement`: the movable agent.
- `RabbitRules`: the arithmetic of one rabbit.
- `Rabbits`: the rabbit and the population.
- `Driver`: the game loop.

Objects the program updates in place are classes:
- `Environment`, `FoodSources`, `Movable`, `Rabbit`, `Population` and `Game`;
- the canvas;
- the random generator.

Each class has `modifies` frames and a `Valid()` invariant. Pure logic is functions, with lemmas about it. The loops of the program are methods with loop invariants. Each states its result or new state through a specification function or predicate:
- the tile generation, through the banded noise of each slot (`Environment.GenerateTiles`);
- the nearest-water, nearest-food and nearest-female scans, through "nearest candidate, first on ties" predicates;
- the food packing and regrowth pass, through `Full` and `Regenerate`;
- the path-consumption loop, through what is left of the path;
- the sweep and the births, through `Filter`, `BirthsUpTo` and `Litters`.

The pass in which every living rabbit lives, `Population.LiveAll`, is stated by weaker facts: who lives how often, that nobody revives, and that food sources are only eaten. One tick of one rabbit, `Rabbit.Live`, is stated in full through `Metabolised` and `Acted`.

The following are parameters rather than computations:
- trigonometry and `sqrt` of the vector library: `Glm.normalize`, `Glm.rotate` and `Glm.random`;
- `Math.sin` of the hop coefficient;
- the simplex and Perlin noise;
- `Date.now()` and the animation-frame timestamp;
- the `scaleByDeltaTime` scaling.

## Model

| member | source | states |
|---|---|---|
| Constants.ActivityCode | src/rabbits-population/constants.js:1-7 | There are five activity codes below 5, and NONE is exactly the one coded 0. |
| Constants.ActivityCodesDistinct | src/rabbits-population/constants.js:1-7 | The activity codes are pairwise distinct. |
| Constants.IdleMeansNone | src/rabbits-population/movable.js:63 | The falsy test `!state.activity` holds exactly for NONE. |
| Constants.DeathCode | src/rabbits-population/constants.js:9-16 | Every death reason has a code in 0..5. |
| Constants.DeathReasonOf | src/rabbits-population/constants.js:9-16 | Every code 0..5 names the reason that carries it. |
| Constants.DeathCodesAreExactlyZeroToFive | src/rabbits-population/index.js:19-22 | The six reasons, in code order, are exactly the codes 0..5 and contain every reason: the obituary's keys. |
| Constants.DeathCodesDistinct | src/rabbits-population/constants.js:9-16 | The death codes are pairwise distinct. |
| Constants.SexCode | src/rabbits-population/constants.js:18-21 | MALE is 0 and FEMALE is 1. |
| Constants.NeedCode | src/rabbits-population/rabbit.js:3-8 | rabbit.js has four needs codes below 4, and NONE is the one coded 0. |
| Constants.NeedCodesDistinct | src/rabbits-population/rabbit.js:3-8 | The needs codes are pairwise distinct. |
| Constants.NeedsAreNotActivities | src/rabbits-population/constants.js:1-7 | Code 2 means FOOD among the needs but DRINKING among the activities, and code 3 means MATE but FETCHING_FOOD. |
| Vectors.WithinNotBeyond | src/rabbits-population/rabbit.js:281-287 | No distance is both below and above the same bound, so the arrival and give-up branches exclude each other. |
| Random.Rng.Next | src/rabbits-population/rabbit.js:18-49 | One call of `Math.random()` yields the next draw of the stream, which lies in [0, 1), and advances the cursor by one. |
| Helpers.ParseDigits | src/helpers.js:56-62 | Six characters parse exactly when all six are hex digits. |
| Helpers.HexToRgb | src/helpers.js:55-64 | A colour is returned exactly when the string is an optional '#' followed by six hex digits, and each channel lies in [0, 1]. Otherwise the result is null. |
| Helpers.HexToRgbRoundTrip | src/helpers.js:59-62 | An encoded colour decodes to its bytes divided by 255, in r, g, b order, for either case and with or without '#'. |
| Helpers.HexPrefixOptional | src/helpers.js:56 | The '#'-prefixed and unprefixed forms give the same result. |
| Helpers.HexCaseInsensitive | src/helpers.js:56 | Upper- and lower-case spellings give the same result. |
| Helpers.ParseDigitsLower | src/helpers.js:56 | Lower-casing six digits changes neither whether they parse nor their value. |
| Helpers.Clamp01 | src/helpers.js:67 | The clamp lies in [0, 1] and is the identity there. |
| Helpers.Ease | src/helpers.js:69 | The polynomial `x*x*(3-2x)` maps [0, 1] into [0, 1]. |
| Helpers.Smoothstep | src/helpers.js:66-70 | The result lies in [0, 1]. For min < max it is 0 at or below min and 1 at or above max. It is NaN exactly when min, max and value coincide. |
| Helpers.ToInt32 | src/helpers.js:45-46 | `v \| 0` lies in the signed 32-bit range and is the truncation of v whenever that fits. |
| Helpers.EffectiveMultiplier | src/helpers.js:44 | An absent or zero multiplier means 1. Any other multiplier is kept. |
| Helpers.DisplaySize | src/helpers.js:45-46 | The wanted size is a signed 32-bit integer, equal to the truncated client size when there is no multiplier. |
| Helpers.ResizeCanvasToDisplaySize | src/helpers.js:43-53 | Afterwards the canvas has exactly the wanted dimensions. The result is true exactly when either dimension changed. |
| Tiles.NewTile | src/environment/tile.js:4-13 | The constructor stores id, x, y and type unchanged, and walkable defaults to true. The colour string is the given one when it is truthy, otherwise the palette's entry for the type. The colour is that string parsed. |
| Tiles.ToArray | src/environment/tile.js:15-17 | The packing is exactly `[x, y, r, g, b]` when the colour parsed. |
| Tiles.ToVec | src/environment/tile.js:19-21 | The result is `[x, y]`. |
| Tiles.ToArrayInUnit | src/environment/tile.js:10-11 | A tile with a well-formed hex colour packs five values, and its three channels lie in [0, 1]. |
| Foods.NewFood | src/food-sources/food.js:2-6 | A new source stores x and y unchanged and starts full. |
| Foods.ToArrayRoundTrip | src/food-sources/food.js:8-10 | Element 0 of the packing is x and element 1 is y. A full source can be rebuilt from them, so the packing loses nothing. |
| Terrain.BiomeOf | src/environment/index.js:89-101 | The banding is total, and each tile type holds exactly on its noise interval: below -0.8 dirt, below -0.5 dark grass, below 0.2 grass, below 0.4 sand, otherwise water. |
| Terrain.BandingMonotone | src/environment/index.js:89-101 | A higher noise value never gives a lower band. |
| Terrain.GeometryOf | src/environment/index.js:13-17 | The side is positive and the rows fill the height exactly. The columns fit in the width, and one more would not. Both offsets are non-negative; the row offset is 0. |
| Terrain.CentreFloor | src/environment/index.js:104-105 | `floor((side/2 + k*side) / side) = k`. |
| Terrain.CentreMaps | src/environment/index.js:131-132 | A tile centre maps back to that tile's column or row. |
| Terrain.SelectSound | src/environment/index.js:117 | Every tile the filter keeps satisfies the predicate and is in the array. |
| Terrain.SelectComplete | src/environment/index.js:123-125 | Every tile of the array that satisfies the predicate is kept. |
| Terrain.Pick | src/environment/index.js:119 | `array[floor(r * length)]` exists exactly when the array is non-empty, and it is an element of it. |
| Terrain.PickFromSelection | src/environment/index.js:116-128 | A draw finds a matching tile of the array exactly when one exists. |
| Terrain.Environment.Slot | src/environment/index.js:103 | Slot `i*columnsNumber + j` lies inside the array for every in-grid row and column. |
| Terrain.Environment.IsWater | src/environment/index.js:130-137 | A point is water exactly when slot `columnsNumber*floor((y-rowOffset)/side) + floor((x-columnOffset)/side)` lies inside the array, holds a tile, and that tile is water. The column is not bounds-checked. |
| Terrain.Environment.constructor | src/environment/index.js:10-21 | The geometry is that of the viewport. Every slot is filled by `generateTiles`, which takes one draw. |
| Terrain.Environment.GenerateTiles | src/environment/index.js:83-109 | Every slot `i*columnsNumber + j` holds the tile of the banded noise at `(j, i)`, centred at `(side/2 + j*side + columnOffset, side/2 + i*side + rowOffset)`. The noise is seeded with one draw. |
| Terrain.Environment.IsWaterAtCentre | src/environment/index.js:130-136 | `isWater` at a tile's centre looks up that very tile. |
| Terrain.Environment.IsWaterWrapsToNextRow | src/environment/index.js:131-134 | The column is not bounds-checked, so one column past the right edge reads the first tile of the next row. |
| Terrain.Environment.IsWaterOutsideArray | src/environment/index.js:136 | A slot outside the array is never water. |
| Terrain.Environment.RandomGroundTile | src/environment/index.js:116-120 | The tile picked is a non-water tile of the array, and one is picked exactly when one exists. |
| Terrain.Environment.RandomGrassTile | src/environment/index.js:122-128 | The tile picked is a grass or dark-grass tile of the array, and one is picked exactly when one exists. |
| Terrain.Environment.GetRandomGroundTile | src/environment/index.js:116-120 | The method takes one draw and returns the ground tile for it. |
| Terrain.Environment.GetRandomGrassTile | src/environment/index.js:122-128 | The method takes one draw and returns the grass tile for it. |
| Terrain.Environment.Window | src/environment/index.js:145-154 | The search window is clamped to rows `[0, rows-1]` and columns `[0, cols-1]`. |
| Terrain.Environment.GetClosestWater | src/environment/index.js:139-172 | The result is the centre of a water tile of the window below the 1000 cap, with no strictly closer water tile in the window. Ties go to the first in row-major order. The result is undefined exactly when no water tile of the window lies below the cap. |
| FoodSupply.Full | src/food-sources/index.js:141 | The filter keeps only full sources, and no more than there are. |
| FoodSupply.FullAppend | src/food-sources/index.js:141 | The filter of a longer array is the filter of its prefix followed by the last source when that one is full. |
| FoodSupply.FullExactly | src/food-sources/index.js:141 | A source is kept exactly when it is in the array and full. |
| FoodSupply.EatenFewerFull | src/rabbits-population/rabbit.js:305 | Marking sources empty never makes more sources full. |
| FoodSupply.GrassFood | src/food-sources/index.js:117-118 | The source placed by a grass draw is full and stands on a grass or dark-grass tile. |
| FoodSupply.Regenerate | src/food-sources/index.js:147-155 | The regrowth pass keeps the length of the array and never moves the cursor back. |
| FoodSupply.RegenerateTouchesOnlyEaten | src/food-sources/index.js:147-155 | Full sources are unchanged. A source that changes becomes full on a grass tile, and a source still eaten is the one that was there. |
| FoodSupply.RegenerateDraws | src/food-sources/index.js:148-150 | The pass takes one draw per eaten source, plus one for each that regrows. |
| FoodSupply.RegenerateAllFull | src/food-sources/index.js:147-149 | With no eaten source, the pass changes nothing and draws nothing. |
| FoodSupply.RegrowKeepsGrass | src/food-sources/index.js:150-153 | Every source stays on grass through the pass. |
| FoodSupply.FoodSources.constructor | src/food-sources/index.js:9-10 | The array has 250 sources: source k is the grass food of draw k, and the packing buffer is zeroed. |
| FoodSupply.FoodSources.GenerateFood | src/food-sources/index.js:115-122 | Every slot gets a full source on the grass tile of its draw, one draw per slot in order. The buffer is allocated with `2 * amount` zeros. |
| FoodSupply.FoodSources.GetClosestFoodSource | src/food-sources/index.js:124-138 | The result is a full source strictly within `distance` and below the 1000 cap. No candidate is closer, and ties go to the first in array order. The result is undefined exactly when there is no candidate. |
| FoodSupply.FoodSources.Draw | src/food-sources/index.js:140-163 | The count is the number of full sources before regrowth, and the first 2k buffer slots are their coordinates in array order. The rest of the buffer is untouched. The array and cursor afterwards are exactly the regrowth pass. |
| FoodSupply.FoodSources.PackFull | src/food-sources/index.js:141-145 | Slots `2i`, `2i+1` hold the coordinates of the i-th full source. The count is the number of full sources, and later slots are untouched. |
| FoodSupply.FoodSources.Regrow | src/food-sources/index.js:147-155 | The array and cursor after the loop are those of the regrowth pass, in array order. |
| FoodSupply.FoodSources.RegrowSource | src/food-sources/index.js:148-154 | For one source, the array changes at that index only, as one step of the pass says. |
| FoodSupply.FoodSources.MarkEmpty | src/rabbits-population/rabbit.js:305 | Eating marks exactly that source empty and leaves the rest of the array alone. |
| Genetics.Lookup | src/rabbits-population/helpers.js:4-12 | Reading a trait throws exactly when the table is absent. It yields the value when the trait is present, and `undefined` otherwise. |
| Genetics.GetInheritableProp | src/rabbits-population/helpers.js:1-16 | An unknown strategy throws "unknown type", and only an unknown strategy does. 'mother' and 'father' read that parent's table. 'average' throws exactly when a table is absent. It is a number exactly when both tables hold the trait, and that number is the mean. It is never `undefined`. |
| Genetics.UnknownStrategyThrows | src/rabbits-population/helpers.js:13-14 | The 'unknown type' error is thrown exactly for a strategy other than 'average', 'mother' and 'father'. |
| Genetics.AverageBetweenParents | src/rabbits-population/helpers.js:3-8 | 'average' is the mean of the two parents' values and lies between them. |
| Genetics.ParentsAgree | src/rabbits-population/helpers.js:3-12 | When the parents agree on a trait, every strategy passes that value on. |
| Genetics.SingleParentStrategies | src/rabbits-population/helpers.js:9-12 | 'mother' and 'father' read exactly that parent's table. Without the father's table, 'average' and 'father' throw. |
| Genetics.AverageOfMissingIsNaN | src/rabbits-population/helpers.js:3-8 | A trait missing from either table makes the average NaN, not an error. |
| Genetics.Mutate | src/rabbits-population/helpers.js:18-20 | `mutate` is the identity. |
| Movement.Coefficient | src/rabbits-population/movable.js:36-47 | `max(0, 2 sin(...))` is non-negative, and zero exactly when the sine is not positive. |
| Movement.ConsumeOnlyPops | src/rabbits-population/movable.js:15-22 | The loop only pops from the end: what is left is a prefix of the path. A pending node left behind is out of reach. |
| Movement.ConsumeStopsOutOfReach | src/rabbits-population/movable.js:15-19 | A pending node out of reach, or none, stops the loop at once. |
| Movement.WanderTrigger | src/rabbits-population/movable.js:61-72 | `move` wanders exactly when the coefficient is zero, the agent is idle and the flag is clear. A positive coefficient clears the flag, and the trigger sets it. |
| Movement.AtMostOneWanderPerStill | src/rabbits-population/movable.js:58-72 | A stretch of zero coefficients triggers at most one wander, and none when the flag was already set. |
| Movement.PositiveCoefficientRearms | src/rabbits-population/movable.js:70-72 | After a positive coefficient, the next zero wanders again. |
| Movement.Movable.constructor | src/rabbits-population/movable.js:4 | The agent starts with no path, no timers, no deaths and valid timer bookkeeping. |
| Movement.Movable.AtMostOnePendingOfEachKind | src/rabbits-population/movable.js:148-180 | At most one rotate-and-move timer and at most one restart timer are pending. |
| Movement.Movable.Wandered | src/rabbits-population/movable.js:95-130 | A zero velocity makes `wander` a no-op. Otherwise the speed is the base speed and the activity NONE, and the position, flags and previous velocity are kept. |
| Movement.Movable.FirstWanderTurnsByZero | src/rabbits-population/movable.js:111-120 | With no previous angle, the first wander rotates by zero. |
| Movement.Movable.Wander | src/rabbits-population/movable.js:95-130 | The new state is the wander of the old one, and nothing else changes. |
| Movement.Movable.StartWandering | src/rabbits-population/movable.js:90-93 | The activity is set to NONE, then the agent wanders. |
| Movement.Movable.StartMoving | src/rabbits-population/movable.js:78-88 | The method takes two draws for a fresh normalised direction at the base speed, then wanders. |
| Movement.Movable.SetDirection | src/rabbits-population/movable.js:132-140 | The velocity heads along `(x, y)` at 0.1 times the speed, and nothing else changes. |
| Movement.Movable.Stop | src/rabbits-population/movable.js:142-146 | The velocity is saved as the previous velocity, the speed is set to 0.7 and the velocity is zeroed. |
| Movement.Movable.StoppedDoesNotWander | src/rabbits-population/movable.js:96-98 | A stopped agent's wander changes nothing. |
| Movement.Movable.UpdateVelocityBasedOnPath | src/rabbits-population/movable.js:5-33 | With no path nothing changes. Otherwise the path is consumed from the end and only shrinks. The agent steers to the current node when it differs from the previous one, wanders when no node is left, and otherwise keeps its state. |
| Movement.Movable.Move | src/rabbits-population/movable.js:58-76 | The position moves by the velocity scaled by the coefficient computed before any wander. The flag and the wander follow the trigger, and the drawn size swells with the coefficient. |
| Movement.Movable.ScheduleRotateVelocityAndMove | src/rabbits-population/movable.js:148-169 | The pending rotate timer, if any, is cancelled, and one new timer is set under a fresh handle with the draw's delay. The restart timer and the state are untouched. |
| Movement.Movable.ScheduleStartMovingWithRandomVelocity | src/rabbits-population/movable.js:171-180 | The same single-pending rule, for the restart timer. |
| Movement.Movable.Fire | src/rabbits-population/movable.js:153-179 | The firing timer is removed and its handle cleared; the other handle is kept. Rotate: the agent heads along the saved velocity turned by pi and wanders. Restart: two draws give a fresh normalised direction at the base speed, then a wander. The path, the deaths and the handle counter are unchanged. |
| Movement.Movable.DeathAt | src/rabbits-population/movable.js:210-233 | Out of bounds takes precedence; otherwise a position on water means drowning, and any other position means no death. |
| Movement.Movable.CheckEnvironment | src/rabbits-population/movable.js:182-234 | With no hazard ahead nothing changes. A hazard while fetching water stops the agent and starts drinking. Any other hazard stops the agent, cancels a pending rotate, and schedules a new one under a fresh handle with the old velocity and the draw's delay. `die` is then called exactly when the current position is out of bounds or on water, out of bounds first. The path and the restart timer are unchanged. |
| RabbitRules.Descendants | src/rabbits-population/rabbit.js:22 | The litter size is `1 + floor(7r)`. |
| RabbitRules.DescendantsRange | src/rabbits-population/rabbit.js:22 | For a draw in [0, 1), the litter size is between 1 and 7. |
| RabbitRules.DescendantsAtEnds | src/rabbits-population/__tests__/rabbit.spec.js:33-48 | The draws 0 and 1 give 1 and 8 descendants. |
| RabbitRules.SexOf | src/rabbits-population/rabbit.js:26 | The rabbit is male exactly when the draw is at most 0.5. |
| RabbitRules.MaxAgeMs | src/rabbits-population/rabbit.js:27 | The lifespan lies in [300000, 360000) ms for a draw in [0, 1). |
| RabbitRules.MaxAgeAtEnds | src/rabbits-population/__tests__/rabbit.spec.js:33-48 | The draws 0 and 1 give 300000 and 360000 ms. |
| RabbitRules.Spread | src/rabbits-population/rabbit.js:33-49 | `offset + floor(width*r)` lies in `[offset, offset+width-1]`. |
| RabbitRules.InitialWater | src/rabbits-population/rabbit.js:33 | The starting water is in [60, 89]. |
| RabbitRules.InitialFood | src/rabbits-population/rabbit.js:34 | The starting food is in [40, 69]. |
| RabbitRules.SearchThreshold | src/rabbits-population/rabbit.js:46-49 | Each search threshold is in `[base, base+19]`. |
| RabbitRules.StartingNeedsAtEnds | src/rabbits-population/__tests__/rabbit.spec.js:50-87 | The draws 0 and 1 give the starting needs and thresholds the tests pin. |
| RabbitRules.TickStats | src/rabbits-population/rabbit.js:186-199 | Food drops by 0.005. The urge rises by 0.01 for males only, and pregnancy by 0.01 only while pregnant. Water drops by 0.01 unless the rabbit is drinking, when it rises by 0.1. |
| RabbitRules.TicksKeepFemaleUrge | src/rabbits-population/rabbit.js:188-194 | Over any number of ticks, a female's urge and a non-pregnant rabbit's pregnancy do not change. |
| RabbitRules.TicksLowerWater | src/rabbits-population/rabbit.js:186-199 | Without drinking, n ticks lower water and food by exactly n decays. |
| RabbitRules.AliveAfterChecks | src/rabbits-population/rabbit.js:209-213 | The checks only ever clear the flag. The rabbit stays alive exactly when it was alive, is not too old and has no need depleted. |
| RabbitRules.CurrentAge | src/rabbits-population/rabbit.js:362-365 | Within the lifespan, `floor(maxAge * elapsed / maxAgeMs)` lies in [0, 80]. |
| RabbitRules.CurrentAgeMonotone | src/rabbits-population/rabbit.js:362-365 | A later time never gives a smaller age. |
| RabbitRules.Size | src/rabbits-population/rabbit.js:367-369 | An age in [0, 80] gives a size in [40, 60]. |
| Rabbits.WaterSearchRadius | src/rabbits-population/rabbit.js:219 | `floor(rowsNumber / 15)` is 26. |
| Rabbits.Newborn | src/rabbits-population/rabbit.js:29-52 | A newborn is idle, alive and not pregnant, with urge and pregnancy 0. Its water is in [60, 89] and its food in [40, 69]. It is born now at `(x, y)`. |
| Rabbits.FieldOfView | src/rabbits-population/rabbit.js:170-174 | The field of view is parallel to the normalised velocity and points the same way. Its squared length is 30 squared times that of the normalised velocity. |
| Rabbits.StartedMoving | src/rabbits-population/rabbit.js:123-130 | The speed becomes 1 and the activity NONE, whatever it was. The heading is random at 0.1, and the needs and life are kept. |
| Rabbits.TurnAngle | src/rabbits-population/rabbit.js:139 | The turn lies in `[pi/6, pi/6 + pi/2)`. |
| Rabbits.Wandered | src/rabbits-population/rabbit.js:132-151 | The speed becomes 1 and the heading is turned by the turn angle at 0.1. The field of view follows and the activity becomes NONE; nothing else changes. |
| Rabbits.Directed | src/rabbits-population/rabbit.js:153-163 | The heading is along `(x, y)` at 0.1 times the speed. The field of view follows, and nothing else changes. |
| Rabbits.Stopped | src/rabbits-population/rabbit.js:165-168 | The speed becomes 1 and the velocity zero. The field of view and everything else are kept. |
| Rabbits.Hopped | src/rabbits-population/rabbit.js:62-73 | The position moves by the velocity times the coefficient, and the drawn size is not smaller than the size. |
| Rabbits.Ticked | src/rabbits-population/rabbit.js:186-199 | Only the needs change, by one tick. |
| Rabbits.AgeChecked | src/rabbits-population/rabbit.js:361-373 | The age is the current age, and within the lifespan age and size are in range. The rabbit dies exactly when it is too old. |
| Rabbits.StatsChecked | src/rabbits-population/rabbit.js:209-213 | A depleted need kills, and nothing revives. |
| Rabbits.SearchesPriority | src/rabbits-population/rabbit.js:87-106 | Busy rabbits search nothing. The searches run in the order water, food, mate, each exactly when the rabbit is still idle and wants it. The activity taken is the last search run, when it found something. |
| Rabbits.EarlierSearchesFailed | src/rabbits-population/rabbit.js:87-106 | Every search before the last one failed, so at most one search per tick changes the activity. |
| Rabbits.Jitter | src/rabbits-population/index.js:301-302 | The newborn offset `floor((2r-1)*5)` lies in [-5, 4]. |
| Rabbits.DrawBirth | src/rabbits-population/rabbit.js:16-59 | The constructor takes ten draws in a fixed order: the configuration, the starting needs and thresholds, then `startMoving`. The litter size is 1..7 and the lifespan positive. |
| Rabbits.Rabbit.constructor | src/rabbits-population/rabbit.js:16-59 | Configuration and state are those of the ten draws, with no targets, and the rabbit is coherent. |
| Rabbits.Rabbit.StartMoving | src/rabbits-population/rabbit.js:123-130 | The method takes one draw, and the state becomes `StartedMoving`. |
| Rabbits.Rabbit.Wander | src/rabbits-population/rabbit.js:132-151 | The method takes one draw, and the state becomes `Wandered`. |
| Rabbits.Rabbit.SetDirection | src/rabbits-population/rabbit.js:153-163 | The state becomes `Directed`. |
| Rabbits.Rabbit.Stop | src/rabbits-population/rabbit.js:165-168 | The state becomes `Stopped`. |
| Rabbits.Rabbit.UpdateStats | src/rabbits-population/rabbit.js:186-207 | The needs change by one tick. When drinking takes water above 100, drinking stops and the rabbit starts moving, idle, with one draw; otherwise no draw is taken. |
| Rabbits.Rabbit.CheckStats | src/rabbits-population/rabbit.js:209-213 | The state becomes `StatsChecked`. |
| Rabbits.Rabbit.CheckAge | src/rabbits-population/rabbit.js:361-373 | The state becomes `AgeChecked` for the given clock. |
| Rabbits.Rabbit.SearchForWater | src/rabbits-population/rabbit.js:215-231 | A target is found exactly when a water tile lies within the 26-tile window. The rabbit then heads there at speed 2 and its activity is WATER; otherwise nothing changes. |
| Rabbits.Rabbit.HeadForWater | src/rabbits-population/rabbit.js:222-230 | The state becomes `Aim` for the water, with activity WATER. |
| Rabbits.Rabbit.SearchForFood | src/rabbits-population/rabbit.js:233-249 | A target is found exactly when a full source lies within 60. The target is the closest query's candidate, the rabbit heads there at speed 2 and its activity is FOOD; otherwise nothing changes. |
| Rabbits.Rabbit.HeadForFood | src/rabbits-population/rabbit.js:240-248 | The state becomes `Aim` for the source, with activity FOOD. |
| Rabbits.Rabbit.SearchForFemale | src/rabbits-population/rabbit.js:251-274 | The target is a living female of the population within 100, or null exactly when there is none. The male commits exactly when she is not pregnant and older than 10: he heads for her at speed 2, she stops and waits, and no one else changes. |
| Rabbits.Rabbit.Court | src/rabbits-population/rabbit.js:263-272 | He heads for her at speed 2 with activity MATE. She is stopped with `isMating` set. |
| Rabbits.Rabbit.MoveTowardsWater | src/rabbits-population/rabbit.js:276-288 | Within 20 the rabbit stops and drinks. Beyond 100 it becomes idle and wanders. Otherwise nothing changes. |
| Rabbits.Rabbit.MoveTowardsFood | src/rabbits-population/rabbit.js:290-313 | An eaten target is abandoned with a wander. Within 20 the source, and only that one, is marked empty, food goes to 100 and the target is dropped. Beyond 100 the target is abandoned. Otherwise nothing changes. |
| Rabbits.Rabbit.Conceive | src/rabbits-population/rabbit.js:330-332 | She becomes pregnant, stops waiting and starts moving. |
| Rabbits.Rabbit.MoveTowardsFemale | src/rabbits-population/rabbit.js:315-340 | A female already pregnant is abandoned. Within 20 she becomes pregnant, stops waiting and starts moving, his urge goes to 0 and he wanders. Beyond 200 she is abandoned. Otherwise nothing changes. |
| Rabbits.Rabbit.GiveUpFemale | src/rabbits-population/rabbit.js:317-318 | The male wanders and forgets her. |
| Rabbits.Rabbit.Couple | src/rabbits-population/rabbit.js:329-335 | She conceives with the first draw. He forgets her, his urge goes to 0 and he wanders with the second draw. |
| Rabbits.Rabbit.CheckEnvironment | src/rabbits-population/rabbit.js:342-359 | The rabbit wanders exactly when the point one field of view ahead leaves the viewport, or is water while it is not fetching water. |
| Rabbits.Rabbit.Decide | src/rabbits-population/rabbit.js:83-106 | A busy rabbit changes nothing and draws nothing. An idle one draws once, and with chance 0.001 wanders on a second draw (`Turned`). Then it runs the searches in priority order (`Decided`, `Sought`). The first target found sets the activity and a heading at speed 2. A courted female stops and waits. Each target is the nearest candidate (`Found`), judged over the states before the tick. Life and the mating flag are kept. Only this rabbit and the female it ends with change. |
| Rabbits.Rabbit.Seek | src/rabbits-population/rabbit.js:87-106 | The searches run are exactly those `Searches` orders. Their outcome is `Sought`: each search runs only while nothing was found and its need is past its threshold, and the first target found sets the activity and a heading at speed 2. Each target is the nearest candidate (`Found`). Other rabbits keep their life, and all but the courted female keep their whole state. |
| Rabbits.Rabbit.SeekRest | src/rabbits-population/rabbit.js:94-106 | With no water found, the food and mate searches run as `Sought` and `Found` say, in priority order. |
| Rabbits.Rabbit.IdleTurn | src/rabbits-population/rabbit.js:83-85 | The method takes one draw, and wanders, with a second draw, exactly when the first is below 0.001. |
| Rabbits.Rabbit.SeekWater | src/rabbits-population/rabbit.js:87-92 | The water search runs exactly when water is below its threshold. |
| Rabbits.Rabbit.SeekFood | src/rabbits-population/rabbit.js:94-99 | The food search runs exactly when food is below its threshold. |
| Rabbits.Rabbit.SeekFemale | src/rabbits-population/rabbit.js:101-106 | The female search runs exactly when the urge is above its threshold. |
| Rabbits.Rabbit.Pursue | src/rabbits-population/rabbit.js:108-118 | The scene and cursor afterwards are those that `Pursued` gives for the rabbit's activity. Water: stop and drink within 20, give up beyond 100. Food: abandon an eaten source; within 20 eat it and set food to 100; abandon it beyond 100. Mate: abandon a pregnant female; within 20 she conceives and his urge drops to 0; abandon her beyond 200. Life and the mating flag are kept, and the activity stays or becomes NONE. |
| Rabbits.Rabbit.Metabolise | src/rabbits-population/rabbit.js:61-77 | The new state is `Metabolised` of the old, with the hop coefficient of the clock. One draw is taken exactly when drinking ends. |
| Rabbits.Rabbit.Hop | src/rabbits-population/rabbit.js:62-73 | The state becomes `Hopped` by the hop coefficient of this rabbit's seed, speed and clock. |
| Rabbits.Rabbit.Tend | src/rabbits-population/rabbit.js:75-77 | The state becomes `Tended`: the needs tick, then the age and the needs are checked. One draw is taken exactly when drinking ends. |
| Rabbits.Metabolised | src/rabbits-population/rabbit.js:61-77 | The rabbit moves by its velocity times the coefficient, and its drawn size is at least its size. Its needs tick and its age is the current age. It is alive exactly when it was alive, is not too old and has no need depleted. When drinking ends it is idle at speed 1 with a fresh heading; otherwise it keeps activity, speed and velocity. The flags and thresholds are kept. |
| Rabbits.Turned | src/rabbits-population/rabbit.js:83-85 | The idle turn takes one draw. On a draw below 0.001 it takes a second draw and wanders on it; otherwise the state is unchanged. The position and life are kept either way. |
| Rabbits.Aim | src/rabbits-population/rabbit.js:223-227 | A search that found its target at `p` sets the speed to 2 and heads for `p`. The position, activity and life are kept. |
| Rabbits.LookedAhead | src/rabbits-population/rabbit.js:342-359 | With an obstacle ahead, the rabbit wanders on the next draw. Otherwise the scene and cursor are unchanged. Only the rabbit's state can change. |
| Rabbits.SoughtFollowsSearches | src/rabbits-population/rabbit.js:87-106 | After the searches, the activity is the one that `Searches` names for the needs and what each search found. The needs, life and position are kept. |
| Rabbits.PursuitKeeps | src/rabbits-population/rabbit.js:108-118 | Every handler keeps life and the mating flag, and leaves the activity as it was or NONE. So once one handler has run, no later handler of `live()` applies. It takes at most two draws, and the chased female keeps her life and position. |
| Rabbits.ActedEats | src/rabbits-population/rabbit.js:305 | One tick of `live()` changes the food sources only by marking sources empty. |
| Rabbits.FemaleFoundElsewhere | src/rabbits-population/index.js:228-249 | The mate search does not depend on the searcher's own state. |
| Rabbits.SparedAfter | src/rabbits-population/rabbit.js:61-121 | Sparing every rabbit but this one, then every rabbit but this one and the female, spares every rabbit but those two. |
| Rabbits.Rabbit.Live | src/rabbits-population/rabbit.js:61-121 | The hop and checks give `Metabolised`. A rabbit waiting to mate then stops: nothing else changes and no search runs. Any other rabbit goes from that scene through a decision, a pursuit and a look ahead (`Acted`). The searches each target the nearest candidate (`Found`) and run in priority order, at most three. Only this rabbit and the female it ends with change (`Spared`). The food sources are at most eaten, and the count of lives rises by one. |
| Rabbits.Rabbit.Step | src/rabbits-population/rabbit.js:61-121 | For the population: the rabbit lives once more, no other rabbit's life changes, all stay coherent, and the food sources are at most eaten. |
| Rabbits.Rabbit.Act | src/rabbits-population/rabbit.js:83-120 | From the scene as it is, the decision, pursuit and look ahead give the new scene and cursor (`Acted`). The targets are those that `Found` gives, and the searches run in priority order. Life and the mating flag are kept. Only this rabbit and the female it ends with change. |
| Rabbits.Rabbit.Respond | src/rabbits-population/rabbit.js:108-120 | From the decided scene, the activity's handler runs (`Pursued`), then the look ahead (`LookedAhead`). Together with the decision given, these make up `Acted`. Life and the mating flag are kept. |
| Rabbits.Rabbit.LookAround | src/rabbits-population/rabbit.js:120 | The look ahead after the pursuit completes the trace to `Acted`. The obstacle test is the one on the state after the pursuit. |
| Rabbits.FilterSubsequence | src/rabbits-population/index.js:286-291 | A filter keeps exactly the flagged elements and keeps distinct elements distinct. |
| Rabbits.StatesOfFilter | src/rabbits-population/index.js:264 | The states of the filtered rabbits are the filtered states. |
| Rabbits.FilterLength | src/rabbits-population/index.js:286-291 | Filtering two lists by the same flags keeps as many elements from each. |
| Rabbits.SweepConserves | src/rabbits-population/index.js:286-291 | Survivors plus the dead counted under each reason, and under none, are all the rabbits. |
| Rabbits.SurvivorsAlive | src/rabbits-population/index.js:286-291 | Everyone the sweep keeps is alive. |
| Rabbits.AfterBirths | src/rabbits-population/index.js:293-316 | A due mother is delivered and everyone else is untouched. No one is due afterwards, and no one dies. |
| Rabbits.Delivered | src/rabbits-population/index.js:312-315 | The mother is no longer pregnant, her pregnancy is 0, she has one more childbirth and the father's traits are cleared. She is alive as before. |
| Rabbits.FirstHit | src/rabbits-population/index.js:252-258 | The index is the first rabbit whose box contains the point, or the length when there is none. |
| Rabbits.Population.constructor | src/rabbits-population/index.js:8-26 | The obituary starts at 0 for every reason, and 100 rabbits are generated, each on the ground tile of its draw. |
| Rabbits.Population.GenerateRabbits | src/rabbits-population/index.js:213-226 | All 100 slots are filled. Rabbit k stands on the ground tile of draw `11k`, and eleven draws are taken per rabbit. |
| Rabbits.Population.PlaceRabbit | src/rabbits-population/index.js:215-222 | One more rabbit is placed on the ground tile of its draw. |
| Rabbits.Population.Bear | src/rabbits-population/index.js:299-309 | A newborn is pushed to the end of the list at `(x, y)`, alive and not due. |
| Rabbits.Population.GetClosestFemale | src/rabbits-population/index.js:228-249 | The result is a living female strictly within `distance` and below 1000. No candidate is closer, and ties go to the first. The result is null exactly when there is no candidate. |
| Rabbits.Population.GetRabbitAt | src/rabbits-population/index.js:251-261 | The result is the first rabbit whose open box of half-width `projectedSize/4` contains the point. It is null exactly when no box does. |
| Rabbits.Population.Sweep | src/rabbits-population/index.js:286-291 | The dead leave the list, which keeps the living in order. Each dead rabbit adds 1 under its reason; those without a reason are counted apart. |
| Rabbits.Population.Sift | src/rabbits-population/index.js:286-291 | A living rabbit is appended to the survivors. A dead one is left out and recorded under its reason. |
| Rabbits.Population.Record | src/rabbits-population/index.js:289 | One dead rabbit adds 1 under its reason, or to the deaths without a reason. |
| Rabbits.Population.GiveBirth | src/rabbits-population/index.js:297-316 | Exactly `descendants` newborns are appended, each at the mother's position jittered by two draws. The mother is then delivered. |
| Rabbits.Population.BearJittered | src/rabbits-population/index.js:299-309 | One newborn of the litter is placed at its jittered position. |
| Rabbits.Population.DrawOffsets | src/rabbits-population/index.js:301-302 | The two offsets of a newborn are the jitters of two draws, x first, each in [-5, 4]. |
| Rabbits.Population.Deliver | src/rabbits-population/index.js:312-315 | The mother's state becomes `Delivered`. |
| Rabbits.Population.Attend | src/rabbits-population/index.js:297-316 | One rabbit of the list is attended to: a due mother has her litter, and anyone else is left alone. |
| Rabbits.Population.Births | src/rabbits-population/index.js:293-316 | Every due mother, in list order, has her litter appended and is delivered. The list grows by exactly their litters, and nobody else changes. |
| Rabbits.Population.LiveOne | src/rabbits-population/index.js:267 | That rabbit lives once more. Every other rabbit keeps its count of lives and, in the list, its life. The food sources are at most eaten. |
| Rabbits.Population.LiveAll | src/rabbits-population/index.js:264-267 | Every rabbit alive at the start lives exactly once, and every other rabbit not at all. No rabbit dead at the start is alive at the end. The food sources are at most eaten. |
| Rabbits.Population.Draw | src/rabbits-population/index.js:263-321 | The living pass is as `LiveAll` says, leaving the states `t`. The list is then `Settled` from `t`: the survivors in order, then the litters of the survivors that were due, with each of those mothers delivered. Each reason's count rises by the deaths under it. Everyone left is alive. |
| Rabbits.Population.Settle | src/rabbits-population/index.js:286-316 | The sweep, then the births, give `Settled` from the states at entry. Everyone left is alive, and twelve draws are taken per newborn. |
| Rabbits.Population.Cull | src/rabbits-population/index.js:286-291 | The list becomes the living rabbits of the old list, in order. Each reason's count rises by the dead under it, and the dead without a reason are counted apart. |
| Driver.JsRemRange | src/index.js:164 | JavaScript's `%` takes the sign of the dividend, its magnitude is below the divisor, and it leaves a whole number of divisors. |
| Driver.JsRemFloored | src/index.js:164 | For a non-negative dividend `%` is the floored remainder, and negating the dividend negates it. |
| Driver.QuotientAtLeastOne | src/index.js:163-164 | More than one interval elapsed is at least one whole interval. |
| Driver.NextThen | src/index.js:163-164 | The new `then` lies after the old one, at or before now and within one interval of now. It is a whole number of intervals, at least one, after the old one. |
| Driver.DeltaTime | src/index.js:121-125 | The frame time is `(now - frameEnd)/1000`, forced to 0 above 0.1. So it never exceeds 0.1, and it is not negative when the frame ends in the past. |
| Driver.Game.constructor | src/index.js:21-29 | The globals start at 0 with speed 1. `limitFps(144)` sets the interval and reads the clock. |
| Driver.Game.LimitFps | src/index.js:151-155 | The interval is `1000 / fps` and positive, and `then` is the clock. |
| Driver.Game.Clock | src/index.js:113-133 | An unset or zero frame end is replaced by now, so the first frame measures 0. The simulation time rises by `deltaTime * speedUpFactor` exactly when there are rabbits, and never falls. `timeFromStart` is the seconds since start. |
| Driver.Game.Frame | src/index.js:112-149 | The clock advances as `Clock` says, the world ticks as `Tick` says (`Ticked`), and the frame end becomes now. `then`, the interval and the start time are kept. |
| Driver.Game.Tick | src/index.js:139-140 | The population's tick is as `Population.Draw` says. Then the food sources' tick counts the full sources and regrows the eaten ones (`FoodSources.Draw`), all bundled in `Ticked`. Each rabbit alive at the start lives exactly once. |
| Driver.Game.AnimateWithLimitedFps | src/index.js:157-168 | A frame is drawn exactly when more than one interval has elapsed. Then `then = now - (elapsed % interval)`: it advances by a whole, positive number of intervals and lands within one interval of now. The frame is as `Frame` says. Otherwise the game, the population, the rabbits, the food sources and the generator are all unchanged. |
| Driver.Game.Select | src/index.js:86-104 | The selection becomes the rabbit under the pointer, highlighted with 1.0. The previous one is cleared and no one else changes, so at most one rabbit stays highlighted. |

## Left out

- WebGL and DOM plumbing is not modelled. This covers shader setup, attributes, textures, buffer uploads and draw calls, `environment.draw`, the Stats panel, the rabbit-stats rendering and `requestAnimationFrame`. It is rendering with no bearing on the simulation's state.
- The following are parameters, because they are floating-point trigonometry and a library not part of this model:
  - normalize, rotate, random and distance of the vector library, except that distances are compared squared, which is exact;
  - the `Math.sin` of the hop coefficient;
  - `noise.simplex2` and `noise.perlin3`.
- `setTimeout` is modelled as a map of pending timers that `Movable.Fire` runs on demand. Real time is not modelled.
- `Date.now()` is one parameter per tick. The source reads it afresh in each call.
- The names table and the colours table are not part of this model. The rabbit keeps the draw that picks its name, and a tile takes its palette as a parameter.
- `scaleByResolution`, `createShader` and `createProgram` in src/helpers.js are GPU helpers and are left out.
- src/speed-control.js is left out, so the model never changes `speedUpFactor`.
- Terrain.Environment.GenerateTiles: the environment calls `new Tile(x, y, type)` with three arguments, while tile.js expects `(id, x, y, type, …)`. As written, the x position lands in `id`, y in `x`, the type in `y`, and `type` is undefined. The model builds the tile with the position and type the environment means, and its row-major index as the id.
- Rabbits.Population.Draw: the population packs six floats per rabbit, but `toArray` yields five. The rabbits' drawing buffer is left out for that reason.
- Constants.DeathCode: `DEATH_REASONS` is imported from rabbit.js, which does not export it. The model uses the constants.js values.
- The population reads fields that rabbit.js never sets: `deathReason`, `childbirths` and `inheritableProps.descendants`. The rabbit carries them, and the litter size comes from its configuration's `descendants`.
- `getGenes` and `getParentsTextures` are not part of this model; newborns take fresh draws.
- Rabbits.Population.Record: a death without a reason would add 1 to `obituary[undefined]`, which is NaN. The model counts such deaths in `unrecordedDeaths`.
- `fatherProps` is never set anywhere in the modelled files. `Delivered` clears it, as the source does.
- Rabbits.Rabbit.SearchForWater, Rabbits.Rabbit.SearchForFood, Rabbits.Rabbit.SearchForFemale: each requires an idle rabbit, the only way `live()` calls them.
- Rabbits.Rabbit.SearchForFemale requires a male: a female's urge never grows, so `live()` never calls it for her.
- The rabbit is not modelled as extending the movable agent. rabbit.js defines its own `startMoving`, `wander`, `setDirection`, `stop` and `checkEnvironment`, and never calls the movable agent's.
- `die` is not defined in the modelled files. The movable agent records the reasons it is called with.
- Rabbits.Population.Draw: `pregnantRabbits \|\| deadRabbits` is always truthy, since arrays are truthy, so the buffer is always reallocated. The buffer is not modelled.
- Rabbits.Population.Sweep: `splice(indexOf(rabbit), 1)` over distinct rabbits is modelled as the filter it amounts to.
- Rabbits.Population.GenerateRabbits, Rabbits.Population.constructor: the contracts do not state that the rabbits are fresh objects.
- Driver.Game.Frame takes the already-built population, not the construction of the world in `setupGl`.
- Driver.Game.Clock: a `frameEndTime` of NaN is not modelled.
- Movement.Movable.UpdateVelocityBasedOnPath: no pathfinder is part of this model, so the path is given.
- FoodSupply.FoodSources.constructor, FoodSupply.FoodSources.GenerateFood, FoodSupply.FoodSources.Valid: require a grass or dark-grass tile to exist (`HasGrassIn`). Without one, `getRandomGrassTile` returns undefined and reading `.x` from it throws, at src/food-sources/index.js:117-118 and 150-152. That error path is not modelled.
- Rabbits.Population.constructor, Rabbits.Population.GenerateRabbits: require a ground tile to exist (`HasGround`). Without one, `getRandomGroundTile` returns undefined and reading `.x` from it throws, at src/rabbits-population/index.js:214-217. That error path is not modelled.
- Terrain.GeometryOf: requires a positive height. With a zero height the side `height / 400` is 0, the column count `floor(width / 0)` is infinite or NaN, and `new Array` throws at src/environment/index.js:14-19. That error path is not modelled.
- Rabbits.Population.LiveAll: the rabbits' states after the pass are not given as a function of the states before. Each life reads the states that the earlier lives left, and the division of the list into living rabbits, lives and sweep is stated instead.
- Driver.Game.Tick, Driver.Game.Frame: the rabbits' drawing buffer and `updateStats`, `updateGlobalStats` and `updateObituary` are rendering and are left out.
