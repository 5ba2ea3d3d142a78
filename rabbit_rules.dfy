/** The arithmetic of one rabbit: the ranges its random draws give its
    configuration and starting needs, the per-tick change of its needs, and
    the rules by which it ages and dies. The rabbit object applies these to
    its own state. */
module RabbitRules {
  import opened Constants

  // ---------------------------------------------------------------------
  // Configuration drawn at birth
  // ---------------------------------------------------------------------

  const MinSize: real := 40.0
  const MaxSize: real := 20.0
  const MaxAge: real := 80.0
  const BaseWaterSearchThreshold: int := 60
  const BaseFoodSearchThreshold: int := 60
  const MatingThreshold: real := 50.0

  /** `k * r` for a draw `r` in [0, 1) has its floor in [0, k - 1]. */
  lemma ScaledFloorRange(k: int, r: real)
    requires k > 0 && 0.0 <= r < 1.0
    ensures 0 <= (k as real * r).Floor <= k - 1
  {
    assert k as real * r < k as real by {
      assert k as real - k as real * r == k as real * (1.0 - r);
    }
  }

  /** `1 + floor(7 * r)`: the litter size. */
  function Descendants(r: real): (d: int)
    ensures d as real <= 1.0 + 7.0 * r < d as real + 1.0
  {
    1 + (7.0 * r).Floor
  }

  lemma DescendantsRange(r: real)
    requires 0.0 <= r < 1.0
    ensures 1 <= Descendants(r) <= 7
  {
    ScaledFloorRange(7, r);
  }

  /** The two ends of the draw give one and eight descendants. */
  lemma DescendantsAtEnds()
    ensures Descendants(0.0) == 1 && Descendants(1.0) == 8
  {
  }

  /** `Math.random() <= 0.5 ? MALE : FEMALE`. */
  function SexOf(r: real): (s: Sex)
    ensures s == Male <==> r <= 0.5
    ensures s == Female <==> r > 0.5
  {
    if r <= 0.5 then Male else Female
  }

  /** Five minutes plus up to one more, in milliseconds. */
  function MaxAgeMs(r: real): (ms: real)
    ensures 0.0 <= r < 1.0 ==> 300000.0 <= ms < 360000.0
  {
    1000.0 * 60.0 * 5.0 + 1000.0 * 60.0 * 1.0 * r
  }

  lemma MaxAgeAtEnds()
    ensures MaxAgeMs(0.0) == 300000.0 && MaxAgeMs(1.0) == 360000.0
  {
  }

  /** `offset + floor(width * r)`: a starting need or a search threshold. */
  function Spread(offset: int, width: int, r: real): (v: int)
    requires width > 0
    ensures 0.0 <= r < 1.0 ==> offset <= v <= offset + width - 1
  {
    if 0.0 <= r < 1.0 then ScaledFloorRange(width, r); offset + (width as real * r).Floor
    else offset + (width as real * r).Floor
  }

  /** Starting water `60 + floor(30 r)`, in [60, 89]. */
  function InitialWater(r: real): (w: int)
    ensures 0.0 <= r < 1.0 ==> 60 <= w <= 89
  {
    Spread(60, 30, r)
  }

  /** Starting food `40 + floor(30 r)`, in [40, 69]. */
  function InitialFood(r: real): (f: int)
    ensures 0.0 <= r < 1.0 ==> 40 <= f <= 69
  {
    Spread(40, 30, r)
  }

  /** A search threshold `base + floor(20 r)`, in [base, base + 19]. */
  function SearchThreshold(base: int, r: real): (t: int)
    ensures 0.0 <= r < 1.0 ==> base <= t <= base + 19
  {
    Spread(base, 20, r)
  }

  /** The two ends of the draw: the starting needs and thresholds the tests pin. */
  lemma StartingNeedsAtEnds()
    ensures InitialWater(0.0) == 60 && InitialFood(0.0) == 40
    ensures InitialWater(1.0) == 90 && InitialFood(1.0) == 70
    ensures SearchThreshold(BaseWaterSearchThreshold, 0.0) == 60
    ensures SearchThreshold(BaseWaterSearchThreshold, 1.0) == 80
  {
  }

  // ---------------------------------------------------------------------
  // updateStats
  // ---------------------------------------------------------------------

  datatype Stats = Stats(water: real, food: real, mate: real, pregnancy: real)

  const FoodDecay: real := 0.005
  const MateGain: real := 0.01
  const PregnancyGain: real := 0.01
  const WaterDecay: real := 0.01
  const DrinkGain: real := 0.1
  const Sated: real := 100.0

  /** The needs after one `updateStats`: food always falls; the mating urge
      grows for males only; pregnancy advances only while pregnant; water
      falls unless the rabbit is drinking, and then it rises. */
  function TickStats(s: Stats, sex: Sex, pregnant: bool, drinking: bool): (t: Stats)
    ensures t.food == s.food - FoodDecay
    ensures t.mate == (if sex == Male then s.mate + MateGain else s.mate)
    ensures t.pregnancy == (if pregnant then s.pregnancy + PregnancyGain else s.pregnancy)
    ensures t.water == (if drinking then s.water + DrinkGain else s.water - WaterDecay)
  {
    Stats(s.water + (if drinking then DrinkGain else -WaterDecay),
          s.food - FoodDecay,
          s.mate + (if sex == Male then MateGain else 0.0),
          s.pregnancy + (if pregnant then PregnancyGain else 0.0))
  }

  /** Drinking ends in the tick whose water goes above 100. */
  predicate DrinkingEnds(t: Stats, drinking: bool) {
    drinking && t.water > Sated
  }

  /** A female's mating urge never grows; a non-pregnant rabbit's pregnancy never advances. */
  lemma {:induction false} TicksKeepFemaleUrge(s: Stats, n: nat, drinking: bool)
    ensures Ticks(s, Female, false, drinking, n).mate == s.mate
    ensures Ticks(s, Female, false, drinking, n).pregnancy == s.pregnancy
  {
    if n > 0 {
      TicksKeepFemaleUrge(s, n - 1, drinking);
    }
  }

  /** `n` ticks with fixed flags. */
  function Ticks(s: Stats, sex: Sex, pregnant: bool, drinking: bool, n: nat): Stats {
    if n == 0 then s else TickStats(Ticks(s, sex, pregnant, drinking, n - 1), sex, pregnant, drinking)
  }

  /** Without drinking, `n` ticks lower water by exactly `n` decays. */
  lemma {:induction false} TicksLowerWater(s: Stats, sex: Sex, pregnant: bool, n: nat)
    ensures Ticks(s, sex, pregnant, false, n).water == s.water - n as real * WaterDecay
    ensures Ticks(s, sex, pregnant, false, n).food == s.food - n as real * FoodDecay
  {
    if n > 0 {
      TicksLowerWater(s, sex, pregnant, n - 1);
    }
  }

  // ---------------------------------------------------------------------
  // checkStats and checkAge
  // ---------------------------------------------------------------------

  /** `checkStats`: water or food below zero kills. */
  predicate Depleted(s: Stats) {
    s.water < 0.0 || s.food < 0.0
  }

  /** `checkAge`: living longer than `maxAgeInMilliseconds` kills. */
  predicate Expired(elapsed: real, maxAgeMs: real) {
    elapsed > maxAgeMs
  }

  /** Whether the rabbit is alive after `checkAge` then `checkStats`: the flag
      is only ever cleared. */
  function AliveAfterChecks(alive: bool, s: Stats, elapsed: real, maxAgeMs: real): (a: bool)
    ensures a ==> alive
    ensures a <==> alive && !Expired(elapsed, maxAgeMs) && !Depleted(s)
  {
    alive && !Expired(elapsed, maxAgeMs) && !Depleted(s)
  }

  /** `floor(maxAge * (elapsed / maxAgeInMilliseconds))`. */
  function CurrentAge(elapsed: real, maxAgeMs: real): (age: int)
    requires maxAgeMs > 0.0
    ensures 0.0 <= elapsed <= maxAgeMs ==> 0 <= age <= 80
  {
    var q := elapsed / maxAgeMs;
    if 0.0 <= elapsed <= maxAgeMs then
      QuotientInUnit(elapsed, maxAgeMs);
      (MaxAge * q).Floor
    else (MaxAge * q).Floor
  }

  lemma QuotientInUnit(a: real, b: real)
    requires b > 0.0 && 0.0 <= a <= b
    ensures 0.0 <= a / b <= 1.0
  {
    var q := a / b;
    assert q * b == a;
  }

  lemma Mono(x: real, y: real, c: real)
    requires x < y && c > 0.0
    ensures x * c < y * c
  {
    assert y * c - x * c == (y - x) * c;
  }

  /** Dividing by a positive number keeps the order. */
  lemma DivMono(a: real, b: real, c: real)
    requires a <= b && c > 0.0
    ensures a / c <= b / c
  {
    var qa, qb := a / c, b / c;
    assert qa * c == a && qb * c == b;
    if qb < qa {
      Mono(qb, qa, c);
    }
  }

  /** An older rabbit never has a smaller age. */
  lemma CurrentAgeMonotone(e1: real, e2: real, maxAgeMs: real)
    requires maxAgeMs > 0.0 && e1 <= e2
    ensures CurrentAge(e1, maxAgeMs) <= CurrentAge(e2, maxAgeMs)
  {
    var q1 := e1 / maxAgeMs;
    var q2 := e2 / maxAgeMs;
    DivMono(e1, e2, maxAgeMs);
    if q1 < q2 {
      Mono(q1, q2, MaxAge);
    }
    assert MaxAge * q1 <= MaxAge * q2;
  }

  /** `minSize + maxSize * (currentAge / maxAge)`. */
  function Size(age: int): (size: real)
    ensures 0 <= age <= 80 ==> MinSize <= size <= MinSize + MaxSize
  {
    MinSize + MaxSize * (age as real / MaxAge)
  }
}
