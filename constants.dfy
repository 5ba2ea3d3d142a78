/** Enumerations of the simulation: the activities of a movable agent, the
    causes of death kept in the obituary, the two sexes, and the separate
    need codes that the rabbit controller uses for its own activity field. */
module Constants {

  /** The ACTIVITIES codes of the movable agent. */
  datatype Activity = None | FetchingWater | Drinking | FetchingFood | Mating

  function ActivityCode(a: Activity): (c: nat)
    ensures c < 5
    ensures c == 0 <==> a == None
  {
    match a
    case None => 0
    case FetchingWater => 1
    case Drinking => 2
    case FetchingFood => 3
    case Mating => 4
  }

  /** The JavaScript test `!state.activity`: a code is falsy exactly when it is 0. */
  predicate IsIdle(a: Activity) {
    ActivityCode(a) == 0
  }

  lemma ActivityCodesDistinct(a: Activity, b: Activity)
    ensures ActivityCode(a) == ActivityCode(b) <==> a == b
  {
  }

  lemma IdleMeansNone(a: Activity)
    ensures IsIdle(a) <==> a == None
  {
  }

  /** The DEATH_REASONS codes; DRAWN is the source's spelling of "drowned". */
  datatype DeathReason = Drawn | Starvation | Thirst | Age | OutOfBounds | Illness

  function DeathCode(d: DeathReason): (c: nat)
    ensures c <= 5
  {
    match d
    case Drawn => 0
    case Starvation => 1
    case Thirst => 2
    case Age => 3
    case OutOfBounds => 4
    case Illness => 5
  }

  function DeathReasonOf(c: nat): (d: DeathReason)
    requires c <= 5
    ensures DeathCode(d) == c
  {
    if c == 0 then Drawn
    else if c == 1 then Starvation
    else if c == 2 then Thirst
    else if c == 3 then Age
    else if c == 4 then OutOfBounds
    else Illness
  }

  /** All death reasons, in code order: the keys that the obituary starts from. */
  const AllDeathReasons: seq<DeathReason> := [Drawn, Starvation, Thirst, Age, OutOfBounds, Illness]

  lemma DeathCodesAreExactlyZeroToFive()
    ensures |AllDeathReasons| == 6
    ensures forall k :: 0 <= k < 6 ==> DeathCode(AllDeathReasons[k]) == k
    ensures forall d: DeathReason :: d in AllDeathReasons
  {
    forall d: DeathReason ensures d in AllDeathReasons {
      assert AllDeathReasons[DeathCode(d)] == d;
    }
  }

  lemma DeathCodesDistinct(a: DeathReason, b: DeathReason)
    ensures DeathCode(a) == DeathCode(b) <==> a == b
  {
  }

  /** The SEX codes. */
  datatype Sex = Male | Female

  function SexCode(s: Sex): (c: nat)
    ensures c == 0 <==> s == Male
    ensures c == 1 <==> s == Female
  {
    match s
    case Male => 0
    case Female => 1
  }

  /** The NEEDS_ENUM codes that rabbit.js declares for its own `activity` field.
      They are not the ACTIVITIES codes: code 2 is FOOD here but DRINKING there. */
  datatype Need = NoNeed | Water | Food | Mate

  function NeedCode(n: Need): (c: nat)
    ensures c < 4
    ensures c == 0 <==> n == NoNeed
  {
    match n
    case NoNeed => 0
    case Water => 1
    case Food => 2
    case Mate => 3
  }

  lemma NeedCodesDistinct(a: Need, b: Need)
    ensures NeedCode(a) == NeedCode(b) <==> a == b
  {
  }

  /** The same code names different things in the two enumerations. */
  lemma NeedsAreNotActivities()
    ensures NeedCode(Food) == ActivityCode(Drinking) == 2
    ensures NeedCode(Mate) == ActivityCode(FetchingFood) == 3
  {
  }
}
