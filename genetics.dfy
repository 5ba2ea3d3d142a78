/** Inheritance of one trait by a newborn: per-trait strategy dispatch over
    the mother's own heritable values and the values she keeps from the
    father, plus the mutation hook. */
module Genetics {
  import opened Helpers

  /** A trait table: trait name to value. */
  type Traits = map<string, real>

  datatype ErrorKind = TypeError | UnknownType

  /** What `getInheritableProp` produces: a number, `undefined` (the trait is
      absent from the table read), `NaN` (a sum with an absent trait), or a
      thrown error. */
  datatype Outcome = Value(v: real) | Missing | NotANumber | Thrown(error: ErrorKind)

  /** Reading `table[prop]`; reading from an absent table throws. */
  function Lookup(table: Option<Traits>, prop: string): (o: Outcome)
    ensures o.Thrown? <==> table.None?
    ensures o.Value? <==> table.Some? && prop in table.value
    ensures o.Value? ==> o.v == table.value[prop]
    ensures o != NotANumber
  {
    if table.None? then Thrown(TypeError)
    else if prop in table.value then Value(table.value[prop])
    else Missing
  }

  /** The strategy names `getInheritableProp` knows. */
  predicate KnownStrategy(strategy: string) {
    strategy == "average" || strategy == "mother" || strategy == "father"
  }

  /** `getInheritableProp(prop, type, mother)`, with the mother's
      `config.inheritableProps` as `own` and her `state.fatherProps` as
      `father`. The father's table is read before the mother's. */
  function GetInheritableProp(prop: string, strategy: string, own: Option<Traits>, father: Option<Traits>): (o: Outcome)
    ensures o == Thrown(UnknownType) <==> !KnownStrategy(strategy)
    ensures strategy == "mother" ==> o == Lookup(own, prop)
    ensures strategy == "father" ==> o == Lookup(father, prop)
    ensures strategy == "average" ==>
              && (o.Thrown? <==> own.None? || father.None?)
              && (o.Value? <==> own.Some? && father.Some? && prop in own.value && prop in father.value)
              && (o.Value? ==> o.v == (father.value[prop] + own.value[prop]) / 2.0)
              && o != Missing
  {
    if strategy == "average" then
      var f := Lookup(father, prop);
      var m := Lookup(own, prop);
      if f.Thrown? then f
      else if m.Thrown? then m
      else if f.Value? && m.Value? then Value((f.v + m.v) / 2.0)
      else NotANumber
    else if strategy == "mother" then Lookup(own, prop)
    else if strategy == "father" then Lookup(father, prop)
    else Thrown(UnknownType)
  }


  /** Any other strategy name throws, whatever the tables hold. */
  lemma UnknownStrategyThrows(prop: string, strategy: string, own: Option<Traits>, father: Option<Traits>)
    ensures GetInheritableProp(prop, strategy, own, father) == Thrown(UnknownType) <==> !KnownStrategy(strategy)
  {
  }

  /** With both parents' values present, 'average' is their mean and lies
      between them. */
  lemma AverageBetweenParents(prop: string, own: Traits, father: Traits)
    requires prop in own && prop in father
    ensures GetInheritableProp(prop, "average", Some(own), Some(father)) == Value((own[prop] + father[prop]) / 2.0)
    ensures var v := GetInheritableProp(prop, "average", Some(own), Some(father)).v;
            (own[prop] <= v <= father[prop]) || (father[prop] <= v <= own[prop])
  {
  }

  /** When the parents agree on a trait, every strategy passes it on. */
  lemma ParentsAgree(prop: string, strategy: string, own: Traits, father: Traits)
    requires prop in own && prop in father && own[prop] == father[prop]
    requires KnownStrategy(strategy)
    ensures GetInheritableProp(prop, strategy, Some(own), Some(father)) == Value(own[prop])
  {
  }

  /** 'mother' and 'father' return exactly the value read from that parent's
      table; without the father's table, 'average' and 'father' throw. */
  lemma SingleParentStrategies(prop: string, own: Option<Traits>, father: Option<Traits>)
    ensures GetInheritableProp(prop, "mother", own, father) == Lookup(own, prop)
    ensures GetInheritableProp(prop, "father", own, father) == Lookup(father, prop)
    ensures father.None? ==> GetInheritableProp(prop, "average", own, father) == Thrown(TypeError)
    ensures father.None? ==> GetInheritableProp(prop, "father", own, father) == Thrown(TypeError)
  {
  }

  /** A missing trait in either table makes the average `NaN`, not an error. */
  lemma AverageOfMissingIsNaN(prop: string, own: Traits, father: Traits)
    requires prop !in own || prop !in father
    ensures GetInheritableProp(prop, "average", Some(own), Some(father)) == NotANumber
  {
  }

  /** `mutate(prop)`: no mutation is applied. */
  function Mutate(prop: real): (m: real)
    ensures m == prop
  {
    prop
  }
}
