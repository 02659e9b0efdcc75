/** The distance-unit lookup `GetUnitConversionScale`, identical in all
    three source files that define it. */
module Units {
  import opened Common

  /** The units the lookup table knows. */
  datatype Unit = Metre | Centimetre | Millimetre

  /** The table's keys. */
  function ParseUnit(name: string): (u: Option<Unit>)
    ensures u == Some(Metre) <==> name == "m"
    ensures u == Some(Centimetre) <==> name == "cm"
    ensures u == Some(Millimetre) <==> name == "mm"
  {
    if name == "m" then Some(Metre)
    else if name == "cm" then Some(Centimetre)
    else if name == "mm" then Some(Millimetre)
    else None
  }

  /** The table's values: how many of the unit make one metre. */
  function PerMetre(u: Unit): (n: int)
    ensures n >= 1
  {
    match u
    case Metre => 1
    case Centimetre => 100
    case Millimetre => 1000
  }

  /** The factor that turns a magnitude in unit `a` into unit `b`. */
  function Scale(a: Unit, b: Unit): (f: real)
    ensures f > 0.0
    ensures f * PerMetre(a) as real == PerMetre(b) as real
  {
    PerMetre(b) as real / PerMetre(a) as real
  }

  /** The lookup on unit names; the input unit is checked first. */
  function GetUnitConversionScale(inputUnit: string, outputUnit: string): (r: Result<real>)
    ensures r.Ok? <==> ParseUnit(inputUnit).Some? && ParseUnit(outputUnit).Some?
    ensures ParseUnit(inputUnit).None? ==> r == Err(InvalidUnit(InputUnit, inputUnit))
    ensures ParseUnit(inputUnit).Some? && ParseUnit(outputUnit).None? ==>
              r == Err(InvalidUnit(OutputUnit, outputUnit))
    ensures r.Ok? ==> r.value == Scale(ParseUnit(inputUnit).value, ParseUnit(outputUnit).value)
  {
    match (ParseUnit(inputUnit), ParseUnit(outputUnit))
    case (None, _) => Err(InvalidUnit(InputUnit, inputUnit))
    case (_, None) => Err(InvalidUnit(OutputUnit, outputUnit))
    case (Some(a), Some(b)) => Ok(Scale(a, b))
  }

  /** Converting a unit to itself is the identity. */
  lemma ScaleToSameUnit(u: Unit)
    ensures Scale(u, u) == 1.0
  {
  }

  /** The factors the pipeline relies on: millimetres to metres and back. */
  lemma MillimetreMetreScales()
    ensures GetUnitConversionScale("mm", "m") == Ok(0.001)
    ensures GetUnitConversionScale("m", "mm") == Ok(1000.0)
    ensures GetUnitConversionScale("cm", "mm") == Ok(10.0)
  {
  }

  /** Converting a to b and then b to c is converting a to c. */
  lemma ScalesCompose(a: Unit, b: Unit, c: Unit)
    ensures Scale(a, b) * Scale(b, c) == Scale(a, c)
  {
    match (a, b, c)
    case (Metre, _, _) =>
    case (Centimetre, _, _) =>
    case (Millimetre, _, _) =>
  }

  /** Converting there and back again gives the factor 1. */
  lemma ScaleRoundTrip(a: Unit, b: Unit)
    ensures Scale(a, b) * Scale(b, a) == 1.0
  {
    ScalesCompose(a, b, a);
  }
}
