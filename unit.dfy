/**
 * Unit names and their conversion to SI units, src/unit.c.
 *
 * `find_convert_func` returns a pointer to one of ten conversion functions;
 * the model returns a tag naming it. The conversions themselves are single
 * float expressions; Apply states them over exact reals (float rounding is
 * not modelled), which is enough to state how they relate to each other.
 */
module Unit {

  import opened Wrappers

  /** The conversion functions of unit.c, one tag each. */
  datatype Conversion =
    | Nop
    | CelsiusToK
    | DegreeToRad
    | GsToKgs
    | KmToM
    | KmhToMs
    | KpaToPa
    | NmToM
    | RpmToRads
    | SToNs

  /** The value of the PI macro. */
  const Pi: real := 3.141593

  /** What each conversion computes, over exact reals. */
  function Apply(c: Conversion, v: real): real
    decreases if c == KmhToMs then 1 else 0
  {
    match c
    case Nop => v
    case CelsiusToK => v + 273.15
    case DegreeToRad => v * (Pi / 180.0)
    case GsToKgs => v / 1000.0
    case KmToM => v * 1000.0
    case KmhToMs => Apply(KmToM, v) / (60.0 * 60.0)
    case KpaToPa => v * 1000.0
    case NmToM => v / 0.000000001
    case RpmToRads => v * Pi / 30.0
    case SToNs => v * 1000000000.0
  }

  /**
   * find_convert_func: an exact, case-sensitive match against the listed
   * names; None stands for the assertion failure on an unlisted unit.
   */
  function FindConvertFunc(unit: string): (r: Option<Conversion>)
    ensures r.Some? <==> unit in IdentityUnits || unit in ConvertedUnits
    ensures r == Some(Nop) <==> unit in IdentityUnits
  {
    if unit == "celsius" then Some(CelsiusToK)
    else if unit == "degree" then Some(DegreeToRad)
    else if unit == "g/s" then Some(GsToKgs)
    else if unit == "K" then Some(Nop)
    else if unit == "kg/s" then Some(Nop)
    else if unit == "km" then Some(KmToM)
    else if unit == "km/h" then Some(KmhToMs)
    else if unit == "kPa" then Some(KpaToPa)
    else if unit == "lat" then Some(Nop)
    else if unit == "lng" then Some(Nop)
    else if unit == "m" then Some(Nop)
    else if unit == "m/s" then Some(Nop)
    else if unit == "m/s^2" then Some(Nop)
    else if unit == "nm" then Some(NmToM)
    else if unit == "ns" then Some(Nop)
    else if unit == "Pa" then Some(Nop)
    else if unit == "percent" then Some(Nop)
    else if unit == "rad/s" then Some(Nop)
    else if unit == "rpm" then Some(RpmToRads)
    else if unit == "s" then Some(SToNs)
    else None
  }

  /** The units that are already in SI and pass through unchanged. */
  const IdentityUnits: set<string> :=
    {"K", "kg/s", "lat", "lng", "m", "m/s", "m/s^2", "ns", "Pa", "percent", "rad/s"}

  /** The units that need an actual conversion, with the conversion each gets. */
  const ConvertedUnits: map<string, Conversion> :=
    map["celsius" := CelsiusToK, "degree" := DegreeToRad, "g/s" := GsToKgs,
        "km" := KmToM, "km/h" := KmhToMs, "kPa" := KpaToPa, "nm" := NmToM,
        "rpm" := RpmToRads, "s" := SToNs]

  /**
   * The table, both directions: a unit is found exactly when it is listed, an
   * identity unit maps to nop and every other listed unit to its own
   * conversion.
   */
  lemma FindConvertFuncTable(unit: string)
    ensures unit in IdentityUnits ==> FindConvertFunc(unit) == Some(Nop)
    ensures unit in ConvertedUnits ==> FindConvertFunc(unit) == Some(ConvertedUnits[unit])
  {
  }

  /** Matching is case-sensitive: "kpa", "KM" and "Celsius" are unknown. */
  lemma MatchingIsCaseSensitive()
    ensures FindConvertFunc("kpa").None? && FindConvertFunc("KM").None?
    ensures FindConvertFunc("Celsius").None? && FindConvertFunc("RPM").None?
  {
  }

  /** km/h is converted as km to m followed by a division by 3600. */
  lemma KmhIsKmThenPerHour(v: real)
    ensures Apply(FindConvertFunc("km/h").value, v) == Apply(KmToM, v) / 3600.0
  {
  }

  /** Only nop leaves every value unchanged. */
  lemma OnlyNopIsIdentity(c: Conversion)
    ensures (forall v :: Apply(c, v) == v) <==> c == Nop
  {
    if c != Nop {
      assert Apply(c, 1.0) != 1.0;
    }
  }
}
