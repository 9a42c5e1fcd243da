/** Normalisation of a value and its unit to kilohertz (`convertToKHz`). */
module Units {
  import opened Common

  /** The multiplier that takes a value in `unit` to kilohertz. Only "MHz" and
      "GHz" are recognised; every other unit string, "kHz" included, leaves the value as it is. */
  function KHzFactor(unit: string): (f: real)
    ensures f > 0.0
  {
    if unit == "MHz" then 1000.0
    else if unit == "GHz" then 1000.0 * 1000.0
    else 1.0
  }

  /** `parsed` is what `parseFloat` made of the field's text; `None` is NaN. NaN stays NaN. */
  function ConvertToKHz(parsed: Option<real>, unit: string): (r: Option<real>)
    ensures r.None? <==> parsed.None?
    ensures r.Some? ==> (r.value > 0.0 <==> parsed.value > 0.0) && (r.value == 0.0 <==> parsed.value == 0.0)
    ensures unit != "MHz" && unit != "GHz" ==> r == parsed
    ensures unit == "MHz" && r.Some? ==> r.value == parsed.value * 1000.0
  {
    match parsed
    case None => None
    case Some(v) => Some(v * KHzFactor(unit))
  }

  /** The three units agree with one another, NaN propagates, and conversion keeps
      the sign and the order of values given in the same unit. */
  lemma ConversionConsistent(x: real, y: real, unit: string)
    ensures ConvertToKHz(None, unit) == None
    ensures ConvertToKHz(Some(x), "GHz") == ConvertToKHz(Some(x * 1000.0), "MHz")
    ensures ConvertToKHz(Some(x), "MHz") == ConvertToKHz(Some(x * 1000.0), "kHz")
    ensures ConvertToKHz(Some(x), "kHz") == Some(x)
    ensures unit != "MHz" && unit != "GHz" ==> ConvertToKHz(Some(x), unit) == Some(x)
    ensures x > 0.0 <==> ConvertToKHz(Some(x), unit).value > 0.0
    ensures x < y <==> ConvertToKHz(Some(x), unit).value < ConvertToKHz(Some(y), unit).value
  {
    assert "kHz"[0] != "MHz"[0] && "kHz"[0] != "GHz"[0];
    var f := KHzFactor(unit);
    assert x * f - y * f == (x - y) * f;
  }
}
