/**
 * The traffic-light classification of the single-customer prediction.  The
 * probability is already on the percentage scale (predict_proba times 100);
 * the float scaling and the two-decimal display are not modelled.
 */
module Risk {

  datatype Band = Low | Medium | High

  /** The three bands split the scale at 30 and 70; each boundary belongs to the band above it. */
  function RiskBand(percent: real): (b: Band)
    ensures b == Low <==> percent < 30.0
    ensures b == Medium <==> 30.0 <= percent < 70.0
    ensures b == High <==> 70.0 <= percent
  {
    if percent < 30.0 then Low
    else if percent < 70.0 then Medium
    else High
  }

  function Severity(b: Band): nat
  {
    match b
    case Low => 0
    case Medium => 1
    case High => 2
  }

  lemma RiskBandBoundaries()
    ensures RiskBand(29.99) == Low && RiskBand(30.0) == Medium
    ensures RiskBand(69.99) == Medium && RiskBand(70.0) == High
  {
  }

  /** A higher probability never gets a milder band. */
  lemma RiskBandMonotone(p: real, q: real)
    requires p <= q
    ensures Severity(RiskBand(p)) <= Severity(RiskBand(q))
  {
  }
}
