/** Greek values, the delta inclusion band and the sums built from them.
    Values are exact reals: the scripts' floating-point rounding is not
    modelled. */
module Greeks {
  import opened Wrappers

  /** One (delta, vega, theta) triple: an instrument's Greeks or a sum of them. */
  datatype Triple = Triple(delta: real, vega: real, theta: real)

  /** The six per-side sums of one aggregation: calls (CE) and puts (PE). */
  datatype Snapshot = Snapshot(ce: Triple, pe: Triple)

  const Zero: Triple := Triple(0.0, 0.0, 0.0)
  const ZeroSnapshot: Snapshot := Snapshot(Zero, Zero)

  /** Inclusive bounds of the band on |delta| (DELTA_LOWER, DELTA_UPPER). */
  const DeltaLower: real := 0.05
  const DeltaUpper: real := 0.60

  function Abs(x: real): real {
    if x < 0.0 then -x else x
  }

  /** An instrument is inside the band iff 0.05 <= |delta| <= 0.60, both ends included. */
  predicate InBand(delta: real) {
    DeltaLower <= Abs(delta) <= DeltaUpper
  }

  function Plus(a: Triple, b: Triple): Triple {
    Triple(a.delta + b.delta, a.vega + b.vega, a.theta + b.theta)
  }

  function Minus(a: Triple, b: Triple): Triple {
    Triple(a.delta - b.delta, a.vega - b.vega, a.theta - b.theta)
  }

  function SnapshotMinus(a: Snapshot, b: Snapshot): Snapshot {
    Snapshot(Minus(a.ce, b.ce), Minus(a.pe, b.pe))
  }

  /** The six values of a snapshot in column order:
      ce_delta, pe_delta, ce_vega, pe_vega, ce_theta, pe_theta. */
  function Columns(s: Snapshot): seq<real> {
    [s.ce.delta, s.pe.delta, s.ce.vega, s.pe.vega, s.ce.theta, s.pe.theta]
  }

  /** Component-wise sum, accumulated left to right as the scripts' loops do. */
  function Sum(ts: seq<Triple>): Triple {
    if |ts| == 0 then Zero else Plus(Sum(ts[..|ts| - 1]), ts[|ts| - 1])
  }

  lemma PlusRegroup(a: Triple, b: Triple, g: Triple)
    ensures Plus(Plus(a, g), b) == Plus(Plus(a, b), g)
    ensures Plus(a, Plus(b, g)) == Plus(Plus(a, b), g)
  {
  }

  lemma SumSnoc(ts: seq<Triple>, t: Triple)
    ensures Sum(ts + [t]) == Plus(Sum(ts), t)
  {
  }

  /** The result of `calculate_greeks`. Its Black-Scholes closed form is
      opaque: `closedForm` is its value, or None when evaluating it raised,
      in which case the function falls back to (0, 0, 0). */
  function CalculateGreeks(closedForm: Option<Triple>): (g: Triple)
    ensures closedForm.Some? ==> g == closedForm.value
    ensures closedForm.None? ==> g == Zero && !InBand(g.delta)
  {
    closedForm.GetOr(Zero)
  }

  /** If `all` sums to the sums of `a` and `b`, one more summand can go to either part. */
  lemma SumSplitSnoc(all: seq<Triple>, a: seq<Triple>, b: seq<Triple>, t: Triple)
    ensures Sum(all) == Plus(Sum(a), Sum(b)) ==> Sum(all + [t]) == Plus(Sum(a + [t]), Sum(b))
    ensures Sum(all) == Plus(Sum(a), Sum(b)) ==> Sum(all + [t]) == Plus(Sum(a), Sum(b + [t]))
  {
    SumSnoc(all, t);
    SumSnoc(a, t);
    SumSnoc(b, t);
  }

  /** A sum of in-band triples has |delta| at most 0.60 per summand. */
  lemma {:induction false} SumDeltaBound(ts: seq<Triple>)
    requires forall k :: 0 <= k < |ts| ==> InBand(ts[k].delta)
    ensures Abs(Sum(ts).delta) <= DeltaUpper * |ts| as real
    decreases |ts|
  {
    if |ts| > 0 {
      SumDeltaBound(ts[..|ts| - 1]);
    }
  }
}
