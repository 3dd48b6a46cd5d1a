/** The treatment configuration and the switch-probability formula of the
    decision page (views.py, `treatment` and the arithmetic of `Decision.tick`). */
module Treatments {
  import opened Wrappers

  /** Why a tick or a template could not obtain its parameters. */
  datatype ConfigError =
    | UndefinedTreatment              // the session config has no 'treatment' key
    | UnknownTreatment(name: string)  // the named treatment is not in the treatment table (a plain key error)
    | MalformedTransitionProbabilities // the table does not yield four coefficients for the active matrix

  /** One entry of the treatment table: a payoff grid (only shown to
      participants) and the transition-probability table, four rows
      p11, p12, p21, p22, each indexed by the matrix number. */
  datatype Treatment = Treatment(payoffGrid: seq<seq<real>>, transitionProbabilities: seq<seq<real>>)

  /** The four transition coefficients of one matrix. */
  datatype Coefficients = Coefficients(p11: real, p12: real, p21: real, p22: real)

  /** Per-tick scale of the switch probability: with ten ticks a second it
      gives a switch within two seconds with probability one half. */
  const PMAX: real := 0.034064

  /** A session's treatment: the table entry named by the config's
      'treatment' key, a distinct error when that key is missing. */
  function LookupTreatment(config: map<string, string>, treatments: map<string, Treatment>): (r: Result<Treatment, ConfigError>)
    ensures r == Err(UndefinedTreatment) <==> "treatment" !in config
    ensures r.Ok? <==> "treatment" in config && config["treatment"] in treatments
    ensures r.Ok? ==> r.value == treatments[config["treatment"]]
    ensures r.Err? && "treatment" in config ==> r.error == UnknownTreatment(config["treatment"])
  {
    if "treatment" in config then
      var name := config["treatment"];
      if name in treatments then Ok(treatments[name]) else Err(UnknownTreatment(name))
    else
      Err(UndefinedTreatment)
  }

  /** Column `matrix` of the transition-probability table, unpacked into
      p11, p12, p21, p22 in the table's row order. */
  function CoefficientsFor(t: Treatment, matrix: nat): (r: Result<Coefficients, ConfigError>)
    ensures r.Ok? <==> |t.transitionProbabilities| == 4 &&
                        forall i :: 0 <= i < 4 ==> matrix < |t.transitionProbabilities[i]|
    ensures r.Ok? ==> r.value == Coefficients(t.transitionProbabilities[0][matrix], t.transitionProbabilities[1][matrix],
                                              t.transitionProbabilities[2][matrix], t.transitionProbabilities[3][matrix])
    ensures r.Err? ==> r.error == MalformedTransitionProbabilities
  {
    var tp := t.transitionProbabilities;
    if |tp| == 4 && matrix < |tp[0]| && matrix < |tp[1]| && matrix < |tp[2]| && matrix < |tp[3]| then
      Ok(Coefficients(tp[0][matrix], tp[1][matrix], tp[2][matrix], tp[3][matrix]))
    else
      Err(MalformedTransitionProbabilities)
  }

  /** The per-tick switch probability for decisions q1 and q2. */
  function SwitchProbability(c: Coefficients, q1: real, q2: real): real
  {
    (c.p11 * q1 * q2 +
     c.p12 * q1 * (1.0 - q2) +
     c.p21 * (1.0 - q1) * q2 +
     c.p22 * (1.0 - q1) * (1.0 - q2)) * PMAX
  }

  /** The weights the formula gives p11, p12, p21 and p22. */
  function Weights(q1: real, q2: real): seq<real>
  {
    [q1 * q2, q1 * (1.0 - q2), (1.0 - q1) * q2, (1.0 - q1) * (1.0 - q2)]
  }

  predicate InUnit(x: real) { 0.0 <= x <= 1.0 }

  function Min4(c: Coefficients): real
  {
    var a := if c.p11 <= c.p12 then c.p11 else c.p12;
    var b := if c.p21 <= c.p22 then c.p21 else c.p22;
    if a <= b then a else b
  }

  function Max4(c: Coefficients): real
  {
    var a := if c.p11 >= c.p12 then c.p11 else c.p12;
    var b := if c.p21 >= c.p22 then c.p21 else c.p22;
    if a >= b then a else b
  }

  lemma MulNonneg(a: real, b: real)
    requires 0.0 <= a && 0.0 <= b
    ensures 0.0 <= a * b
  {
  }

  /** For decisions in [0, 1] the four weights form a convex combination. */
  lemma WeightsConvex(q1: real, q2: real)
    requires InUnit(q1) && InUnit(q2)
    ensures var w := Weights(q1, q2); forall i :: 0 <= i < 4 ==> 0.0 <= w[i]
    ensures var w := Weights(q1, q2); w[0] + w[1] + w[2] + w[3] == 1.0
  {
    MulNonneg(q1, q2);
    MulNonneg(q1, 1.0 - q2);
    MulNonneg(1.0 - q1, q2);
    MulNonneg(1.0 - q1, 1.0 - q2);
    WeightsSum(q1, q2);
  }

  /** The weights sum to one for every pair of decisions. */
  lemma WeightsSum(q1: real, q2: real)
    ensures var w := Weights(q1, q2); w[0] + w[1] + w[2] + w[3] == 1.0
  {
    assert q1 * q2 + q1 * (1.0 - q2) == q1;
    assert (1.0 - q1) * q2 + (1.0 - q1) * (1.0 - q2) == 1.0 - q1;
  }

  /** The formula is the weighted sum of the coefficients, scaled by PMAX. */
  lemma SwitchProbabilityIsWeighted(c: Coefficients, q1: real, q2: real)
    ensures var w := Weights(q1, q2);
            SwitchProbability(c, q1, q2) == (w[0] * c.p11 + w[1] * c.p12 + w[2] * c.p21 + w[3] * c.p22) * PMAX
  {
    var w := Weights(q1, q2);
    assert c.p11 * q1 * q2 == w[0] * c.p11;
    assert c.p12 * q1 * (1.0 - q2) == w[1] * c.p12;
    assert c.p21 * (1.0 - q1) * q2 == w[2] * c.p21;
    assert c.p22 * (1.0 - q1) * (1.0 - q2) == w[3] * c.p22;
  }

  /** A convex combination of four values lies between their bounds. */
  lemma ConvexCombinationBounds(w0: real, w1: real, w2: real, w3: real,
                                a: real, b: real, c: real, d: real, lo: real, hi: real)
    requires 0.0 <= w0 && 0.0 <= w1 && 0.0 <= w2 && 0.0 <= w3 && w0 + w1 + w2 + w3 == 1.0
    requires lo <= a <= hi && lo <= b <= hi && lo <= c <= hi && lo <= d <= hi
    ensures lo <= w0 * a + w1 * b + w2 * c + w3 * d <= hi
  {
    var blend := w0 * a + w1 * b + w2 * c + w3 * d;
    MulNonneg(w0, a - lo); MulNonneg(w1, b - lo); MulNonneg(w2, c - lo); MulNonneg(w3, d - lo);
    MulNonneg(w0, hi - a); MulNonneg(w1, hi - b); MulNonneg(w2, hi - c); MulNonneg(w3, hi - d);
    assert blend - lo == w0 * (a - lo) + w1 * (b - lo) + w2 * (c - lo) + w3 * (d - lo);
    assert hi - blend == w0 * (hi - a) + w1 * (hi - b) + w2 * (hi - c) + w3 * (hi - d);
  }

  /** For decisions in [0, 1] the switch probability lies between PMAX times
      the smallest and PMAX times the largest coefficient. */
  lemma SwitchProbabilityBounds(c: Coefficients, q1: real, q2: real)
    requires InUnit(q1) && InUnit(q2)
    ensures PMAX * Min4(c) <= SwitchProbability(c, q1, q2) <= PMAX * Max4(c)
  {
    Min4Max4Bound(c);
    SwitchProbabilityBetween(c, q1, q2, Min4(c), Max4(c));
  }

  /** For decisions in [0, 1], bounds on all four coefficients bound the
      switch probability, scaled by PMAX. */
  lemma SwitchProbabilityBetween(c: Coefficients, q1: real, q2: real, lo: real, hi: real)
    requires InUnit(q1) && InUnit(q2)
    requires lo <= c.p11 <= hi && lo <= c.p12 <= hi && lo <= c.p21 <= hi && lo <= c.p22 <= hi
    ensures PMAX * lo <= SwitchProbability(c, q1, q2) <= PMAX * hi
  {
    var w := Weights(q1, q2);
    WeightsConvex(q1, q2);
    ConvexCombinationBounds(w[0], w[1], w[2], w[3], c.p11, c.p12, c.p21, c.p22, lo, hi);
    SwitchProbabilityIsWeighted(c, q1, q2);
    ScaleBounds(lo, w[0] * c.p11 + w[1] * c.p12 + w[2] * c.p21 + w[3] * c.p22, hi);
  }

  /** Min4 and Max4 bound every coefficient. */
  lemma Min4Max4Bound(c: Coefficients)
    ensures Min4(c) <= c.p11 <= Max4(c) && Min4(c) <= c.p12 <= Max4(c)
    ensures Min4(c) <= c.p21 <= Max4(c) && Min4(c) <= c.p22 <= Max4(c)
  {
  }

  /** Scaling by PMAX keeps bounds. */
  lemma ScaleBounds(lo: real, x: real, hi: real)
    requires lo <= x <= hi
    ensures PMAX * lo <= x * PMAX <= PMAX * hi
  {
  }

  /** When all four coefficients equal p, the switch probability is p * PMAX
      whatever the decisions; in particular all-zero coefficients never switch. */
  lemma SwitchProbabilityUniform(p: real, q1: real, q2: real)
    ensures SwitchProbability(Coefficients(p, p, p, p), q1, q2) == p * PMAX
  {
    WeightsSum(q1, q2);
    SwitchProbabilityIsWeighted(Coefficients(p, p, p, p), q1, q2);
    var w := Weights(q1, q2);
    assert w[0] * p + w[1] * p + w[2] * p + w[3] * p == (w[0] + w[1] + w[2] + w[3]) * p;
  }

  /** With coefficients and decisions in [0, 1] the formula yields a
      probability no larger than PMAX. */
  lemma SwitchProbabilityIsProbability(c: Coefficients, q1: real, q2: real)
    requires InUnit(c.p11) && InUnit(c.p12) && InUnit(c.p21) && InUnit(c.p22)
    requires InUnit(q1) && InUnit(q2)
    ensures 0.0 <= SwitchProbability(c, q1, q2) <= PMAX < 1.0
  {
    SwitchProbabilityBounds(c, q1, q2);
  }

  /** The worked example: unit coefficients at q1 = q2 = 0.5 give PMAX. */
  lemma SwitchProbabilityExample()
    ensures SwitchProbability(Coefficients(1.0, 1.0, 1.0, 1.0), 0.5, 0.5) == 0.034064
  {
  }
}
