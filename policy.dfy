/**
 The fog classification policy of the backend: the two image metrics are
 compared against two thresholds, and the outcome is one of three tiers, each
 with its own fixed advice and message. Thresholds and metrics are exact reals;
 the float rounding of the backend's comparisons is not modelled.
 */
module FogPolicy {

  /** The two metrics computed from one grey-scale image. */
  datatype Metrics = Metrics(laplacianVariance: real, histStdDev: real)

  /** A pair of cut-offs, one per metric. */
  datatype Thresholds = Thresholds(laplacian: real, stdDev: real)

  /** The three tiers, named as the response names them. */
  datatype Intensity = Clear | Light | Heavy
  {
    function Name(): (s: string)
    {
      match this
      case Clear => "Clear"
      case Light => "Light"
      case Heavy => "Heavy"
    }
  }

  /** The severity order Clear < Light < Heavy. */
  function Rank(i: Intensity): (r: nat)
    ensures r <= 2
    ensures r == 0 <==> i == Clear
    ensures r == 2 <==> i == Heavy
  {
    match i
    case Clear => 0
    case Light => 1
    case Heavy => 2
  }

  /** Default query thresholds of the endpoint (and of the environment fallbacks). */
  const DefaultLaplacianThreshold: real := 250.0
  const DefaultStdDevThreshold: real := 40.0

  function DefaultThresholds(): (t: Thresholds)
  {
    Thresholds(DefaultLaplacianThreshold, DefaultStdDevThreshold)
  }

  /** The heavy-fog cut-offs derived from the request's thresholds. */
  function HeavyCutoffs(t: Thresholds): (h: Thresholds)
    ensures t.laplacian >= 0.0 ==> 0.0 <= h.laplacian <= t.laplacian
    ensures t.stdDev >= 0.0 ==> 0.0 <= h.stdDev <= t.stdDev
    ensures t.laplacian < 0.0 ==> t.laplacian < h.laplacian < 0.0
    ensures t.stdDev < 0.0 ==> t.stdDev < h.stdDev < 0.0
  {
    Thresholds(t.laplacian / 2.5, t.stdDev / 2.0)
  }

  /**
   The combination rule: an image counts as foggy against a pair of cut-offs
   when EITHER metric lies strictly below its cut-off.
   */
  predicate Below(m: Metrics, t: Thresholds)
  {
    m.laplacianVariance < t.laplacian || m.histStdDev < t.stdDev
  }

  /** The tier the if/elif chain of the endpoint arrives at. */
  function Tier(m: Metrics, t: Thresholds): (i: Intensity)
  {
    if Below(m, HeavyCutoffs(t)) then Heavy
    else if Below(m, t) then Light
    else Clear
  }

  /**
   The three tiers are exclusive and exhaustive: Heavy exactly when the heavy
   cut-offs are undercut, Light exactly when only the base ones are, Clear
   exactly when neither is.
   */
  lemma TierCharacterised(m: Metrics, t: Thresholds)
    ensures Tier(m, t) == Heavy <==> Below(m, HeavyCutoffs(t))
    ensures Tier(m, t) == Light <==> !Below(m, HeavyCutoffs(t)) && Below(m, t)
    ensures Tier(m, t) == Clear <==> !Below(m, HeavyCutoffs(t)) && !Below(m, t)
  {
  }

  /** The advice and message strings of the three tiers. */
  const ClearAdvice: string := "Conditions clear. Drive safely."
  const LightAdvice: string := "Light Fog Detected. Reduce speed. Turn on headlights (low beam). Be cautious."
  const HeavyAdvice: string :=
    "HEAVY FOG! Reduce speed significantly. Use fog lights. Increase following distance. Consider stopping if visibility is minimal."
  const ClearMessage: string := "Clear"
  const LightMessage: string := "Light Fog Detected"
  const HeavyMessage: string := "Heavy Fog Detected"

  /** The advice string each tier fixes. */
  function AdviceFor(i: Intensity): (s: string)
  {
    match i
    case Clear => ClearAdvice
    case Light => LightAdvice
    case Heavy => HeavyAdvice
  }

  /** The message string each tier fixes. */
  function MessageFor(i: Intensity): (s: string)
  {
    match i
    case Clear => ClearMessage
    case Light => LightMessage
    case Heavy => HeavyMessage
  }

  /** The outcome of classification, as the endpoint puts it in its response. */
  datatype Verdict = Verdict(fogDetected: bool, intensity: Intensity, advice: string, message: string)

  /**
   The verdict for one pair of metrics and one pair of thresholds. Its fog
   flag is the helper's OR rule whenever the thresholds or the metrics are
   non-negative, and a Heavy verdict then also undercuts the base thresholds.
   */
  function Classify(m: Metrics, t: Thresholds): (v: Verdict)
    ensures t.laplacian >= 0.0 && t.stdDev >= 0.0 ==> (v.fogDetected <==> Below(m, t))
    ensures m.laplacianVariance >= 0.0 && m.histStdDev >= 0.0 ==> (v.fogDetected <==> Below(m, t))
    ensures t.laplacian >= 0.0 && t.stdDev >= 0.0 && v.intensity == Heavy ==> Below(m, t)
  {
    var i := Tier(m, t);
    Verdict(i != Clear, i, AdviceFor(i), MessageFor(i))
  }

  /** The advice, messages and names of different tiers differ, so each names its tier. */
  lemma StringsIdentifyTier(i: Intensity, j: Intensity)
    ensures AdviceFor(i) == AdviceFor(j) <==> i == j
    ensures MessageFor(i) == MessageFor(j) <==> i == j
    ensures i.Name() == j.Name() <==> i == j
  {
    assert |ClearAdvice| == 31;
    assert |LightAdvice| == 77;
    assert |HeavyAdvice| == 127;
  }

  /** Advice and message depend on the inputs only through the tier. */
  lemma AdviceDependsOnlyOnTier(m1: Metrics, t1: Thresholds, m2: Metrics, t2: Thresholds)
    requires Tier(m1, t1) == Tier(m2, t2)
    ensures Classify(m1, t1).fogDetected == Classify(m2, t2).fogDetected
    ensures Classify(m1, t1).advice == Classify(m2, t2).advice
    ensures Classify(m1, t1).message == Classify(m2, t2).message
  {
  }

  /**
   Heavy cut-offs are never above the base ones when the thresholds are not
   negative, so heavy fog is also fog by the base rule.
   */
  lemma HeavyImpliesBelow(m: Metrics, t: Thresholds)
    requires t.laplacian >= 0.0 && t.stdDev >= 0.0
    ensures Below(m, HeavyCutoffs(t)) ==> Below(m, t)
  {
  }

  /**
   With non-negative thresholds the endpoint's fog flag is exactly the
   helper's OR rule against the same thresholds.
   */
  lemma FogFlagMatchesOrRule(m: Metrics, t: Thresholds)
    requires t.laplacian >= 0.0 && t.stdDev >= 0.0
    ensures (Tier(m, t) != Clear) <==> Below(m, t)
  {
  }

  /**
   The same agreement holds for any thresholds once both metrics are
   non-negative, which a variance and a standard deviation always are.
   */
  lemma FogFlagMatchesOrRuleForRealMetrics(m: Metrics, t: Thresholds)
    requires m.laplacianVariance >= 0.0 && m.histStdDev >= 0.0
    ensures (Tier(m, t) != Clear) <==> Below(m, t)
  {
  }

  /**
   Neither hypothesis can be dropped: with a negative metric and a negative
   threshold the heavy cut-off lies above the base one, and the two rules part.
   */
  lemma OrRuleDisagreesForNegativeInputs()
    ensures var m, t := Metrics(-3.0, 100.0), Thresholds(-5.0, 40.0);
      Tier(m, t) == Heavy && !Below(m, t)
  {
  }

  /** Componentwise order on threshold pairs. */
  predicate AtMost(t1: Thresholds, t2: Thresholds)
  {
    t1.laplacian <= t2.laplacian && t1.stdDev <= t2.stdDev
  }

  /**
   Raising either threshold never moves the tier toward Clear; equivalently,
   lowering either never moves it toward Heavy.
   */
  lemma TierMonotoneInThresholds(m: Metrics, t1: Thresholds, t2: Thresholds)
    requires AtMost(t1, t2)
    ensures Rank(Tier(m, t1)) <= Rank(Tier(m, t2))
  {
  }

  /** Lowering either metric never moves the tier toward Clear. */
  lemma TierAntitoneInMetrics(m1: Metrics, m2: Metrics, t: Thresholds)
    requires m1.laplacianVariance <= m2.laplacianVariance && m1.histStdDev <= m2.histStdDev
    ensures Rank(Tier(m2, t)) <= Rank(Tier(m1, t))
  {
  }

  /** The default thresholds give heavy-fog cut-offs of 100 and 20. */
  lemma DefaultHeavyCutoffs()
    ensures HeavyCutoffs(DefaultThresholds()) == Thresholds(100.0, 20.0)
  {
  }

  /** An image without any Laplacian response is heavy fog for any positive threshold. */
  lemma FlatImageIsHeavy(m: Metrics, t: Thresholds)
    requires m.laplacianVariance == 0.0 && t.laplacian > 0.0
    ensures Tier(m, t) == Heavy
  {
  }
}
