/**
 * Risk and status evaluation of a single shipment: the weighted risk score,
 * the delay it induces, the four-way shipment status and the separately
 * parameterised stockout prediction.
 *
 * Scores are exact reals. Comparisons of "days until stock runs out" (a real
 * quotient inventory / consumption) against a whole number of days are
 * computed by cross-multiplication; lemma RunsOutBefore shows that this is the
 * same comparison as the one on the quotient.
 */
module Risk {

  /** The values of the shipment status column, in the order the decision table checks them. */
  datatype Status = Critical | HighRisk | MediumRisk | Normal {
    /** The label shown in the table and matched by the status filter. */
    function Label(): string {
      match this
      case Critical => "CRÍTICO"
      case HighRisk => "ALTO RIESGO"
      case MediumRisk => "RIESGO MEDIO"
      case Normal => "NORMAL"
    }
  }

  /** The three outcomes of the stockout prediction. */
  datatype Prediction = Imminent | AtRisk | Safe {
    /** The label of the prediction column. */
    function Label(): string {
      match this
      case Imminent => "DESABASTO INMINENTE"
      case AtRisk => "RIESGO ALTO"
      case Safe => "NORMAL"
    }

    /** The indicator symbol returned with the label: red, yellow and green circles. */
    function Indicator(): string {
      match this
      case Imminent => "\U{1F534}"
      case AtRisk => "\U{1F7E1}"
      case Safe => "\U{1F7E2}"
    }

    /** How alarming a prediction is; used to compare predictions. */
    function Severity(): nat {
      match this
      case Imminent => 2
      case AtRisk => 1
      case Safe => 0
    }
  }

  /** A risk factor as the generator draws it: a whole percentage. */
  predicate IsPercentage(x: int) {
    0 <= x <= 100
  }

  /**
   * The composite risk score: 30% climate, 50% port congestion and 20% social
   * instability. The factors are not clamped here.
   */
  function RiskScore(climate: int, congestion: int, social: int): (score: real)
    ensures score == (3 * climate + 5 * congestion + 2 * social) as real / 10.0
    ensures IsPercentage(climate) && IsPercentage(congestion) && IsPercentage(social)
            ==> 0.0 <= score <= 100.0
  {
    climate as real * 0.3 + congestion as real * 0.5 + social as real * 0.2
  }

  /** Python's int() on a number: truncation toward zero. */
  function Truncate(x: real): (n: int)
    ensures 0.0 <= x ==> n as real <= x < n as real + 1.0
    ensures x < 0.0 ==> n as real - 1.0 < x <= n as real
  {
    if x >= 0.0 then x.Floor else -((-x).Floor)
  }

  /** Extra transit days caused by the risk: the truncation of score / 100 * 15. */
  function Delay(score: real): (days: int)
    ensures 0.0 <= score <= 100.0 ==> 0 <= days <= 15
    ensures 0.0 <= score ==> days as real <= score * 15.0 / 100.0 < days as real + 1.0
    ensures score < 0.0 ==> days <= 0
  {
    Truncate(score / 100.0 * 15.0)
  }

  /** Days until the inventory is exhausted at the given daily consumption. */
  function DaysToZero(inventory: int, consumption: int): real
    requires consumption > 0
  {
    inventory as real / consumption as real
  }

  /** The stockout buffer: days of stock left over when a shipment of the given transit arrives. */
  function StockoutBuffer(inventory: int, consumption: int, transitDays: int): real
    requires consumption > 0
  {
    DaysToZero(inventory, consumption) - transitDays as real
  }

  /**
   * The status decision table, first match wins: stock running out before
   * arrival is critical whatever the score; otherwise the score decides,
   * with strict comparisons against 70 and 40.
   */
  function ShipmentStatus(score: real, inventory: int, consumption: int, totalTransit: int): (s: Status)
    requires consumption > 0
    ensures s == Critical <==> DaysToZero(inventory, consumption) < totalTransit as real
    ensures s == HighRisk <==> DaysToZero(inventory, consumption) >= totalTransit as real && score > 70.0
    ensures s == MediumRisk <==>
              DaysToZero(inventory, consumption) >= totalTransit as real && 40.0 < score <= 70.0
    ensures s == Normal <==> DaysToZero(inventory, consumption) >= totalTransit as real && score <= 40.0
  {
    RunsOutBefore(inventory, consumption, totalTransit);
    if inventory < totalTransit * consumption then Critical
    else if score > 70.0 then HighRisk
    else if score > 40.0 then MediumRisk
    else Normal
  }

  /**
   * The stockout prediction: a negative buffer is an imminent stockout, a
   * buffer below the configured number of days is a high risk, anything else
   * is normal.
   */
  function PredictStockoutRisk(inventory: int, consumption: int, transitDays: int, thresholdDays: int)
    : (p: Prediction)
    requires consumption > 0
    ensures p == Imminent <==> StockoutBuffer(inventory, consumption, transitDays) < 0.0
    ensures p == AtRisk <==>
              0.0 <= StockoutBuffer(inventory, consumption, transitDays) < thresholdDays as real
    ensures p == Safe <==>
              0.0 <= StockoutBuffer(inventory, consumption, transitDays)
              && thresholdDays as real <= StockoutBuffer(inventory, consumption, transitDays)
  {
    RunsOutBefore(inventory, consumption, transitDays);
    RunsOutBefore(inventory, consumption, transitDays + thresholdDays);
    if inventory < transitDays * consumption then Imminent
    else if inventory < (transitDays + thresholdDays) * consumption then AtRisk
    else Safe
  }

  /** Comparing the real quotient inventory / consumption with a whole number of days is cross-multiplication. */
  lemma RunsOutBefore(inventory: int, consumption: int, days: int)
    requires consumption > 0
    ensures DaysToZero(inventory, consumption) < days as real <==> inventory < days * consumption
  {
  }

  /** The score is a whole number of tenths, so rounding it to one decimal leaves it unchanged. */
  lemma ScoreIsTenths(climate: int, congestion: int, social: int)
    ensures (RiskScore(climate, congestion, social) * 10.0).Floor as real
            == RiskScore(climate, congestion, social) * 10.0
  {
  }

  /** The weights sum to one: equal factors give that factor as the score. */
  lemma WeightsSumToOne(x: int)
    ensures RiskScore(x, x, x) == x as real
  {
  }

  /** The score never decreases when a factor increases. */
  lemma RiskScoreMonotone(c1: int, p1: int, s1: int, c2: int, p2: int, s2: int)
    requires c1 <= c2 && p1 <= p2 && s1 <= s2
    ensures RiskScore(c1, p1, s1) <= RiskScore(c2, p2, s2)
  {
  }

  /** Boundary scores: all factors at 100 give 100, all at 0 give 0, all at 50 give 50. */
  lemma RiskScoreExamples()
    ensures RiskScore(100, 100, 100) == 100.0
    ensures RiskScore(0, 0, 0) == 0.0
    ensures RiskScore(50, 50, 50) == 50.0
  {
  }

  /** Truncation toward zero is monotone. */
  lemma TruncateMonotone(x: real, y: real)
    requires x <= y
    ensures Truncate(x) <= Truncate(y)
  {
  }

  /** More risk never means less delay. */
  lemma DelayMonotone(score1: real, score2: real)
    requires score1 <= score2
    ensures Delay(score1) <= Delay(score2)
  {
  }

  /** On scores in [0, 100] the full fifteen days of delay are reached only at score 100. */
  lemma DelayMaximalOnlyAtFullRisk(score: real)
    requires 0.0 <= score <= 100.0
    ensures Delay(score) == 15 <==> score == 100.0
  {
  }

  /** Sample delays: score 100 gives 15 days, score 0 none, score 66.6 gives 9 (9.99 truncated). */
  lemma DelayExamples()
    ensures Delay(100.0) == 15
    ensures Delay(0.0) == 0
    ensures Delay(66.6) == 9
  {
  }

  /** The total transit time base + delay is never below the base for a score in [0, 100]. */
  lemma TotalTransitBounds(base: int, score: real)
    requires 0.0 <= score <= 100.0
    ensures base <= base + Delay(score) <= base + 15
  {
  }

  /** Sample statuses, including the strict boundaries at 40 and 70. */
  lemma StatusExamples()
    // 5 days of stock, 30 days of transit, score 10
    ensures ShipmentStatus(10.0, 50, 10, 30) == Critical
    // 100 days of stock, 30 days of transit
    ensures ShipmentStatus(71.0, 1000, 10, 30) == HighRisk
    ensures ShipmentStatus(70.0, 1000, 10, 30) == MediumRisk
    ensures ShipmentStatus(41.0, 1000, 10, 30) == MediumRisk
    ensures ShipmentStatus(40.0, 1000, 10, 30) == Normal
  {
  }

  /** Sample predictions: a buffer of -5 days is imminent; a buffer of exactly 5 days with threshold 5 is normal. */
  lemma PredictionExamples()
    ensures PredictStockoutRisk(100, 10, 15, 5) == Imminent
    ensures PredictStockoutRisk(200, 10, 15, 5) == Safe
    ensures PredictStockoutRisk(180, 10, 15, 5) == AtRisk
    ensures PredictStockoutRisk(100, 10, 15, 5).Label() == "DESABASTO INMINENTE"
    ensures PredictStockoutRisk(200, 10, 15, 5).Indicator() == "\U{1F7E2}"
  {
  }

  /**
   * A shipment whose status is computed with its total transit is critical
   * exactly when the stockout prediction for that same transit is imminent,
   * whatever buffer the prediction is given.
   */
  lemma CriticalIffImminent(score: real, inventory: int, consumption: int, totalTransit: int, thresholdDays: int)
    requires consumption > 0
    ensures ShipmentStatus(score, inventory, consumption, totalTransit) == Critical
            <==> PredictStockoutRisk(inventory, consumption, totalTransit, thresholdDays) == Imminent
  {
  }

  /**
   * Outside the critical case the two classifications are independent: a
   * normal status can come with a high-risk prediction (20 days of stock,
   * 18 days of transit, a 5-day buffer) and a high-risk status with a normal one.
   */
  lemma ClassificationsIndependent()
    ensures ShipmentStatus(10.0, 200, 10, 18) == Normal
    ensures PredictStockoutRisk(200, 10, 18, 5) == AtRisk
    ensures ShipmentStatus(90.0, 500, 10, 18) == HighRisk
    ensures PredictStockoutRisk(500, 10, 18, 5) == Safe
  {
  }

  /** A larger buffer setting never makes a prediction less alarming. */
  lemma PredictionMonotoneInThreshold(inventory: int, consumption: int, transitDays: int, t1: int, t2: int)
    requires consumption > 0
    requires t1 <= t2
    ensures PredictStockoutRisk(inventory, consumption, transitDays, t1).Severity()
            <= PredictStockoutRisk(inventory, consumption, transitDays, t2).Severity()
  {
  }

  /** Whether a stockout is imminent does not depend on the buffer setting. */
  lemma ImminentIgnoresThreshold(inventory: int, consumption: int, transitDays: int, t1: int, t2: int)
    requires consumption > 0
    ensures PredictStockoutRisk(inventory, consumption, transitDays, t1) == Imminent
            <==> PredictStockoutRisk(inventory, consumption, transitDays, t2) == Imminent
  {
  }

  /** Distinct statuses have distinct labels, and so do distinct predictions. */
  lemma LabelsDistinct(s1: Status, s2: Status, p1: Prediction, p2: Prediction)
    ensures s1.Label() == s2.Label() ==> s1 == s2
    ensures p1.Label() == p2.Label() ==> p1 == p2
    ensures p1.Indicator() == p2.Indicator() ==> p1 == p2
  {
  }
}
