/**
 Glasgow Coma Score estimate from cerebral blood flow (BrainInjury.cpp).

 The estimator is a thirteen-band step function: cerebral blood flow in mL/min
 is compared, in increasing order and with strict `<`, against twelve integer
 thresholds, and the first threshold that exceeds the flow decides the score.
 A C++ `double` is modelled as a `real`; the comparisons involve no rounding.
 */
module Glasgow {

  /** Lowest and highest scores of the Glasgow Coma Scale. */
  const MinScore: int := 3
  const MaxScore: int := 15

  /** The estimator: an if/else-if chain over the flow, with strict comparisons. */
  function GlasgowEstimator(cbf: real): (score: int)
    ensures MinScore <= score <= MaxScore
  {
    if cbf < 116.0 then 3
    else if cbf < 151.0 then 4
    else if cbf < 186.0 then 5
    else if cbf < 220.0 then 6
    else if cbf < 255.0 then 7
    else if cbf < 290.0 then 8
    else if cbf < 363.0 then 9
    else if cbf < 435.0 then 10
    else if cbf < 508.0 then 11
    else if cbf < 580.0 then 12
    else if cbf < 628.0 then 13
    else if cbf < 725.0 then 14
    else 15
  }

  /** The upper bounds of the documented table, row by row ("<116" for score 3, ...,
      "<725" for score 14); the last row (score 15) has no upper bound in the code. */
  const Thresholds: seq<int> := [116, 151, 186, 220, 255, 290, 363, 435, 508, 580, 628, 725]

  /** How many of the thresholds in `ts` the flow has reached (`t <= cbf`). */
  function CountReached(ts: seq<int>, cbf: real): (n: nat)
    ensures n <= |ts|
  {
    if ts == [] then 0
    else (if ts[0] as real <= cbf then 1 else 0) + CountReached(ts[1..], cbf)
  }

  /** Reference reading of the table: the score is 3 plus the number of row
      boundaries the flow has reached. */
  function TableScore(cbf: real): (score: int)
  {
    MinScore + CountReached(Thresholds, cbf)
  }

  /** On a sorted threshold list, the count of reached thresholds is the length of
      the prefix lying at or below the flow. */
  lemma {:induction false} CountReachedSorted(ts: seq<int>, cbf: real, k: nat)
    requires forall i, j :: 0 <= i < j < |ts| ==> ts[i] < ts[j]
    requires k <= |ts|
    requires forall i :: 0 <= i < k ==> ts[i] as real <= cbf
    requires forall i :: k <= i < |ts| ==> cbf < ts[i] as real
    ensures CountReached(ts, cbf) == k
  {
    if ts != [] {
      var rest := ts[1..];
      if k == 0 {
        CountReachedSorted(rest, cbf, 0);
      } else {
        CountReachedSorted(rest, cbf, k - 1);
      }
    }
  }

  /** Below the k-th threshold of a sorted list, at most k thresholds are reached. */
  lemma {:induction false} CountReachedBelow(ts: seq<int>, cbf: real, k: nat)
    requires forall i, j :: 0 <= i < j < |ts| ==> ts[i] < ts[j]
    requires k < |ts|
    requires cbf < ts[k] as real
    ensures CountReached(ts, cbf) <= k
  {
    if k > 0 {
      CountReachedBelow(ts[1..], cbf, k - 1);
    } else {
      CountReachedSorted(ts, cbf, 0);
    }
  }

  /** The thresholds of the table strictly increase. */
  lemma ThresholdsIncrease()
    ensures forall i, j :: 0 <= i < j < |Thresholds| ==> Thresholds[i] < Thresholds[j]
  {
  }

  /** The code agrees with the documented table on every input: the score is 3 plus
      the number of table boundaries the flow has reached. */
  lemma {:induction false} EstimatorMatchesTable(cbf: real)
    ensures GlasgowEstimator(cbf) == TableScore(cbf)
  {
    ThresholdsIncrease();
    var k := GlasgowEstimator(cbf) - MinScore;
    assert 0 <= k <= |Thresholds|;
    assert forall i :: 0 <= i < k ==> Thresholds[i] as real <= cbf;
    assert forall i :: k <= i < |Thresholds| ==> cbf < Thresholds[i] as real;
    CountReachedSorted(Thresholds, cbf, k);
  }

  /** Row k of the table: inputs in [lo, hi) map to 3 + k, where row 0 has no lower
      bound and row 12 no upper bound. */
  lemma EstimatorBand(k: nat, cbf: real)
    requires k <= 12
    requires k > 0 ==> Thresholds[k - 1] as real <= cbf
    requires k < 12 ==> cbf < Thresholds[k] as real
    ensures GlasgowEstimator(cbf) == MinScore + k
  {
    ThresholdsIncrease();
    EstimatorMatchesTable(cbf);
    CountReachedSorted(Thresholds, cbf, k);
  }

  /** A larger flow never gives a lower score. */
  lemma EstimatorMonotone(a: real, b: real)
    requires a <= b
    ensures GlasgowEstimator(a) <= GlasgowEstimator(b)
  {
  }

  /** Every threshold already belongs to the higher band, because comparisons are strict. */
  lemma {:induction false} ThresholdStartsBand(k: nat)
    requires k < |Thresholds|
    ensures GlasgowEstimator(Thresholds[k] as real) == MinScore + k + 1
    ensures forall cbf :: cbf < Thresholds[k] as real ==> GlasgowEstimator(cbf) <= MinScore + k
  {
    ThresholdsIncrease();
    EstimatorBand(k + 1, Thresholds[k] as real);
    forall cbf | cbf < Thresholds[k] as real
      ensures GlasgowEstimator(cbf) <= MinScore + k
    {
      EstimatorMatchesTable(cbf);
      CountReachedBelow(Thresholds, cbf, k);
    }
  }

  /** Flows just below and at the first and last thresholds, a flow far above the
      table, and a negative flow. */
  lemma BoundaryExamples()
    ensures GlasgowEstimator(115.999) == 3
    ensures GlasgowEstimator(116.0) == 4
    ensures GlasgowEstimator(724.999) == 14
    ensures GlasgowEstimator(725.0) == 15
    ensures GlasgowEstimator(1000.0) == 15
    ensures GlasgowEstimator(-5.0) == 3
  {
  }

  /** There is no upper clamp: the table's heading "725-943" notwithstanding, every
      flow from 725 up scores 15. */
  lemma NoUpperClamp(cbf: real)
    requires cbf >= 725.0
    ensures GlasgowEstimator(cbf) == MaxScore
  {
  }

  /** Injury classes of the Glasgow Coma Scale. */
  datatype Severity = Severe | Moderate | Mild

  /** Severe below 9, moderate from 9 to 12, mild above 12. */
  function Classify(score: int): (s: Severity)
    ensures s == Severe <==> score < 9
    ensures s == Mild <==> score > 12
  {
    if score < 9 then Severe
    else if score <= 12 then Moderate
    else Mild
  }

  /** Severe injury is estimated exactly when the flow is below 290 mL/min. */
  lemma SevereIffLowFlow(cbf: real)
    ensures Classify(GlasgowEstimator(cbf)) == Severe <==> cbf < 290.0
  {
  }

  /** Mild injury is estimated exactly when the flow is at least 580 mL/min. */
  lemma MildIffHighFlow(cbf: real)
    ensures Classify(GlasgowEstimator(cbf)) == Mild <==> cbf >= 580.0
  {
  }

  /** Moderate injury is estimated exactly for flows in [290, 580). */
  lemma ModerateIffMidFlow(cbf: real)
    ensures Classify(GlasgowEstimator(cbf)) == Moderate <==> 290.0 <= cbf < 580.0
  {
  }
}
