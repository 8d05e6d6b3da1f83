/**
 * The Bayesian posterior engine: the closed-form two-hypothesis posterior
 * (analytical_best_report*), the one-entry belief update NaiveBayesOneIter,
 * and the batched log-odds map BayesianUpdateMat.
 */
module Bayes {
  import opened Enums
  import opened LinearAlgebra

  /** Probability of the observed ball under an urn whose red-ball probability is `prRed`. */
  function Likelihood(ball: Ball, prRed: real): real
  {
    match ball
    case Red => prRed
    case Blue => 1.0 - prRed
  }

  /**
   * Joint-distribution posterior of the red urn: both analytical_best_report_ru_rs
   * and analytical_best_report_ru_bs compute this from the likelihoods of the
   * observed ball under the red and the blue urn. It satisfies Bayes' theorem:
   * posterior times evidence is prior times likelihood.
   */
  function PosteriorRedUrn(prRu: real, likelihoodRu: real, likelihoodBu: real): (r: real)
    requires prRu * likelihoodRu + (1.0 - prRu) * likelihoodBu != 0.0
    ensures r * Evidence(prRu, likelihoodRu, likelihoodBu) == prRu * likelihoodRu
  {
    var jointRu := prRu * likelihoodRu;
    var jointBu := (1.0 - prRu) * likelihoodBu;
    jointRu / (jointRu + jointBu)
  }

  /** The evidence term: the probability of the ball with the prior mixed over both urns. */
  function Evidence(prRu: real, likelihoodRu: real, likelihoodBu: real): real
  {
    prRu * likelihoodRu + (1.0 - prRu) * likelihoodBu
  }

  /**
   * analytical_best_report: the optimal report for one bucket after one ball,
   * the posterior of the red urn given the ball's likelihood under either urn.
   */
  function AnalyticalBestReport(bucketNo: nat, ballColour: Ball, currentPrediction: seq<real>,
                                prRedBallRedBucket: real, prRedBallBlueBucket: real): (r: real)
    requires bucketNo < |currentPrediction|
    requires Evidence(currentPrediction[bucketNo], Likelihood(ballColour, prRedBallRedBucket),
                      Likelihood(ballColour, prRedBallBlueBucket)) != 0.0
    ensures r * Evidence(currentPrediction[bucketNo], Likelihood(ballColour, prRedBallRedBucket),
                         Likelihood(ballColour, prRedBallBlueBucket))
            == currentPrediction[bucketNo] * Likelihood(ballColour, prRedBallRedBucket)
  {
    match ballColour
    case Red => PosteriorRedUrn(currentPrediction[bucketNo], prRedBallRedBucket, prRedBallBlueBucket)
    case Blue => PosteriorRedUrn(currentPrediction[bucketNo], 1.0 - prRedBallRedBucket, 1.0 - prRedBallBlueBucket)
  }

  /** With probabilities as inputs the posterior is a probability. */
  lemma PosteriorIsProbability(prRu: real, lRu: real, lBu: real)
    requires 0.0 <= prRu <= 1.0 && 0.0 <= lRu && 0.0 <= lBu
    requires Evidence(prRu, lRu, lBu) != 0.0
    ensures 0.0 <= PosteriorRedUrn(prRu, lRu, lBu) <= 1.0
  {
    NonNegativeProduct(prRu, lRu);
    NonNegativeProduct(1.0 - prRu, lBu);
    ShareInUnit(prRu * lRu, (1.0 - prRu) * lBu);
  }

  /** The share x / (x + y) of two nonnegative amounts lies in [0, 1]. */
  lemma ShareInUnit(x: real, y: real)
    requires x >= 0.0 && y >= 0.0 && x + y != 0.0
    ensures 0.0 <= x / (x + y) <= 1.0
  {
    assert x / (x + y) * (x + y) == x;
  }

  /**
   * A ball that is likelier under the red urn raises the belief in it, one that
   * is likelier under the blue urn lowers it, and an uninformative ball leaves
   * it unchanged.
   */
  lemma PosteriorMovesWithEvidence(prRu: real, lRu: real, lBu: real)
    requires 0.0 < prRu < 1.0 && 0.0 <= lRu && 0.0 <= lBu
    requires Evidence(prRu, lRu, lBu) != 0.0
    ensures lRu > lBu ==> PosteriorRedUrn(prRu, lRu, lBu) > prRu
    ensures lRu < lBu ==> PosteriorRedUrn(prRu, lRu, lBu) < prRu
    ensures lRu == lBu ==> PosteriorRedUrn(prRu, lRu, lBu) == prRu
  {
    var e := Evidence(prRu, lRu, lBu);
    var r := PosteriorRedUrn(prRu, lRu, lBu);
    EvidenceIsPositive(prRu, lRu, lBu);
    ShiftIdentity(r, prRu, e, lRu, lBu);
    SignOfShift(r, prRu, e, lRu - lBu);
  }

  lemma EvidenceIsPositive(p: real, lRu: real, lBu: real)
    requires 0.0 <= p <= 1.0 && 0.0 <= lRu && 0.0 <= lBu && Evidence(p, lRu, lBu) != 0.0
    ensures Evidence(p, lRu, lBu) > 0.0
  {
    assert p * lRu >= 0.0 && (1.0 - p) * lBu >= 0.0;
  }

  /** The sign of the shift r - p follows the sign of d when (r - p) * e == p * (1 - p) * d. */
  lemma SignOfShift(r: real, p: real, e: real, d: real)
    requires e > 0.0 && 0.0 < p < 1.0 && (r - p) * e == p * (1.0 - p) * d
    ensures d > 0.0 ==> r > p
    ensures d < 0.0 ==> r < p
    ensures d == 0.0 ==> r == p
  {
    var spread := p * (1.0 - p);
    assert spread > 0.0;
    if d > 0.0 {
      PositiveFactor(spread, d, r - p, e);
    } else if d < 0.0 {
      PositiveFactor(spread, -d, p - r, e);
    }
  }

  /** The shift of the posterior away from the prior, scaled by the evidence. */
  lemma ShiftIdentity(r: real, p: real, e: real, lRu: real, lBu: real)
    requires r * e == p * lRu && e == p * lRu + (1.0 - p) * lBu
    ensures (r - p) * e == p * (1.0 - p) * (lRu - lBu)
  {
    calc {
      (r - p) * e;
      r * e - p * e;
      p * lRu - p * (p * lRu + (1.0 - p) * lBu);
      p * lRu - p * p * lRu - p * (1.0 - p) * lBu;
      p * (1.0 - p) * lRu - p * (1.0 - p) * lBu;
    }
  }

  /** If x * y equals u * v with x, y, v positive, then u is positive. */
  lemma PositiveFactor(x: real, y: real, u: real, v: real)
    requires x > 0.0 && y > 0.0 && v > 0.0 && u * v == x * y
    ensures u > 0.0
  {
    assert x * y > 0.0;
  }

  /**
   * Conservation of expected evidence: averaged over the two balls, with the
   * probabilities the bucket model gives them, the posterior equals the prior.
   */
  lemma ExpectedPosteriorIsPrior(prRu: real, prRsRu: real, prRsBu: real)
    requires Evidence(prRu, Likelihood(Ball.Red, prRsRu), Likelihood(Ball.Red, prRsBu)) != 0.0
    requires Evidence(prRu, Likelihood(Ball.Blue, prRsRu), Likelihood(Ball.Blue, prRsBu)) != 0.0
    ensures Evidence(prRu, prRsRu, prRsBu) * AnalyticalBestReport(0, Ball.Red, [prRu], prRsRu, prRsBu)
          + Evidence(prRu, 1.0 - prRsRu, 1.0 - prRsBu) * AnalyticalBestReport(0, Ball.Blue, [prRu], prRsRu, prRsBu)
          == prRu
  {
  }

  /** The odds of a belief. */
  function Odds(p: real): real
    requires p != 1.0
  {
    p / (1.0 - p)
  }

  /** In odds form one update multiplies the prior odds by the likelihood ratio. */
  lemma PosteriorOdds(prRu: real, lRu: real, lBu: real)
    requires 0.0 < prRu < 1.0 && 0.0 < lRu && 0.0 < lBu
    ensures Evidence(prRu, lRu, lBu) > 0.0
    ensures PosteriorRedUrn(prRu, lRu, lBu) < 1.0
    ensures Odds(PosteriorRedUrn(prRu, lRu, lBu)) == Odds(prRu) * (lRu / lBu)
  {
    PositiveProduct(prRu, lRu);
    PositiveProduct(1.0 - prRu, lBu);
    OddsOfShare(prRu * lRu, (1.0 - prRu) * lBu);
    QuotientOfProducts(prRu, lRu, 1.0 - prRu, lBu);
  }

  /** The share x / (x + y) of two positive amounts has odds x / y. */
  lemma OddsOfShare(x: real, y: real)
    requires x > 0.0 && y > 0.0
    ensures x / (x + y) < 1.0
    ensures Odds(x / (x + y)) == x / y
  {
    var r := x / (x + y);
    assert r * (x + y) == x;
    assert (1.0 - r) * (x + y) == y;
  }

  lemma QuotientOfProducts(a: real, b: real, c: real, d: real)
    requires c != 0.0 && d != 0.0
    ensures (a * b) / (c * d) == (a / c) * (b / d)
  {
  }

  /** The worked example: prior 3/4, likelihoods 2/3 and 1/3, one ball on bucket 0. */
  lemma AnalyticalBestReportExample()
    ensures AnalyticalBestReport(0, Ball.Red, [0.75, 0.25], 2.0 / 3.0, 1.0 / 3.0) == 6.0 / 7.0
    ensures AnalyticalBestReport(0, Ball.Blue, [0.75, 0.25], 2.0 / 3.0, 1.0 / 3.0) == 3.0 / 5.0
  {
  }

  /**
   * NaiveBayesOneIter: copy the prior and overwrite the entry of the observed
   * bucket with its posterior; every other entry keeps its prior value.
   */
  method NaiveBayesOneIter(prior: seq<real>, signal: Ball, bucketNo: nat, prRsRu: real, prRsBu: real)
    returns (posterior: seq<real>)
    requires bucketNo < |prior|
    requires Evidence(prior[bucketNo], Likelihood(signal, prRsRu), Likelihood(signal, prRsBu)) != 0.0
    ensures |posterior| == |prior|
    ensures forall j :: 0 <= j < |prior| && j != bucketNo ==> posterior[j] == prior[j]
    ensures posterior[bucketNo] == AnalyticalBestReport(bucketNo, signal, prior, prRsRu, prRsBu)
  {
    var p := prior[bucketNo];
    var updated: real;
    if signal == Red {
      updated := p * prRsRu / (p * prRsRu + (1.0 - p) * prRsBu);
    } else {
      updated := p * (1.0 - prRsRu) / (p * (1.0 - prRsRu) + (1.0 - p) * (1.0 - prRsBu));
    }
    assert updated == AnalyticalBestReport(bucketNo, signal, prior, prRsRu, prRsBu);
    var post := new real[|prior|](i requires 0 <= i < |prior| => prior[i]);
    post[bucketNo] := updated;
    posterior := post[..];
  }

  /** The cell of the sparse 3n-by-n matrix of BayesianUpdateMat at row i and column j. */
  function ThetaCell(i: nat, j: nat, a: real, b: real): real
  {
    if i / 3 != j then 0.0
    else if i % 3 == 0 then a
    else if i % 3 == 1 then b
    else 1.0
  }

  /** Only the three rows 3k, 3k+1, 3k+2 contribute to column k of the product. */
  lemma {:induction false} DotSparseColumn(s: seq<real>, theta: array2<real>, k: nat, len: nat, a: real, b: real)
    requires |s| == theta.Length0 && k < theta.Length1 && len <= |s|
    requires forall i, j :: 0 <= i < theta.Length0 && 0 <= j < theta.Length1 ==> theta[i, j] == ThetaCell(i, j, a, b)
    ensures DotColumn(s, theta, k, len)
         == (if 3 * k < len then s[3 * k] * a else 0.0)
          + (if 3 * k + 1 < len then s[3 * k + 1] * b else 0.0)
          + (if 3 * k + 2 < len then s[3 * k + 2] else 0.0)
  {
    if len > 0 {
      DotSparseColumn(s, theta, k, len - 1, a, b);
      var i := len - 1;
      if i < 3 * k || i > 3 * k + 2 {
        assert i / 3 != k;
        assert theta[i, k] == 0.0;
      } else {
        assert i / 3 == k;
      }
    }
  }

  /**
   * The matrix of BayesianUpdateMat, filled as the source fills it: zeros, then
   * one slice assignment per row class (the passthrough row 3k+2 first).
   */
  method BuildTheta(actionNum: nat, a: real, b: real) returns (theta: array2<real>)
    ensures fresh(theta)
    ensures theta.Length0 == 3 * actionNum && theta.Length1 == actionNum
    ensures forall i, j :: 0 <= i < 3 * actionNum && 0 <= j < actionNum ==> theta[i, j] == ThetaCell(i, j, a, b)
  {
    theta := new real[3 * actionNum, actionNum]((i, j) => 0.0);
    forall i, j | 0 <= i < 3 * actionNum && 0 <= j < actionNum && i / 3 == j && i % 3 == 2 {
      theta[i, j] := 1.0;
    }
    forall i, j | 0 <= i < 3 * actionNum && 0 <= j < actionNum && i / 3 == j && i % 3 == 0 {
      theta[i, j] := a;
    }
    forall i, j | 0 <= i < 3 * actionNum && 0 <= j < actionNum && i / 3 == j && i % 3 == 1 {
      theta[i, j] := b;
    }
  }

  /**
   * BayesianUpdateMat: builds the sparse 3n-by-n matrix whose column k holds
   * log(p) - log(q), log(1-p) - log(1-q) and 1 in rows 3k, 3k+1, 3k+2, and
   * multiplies the signal row vector by it. `ln` stands for numpy's log.
   */
  method BayesianUpdateMat(signalMat: seq<real>, prRsRu: real, prRsBu: real, ln: real -> real)
    returns (logitPos: seq<real>)
    requires |signalMat| % 3 == 0
    ensures |logitPos| == |signalMat| / 3
    ensures forall k :: 0 <= k < |logitPos| ==>
              logitPos[k] == signalMat[3 * k] * (ln(prRsRu) - ln(prRsBu))
                           + signalMat[3 * k + 1] * (ln(1.0 - prRsRu) - ln(1.0 - prRsBu))
                           + signalMat[3 * k + 2]
  {
    var actionNum := |signalMat| / 3;
    var a, b := ln(prRsRu) - ln(prRsBu), ln(1.0 - prRsRu) - ln(1.0 - prRsBu);
    var theta := BuildTheta(actionNum, a, b);
    logitPos := VecMat(signalMat, theta);
    forall k | 0 <= k < actionNum
      ensures logitPos[k] == signalMat[3 * k] * a + signalMat[3 * k + 1] * b + signalMat[3 * k + 2]
    {
      DotSparseColumn(signalMat, theta, k, |signalMat|, a, b);
    }
  }

  /**
   * The batched map agrees with the one-step update in log-odds space: a
   * bucket's signal slots holding one ball and the logit of its prior are
   * mapped by the entry formula of BayesianUpdateMat to the logit of the
   * posterior analytical_best_report gives. `ln` need only turn the two
   * products involved into sums.
   */
  lemma BatchedUpdateAgreesWithOneStep(prior: real, ball: Ball, prRsRu: real, prRsBu: real, ln: real -> real)
    requires 0.0 < prior < 1.0 && 0.0 < prRsRu < 1.0 && 0.0 < prRsBu < 1.0
    requires var ratio := Likelihood(ball, prRsRu) / Likelihood(ball, prRsBu);
             && ln(Odds(prior) * ratio) == ln(Odds(prior)) + ln(ratio)
             && ln(ratio) == ln(Likelihood(ball, prRsRu)) - ln(Likelihood(ball, prRsBu))
    ensures Evidence(prior, Likelihood(ball, prRsRu), Likelihood(ball, prRsBu)) > 0.0
    ensures AnalyticalBestReport(0, ball, [prior], prRsRu, prRsBu) < 1.0
    ensures var signal := if ball == Red then [1.0, 0.0, ln(Odds(prior))] else [0.0, 1.0, ln(Odds(prior))];
            signal[0] * (ln(prRsRu) - ln(prRsBu)) + signal[1] * (ln(1.0 - prRsRu) - ln(1.0 - prRsBu)) + signal[2]
            == ln(Odds(AnalyticalBestReport(0, ball, [prior], prRsRu, prRsBu)))
  {
    PosteriorOdds(prior, Likelihood(ball, prRsRu), Likelihood(ball, prRsBu));
  }
}
