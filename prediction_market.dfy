/**
 * One conditional prediction market: two append-only report histories (the
 * sampled reports and the mean reports, to whose entries expit is applied
 * at resolution) and the current
 * prediction, resolved into per-report score differences under the
 * logarithmic or the quadratic scoring rule.
 *
 * `expit` and `ln` stand for scipy's expit and numpy's log; they are
 * parameters because the model has no transcendental functions.
 */
module PredictionMarkets {
  import opened Enums
  import opened LinearAlgebra

  /** The probability pair [p, 1 - p] over the outcomes RED (0) and BLUE (1). */
  function Pair(p: real): seq<real>
  {
    [p, 1.0 - p]
  }

  /**
   * The quadratic (Brier) score of the pair of `p` at the materialised
   * outcome: one half minus the squared error of the probability the pair
   * gave the outcome that happened.
   */
  function QuadraticScore(p: real, outcome: nat): (r: real)
    requires outcome < 2
    ensures r == 0.5 - Square(1.0 - Pair(p)[outcome])
  {
    var t := Pair(p);
    t[outcome] - (t[0] * t[0] + t[1] * t[1]) / 2.0
  }

  /** The score a history entry `x`, to which expit is applied, earns at `outcome` under `rule`. */
  function ScoreOf(rule: ScoreFunction, expit: real -> real, ln: real -> real, x: real, outcome: nat): real
    requires outcome < 2
  {
    match rule
    case Log => ln(Pair(expit(x))[outcome])
    case Quadratic => QuadraticScore(expit(x), outcome)
  }

  /**
   * The score list of a market: entry i rewards report i + 1 by its sampled
   * report's score minus the score of the mean report before it.
   */
  function ScoreDifferences(rule: ScoreFunction, expit: real -> real, ln: real -> real,
                            sampled: seq<real>, mean: seq<real>, outcome: nat): (r: seq<real>)
    requires outcome < 2
    requires |sampled| >= 1 && |mean| >= |sampled| - 1
    ensures |r| == |sampled| - 1
  {
    seq(|sampled| - 1, i requires 0 <= i < |sampled| - 1 =>
      ScoreOf(rule, expit, ln, sampled[i + 1], outcome) - ScoreOf(rule, expit, ln, mean[i], outcome))
  }

  class PredictionMarket {
    const no: int
    var currentPrediction: real
    var sampledPredictionHistory: seq<real>
    var meanPredictionHistory: seq<real>

    /** Both histories start with the prior, grow together, and the last mean report is current. */
    ghost predicate Valid()
      reads this
    {
      && |sampledPredictionHistory| == |meanPredictionHistory| >= 1
      && sampledPredictionHistory[0] == meanPredictionHistory[0]
      && currentPrediction == meanPredictionHistory[|meanPredictionHistory| - 1]
    }

    constructor (no: int, priorRed: real)
      ensures Valid()
      ensures this.no == no && currentPrediction == priorRed
      ensures sampledPredictionHistory == [priorRed] && meanPredictionHistory == [priorRed]
    {
      this.no := no;
      currentPrediction := priorRed;
      sampledPredictionHistory := [priorRed];
      meanPredictionHistory := [priorRed];
    }

    /** Records one trader's report: one entry on each history, and the mean becomes current. */
    method Report(sampledPrediction: real, meanPrediction: real)
      requires Valid()
      modifies this
      ensures Valid()
      ensures sampledPredictionHistory == old(sampledPredictionHistory) + [sampledPrediction]
      ensures meanPredictionHistory == old(meanPredictionHistory) + [meanPrediction]
      ensures currentPrediction == meanPrediction
    {
      sampledPredictionHistory := sampledPredictionHistory + [sampledPrediction];
      meanPredictionHistory := meanPredictionHistory + [meanPrediction];
      currentPrediction := meanPrediction;
    }

    /** log_resolve: per report, log of the new probability pair minus log of the previous one, at the outcome. */
    method LogResolve(materialisedIndex: nat, expit: real -> real, ln: real -> real) returns (scores: seq<real>)
      requires Valid() && materialisedIndex < 2
      ensures scores == ScoreDifferences(Log, expit, ln, sampledPredictionHistory, meanPredictionHistory, materialisedIndex)
    {
      var spec := ScoreDifferences(Log, expit, ln, sampledPredictionHistory, meanPredictionHistory, materialisedIndex);
      var scoreList: seq<real> := [];
      for i := 0 to |sampledPredictionHistory| - 1
        invariant scoreList == spec[..i]
      {
        var currentProb := expit(sampledPredictionHistory[i + 1]);
        var currentProbTuple := [currentProb, 1.0 - currentProb];
        var prevProb := expit(meanPredictionHistory[i]);
        var prevProbTuple := [prevProb, 1.0 - prevProb];
        var s := [ln(currentProbTuple[0]) - ln(prevProbTuple[0]), ln(currentProbTuple[1]) - ln(prevProbTuple[1])];
        scoreList := scoreList + [s[materialisedIndex]];
      }
      scores := scoreList;
    }

    /** brier_resolve: per report, the quadratic score of the new pair minus that of the previous one. */
    method BrierResolve(materialisedIndex: nat, expit: real -> real) returns (scores: seq<real>)
      requires Valid() && materialisedIndex < 2
      ensures |scores| == |sampledPredictionHistory| - 1
      ensures forall i :: 0 <= i < |scores| ==>
                scores[i] == QuadraticScore(expit(sampledPredictionHistory[i + 1]), materialisedIndex)
                           - QuadraticScore(expit(meanPredictionHistory[i]), materialisedIndex)
    {
      var scoreList: seq<real> := [];
      for i := 0 to |sampledPredictionHistory| - 1
        invariant |scoreList| == i
        invariant forall j :: 0 <= j < i ==>
                    scoreList[j] == QuadraticScore(expit(sampledPredictionHistory[j + 1]), materialisedIndex)
                                  - QuadraticScore(expit(meanPredictionHistory[j]), materialisedIndex)
      {
        var currentProb := expit(sampledPredictionHistory[i + 1]);
        var currentProbTuple := [currentProb, 1.0 - currentProb];
        var prevProb := expit(meanPredictionHistory[i]);
        var prevProbTuple := [prevProb, 1.0 - prevProb];
        var currentScores := currentProbTuple[materialisedIndex]
                           - (currentProbTuple[0] * currentProbTuple[0] + currentProbTuple[1] * currentProbTuple[1]) / 2.0;
        var previousScores := prevProbTuple[materialisedIndex]
                            - (prevProbTuple[0] * prevProbTuple[0] + prevProbTuple[1] * prevProbTuple[1]) / 2.0;
        assert currentScores == QuadraticScore(currentProb, materialisedIndex);
        assert previousScores == QuadraticScore(prevProb, materialisedIndex);
        scoreList := scoreList + [currentScores - previousScores];
      }
      scores := scoreList;
    }

    /** resolve: dispatches on the scoring rule; the rule type is closed, so no error case remains. */
    method Resolve(scoreFunc: ScoreFunction, materialisedIndex: nat, expit: real -> real, ln: real -> real)
      returns (scores: seq<real>)
      requires Valid() && materialisedIndex < 2
      ensures scores == ScoreDifferences(scoreFunc, expit, ln, sampledPredictionHistory, meanPredictionHistory, materialisedIndex)
    {
      match scoreFunc
      case Log =>
        scores := LogResolve(materialisedIndex, expit, ln);
      case Quadratic =>
        scores := BrierResolve(materialisedIndex, expit);
        ghost var spec := ScoreDifferences(scoreFunc, expit, ln, sampledPredictionHistory, meanPredictionHistory, materialisedIndex);
        assert forall i :: 0 <= i < |scores| ==> scores[i] == spec[i];
    }
  }

  /**
   * When every sampled report is also the mean report, the score differences
   * telescope: their total is the score of the last report minus that of the prior.
   */
  lemma {:induction false} ScoresTelescope(rule: ScoreFunction, expit: real -> real, ln: real -> real,
                                          history: seq<real>, outcome: nat)
    requires outcome < 2 && |history| >= 1
    ensures Sum(ScoreDifferences(rule, expit, ln, history, history, outcome))
         == ScoreOf(rule, expit, ln, history[|history| - 1], outcome) - ScoreOf(rule, expit, ln, history[0], outcome)
  {
    if |history| > 1 {
      var init := history[..|history| - 1];
      var d := ScoreDifferences(rule, expit, ln, history, history, outcome);
      assert d[..|d| - 1] == ScoreDifferences(rule, expit, ln, init, init, outcome);
      ScoresTelescope(rule, expit, ln, init, outcome);
    }
  }

  /** The worked quadratic example: reports [0.8, 0.2] after [0.5, 0.5] at outcome 0 earn 0.21. */
  lemma QuadraticScoreExample()
    ensures QuadraticScore(0.8, 0) - QuadraticScore(0.5, 0) == 0.21
  {
  }

  /** The expected quadratic score of reporting `p` when the outcome is RED with probability `q`. */
  function ExpectedQuadraticScore(p: real, q: real): real
  {
    q * QuadraticScore(p, 0) + (1.0 - q) * QuadraticScore(p, 1)
  }

  /**
   * The quadratic rule is strictly proper: reporting the true probability `q`
   * beats reporting any other `p` in expectation, by exactly (p - q)^2.
   */
  lemma QuadraticIsProper(p: real, q: real)
    ensures ExpectedQuadraticScore(q, q) - ExpectedQuadraticScore(p, q) == Square(p - q)
    ensures p != q ==> ExpectedQuadraticScore(p, q) < ExpectedQuadraticScore(q, q)
  {
    if p != q {
      SquarePositive(p - q);
    }
  }
}
