/**
 * A decision market: one prediction market per option, and the rule that
 * picks which option's market pays out.
 */
module DecisionMarkets {
  import opened Enums
  import opened LinearAlgebra
  import opened Ranking
  import opened PredictionMarkets
  import opened Buckets

  class DecisionMarket {
    const conditionalMarketNum: int
    const conditionalMarketList: seq<PredictionMarket>
    const preferredColour: BucketColour
    const decisionRule: DecisionRule
    const preferredColourPrList: seq<real>

    /** Market k of the list is numbered k, the markets are distinct objects, and each is valid. */
    ghost predicate Valid()
      reads this, conditionalMarketList
    {
      && (forall k :: 0 <= k < |conditionalMarketList| ==>
            conditionalMarketList[k].no == k && conditionalMarketList[k].Valid())
      && (forall i, j :: 0 <= i < j < |conditionalMarketList| ==> conditionalMarketList[i] != conditionalMarketList[j])
    }

    /** One market per pair of zip(range(action_num), prior_red_instances), numbered by position. */
    constructor (actionNum: int, priorRedInstances: seq<real>, decisionRule: DecisionRule,
                 preferredColour: BucketColour, preferredColourPrList: seq<real>)
      ensures Valid()
      ensures conditionalMarketNum == actionNum
      ensures |conditionalMarketList| == (if actionNum <= 0 then 0 else Min(actionNum, |priorRedInstances|))
      ensures forall k :: 0 <= k < |conditionalMarketList| ==>
                && conditionalMarketList[k].currentPrediction == priorRedInstances[k]
                && conditionalMarketList[k].sampledPredictionHistory == [priorRedInstances[k]]
                && conditionalMarketList[k].meanPredictionHistory == [priorRedInstances[k]]
      ensures this.decisionRule == decisionRule && this.preferredColour == preferredColour
      ensures this.preferredColourPrList == preferredColourPrList
      ensures forall k :: 0 <= k < |conditionalMarketList| ==> fresh(conditionalMarketList[k])
    {
      var n := if actionNum <= 0 then 0 else Min(actionNum, |priorRedInstances|);
      var markets: seq<PredictionMarket> := [];
      for no := 0 to n
        invariant |markets| == no
        invariant forall k :: 0 <= k < no ==>
                    && markets[k].no == k && markets[k].Valid()
                    && markets[k].currentPrediction == priorRedInstances[k]
                    && markets[k].sampledPredictionHistory == [priorRedInstances[k]]
                    && markets[k].meanPredictionHistory == [priorRedInstances[k]]
        invariant forall i, j :: 0 <= i < j < no ==> markets[i] != markets[j]
        invariant forall k :: 0 <= k < no ==> fresh(markets[k])
      {
        var pm := new PredictionMarket(no, priorRedInstances[no]);
        markets := markets + [pm];
      }
      conditionalMarketNum := actionNum;
      conditionalMarketList := markets;
      this.preferredColour := preferredColour;
      this.decisionRule := decisionRule;
      this.preferredColourPrList := preferredColourPrList;
    }

    /** read_current_pred: the current prediction of each market, in list order. */
    function ReadCurrentPred(): (r: seq<real>)
      reads this, conditionalMarketList
      ensures |r| == |conditionalMarketList|
      ensures forall k :: 0 <= k < |r| ==> r[k] == conditionalMarketList[k].currentPrediction
    {
      seq(|conditionalMarketList|, k reads conditionalMarketList requires 0 <= k < |conditionalMarketList| =>
        conditionalMarketList[k].currentPrediction)
    }

    /**
     * report: zip stops at the shortest of the market list and the two
     * (already squeezed) report vectors; each market in that prefix records
     * its pair of reports, and the others are left as they were.
     */
    method Report(sampledPredictions: seq<real>, meanPredictions: seq<real>)
      requires Valid()
      modifies conditionalMarketList
      ensures Valid()
      ensures forall k :: 0 <= k < |conditionalMarketList| ==>
                var pm := conditionalMarketList[k];
                if k < |sampledPredictions| && k < |meanPredictions| then
                  && pm.sampledPredictionHistory == old(pm.sampledPredictionHistory) + [sampledPredictions[k]]
                  && pm.meanPredictionHistory == old(pm.meanPredictionHistory) + [meanPredictions[k]]
                  && pm.currentPrediction == meanPredictions[k]
                else
                  && pm.sampledPredictionHistory == old(pm.sampledPredictionHistory)
                  && pm.meanPredictionHistory == old(pm.meanPredictionHistory)
                  && pm.currentPrediction == old(pm.currentPrediction)
    {
      var n := Min(Min(|conditionalMarketList|, |sampledPredictions|), |meanPredictions|);
      for i := 0 to n
        invariant Valid()
        invariant forall k :: 0 <= k < i ==>
                    var pm := conditionalMarketList[k];
                    && pm.sampledPredictionHistory == old(pm.sampledPredictionHistory) + [sampledPredictions[k]]
                    && pm.meanPredictionHistory == old(pm.meanPredictionHistory) + [meanPredictions[k]]
                    && pm.currentPrediction == meanPredictions[k]
        invariant forall k :: i <= k < |conditionalMarketList| ==>
                    var pm := conditionalMarketList[k];
                    && pm.sampledPredictionHistory == old(pm.sampledPredictionHistory)
                    && pm.meanPredictionHistory == old(pm.meanPredictionHistory)
                    && pm.currentPrediction == old(pm.currentPrediction)
      {
        conditionalMarketList[i].Report(sampledPredictions[i], meanPredictions[i]);
      }
    }

    /** The market position the resolution picks, given the rank the stochastic draw chose. */
    function ChosenMarket(rank: nat): nat
      reads this, conditionalMarketList
      requires |conditionalMarketList| > 0
      requires !(decisionRule == Deterministic || conditionalMarketNum == 1) ==> rank < |conditionalMarketList|
    {
      if decisionRule == Deterministic || conditionalMarketNum == 1 then FirstArgmax(ReadCurrentPred())
      else SortedMarketOrder(ReadCurrentPred())[rank]
    }

    /**
     * resolve. Under the deterministic rule, or with a single market, the
     * market with the first maximal current prediction pays its scores.
     * Otherwise the markets are sorted by current prediction (stable,
     * descending), zip pairs preferred_colour_pr_list with the first of them,
     * `rank` is the position that generator.choice drew from those pairs with
     * probabilities preferred_colour_pr_list, and that market pays its scores
     * divided by the probability of its rank. The materialised outcome is the
     * colour of the bucket with the chosen market's number.
     */
    method Resolve(scoreFunc: ScoreFunction, buckets: seq<Bucket>, rank: nat, expit: real -> real, ln: real -> real)
      returns (rewardArray: seq<real>, index: nat)
      requires Valid() && |conditionalMarketList| > 0
      requires !(decisionRule == Deterministic || conditionalMarketNum == 1) ==>
                 && |preferredColourPrList| <= |conditionalMarketList|
                 && (forall r :: 0 <= r < |preferredColourPrList| ==> preferredColourPrList[r] >= 0.0)
                 && Sum(preferredColourPrList) == 1.0
                 && rank < |preferredColourPrList| && preferredColourPrList[rank] > 0.0
      requires ChosenMarket(rank) < |buckets|
      ensures index < |conditionalMarketList| && index < |buckets|
      ensures decisionRule == Deterministic || conditionalMarketNum == 1 ==>
                && index == FirstArgmax(ReadCurrentPred())
                && rewardArray == ScoreDifferences(scoreFunc, expit, ln,
                     conditionalMarketList[index].sampledPredictionHistory,
                     conditionalMarketList[index].meanPredictionHistory, buckets[index].colour.Value())
      ensures !(decisionRule == Deterministic || conditionalMarketNum == 1) ==>
                && index == SortedMarketOrder(ReadCurrentPred())[rank]
                && rewardArray == Divide(ScoreDifferences(scoreFunc, expit, ln,
                     conditionalMarketList[index].sampledPredictionHistory,
                     conditionalMarketList[index].meanPredictionHistory, buckets[index].colour.Value()),
                     preferredColourPrList[rank])
    {
      var conditionalMarket: PredictionMarket;
      var bucket: Bucket;
      if decisionRule == Deterministic || conditionalMarketNum == 1 {
        var currentPriceList := ReadCurrentPred();
        index := FirstArgmax(currentPriceList);
        conditionalMarket, bucket := conditionalMarketList[index], buckets[index];
        rewardArray := conditionalMarket.Resolve(scoreFunc, bucket.colour.Value(), expit, ln);
      } else {
        var sortedMarketOrder := SortedMarketOrder(ReadCurrentPred());
        var pr := preferredColourPrList[rank];
        conditionalMarket := conditionalMarketList[sortedMarketOrder[rank]];
        index := conditionalMarket.no;
        bucket := buckets[index];
        var scores := conditionalMarket.Resolve(scoreFunc, bucket.colour.Value(), expit, ln);
        rewardArray := Divide(scores, pr);
      }
    }
  }

  /**
   * One round with the deterministic rule: two new markets at priors 0.75 and
   * 0.25 take the reports 0.6 and 0.3; resolution then pays the first market,
   * whose current prediction is the larger, at its bucket's colour.
   */
  method DeterministicRoundExample(expit: real -> real, ln: real -> real)
    returns (rewardArray: seq<real>, index: nat)
    ensures index == 0
    ensures |rewardArray| == 1
  {
    var dm := new DecisionMarket(2, [0.75, 0.25], Deterministic, RedBucket, [0.8, 0.2]);
    dm.Report([0.6, 0.3], [0.6, 0.3]);
    assert dm.ReadCurrentPred() == [0.6, 0.3];
    var buckets := [Bucket(0, 0.75, 0.7, 0.3, RedBucket), Bucket(1, 0.25, 0.7, 0.3, BlueBucket)];
    rewardArray, index := dm.Resolve(Quadratic, buckets, 0, expit, ln);
  }
}
