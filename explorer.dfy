/**
 * The Explorer: a Gaussian exploration policy over the action vector whose
 * standard deviation is learned from the signal features through the weight
 * matrix theta_std.
 *
 * numpy's exp is the parameter `exp`; np.random.normal(loc=mean, scale=std)
 * is mean + std * noise with the standard-normal draws `noise` as an input.
 */
module Explorers {
  import opened Enums
  import opened LinearAlgebra

  /** The exception `if std_array < min_std` raises on an array of more than one element. */
  datatype ClampError = AmbiguousTruthValue

  /**
   * The clamp as written: on the 1-by-n std array, `if std_array < min_std`
   * is a truth test of an n-element array. With one action it compares that
   * element and replaces the array by min_std; with no actions the empty
   * array tests false; with two or more numpy raises.
   */
  function ClampAsWritten(std: seq<real>, minStd: real): (r: Result<seq<real>, ClampError>)
    ensures r.Err? <==> |std| >= 2
    ensures r.Ok? ==> |r.value| == |std|
  {
    if |std| >= 2 then Err(AmbiguousTruthValue)
    else if |std| == 1 && std[0] < minStd then Ok([minStd])
    else Ok(std)
  }

  /** The evidently intended clamp: every entry raised to at least min_std. */
  function ClampStd(std: seq<real>, minStd: real): (r: seq<real>)
    ensures |r| == |std|
    ensures forall i :: 0 <= i < |r| ==> r[i] >= minStd && r[i] >= std[i]
    ensures forall i :: 0 <= i < |r| ==> r[i] == std[i] || r[i] == minStd
  {
    seq(|std|, i requires 0 <= i < |std| => if std[i] < minStd then minStd else std[i])
  }

  /** With a single action the clamp as written and the intended clamp agree. */
  lemma ClampAgreesForOneAction(std: seq<real>, minStd: real)
    requires |std| == 1
    ensures ClampAsWritten(std, minStd) == Ok(ClampStd(std, minStd))
  {
    if std[0] >= minStd {
      assert ClampStd(std, minStd) == std;
    } else {
      assert ClampStd(std, minStd) == [minStd];
    }
  }

  /** With two actions the clamp as written raises instead of clamping. */
  lemma ClampAsWrittenFailsForTwoActions()
    ensures ClampAsWritten([0.1, 0.5], 0.3) == Err(AmbiguousTruthValue)
    ensures ClampStd([0.1, 0.5], 0.3) == [0.3, 0.5]
  {
  }

  /** Clamping is idempotent and leaves stds that are already large enough alone. */
  lemma ClampStdIdempotent(std: seq<real>, minStd: real)
    ensures ClampStd(ClampStd(std, minStd), minStd) == ClampStd(std, minStd)
    ensures (forall i :: 0 <= i < |std| ==> std[i] >= minStd) ==> ClampStd(std, minStd) == std
  {
  }

  /**
   * The learning rate after `epoch` epochs of learning_rate_decay: the
   * schedule init / (1 + decay * epoch), which starts at init.
   */
  function DecayedRate(initLearningRate: real, decayRate: real, epoch: int): (r: real)
    requires 1.0 + decayRate * epoch as real != 0.0
    ensures r * (1.0 + decayRate * epoch as real) == initLearningRate
    ensures epoch == 0 ==> r == initLearningRate
  {
    1.0 / (1.0 + decayRate * epoch as real) * initLearningRate
  }

  /** With a positive rate and a positive decay the learning rate strictly falls epoch by epoch. */
  lemma DecayedRateDecreases(initLearningRate: real, decayRate: real, epoch: nat)
    requires initLearningRate > 0.0 && decayRate > 0.0
    ensures 0.0 < DecayedRate(initLearningRate, decayRate, epoch + 1) < DecayedRate(initLearningRate, decayRate, epoch)
  {
    var d0 := 1.0 + decayRate * epoch as real;
    var d1 := 1.0 + decayRate * (epoch + 1) as real;
    assert d1 == d0 + decayRate;
    assert d0 >= 1.0 by { NonNegativeProduct(decayRate, epoch as real); }
    ReciprocalDecreases(initLearningRate, d0, d1);
  }

  lemma ReciprocalDecreases(c: real, d0: real, d1: real)
    requires c > 0.0 && 1.0 <= d0 < d1
    ensures 0.0 < 1.0 / d1 * c < 1.0 / d0 * c
  {
    assert 1.0 / d1 < 1.0 / d0;
  }

  /**
   * The score-function factor of one action for the log-std parameters,
   * reward * ((h - mean)^2 / std^2 - 1): scaled by the variance it is the
   * reward times the excess of the squared deviation over the variance.
   */
  function GradFactor(reward: real, h: real, mean: real, std: real): (g: real)
    requires std != 0.0
    ensures g * Square(std) == reward * (Square(h - mean) - Square(std))
  {
    SquarePositive(std);
    reward * (Square(h - mean) / Square(std) - 1.0)
  }

  /**
   * np.random.normal(loc=mean, scale=std) with the standard-normal draws
   * `noise`: standardising a sample by its own mean and std gives back its draw.
   */
  function GaussianSample(mean: seq<real>, std: seq<real>, noise: seq<real>): (h: seq<real>)
    requires |mean| == |std| == |noise|
    ensures |h| == |mean|
    ensures forall i :: 0 <= i < |h| ==> h[i] == mean[i] + std[i] * noise[i]
    ensures forall i :: 0 <= i < |h| && std[i] != 0.0 ==> (h[i] - mean[i]) / std[i] == noise[i]
  {
    seq(|mean|, i requires 0 <= i < |mean| => mean[i] + std[i] * noise[i])
  }

  class Explorer {
    const featureNum: nat
    const actionNum: nat
    var meanArray: seq<real>
    var stdArray: seq<real>
    const thetaStd: array2<real>
    const initLearningRate: real
    var learningRate: real
    const learning: bool
    const minStd: real
    var hArray: seq<real>

    /** The shapes of the policy's arrays: 1-by-n mean and std, (features * n)-by-n weights. */
    ghost predicate Valid()
      reads this
    {
      && thetaStd.Length0 == featureNum * actionNum && thetaStd.Length1 == actionNum
      && |meanArray| == actionNum && |stdArray| == actionNum
    }

    /** Zero means, unit stds, zero weights, the learning rate at its initial value, no sample yet. */
    constructor (featureNum: nat, actionNum: nat, learning: bool := true,
                 initLearningRate: real := 0.001, minStd: real := 0.3)
      ensures Valid() && fresh(thetaStd)
      ensures this.featureNum == featureNum && this.actionNum == actionNum
      ensures this.learning == learning && this.minStd == minStd
      ensures this.initLearningRate == initLearningRate && learningRate == initLearningRate
      ensures meanArray == seq(actionNum, _ => 0.0) && stdArray == seq(actionNum, _ => 1.0) && hArray == []
      ensures forall i, j :: 0 <= i < thetaStd.Length0 && 0 <= j < thetaStd.Length1 ==> thetaStd[i, j] == 0.0
    {
      this.featureNum := featureNum;
      this.actionNum := actionNum;
      meanArray := seq(actionNum, _ => 0.0);
      stdArray := seq(actionNum, _ => 1.0);
      thetaStd := new real[featureNum * actionNum, actionNum]((i, j) => 0.0);
      this.initLearningRate := initLearningRate;
      learningRate := initLearningRate;
      this.learning := learning;
      this.minStd := minStd;
      hArray := [];
    }

    /** set_parameters: the given mean and a std of `fixedStd` for every action; nothing else changes. */
    method SetParameters(meanArray: seq<real>, fixedStd: real)
      requires Valid() && |meanArray| == actionNum
      modifies this
      ensures Valid()
      ensures this.meanArray == meanArray && stdArray == seq(actionNum, _ => fixedStd)
      ensures learningRate == old(learningRate) && hArray == old(hArray)
    {
      this.meanArray := meanArray;
      stdArray := seq(actionNum, _ => fixedStd);
    }

    /** learning_rate_decay: sets and returns init / (1 + decay * epoch). */
    method LearningRateDecay(epoch: int, decayRate: real) returns (lr: real)
      requires Valid() && 1.0 + decayRate * epoch as real != 0.0
      modifies this
      ensures Valid()
      ensures lr == learningRate == DecayedRate(initLearningRate, decayRate, epoch)
      ensures meanArray == old(meanArray) && stdArray == old(stdArray) && hArray == old(hArray)
    {
      learningRate := 1.0 / (1.0 + decayRate * epoch as real) * initLearningRate;
      lr := learningRate;
    }

    /**
     * report: when learning, std = exp(signal . theta_std) clamped to at least
     * min_std; then the sample h = mean + std * noise, kept for update.
     */
    method Report(signalArray: seq<real>, exp: real -> real, noise: seq<real>) returns (h: seq<real>)
      requires Valid() && |noise| == actionNum
      requires learning ==> |signalArray| == thetaStd.Length0
      requires !learning ==> forall i :: 0 <= i < |stdArray| ==> stdArray[i] >= 0.0
      modifies this
      ensures Valid()
      ensures learning ==> stdArray == ClampStd(Apply(exp, VecMat(signalArray, thetaStd)), minStd)
      ensures learning ==> forall i :: 0 <= i < |stdArray| ==> stdArray[i] >= minStd
      ensures !learning ==> stdArray == old(stdArray)
      ensures h == hArray == GaussianSample(meanArray, stdArray, noise) && |h| == actionNum
      ensures meanArray == old(meanArray) && learningRate == old(learningRate)
    {
      if learning {
        stdArray := ClampStd(Apply(exp, VecMat(signalArray, thetaStd)), minStd);
      }
      hArray := GaussianSample(meanArray, stdArray, noise);
      h := hArray;
    }

    /**
     * update: when learning, theta_std += learning_rate * gradient, where the
     * gradient is the outer product of the signal features with the
     * per-action factors reward * ((h - mean)^2 / std^2 - 1); otherwise nothing changes.
     */
    method Update(reward: seq<real>, signalArray: seq<real>)
      requires Valid()
      requires learning ==> |reward| == actionNum && |signalArray| == thetaStd.Length0 && |hArray| == actionNum
      requires learning ==> forall j :: 0 <= j < actionNum ==> stdArray[j] != 0.0
      modifies thetaStd
      ensures !learning ==> forall i, j :: 0 <= i < thetaStd.Length0 && 0 <= j < thetaStd.Length1 ==>
                thetaStd[i, j] == old(thetaStd[i, j])
      ensures learning ==> forall i, j :: 0 <= i < thetaStd.Length0 && 0 <= j < thetaStd.Length1 ==>
                thetaStd[i, j] == old(thetaStd[i, j])
                  + learningRate * (signalArray[i] * GradFactor(reward[j], hArray[j], meanArray[j], stdArray[j]))
    {
      if learning {
        forall i, j | 0 <= i < thetaStd.Length0 && 0 <= j < thetaStd.Length1 {
          thetaStd[i, j] := thetaStd[i, j]
            + learningRate * (signalArray[i] * GradFactor(reward[j], hArray[j], meanArray[j], stdArray[j]));
        }
      }
    }
  }

  /**
   * The direction of the std update: a rewarded sample farther than one std
   * from the mean raises the log-std weights of active features, a closer one lowers them.
   */
  lemma GradFactorSign(reward: real, h: real, mean: real, std: real)
    requires std != 0.0 && reward > 0.0
    ensures GradFactor(reward, h, mean, std) > 0.0 <==> Square(h - mean) > Square(std)
    ensures GradFactor(reward, h, mean, std) == 0.0 <==> Square(h - mean) == Square(std)
  {
    var u, v := Square(h - mean), Square(std);
    SquarePositive(std);
    RatioAboveOne(u, v);
    SignOfScaled(reward, u / v - 1.0);
  }

  lemma RatioAboveOne(u: real, v: real)
    requires v > 0.0
    ensures u / v - 1.0 > 0.0 <==> u > v
    ensures u / v - 1.0 == 0.0 <==> u == v
  {
    assert (u / v) * v == u;
  }

  lemma SignOfScaled(r: real, x: real)
    requires r > 0.0
    ensures r * x > 0.0 <==> x > 0.0
    ensures r * x == 0.0 <==> x == 0.0
  {
  }
}
