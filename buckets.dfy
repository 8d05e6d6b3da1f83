/**
 * The signal source: buckets of hidden colour that emit red or blue balls,
 * and the count vectors the environment builds from a batch of draws.
 *
 * Every random draw (a bucket's colour, a ball, the buckets picked for a
 * batch, MultiBuckets' unused random index) is an input of the model.
 */
module Buckets {
  import opened Enums
  import opened LinearAlgebra

  /** The two probabilities of a ball distribution, (red, blue). */
  datatype Distribution = Distribution(red: real, blue: real)

  /** Which constructor argument a failed range check is about. */
  datatype BucketParameter = PriorRed | PrRedBallRedBucket | PrRedBallBlueBucket

  /** The assertion the constructor trips: a parameter below zero or above one. */
  datatype BucketError = Negative(parameter: BucketParameter) | AboveOne(parameter: BucketParameter)

  /** A bucket: its number, its prior of being red, the two red-ball probabilities and its drawn colour. */
  datatype Bucket = Bucket(no: int, priorRed: real, prRedBallRedBucket: real, prRedBallBlueBucket: real,
                           colour: BucketColour)

  /** The first of the six range checks that fails, in the order the constructor makes them. */
  function FirstRangeError(priorRed: real, prRedBallRedBucket: real, prRedBallBlueBucket: real): (e: Option<BucketError>)
    ensures e == None <==> (0.0 <= priorRed <= 1.0 && 0.0 <= prRedBallRedBucket <= 1.0 && 0.0 <= prRedBallBlueBucket <= 1.0)
    ensures e == Some(Negative(PriorRed)) <==> priorRed < 0.0
    ensures e == Some(AboveOne(PriorRed)) <==> 0.0 <= priorRed && priorRed > 1.0
  {
    if priorRed < 0.0 then Some(Negative(PriorRed))
    else if priorRed > 1.0 then Some(AboveOne(PriorRed))
    else if prRedBallRedBucket < 0.0 then Some(Negative(PrRedBallRedBucket))
    else if prRedBallRedBucket > 1.0 then Some(AboveOne(PrRedBallRedBucket))
    else if prRedBallBlueBucket < 0.0 then Some(Negative(PrRedBallBlueBucket))
    else if prRedBallBlueBucket > 1.0 then Some(AboveOne(PrRedBallBlueBucket))
    else None
  }

  /**
   * Bucket's constructor: the range checks, then the bucket with the colour
   * `colourDraw` that np.random.choice drew with probabilities (priorRed, 1 - priorRed).
   */
  function NewBucket(no: int, priorRed: real, prRedBallRedBucket: real, prRedBallBlueBucket: real,
                     colourDraw: BucketColour): (r: Result<Bucket, BucketError>)
    ensures r.Ok? <==> (0.0 <= priorRed <= 1.0 && 0.0 <= prRedBallRedBucket <= 1.0 && 0.0 <= prRedBallBlueBucket <= 1.0)
    ensures r.Ok? ==> r.value == Bucket(no, priorRed, prRedBallRedBucket, prRedBallBlueBucket, colourDraw)
    ensures r.Err? ==> Some(r.error) == FirstRangeError(priorRed, prRedBallRedBucket, prRedBallBlueBucket)
  {
    match FirstRangeError(priorRed, prRedBallRedBucket, prRedBallBlueBucket)
    case Some(e) => Err(e)
    case None => Ok(Bucket(no, priorRed, prRedBallRedBucket, prRedBallBlueBucket, colourDraw))
  }

  /** A valid bucket holds probabilities. */
  predicate ValidBucket(b: Bucket)
  {
    0.0 <= b.priorRed <= 1.0 && 0.0 <= b.prRedBallRedBucket <= 1.0 && 0.0 <= b.prRedBallBlueBucket <= 1.0
  }

  /** The distribution Bucket.signal draws its ball from, chosen by the bucket's colour. */
  function BallDistribution(b: Bucket): (d: Distribution)
    ensures d.red + d.blue == 1.0
    ensures d.red == (if b.colour == RedBucket then b.prRedBallRedBucket else b.prRedBallBlueBucket)
  {
    match b.colour
    case RedBucket => Distribution(b.prRedBallRedBucket, 1.0 - b.prRedBallRedBucket)
    case BlueBucket => Distribution(b.prRedBallBlueBucket, 1.0 - b.prRedBallBlueBucket)
  }

  /** The ball distribution of a valid bucket is a probability distribution over (red, blue). */
  lemma BallDistributionIsProbability(b: Bucket)
    requires ValidBucket(b)
    ensures 0.0 <= BallDistribution(b).red <= 1.0 && 0.0 <= BallDistribution(b).blue <= 1.0
    ensures BallDistribution(b).red + BallDistribution(b).blue == 1.0
    ensures BallDistribution(b).red == (if b.colour == RedBucket then b.prRedBallRedBucket else b.prRedBallBlueBucket)
  {
  }

  /** MultiBuckets after construction: the shared ball probabilities, the buckets and the bucket count. */
  datatype MultiBuckets = MultiBuckets(prRedBallRedBucket: real, prRedBallBlueBucket: real,
                                       bucketList: seq<Bucket>, index: nat, bucketNum: nat)

  /** Why MultiBuckets' constructor raises. */
  datatype MultiBucketsError = NoBuckets | InvalidBucket(no: nat, error: BucketError)

  /**
   * MultiBuckets' constructor: np.random.randint(bucket_num) draws `indexDraw`
   * (and raises when bucket_num is not positive); one bucket per pair of zip(range(bucket_num), priors).
   */
  method NewMultiBuckets(bucketNum: int, priorRedInstances: seq<real>, prRedBallRedBucket: real, prRedBallBlueBucket: real,
                         indexDraw: nat, colourDraws: seq<BucketColour>)
    returns (r: Result<MultiBuckets, MultiBucketsError>)
    requires bucketNum > 0 ==> indexDraw < bucketNum
    requires bucketNum > 0 ==> |colourDraws| >= Min(bucketNum, |priorRedInstances|)
    ensures bucketNum <= 0 ==> r == Err(NoBuckets)
    ensures r.Ok? ==> && ValidMultiBuckets(r.value)
                      && r.value.bucketNum == bucketNum
                      && r.value.index == indexDraw
                      && r.value.prRedBallRedBucket == prRedBallRedBucket
                      && r.value.prRedBallBlueBucket == prRedBallBlueBucket
                      && |r.value.bucketList| == Min(bucketNum, |priorRedInstances|)
                      && forall k :: 0 <= k < |r.value.bucketList| ==>
                           r.value.bucketList[k] == Bucket(k, priorRedInstances[k], prRedBallRedBucket, prRedBallBlueBucket, colourDraws[k])
                           && ValidBucket(r.value.bucketList[k])
    ensures r.Err? && bucketNum > 0 ==>
              && r.error.InvalidBucket?
              && r.error.no < Min(bucketNum, |priorRedInstances|)
              && Some(r.error.error) == FirstRangeError(priorRedInstances[r.error.no], prRedBallRedBucket, prRedBallBlueBucket)
              && forall k :: 0 <= k < r.error.no ==> FirstRangeError(priorRedInstances[k], prRedBallRedBucket, prRedBallBlueBucket) == None
  {
    if bucketNum <= 0 {
      return Err(NoBuckets);
    }
    var n := Min(bucketNum, |priorRedInstances|);
    var bucketList: seq<Bucket> := [];
    for no := 0 to n
      invariant |bucketList| == no
      invariant forall k :: 0 <= k < no ==>
                  bucketList[k] == Bucket(k, priorRedInstances[k], prRedBallRedBucket, prRedBallBlueBucket, colourDraws[k])
                  && ValidBucket(bucketList[k])
      invariant forall k :: 0 <= k < no ==> FirstRangeError(priorRedInstances[k], prRedBallRedBucket, prRedBallBlueBucket) == None
    {
      var bucket := NewBucket(no, priorRedInstances[no], prRedBallRedBucket, prRedBallBlueBucket, colourDraws[no]);
      match bucket
      case Err(e) =>
        return Err(InvalidBucket(no, e));
      case Ok(b) =>
        bucketList := bucketList + [b];
    }
    r := Ok(MultiBuckets(prRedBallRedBucket, prRedBallBlueBucket, bucketList, indexDraw, bucketNum));
  }

  /** One drawn signal: the bucket picked by np.random.choice and the ball it emitted. */
  datatype Draw = Draw(bucket: Bucket, ball: Ball)

  /** The slot of the count vector that a draw increments: 3 * bucket number + ball value. */
  function Slot(d: Draw): int
  {
    d.bucket.no * 3 + d.ball.Value()
  }

  /** How many of the draws land in `slot`. */
  function Tally(draws: seq<Draw>, slot: int): nat
  {
    if draws == [] then 0
    else Tally(draws[..|draws| - 1], slot) + (if Slot(draws[|draws| - 1]) == slot then 1 else 0)
  }

  /** What the constructor guarantees: bucket k is numbered k, and there are at most bucketNum of them. */
  predicate ValidMultiBuckets(mb: MultiBuckets)
  {
    |mb.bucketList| <= mb.bucketNum && forall k :: 0 <= k < |mb.bucketList| ==> mb.bucketList[k].no == k
  }

  /** Every drawn bucket is one of the list's buckets. */
  predicate DrawsFrom(mb: MultiBuckets, draws: seq<Draw>)
  {
    forall i :: 0 <= i < |draws| ==> draws[i].bucket in mb.bucketList
  }

  /**
   * MultiBuckets.signal, for a batch of `size` = |draws| picks: a 3n-slot
   * count vector where each draw adds one at 3 * bucket number + ball value.
   */
  method Signal(mb: MultiBuckets, draws: seq<Draw>) returns (signalMat: seq<real>)
    requires ValidMultiBuckets(mb) && DrawsFrom(mb, draws)
    ensures |signalMat| == 3 * mb.bucketNum
    ensures forall slot :: 0 <= slot < |signalMat| ==> signalMat[slot] == Tally(draws, slot) as real
    ensures Sum(signalMat) == |draws| as real
    ensures forall k :: 0 <= k < mb.bucketNum ==> signalMat[3 * k + 2] == 0.0
  {
    var mat := new real[3 * mb.bucketNum](_ => 0.0);
    DrawsNumbered(mb, draws);
    for t := 0 to |draws|
      invariant forall slot :: 0 <= slot < mat.Length ==> mat[slot] == Tally(draws[..t], slot) as real
    {
      var d := draws[t];
      assert draws[..t + 1][..t] == draws[..t];
      mat[d.bucket.no * 3 + d.ball.Value()] := mat[d.bucket.no * 3 + d.ball.Value()] + 1.0;
    }
    assert draws[..|draws|] == draws;
    signalMat := mat[..];
    assert signalMat == seq(3 * mb.bucketNum, slot => Tally(draws, slot) as real);
    TallyTotal(draws, mb.bucketNum);
    forall k | 0 <= k < mb.bucketNum
      ensures signalMat[3 * k + 2] == 0.0
    {
      TallyMarkerSlot(draws, k);
    }
  }

  lemma DrawsNumbered(mb: MultiBuckets, draws: seq<Draw>)
    requires ValidMultiBuckets(mb) && DrawsFrom(mb, draws)
    ensures forall i :: 0 <= i < |draws| ==> 0 <= draws[i].bucket.no < mb.bucketNum
  {
    forall i | 0 <= i < |draws|
      ensures 0 <= draws[i].bucket.no < mb.bucketNum
    {
      var k :| 0 <= k < |mb.bucketList| && mb.bucketList[k] == draws[i].bucket;
    }
  }

  /** Every draw is counted exactly once: the entries of the count vector add up to the batch size. */
  lemma {:induction false} TallyTotal(draws: seq<Draw>, n: nat)
    requires forall i :: 0 <= i < |draws| ==> 0 <= draws[i].bucket.no < n
    ensures Sum(seq(3 * n, slot => Tally(draws, slot) as real)) == |draws| as real
  {
    if draws == [] {
      TallyZero(n);
    } else {
      var init := draws[..|draws| - 1];
      var s := Slot(draws[|draws| - 1]);
      TallyTotal(init, n);
      var before := seq(3 * n, slot => Tally(init, slot) as real);
      var after := seq(3 * n, slot => Tally(draws, slot) as real);
      assert 0 <= s < 3 * n;
      assert after == before[s := before[s] + 1.0];
      SumUpdate(before, s, before[s] + 1.0);
    }
  }

  lemma {:induction false} TallyZero(n: nat)
    ensures Sum(seq(3 * n, slot => Tally([], slot) as real)) == 0.0
  {
    if n > 0 {
      var z := seq(3 * n, slot => Tally([], slot) as real);
      assert z[..|z| - 1] == seq(3 * n - 1, slot => 0.0);
      ZeroSum(3 * n - 1);
    }
  }

  lemma {:induction false} ZeroSum(len: nat)
    ensures Sum(seq(len, slot => 0.0)) == 0.0
  {
    if len > 0 {
      assert seq(len, slot => 0.0)[..len - 1] == seq(len - 1, slot => 0.0);
      ZeroSum(len - 1);
    }
  }

  /** No draw lands in a third slot 3k + 2: those stay zero. */
  lemma {:induction false} TallyMarkerSlot(draws: seq<Draw>, k: int)
    ensures Tally(draws, 3 * k + 2) == 0
  {
    if draws != [] {
      TallyMarkerSlot(draws[..|draws| - 1], k);
      var d := draws[|draws| - 1];
      assert Slot(d) % 3 == d.ball.Value();
    }
  }
}
