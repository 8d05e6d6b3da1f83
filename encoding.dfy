/**
 * The fixed two-bucket feature layout of signal_encode and the one-hot
 * colour encoding.
 */
module Encoding {
  import opened Enums
  import opened Buckets

  /** Why signal_encode raises: the prior does not broadcast into two slots, the colour is unknown, or the index is out of range. */
  datatype EncodeError = PriorShape | UnknownColour | IndexOutOfRange

  /** The dictionary {'red': 0, 'blue': 1}, with a missing key as None. */
  function ColourValue(ballColour: string): (v: Option<nat>)
    ensures v.Some? <==> ballColour == "red" || ballColour == "blue"
    ensures v.Some? ==> v.value < 2
  {
    if ballColour == "red" then Some(0)
    else if ballColour == "blue" then Some(1)
    else None
  }

  /** A position of a 6-slot row as numpy reads it: -6 .. -1 count from the end. */
  function WrapIndex(i: int): (r: Option<nat>)
    ensures r.Some? <==> -6 <= i < 6
    ensures r.Some? ==> r.value < 6 && (r.value as int - i) % 6 == 0
  {
    if 0 <= i < 6 then Some(i) else if -6 <= i < 0 then Some(i + 6) else None
  }

  /**
   * signal_encode: a 1-by-6 row with the squeezed prior pair broadcast into
   * slots 2 and 5, then one added at 3 * bucket_no + colour value. `priorPair`
   * is the prior after np.squeeze, flattened.
   */
  function SignalEncode(ballColour: string, bucketNo: int, priorPair: seq<real>): (r: Result<seq<real>, EncodeError>)
    ensures r.Ok? <==> (|priorPair| == 1 || |priorPair| == 2) && ColourValue(ballColour).Some?
                       && WrapIndex(bucketNo * 3 + ColourValue(ballColour).value).Some?
    ensures r.Err? ==> (r.error == PriorShape <==> !(|priorPair| == 1 || |priorPair| == 2))
    ensures r.Ok? ==>
              var target := WrapIndex(bucketNo * 3 + ColourValue(ballColour).value).value;
              && |r.value| == 6
              && r.value[2] == priorPair[0] + (if target == 2 then 1.0 else 0.0)
              && r.value[5] == priorPair[|priorPair| - 1] + (if target == 5 then 1.0 else 0.0)
              && forall i :: 0 <= i < 6 && i != 2 && i != 5 ==> r.value[i] == (if i == target then 1.0 else 0.0)
  {
    if !(|priorPair| == 1 || |priorPair| == 2) then Err(PriorShape)
    else
      var prior := if |priorPair| == 1 then [priorPair[0], priorPair[0]] else priorPair;
      var signalMat := [0.0, 0.0, prior[0], 0.0, 0.0, prior[1]];
      match ColourValue(ballColour)
      case None => Err(UnknownColour)
      case Some(v) =>
        match WrapIndex(bucketNo * 3 + v)
        case None => Err(IndexOutOfRange)
        case Some(i) => Ok(signalMat[i := signalMat[i] + 1.0])
  }

  /** The ball a colour name stands for. */
  function BallOf(ballColour: string): Ball
    requires ballColour == "red" || ballColour == "blue"
  {
    if ballColour == "red" then Red else Blue
  }

  /**
   * For bucket 0 or 1 and a known colour, the red/blue slots of signal_encode
   * are the count vector MultiBuckets.signal builds from that one draw.
   */
  lemma SignalEncodeIsOneDrawSignal(ballColour: string, bucketNo: int, priorPair: seq<real>, b: Bucket)
    requires ballColour == "red" || ballColour == "blue"
    requires 0 <= bucketNo < 2 && b.no == bucketNo
    requires |priorPair| == 1 || |priorPair| == 2
    ensures SignalEncode(ballColour, bucketNo, priorPair).Ok?
    ensures forall s :: 0 <= s < 6 && s % 3 != 2 ==>
              SignalEncode(ballColour, bucketNo, priorPair).value[s] == Tally([Draw(b, BallOf(ballColour))], s) as real
  {
    assert [Draw(b, BallOf(ballColour))][..0] == [];
    assert ColourValue(ballColour).value == BallOf(ballColour).Value();
  }

  /** one_hot_encode: 'red' is [1, 0], anything else [0, 1]. */
  function OneHotEncode(feature: string): (r: seq<int>)
    ensures r == [1, 0] <==> feature == "red"
    ensures r == [1, 0] || r == [0, 1]
  {
    if feature == "red" then [1, 0] else [0, 1]
  }

  /** one_hot_decode: [1, 0] is 'red', anything else 'blue'. */
  function OneHotDecode(oneHotFeature: seq<int>): (r: string)
    ensures r == "red" <==> oneHotFeature == [1, 0]
    ensures r == "red" || r == "blue"
  {
    if oneHotFeature == [1, 0] then "red" else "blue"
  }

  /** Decoding an encoded colour gives it back exactly when it is one of the two names. */
  lemma OneHotRoundTrip(feature: string)
    ensures OneHotDecode(OneHotEncode(feature)) == (if feature == "red" then "red" else "blue")
    ensures OneHotDecode(OneHotEncode(feature)) == feature <==> feature == "red" || feature == "blue"
  {
  }

  /** Encoding a decoded vector gives it back exactly when it is one of the two one-hot vectors. */
  lemma OneHotRoundTripVector(v: seq<int>)
    ensures OneHotEncode(OneHotDecode(v)) == v <==> v == [1, 0] || v == [0, 1]
  {
  }
}
