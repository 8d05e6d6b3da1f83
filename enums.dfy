/**
 * The tag types of the environment, as closed datatypes, and the result type
 * used wherever the environment raises an exception.
 */
module Enums {

  /** The colour of a drawn ball; `Value` is the enum's integer value (RED = 0, BLUE = 1). */
  datatype Ball = Red | Blue {
    function Value(): (v: nat)
      ensures v < 2
      ensures v == 0 <==> this == Red
    {
      if Red? then 0 else 1
    }
  }

  /** The hidden colour of a bucket; `Value` is the index of the materialised outcome. */
  datatype BucketColour = RedBucket | BlueBucket {
    function Value(): (v: nat)
      ensures v < 2
      ensures v == 0 <==> this == RedBucket
    {
      if RedBucket? then 0 else 1
    }
  }

  /** The proper scoring rule a prediction market resolves with. */
  datatype ScoreFunction = Log | Quadratic

  /** How a decision market picks the option whose market pays out. */
  datatype DecisionRule = Stochastic | Deterministic

  datatype Option<T> = None | Some(value: T)

  /** A value or the exception the environment would raise instead. */
  datatype Result<T, E> = Ok(value: T) | Err(error: E)
}
