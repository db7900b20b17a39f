/**
 * Math.random(), seen as a stream of draws. Nothing is assumed about the distribution:
 * each draw is some value in [0, 1), and the stream is fixed in advance so that the
 * state after a frame is a function of the draws it consumed.
 */
module Randomness {

  /** One value of Math.random(). */
  type Draw = r: real | 0.0 <= r < 1.0

  class Random {
    /** The n-th value Math.random() returns. */
    const draws: nat -> Draw
    /** How many values have been taken so far. */
    var drawn: nat

    constructor (draws: nat -> Draw)
      ensures this.draws == draws && drawn == 0
    {
      this.draws := draws;
      drawn := 0;
    }

    method Next() returns (r: Draw)
      modifies this
      ensures drawn == old(drawn) + 1
      ensures r == draws(old(drawn))
    {
      r := draws(drawn);
      drawn := drawn + 1;
    }
  }
}
