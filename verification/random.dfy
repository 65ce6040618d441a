/** The `prng` collaborator of the generator and of the dictionary: an
    object with one operation, `rand(lo, hi)`, returning an integer of the
    inclusive range. The production CryptoSecurePRNG is not part of this
    model; callers rely on nothing but the range promised by `Rand`, so any
    source that keeps that promise may stand in. The body below is a seeded
    linear congruential stand-in. */
module Random {

  class RandomSource {
    var state: nat

    constructor (seed: nat)
      ensures state == seed
    {
      state := seed;
    }

    /** `rand(lo, hi)`: an integer of `[lo, hi]`. */
    method Rand(lo: int, hi: int) returns (r: int)
      requires lo <= hi
      modifies this
      ensures lo <= r <= hi
    {
      state := (state * 1103515245 + 12345) % 0x8000_0000;
      r := lo + state % (hi - lo + 1);
    }
  }
}
