/**
 * The hashcash proof-of-work provider (`pow.Verifier` on the server, `pow.Solver` on
 * the client).  Its algorithm and challenge encoding are not part of this model:
 * the challenges it issues and its verdicts are taken as given functions.
 */
module Pow {
  import opened Wire

  /** The server's verifier.  `mint(n)` is the challenge the n-th call of `Challenge`
      produces (standing for the clock and the random seed at that moment);
      `accepts(challenge, solution)` is the verdict of `Verify`. */
  class Verifier {
    const mint: nat -> Bytes
    const accepts: (Bytes, Bytes) -> bool
    var issued: nat  // how many challenges were handed out so far

    constructor (mint: nat -> Bytes, accepts: (Bytes, Bytes) -> bool)
      ensures this.mint == mint && this.accepts == accepts && issued == 0
    {
      this.mint := mint;
      this.accepts := accepts;
      issued := 0;
    }

    /** `verifier.Challenge()`: a fresh challenge; it never fails. */
    method Challenge() returns (challenge: Bytes)
      modifies this
      ensures challenge == mint(old(issued)) && issued == old(issued) + 1
    {
      challenge := mint(issued);
      issued := issued + 1;
    }

    /** `verifier.Verify(challenge, solution) == nil`. */
    function Verify(challenge: Bytes, solution: Bytes): bool
    {
      accepts(challenge, solution)
    }
  }
}
