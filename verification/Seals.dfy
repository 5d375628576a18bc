/**
 Sealed statements: what stands behind `Unsealed` is out of sight of proofs that only pass it on,
 until a proof mentions the seal.
 */
module Seals {

  datatype Seal = OfAdds | OfMints | OfReads | OfSaves | OfLoads

  ghost predicate Unsealed(s: Seal, k: nat) {
    true
  }
}
