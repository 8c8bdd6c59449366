// Sizes of an UltraHonk proof with zero knowledge, as fixed in the verifier contract.
module Honk {
  const CONST_PROOF_SIZE_LOG_N: nat := 25
  const NUMBER_OF_SUBRELATIONS: nat := 28
  const NUMBER_OF_ALPHAS: nat := NUMBER_OF_SUBRELATIONS - 1
  const ZK_BATCHED_RELATION_PARTIAL_LENGTH: nat := 9
  const NUMBER_OF_ENTITIES: nat := 41
  const NUM_MASKING_POLYNOMIALS: nat := 1
  const NUMBER_OF_ENTITIES_ZK: nat := NUMBER_OF_ENTITIES + NUM_MASKING_POLYNOMIALS
  const PAIRING_POINTS_SIZE: nat := 8
  const NUM_WITNESS_ENTITIES: nat := 9
  const NUM_ELEMENTS_COMM: nat := 2
  const NUM_ELEMENTS_FR: nat := 1
  const NUM_LIBRA_EVALUATIONS: nat := 4
}
