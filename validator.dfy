/**
 * The validator: a structural check (the vector has the model's length) and
 * the dispatch of the plausibility check to the selected model's own
 * predicate. The per-model predicates are compiled in from a header that is
 * not part of this model; they are given here as the parameter `check`,
 * which answers for each variant.
 */
module Validator {
  import opened VariantTable
  import opened Initializer

  /** A per-model plausibility predicate: given the model, the parameters,
      the image width and height, the minimum and maximum focal-length ratio
      and the largest admissible extra parameter, it answers whether the
      parameters are bogus. */
  type BogusCheck = (Variant, seq<real>, nat, nat, real, real, real) -> bool

  /** True exactly when the id identifies a model and the vector has that
      model's number of parameters; the values are not inspected. */
  function VerifyParams(table: seq<Variant>, modelId: int, params: seq<real>): (r: bool)
    requires UniqueIds(table)
    ensures forall v :: v in table && v.id == modelId ==> (r <==> |params| == v.numParams)
    ensures !IsRegistered(table, modelId) ==> !r
  {
    match Find(table, modelId)
    case Some(v) => |params| == v.numParams
    case None => false
  }

  /** The answer of the selected model's own plausibility predicate; false
      for an id that identifies no model. */
  function HasBogusParams(table: seq<Variant>, check: BogusCheck, modelId: int,
                          params: seq<real>, width: nat, height: nat,
                          minFocalLengthRatio: real, maxFocalLengthRatio: real,
                          maxExtraParam: real): (r: bool)
    requires UniqueIds(table)
    ensures forall v :: v in table && v.id == modelId ==>
      r == check(v, params, width, height, minFocalLengthRatio, maxFocalLengthRatio, maxExtraParam)
    ensures !IsRegistered(table, modelId) ==> !r
  {
    match Find(table, modelId)
    case Some(v) => check(v, params, width, height, minFocalLengthRatio, maxFocalLengthRatio, maxExtraParam)
    case None => false
  }

  /** A vector just produced by the initializer for a registered model passes
      the structural check, whatever it held before. */
  lemma VerifyInitialParams(table: seq<Variant>, v: Variant, focalLength: real,
                            width: nat, height: nat, params: seq<real>)
    requires WellFormed(table) && v in table
    ensures VerifyParams(table, v.id, InitialParams(table, v.id, focalLength, width, height, params))
  {
  }

  /** For an unknown id the initializer leaves the vector as it was, and the
      structural check rejects it. */
  lemma VerifyUnknownModel(table: seq<Variant>, modelId: int, focalLength: real,
                           width: nat, height: nat, params: seq<real>)
    requires WellFormed(table) && !IsRegistered(table, modelId)
    ensures InitialParams(table, modelId, focalLength, width, height, params) == params
    ensures !VerifyParams(table, modelId, InitialParams(table, modelId, focalLength, width, height, params))
  {
  }
}
