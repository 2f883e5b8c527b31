/**
 * The introspection lookups: per-model metadata by id, each with a fixed
 * fallback for an id that identifies no model (a message for the parameter
 * description, an empty sequence for the index groups).
 */
module Introspection {
  import opened VariantTable

  /** The answer of the description lookup for an unknown id. */
  const UnknownModelInfo: string := "Camera model does not exist"

  /** The human-readable description of the model's parameter slots. */
  function ParamsInfo(table: seq<Variant>, modelId: int): (r: string)
    requires UniqueIds(table)
    ensures forall v :: v in table && v.id == modelId ==> r == v.paramsInfo
    ensures !IsRegistered(table, modelId) ==> r == UnknownModelInfo
  {
    match Find(table, modelId)
    case Some(v) => v.paramsInfo
    case None => UnknownModelInfo
  }

  /** The indices of the model's focal-length parameters. */
  function FocalLengthIdxs(table: seq<Variant>, modelId: int): (r: seq<nat>)
    requires UniqueIds(table)
    ensures forall v :: v in table && v.id == modelId ==> r == v.focalLengthIdxs
    ensures !IsRegistered(table, modelId) ==> r == []
  {
    match Find(table, modelId)
    case Some(v) => v.focalLengthIdxs
    case None => []
  }

  /** The indices of the model's principal-point parameters, x then y. */
  function PrincipalPointIdxs(table: seq<Variant>, modelId: int): (r: seq<nat>)
    requires UniqueIds(table)
    ensures forall v :: v in table && v.id == modelId ==> r == v.principalPointIdxs
    ensures !IsRegistered(table, modelId) ==> r == []
  {
    match Find(table, modelId)
    case Some(v) => v.principalPointIdxs
    case None => []
  }

  /** The indices of the model's extra (distortion) parameters. */
  function ExtraParamsIdxs(table: seq<Variant>, modelId: int): (r: seq<nat>)
    requires UniqueIds(table)
    ensures forall v :: v in table && v.id == modelId ==> r == v.extraParamsIdxs
    ensures !IsRegistered(table, modelId) ==> r == []
  {
    match Find(table, modelId)
    case Some(v) => v.extraParamsIdxs
    case None => []
  }

  /** In a well-formed table, every index the three lookups report for a
      registered model addresses a slot of a vector of that model's length,
      and there are principal-point x and y indices. */
  lemma IdxsAddressParams(table: seq<Variant>, v: Variant)
    requires WellFormed(table) && v in table
    ensures InRange(FocalLengthIdxs(table, v.id), v.numParams)
    ensures InRange(PrincipalPointIdxs(table, v.id), v.numParams)
    ensures InRange(ExtraParamsIdxs(table, v.id), v.numParams)
    ensures |PrincipalPointIdxs(table, v.id)| >= 2
  {
  }
}
