/**
 * The camera-model variant table: one record per supported camera model,
 * with its id, its name, the length of its parameter vector, a description
 * of the parameters and the three index groups (focal length, principal
 * point, extra/distortion parameters).
 *
 * The concrete list of models is compiled into the library from a header
 * that is not part of this model; every operation here therefore takes the
 * table as a parameter, and `WellFormed` states what the header guarantees
 * about it.
 */
module VariantTable {

  datatype Option<T> = None | Some(value: T)

  /** The id returned for a name that names no camera model. */
  const InvalidCameraModelId: int := -1

  /** The name returned for an id that identifies no camera model. */
  const InvalidCameraModelName: string := "INVALID_CAMERA_MODEL"

  /** One camera model: its static members in the library. */
  datatype Variant = Variant(
    id: int,
    name: string,
    numParams: nat,
    paramsInfo: string,
    focalLengthIdxs: seq<nat>,
    principalPointIdxs: seq<nat>,
    extraParamsIdxs: seq<nat>)

  /** Every index of `idxs` addresses a slot of a vector of length `n`. */
  predicate InRange(idxs: seq<nat>, n: nat)
  {
    forall k :: 0 <= k < |idxs| ==> idxs[k] < n
  }

  /** Every index of every group addresses a slot of the parameter vector,
      and there is a principal-point x and y index to write. */
  predicate ValidVariant(v: Variant)
  {
    && InRange(v.focalLengthIdxs, v.numParams)
    && InRange(v.principalPointIdxs, v.numParams)
    && InRange(v.extraParamsIdxs, v.numParams)
    && |v.principalPointIdxs| >= 2
  }

  predicate UniqueIds(table: seq<Variant>)
  {
    forall i, j :: 0 <= i < j < |table| ==> table[i].id != table[j].id
  }

  predicate UniqueNames(table: seq<Variant>)
  {
    forall i, j :: 0 <= i < j < |table| ==> table[i].name != table[j].name
  }

  /** What the model assumes of the compiled-in table. Ids are unique:
      the compiler enforces it, because two equal ids would be duplicate
      case labels. Ids are non-negative, so the invalid-id sentinel is never
      a model's id. Names are unique, and no model is called like the
      invalid-name sentinel. These three are assumptions about the model
      list, because nothing in the code checks them. Every variant's index
      groups fit its parameter count. */
  predicate WellFormed(table: seq<Variant>)
  {
    && UniqueIds(table)
    && UniqueNames(table)
    && (forall v :: v in table ==> v.id >= 0 && v.name != InvalidCameraModelName && ValidVariant(v))
  }

  /** True when `id` identifies a variant of `table`. */
  predicate IsRegistered(table: seq<Variant>, id: int)
  {
    exists v :: v in table && v.id == id
  }

  /** The `switch (model_id)` dispatch: the variant whose case label is `id`. */
  function Find(table: seq<Variant>, id: int): (r: Option<Variant>)
    ensures r.Some? ==> r.value in table && r.value.id == id
    ensures r.None? <==> forall v :: v in table ==> v.id != id
    ensures UniqueIds(table) ==> forall v :: v in table && v.id == id ==> r == Some(v)
  {
    if table == [] then None
    else if table[0].id == id then Some(table[0])
    else Find(table[1..], id)
  }
}
