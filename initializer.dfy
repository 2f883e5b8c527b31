/**
 * The parameter initializer: it resizes a caller-owned parameter vector to
 * the model's parameter count and writes a default calibration into it: the
 * focal-length guess at every focal index, half the image width and height at
 * the principal-point x and y indices, and zero at every extra index. The
 * image origin is the upper-left corner of the image, not the centre of the
 * upper-left pixel, so the principal point is exactly (width / 2, height / 2).
 */
module Initializer {
  import opened VariantTable

  /** A caller-owned `std::vector<double>`; doubles are modelled as reals. */
  class ParamVector {
    var values: seq<real>

    constructor (init: seq<real>)
      ensures values == init
    {
      values := init;
    }
  }

  /** `resize(n)`: keeps the first `n` values and appends zeros up to `n`. */
  function Resized(s: seq<real>, n: nat): (r: seq<real>)
    ensures |r| == n
    ensures forall k :: 0 <= k < n ==> r[k] == if k < |s| then s[k] else 0.0
  {
    if n <= |s| then s[..n] else s + seq(n - |s|, _ => 0.0)
  }

  /** Writes `x` at every index of `idxs`, in order. */
  function Filled(s: seq<real>, idxs: seq<nat>, x: real): (r: seq<real>)
    requires InRange(idxs, |s|)
    ensures |r| == |s|
    decreases |idxs|
  {
    if idxs == [] then s
    else Filled(s, idxs[..|idxs| - 1], x)[idxs[|idxs| - 1] := x]
  }

  /** After the writes, an index holds `x` exactly when it is one of `idxs`,
      and its old value otherwise. */
  lemma {:induction false} FilledAt(s: seq<real>, idxs: seq<nat>, x: real, k: nat)
    requires InRange(idxs, |s|)
    requires k < |s|
    ensures Filled(s, idxs, x)[k] == if k in idxs then x else s[k]
    decreases |idxs|
  {
    if idxs != [] {
      var p := idxs[..|idxs| - 1];
      FilledAt(s, p, x, k);
      assert idxs == p + [idxs[|idxs| - 1]];
      assert k in idxs <==> k in p || k == idxs[|idxs| - 1];
    }
  }

  /** The parameter vector that `InitializeParams` leaves behind for the
      old contents `params`: the model's default calibration, written over
      the resized vector, or `params` unchanged for an unknown id (the
      dispatch has no default case). */
  function InitialParams(table: seq<Variant>, modelId: int, focalLength: real,
                         width: nat, height: nat, params: seq<real>): (r: seq<real>)
    requires WellFormed(table)
    ensures !IsRegistered(table, modelId) ==> r == params
    ensures forall v :: v in table && v.id == modelId ==> |r| == v.numParams
  {
    match Find(table, modelId)
    case None => params
    case Some(v) =>
      var sized := Resized(params, v.numParams);
      var focal := Filled(sized, v.focalLengthIdxs, focalLength);
      var centred := focal[v.principalPointIdxs[0] := width as real / 2.0]
                          [v.principalPointIdxs[1] := height as real / 2.0];
      Filled(centred, v.extraParamsIdxs, 0.0)
  }

  /** What every slot of the initialized vector holds for a registered model:
      writes happen focal, principal point x, principal point y, extras, so
      when the groups overlap the later write wins; a slot in no group keeps
      its old value when it was below the old length and is zero otherwise. */
  lemma InitialParamsAt(table: seq<Variant>, v: Variant, focalLength: real,
                        width: nat, height: nat, params: seq<real>, k: nat)
    requires WellFormed(table) && v in table && k < v.numParams
    ensures |InitialParams(table, v.id, focalLength, width, height, params)| == v.numParams
    ensures InitialParams(table, v.id, focalLength, width, height, params)[k] ==
      if k in v.extraParamsIdxs then 0.0
      else if k == v.principalPointIdxs[1] then height as real / 2.0
      else if k == v.principalPointIdxs[0] then width as real / 2.0
      else if k in v.focalLengthIdxs then focalLength
      else if k < |params| then params[k]
      else 0.0
  {
    var sized := Resized(params, v.numParams);
    var focal := Filled(sized, v.focalLengthIdxs, focalLength);
    var centred := focal[v.principalPointIdxs[0] := width as real / 2.0]
                        [v.principalPointIdxs[1] := height as real / 2.0];
    assert InitialParams(table, v.id, focalLength, width, height, params)
        == Filled(centred, v.extraParamsIdxs, 0.0);
    FilledAt(sized, v.focalLengthIdxs, focalLength, k);
    FilledAt(centred, v.extraParamsIdxs, 0.0, k);
  }

  /** For a model whose index groups do not overlap, every focal index holds
      the focal guess, the principal point is the image centre and every
      extra parameter is zero. */
  lemma InitialParamsDefaults(table: seq<Variant>, v: Variant, focalLength: real,
                              width: nat, height: nat, params: seq<real>)
    requires WellFormed(table) && v in table
    requires forall i :: i in v.focalLengthIdxs ==> i !in v.principalPointIdxs[..2] && i !in v.extraParamsIdxs
    requires v.principalPointIdxs[0] != v.principalPointIdxs[1]
    requires forall i :: i in v.principalPointIdxs[..2] ==> i !in v.extraParamsIdxs
    ensures var r := InitialParams(table, v.id, focalLength, width, height, params);
      && |r| == v.numParams
      && (forall i :: i in v.focalLengthIdxs ==> r[i] == focalLength)
      && r[v.principalPointIdxs[0]] == width as real / 2.0
      && r[v.principalPointIdxs[1]] == height as real / 2.0
      && (forall i :: i in v.extraParamsIdxs ==> r[i] == 0.0)
  {
    var r := InitialParams(table, v.id, focalLength, width, height, params);
    forall i | i in v.focalLengthIdxs ensures r[i] == focalLength {
      InitialParamsAt(table, v, focalLength, width, height, params, i);
    }
    forall i | i in v.extraParamsIdxs ensures r[i] == 0.0 {
      InitialParamsAt(table, v, focalLength, width, height, params, i);
    }
    assert v.principalPointIdxs[0] in v.principalPointIdxs[..2];
    assert v.principalPointIdxs[1] in v.principalPointIdxs[..2];
    InitialParamsAt(table, v, focalLength, width, height, params, v.principalPointIdxs[0]);
    InitialParamsAt(table, v, focalLength, width, height, params, v.principalPointIdxs[1]);
  }

  /** Resizes `params` to the model's parameter count and writes the default
      calibration into it; an unknown id leaves it untouched. */
  method InitializeParams(table: seq<Variant>, modelId: int, focalLength: real,
                          width: nat, height: nat, params: ParamVector)
    requires WellFormed(table)
    modifies params
    ensures params.values == InitialParams(table, modelId, focalLength, width, height, old(params.values))
  {
    match Find(table, modelId)
    case None =>
    case Some(v) =>
      params.values := Resized(params.values, v.numParams);
      ghost var sized := params.values;
      var i := 0;
      while i < |v.focalLengthIdxs|
        invariant 0 <= i <= |v.focalLengthIdxs|
        invariant params.values == Filled(sized, v.focalLengthIdxs[..i], focalLength)
      {
        assert v.focalLengthIdxs[..i + 1][..i] == v.focalLengthIdxs[..i];
        params.values := params.values[v.focalLengthIdxs[i] := focalLength];
        i := i + 1;
      }
      assert v.focalLengthIdxs[..i] == v.focalLengthIdxs;
      params.values := params.values[v.principalPointIdxs[0] := width as real / 2.0];
      params.values := params.values[v.principalPointIdxs[1] := height as real / 2.0];
      ghost var centred := params.values;
      i := 0;
      while i < |v.extraParamsIdxs|
        invariant 0 <= i <= |v.extraParamsIdxs|
        invariant params.values == Filled(centred, v.extraParamsIdxs[..i], 0.0)
      {
        assert v.extraParamsIdxs[..i + 1][..i] == v.extraParamsIdxs[..i];
        params.values := params.values[v.extraParamsIdxs[i] := 0.0];
        i := i + 1;
      }
      assert v.extraParamsIdxs[..i] == v.extraParamsIdxs;
  }
}
