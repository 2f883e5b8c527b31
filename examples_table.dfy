/**
 * A small concrete table of three pinhole-family models, used to check the
 * registry, the initializer and the validator on concrete values.
 */
module ExampleTable {
  import opened VariantTable
  import opened Registry
  import opened Initializer
  import opened Introspection
  import opened Validator

  const SimplePinhole := Variant(0, "SIMPLE_PINHOLE", 3, "f, cx, cy", [0], [1, 2], [])
  const Pinhole := Variant(1, "PINHOLE", 4, "fx, fy, cx, cy", [0, 1], [2, 3], [])
  const SimpleRadial := Variant(2, "SIMPLE_RADIAL", 4, "f, cx, cy, k", [0], [1, 2], [3])

  const Models: seq<Variant> := [SimplePinhole, Pinhole, SimpleRadial]

  /** Lookups by name and id, including the sentinels for unknown inputs. */
  lemma ModelsLookups()
    ensures NameToId(Models, "PINHOLE") == 1
    ensures IdToName(Models, 2) == "SIMPLE_RADIAL"
    ensures NameToId(Models, "__not_a_model__") == InvalidCameraModelId
    ensures NameToId(Models, "pinhole") == InvalidCameraModelId
    ensures IdToName(Models, -1) == InvalidCameraModelName
    ensures ParamsInfo(Models, 7) == "Camera model does not exist"
    ensures PrincipalPointIdxs(Models, 1) == [2, 3]
  {
    assert Models[1].name == "PINHOLE";
    assert Models[2].id == 2;
    assert Models[1].id == 1;
  }

  /** The pinhole default for a 1920x1080 image with a focal guess of 1000. */
  lemma PinholeDefaults(previous: seq<real>)
    ensures InitialParams(Models, 1, 1000.0, 1920, 1080, previous) == [1000.0, 1000.0, 960.0, 540.0]
    ensures VerifyParams(Models, 1, [1000.0, 1000.0, 960.0, 540.0])
    ensures !VerifyParams(Models, 0, [1000.0, 1000.0, 960.0, 540.0])
  {
  }
}
