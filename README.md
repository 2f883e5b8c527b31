# Camera-model registry

This project models the camera-model registry of COLMAP (`src/base/camera_models.cc`) in Dafny. COLMAP is a structure-from-motion and multi-view-stereo library. The registry is a closed table of camera models, such as pinhole, radial-distortion and fisheye models. Each model has:

- a unique numeric id and a unique name;
- a parameter count;
- a description of its parameters;
- three groups of indices into its parameter vector: focal length, principal point and extra (distortion) parameters.

Over that table the library provides:

- name/id lookups, answered from two maps that are built once;
- a parameter initializer that rewrites a caller-owned vector in place;
- four introspection lookups;
- a structural validator;
- a dispatcher to each model's own plausibility check.

The concrete list of models is compiled in from `src/base/camera_models.h`, which is not part of this model. Every operation therefore takes the table as a parameter `table: seq<Variant>`. The predicate `WellFormed` states what the model assumes of that table:

- ids are unique, which the compiler enforces, because two models with the same id would give duplicate `case` labels (line 103);
- ids are non-negative, names are unique, and no name is the invalid-name sentinel; these are assumptions about the header, because nothing in the code enforces them;
- every index of every group is below the parameter count;
- there are at least two principal-point indices, because lines 108-109 read `[0]` and `[1]`.

The invalid id `kInvalidCameraModelId` is also defined in that header. It is taken here as `-1`.

Modules, in dependency order:

- `VariantTable` (`variant_table.dfy`): the `Variant` record, the well-formedness predicates and `Find`, the `switch (model_id)` dispatch.
- `Registry` (`registry.dfy`): the two map builders, `NameToId`, `IdToName` and the round trips.
- `Initializer` (`initializer.dfy`): the caller's `std::vector<double>` as the class `ParamVector`, and the in-place `InitializeParams` method. The method is proved against the specification function `InitialParams`, and the lemmas about that function hold the promised properties.
- `Introspection` (`introspection.dfy`): the four metadata lookups.
- `Validator` (`validator.dfy`): `VerifyParams`, the `HasBogusParams` dispatch, and the initializer/validator agreement.
- `ExampleTable` (`examples_table.dfy`): a three-model table with concrete checks.

Parameter values are C++ `double`s. They are modelled as `real`, so `width / 2.0` is exact. Image width and height are `size_t` and are modelled as `nat`.

Two behaviours for an unknown id are worth noting:

- Initialization with an unknown id is not an error. The `switch` has no default case, so the vector is left unchanged (lines 101-118), and `InitialParams` returns the old contents.
- For an unknown id, the description lookup answers `"Camera model does not exist"` (line 133).

## Model

| member | source | states |
|---|---|---|
| `VariantTable.Find` | src/base/camera_models.cc:101-103 | The dispatch selects a variant of the table with the requested id, or none exactly when no variant has that id. With unique ids, it selects THE variant with that id. |
| `Registry.NameToIdMapFirstWins` | src/base/camera_models.cc:45-57 | The name-to-id map built by emplacing the models in order holds a name exactly when some model has it. It binds that name to the id of the first such model, because `emplace` keeps the first insertion. |
| `Registry.IdToNameMapFirstWins` | src/base/camera_models.cc:70-82 | The id-to-name map holds an id exactly when some model has it, and binds it to the name of the first such model. |
| `Registry.InitializeNameToIdMap` | src/base/camera_models.cc:45-60 | The emplace loop builds exactly the name-to-id map of the table. |
| `Registry.InitializeIdToNameMap` | src/base/camera_models.cc:70-85 | The emplace loop builds exactly the id-to-name map of the table. |
| `Registry.NameToId` | src/base/camera_models.cc:62-68 | A name that some model has exactly, with no case folding, gives that model's id. Any other string gives the invalid id. |
| `Registry.IdToName` | src/base/camera_models.cc:87-93 | A registered id gives that model's name. Any other id gives `"INVALID_CAMERA_MODEL"`. |
| `Registry.IdNameIdRoundTrip` | src/base/camera_models.cc:62-93 | `NameToId(IdToName(id))` is `id` for every registered id, and the invalid id for every other id. |
| `Registry.NameIdNameRoundTrip` | src/base/camera_models.cc:62-93 | `IdToName(NameToId(name))` is `name` for every registered name, and `"INVALID_CAMERA_MODEL"` for every other string. |
| `Initializer.Resized` | src/base/camera_models.cc:104 | `resize(n)` gives length `n`. It keeps every old value below both lengths and fills new slots with 0. |
| `Initializer.FilledAt` | src/base/camera_models.cc:105-112 | After the loop of writes over an index group, a slot holds the written value exactly when its index is in the group. Otherwise it keeps its value. |
| `Initializer.InitialParams` | src/base/camera_models.cc:95-119 | For a registered model the result has the model's parameter count. For an unknown id the vector is unchanged: the switch has no default case. |
| `Initializer.InitialParamsAt` | src/base/camera_models.cc:101-113 | Every slot of the initialized vector is fully determined. It is 0 at an extra index; otherwise height/2 at principal-point `[1]`; otherwise width/2 at principal-point `[0]`; otherwise the focal guess at a focal index. Any other slot keeps its old value below the old length and is 0 above it. So on overlapping groups the last write wins. |
| `Initializer.InitialParamsDefaults` | src/base/camera_models.cc:103-112 | For a model with non-overlapping groups: the vector has `num_params` slots, every focal index holds the focal guess, the principal point is (width/2, height/2), and every extra index holds 0. |
| `Initializer.InitializeParams` | src/base/camera_models.cc:95-119 | The in-place update of the caller's vector leaves exactly `InitialParams` of its old contents, and changes nothing else. |
| `Introspection.ParamsInfo` | src/base/camera_models.cc:121-134 | A registered id gives the model's parameter description. An unknown id gives `"Camera model does not exist"`. |
| `Introspection.FocalLengthIdxs` | src/base/camera_models.cc:136-149 | A registered id gives the model's focal-length indices. An unknown id gives an empty sequence. |
| `Introspection.PrincipalPointIdxs` | src/base/camera_models.cc:151-164 | A registered id gives the model's principal-point indices. An unknown id gives an empty sequence. |
| `Introspection.ExtraParamsIdxs` | src/base/camera_models.cc:166-179 | A registered id gives the model's extra-parameter indices. An unknown id gives an empty sequence. |
| `Introspection.IdxsAddressParams` | src/base/camera_models.cc:104-112 | In a well-formed table, every index the three lookups report for a registered model is below its parameter count, and there are at least two principal-point indices. |
| `Validator.VerifyParams` | src/base/camera_models.cc:181-197 | True exactly when the id is registered and the vector length equals that model's parameter count. False for every unknown id. |
| `Validator.HasBogusParams` | src/base/camera_models.cc:199-219 | For a registered id, the result is exactly the selected model's own predicate on the same arguments. For an unknown id it is false. |
| `Validator.VerifyInitialParams` | src/base/camera_models.cc:95-197 | A vector just initialized for a registered model passes the structural check, whatever it held before. |
| `Validator.VerifyUnknownModel` | src/base/camera_models.cc:101-197 | For an unknown id, initialization leaves the vector unchanged and the structural check rejects it. |
| `ExampleTable.ModelsLookups` | src/base/camera_models.cc:62-164 | On a concrete three-model table: the names and ids resolve to each other, and unknown names and ids (including a wrong-case name) give the sentinels. |
| `ExampleTable.PinholeDefaults` | src/base/camera_models.cc:95-197 | The 4-parameter pinhole model on a 1920x1080 image with a focal guess of 1000 initializes to `[1000, 1000, 960, 540]` from any old contents. That vector passes the check for this model and fails it for the 3-parameter model. |

## Left out

- The concrete list of camera models and `kInvalidCameraModelId` (`src/base/camera_models.h`) are not part of this model. The table is a parameter constrained by `WellFormed`, and the invalid id is taken as `-1`. `ExampleTable` is an illustrative instance.
- Validator.HasBogusParams: the per-model plausibility predicates and all projection and distortion math live in the header and compare floating-point values. They are a function parameter `check` that this model does not interpret, so only the dispatch is verified. So no plausibility result on a concrete vector can be stated.
- The one-time static initialization of the two global maps, and its thread safety, are not modelled. Each map is a pure function of the table, built by a loop method proved equal to it.
- The preprocessor expansion of the per-model cases is replaced by a search over the table (`Find`).
- IEEE-754 rounding of `width / 2.0` and `height / 2.0` is not modelled. The model uses exact reals. The `size_t`-to-`double` conversion of width and height (line 96) is also treated as exact, which holds only for dimensions below 2^53.
- Registry.NameToId, Registry.IdToName: `NameToId` requires unique names, and `IdToName` requires unique ids. The compiler enforces unique ids through the `case` labels (line 103). Unique names are an assumption about the header, which is not part of this model. Without uniqueness the maps' first-insertion-wins behaviour is still stated, by `NameToIdMapFirstWins` and `IdToNameMapFirstWins`.
- The 32-bit width of the C++ `int` model id and of the converted `size_t` indices is not modelled. Ids and indices are unbounded integers.
