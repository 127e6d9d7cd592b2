# Bindable state of a Direct3D 11 renderer, modelled in Dafny

This project models the bindable-level logic of the HW3D renderer. Its
drawables are rendered through sequences of *bindables*: pieces of GPU state
that a step applies to the device context before a draw.

- **`Stencil`** (`stencil.dfy`). This bindable is a depth-stencil state picked from six modes:
  off, mask, write, depth-off, depth-skybox and depth-reversed. The model covers:
  - the descriptor the constructor builds for each mode, starting from Direct3D's default;
  - the identity string `<type name>#<mode name>` that the bindable cache uses as its key;
  - `Resolve` through that cache;
  - `Bind`, which sets the state with stencil reference 0xFF.
- **`TransformCbuf`** (`transform_cbuf.dfy`). This bindable uploads a drawable's model, model-view and
  model-view-projection matrices. The static `pVcbuf` and each instance's `pParent`
  are gathered into one explicit `World` value:
  - a shared buffer that is absent until the first constructor creates it;
  - a map from live instances to their optional parent drawable.

  `Run` replays any sequence of constructions, parent assignments, clones and binds.
  It is used to prove that the first constructor's slot wins and that every upload
  and bind goes to the one shared buffer.
- **`Bindables`** (`bindables.dfy`). This module holds the `Bindable` / `CloningBindable` interface over
  the closed set of kinds above. Each member dispatches on the kind. A kind that does not
  override a member gets the interface default: a no-op parent hook, a no-op
  probe hook, a `GetUID` that is a usage error (a precondition here), and
  `Clone` for cloning kinds only.
- **`Mouse`** (`mouse.dfy`). This module holds `Mouse::Event`, a value snapshot of the mouse's buttons and
  position. It also holds the initial state of a `Mouse` and `IsEmpty`.
- **`Graphics`** (`graphics.dfy`). This module holds the Direct3D values the above touch:
  - `D3D11_DEPTH_STENCIL_DESC` and its enumerations;
  - the default from `CD3D11_DEPTH_STENCIL_DESC(CD3D11_DEFAULT)`;
  - symbolic matrices;
  - the graphics object, as a camera, a projection and a log of context commands.

  `Observe` folds that log into the context state it leaves behind: the depth-stencil
  binding, the buffer at each vertex constant slot, and each buffer's contents.
  Binding idempotence is stated against this state.

Calls into code outside the model are handled as follows:
- the drawable's `GetTransformXM` is a parameter `transformOf`;
- the camera and projection are fields of the graphics object;
- `typeid(Stencil).name()` is implementation-defined, so it is the parameter `typeName`.

## Model

| member | source | states |
|---|---|---|
| Stencil.Describe | HW3D/Stencil.h:23-57 | Off keeps the default descriptor. Only Write and Mask enable stencil. Write, Mask and DepthOff turn depth testing off. Every mode but Off and DepthReversed writes no depth. SkyBox compares LESS_EQUAL and Reversed compares GREATER; the rest compare LESS. Write: write mask 0xFF, ALWAYS, REPLACE. Mask: read mask 0xFF, NOT_EQUAL, KEEP. The back face and fail ops are never touched |
| Stencil.DescribeInjective | HW3D/Stencil.h:23-57 | two modes build the same descriptor only if they are the same mode |
| Stencil.ModeName | HW3D/Stencil.h:72-89 | a declared mode's name is never "ERROR", never contains '#', and reads back to that mode |
| Stencil.ErrorOnlyOutsideEnum | HW3D/Stencil.h:72-89 | the "ERROR" fallback arises exactly for underlying values outside the six enumerators |
| Stencil.GenerateUID | HW3D/Stencil.h:90 | the identity is the type name, then '#', then the mode name, with matching length |
| Stencil.UidRoundTrip | HW3D/Stencil.h:69-91 | parsing an identity gives back the mode it was generated from |
| Stencil.ParseUidExact | HW3D/Stencil.h:69-91 | a string parses to a mode only if it is exactly that mode's identity |
| Stencil.GenerateUidInjective | HW3D/Stencil.h:69-91 | two modes share an identity if and only if they are the same mode, for any type name |
| Stencil.UidIdentifiesState | HW3D/Stencil.h:20-91 | two modes share a cache identity if and only if they build the same depth-stencil state |
| Stencil.Construct | HW3D/Stencil.h:20-59 | a constructed Stencil keeps its mode and holds that mode's descriptor |
| Stencil.GetUID | HW3D/Stencil.h:92-95 | an instance's identity parses back to the mode the instance holds |
| Stencil.GetUidOfConstructed | HW3D/Stencil.h:20 | GetUID of a Stencil constructed with a mode equals GenerateUID of that mode |
| Stencil.Bind | HW3D/Stencil.h:60-64 | afterwards the context's depth-stencil state is the instance's state with reference 0xFF; vertex buffers and buffer contents are unchanged |
| Stencil.BindIdempotent | HW3D/Stencil.h:60-64 | binding twice leaves the same context state as binding once |
| Stencil.Resolve | HW3D/Stencil.h:65-68 | the instance returned has the requested mode and is the one stored under that mode's identity. Every existing entry is kept unchanged and only that key may be added. A hit constructs nothing. A miss constructs one new instance whose handle differs from every stored one. The store stays keyed by each instance's own identity, with one construction per key |
| Stencil.ResolveShares | HW3D/Stencil.h:65-68 | a second request for the same mode returns the same instance (same handle) and leaves the store unchanged |
| Stencil.ResolveSeparates | HW3D/Stencil.h:65-68 | requests for different modes return instances with different handles, stored under different keys |
| TransformCbuf.Construct | HW3D/TransformCbuf.cpp:5-9 | creates a fresh instance with no parent. The shared buffer is created at the given slot only if absent; otherwise the existing one is kept. Either way a buffer exists afterwards |
| TransformCbuf.ConstructDefault | HW3D/TransformCbuf.h:10 | with the slot omitted, a first construction creates the buffer at slot 0; the new instance has no parent |
| TransformCbuf.InitializeParentReference | HW3D/TransformCbuf.cpp:16-19 | sets this instance's parent to the given drawable, replacing any earlier one. Other instances, the shared buffer and the instance set are unchanged |
| TransformCbuf.Clone | HW3D/TransformCbuf.cpp:21-24 | a new instance, distinct from all live ones, with the source's parent; the shared buffer is unchanged |
| TransformCbuf.CloneIsIndependent | HW3D/TransformCbuf.cpp:21-24 | re-pointing a clone's parent leaves the source's parent as it was |
| TransformCbuf.GetTransforms | HW3D/TransformCbuf.cpp:33-44 | needs a set parent. Model is the parent's transform; model-view is model times the camera; model-view-projection is model-view times the projection. Each is uploaded transposed |
| TransformCbuf.TransformsDependOnlyOnParent | HW3D/TransformCbuf.cpp:33-44 | uploads agree whenever the parents' transforms, the cameras and the projections agree |
| TransformCbuf.UpdateBind | HW3D/TransformCbuf.cpp:26-31 | needs a set parent. Issues an upload to the shared buffer and then a bind of it to its slot, in that order. Afterwards that buffer holds the data and is bound at its slot, and the depth-stencil state is unchanged |
| TransformCbuf.Bind | HW3D/TransformCbuf.cpp:11-14 | needs a set parent. Afterwards the shared buffer holds the current parent's transforms and is bound at its slot; the depth-stencil state is unchanged |
| TransformCbuf.BindIdempotent | HW3D/TransformCbuf.cpp:11-14 | binding twice leaves the same context state as binding once |
| TransformCbuf.Step | HW3D/TransformCbuf.cpp:5-31 | each operation keeps the world's invariant. None of them replaces an existing shared buffer or removes earlier commands |
| TransformCbuf.Run | HW3D/TransformCbuf.h:24-25 | any sequence of operations keeps the invariant that live instances exist only alongside the shared buffer |
| TransformCbuf.SharedBufferIsNeverReplaced | HW3D/TransformCbuf.cpp:6-7 | once the buffer exists, no sequence of operations replaces it |
| TransformCbuf.FirstSlotWins | HW3D/TransformCbuf.cpp:5-9 | after a first construction at a slot, the buffer sits at that slot whatever follows |
| TransformCbuf.EveryBindUsesSharedBuffer | HW3D/TransformCbuf.h:24 | every upload and bind issued by any run touches only the one shared buffer, clones included |
| Bindables.GetUID | HW3D/Bindable.h:16-20 | callable only on kinds that override it; the identity names the instance's mode |
| Bindables.KindCapabilities | HW3D/TransformCbuf.h:7-13 | of the two kinds modelled, TransformCbuf is a cloning bindable that supplies no identity, and Stencil supplies one and does not clone |
| Bindables.InitializeParentReference | HW3D/Bindable.h:14 | a no-op for kinds without an override. For a TransformCbuf it sets that instance's parent and nothing else: other parents, the instance set and the buffer are unchanged |
| Bindables.Accept | HW3D/Bindable.h:15 | the default inspection hook returns the probe untouched |
| Bindables.DefaultHooksHaveNoEffect | HW3D/Bindable.h:14-15 | the default parent hook leaves the state unchanged, and Accept leaves the probe unchanged |
| Bindables.Clone | HW3D/Bindable.h:24-28 | a new, separately owned object of the same cloning kind with the source's parent. Every existing instance, the source included, is kept as it was, and the shared buffer is unchanged |
| Bindables.Bind | HW3D/Bindable.h:13 | dispatches to the kind's own Bind. A Stencil sets the depth-stencil state and leaves vertex buffers and contents unchanged. A TransformCbuf fills the shared buffer with its parent's transforms, binds it at its slot, and leaves the depth-stencil state unchanged |
| Bindables.BindIdempotent | HW3D/Bindable.h:13 | binding any bindable twice leaves the same context state as binding once |
| Mouse.DefaultEvent | HW3D/Mouse.h:36-37 | the default event is invalid, has no buttons pressed and sits at (0,0) |
| Mouse.Snapshot | HW3D/Mouse.h:38-39 | the event carries the given type and the parent's button flags and position; it is valid exactly when the type is not Invalid |
| Mouse.SnapshotDependsOnButtonsAndPosition | HW3D/Mouse.h:38-39 | two mice give equal snapshots if and only if their button flags and positions agree |
| Mouse.SnapshotRoundTrip | HW3D/Mouse.h:44-67 | the accessors return the stored fields: a snapshot of a mouse matching an event's reads reproduces the event |
| Mouse.IsValid | HW3D/Mouse.h:40-43 | an event is valid exactly when its type is not Invalid: invalidating it would change it |
| Mouse.GetType | HW3D/Mouse.h:44-47 | returns the stored type: writing it back leaves the event unchanged |
| Mouse.GetPosX | HW3D/Mouse.h:52-55 | returns the stored x |
| Mouse.GetPosY | HW3D/Mouse.h:56-59 | returns the stored y |
| Mouse.LeftIsPressed | HW3D/Mouse.h:60-63 | returns the stored left-button flag |
| Mouse.RightIsPressed | HW3D/Mouse.h:64-67 | returns the stored right-button flag |
| Mouse.GetPos | HW3D/Mouse.h:48-59 | GetPos is the pair (GetPosX, GetPosY) |
| Mouse.IsEmpty | HW3D/Mouse.h:81-84 | true exactly when no event is in the queue |
| Mouse.NewMouse | HW3D/Mouse.h:105-111 | a fresh mouse has no buttons pressed, is outside the window, has raw input off, zero wheel carry and empty queues |

## Left out

- Device calls are not modelled: `CreateDepthStencilState`, buffer creation and the debug info manager. Their failures (the `GFX_THROW_INFO` exceptions) are not modelled either. A constructor always succeeds here.
- The matrix arithmetic of `GetTransforms` is floating point. Matrices are symbolic terms (products and transposes of opaque leaves), so only *which* matrices are combined, and in what order, is modelled.
- Stencil.Resolve: BindableCodex.h is outside this model. The store is an explicit map with lookup-or-insert: construct on the first request for a key, and return the stored instance afterwards. Each stored instance carries a handle that stands for the object the shared pointer points to.
- TransformCbuf.Run: an operation that names a dead instance, or binds without a parent, ends the run with None. In the program that is undefined behaviour or an assertion failure.
- Mouse.NewMouse: the source gives `x` and `y` no initial value, so they are parameters rather than a fixed value.
- The `Mouse` queue operations are defined in Mouse.cpp, which is not part of this model. These are the move, button, wheel and raw-delta handlers, `Read`, `Flush`, `TrimBuffer` and the raw-input toggles. The queue capacity `bufferSize` (16) is used only by them, so it is not modelled.
- `Accept` takes a `TechniqueProbe`, which is not part of this model. The probe is a type parameter that the hook returns untouched.
- The linking, submission and execution of Step, Technique, Pass, RenderGraph and Drawable are outside this model.
- The window, message pump, render targets, rasterizers, lights, projection and `SkinnedCube` are platform or asset code outside this core, and are left out.
- Integer widths are bounded by the subset types `Byte`, `Uint` and `Int32`. Nothing in the modelled code does arithmetic that could wrap.
