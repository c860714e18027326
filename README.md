# Irrlicht engine workshop in Dafny

A model of the core of a C++ workshop engine built on the Irrlicht 3D library. The model has three parts.

**Lifetime counters** (`counters.dfy`, `lifetime.dfy`)
- The process-wide `counters` registry keeps one six-slot record per instrumented type, next to the type's name.
- `add` appends a record and a name together.
- The CRTP base `type_counters<T>` bumps exactly one slot of `T`'s record in each special member function.
- `validate` reports, per type, `constructions + copy_constructions + move_constructions - destructions`. It passes only when every one of these balances is zero.
- `print` sums every slot over all types.
- `Lifetime` replays a program's special-member calls on the objects of one type. It proves that the balance is the number of objects still alive. So a leak is reported as `Leaks` and a double destruction as `MultipleFrees`.

**Value wrappers** (`named_type.dfy`, `ranged_value.dfy`)
- `named_type<T, Tag>` is a nominal wrapper. Its comparisons are those of `T`.
- `ranged_value<T, Min, Max>` is a value that is checked on construction to lie in `[Min, Max]`.
- `angle` is a `ranged_value` with bounds [-180, 180].

**Engine ownership and picking** (`native.dfy`, `events.dfy`, `picking.dfy`, `engine.dfy`, `modern_engine.dfy`)
- Irrlicht objects are `Resource` objects. Each has an identity and a count of the `drop()` calls made on it.
- Every library call is an input of the method that makes it: the object the library returned, or null (or a boolean for calls that only succeed or fail).
- `engine.dfy` is the older engine, with raw pointers and error codes. Its ownership defects are modelled as written, and one scenario method exhibits each of them:
  - the selected `object_handle` is replaced without deleting the old one (`LegacyEngine.SelectionReplacementLeaks`);
  - node pointers are nulled without a `drop()` (`LegacyEngine.CameraNodeForgottenUndropped`). The contracts of `Camera.Init`, `ObjectHandle.ResourceSetFromAssets` and `Engine.AddLaser` state the same;
  - `~engine` never deletes the camera (`LegacyEngine.CameraOutlivesEngine`).
- A fourth scenario, `LegacyEngine.SelectorDropsOnce`, shows the selector's correct single drop.
- `process_collisions` is proved against `PickStep`, a pure per-frame picking function in `picking.dfy`.
- `modern_engine.dfy` is the newer RAII interface:
  - `droppable_res_ptr`;
  - `object_handle` as a copyable value with a defaulted `==`;
  - `rotation` taking `angle`s;
  - the `run` loop, proved against `RunSpec`, whose scope guard closes every scene it opened.

Paths in the table are relative to the repository root.

## Model

| member | source | states |
|---|---|---|
| Wrappers.CompareInt | include/irrlicht-engine/named_type.h:72-74 | the built-in three-way comparison that a defaulted `<=>` over an integral member uses: Less, Equivalent and Greater exactly when a < b, a == b and a > b |
| Counters.Zero | src/utils.cpp:39 | the record that `emplace_back` appends has all six slots zero |
| Counters.Bump | include/irrlicht-engine/utils.h:86-91 | `++counters_[slot]` adds one to that slot and leaves the other five unchanged |
| Counters.BumpBalance | include/irrlicht-engine/utils.h:86-91 | each special member changes the balance by its slot's weight: +1 for the three constructions, -1 for destruction, 0 for both assignments |
| Counters.Diagnosis | src/utils.cpp:54-60 | a positive balance is reported as that many leaks of that type, a negative one as multiple frees, and a zero balance reports nothing |
| Counters.DiagnosesEmptyIffBalanced | src/utils.cpp:52-66 | `validate` prints no error exactly when every type's balance is zero |
| Counters.DiagnosesClassify | src/utils.cpp:57-60 | every type with a non-zero balance gets its own report, with its name and balance |
| Counters.DiagnosesSound | src/utils.cpp:52-61 | every report comes from one registered type, and that type's balance is the one in the report |
| Counters.DiagnosesDependOnBalancesOnly | src/utils.cpp:54-55 | the reports depend only on the per-type balances |
| Counters.AssignmentsInvisibleToValidate | src/utils.cpp:54-55 | a copy or move assignment on any type changes neither the verdict nor the reports of `validate` |
| Counters.OverallBalanceIsTotal | src/utils.cpp:82-91 | the column sums that `print` accumulates in `overall` give the sum of all per-type balances |
| Counters.BalancedTotalIsZero | src/utils.cpp:82-91 | when `validate` passes, the overall constructions minus destructions is zero |
| Counters.Registry.constructor | src/utils.cpp:31-35 | the registry that `instance()` creates starts empty, with names and records in step |
| Counters.Registry.Add | src/utils.cpp:37-42 | appends one zeroed record and one name; earlier entries are unchanged; the lengths stay equal; the result refers to the new record |
| Counters.Registry.Validate | src/utils.cpp:44-67 | the result is true iff every balance is zero, and the reports are those of every unbalanced type, in registration order |
| Counters.Registry.Overall | src/utils.cpp:82-91 | `overall[j]` is the sum of slot j over all registered records |
| Counters.TypeCounters.Register | include/irrlicht-engine/utils.h:98-99 | registering a type not yet registered appends exactly one zeroed record and its name; the type keeps that record, and it is the only record under that name |
| Counters.TypeCounters.Count | include/irrlicht-engine/utils.h:86-91 | bumps exactly one slot of the type's own record; all other records and all names stay unchanged |
| Counters.TypeCounters.Construct | include/irrlicht-engine/utils.h:86 | the default constructor counts a construction and raises the balance by one |
| Counters.TypeCounters.CopyConstruct | include/irrlicht-engine/utils.h:87 | the copy constructor counts a copy construction and raises the balance by one |
| Counters.TypeCounters.MoveConstruct | include/irrlicht-engine/utils.h:88 | the move constructor counts a move construction and raises the balance by one |
| Counters.TypeCounters.Destruct | include/irrlicht-engine/utils.h:89 | the destructor counts a destruction and lowers the balance by one |
| Counters.TypeCounters.CopyAssign | include/irrlicht-engine/utils.h:90 | copy assignment counts itself and leaves the balance unchanged |
| Counters.TypeCounters.MoveAssign | include/irrlicht-engine/utils.h:91 | move assignment counts itself and leaves the balance unchanged |
| Lifetime.BalanceIsLiveCount | include/irrlicht-engine/utils.h:86-89 | for any legal sequence of constructions, destructions and assignments of T, T's balance equals the number of live objects of T |
| Lifetime.AllDestroyedPasses | src/utils.cpp:52-66 | once every object of T is destroyed, T's balance is zero and `validate` reports nothing for T |
| Lifetime.LiveObjectIsLeak | src/utils.cpp:57-58 | objects of T still alive are reported as exactly that many leaks of T |
| Lifetime.DoubleDestroyIsMultipleFree | src/utils.cpp:59-60 | one destruction more than there were objects is reported as a multiple free with balance -1 |
| NamedType.Make | include/irrlicht-engine/named_type.h:44-52 | the explicit constructor stores the value given |
| NamedType.Convert | include/irrlicht-engine/named_type.h:54-62 | the conversion back to T yields the stored value, the same as `value()` |
| NamedType.Value | include/irrlicht-engine/named_type.h:64-67 | `value()` returns the stored value: wrapping what it returns gives back the same object |
| NamedType.RoundTrip | include/irrlicht-engine/named_type.h:64-67 | wrapping and reading back gives the value wrapped, and rewrapping the value read gives the same object |
| NamedType.Equal | include/irrlicht-engine/named_type.h:69-71 | two wrappers are equal iff their values are equal |
| NamedType.Compare | include/irrlicht-engine/named_type.h:72-74 | the ordering of wrappers is the ordering of their values; Equivalent exactly when they are equal |
| NamedType.CompareIsTotalOrder | include/irrlicht-engine/named_type.h:72-74 | the ordering is antisymmetric, transitive and reflexive on Equivalent, as that of the values |
| RangedValue.Clamp | include/irrlicht-engine/ranged_value.h:31 | `std::clamp` lands in [lo, hi] and leaves v unchanged exactly when v already lies in [lo, hi] |
| RangedValue.IsInRangeIsInterval | include/irrlicht-engine/ranged_value.h:31 | `is_in_range(v)` iff Min <= v <= Max, so both endpoints are in range |
| RangedValue.Make | include/irrlicht-engine/ranged_value.h:37-39 | the validating constructor yields an object exactly for the values in range, and that object holds the value |
| RangedValue.Default | include/irrlicht-engine/ranged_value.h:40 | the default constructor validates T{}, which is zero, so it succeeds exactly when zero is in range |
| RangedValue.Negate | include/irrlicht-engine/ranged_value.h:42-46 | unary minus rebuilds from -value() through the validating constructor, so it succeeds exactly when -value() is in range |
| RangedValue.NegateSymmetric | include/irrlicht-engine/ranged_value.h:42-46 | with symmetric bounds, negation always succeeds and negating twice gives the original |
| RangedValue.MakeAngle | include/irrlicht-engine/engine.h:45 | an `angle` exists exactly for the values in [-180, 180] |
| RangedValue.DefaultAngle | include/irrlicht-engine/ranged_value.h:40 | the default `angle` is 0 |
| RangedValue.NegateAngle | include/irrlicht-engine/ranged_value.h:42-46 | the negation of an `angle` is always an `angle`, with the negated value |
| RangedValue.AngleBoundaries | include/irrlicht-engine/engine.h:45 | 200 is not an angle, 180 is, and negating -180 gives 180 |
| Events.EventReceiver.constructor | include/engine.h:137-138 | a receiver starts with `quit_` false |
| Events.EventReceiver.Deliver | src/engine.cpp:252-259 | the library's dispatch inside `device->run()`, one `OnEvent` per pending event: afterwards the quit flag is set iff it was set before or one of the events is a pressed-down 'q' |
| Events.EventReceiver.OnEvent | src/engine.cpp:252-259 | only a pressed-down 'q' key sets `quit_`, nothing clears it, and the event is never reported as handled |
| Picking.SelectionAfterStep | src/engine.cpp:496-517 | after a frame, a node is selected iff it was hit and is highlightable; the laser is visible iff something was hit, and it stands at the intersection |
| Picking.RepeatedHitIsStable | src/engine.cpp:503-509 | a repeated hit changes nothing and does not allocate a new handle |
| Picking.AlternatingAllocatesEveryFrame | src/engine.cpp:504-505 | hitting a different highlightable node every frame allocates a new handle every frame, although only the last node ends up selected |
| LegacyEngine.DeviceTypeOf | include/engine.h:128 | every driver type stands for a `device_type` in [0, device_num) |
| LegacyEngine.Convert | src/engine.cpp:271-278 | `convert` maps each valid device type to the driver type standing for it |
| LegacyEngine.ConvertIsBijection | src/engine.cpp:271-278 | `convert` is one-to-one and onto the four driver types |
| LegacyEngine.Selector.constructor | src/engine.cpp:66 | a selector starts with no resource and counts one construction |
| LegacyEngine.Selector.Init | src/engine.cpp:42-56 | on an empty selector and an object with a node, keeps what the library returned; returns SELECTOR_INIT_FAIL iff that was null, else SELECTOR_INIT_SUCCESS |
| LegacyEngine.Selector.Destroy | src/engine.cpp:58-64 | drops the selector exactly once and leaves the pointer null |
| LegacyEngine.Selector.Finalize | src/engine.cpp:68-72 | `~selector` drops only a selector still held, so init, destroy and destruction together drop it once; counts one destruction; only the held selector's drop count may change |
| LegacyEngine.SelectorDropsOnce | src/engine.cpp:58-72 | a selector that is initialised, destroyed and destructed has dropped its library object exactly once |
| LegacyEngine.ObjectHandle.constructor | src/engine.cpp:155 | keeps the type and name, starts with no node, and counts one construction |
| LegacyEngine.ObjectHandle.ResourceSetFromAssets | src/engine.cpp:76-153 | an unknown type succeeds without a node; a missing mesh fails; a faerie without its texture fails and forgets its node without dropping it; otherwise the new node is kept |
| LegacyEngine.ObjectHandle.ResourceSetNode | src/engine.cpp:157-164 | an empty handle starts observing the node given and reports success |
| LegacyEngine.ObjectHandle.Equals | src/engine.cpp:166 | `operator==` is reflexive, and equal handles observe the same node |
| LegacyEngine.EqualsIsNodeIdentity | src/engine.cpp:166 | handles are equal iff they observe the same node, whatever their type and name |
| LegacyEngine.ObjectHandle.Rotation | src/engine.cpp:175-183 | with every component in [-180, 180], sets the node's rotation to exactly those components |
| LegacyEngine.Camera.constructor | src/engine.cpp:234 | a camera starts with no node and counts one construction |
| LegacyEngine.Camera.Init | src/engine.cpp:210-232 | returns 1 when no camera node was made; returns 2 with the node forgotten and left untouched (no drop, no animator) when no animator was made; otherwise returns 0, attaches the animator and drops it once, never dropping the camera node; only the node's animators and the animator's drop count may change |
| LegacyEngine.Engine.constructor | src/engine.cpp:445-461 | the device type is the one requested, or software when none is; nothing is acquired yet |
| LegacyEngine.Engine.InternalEventReceiverCreate | src/engine.cpp:263-269 | succeeds exactly when the allocation does, leaving a fresh receiver with no quit request |
| LegacyEngine.Engine.InitDevice | src/engine.cpp:280-307 | returns 2 when no device was created; returns 3 after dropping the device and nulling it when the archive cannot be added; otherwise returns 0 and keeps the device undropped; only the device's drop count may change |
| LegacyEngine.Engine.AddLaser | src/engine.cpp:322-356 | succeeds iff the billboard and its texture were both obtained; when the texture fails, the billboard is forgotten without a drop |
| LegacyEngine.Engine.CreateCamera | src/engine.cpp:389-419 | an existing camera is returned with code 0, and neither the counters nor the library objects change; a failed allocation returns 1; a failed level or camera init deletes the camera and returns 2 or 3, leaving the camera balance and the library objects unchanged; success keeps a fresh camera over the node made; the camera node is never dropped, and only its animators and the animator's drop count may change |
| LegacyEngine.Engine.DestroyCamera | src/engine.cpp:421-427 | deletes the camera, counting one destruction, and leaves the pointer null |
| LegacyEngine.Engine.Finalize | src/engine.cpp:463-469 | drops the device once and deletes the receiver, but leaves the camera and the selected handle in place, with no destruction counted; only the device's drop count changes |
| LegacyEngine.CameraNodeForgottenUndropped | src/engine.cpp:216-226 | a camera node made without a collision animator is forgotten by `init` with no `drop()` and no animator attached, and `create_camera` returns 3 |
| LegacyEngine.CameraOutlivesEngine | src/engine.cpp:463-469 | an engine brought up and destroyed leaves `validate` failing, with one leaked camera |
| LegacyEngine.Engine.ProcessCollisions | src/engine.cpp:481-520 | the frame follows `PickStep`; a new handle is allocated only for a highlightable node other than the selected one; a repeat hit keeps the same handle; -1 only on a failed allocation; no handle is ever deleted; only the laser's visibility and position change, and no name is registered |
| LegacyEngine.SelectionReplacementLeaks | src/engine.cpp:504-511 | two frames on two different characters leave two object_handle constructions and no destruction, so `validate` reports two leaked handles |
| LegacyEngine.Engine.Run | src/engine.cpp:522-528 | `device_->run()` first delivers the pending events to the receiver, so the quit flag afterwards is the old flag or a 'q' press among them; the loop goes on iff the device runs and no quit was requested, counting those events |
| LegacyEngine.QuitPressStopsRun | src/engine.cpp:527 | a 'q' pressed during the very `run()` call makes that call return false |
| LegacyEngine.Engine.SelectedObject | include/engine.h:207 | returns the current selection, possibly null; a non-null one observes a node |
| ModernEngine.DroppableResPtr.constructor | include/irrlicht-engine/engine.h:42-43 | the pointer owns the object given |
| ModernEngine.DroppableResPtr.MoveFrom | include/irrlicht-engine/engine.h:42-43 | moving transfers ownership and leaves the source empty |
| ModernEngine.DroppableResPtr.Destroy | include/irrlicht-engine/engine.h:42-43 | destruction drops the owned object once, and an empty pointer drops nothing; nothing else of the owned object changes |
| ModernEngine.MovedOwnerDropsOnce | include/irrlicht-engine/engine.h:42-43 | an object moved from one owner to another and then destroyed with both is dropped exactly once |
| ModernEngine.Equal | include/irrlicht-engine/engine.h:95-104 | the defaulted `==` compares the handle member-wise, and its only member is the node pointer, so it holds iff both observe the same node |
| ModernEngine.EqualIsNodeIdentity | include/irrlicht-engine/engine.h:95-104 | the defaulted `==` holds iff both handles observe the same node, and a copy equals its source |
| ModernEngine.Rotation | include/irrlicht-engine/engine.h:91 | sets the node's rotation to the three angles, so every component lies in [-180, 180] |
| ModernEngine.QuitSpec | include/irrlicht-engine/engine.h:198-211 | the quit flag when `run` ends, given the old flag and the events of every frame polled: a flag already set stays set, and with no frames it is the old flag; see `ModernEngine.QuitPersists` |
| ModernEngine.QuitPersists | include/irrlicht-engine/engine.h:201 | a quit request is never withdrawn by `run`, and a run that ends with quit set has returned normally rather than by an exception |
| ModernEngine.QuitStopsAtOnce | include/irrlicht-engine/engine.h:201 | with a quit already requested, `run` makes no call and returns |
| ModernEngine.RunBalancesScenes | include/irrlicht-engine/engine.h:198-211 | end_scene and user calls are equal in number, and begin_scene is one more only when it threw |
| ModernEngine.RunBracketsUserCode | include/irrlicht-engine/engine.h:202-207 | every user call sits between a begin_scene and an end_scene; every begin_scene is followed by a user call unless it is the last call and threw |
| ModernEngine.Engine.constructor | include/irrlicht-engine/engine.h:227 | the engine starts with an empty selection |
| ModernEngine.Engine.Poll | include/irrlicht-engine/engine.h:201 | the device delivers the frame's events first; the loop goes on iff the device runs and no quit was requested |
| ModernEngine.Engine.Run | include/irrlicht-engine/engine.h:198-211 | the calls and the outcome are exactly those of `RunSpec` for the frames met and the quit flag on entry; the quit flag at the end is `QuitSpec` of the same, so a quit request made before the call is still set, and a run that ends with quit set has returned normally |
| ModernEngine.QuitPressEndsRun | include/irrlicht-engine/engine.h:201 | a frame that presses 'q' ends the loop before it draws anything |

## Left out

- Counters.TypeCounters.Register: requires that the name is not yet registered. The static initialiser runs once per type, and mangled type names of distinct types are taken to be distinct.
- `counters::instance()`: there is no static state. The registry is an object passed to whoever registers. So "the same registry on every call" is a convention of the callers, not something proved.
- `noncopyable` and `static_assert(std::copyable<object_handle>)`: compile-time properties with no run-time behaviour. The modern `object_handle` is a datatype, so it is copyable by construction.
- `named_type`'s default constructor: it exists only when `T` is default-initializable, a compile-time condition. Construction is always explicit, through `Make` or the datatype constructor `Named`; there is no implicit conversion from `T`.
- The `type_counters` defaulted `<=>`: there is no data member to compare. It shows up only in `ModernEngine.Equal`, which is member-wise equality over the node pointer alone.
- Counter slots are unbounded integers. The 32-bit `int` overflow of a slot is not modelled.
- The console text of `validate` and `print`, and the mangled `typeid` names: these are I/O or implementation-defined. `validate`'s output is modelled as a list of reports.
- Static-initialisation order and thread safety of the registry are not modelled.
- `type_counters` on `engine`, `event_receiver` and `selector` in the scenarios: only the records of `object_handle` and `camera` are followed there. `selector` is followed in `LegacyEngine.SelectorDropsOnce`.
- `ranged_value`: `validated_type.h` is not part of this model. An out-of-range construction is modelled as `None`, not as an exception.
- `ranged_value`: the values are `real`, not `float`. NaN and rounding are not modelled.
- Mesh and texture paths, materials, scale and animation, `font`, `add_light`, `add_level`'s octree selector, `draw_label`, the window caption and the cursor are not modelled. Each library call is reduced to "returns an object or null".
- The ray built from the camera in `process_collisions` is not modelled. The ray query's answer (node, id flags, intersection) is an input.
- `init_device`'s width, height, bits-per-pixel, full-screen, stencil and vsync parameters: they only pass through to the library.
- The documented run/begin/end/yield protocol of the older header (include/engine.h:223-238): it is a usage pattern for callers, not code. It differs from the newer `run` that `ModernEngine.Engine.Run` models. In the older pattern `begin_scene` returns a status that the loop ignores, so `end_scene` is called even when `begin_scene` failed. In the newer `run`, `begin_scene` reports failure by throwing, and the scope guard that calls `end_scene` exists only once `begin_scene` has returned, so a failed `begin_scene` gets no `end_scene`.
- The newer engine's constructors, `process_collisions`, `begin_scene` and `end_scene` are defined in the newer engine.cpp, which is not part of this model. Only what the header itself defines is modelled.
- The counters of the newer classes are not followed, because the newer `object_handle` is modelled as a value.
- LegacyEngine.Engine.CreateCamera: on failure it returns a null camera, where the source leaves the caller's out-parameter untouched.
- LegacyEngine.Selector.Init: the assertion that the engine's scene manager is set is not modelled, because no engine is passed in.
- LegacyEngine.ObjectHandle.ResourceSetFromAssets: the node returned by `addAnimatedMeshSceneNode` is taken as non-null, since the source uses it unchecked. The assertion on an invalid type is a precondition.
- LegacyEngine.Engine.AddLaser: the video driver lookup is not modelled.
- LegacyEngine.Engine.Finalize: the deletion of the receiver is modelled as forgetting it. Its destructor and counters are not followed.
- ModernEngine.Engine.Poll: the newer `event_receiver::OnEvent` is only declared in include/irrlicht-engine/engine.h:174; its body is in the newer engine.cpp, which is not part of this model. It is assumed to behave like the older receiver (src/engine.cpp:252-259): a 'q' key press sets the quit flag and nothing else changes it.
- ModernEngine.Engine.Run: the frames given are finite, and the device stops running after the last one. An exception thrown by `end_scene` itself is not modelled.
