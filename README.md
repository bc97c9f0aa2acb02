# BabylonCpp and OimoCpp core, modelled in Dafny

This project models three pieces of the BabylonCpp engine and of its bundled Oimo physics library, and proves what they promise.

- **`OIMO::LimitMotor`** (`oimo.dfy`, module `Oimo`). It holds the limit, motor and spring settings of a joint: an axis and seven floats. The model is a class with the same eight fields. It covers the constructors, copy and move assignment, `clone`, `cloneToNewObject` and the three setters. A `MotorState` value bundles the eight fields so that contracts can state the whole state at once.
- **`BABYLON::TransformBlock`** (`node_blocks.dfy`, module `NodeBlocks`). This node-material block multiplies a vector by a matrix. It builds one line of shader code from a template chosen by the type of the connected vector, and it dumps its two complement values as code. The model covers:
  - the constructor and its ports;
  - the connection observer on the "vector" input;
  - the three port accessors;
  - `_buildBlock`, `_dumpPropertiesCode`, `getClassName`, `serialize` and `_deserialize`.

  `StringTools::printf` is modelled as C's `printf` restricted to `%s`, `%f` and `%%` (`Printf`). A `%s` argument is cut at its first NUL, as `c_str()` would be. `%f` prints six decimals, rounding half to even; `FixedSixDenotes` proves that the text is the sign, the integer part and exactly six fraction digits whose values are those of the rounded number. A `Lines` function splits text at `"\r\n"`; it states that the dump is exactly two statements.
- **`BABYLON::Scene`** (`scene.dfy`, module `Engine`). The scene holds meshes, cameras, lights, materials and geometries, the active camera and the active animatables. The model covers:
  - the id, name and unique-id lookups, as linear scans;
  - `addMesh`, `removeMesh`, `pushGeometry` and `removeGeometry`;
  - `setActiveCameraByID` and `setActiveCameraByName`;
  - `stopAnimation`.

  Every lookup is defined once, generically, over a `Key` (by id, by name or by unique id). The per-collection getters of `Scene` apply it.

The header `scene.h` declares these operations and documents them, but holds no bodies. Its doc comments fix the observable contracts: first-added or last-added match, null when nothing is found, the `force` flag, and the boolean results. The model follows those comments, as follows:
- the lookups that only say "the X or null" return the first match;
- a removal takes the entity out wherever it occurs and keeps the others in order;
- `stopAnimation` acts on every active animatable of the target. This reads the doc comment (scene.h:167-172), which speaks of "the animation of the given target". The header declares only the singular `getAnimatableByTarget` (scene.h:165), so the original body may stop only the first animatable of the target; the model does not follow that reading.

## Model

| member | source | states |
|---|---|---|
| Oimo.LimitMotor.constructor | src/OimoCpp/src/constraint/joint/limit_motor.cpp:5-15 | The new motor stores the axis. Angle, upper limit, motor speed, maximum force, frequency and damping ratio are 0. The lower limit is 0 when fixed and 1 otherwise. |
| Oimo.LimitMotor.Copy | src/OimoCpp/src/constraint/joint/limit_motor.cpp:17-27 | The copy holds all eight values of the original. |
| Oimo.LimitMotor.Move | src/OimoCpp/src/constraint/joint/limit_motor.cpp:29-32 | The move constructor, through move assignment: the new motor holds what the source held. |
| Oimo.LimitMotor.CopyAssign | src/OimoCpp/src/constraint/joint/limit_motor.cpp:38-52 | Every field takes the source's value and the source is unchanged. Self-assignment changes nothing. The result is the motor itself. |
| Oimo.LimitMotor.MoveAssign | src/OimoCpp/src/constraint/joint/limit_motor.cpp:54-68 | Two distinct motors exchange all eight fields. Moving a motor into itself changes nothing. The result is the motor itself. |
| Oimo.MoveAssignTwice | src/OimoCpp/src/constraint/joint/limit_motor.cpp:54-68 | Two move assignments between the same two motors restore both. |
| Oimo.LimitMotor.Clone | src/OimoCpp/src/constraint/joint/limit_motor.cpp:70-73 | clone returns a new motor equal in all eight fields. |
| Oimo.LimitMotor.CloneToNewObject | src/OimoCpp/src/constraint/joint/limit_motor.cpp:75-78 | cloneToNewObject returns a freshly allocated motor, distinct from this one, equal in all eight fields. |
| Oimo.CopyIsIndependent | src/OimoCpp/src/constraint/joint/limit_motor.cpp:70-73 | Changing the limits of a clone leaves the original untouched. |
| Oimo.LimitMotor.SetLimit | src/OimoCpp/src/constraint/joint/limit_motor.cpp:80-84 | Sets the lower and upper limits; the other six fields keep their values. |
| Oimo.LimitMotor.SetMotor | src/OimoCpp/src/constraint/joint/limit_motor.cpp:86-90 | Sets motor speed and maximum motor force; nothing else changes. |
| Oimo.LimitMotor.SetSpring | src/OimoCpp/src/constraint/joint/limit_motor.cpp:92-96 | Sets frequency and damping ratio; nothing else changes. |
| NodeBlocks.TransformBlock.constructor | src/BabylonCpp/src/materials/node/blocks/transform_block.cpp:11-21 | The block is neutral, with complementW 1 and complementZ 0. Its inputs are "vector" (AutoDetect) then "transform" (Matrix), and its output is "output" (Vector4). No port is connected. |
| NodeBlocks.TransformBlock.OnVectorConnection | src/BabylonCpp/src/materials/node/blocks/transform_block.cpp:23-32 | Connecting the vector input to an input block named "normal" sets complementW to 0. Any other connection, or none, leaves it as it was. Only complementW may change. |
| NodeBlocks.TransformBlock.GetClassName | src/BabylonCpp/src/materials/node/blocks/transform_block.cpp:37-40 | The class name is "TransformBlock". |
| NodeBlocks.TransformBlock.Vector | src/BabylonCpp/src/materials/node/blocks/transform_block.cpp:42-45 | Returns input slot 0, the "vector" port of type AutoDetect. |
| NodeBlocks.TransformBlock.Output | src/BabylonCpp/src/materials/node/blocks/transform_block.cpp:47-50 | Returns output slot 0, the "output" port of type Vector4. |
| NodeBlocks.TransformBlock.Transform | src/BabylonCpp/src/materials/node/blocks/transform_block.cpp:52-55 | Returns input slot 1, the "transform" port of type Matrix. |
| NodeBlocks.TransformLine | src/BabylonCpp/src/materials/node/blocks/transform_block.cpp:63-86 | The line for a Vector2 vector is `decl = T * vec4(V, Z, W);\r\n`. For Vector3 or Color3 it is `decl = T * vec4(V, W);\r\n`. For any other type it is `decl = T * V;\r\n`, with each argument cut at its first NUL. |
| NodeBlocks.Vec2Printf | src/BabylonCpp/src/materials/node/blocks/transform_block.cpp:67-70 | printf of the Vector2 template substitutes its four arguments in order. |
| NodeBlocks.Vec3Printf | src/BabylonCpp/src/materials/node/blocks/transform_block.cpp:76-78 | printf of the Vector3/Color3 template substitutes its three arguments in order. |
| NodeBlocks.DirectPrintf | src/BabylonCpp/src/materials/node/blocks/transform_block.cpp:83-84 | printf of the default template substitutes its two arguments in order. |
| NodeBlocks.TransformBlock.BuildBlock | src/BabylonCpp/src/materials/node/blocks/transform_block.cpp:57-89 | Appends the output declaration and the template line chosen by the connected type, with the transform's and the vector's variable names and the written complements. The previous code stays a prefix. The result is the block itself. |
| NodeBlocks.TransformBlock.Serialize | src/BabylonCpp/src/materials/node/blocks/transform_block.cpp:91-94 | serialize returns JSON null. |
| NodeBlocks.TransformBlock.Deserialize | src/BabylonCpp/src/materials/node/blocks/transform_block.cpp:96-99 | _deserialize leaves the block unchanged. |
| NodeBlocks.TransformBlock.DumpPropertiesCode | src/BabylonCpp/src/materials/node/blocks/transform_block.cpp:101-110 | The dump is `<var>.complementZ = <z>;\r\n` followed by `<var>.complementW = <w>;\r\n`, with values in six-decimal %f form. When the variable name holds no carriage return, it splits into exactly those two lines. |
| NodeBlocks.DecimalValue | src/BabylonCpp/src/materials/node/blocks/transform_block.cpp:104-107 | The decimal digits printed for a natural number are all digits and read back as that number. |
| NodeBlocks.DecimalLeadingDigit | src/BabylonCpp/src/materials/node/blocks/transform_block.cpp:104-107 | The decimal form has no leading zero: it starts with '0' exactly when the number is 0. |
| NodeBlocks.DecimalLength | src/BabylonCpp/src/materials/node/blocks/transform_block.cpp:104-107 | A number below 10^k is printed with at most k digits. |
| NodeBlocks.SixDigits | src/BabylonCpp/src/materials/node/blocks/transform_block.cpp:104-107 | The fraction part of %f, a number below 10^6 padded with zeros, is exactly six digits and reads back as that number. |
| NodeBlocks.FixedDigitsDenote | src/BabylonCpp/src/materials/node/blocks/transform_block.cpp:104-107 | For a sign and a magnitude n in millionths, the fixed-point text has a minus exactly when negative, an integer part with no leading zero (exactly one '0' when it is zero) whose value is n / 10^6, a point, and six digits whose value is n mod 10^6. |
| NodeBlocks.FixedSixDenotes | src/BabylonCpp/src/materials/node/blocks/transform_block.cpp:104-107 | What %f prints for x is the sign of x, then the integer and six-digit fraction parts of abs(x) * 10^6 rounded half to even. The integer part has no leading zero, and is the single digit 0 when abs(x) rounds below 1. |
| NodeBlocks.FixedSixOfDefaults | src/BabylonCpp/src/materials/node/blocks/transform_block.cpp:104-107 | %f prints the default complements 0 and 1 as 0.000000 and 1.000000. |
| NodeBlocks.DefaultDump | src/BabylonCpp/src/materials/node/blocks/transform_block.cpp:101-110 | With the constructor's complements, the dump assigns 0.000000 to complementZ and 1.000000 to complementW. |
| NodeBlocks.TwoStatementLines | src/BabylonCpp/src/materials/node/blocks/transform_block.cpp:103-109 | Two statements, each free of carriage returns and ended by `;\r\n`, split into exactly two lines. |
| Engine.FirstIndex | src/BabylonCpp/include/babylon/engine/scene.h:293-299 | The front-to-back scan finds no index exactly when nothing matches. Otherwise it finds the earliest matching index. |
| Engine.LastIndex | src/BabylonCpp/include/babylon/engine/scene.h:314-320 | The back-to-front scan finds no index exactly when nothing matches. Otherwise it finds the latest matching index. |
| Engine.Find | src/BabylonCpp/include/babylon/engine/scene.h:293-299 | Null exactly when nothing matches; otherwise the earliest-added match. |
| Engine.FindLast | src/BabylonCpp/include/babylon/engine/scene.h:314-320 | Null exactly when nothing matches; otherwise the most recently added match. |
| Engine.FindAll | src/BabylonCpp/include/babylon/engine/scene.h:300-306 | Every result matches and comes from the collection, and every matching entity is in the result. The result is empty exactly when nothing matches. |
| Engine.Without | src/BabylonCpp/include/babylon/engine/scene.h:184 | The removed entity is absent afterwards and every other entity survives. Removing an absent entity changes nothing. |
| Engine.SingleMatchFirstIsLast | src/BabylonCpp/include/babylon/engine/scene.h:314-320 | When exactly one entity matches, the first-match and last-match lookups both return it. |
| Engine.FindByUniqueId | src/BabylonCpp/include/babylon/engine/scene.h:307-313 | When unique ids are distinct, looking up an entity's unique id returns that entity. |
| Engine.FindAfterAppend | src/BabylonCpp/include/babylon/engine/scene.h:183 | Appending keeps the earlier first match. When there was none, the new entity is found if it matches. |
| Engine.FindLastAfterAppend | src/BabylonCpp/include/babylon/engine/scene.h:183 | A matching appended entity becomes the last match. |
| Engine.FindAfterWithout | src/BabylonCpp/include/babylon/engine/scene.h:184 | Removing any entity other than the first match leaves the first match unchanged. |
| Engine.FindLastAfterWithout | src/BabylonCpp/include/babylon/engine/scene.h:314-320 | Removing any entity other than the last match leaves the last match unchanged, so getLastMeshByID keeps returning the most recently added surviving mesh. |
| Engine.FindLastSnoc | src/BabylonCpp/include/babylon/engine/scene.h:314-320 | After appending e, the last-match lookup gives e when it matches and otherwise what it gave before. |
| Engine.WithoutConcat | src/BabylonCpp/include/babylon/engine/scene.h:184 | Removal distributes over concatenation: removing from a + b is removing from a, then from b, joined in order. This is the sense in which a removal keeps the others in order. |
| Engine.Scene.AddMesh | src/BabylonCpp/include/babylon/engine/scene.h:183 | addMesh appends the mesh and nothing else changes. |
| Engine.Scene.RemoveMesh | src/BabylonCpp/include/babylon/engine/scene.h:184 | removeMesh takes the mesh out: the new meshes are exactly Without(old meshes, mesh), which WithoutConcat shows keeps the others in order. |
| Engine.Scene.GetMeshById | src/BabylonCpp/include/babylon/engine/scene.h:293-299 | getMeshByID returns null exactly when no mesh has the id; otherwise the earliest-added mesh with it. |
| Engine.Scene.GetLastMeshById | src/BabylonCpp/include/babylon/engine/scene.h:314-320 | getLastMeshByID returns null exactly when no mesh has the id; otherwise the most recently added one. |
| Engine.Scene.GetMeshesById | src/BabylonCpp/include/babylon/engine/scene.h:300-306 | getMeshesByID holds exactly the meshes with the id and is empty exactly when getMeshByID returns null. |
| Engine.Scene.GetMeshByUniqueId | src/BabylonCpp/include/babylon/engine/scene.h:307-313 | getMeshByUniqueID returns a mesh of the scene with that unique id, or null exactly when there is none. |
| Engine.Scene.GetCameraById | src/BabylonCpp/include/babylon/engine/scene.h:226 | getCameraByID returns null exactly when no camera has the id; otherwise the first one. |
| Engine.Scene.GetCameraByName | src/BabylonCpp/include/babylon/engine/scene.h:228-233 | getCameraByName returns null exactly when no camera has the name; otherwise the first one. |
| Engine.Scene.GetMaterialById | src/BabylonCpp/include/babylon/engine/scene.h:211-216 | getMaterialByID returns null exactly when no material has the id; otherwise the first one. |
| Engine.Scene.GetMaterialByName | src/BabylonCpp/include/babylon/engine/scene.h:217-222 | getMaterialByName returns null exactly when no material has the name; otherwise the first one. |
| Engine.Scene.GetLightByName | src/BabylonCpp/include/babylon/engine/scene.h:246-251 | getLightByName returns null exactly when no light has the name; otherwise the first one. |
| Engine.Scene.GetLightById | src/BabylonCpp/include/babylon/engine/scene.h:252-257 | getLightByID returns null exactly when no light has the id; otherwise the first one. |
| Engine.Scene.GetGeometryById | src/BabylonCpp/include/babylon/engine/scene.h:271-276 | getGeometryByID returns a geometry of the scene with the id, or null exactly when there is none. |
| Engine.Scene.SetActiveCameraById | src/BabylonCpp/include/babylon/engine/scene.h:197-203 | Returns the camera with the id, which becomes the active camera. When there is none it returns null and the active camera stays. |
| Engine.Scene.SetActiveCameraByName | src/BabylonCpp/include/babylon/engine/scene.h:204-210 | As setActiveCameraByID, looking the camera up by name. |
| Engine.Scene.PushGeometry | src/BabylonCpp/include/babylon/engine/scene.h:277-284 | The geometry is added exactly when force is set or no geometry has its id, and the result says so. An added geometry is appended; otherwise the collection is unchanged. |
| Engine.Scene.RemoveGeometry | src/BabylonCpp/include/babylon/engine/scene.h:285-291 | The result is true exactly when the geometry was present. It is absent afterwards, and the new collection is Without of the old one, so the rest keep their order. |
| Engine.Scene.StopAnimation | src/BabylonCpp/include/babylon/engine/scene.h:167-174 | The active animatables become those Stopped describes. |
| Engine.StoppedRunning | src/BabylonCpp/include/babylon/engine/scene.h:167-174 | After stopAnimation(target, name), an animation keeps running exactly when it ran before and is not on target, or when name is non-empty and the animation has another name. |
| Engine.StopAllLeavesNone | src/BabylonCpp/include/babylon/engine/scene.h:167-174 | With an empty name, no active animatable of the target remains. |
| Engine.StoppedKeepsOthers | src/BabylonCpp/include/babylon/engine/scene.h:167-174 | For every list, target and name, the animatables of other targets after stopAnimation are exactly those before, in the same order: Others(Stopped(s, target, name), target) == Others(s, target). |
| Engine.Others | src/BabylonCpp/include/babylon/engine/scene.h:167-174 | Every animatable it keeps comes from the list and has a target other than the given one. |
| Engine.SharedIdLookups | src/BabylonCpp/include/babylon/engine/scene.h:293-320 | In an empty scene, add meshes A then B that share an id. The returned first lookup is A and the last lookup is B. After removing A, the returned lookup is B, the meshes are exactly [B], and both getMeshByID and getLastMeshByID give B. |

## Left out

- NodeBlocks.TransformBlock.BuildBlock: the base step `NodeMaterialBlock::_buildBlock` (transform_block.cpp:59) is not part of this model and is taken to leave the compilation string unchanged.
- NodeBlocks.TransformBlock.BuildBlock: `_declareOutput`, `_writeFloat` and `associatedVariableName` are not part of this model. They are given as the function values of an `Emitters` parameter, so their text is not modelled.
- NodeBlocks.TransformBlock.BuildBlock: the `state` argument of `_declareOutput` (transform_block.cpp:66) is dropped. The model takes the declaration to neither read nor write the build state.
- NodeBlocks.TransformBlock.BuildBlock requires the vector input to be connected, because the source dereferences `connectedPoint()` with no null check (line 63).
- `StringTools::printf` is not part of this model. `Printf` is C's printf for `%s`, `%f` and `%%` only, and any other conversion makes it return `None`.
- NodeBlocks.TransformBlock.DumpPropertiesCode: the two-line split is stated only when the variable name holds no carriage return. A name that holds `"\r\n"` would split into more lines.
- Floats: the fields declared `float` are modelled as reals. Single-precision rounding on assignment is not modelled, and neither is the `%f` rendering of NaN, infinities or negative zero.
- NodeBlocks.TransformBlock.OnVectorConnection: the registration of the observer on `onConnectionObservable` and the observer machinery are not modelled. The observer body is the method, called with the other connection point's type, owner kind and owner name.
- NodeBlocks.TransformBlock.Deserialize: the `Scene*` parameter is dropped, since the body ignores it.
- Oimo.LimitMotor.Move: C++ leaves the new object's floats indeterminate before the swap, so the moved-from motor receives unspecified values. The model starts the new object from zeros and does not state what the moved-from motor holds. The destructor (limit_motor.cpp:34-36) does nothing and is not modelled.
- Engine.Scene.RemoveMesh: the `int` result of `removeMesh` is not documented and is not modelled. Neither are the removed-mesh observable, the scene back-reference, or the octree and rendering-group unlinking.
- Engine.Scene.AddMesh: unique ownership through `std::unique_ptr` (scene.h:183, 284, 672, 678, 686, 688, 780) is not modelled. An entity already present can be appended again, and a removal takes out every copy. The same holds for Engine.Scene.PushGeometry.
- Engine.Scene.AddMesh: the added-mesh observable and the scene back-reference are not modelled.
- `removeSkeleton`, `removeLight`, `removeCamera`, `addLight`, `addCamera`, `switchActiveCamera`, `getCameraByUniqueID`, `getLightByUniqueID` and the node, bone, particle, lens-flare and sound lookups: left out, as outside the modelled subset of the scene.
- `beginAnimation`, `beginDirectAnimation`, `getAnimatableByTarget`, the animation tick and the end-of-animation callbacks: left out. An animatable is reduced to its target and the names of its animations.
- Engine.Entity: one class stands for every kind of scene entity, holding only the id, name and unique id that the lookups read. A unique id is a `nat`, so the wrap-around of C++ `unsigned int` is not modelled. The id and the name are fixed at construction (`const`), so renaming an entity between two lookups, which the source allows, cannot be expressed.
- The render loop, picking, pointer and keyboard dispatch, audio, physics, the octree, observables and performance counters of `Scene`: left out. They are frame-loop or graphics plumbing and float geometry, and scene.h declares them without bodies.
- Single- and multi-camera rendering state (`activeCameras`), `multiMaterials`, textures, particle systems and sprite managers are not modelled.
