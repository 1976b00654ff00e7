# Bullet client: per-frame object-store bookkeeping

This project models the part of the client in `client/src/clientGraphics.cpp`
that keeps the object store `mStore` up to date. `mStore` maps an object's name
to its render entity, its scene node, its collision shape and its rigid body.
The modelled parts are:

- **Population.** `parseObjectData` calls `parseObject` once for each object
  descriptor. `parseObject` builds the entity, a node placed and scaled as the
  descriptor says, the shape chosen by the descriptor's type (0 box, 1
  triangle mesh), and a body bound to that node. It adds the body to the
  physics world and writes the entry under the descriptor's name.
- **Draining network updates.** In `frameRenderingQueued`, records
  `{name, position, orientation}` are popped from `mUpdateQueue` in arrival
  order, and each one overwrites the pose of the named object's node.
- **Keyboard handling.** The movement vector that `movePlayer` builds from the
  held keys (steps of 20 per axis, with Escape stopping the frame loop), and
  the `lol` counter of `frameStarted`, which lets T push the object named
  "Box" at most five times.

Scene nodes and rigid bodies are objects written in place: the `Scene.SceneNode`
and `Scene.RigidBody` classes. The client is the `ClientGraphics.Client` class.
Its fields are the store, the update queue, the world's bodies in order of
addition, the object descriptors, the counter and the nodes under the scene root.

Each state-changing method is proved against a value-level specification:

- the drain against `Sync.ApplyAll`, a left fold of the records over the map
  from names to poses;
- population against `Population.Populated`, which says what the store and the
  world hold after the first k descriptors.

Lemmas then prove what those specifications mean: last record wins, last
descriptor wins, and the counter is capped.

Modules: `Scene` (types.dfy), `Sync` (sync.dfy), `Population`
(population.dfy), `Controls` (controls.dfy), `ClientGraphics` (client.dfy).

Positions, orientations and scales are only copied by this code, so they are
plain records of reals and no arithmetic is done on them.

Two behaviours of the code worth stating outright:

- **Repeated descriptor names.** `parseObject` stores with
  `mStore[ObjectData.name] = temp`, so the last descriptor of a repeated name
  wins. Earlier descriptors are not rejected: their body stays in the world
  and their node stays under the scene root.
- **Unregistered names and ill-typed descriptors.** The code has undefined
  behaviour in three cases:
  - an update for a name not in the store inserts an empty entry and
    dereferences its unset node;
  - pressing T when "Box" is not stored uses an unset body;
  - a type other than 0 or 1 leaves the shape unset, and the shape is then used.

  The model makes each of these a precondition.

## Model

| member | source | states |
|---|---|---|
| Scene.ShapeKindOf | client/src/clientGraphics.cpp:360-369 | type 0 selects a box and type 1 a triangle mesh, each if and only if; every other type selects no shape |
| Controls.Axis | client/src/clientGraphics.cpp:181-197 | one axis of the move vector is +20 exactly when only its positive key is held, -20 exactly when only its negative key is held, 0 exactly when both or neither are held, and never anything else |
| ClientGraphics.Client.MovePlayer | client/src/clientGraphics.cpp:178-197 | returns false exactly when Escape is held (with the move vector still zero); otherwise returns true with the vector `KeyMove` gives: A/S on x, F/Space on y, W/R on z |
| Controls.CounterIsCapped | client/src/clientGraphics.cpp:277-279 | from any counter value in 0..5, after any run of frames the counter equals min(5, start + number of frames with T held) |
| Controls.AtMostFivePushes | client/src/clientGraphics.cpp:264-282 | from the initial 0, the counter (and so the number of pushes applied to "Box") is min(5, T frames) and never above 5 |
| ClientGraphics.Client.FrameStarted | client/src/clientGraphics.cpp:264-282 | the counter takes one `CounterStep`; when it moves, activate() is called on the "Box" body and it gets exactly one more force (0, 2500, 1000); otherwise that body is unchanged; the object invariant (counter within 0..5) is kept |
| Sync.LastRecordWins | client/src/clientGraphics.cpp:248-256 | after the records are applied in order, a name no record carries keeps its pose, and a name some record carries has the pose of the last record carrying it |
| Sync.ApplyAllSplit | client/src/clientGraphics.cpp:248-256 | applying the records of q1 and then those of q2 gives the same poses as applying q1 + q2 |
| Sync.LastIndex | client/src/clientGraphics.cpp:248-256 | the result is -1 exactly when the name does not occur; otherwise the name occurs there and at no later position |
| ClientGraphics.Client.PopUpdate | client/src/clientGraphics.cpp:250-255 | one pass of the drain: the oldest record is removed, the node it names takes its position and orientation, and no other stored node's pose changes |
| ClientGraphics.Client.DrainUpdateQueue | client/src/clientGraphics.cpp:248-256 | only the nodes of stored entries may change pose; the queue ends empty; the poses are those of `ApplyAll` over the records in arrival order; names in no record keep their pose, and others take the pose of their last record |
| ClientGraphics.Client.FrameRenderingQueued | client/src/clientGraphics.cpp:238-259 | only the nodes of stored entries may change pose; returns false and leaves the queue and those poses unchanged when the window is closed or Escape is held; otherwise drains the whole queue and returns true |
| ClientGraphics.Client.ParseObject | client/src/clientGraphics.cpp:347-386 | the entry under the descriptor's name is replaced by a fresh one holding its entity, its node (placed, oriented and scaled as given), its shape and a fresh body (activate() not yet called, no forces) with its mass and friction bound to that node; no other entry changes; the world gains exactly that body; the node joins the scene |
| Population.StoredFromStep | client/src/clientGraphics.cpp:340-343 | across the parse of one descriptor, the name it carries holds the new entry at its new last position, and every other name keeps its entry and its last position |
| Population.PopulatedStep | client/src/clientGraphics.cpp:340-343 | storing an entry built from the k-th descriptor and adding its body to the world takes `Populated` from the first k descriptors to the first k + 1 |
| Population.PopulatedStart | client/src/clientGraphics.cpp:338-340 | before any descriptor is parsed, the store and the world are what `Populated` says for zero descriptors |
| Population.PopulatedAll | client/src/clientGraphics.cpp:338-344 | after all descriptors: the world gained one body per descriptor; the stored names are the old ones plus the descriptors' names; a name no descriptor carries keeps its old entry; any other name holds an entry built from the last descriptor carrying it, with the body added for that descriptor |
| ClientGraphics.Client.ParseNext | client/src/clientGraphics.cpp:340-343 | one loop pass: `Populated` and the node placement move from k to k + 1 descriptors, and the bodies already in the world stay in place |
| ClientGraphics.Client.ParseObjectData | client/src/clientGraphics.cpp:338-344 | the store and the world end as `Populated` says for all the descriptors; existing bodies keep their places; the node of the i-th added body sits at the i-th descriptor's position, orientation and scale; the object invariant is kept |
| Sync.PrefixStep | client/src/clientGraphics.cpp:340-343 | growing a prefix of names by one makes the added name its own last occurrence and leaves every other name's last occurrence as it was |

## Left out

- The Ogre and Bullet bootstrap in `go()`, the constructor and destructor, `windowResized` and `windowClosed`: window, device and input-system set-up.
- `updateStats`: text for the on-screen overlay, taken from engine singletons.
- `loadPhx`, `stepSimulation`, `rayTest` (the D key), the debug drawer and the B-key console output: Bullet and Ogre calls with floating-point physics and I/O.
- The mouse and quaternion work in `movePlayer`, and the final translate of the player node by the move vector. The rotation runs even when Escape is held. The model keeps only the key accumulation and the Escape exit; the window-closed test is a parameter.
- The inertia computation in `parseObject`, the link between the Ogre entity and the node (`attachObject`), and the motion state's later syncing of node and body during simulation: engine internals.
- `setOrientation` normalises the quaternion it is given. The model copies the orientation unchanged.
- The producer that fills `mUpdateQueue` from the network, and any concurrency with it. The drain is modelled as sequential.
- `mObjectData` is a `std::map`. The model takes its entries as a sequence in the map's iteration order. `client.h` is not part of this model, so the descriptor fields are those that `parseObject` reads.
- Ogre refuses an entity or scene-node name that is already in use. The model does not check names at that level.
- The commented-out code after `parseObject`: dead code.
- ClientGraphics.Client.ParseObjectData: states placement by the index of the added body, not by name. The node stored under a name is placed by the last descriptor carrying it. That follows from the placement clause together with `Population.PopulatedAll`: the stored body is the one added for that descriptor, and `BuiltFrom` binds the body to its node. It is not restated as a lemma of its own.
