/** The client's per-frame bookkeeping around its object store (mStore):
    populating the store from object descriptors, draining the network's
    update queue into the store's scene nodes, and the keyboard-driven
    parts of the two frame callbacks. */
module ClientGraphics {
  import opened Scene
  import opened Sync
  import opened Controls
  import opened Population

  /** The force the T key applies to the object named "Box". */
  const BoxForce: Vec3 := Vec3(0.0, 2500.0, 1000.0)

  /** Name of the object the T key pushes. */
  const BoxName: string := "Box"

  class Client {
    /** mStore: object name to its entity, node, shape and body. */
    var store: map<string, StoreEntry>
    /** mUpdateQueue: records delivered by the network, oldest first. */
    var updateQueue: seq<UpdatePacket>
    /** The bodies added to the physics world, in order of addition. */
    var world: seq<RigidBody>
    /** mObjectData, in the order its iteration visits the entries. */
    var objectData: seq<ObjectData>
    /** The function-static counter `lol` of frameStarted. */
    var lol: int
    /** The nodes created under the scene root by parseObject. A node stays
        in the scene when its store entry is replaced. */
    var sceneNodes: set<SceneNode>

    /** Every stored node is in the scene. */
    ghost predicate NodesInScene()
      reads `store, `sceneNodes
    {
      forall n :: n in store ==> store[n].node in sceneNodes
    }

    /** Distinct names own distinct nodes. */
    ghost predicate DistinctNodes()
      reads `store
    {
      forall a, b :: a in store && b in store && a != b ==> store[a].node != store[b].node
    }

    /** Every stored body is in the world, built on its entry's shape and
        bound to its entry's node. */
    ghost predicate BodiesInWorld()
      reads `store, `world
    {
      forall n :: n in store ==>
        store[n].body in world && store[n].body.motionNode == store[n].node &&
        store[n].body.shape == store[n].shape
    }

    /** The object invariant: the three above, and the T-key counter stays
        within its cap. */
    ghost predicate Valid()
      reads `lol, `store, `world, `sceneNodes
    {
      0 <= lol <= MaxPushes && NodesInScene() && DistinctNodes() && BodiesInWorld()
    }

    /** The nodes of the stored entries: the only nodes the drain writes.
        A node whose entry was replaced is in the scene but not here. */
    ghost function StoredNodes(): set<SceneNode>
      reads `store
    {
      set n | n in store :: store[n].node
    }

    /** The pose a node holds. */
    static ghost function NodePose(node: SceneNode): Pose
      reads node
    {
      Pose(node.position, node.orientation)
    }

    /** The pose of every stored object's node, by name. */
    ghost function Poses(): (p: map<string, Pose>)
      requires NodesInScene()
      reads `store, `sceneNodes, sceneNodes
      ensures p.Keys == store.Keys
    {
      map n | n in store :: NodePose(store[n].node)
    }

    /** The state before the first frame: nothing stored, nothing queued, no
        bodies, and the counter at its initial value 0. */
    constructor ()
      ensures Valid()
      ensures store == map[] && sceneNodes == {} && updateQueue == [] && world == [] && objectData == [] && lol == 0
    {
      store := map[];
      sceneNodes := {};
      updateQueue := [];
      world := [];
      objectData := [];
      lol := 0;
    }

    /** The keyboard part of movePlayer: Escape asks the frame loop to stop;
        otherwise each held movement key adds its step of 20 to its axis. */
    method MovePlayer(keys: set<Key>) returns (ok: bool, moveVec: Move)
      ensures ok <==> Escape !in keys
      ensures ok ==> moveVec == KeyMove(keys)
      ensures !ok ==> moveVec == Move(0, 0, 0)
    {
      moveVec := Move(0, 0, 0);
      if Escape in keys {
        return false, moveVec;
      }
      if A in keys {
        moveVec := moveVec.(x := moveVec.x - Step);
      }
      if S in keys {
        moveVec := moveVec.(x := moveVec.x + Step);
      }
      if W in keys {
        moveVec := moveVec.(z := moveVec.z - Step);
      }
      if R in keys {
        moveVec := moveVec.(z := moveVec.z + Step);
      }
      if Space in keys {
        moveVec := moveVec.(y := moveVec.y + Step);
      }
      if F in keys {
        moveVec := moveVec.(y := moveVec.y - Step);
      }
      ok := true;
    }

    /** One pass of the drain loop: take the oldest record,
        write its position and orientation into the node of the object it
        names, and pop it. No other node changes. */
    method PopUpdate()
      requires NodesInScene() && DistinctNodes()
      requires updateQueue != [] && updateQueue[0].name in store
      modifies `updateQueue, store[updateQueue[0].name].node`position, store[updateQueue[0].name].node`orientation
      ensures updateQueue == old(updateQueue)[1..]
      ensures Poses() == old(Poses())[old(updateQueue)[0].name := PoseOf(old(updateQueue)[0])]
    {
      var temp := updateQueue[0];
      var node := store[temp.name].node;
      node.position := temp.position;
      node.orientation := temp.orientation;
      updateQueue := updateQueue[1..];
      forall n | n in store && n != temp.name
        ensures Poses()[n] == old(Poses())[n]
      {
        assert store[n].node != node;
      }
    }

    /** The drain loop of frameRenderingQueued: pop every queued record in
        arrival order and apply it. Every queued name must already be in the
        store: clientGraphics.cpp looks names up with a subscript that would insert
        an entry without a node and then use that node. */
    method DrainUpdateQueue()
      requires NodesInScene() && DistinctNodes()
      requires AllRegistered(updateQueue, store.Keys)
      modifies `updateQueue, StoredNodes()`position, StoredNodes()`orientation
      ensures updateQueue == []
      ensures Poses() == ApplyAll(old(Poses()), old(updateQueue))
      ensures forall n :: n in store && n !in PacketNames(old(updateQueue)) ==> Poses()[n] == old(Poses())[n]
      ensures forall n :: n in store && n in PacketNames(old(updateQueue)) ==>
                Poses()[n] == PoseOf(old(updateQueue)[LastIndex(PacketNames(old(updateQueue)), n)])
    {
      ghost var q0 := updateQueue;
      while updateQueue != []
        invariant AllRegistered(updateQueue, store.Keys)
        invariant ApplyAll(Poses(), updateQueue) == ApplyAll(old(Poses()), old(updateQueue))
        decreases |updateQueue|
      {
        PopUpdate();
      }
      forall n | n in store
        ensures n !in PacketNames(q0) ==> Poses()[n] == old(Poses())[n]
        ensures n in PacketNames(q0) ==> Poses()[n] == PoseOf(q0[LastIndex(PacketNames(q0), n)])
      {
        LastRecordWins(old(Poses()), q0, n);
      }
    }

    /** frameRenderingQueued: stop (returning false, draining nothing) when
        the window is closed or Escape is held; otherwise drain the update
        queue into the store and go on. */
    method FrameRenderingQueued(windowClosed: bool, keys: set<Key>) returns (cont: bool)
      requires Valid()
      requires !windowClosed && Escape !in keys ==> AllRegistered(updateQueue, store.Keys)
      modifies `updateQueue, StoredNodes()`position, StoredNodes()`orientation
      ensures cont <==> !windowClosed && Escape !in keys
      ensures !cont ==> updateQueue == old(updateQueue) && Poses() == old(Poses())
      ensures cont ==> updateQueue == [] && Poses() == ApplyAll(old(Poses()), old(updateQueue))
    {
      if windowClosed {
        return false;
      }
      var ok, _ := MovePlayer(keys);
      if !ok {
        return false;
      }
      assert Poses() == old(Poses());
      DrainUpdateQueue();
      cont := true;
    }

    /** The body stored under BoxName, when the store has one: all that
        FrameStarted may change besides the counter. */
    ghost function BoxFrame(): set<object>
      reads `store
    {
      if BoxName in store then {store[BoxName].body} else {}
    }

    /** The T-key part of frameStarted: while the counter is below its cap and
        T is held, count the use, wake the body of "Box" and apply BoxForce to
        it. "Box" must be stored whenever the push happens: clientGraphics.cpp looks it
        up with a subscript and uses the body it finds. */
    method FrameStarted(keys: set<Key>) returns (cont: bool)
      requires Valid()
      requires lol < MaxPushes && T in keys ==> BoxName in store
      modifies `lol, BoxFrame()
      ensures Valid()
      ensures cont
      ensures lol == CounterStep(old(lol), T in keys)
      ensures old(lol) < MaxPushes && T in keys ==>
                store[BoxName].body.woken &&
                store[BoxName].body.appliedForces == old(store[BoxName].body.appliedForces) + [BoxForce]
      ensures !(old(lol) < MaxPushes && T in keys) && BoxName in store ==> unchanged(store[BoxName].body)
    {
      if lol < MaxPushes && T in keys {
        lol := lol + 1;
        var body := store[BoxName].body;
        body.woken := true;
        body.appliedForces := body.appliedForces + [BoxForce];
      }
      cont := true;
    }

    /** parseObject: build the entity, its node (placed and scaled as the
        descriptor says), the shape the descriptor's type selects and a body
        bound to the node; add the body to the world and store the entry
        under the descriptor's name, replacing any entry of that name. The
        type must be 0 or 1: for any other value clientGraphics.cpp uses a shape it
        never set. */
    method ParseObject(d: ObjectData)
      requires Valid()
      requires ShapeKindOf(d.shapeType).Some?
      modifies `store, `world, `sceneNodes
      ensures Valid()
      ensures d.name in store && store == old(store)[d.name := store[d.name]]
      ensures BuiltFrom(store[d.name], d) && PlacedAt(store[d.name], d)
      ensures fresh(store[d.name].node) && fresh(store[d.name].body)
      ensures !store[d.name].body.woken && store[d.name].body.appliedForces == []
      ensures world == old(world) + [store[d.name].body]
      ensures sceneNodes == old(sceneNodes) + {store[d.name].node}
    {
      var entity := Entity(d.entName, d.meshName);
      var node := new SceneNode(d.sceneName, d.position, d.orientation);
      node.scale := d.scale;
      var shape := ShapeKindOf(d.shapeType).value;
      var body := new RigidBody(d.mass, d.friction, shape, node);
      world := world + [body];
      sceneNodes := sceneNodes + {node};
      store := store[d.name := StoreEntry(entity, node, shape, body)];
    }

    /** One pass of the parseObjectData loop: parse the k-th descriptor, so
        that what held of the store and the world for the first k
        descriptors holds for the first k + 1; the bodies already in the
        world stay where they are. */
    method ParseNext(ds: seq<ObjectData>, k: nat, ghost s0: map<string, StoreEntry>, ghost w0: nat)
      requires Valid() && Populated(store, world, s0, ds, w0, k)
      requires forall i :: 0 <= i < k ==> NodeAt(world[w0 + i].motionNode, ds[i])
      requires k < |ds| && ShapeKindOf(ds[k].shapeType).Some?
      modifies `store, `world, `sceneNodes
      ensures Valid() && Populated(store, world, s0, ds, w0, k + 1)
      ensures forall i :: 0 <= i < k + 1 ==> NodeAt(world[w0 + i].motionNode, ds[i])
      ensures forall i :: 0 <= i < w0 + k ==> world[i] == old(world)[i]
      ensures old(sceneNodes) <= sceneNodes
    {
      ParseObject(ds[k]);
      PopulatedStep(old(store), old(world), s0, ds, w0, k, store[ds[k].name]);
      forall i | 0 <= i < k + 1 ensures NodeAt(world[w0 + i].motionNode, ds[i]) {
        if i < k {
          assert world[w0 + i] == old(world)[w0 + i];
        }
      }
    }

    /** parseObjectData: one parseObject per descriptor, in order. The store
        and the world end as Populated describes for all the descriptors (see
        PopulatedAll for what that means name by name), and the node of the
        body added for each descriptor sits where that descriptor places it. */
    method ParseObjectData()
      requires Valid()
      requires forall i :: 0 <= i < |objectData| ==> ShapeKindOf(objectData[i].shapeType).Some?
      modifies `store, `world, `sceneNodes
      ensures Valid()
      ensures Populated(store, world, old(store), objectData, |old(world)|, |objectData|)
      ensures |world| == |old(world)| + |objectData| && world[..|old(world)|] == old(world)
      ensures forall i :: 0 <= i < |objectData| ==> NodeAt(world[|old(world)| + i].motionNode, objectData[i])
      ensures old(sceneNodes) <= sceneNodes
    {
      var ds := objectData;
      ghost var w0, s0 := |world|, store;
      PopulatedStart(store, world, ds);
      var k := 0;
      while k < |ds|
        invariant 0 <= k <= |ds|
        invariant Valid() && Populated(store, world, s0, ds, w0, k)
        invariant forall i :: 0 <= i < w0 ==> world[i] == old(world)[i]
        invariant forall i :: 0 <= i < k ==> NodeAt(world[w0 + i].motionNode, ds[i])
        invariant old(sceneNodes) <= sceneNodes
      {
        ParseNext(ds, k, s0, w0);
        k := k + 1;
      }
      assert world[..w0] == old(world);
    }
  }
}
