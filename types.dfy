/** The records the client's frame loop works on: descriptors of objects to
    build, update packets from the network, and the scene-graph and physics
    objects that an entry of the object store refers to.

    Positions, orientations and scales are only ever copied by the modelled
    code, so they are plain records of reals and no arithmetic is done on them. */
module Scene {

  datatype Option<T> = None | Some(value: T)

  /** An Ogre::Vector3 / btVector3. */
  datatype Vec3 = Vec3(x: real, y: real, z: real)

  /** An Ogre::Quaternion. */
  datatype Quat = Quat(w: real, x: real, y: real, z: real)

  /** What an update record sets on a scene node: position and orientation. */
  datatype Pose = Pose(position: Vec3, orientation: Quat)

  /** The collision shape a descriptor asks for. */
  datatype ShapeKind = Box | Trimesh

  /** A render entity: an instance of a mesh, created under its own name. */
  datatype Entity = Entity(name: string, mesh: string)

  /** One t_objectData record: everything parseObject reads from it. */
  datatype ObjectData = ObjectData(
    name: string,         // key of the entry in the object store
    entName: string,      // name of the render entity
    meshName: string,     // mesh the entity instantiates
    sceneName: string,    // name of the scene node
    position: Vec3,
    orientation: Quat,
    scale: Vec3,
    shapeType: int,       // 0: box, 1: triangle mesh
    mass: real,
    friction: real)

  /** One t_updatePacket: an authoritative pose for a named object. */
  datatype UpdatePacket = UpdatePacket(name: string, position: Vec3, orientation: Quat)

  /** The switch on the descriptor's type: 0 selects a box, 1 a triangle
      mesh, and no other value selects a shape. */
  function ShapeKindOf(shapeType: int): (r: Option<ShapeKind>)
    ensures r == Some(Box) <==> shapeType == 0
    ensures r == Some(Trimesh) <==> shapeType == 1
    ensures r == None <==> shapeType != 0 && shapeType != 1
  {
    if shapeType == 0 then Some(Box)
    else if shapeType == 1 then Some(Trimesh)
    else None
  }

  /** A render scene node, a child of the scene root. Its transform is
      written in place by the frame loop. */
  class SceneNode {
    const name: string
    var position: Vec3
    var orientation: Quat
    var scale: Vec3

    /** createChildSceneNode(name, position, orientation): unit scale. */
    constructor (name: string, position: Vec3, orientation: Quat)
      ensures this.name == name && this.position == position && this.orientation == orientation
      ensures scale == Vec3(1.0, 1.0, 1.0)
    {
      this.name := name;
      this.position := position;
      this.orientation := orientation;
      this.scale := Vec3(1.0, 1.0, 1.0);
    }
  }

  /** A rigid body built from mass, friction, a shape and a motion state bound
      to a scene node. Only the calls to activate() and the central forces applied to it
      are tracked; the simulation itself is not part of this model. */
  class RigidBody {
    const mass: real
    const friction: real
    const shape: ShapeKind
    const motionNode: SceneNode
    /** Whether activate() has been called on the body. */
    var woken: bool
    var appliedForces: seq<Vec3>

    constructor (mass: real, friction: real, shape: ShapeKind, motionNode: SceneNode)
      ensures this.mass == mass && this.friction == friction && this.shape == shape
      ensures this.motionNode == motionNode
      ensures !woken && appliedForces == []
    {
      this.mass := mass;
      this.friction := friction;
      this.shape := shape;
      this.motionNode := motionNode;
      woken := false;
      appliedForces := [];
    }
  }

  /** One t_Store value: the entity, the node it is attached to, the shape
      and the body of one named object. */
  datatype StoreEntry = StoreEntry(entity: Entity, node: SceneNode, shape: ShapeKind, body: RigidBody)

  /** The parts of an entry that parseObject fixes once and for all from a
      descriptor. */
  predicate BuiltFrom(e: StoreEntry, d: ObjectData)
  {
    && e.entity == Entity(d.entName, d.meshName)
    && ShapeKindOf(d.shapeType) == Some(e.shape)
    && e.node.name == d.sceneName
    && e.body.mass == d.mass
    && e.body.friction == d.friction
    && e.body.shape == e.shape
    && e.body.motionNode == e.node
  }

  /** The node has the transform the descriptor gives it. */
  ghost predicate NodeAt(node: SceneNode, d: ObjectData)
    reads node
  {
    node.position == d.position && node.orientation == d.orientation && node.scale == d.scale
  }

  /** The entry's node has the transform the descriptor gives it. */
  ghost predicate PlacedAt(e: StoreEntry, d: ObjectData)
    reads e.node
  {
    NodeAt(e.node, d)
  }
}
