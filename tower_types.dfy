/** Values shared by the tower-stacking session: vectors, colours, raycast hits,
    blocks, the inspector settings of the TowerBuilder component, and the log of
    calls the session makes into the physics engine. Floating-point fields are
    modelled as exact reals. */
module TowerTypes {

  datatype Option<+T> = None | Some(value: T)

  datatype Vec3 = Vec3(x: real, y: real, z: real) {
    function Plus(o: Vec3): Vec3 {
      Vec3(x + o.x, y + o.y, z + o.z)
    }
  }

  datatype Color = Color(r: real, g: real, b: real, a: real)

  /** The two surface tags a tap may land on. */
  const BlockTag: string := "Block"
  const GroundTag: string := "Ground"

  /** What the camera raycast reports: the nearest hit point and the tag of the
      collider it hit. */
  datatype Hit = Hit(point: Vec3, tag: string)

  /** The components the block prefab carries; every instantiated block has the same. */
  datatype Prefab = Prefab(hasRenderer: bool, hasRigidbody: bool)

  /** The serialized fields of the component. The three has* flags say whether the
      UI references (score text, game-over panel, final score text) are assigned. */
  datatype Settings = Settings(
    prefab: Prefab,
    spawnOffset: real,
    minScale: real,
    maxScale: real,
    blockColors: Option<seq<Color>>,
    swayForce: real,
    maxTiltAngle: real,
    swayHeightMultiplier: real,
    hasScoreText: bool,
    hasGameOverPanel: bool,
    hasFinalScoreText: bool)

  /** The inspector defaults of the component, with the references left to the caller. */
  function DefaultSettings(prefab: Prefab, blockColors: Option<seq<Color>>, hasScoreText: bool,
                           hasGameOverPanel: bool, hasFinalScoreText: bool): Settings
  {
    Settings(prefab, 0.3, 1.7, 2.3, blockColors, 1.0, 30.0, 0.1,
             hasScoreText, hasGameOverPanel, hasFinalScoreText)
  }

  /** A placed block. `destroyed` stands for a GameObject reference that Unity
      reports as null once the object has been destroyed. */
  datatype Block = Block(
    position: Vec3,
    scale: Vec3,
    yaw: real,
    tag: string,
    color: Option<Color>,
    hasRigidbody: bool,
    destroyed: bool)

  /** One call the session makes into the engine for the block at `index` of the tower. */
  datatype EngineCall =
    | AddForce(index: nat, heightFactor: real, force: Vec3)
    | AddExplosionForce(index: nat, magnitude: real, radius: real)
    | Destroy(index: nat)

  /** A block a loop over the tower acts on: it is still alive and, for the
      loops that push rigid bodies, it has a Rigidbody. */
  predicate Selected(b: Block, physicsOnly: bool) {
    !b.destroyed && (physicsOnly ==> b.hasRigidbody)
  }

  /** `calls` names, in increasing tower order and each exactly once, the selected
      blocks among the first `upTo` of `blocks`, and no other block. */
  ghost predicate CoversInOrder(calls: seq<EngineCall>, blocks: seq<Block>, physicsOnly: bool, upTo: nat)
    requires upTo <= |blocks|
  {
    (forall k :: 0 <= k < |calls| ==>
       calls[k].index < upTo && Selected(blocks[calls[k].index], physicsOnly)) &&
    (forall k, l :: 0 <= k < l < |calls| ==> calls[k].index < calls[l].index) &&
    (forall i :: 0 <= i < upTo && Selected(blocks[i], physicsOnly) ==>
       exists k :: 0 <= k < |calls| && calls[k].index == i)
  }

  /** Looking at one more block keeps CoversInOrder: a selected block is recorded by
      appending a call for it, an unselected one by appending nothing. */
  lemma CoversStep(calls: seq<EngineCall>, blocks: seq<Block>, physicsOnly: bool, i: nat, c: EngineCall)
    requires i < |blocks| && CoversInOrder(calls, blocks, physicsOnly, i)
    ensures Selected(blocks[i], physicsOnly) && c.index == i ==>
      CoversInOrder(calls + [c], blocks, physicsOnly, i + 1)
    ensures !Selected(blocks[i], physicsOnly) ==> CoversInOrder(calls, blocks, physicsOnly, i + 1)
  {
    var next := calls + [c];
    if Selected(blocks[i], physicsOnly) && c.index == i {
      forall j | 0 <= j < i + 1 && Selected(blocks[j], physicsOnly)
        ensures exists k :: 0 <= k < |next| && next[k].index == j
      {
        if j == i {
          assert next[|calls|].index == j;
        } else {
          var k :| 0 <= k < |calls| && calls[k].index == j;
          assert next[k].index == j;
        }
      }
    }
  }
}
