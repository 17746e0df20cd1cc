/** The blast that starts a collapse: every live block with a rigid body gets one
    explosion force of random magnitude. The random magnitudes are passed in, one per
    tower index; the jittered explosion origin depends on the block's simulated
    position and is not modelled. */
module Collapse {
  import opened TowerTypes

  /** Random.Range(5f, 10f) bounds the explosion magnitude; the radius is fixed. */
  const MinBlast: real := 5.0
  const MaxBlast: real := 10.0
  const BlastRadius: real := 5.0

  /** Time scale during the slow-motion window, and the normal one. */
  const SlowMotionTimeScale: real := 0.5
  const NormalTimeScale: real := 1.0

  predicate BlastsFit(blasts: seq<real>) {
    forall i :: 0 <= i < |blasts| ==> MinBlast <= blasts[i] <= MaxBlast
  }

  /** The AddExplosionForce calls of a collapse: one per live block with a rigid
      body, bottom to top, with that block's drawn magnitude and the fixed radius. */
  ghost predicate IsBlastLog(blocks: seq<Block>, blasts: seq<real>, calls: seq<EngineCall>)
    requires |blasts| >= |blocks|
  {
    CoversInOrder(calls, blocks, true, |blocks|) &&
    forall k :: 0 <= k < |calls| ==>
      calls[k] == AddExplosionForce(calls[k].index, blasts[calls[k].index], BlastRadius)
  }

  /** The loop of CollapseTower that makes all blocks fall: destroyed entries and
      blocks without a rigid body are skipped; every magnitude used is in [5, 10]. */
  method ExplodeBlocks(blocks: seq<Block>, blasts: seq<real>) returns (calls: seq<EngineCall>)
    requires |blasts| >= |blocks| && BlastsFit(blasts)
    ensures IsBlastLog(blocks, blasts, calls)
    ensures forall k :: 0 <= k < |calls| ==> MinBlast <= calls[k].magnitude <= MaxBlast
  {
    calls := [];
    for i := 0 to |blocks|
      invariant CoversInOrder(calls, blocks, true, i)
      invariant forall k :: 0 <= k < |calls| ==>
        calls[k] == AddExplosionForce(calls[k].index, blasts[calls[k].index], BlastRadius)
    {
      var block := blocks[i];
      var call := AddExplosionForce(i, blasts[i], BlastRadius);
      CoversStep(calls, blocks, true, i, call);
      if !block.destroyed && block.hasRigidbody {
        calls := calls + [call];
      }
    }
  }

  /** The loop of RestartGame that destroys the blocks: one Destroy call per live
      block, bottom to top, and none for an entry already destroyed. */
  method DestroyBlocks(blocks: seq<Block>) returns (calls: seq<EngineCall>)
    ensures CoversInOrder(calls, blocks, false, |blocks|)
    ensures forall k :: 0 <= k < |calls| ==> calls[k].Destroy?
  {
    calls := [];
    for i := 0 to |blocks|
      invariant CoversInOrder(calls, blocks, false, i)
      invariant forall k :: 0 <= k < |calls| ==> calls[k].Destroy?
    {
      CoversStep(calls, blocks, false, i, Destroy(i));
      if !blocks[i].destroyed {
        calls := calls + [Destroy(i)];
      }
    }
  }
}
