/** The per-frame sway: every live block with a rigid body is pushed sideways by a
    force that grows with its position in the tower. The trigonometric samples
    sin(t) and cos(0.8 t) and the frame time are passed in. */
module Sway {
  import opened TowerTypes

  /** The sway scale of the block at tower index i (0 is the bottom). */
  function HeightFactor(i: nat, multiplier: real): real {
    (i + 1) as real * multiplier
  }

  /** With a positive multiplier, a higher block always sways more. */
  lemma HeightFactorIncreasing(i: nat, j: nat, multiplier: real)
    requires i < j && multiplier > 0.0
    ensures HeightFactor(i, multiplier) < HeightFactor(j, multiplier)
  {
  }

  /** The lateral force for one block: x from the sine sample, z from the cosine sample. */
  function SwayVector(sinTime: real, cosTime: real, swayForce: real, heightFactor: real, deltaTime: real): Vec3 {
    Vec3(sinTime * swayForce * heightFactor * deltaTime, 0.0,
         cosTime * swayForce * heightFactor * deltaTime)
  }

  /** The AddForce calls one frame of sway makes for `blocks`: one per live block with a
      rigid body, bottom to top, each with its height factor and lateral force. */
  ghost predicate IsSwayLog(settings: Settings, blocks: seq<Block>, sinTime: real, cosTime: real,
                            deltaTime: real, calls: seq<EngineCall>)
  {
    CoversInOrder(calls, blocks, true, |blocks|) &&
    forall k :: 0 <= k < |calls| ==>
      calls[k] == AddForce(calls[k].index,
                           HeightFactor(calls[k].index, settings.swayHeightMultiplier),
                           SwayVector(sinTime, cosTime, settings.swayForce,
                                      HeightFactor(calls[k].index, settings.swayHeightMultiplier),
                                      deltaTime))
  }

  /** One frame of sway over the tower. Destroyed entries are skipped, an empty tower
      gets no force, and with a positive multiplier the height factors of the pushed
      blocks strictly increase up the tower. */
  method ApplySwayForce(settings: Settings, blocks: seq<Block>, sinTime: real, cosTime: real, deltaTime: real)
    returns (calls: seq<EngineCall>)
    ensures IsSwayLog(settings, blocks, sinTime, cosTime, deltaTime, calls)
    ensures blocks == [] ==> calls == []
    ensures settings.swayHeightMultiplier > 0.0 ==>
      forall k, l :: 0 <= k < l < |calls| ==> calls[k].heightFactor < calls[l].heightFactor
  {
    calls := [];
    if |blocks| == 0 {
      return;
    }
    for i := 0 to |blocks|
      invariant CoversInOrder(calls, blocks, true, i)
      invariant forall k :: 0 <= k < |calls| ==>
        calls[k] == AddForce(calls[k].index,
                             HeightFactor(calls[k].index, settings.swayHeightMultiplier),
                             SwayVector(sinTime, cosTime, settings.swayForce,
                                        HeightFactor(calls[k].index, settings.swayHeightMultiplier),
                                        deltaTime))
    {
      var block := blocks[i];
      var heightFactor := HeightFactor(i, settings.swayHeightMultiplier);
      var force := SwayVector(sinTime, cosTime, settings.swayForce, heightFactor, deltaTime);
      CoversStep(calls, blocks, true, i, AddForce(i, heightFactor, force));
      if block.destroyed {
        continue;
      }
      if block.hasRigidbody {
        calls := calls + [AddForce(i, heightFactor, force)];
      }
    }
    if settings.swayHeightMultiplier > 0.0 {
      forall k, l | 0 <= k < l < |calls|
        ensures calls[k].heightFactor < calls[l].heightFactor
      {
        HeightFactorIncreasing(calls[k].index, calls[l].index, settings.swayHeightMultiplier);
      }
    }
  }
}
