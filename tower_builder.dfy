/** The TowerBuilder component: its fields are updated in place by the frame update,
    placement, the two halves of the collapse coroutine and the restart button. Each
    method except UpdateScoreText ensures that the new State() is the matching
    GameSession transition of the old one (Update follows Tick, RestartGame follows
    Restart, CheckTowerStability follows BeginCollapse exactly when ShouldCollapse
    holds) and that the invariant still holds. UpdateScoreText changes only the score
    text; its callers restore the invariant. The global Time.timeScale is held as a
    field. */
module Game {
  import opened TowerTypes
  import opened ScoreText
  import opened Placement
  import opened Sway
  import opened Collapse
  import opened GameSession

  class TowerBuilder {
    const settings: Settings
    var towerBlocks: seq<Block>
    /** Index of the last placed block in towerBlocks; None is a null reference. */
    var lastPlacedBlock: Option<nat>
    var score: nat
    var gameOver: bool
    /** Time.timeScale. */
    var timeScale: real
    /** Collapse coroutines suspended in their real-time wait. */
    var pendingCollapses: nat
    var scoreText: Option<string>
    var finalScoreText: Option<string>

    function State(): Session
      reads this
    {
      Session(towerBlocks, lastPlacedBlock, score, gameOver, timeScale, pendingCollapses,
              scoreText, finalScoreText)
    }

    ghost predicate Valid()
      reads this
    {
      Inv(settings, State())
    }

    /** The field initialisers, then Start: the score text shows "Height: 0". */
    constructor (settings: Settings)
      ensures this.settings == settings
      ensures Valid() && State() == Initial(settings)
    {
      this.settings := settings;
      towerBlocks := [];
      lastPlacedBlock := None;
      score := 0;
      gameOver := false;
      timeScale := NormalTimeScale;
      pendingCollapses := 0;
      scoreText := None;
      finalScoreText := None;
      new;
      UpdateScoreText();
    }

    /** Writes "Height: " + score when a score text is assigned. */
    method UpdateScoreText()
      modifies this`scoreText
      ensures settings.hasScoreText ==> scoreText == Some(ScoreLabel(score))
      ensures !settings.hasScoreText ==> scoreText == old(scoreText)
    {
      if settings.hasScoreText {
        scoreText := Some(ScoreLabel(score));
      }
    }

    /** One frame. Input, the stability check and the sway run only while the game is
        not over; the flag is read once, so the sway still runs in the frame whose
        stability check starts the collapse. Returns the explosion and sway forces
        applied to the engine in that frame. */
    method Update(frame: Frame) returns (explosions: seq<EngineCall>, pushes: seq<EngineCall>)
      requires Valid() && FrameFits(settings, frame) && |frame.blasts| > |towerBlocks|
      modifies this
      ensures Valid() && State() == Tick(settings, old(State()), frame)
      ensures old(gameOver) ==> explosions == [] && pushes == []
      ensures !old(gameOver) ==>
        IsSwayLog(settings, towerBlocks, frame.sinTime, frame.cosTime, frame.deltaTime, pushes)
      ensures |towerBlocks| <= |old(towerBlocks)| + 1
      ensures !old(gameOver) && gameOver ==> IsBlastLog(towerBlocks, frame.blasts, explosions)
      ensures !gameOver ==> explosions == []
    {
      explosions, pushes := [], [];
      if !gameOver {
        PlaceBlock(frame.hit, frame.roll);
        explosions := CheckTowerStability(frame.tilt, frame.blasts);
        pushes := ApplySwayForce(settings, towerBlocks, frame.sinTime, frame.cosTime, frame.deltaTime);
      }
    }

    /** A tap resolved by the raycast: a hit on a "Block" or "Ground" surface places a
        configured block on top of the tower; anything else does nothing. */
    method PlaceBlock(hit: Option<Hit>, roll: Roll)
      requires Valid() && RollFits(settings, roll)
      modifies this
      ensures Valid() && State() == GameSession.PlaceBlock(settings, old(State()), hit, roll)
    {
      if hit.Some? {
        if IsValidSurface(hit.value.tag) {
          var newBlock := ConfigureBlock(settings, hit.value.point, roll);
          towerBlocks := towerBlocks + [newBlock];
          lastPlacedBlock := Some(|towerBlocks| - 1);
          score := score + 1;
          UpdateScoreText();
        }
      }
    }

    /** Starts the collapse when the last placed block is present and tilted strictly
        more than maxTiltAngle; returns the explosion forces of that start. */
    method CheckTowerStability(tilt: real, blasts: seq<real>) returns (explosions: seq<EngineCall>)
      requires Valid() && |blasts| >= |towerBlocks| && BlastsFit(blasts)
      modifies this
      ensures Valid()
      ensures State() == if ShouldCollapse(settings, old(State()), tilt)
                         then GameSession.BeginCollapse(old(State())) else old(State())
      ensures ShouldCollapse(settings, old(State()), tilt) ==> IsBlastLog(towerBlocks, blasts, explosions)
      ensures !ShouldCollapse(settings, old(State()), tilt) ==> explosions == []
    {
      explosions := [];
      if lastPlacedBlock.None? || towerBlocks[lastPlacedBlock.value].destroyed || |towerBlocks| == 0 {
        return;
      }
      if tilt > settings.maxTiltAngle {
        explosions := BeginCollapse(blasts);
      }
    }

    /** CollapseTower up to its real-time wait: game over, slow motion, and an
        explosion force on every live block with a rigid body. */
    method BeginCollapse(blasts: seq<real>) returns (explosions: seq<EngineCall>)
      requires Valid() && |blasts| >= |towerBlocks| && BlastsFit(blasts)
      modifies this
      ensures Valid() && State() == GameSession.BeginCollapse(old(State()))
      ensures IsBlastLog(towerBlocks, blasts, explosions)
    {
      gameOver := true;
      timeScale := SlowMotionTimeScale;
      explosions := ExplodeBlocks(towerBlocks, blasts);
      pendingCollapses := pendingCollapses + 1;
    }

    /** CollapseTower after its wait: normal speed, and the final height on the panel. */
    method FinishCollapse()
      requires Valid() && pendingCollapses > 0
      modifies this
      ensures Valid() && State() == GameSession.FinishCollapse(settings, old(State()))
    {
      pendingCollapses := pendingCollapses - 1;
      timeScale := NormalTimeScale;
      if settings.hasGameOverPanel {
        if settings.hasFinalScoreText {
          finalScoreText := Some(FinalLabel(score));
        }
      }
    }

    /** The restart button: destroys every live block, empties the tower, and resets
        the last placed block, the score, the game-over flag and the score text.
        Returns the Destroy calls made. */
    method RestartGame() returns (destroyed: seq<EngineCall>)
      requires Valid()
      modifies this
      ensures Valid() && State() == Restart(settings, old(State()))
      ensures CoversInOrder(destroyed, old(towerBlocks), false, |old(towerBlocks)|)
      ensures forall k :: 0 <= k < |destroyed| ==> destroyed[k].Destroy?
    {
      destroyed := DestroyBlocks(towerBlocks);
      towerBlocks := [];
      lastPlacedBlock := None;
      score := 0;
      gameOver := false;
      UpdateScoreText();
    }
  }
}
