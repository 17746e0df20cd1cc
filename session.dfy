/** The game session of TowerBuilder as a value: the tower, the last placed block,
    the score, the game-over flag, the global time scale, the number of collapse
    coroutines waiting out their real-time delay, and the two UI texts. Each
    operation of the component is a transition on this value; the class in
    tower_builder.dfy performs the same transitions in place. */
module GameSession {
  import opened TowerTypes
  import opened ScoreText
  import opened Placement
  import opened Collapse

  datatype Session = Session(
    blocks: seq<Block>,
    lastPlaced: Option<nat>,
    score: nat,
    gameOver: bool,
    timeScale: real,
    pendingCollapses: nat,
    scoreText: Option<string>,
    finalScoreText: Option<string>)

  /** What UpdateScoreText leaves in the score text: nothing when no text is assigned. */
  function ScoreDisplay(settings: Settings, score: nat): Option<string> {
    if settings.hasScoreText then Some(ScoreLabel(score)) else None
  }

  /** The engine inputs of one Update: the resolved tap, the draws for a placement,
      the tilt of the top block, the explosion magnitudes, and the sway samples. */
  datatype Frame = Frame(
    hit: Option<Hit>,
    roll: Roll,
    tilt: real,
    blasts: seq<real>,
    sinTime: real,
    cosTime: real,
    deltaTime: real)

  /** What the engine guarantees of a frame's inputs: the draws fit the settings, the
      magnitudes lie in [5, 10], sine and cosine samples lie in [-1, 1], and the tilt,
      an angle between two directions, lies in [0, 180] degrees. */
  predicate FrameFits(settings: Settings, f: Frame) {
    RollFits(settings, f.roll) && BlastsFit(f.blasts) &&
    -1.0 <= f.sinTime <= 1.0 && -1.0 <= f.cosTime <= 1.0 &&
    0.0 <= f.tilt <= 180.0
  }

  /** The session invariant: the score counts the blocks, the last placed block is
      the top of the tower, every block was configured from the settings, the time
      scale is normal unless a collapse is still in its slow-motion window, and the
      score text shows the score. */
  ghost predicate Inv(settings: Settings, s: Session) {
    s.score == |s.blocks| &&
    s.lastPlaced == (if s.blocks == [] then None else Some(|s.blocks| - 1)) &&
    (forall i :: 0 <= i < |s.blocks| ==> WellFormedBlock(settings, s.blocks[i])) &&
    (s.timeScale == NormalTimeScale || s.timeScale == SlowMotionTimeScale) &&
    (s.pendingCollapses == 0 ==> s.timeScale == NormalTimeScale) &&
    s.scoreText == ScoreDisplay(settings, s.score)
  }

  /** The field initialisers followed by Start: empty tower, score 0, normal speed, no
      collapse waiting, no final text, score text shown. */
  function Initial(settings: Settings): (s: Session)
    ensures Inv(settings, s) && s.blocks == [] && s.score == 0 && !s.gameOver
    ensures s.timeScale == NormalTimeScale && s.pendingCollapses == 0 && s.finalScoreText == None
  {
    Session([], None, 0, false, NormalTimeScale, 0, ScoreDisplay(settings, 0), None)
  }

  /** PlaceBlock: a hit on a "Block" or "Ground" surface appends exactly one configured
      block, makes it the last placed block and adds one to the score; a miss or any
      other surface changes nothing. */
  function PlaceBlock(settings: Settings, s: Session, hit: Option<Hit>, roll: Roll): (r: Session)
    requires RollFits(settings, roll)
    ensures Placeable(hit) ==>
      |r.blocks| == |s.blocks| + 1 && r.blocks[..|s.blocks|] == s.blocks &&
      r.blocks[|s.blocks|] == ConfigureBlock(settings, hit.value.point, roll) &&
      r.lastPlaced == Some(|s.blocks|) && r.score == s.score + 1 &&
      r.scoreText == ScoreDisplay(settings, r.score) &&
      r.gameOver == s.gameOver && r.timeScale == s.timeScale &&
      r.pendingCollapses == s.pendingCollapses && r.finalScoreText == s.finalScoreText
    ensures !Placeable(hit) ==> r == s
  {
    if Placeable(hit) then
      var block := ConfigureBlock(settings, hit.value.point, roll);
      var score := s.score + 1;
      s.(blocks := s.blocks + [block], lastPlaced := Some(|s.blocks|), score := score,
         scoreText := ScoreDisplay(settings, score))
    else
      s
  }

  /** The last placed block is set and not destroyed (Unity's `!= null`), and the tower
      is not empty. */
  predicate TopBlockPresent(s: Session) {
    s.lastPlaced.Some? && s.lastPlaced.value < |s.blocks| &&
    !s.blocks[s.lastPlaced.value].destroyed && |s.blocks| != 0
  }

  /** CheckTowerStability starts a collapse exactly when there is a top block and its
      tilt is strictly beyond the maximum. */
  predicate ShouldCollapse(settings: Settings, s: Session, tilt: real) {
    TopBlockPresent(s) && tilt > settings.maxTiltAngle
  }

  /** The part of CollapseTower before its real-time wait: game over, slow motion,
      one more coroutine waiting. The tower and score stay as they are. */
  function BeginCollapse(s: Session): (r: Session)
    ensures r.gameOver && r.timeScale == SlowMotionTimeScale
    ensures r.pendingCollapses == s.pendingCollapses + 1
    ensures r.blocks == s.blocks && r.lastPlaced == s.lastPlaced && r.score == s.score
    ensures r.scoreText == s.scoreText && r.finalScoreText == s.finalScoreText
  {
    s.(gameOver := true, timeScale := SlowMotionTimeScale, pendingCollapses := s.pendingCollapses + 1)
  }

  /** The part of CollapseTower after its wait: normal speed again and, when the panel
      and its text are assigned, "Final Height: " + score. The tower, the score and
      the game-over flag stay as they are. */
  function FinishCollapse(settings: Settings, s: Session): (r: Session)
    requires s.pendingCollapses > 0
    ensures r.timeScale == NormalTimeScale && r.pendingCollapses == s.pendingCollapses - 1
    ensures r.finalScoreText ==
      if settings.hasGameOverPanel && settings.hasFinalScoreText then Some(FinalLabel(s.score))
      else s.finalScoreText
    ensures r.blocks == s.blocks && r.lastPlaced == s.lastPlaced && r.score == s.score
    ensures r.gameOver == s.gameOver && r.scoreText == s.scoreText
  {
    var text := if settings.hasGameOverPanel && settings.hasFinalScoreText
                then Some(FinalLabel(s.score)) else s.finalScoreText;
    s.(timeScale := NormalTimeScale, pendingCollapses := s.pendingCollapses - 1, finalScoreText := text)
  }

  /** RestartGame: no blocks, no last placed block, score 0, play resumed, score text
      reset. It does not touch the time scale, a waiting collapse coroutine, or the
      final score text. */
  function Restart(settings: Settings, s: Session): (r: Session)
    ensures r.blocks == [] && r.lastPlaced == None && r.score == 0 && !r.gameOver
    ensures r.scoreText == ScoreDisplay(settings, 0)
    ensures r.timeScale == s.timeScale && r.pendingCollapses == s.pendingCollapses
    ensures r.finalScoreText == s.finalScoreText
  {
    s.(blocks := [], lastPlaced := None, score := 0, gameOver := false,
       scoreText := ScoreDisplay(settings, 0))
  }

  /** Update: while the game is not over, place for the tap, then check stability
      (possibly starting the collapse); sway changes no session state. */
  function Tick(settings: Settings, s: Session, f: Frame): (r: Session)
    requires FrameFits(settings, f)
    ensures s.gameOver ==> r == s
  {
    if s.gameOver then s
    else
      var placed := PlaceBlock(settings, s, f.hit, f.roll);
      if ShouldCollapse(settings, placed, f.tilt) then BeginCollapse(placed) else placed
  }

  /** A run of Update calls, one per frame. */
  function RunTicks(settings: Settings, s: Session, frames: seq<Frame>): Session
    requires forall i :: 0 <= i < |frames| ==> FrameFits(settings, frames[i])
    decreases |frames|
  {
    if frames == [] then s else RunTicks(settings, Tick(settings, s, frames[0]), frames[1..])
  }

  // ---- The invariant holds initially and every operation keeps it. ----

  lemma PlaceBlockKeepsInv(settings: Settings, s: Session, hit: Option<Hit>, roll: Roll)
    requires Inv(settings, s) && RollFits(settings, roll)
    ensures Inv(settings, PlaceBlock(settings, s, hit, roll))
  {
  }

  lemma BeginCollapseKeepsInv(settings: Settings, s: Session)
    requires Inv(settings, s)
    ensures Inv(settings, BeginCollapse(s))
  {
  }

  lemma FinishCollapseKeepsInv(settings: Settings, s: Session)
    requires Inv(settings, s) && s.pendingCollapses > 0
    ensures Inv(settings, FinishCollapse(settings, s))
  {
  }

  lemma RestartKeepsInv(settings: Settings, s: Session)
    requires Inv(settings, s)
    ensures Inv(settings, Restart(settings, s))
  {
  }

  lemma TickKeepsInv(settings: Settings, s: Session, f: Frame)
    requires Inv(settings, s) && FrameFits(settings, f)
    ensures Inv(settings, Tick(settings, s, f))
  {
  }

  /** The score equals the block count after any sequence of frames. */
  lemma {:induction false} RunTicksKeepsInv(settings: Settings, s: Session, frames: seq<Frame>)
    requires Inv(settings, s)
    requires forall i :: 0 <= i < |frames| ==> FrameFits(settings, frames[i])
    ensures Inv(settings, RunTicks(settings, s, frames))
    ensures RunTicks(settings, s, frames).score == |RunTicks(settings, s, frames).blocks|
    decreases |frames|
  {
    if frames != [] {
      TickKeepsInv(settings, s, frames[0]);
      RunTicksKeepsInv(settings, Tick(settings, s, frames[0]), frames[1..]);
    }
  }

  // ---- Properties of runs of frames. ----

  /** While the game is over, Update does nothing: no placement, no stability check. */
  lemma {:induction false} GameOverFreezes(settings: Settings, s: Session, frames: seq<Frame>)
    requires s.gameOver
    requires forall i :: 0 <= i < |frames| ==> FrameFits(settings, frames[i])
    ensures RunTicks(settings, s, frames) == s
    decreases |frames|
  {
    if frames != [] {
      GameOverFreezes(settings, Tick(settings, s, frames[0]), frames[1..]);
    }
  }

  /** N taps on valid surfaces, with the top block never tilted past the limit, grow the
      tower by exactly N blocks on top of the old ones and the score by exactly N. */
  lemma {:induction false} ValidTapsGrowTower(settings: Settings, s: Session, frames: seq<Frame>)
    requires !s.gameOver
    requires forall i :: 0 <= i < |frames| ==>
      FrameFits(settings, frames[i]) && Placeable(frames[i].hit) &&
      frames[i].tilt <= settings.maxTiltAngle
    ensures var r := RunTicks(settings, s, frames);
      !r.gameOver && r.score == s.score + |frames| &&
      |r.blocks| == |s.blocks| + |frames| && r.blocks[..|s.blocks|] == s.blocks
    ensures var r := RunTicks(settings, s, frames);
      (forall i :: |s.blocks| <= i < |r.blocks| ==> !r.blocks[i].destroyed) &&
      (frames != [] ==> r.lastPlaced == Some(|r.blocks| - 1) && TopBlockPresent(r))
    decreases |frames|
  {
    if frames != [] {
      var t := Tick(settings, s, frames[0]);
      assert t == PlaceBlock(settings, s, frames[0].hit, frames[0].roll);
      ValidTapsGrowTower(settings, t, frames[1..]);
      var r := RunTicks(settings, t, frames[1..]);
      assert r.blocks[..|s.blocks|] == r.blocks[..|t.blocks|][..|s.blocks|];
      assert r.blocks[|s.blocks|] == r.blocks[..|t.blocks|][|s.blocks|] == t.blocks[|s.blocks|];
    }
  }

  /** Taps that miss or land on any other surface, while the stability check stays
      quiet, leave the whole session unchanged. */
  lemma {:induction false} InvalidTapsChangeNothing(settings: Settings, s: Session, frames: seq<Frame>)
    requires forall i :: 0 <= i < |frames| ==>
      FrameFits(settings, frames[i]) && !Placeable(frames[i].hit) &&
      !ShouldCollapse(settings, s, frames[i].tilt)
    ensures RunTicks(settings, s, frames) == s
    decreases |frames|
  {
    if frames != [] {
      assert Tick(settings, s, frames[0]) == s;
      InvalidTapsChangeNothing(settings, s, frames[1..]);
    }
  }

  /** Taps that miss or land on any other surface never change the tower, the last
      placed block or the score, whatever the tilt of the top block does meanwhile. */
  lemma {:induction false} InvalidTapsKeepTower(settings: Settings, s: Session, frames: seq<Frame>)
    requires forall i :: 0 <= i < |frames| ==>
      FrameFits(settings, frames[i]) && !Placeable(frames[i].hit)
    ensures RunTicks(settings, s, frames).blocks == s.blocks
    ensures RunTicks(settings, s, frames).lastPlaced == s.lastPlaced
    ensures RunTicks(settings, s, frames).score == s.score
    decreases |frames|
  {
    if frames != [] {
      var t := Tick(settings, s, frames[0]);
      assert t.blocks == s.blocks && t.lastPlaced == s.lastPlaced && t.score == s.score;
      InvalidTapsKeepTower(settings, t, frames[1..]);
    }
  }

  /** A collapse starts at most once per game: over any run of frames, the number of
      collapse coroutines grows by one exactly when the run ends the game, and by
      nothing otherwise. */
  lemma {:induction false} CollapseAtMostOnce(settings: Settings, s: Session, frames: seq<Frame>)
    requires forall i :: 0 <= i < |frames| ==> FrameFits(settings, frames[i])
    ensures var r := RunTicks(settings, s, frames);
      r.pendingCollapses == s.pendingCollapses + (if r.gameOver && !s.gameOver then 1 else 0)
    ensures s.gameOver ==> RunTicks(settings, s, frames).gameOver
    decreases |frames|
  {
    if frames != [] {
      var t := Tick(settings, s, frames[0]);
      if s.gameOver {
        GameOverFreezes(settings, s, frames);
      } else if t.gameOver {
        GameOverFreezes(settings, t, frames[1..]);
      } else {
        CollapseAtMostOnce(settings, t, frames[1..]);
      }
    }
  }

  /** The tilt threshold is strict: a top block tilted exactly maxTiltAngle does not
      start the collapse, and one tilted further does. */
  lemma CollapseThresholdIsStrict(settings: Settings, s: Session, tilt: real)
    requires TopBlockPresent(s)
    ensures !ShouldCollapse(settings, s, settings.maxTiltAngle)
    ensures tilt > settings.maxTiltAngle ==> ShouldCollapse(settings, s, tilt)
  {
  }

  /** Restarting twice is the same as restarting once. */
  lemma RestartIdempotent(settings: Settings, s: Session)
    ensures Restart(settings, Restart(settings, s)) == Restart(settings, s)
  {
  }

  /** RestartGame neither restores the time scale nor stops a collapse coroutine that
      is still waiting: a restart inside the slow-motion window starts the new game in
      slow motion, and when the wait ends the panel text shows the new game's score. */
  lemma RestartKeepsWaitingCollapse(settings: Settings, s: Session)
    requires settings.hasGameOverPanel && settings.hasFinalScoreText
    ensures !Restart(settings, BeginCollapse(s)).gameOver
    ensures Restart(settings, BeginCollapse(s)).timeScale == SlowMotionTimeScale
    ensures Restart(settings, BeginCollapse(s)).pendingCollapses == s.pendingCollapses + 1
    ensures FinishCollapse(settings, Restart(settings, BeginCollapse(s))).finalScoreText ==
      Some(FinalLabel(0))
  {
  }

  /** A five-block game: five valid taps show "Height: 5"; a 35 degree tilt of the
      top block under the default 30 degree limit ends the game; after the wait the
      panel reads "Final Height: 5" and the clock runs at normal speed again. */
  lemma FiveBlockScenario(settings: Settings, frames: seq<Frame>, last: Frame)
    returns (built: Session, collapsed: Session, over: Session)
    requires settings == DefaultSettings(settings.prefab, settings.blockColors, true, true, true)
    requires |frames| == 5
    requires forall i :: 0 <= i < |frames| ==>
      FrameFits(settings, frames[i]) && Placeable(frames[i].hit) && frames[i].tilt <= 30.0
    requires FrameFits(settings, last) && !Placeable(last.hit) && last.tilt == 35.0
    ensures built == RunTicks(settings, Initial(settings), frames)
    ensures built.score == 5 && built.scoreText == Some("Height: 5")
    ensures collapsed == Tick(settings, built, last)
    ensures collapsed.gameOver && collapsed.timeScale == SlowMotionTimeScale
    ensures collapsed.pendingCollapses == 1
    ensures over == FinishCollapse(settings, collapsed)
    ensures over.finalScoreText == Some("Final Height: 5") && over.timeScale == NormalTimeScale
  {
    var s0 := Initial(settings);
    ValidTapsGrowTower(settings, s0, frames);
    RunTicksKeepsInv(settings, s0, frames);
    built := RunTicks(settings, s0, frames);
    CollapseAtMostOnce(settings, s0, frames);
    assert NatToString(5) == [DigitChar(5)] == "5";
    assert ScoreLabel(5) == "Height: 5" && FinalLabel(5) == "Final Height: 5";
    collapsed := Tick(settings, built, last);
    over := FinishCollapse(settings, collapsed);
  }
}
