# TowerBuilder session model

A Dafny model of the game-session logic of the TowerBuilder component of a mobile
tower-stacking game. The player taps to drop blocks onto a stack. Each frame the
component:

1. places a block for a tap that lands on a "Block" or "Ground" surface;
2. checks whether the last placed block tilts past `maxTiltAngle`, and if so starts
   the collapse;
3. pushes every block sideways with a force that grows with its height.

The collapse ends the game at once and switches to slow motion. After a real-time
wait it restores normal speed and shows "Final Height: " + score. The restart button
empties the tower and resets the session.

Layout:

- `tower_types.dfy` (`TowerTypes`): vectors, colours, raycast hits, blocks, the
  component's settings, the log of engine calls, and `CoversInOrder`, which says that
  a loop over the tower called the engine once per selected block, in tower order.
- `score_text.dfy` (`ScoreText`): decimal rendering of the score and the two UI texts.
- `placement.dfy` (`Placement`): which hits may receive a block, and how a new block
  is configured (tag, width, colour, yaw).
- `sway.dfy` (`Sway`): the height factor and the sway loop.
- `collapse.dfy` (`Collapse`): the explosion loop of the collapse and the destroy loop
  of the restart.
- `session.dfy` (`GameSession`): the session as a value. It holds the invariant, one
  transition per operation, and lemmas about single steps and about runs of frames.
- `tower_builder.dfy` (`Game`): the component as a class. Its fields are updated in
  place. Each method except `UpdateScoreText` ensures that the new `State()` is the
  matching `GameSession` transition of the old one, and that the invariant still holds.
  `UpdateScoreText` is a helper that changes only the score text; its callers restore
  the invariant.

Engine-supplied values are inputs:

- the raycast result is an `Option<Hit>` (None for no tap or a miss);
- the tilt of the top block is a `real` in [0, 180] degrees;
- the random width, colour index and Perlin sample are a `Roll`;
- the explosion magnitudes are one `real` per tower index, in [5, 10];
- sin(t) and cos(0.8 t) are parameters in [-1, 1], and the frame time is an
  unconstrained parameter;
- the Perlin sample is unconstrained, because Unity's Perlin noise may stray slightly
  outside [0, 1].

Calls into the physics engine (`AddForce`, `AddExplosionForce`, `Destroy`) are
returned as a log. A destroyed GameObject, which Unity compares equal to null, is a
`destroyed` flag on the block. The last placed block is an index into the tower. The
collapse coroutine is two steps: `BeginCollapse` runs up to the real-time wait and
`FinishCollapse` runs after it. `pendingCollapses` counts coroutines still waiting.

Three behaviours of the code that are easy to misread:

- There is no separate "Collapsing" status. `gameOver` becomes true when the collapse
  starts, not when the wait ends.
- `RestartGame` does not restore `Time.timeScale` and does not stop a collapse
  coroutine that is still waiting. `GameSession.RestartKeepsWaitingCollapse` states
  the consequence.
- The frame in which the collapse starts still applies sway, because `gameOver` is
  read only once per frame.

## Model

| member | source | states |
|---|---|---|
| `ScoreText.NatToString` | Assets/Scenes/TowerBuilder.cs:214 | the score is rendered as a non-empty string of decimal digits with no leading zero: a text longer than one digit does not start with '0', and a text that starts with '0' is the score 0 |
| `ScoreText.ParseNatToString` | Assets/Scenes/TowerBuilder.cs:214 | reading the rendered digits back gives the score: rendering is injective |
| `ScoreText.ScoreLabel` | Assets/Scenes/TowerBuilder.cs:211-215 | the score text is "Height: " followed by the score's decimal form without leading zeros, whose digits read back as the score |
| `ScoreText.FinalLabel` | Assets/Scenes/TowerBuilder.cs:203-204 | the panel text is "Final Height: " followed by the score's decimal form without leading zeros, whose digits read back as the score |
| `Placement.ConfigureBlock` | Assets/Scenes/TowerBuilder.cs:84-128 | a new block sits spawnOffset above the hit point, is tagged "Block", has scale (r, 0.3, 1) where r is the drawn width, which lies between the configured bounds, has a colour exactly when the palette is assigned and non-empty and the prefab has a renderer, and that colour is the drawn palette entry; its yaw is the noise sample times 10 |
| `Sway.HeightFactorIncreasing` | Assets/Scenes/TowerBuilder.cs:143 | with a positive multiplier the height factor (i+1)·multiplier is strictly increasing in the tower index |
| `Sway.ApplySwayForce` | Assets/Scenes/TowerBuilder.cs:130-150 | one AddForce per live block with a rigid body, bottom to top and none for destroyed entries; each carries its height factor and the sin/cos lateral force; an empty tower gets nothing; with a positive multiplier the factors strictly increase up the tower |
| `Collapse.ExplodeBlocks` | Assets/Scenes/TowerBuilder.cs:177-191 | one explosion per live block with a rigid body, bottom to top, with that block's magnitude in [5, 10] and radius 5 |
| `Collapse.DestroyBlocks` | Assets/Scenes/TowerBuilder.cs:219-224 | one Destroy call per live block, bottom to top, and none for an entry already destroyed |
| `TowerTypes.CoversStep` | Assets/Scenes/TowerBuilder.cs:134-137 | examining one more tower entry keeps the "each selected block once, in order" property of the loops |
| `GameSession.Initial` | Assets/Scenes/TowerBuilder.cs:29-41 | the session starts with no blocks, score 0, not over, normal speed, no collapse waiting, no final text, and satisfies the invariant |
| `GameSession.PlaceBlock` | Assets/Scenes/TowerBuilder.cs:74-98 | a hit on "Block" or "Ground" appends exactly the configured block after the old ones, makes it the last placed block, adds 1 to the score and refreshes the score text; a miss or any other tag leaves the session unchanged |
| `GameSession.BeginCollapse` | Assets/Scenes/TowerBuilder.cs:169-175 | starting the collapse sets game over and time scale 0.5 and leaves blocks, last placed block, score and texts untouched |
| `GameSession.FinishCollapse` | Assets/Scenes/TowerBuilder.cs:196-205 | after the wait the time scale is 1 and, when the panel and its text exist, the final text shows the score; blocks, score and game-over flag are untouched |
| `GameSession.Restart` | Assets/Scenes/TowerBuilder.cs:217-240 | restart leaves no blocks, no last placed block, score 0, game not over and the score text "Height: 0"; it keeps the time scale and any waiting collapse |
| `GameSession.Tick` | Assets/Scenes/TowerBuilder.cs:43-52 | an Update while the game is over changes nothing |
| `GameSession.PlaceBlockKeepsInv` | Assets/Scenes/TowerBuilder.cs:90-95 | placement preserves score == number of blocks, last placed == top block, every block well configured, and the score text |
| `GameSession.BeginCollapseKeepsInv` | Assets/Scenes/TowerBuilder.cs:171-175 | starting the collapse preserves the invariant |
| `GameSession.FinishCollapseKeepsInv` | Assets/Scenes/TowerBuilder.cs:197 | finishing the collapse preserves the invariant |
| `GameSession.RestartKeepsInv` | Assets/Scenes/TowerBuilder.cs:227-237 | restart preserves the invariant |
| `GameSession.TickKeepsInv` | Assets/Scenes/TowerBuilder.cs:43-52 | one Update preserves the invariant |
| `GameSession.RunTicksKeepsInv` | Assets/Scenes/TowerBuilder.cs:29-31 | after any run of frames the score still equals the number of blocks and the invariant holds |
| `GameSession.GameOverFreezes` | Assets/Scenes/TowerBuilder.cs:46-51 | once the game is over, any run of Updates places nothing, checks nothing and changes nothing |
| `GameSession.ValidTapsGrowTower` | Assets/Scenes/TowerBuilder.cs:82-94 | N valid taps with the top block within the tilt limit keep the game running, keep the old blocks, add exactly N live blocks and N to the score, and leave the top block as the last placed one |
| `GameSession.InvalidTapsChangeNothing` | Assets/Scenes/TowerBuilder.cs:79-82 | taps that miss or hit another tag, with the stability check quiet, leave the whole session unchanged |
| `GameSession.InvalidTapsKeepTower` | Assets/Scenes/TowerBuilder.cs:79-82 | taps that miss or hit another tag never change the blocks, the last placed block or the score, whatever the tilt |
| `GameSession.CollapseAtMostOnce` | Assets/Scenes/TowerBuilder.cs:46-51 | over any run of frames the collapse starts at most once: the count of waiting collapses grows by one exactly when the run ends the game, and a game that is over stays over |
| `GameSession.CollapseThresholdIsStrict` | Assets/Scenes/TowerBuilder.cs:154-166 | a top block tilted exactly maxTiltAngle does not start the collapse; one tilted further does |
| `GameSession.RestartIdempotent` | Assets/Scenes/TowerBuilder.cs:217-240 | a second restart changes nothing |
| `GameSession.RestartKeepsWaitingCollapse` | Assets/Scenes/TowerBuilder.cs:194-204 | a restart inside the slow-motion window keeps time scale 0.5, and the waiting coroutine later writes the new game's score as the final height |
| `GameSession.FiveBlockScenario` | Assets/Scenes/TowerBuilder.cs:163-204 | with the default settings, five valid taps show "Height: 5"; a 35 degree tilt under the 30 degree default ends the game in slow motion; after the wait the panel reads "Final Height: 5" at normal speed |
| `Game.TowerBuilder.constructor` | Assets/Scenes/TowerBuilder.cs:29-41 | the component starts in the initial session, invariant established |
| `Game.TowerBuilder.UpdateScoreText` | Assets/Scenes/TowerBuilder.cs:211-215 | the score text becomes "Height: " + score when assigned, and is untouched otherwise |
| `Game.TowerBuilder.Update` | Assets/Scenes/TowerBuilder.cs:43-52 | the fields follow `Tick`; a finished game applies no force; otherwise sway is applied to the tower as it stands after placement, also in the frame that starts the collapse, and explosions happen only in that frame |
| `Game.TowerBuilder.PlaceBlock` | Assets/Scenes/TowerBuilder.cs:74-98 | the fields follow `GameSession.PlaceBlock` and the invariant holds |
| `Game.TowerBuilder.CheckTowerStability` | Assets/Scenes/TowerBuilder.cs:152-167 | the collapse starts, with its explosions, exactly when a live last placed block tilts strictly past the limit; otherwise nothing changes |
| `Game.TowerBuilder.BeginCollapse` | Assets/Scenes/TowerBuilder.cs:169-191 | the fields follow `GameSession.BeginCollapse` and every live block with a rigid body is blasted once |
| `Game.TowerBuilder.FinishCollapse` | Assets/Scenes/TowerBuilder.cs:193-209 | the fields follow `GameSession.FinishCollapse` and the invariant holds |
| `Game.TowerBuilder.RestartGame` | Assets/Scenes/TowerBuilder.cs:217-240 | the fields follow `GameSession.Restart`, and every live block of the old tower is destroyed once |

## Left out

- Assets/Scenes/BlockBehaviour.cs: the per-block stabilising torque is quaternion and float physics run by a coroutine. It is not a discrete contract.
- Physics and rendering calls (`ScreenPointToRay`, `Physics.Raycast`, `Instantiate`, `GetComponent`, `AddForce`, `AddExplosionForce`, `Destroy`): they are inputs, the prefab flags in `Settings`, or entries of the returned call log.
- The values of `Mathf.Sin`, `Mathf.Cos`, `Mathf.PerlinNoise`, `Vector3.Angle` and `Random`: they are parameters. Sine, cosine and tilt are bounded by their mathematical ranges, the random draws by their `Random.Range` bounds, and the Perlin sample and frame time are unconstrained.
- Collapse.ExplodeBlocks: does not model the explosion origin (block position plus a random offset in the unit sphere), because the block's position at that time comes from the physics simulation.
- Float rounding: all quantities are exact reals.
- An unassigned `blockPrefab` or a missing main camera: the component is assumed to have both. When either is missing, `Instantiate` or `Camera.main.ScreenPointToRay` throws, and that frame places nothing and skips the stability check and the sway. The model does not include that exception path.
- Touch and mouse polling, including the editor-only mouse branch: collapsed into the optional hit of each frame.
- The real-time wait of the collapse: only its two sides are modelled. Any number of Updates, restarts and placements may happen between them.
- Activating and hiding the game-over panel, and stopping and playing the music: only the two score texts are recorded.
- `score` is an unbounded `nat`. The 32-bit overflow after 2^31 - 1 placements is not modelled.
- Blocks destroyed by other code: no modelled operation destroys a block that stays in the tower. The flag is honoured wherever the source checks for null.
