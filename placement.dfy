/** Turning a tap into a block: which raycast hits may receive a block, and how a
    freshly instantiated block is configured (ConfigureBlock together with
    RandomizeBlockProperties). The random draws and the Perlin noise sample are
    passed in as a Roll. */
module Placement {
  import opened TowerTypes

  /** Fixed height and depth of every block's scale. */
  const BlockHeight: real := 0.3
  const BlockDepth: real := 1.0
  /** The Perlin sample in [0, 1] is stretched to a yaw of up to this many degrees. */
  const YawRange: real := 10.0

  /** A collider tagged "Block" or "Ground" may receive a block. */
  predicate IsValidSurface(tag: string) {
    tag == BlockTag || tag == GroundTag
  }

  /** The raycast hit something, and that something may receive a block. */
  predicate Placeable(hit: Option<Hit>) {
    hit.Some? && IsValidSurface(hit.value.tag)
  }

  /** The engine's random draws and noise sample for one placement. */
  datatype Roll = Roll(scale: real, colorIndex: nat, noise: real)

  /** Random.Range(a, b) on floats returns a value between its bounds, whichever is larger. */
  predicate Between(v: real, a: real, b: real) {
    (a <= v <= b) || (b <= v <= a)
  }

  /** The palette is assigned (not null) and not empty. */
  predicate HasPalette(settings: Settings) {
    settings.blockColors.Some? && |settings.blockColors.value| > 0
  }

  /** What the engine guarantees of the draws: the scale lies within the configured
      range and, when a colour is drawn, the index lies in [0, palette length). */
  predicate RollFits(settings: Settings, roll: Roll) {
    Between(roll.scale, settings.minScale, settings.maxScale) &&
    (HasPalette(settings) ==> roll.colorIndex < |settings.blockColors.value|)
  }

  /** Every block in the tower has been configured from these settings. */
  ghost predicate WellFormedBlock(settings: Settings, b: Block) {
    b.tag == BlockTag &&
    Between(b.scale.x, settings.minScale, settings.maxScale) &&
    b.scale.y == BlockHeight && b.scale.z == BlockDepth &&
    b.hasRigidbody == settings.prefab.hasRigidbody &&
    (b.color.Some? ==>
       settings.prefab.hasRenderer && HasPalette(settings) &&
       b.color.value in settings.blockColors.value)
  }

  /** The block placed for a hit at `point`: spawned `spawnOffset` above the hit,
      tagged "Block", given a random width, a palette colour when there is a palette
      and a renderer, and a small yaw. */
  function ConfigureBlock(settings: Settings, point: Vec3, roll: Roll): (b: Block)
    requires RollFits(settings, roll)
    ensures b.position.x == point.x && b.position.z == point.z
    ensures b.position.y == point.y + settings.spawnOffset
    ensures WellFormedBlock(settings, b) && !b.destroyed
    ensures b.scale == Vec3(roll.scale, BlockHeight, BlockDepth)
    ensures b.color.Some? <==> settings.prefab.hasRenderer && HasPalette(settings)
    ensures b.color.Some? ==> b.color.value == settings.blockColors.value[roll.colorIndex]
    ensures b.yaw == roll.noise * YawRange
  {
    var color :=
      if HasPalette(settings) && settings.prefab.hasRenderer
      then Some(settings.blockColors.value[roll.colorIndex])
      else None;
    Block(position := point.Plus(Vec3(0.0, settings.spawnOffset, 0.0)),
          scale := Vec3(roll.scale, BlockHeight, BlockDepth),
          yaw := roll.noise * YawRange,
          tag := BlockTag,
          color := color,
          hasRigidbody := settings.prefab.hasRigidbody,
          destroyed := false)
  }
}
