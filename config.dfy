/** The game's fixed tuning: the `gameConfig` record and the literal constants
    that the simulation functions use inline. Nothing here changes during a run. */
module Config {

  // gameConfig
  const BlockHeight: real := 0.5
  const InitialSizeX: real := 3.2
  const InitialSizeZ: real := 3.2
  const SpawnOffset: real := 5.2
  const BaseSpeed: real := 2.25
  const SpeedIncreasePerScore: real := 0.03
  const MovementRangePadding: real := 1.1
  const PerfectTolerance: real := 0.08
  const Gravity: real := 20.0
  const PerfectGrowEvery: nat := 3
  const GrowAmount: real := 0.16
  const StarPerPlaced: nat := 1
  const StarPerPerfect: nat := 1
  const StarPerPerfectGrow: nat := 2

  // Oscillator: the extra reach added to the padding in updateMovingBlock.
  const MovementRangeExtra: real := 2.0

  // Drop resolver and commit step.
  const MissOverlap: real := 0.0001     // an overlap at or below this is a miss
  const MinCutSize: real := 0.001       // a cut piece must be larger than this to fall
  const MinGrownSize: real := 0.6       // lower clamp bound of the growth rule
  const SettlePulse: real := 0.12       // settle-animation timer started on commit
  const KickSpeed: real := 2.2          // horizontal speed of a cut piece
  const LiftSpeed: real := 2.0          // initial upward speed of a cut piece

  // Debris field.
  const DebrisFloor: real := -14.0

  // Burst field.
  const BurstParticles: nat := 46
  const BurstRise: real := 0.35         // bursts spawn this far above the block's centre
  const BurstOpacity: real := 0.9       // opacity of a fresh burst
  const BurstFadeAge: real := 0.7       // opacity reaches zero at this age
  const BurstMaxAge: real := 0.8        // a burst is dropped once its age reaches this
  const BurstDrop: real := 2.6          // downward quadratic coefficient of a particle's arc

  // Simulation clock.
  const MaxFrameDelta: real := 0.033
}
