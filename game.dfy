/** The game state: the block stack, the debris and burst lists, the run flags,
    the frame clock and the menu overlay, together with the drop, the commit of
    a placement, the end of a run, the frame step and the input handlers. The
    save data the game updates is the profile it holds. */
module Game {
  import opened Config
  import opened Geometry
  import opened Sequences
  import opened Debris
  import opened Bursts
  import opened Tower
  import opened Economy
  import opened Profile

  const PerfectBurstColor: string := "#111111"
  const GrowBurstColor: string := "#c8a100"

  /** The Math.random draws one drop may consume: the spin of a cut piece and the
      particles of the perfect and growth bursts. */
  datatype Draws = Draws(debrisSpin: Vec3, perfectBurst: seq<Particle>, growBurst: seq<Particle>)

  predicate DrawsValid(d: Draws) {
    |d.perfectBurst| == BurstParticles && |d.growBurst| == BurstParticles
  }

  /** The piece cut off `placed`, the top block after the kept geometry was
      written into it. */
  function DebrisFrom(placed: Block, axis: Axis, p: Placement, spin: Vec3): Piece {
    CutPiece(axis, p.cutCenter, p.cutSize, placed.Center(axis), placed.sizeX, placed.sizeZ,
             placed.centerX, placed.centerZ, placed.y, spin)
  }

  /** Where a burst above a block starts: its centre, raised by BurstRise. */
  function BurstOrigin(b: Block): Vec3 {
    Vec3(b.centerX, b.y + BurstRise, b.centerZ)
  }

  /** The save data after a run ends. */
  function AfterRun(d: SaveData, score: nat): (r: SaveData)
    ensures r.gamesPlayed == d.gamesPlayed + 1 && r.stars == d.stars && r.bestScore == d.bestScore
    ensures r.challenges == ProgressAll(d.challenges, RunEnd(score))
    ensures r.(gamesPlayed := d.gamesPlayed, challenges := d.challenges) == d
  {
    d.(gamesPlayed := d.gamesPlayed + 1, challenges := ProgressAll(d.challenges, RunEnd(score)))
  }

  /** What the end of a run reports to the challenges: every open
      single-run score challenge reaches at least the final score and is
      completed exactly when that reaches its goal; every other challenge is
      left alone. */
  lemma {:induction false} RunEndEvent(d: SaveData, score: nat, i: nat)
    requires i < |d.challenges|
    ensures var c, r := d.challenges[i], AfterRun(d, score).challenges[i];
            && (!c.claimed && c.kind == ScoreSingle ==>
                  r.progress == NatMax(c.progress, score) && r.completed == (r.progress >= r.goal))
            && (c.claimed || c.kind != ScoreSingle ==> r == c)
  {
    ProgressOneSpec(d.challenges[i], RunEnd(score));
    assert AfterRun(d, score).challenges[i] == ProgressOne(d.challenges[i], RunEnd(score));
  }

  /** The loop of updateFallingPieces over the piece list: each piece is
      stepped in place, and the survivors are collected in a new list. */
  method StepPieces(pieces: seq<Piece>, dt: real) returns (remaining: seq<Piece>)
    ensures remaining == Survivors(pieces, dt)
  {
    remaining := [];
    var i := 0;
    while i < |pieces|
      invariant 0 <= i <= |pieces|
      invariant remaining == Survivors(pieces[..i], dt)
    {
      var piece := pieces[i];
      piece := piece.(velocity := Fall(piece.velocity, dt));
      piece := piece.(position := Advance(piece.position, piece.velocity, dt));
      piece := piece.(rotation := Advance(piece.rotation, piece.angularVelocity, dt));
      assert StepAll(pieces[..i + 1], dt) == StepAll(pieces[..i], dt) + [piece];
      FilterSnoc(StepAll(pieces[..i], dt), piece, AboveFloor);
      if piece.position.y > DebrisFloor {
        remaining := remaining + [piece];
      }
      i := i + 1;
    }
    assert pieces[..i] == pieces;
  }

  /** The loop of updateParticles over the burst list: each burst ages, fades
      and moves its live particles, and those younger than the maximum age are
      collected in a new list. */
  method AgeBursts(all: seq<Burst>, dt: real) returns (remaining: seq<Burst>)
    requires AllWellFormed(all)
    ensures remaining == LiveBursts(all, dt) && AllWellFormed(remaining)
  {
    remaining := [];
    var i := 0;
    while i < |all|
      invariant 0 <= i <= |all|
      invariant AllWellFormed(all[..i])
      invariant remaining == LiveBursts(all[..i], dt) && AllWellFormed(remaining)
    {
      var burst := all[i];
      burst := burst.(age := burst.age + dt);
      var fade := Clamp(1.0 - burst.age / BurstFadeAge, 0.0, 1.0);
      burst := burst.(opacity := BurstOpacity * fade);
      var positions := UpdatePositions(burst.particles, burst.positions, burst.age);
      burst := burst.(positions := positions);
      assert burst == AgeBurst(all[i], dt);
      assert AllWellFormed(all[..i + 1]);
      assert AgeAll(all[..i + 1], dt) == AgeAll(all[..i], dt) + [burst];
      FilterSnoc(AgeAll(all[..i], dt), burst, Alive);
      if burst.age < BurstMaxAge {
        remaining := remaining + [burst];
      }
      i := i + 1;
    }
    assert all[..i] == all;
  }

  /** The body of updateMovingBlock for the moving block `current` over its
      support `previous`: the next position along the axis, clamped to the
      range around the support, with the direction flipped at a bound. */
  method MoveBlock(current: Block, previous: Block, axis: Axis, score: nat, dt: real) returns (moved: Block)
    ensures moved == OscillatorStep(current, previous, axis, score, dt)
  {
    var axisSize := current.Size(axis);
    var speed := Speed(score);
    var movementRange := MovementRange(axisSize);
    var origin := previous.Center(axis);

    var nextValue := current.Center(axis) + (current.moveDirection as real) * speed * dt;
    var min := origin - movementRange;
    var max := origin + movementRange;
    var direction := current.moveDirection;
    if nextValue < min {
      nextValue := min;
      direction := 1;
    } else if nextValue > max {
      nextValue := max;
      direction := -1;
    }
    moved := current.WithCenter(axis, nextValue).(moveDirection := direction);
  }

  /** updateMovingBlock on the stack: the top block takes one oscillator step
      over the block below it, and the stack keeps its shape. */
  method MoveTopBlock(blocks: seq<Block>, axis: Axis, score: nat, dt: real) returns (next: seq<Block>)
    requires Stacked(blocks, axis)
    ensures next == Oscillated(blocks, axis, score, dt) && Stacked(next, axis)
  {
    var moved := MoveBlock(blocks[|blocks| - 1], blocks[|blocks| - 2], axis, score, dt);
    next := blocks[|blocks| - 1 := moved];
    assert next == blocks[..|blocks| - 1] + [moved];
    OscillatorKeepsShape(blocks, axis, score, dt);
  }

  /** finalizePlacedBlock's writes into the top block record: the kept centre
      and size, no longer moving, the settle pulse (`placed`); then, when growth
      is due, both sizes grown (`final`). */
  method SettleBlock(current: Block, axis: Axis, p: Placement, streak: nat) returns (placed: Block, final: Block)
    ensures final == Commit(current, axis, p, streak)
    ensures !GrowthDue(p.wasPerfect, streak) ==> placed == final
    ensures BurstOrigin(placed) == BurstOrigin(final)
  {
    placed := current.(isMoving := false).WithCenter(axis, p.keptCenter).WithSize(axis, p.keptSize);
    placed := placed.(pulse := SettlePulse);
    final := placed;
    if GrowthDue(p.wasPerfect, streak) {
      final := placed.(sizeX := Clamp(placed.sizeX + GrowAmount, MinGrownSize, InitialSizeX),
                       sizeZ := Clamp(placed.sizeZ + GrowAmount, MinGrownSize, InitialSizeZ));
    }
  }

  /** A perfect drop onto the tower: the committed block sits exactly on its
      support's centre along the axis, keeps both sizes unless growth is due, and
      no debris is cut off. */
  lemma PerfectDropLands(s: seq<Block>, axis: Axis, streak: nat)
    requires Stacked(s, axis)
    requires Abs(s[|s| - 1].Center(axis) - s[|s| - 2].Center(axis)) <= PerfectTolerance
    ensures var top, below := s[|s| - 1], s[|s| - 2];
            var r := Resolve(top.Center(axis), top.Size(axis), below.Center(axis), below.Size(axis));
            && r.Placed? && r.placement.wasPerfect && !(r.placement.cutSize > MinCutSize)
            && Commit(top, axis, r.placement, streak).Center(axis) == below.Center(axis)
            && Commit(top, axis, r.placement, streak).Center(axis.Other()) == below.Center(axis.Other())
            && (!GrowthDue(true, streak) ==>
                  Commit(top, axis, r.placement, streak).sizeX == top.sizeX
                  && Commit(top, axis, r.placement, streak).sizeZ == top.sizeZ)
  {
    var top, below := s[|s| - 1], s[|s| - 2];
    ResolvePerfect(top.Center(axis), top.Size(axis), below.Center(axis), below.Size(axis));
    var r := Resolve(top.Center(axis), top.Size(axis), below.Center(axis), below.Size(axis));
    CommitGeometry(top, axis, r.placement, streak);
  }

  class GameState {
    const profile: Profile
    var score: nat
    var playing: bool
    var gameOver: bool
    /** Whether the menu overlay is shown; it gates the primary action. */
    var menuOpen: bool
    /** The axis of the next drop. */
    var axis: Axis
    var perfectStreak: nat
    var stack: seq<Block>
    var debris: seq<Piece>
    var bursts: seq<Burst>
    /** The timestamp of the previous frame, in milliseconds. */
    var lastTimeMs: real

    /** The invariant of the run apart from the bound on the streak: the stack
        has its shape with one block per point of score, a lost run is not being
        played, and every burst has one position per particle. */
    ghost predicate RunShape()
      reads this, profile
    {
      && profile.Valid()
      && Stacked(stack, axis)
      && score == |stack| - 2
      && (gameOver ==> !playing)
      && AllWellFormed(bursts)
    }

    /** A perfect streak is never longer than the run's score. */
    ghost predicate Valid()
      reads this, profile
    {
      RunShape() && perfectStreak <= score
    }

    function Top(): Block
      reads this
      requires |stack| >= 1
    {
      stack[|stack| - 1]
    }

    function Below(): Block
      reads this
      requires |stack| >= 2
    {
      stack[|stack| - 2]
    }

    /** What a drop would do now: the moving block against its support, along
        the current axis. */
    function PendingDrop(): DropOutcome
      reads this
      requires |stack| >= 2
    {
      Resolve(Top().Center(axis), Top().Size(axis), Below().Center(axis), Below().Size(axis))
    }

    /** The tower resetGame builds, with no debris and no bursts. */
    predicate FreshRun()
      reads this
    {
      && stack == [BaseBlock(), SpawnOn(BaseBlock(), X)]
      && debris == [] && bursts == []
      && score == 0 && perfectStreak == 0 && axis == X
    }

    /** The run itself is as it was: tower, lists, score, streak, axis, clock. */
    twostate predicate SameRun()
      reads this
    {
      && stack == old(stack) && debris == old(debris) && bursts == old(bursts)
      && score == old(score) && perfectStreak == old(perfectStreak) && axis == old(axis)
      && lastTimeMs == old(lastTimeMs)
    }

    /** The page load: the profile's save data, a fresh tower, the menu shown. */
    constructor(profile: Profile, nowMs: real)
      requires profile.Valid()
      ensures Valid() && this.profile == profile
      ensures FreshRun() && !playing && !gameOver && menuOpen && lastTimeMs == nowMs
    {
      this.profile := profile;
      lastTimeMs := nowMs;
      menuOpen := true;
      new;
      ResetGame();
    }

    /** spawnMovingBlock: a moving block pushed on top for a drop along `axis`. */
    method SpawnMovingBlock()
      requires |stack| >= 1
      modifies this
      ensures stack == old(stack) + [SpawnOn(old(Top()), axis)]
      ensures score == old(score) && playing == old(playing) && gameOver == old(gameOver)
      ensures menuOpen == old(menuOpen) && axis == old(axis) && perfectStreak == old(perfectStreak)
      ensures debris == old(debris) && bursts == old(bursts) && lastTimeMs == old(lastTimeMs)
    {
      var top := Top();
      var y := top.y + BlockHeight;
      var centerX := if axis == X then top.centerX - SpawnOffset else top.centerX;
      var centerZ := if axis == Z then top.centerZ - SpawnOffset else top.centerZ;
      var moving := Block(top.sizeX, top.sizeZ, centerX, centerZ, y, false, 1, 0.0);
      moving := moving.(isMoving := true, moveDirection := 1);
      stack := stack + [moving];
    }

    /** resetGame: a fresh state holding the base block and the first moving
        block; the overlay and the frame clock are not part of the game state. */
    method ResetGame()
      requires profile.Valid()
      modifies this
      ensures Valid() && FreshRun() && !playing && !gameOver
      ensures menuOpen == old(menuOpen) && lastTimeMs == old(lastTimeMs)
    {
      score, playing, gameOver, axis, perfectStreak := 0, false, false, X, 0;
      stack, debris, bursts := [], [], [];
      stack := stack + [BaseBlock()];
      SpawnMovingBlock();
      FreshTowerStacked();
    }

    /** endRun: the run stops as lost, the game count rises, the run-end event
        reaches the challenges and the menu is shown. */
    method EndRun()
      requires Valid()
      modifies this, profile
      ensures Valid() && SameRun()
      ensures !playing && gameOver && menuOpen
      ensures profile.Data() == AfterRun(old(profile.Data()), score)
    {
      playing := false;
      gameOver := true;
      profile.gamesPlayed := profile.gamesPlayed + 1;
      var _ := profile.UpdateChallengeProgress(RunEnd(score));
      menuOpen := true;
    }

    /** The tower part of finalizePlacedBlock: the placement is written into the
        top block, a cut wider than MinCutSize becomes debris, a due growth step
        enlarges the block and adds its burst, and a new moving block is spawned
        on the other axis. */
    method PlaceBlock(p: Placement, draws: Draws)
      requires Stacked(stack, axis) && AllWellFormed(bursts) && DrawsValid(draws)
      requires 0.0 < p.keptSize <= Top().Size(axis)
      requires p.wasPerfect ==> p.cutSize == 0.0
      modifies this
      ensures Stacked(stack, axis) && AllWellFormed(bursts)
      ensures axis == old(axis).Other() && score == old(score) && perfectStreak == old(perfectStreak)
      ensures playing == old(playing) && gameOver == old(gameOver)
      ensures menuOpen == old(menuOpen) && lastTimeMs == old(lastTimeMs)
      ensures var placed := Commit(old(Top()), old(axis), p, perfectStreak);
              && stack == old(stack)[..|old(stack)| - 1] + [placed, SpawnOn(placed, axis)]
              && debris == old(debris) + (if p.cutSize > MinCutSize then [DebrisFrom(placed, old(axis), p, draws.debrisSpin)] else [])
              && bursts == old(bursts) + (if GrowthDue(p.wasPerfect, perfectStreak)
                                          then [NewBurst(BurstOrigin(placed), GrowBurstColor, draws.growBurst)] else [])
    {
      var n := |stack|;
      var placed, final := SettleBlock(Top(), axis, p, perfectStreak);
      var pieces := debris;
      if p.cutSize > MinCutSize {
        pieces := pieces + [DebrisFrom(placed, axis, p, draws.debrisSpin)];
      }
      var live := bursts;
      if GrowthDue(p.wasPerfect, perfectStreak) {
        live := live + [NewBurst(BurstOrigin(final), GrowBurstColor, draws.growBurst)];
      }
      ghost var tower := stack;
      CommitKeepsShape(tower, axis, p, perfectStreak);
      stack, debris, bursts, axis := stack[n - 1 := final], pieces, live, axis.Other();
      assert stack == tower[..n - 1] + [final];
      SpawnMovingBlock();
      assert stack == tower[..n - 1] + [final, SpawnOn(final, axis)];
    }

    /** finalizePlacedBlock: the score and the records rise, stars and challenge
        events are awarded (with the growth award when growth is due), and the
        placement is built into the tower. */
    method FinalizePlacedBlock(p: Placement, draws: Draws)
      requires RunShape() && perfectStreak <= score + 1 && DrawsValid(draws)
      requires 0.0 < p.keptSize <= Top().Size(axis)
      requires p.wasPerfect ==> p.cutSize == 0.0
      modifies this, profile
      ensures Valid()
      ensures score == old(score) + 1 && axis == old(axis).Other() && perfectStreak == old(perfectStreak)
      ensures playing == old(playing) && gameOver == old(gameOver)
      ensures menuOpen == old(menuOpen) && lastTimeMs == old(lastTimeMs)
      ensures var placed := Commit(old(Top()), old(axis), p, perfectStreak);
              && stack == old(stack)[..|old(stack)| - 1] + [placed, SpawnOn(placed, axis)]
              && debris == old(debris) + (if p.cutSize > MinCutSize then [DebrisFrom(placed, old(axis), p, draws.debrisSpin)] else [])
              && bursts == old(bursts) + (if GrowthDue(p.wasPerfect, perfectStreak)
                                          then [NewBurst(BurstOrigin(placed), GrowBurstColor, draws.growBurst)] else [])
      ensures profile.Data() == AfterPlacement(old(profile.Data()), score, perfectStreak, p.wasPerfect,
                                               GrowthDue(p.wasPerfect, perfectStreak))
    {
      score := score + 1;
      profile.RecordDrop(score, perfectStreak, p.wasPerfect, GrowthDue(p.wasPerfect, perfectStreak));
      PlaceBlock(p, draws);
    }

    /** The effect of an accepted drop with placement `p`. */
    twostate predicate Landed(p: Placement, draws: Draws)
      requires old(|stack|) >= 1
      reads this, profile
    {
      var placed := Commit(old(Top()), old(axis), p, perfectStreak);
      var grew := GrowthDue(p.wasPerfect, perfectStreak);
      && playing == old(playing) && gameOver == old(gameOver)
      && menuOpen == old(menuOpen) && lastTimeMs == old(lastTimeMs)
      && score == old(score) + 1
      && axis == old(axis).Other()
      && perfectStreak == (if p.wasPerfect then old(perfectStreak) + 1 else 0)
      && stack == old(stack)[..old(|stack|) - 1] + [placed, SpawnOn(placed, axis)]
      && debris == old(debris) + (if p.cutSize > MinCutSize then [DebrisFrom(placed, old(axis), p, draws.debrisSpin)] else [])
      && bursts == old(bursts)
                   + (if p.wasPerfect then [NewBurst(BurstOrigin(placed), PerfectBurstColor, draws.perfectBurst)] else [])
                   + (if grew then [NewBurst(BurstOrigin(placed), GrowBurstColor, draws.growBurst)] else [])
      && profile.Data() == AfterPlacement(old(profile.Data()), score, perfectStreak, p.wasPerfect, grew)
    }

    /** The effect of tryDropCurrentBlock: nothing unless a run is being played;
        a miss ends the run with the tower, the lists and the score unchanged;
        otherwise the resolved placement lands. */
    twostate predicate Dropped(draws: Draws)
      requires old(|stack|) >= 2
      reads this, profile
    {
      if !old(playing) || old(gameOver) then
        unchanged(this) && unchanged(profile)
      else if old(PendingDrop()).Miss? then
        && SameRun() && !playing && gameOver && menuOpen
        && profile.Data() == AfterRun(old(profile.Data()), score)
      else
        Landed(old(PendingDrop()).placement, draws)
    }

    /** tryDropCurrentBlock. */
    method TryDrop(draws: Draws)
      requires Valid() && DrawsValid(draws)
      modifies this, profile
      ensures Valid() && Dropped(draws)
    {
      if !playing || gameOver {
        return;
      }
      var current := Top();
      var previous := Below();
      var outcome := Resolve(current.Center(axis), current.Size(axis), previous.Center(axis), previous.Size(axis));
      match outcome {
        case Miss =>
          EndRun();
        case Placed(p) =>
          if p.wasPerfect {
            var snapped := current.WithCenter(axis, previous.Center(axis));
            stack := stack[|stack| - 1 := snapped];
            perfectStreak := perfectStreak + 1;
            bursts := bursts + [NewBurst(BurstOrigin(snapped), PerfectBurstColor, draws.perfectBurst)];
            assert snapped.WithCenter(axis, p.keptCenter) == current.WithCenter(axis, p.keptCenter);
          } else {
            perfectStreak := 0;
          }
          FinalizePlacedBlock(p, draws);
      }
    }

    /** One animation frame (tick): the clamped frame delta, the oscillator
        step of updateMovingBlock while a run is being played, then
        updateFallingPieces and updateParticles. */
    method Tick(nowMs: real)
      requires Valid()
      modifies this
      ensures Valid()
      ensures var dt := FrameDelta(nowMs, old(lastTimeMs));
              && stack == (if old(playing) && !old(gameOver) then Oscillated(old(stack), axis, score, dt) else old(stack))
              && debris == Survivors(old(debris), dt)
              && bursts == LiveBursts(old(bursts), dt)
      ensures lastTimeMs == nowMs
      ensures score == old(score) && perfectStreak == old(perfectStreak) && axis == old(axis)
      ensures playing == old(playing) && gameOver == old(gameOver) && menuOpen == old(menuOpen)
    {
      var dt := FrameDelta(nowMs, lastTimeMs);
      var blocks := stack;
      if playing && !gameOver {
        blocks := MoveTopBlock(blocks, axis, score, dt);
      }
      var pieces := StepPieces(debris, dt);
      var live := AgeBursts(bursts, dt);
      lastTimeMs, stack, debris, bursts := nowMs, blocks, pieces, live;
    }

    /** handlePrimaryAction: ignored while the menu is shown; starts (or resumes)
        a run when none is being played; drops the moving block otherwise. */
    method PrimaryAction(draws: Draws)
      requires Valid() && DrawsValid(draws)
      modifies this, profile
      ensures Valid()
      ensures old(menuOpen) ==> unchanged(this) && unchanged(profile)
      ensures !old(menuOpen) && !old(playing) ==>
                SameRun() && playing && !gameOver && !menuOpen && unchanged(profile)
      ensures !old(menuOpen) && old(playing) ==> Dropped(draws)
    {
      if menuOpen {
        return;
      }
      if !playing {
        playing := true;
        gameOver := false;
        menuOpen := false;
        return;
      }
      TryDrop(draws);
    }

    /** The play button: closes the menu; after a lost run it starts a fresh
        one, otherwise it resumes the current run. */
    method PlayButton()
      requires Valid()
      modifies this
      ensures Valid()
      ensures !menuOpen && playing && !gameOver && lastTimeMs == old(lastTimeMs)
      ensures old(gameOver) ==> FreshRun()
      ensures !old(gameOver) ==> SameRun()
    {
      menuOpen := false;
      if gameOver {
        ResetGame();
        playing := true;
        gameOver := false;
        return;
      }
      playing := true;
    }

    /** The restart button: a fresh run, played at once; the overlay stays as
        it was. */
    method RestartButton()
      requires Valid()
      modifies this
      ensures Valid() && FreshRun()
      ensures playing && !gameOver && menuOpen == old(menuOpen) && lastTimeMs == old(lastTimeMs)
    {
      ResetGame();
      playing := true;
      gameOver := false;
    }

    /** The menu button: opens the menu and pauses, or closes it and resumes a
        run that is not lost. */
    method MenuButton()
      requires Valid()
      modifies this
      ensures Valid() && SameRun() && gameOver == old(gameOver)
      ensures !old(menuOpen) ==> menuOpen && !playing
      ensures old(menuOpen) ==> !menuOpen && playing == (old(playing) || !gameOver)
    {
      if !menuOpen {
        menuOpen := true;
        playing := false;
      } else {
        menuOpen := false;
        if !gameOver {
          playing := true;
        }
      }
    }

    /** The close button of the menu: closes it and resumes a run that is not
        lost. */
    method CloseMenuButton()
      requires Valid()
      modifies this
      ensures Valid() && SameRun() && gameOver == old(gameOver)
      ensures !menuOpen && playing == (old(playing) || !gameOver)
    {
      menuOpen := false;
      if !gameOver {
        playing := true;
      }
    }
  }
}
