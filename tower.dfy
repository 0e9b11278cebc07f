/** The tower: block records, the block spawned on top of the stack, the growth
    rule, the commit of a placement into the top block, the oscillator step of
    the moving block, and the shape the stack keeps between frames. */
module Tower {
  import opened Config
  import opened Geometry

  /** A stack block record: its horizontal sizes and centre, its height level,
      whether it is the moving block, its movement direction (+1 or -1) and the
      timer of its settle animation. */
  datatype Block = Block(sizeX: real, sizeZ: real, centerX: real, centerZ: real, y: real,
                         isMoving: bool, moveDirection: int, pulse: real)
  {
    function Center(axis: Axis): real { if axis == X then centerX else centerZ }
    function Size(axis: Axis): real { if axis == X then sizeX else sizeZ }
    function WithCenter(axis: Axis, c: real): Block {
      if axis == X then this.(centerX := c) else this.(centerZ := c)
    }
    function WithSize(axis: Axis, s: real): Block {
      if axis == X then this.(sizeX := s) else this.(sizeZ := s)
    }
  }

  function InitialSize(axis: Axis): real { if axis == X then InitialSizeX else InitialSizeZ }

  /** The base block resetGame puts at the origin. */
  function BaseBlock(): Block {
    Block(InitialSizeX, InitialSizeZ, 0.0, 0.0, 0.0, false, 1, 0.0)
  }

  /** The record spawnMovingBlock pushes on top of `top` when `axis` is the axis
      of the next drop. */
  function SpawnOn(top: Block, axis: Axis): (b: Block)
    ensures b.y == top.y + BlockHeight
    ensures b.sizeX == top.sizeX && b.sizeZ == top.sizeZ
    ensures b.Center(axis) == top.Center(axis) - SpawnOffset
    ensures b.Center(axis.Other()) == top.Center(axis.Other())
    ensures b.isMoving && b.moveDirection == 1 && b.pulse == 0.0
  {
    Block(top.sizeX, top.sizeZ,
          if axis == X then top.centerX - SpawnOffset else top.centerX,
          if axis == Z then top.centerZ - SpawnOffset else top.centerZ,
          top.y + BlockHeight, true, 1, 0.0)
  }

  /** Whether a placement grows the block: only a perfect one that brings the
      streak to a positive multiple of PerfectGrowEvery. */
  predicate GrowthDue(wasPerfect: bool, streak: nat) {
    wasPerfect && streak > 0 && streak % PerfectGrowEvery == 0
  }

  /** The growth rule for one horizontal size, bounded by the initial size. */
  function Grow(size: real, initial: real): (r: real)
    ensures MinGrownSize <= initial ==> MinGrownSize <= r <= initial
    ensures MinGrownSize <= initial && size <= initial ==> size <= r
    ensures MinGrownSize <= size + GrowAmount <= initial ==> r == size + GrowAmount
    // A sliver grows to exactly the lower bound, and a size near the cap stops
    // exactly at the initial size.
    ensures size + GrowAmount < MinGrownSize <= initial ==> r == MinGrownSize
    ensures MinGrownSize <= initial < size + GrowAmount ==> r == initial
  {
    Clamp(size + GrowAmount, MinGrownSize, initial)
  }

  /** The top block after finalizePlacedBlock has written the placement into it
      (`streak` is the perfect streak after the drop). */
  function Commit(top: Block, axis: Axis, p: Placement, streak: nat): Block
  {
    var placed := top.WithCenter(axis, p.keptCenter).WithSize(axis, p.keptSize).(isMoving := false, pulse := SettlePulse);
    if GrowthDue(p.wasPerfect, streak) then
      placed.(sizeX := Grow(placed.sizeX, InitialSizeX), sizeZ := Grow(placed.sizeZ, InitialSizeZ))
    else
      placed
  }

  /** What committing a placement does to the top block: its centre on the axis
      becomes the kept centre and the other centre stays; it stays at its level,
      stops moving and starts its settle pulse; without growth its size on the
      axis becomes the kept size and the other size stays, with growth both
      sizes grow; and sizes never leave (0, initial size], whatever the streak. */
  lemma CommitGeometry(top: Block, axis: Axis, p: Placement, streak: nat)
    ensures var b := Commit(top, axis, p, streak);
            && b.Center(axis) == p.keptCenter && b.Center(axis.Other()) == top.Center(axis.Other())
            && b.y == top.y && !b.isMoving && b.moveDirection == top.moveDirection && b.pulse == SettlePulse
            && (!GrowthDue(p.wasPerfect, streak) ==>
                  b.Size(axis) == p.keptSize && b.Size(axis.Other()) == top.Size(axis.Other()))
            && (GrowthDue(p.wasPerfect, streak) ==>
                  b.Size(axis) == Grow(p.keptSize, InitialSize(axis))
                  && b.Size(axis.Other()) == Grow(top.Size(axis.Other()), InitialSize(axis.Other())))
            && (0.0 < p.keptSize <= InitialSize(axis) && 0.0 < top.Size(axis.Other()) <= InitialSize(axis.Other()) ==>
                  0.0 < b.sizeX <= InitialSizeX && 0.0 < b.sizeZ <= InitialSizeZ)
  {
  }

  /** Oscillator speed: rises with the score, with no cap. */
  function Speed(score: nat): (v: real)
    ensures v >= BaseSpeed
  {
    BaseSpeed + (score as real) * SpeedIncreasePerScore
  }

  /** The difficulty ramp is linear: every extra point of score makes the
      moving block faster by the same increment. */
  lemma SpeedRises(a: nat, b: nat)
    requires a < b
    ensures Speed(a) < Speed(b)
    ensures Speed(b) - Speed(a) == ((b - a) as real) * SpeedIncreasePerScore
  {
  }

  /** The ramp has no cap: any speed is exceeded at some score. */
  lemma {:induction false} SpeedUncapped(v: real)
    ensures exists score: nat :: Speed(score) > v
  {
    if v < BaseSpeed {
      assert Speed(0) > v;
    } else {
      var k := ((v - BaseSpeed) / SpeedIncreasePerScore).Floor + 1;
      assert (k as real) > (v - BaseSpeed) / SpeedIncreasePerScore;
      assert (k as real) * SpeedIncreasePerScore > v - BaseSpeed;
      assert Speed(k) > v;
    }
  }

  /** How far from the support's centre the moving block may travel. */
  function MovementRange(size: real): real {
    size / 2.0 + MovementRangePadding + MovementRangeExtra
  }

  /** The moving block `top` after one oscillator step of `dt` seconds over the
      support `below` (updateMovingBlock). */
  function OscillatorStep(top: Block, below: Block, axis: Axis, score: nat, dt: real): Block {
    var origin := below.Center(axis);
    var range := MovementRange(top.Size(axis));
    var next := top.Center(axis) + (top.moveDirection as real) * Speed(score) * dt;
    if next < origin - range then top.WithCenter(axis, origin - range).(moveDirection := 1)
    else if next > origin + range then top.WithCenter(axis, origin + range).(moveDirection := -1)
    else top.WithCenter(axis, next)
  }

  /** What an oscillator step does: only the position along the axis and the
      direction change; the block never leaves the range around its support;
      inside the range it moves by direction * speed * dt keeping its direction;
      past a bound it stops on the bound and turns back into the range. */
  lemma OscillatorStepBounds(top: Block, below: Block, axis: Axis, score: nat, dt: real)
    ensures var b := OscillatorStep(top, below, axis, score, dt);
            b == top.WithCenter(axis, b.Center(axis)).(moveDirection := b.moveDirection)
    ensures top.Size(axis) >= 0.0 ==>
              var b := OscillatorStep(top, below, axis, score, dt);
              Within(b.Center(axis), below.Center(axis) - MovementRange(top.Size(axis)),
                                     below.Center(axis) + MovementRange(top.Size(axis)))
    ensures var b := OscillatorStep(top, below, axis, score, dt);
            var next := top.Center(axis) + (top.moveDirection as real) * Speed(score) * dt;
            && (Within(next, below.Center(axis) - MovementRange(top.Size(axis)), below.Center(axis) + MovementRange(top.Size(axis))) ==>
                  b.Center(axis) == next && b.moveDirection == top.moveDirection)
            && (next < below.Center(axis) - MovementRange(top.Size(axis)) ==>
                  b.Center(axis) == below.Center(axis) - MovementRange(top.Size(axis)) && b.moveDirection == 1)
            && (next > below.Center(axis) + MovementRange(top.Size(axis)) >= below.Center(axis) - MovementRange(top.Size(axis)) ==>
                  b.Center(axis) == below.Center(axis) + MovementRange(top.Size(axis)) && b.moveDirection == -1)
  {
  }

  predicate Sized(b: Block) {
    0.0 < b.sizeX <= InitialSizeX && 0.0 < b.sizeZ <= InitialSizeZ
  }

  /** The moving block `top` over its support `below` when `axis` is the axis of
      the next drop: same sizes, aligned on the other axis, direction a sign. */
  predicate MovingOver(top: Block, below: Block, axis: Axis) {
    && top.isMoving
    && (top.moveDirection == 1 || top.moveDirection == -1)
    && top.sizeX == below.sizeX && top.sizeZ == below.sizeZ
    && top.Center(axis.Other()) == below.Center(axis.Other())
  }

  /** The shape of the stack between frames and drops: at least the base and the
      moving block, one block height per level, sizes in (0, initial size], and
      only the top block moving. */
  predicate Stacked(s: seq<Block>, axis: Axis) {
    && |s| >= 2
    && (forall i :: 0 <= i < |s| ==> s[i].y == (i as real) * BlockHeight && Sized(s[i]))
    && (forall i :: 0 <= i < |s| - 1 ==> !s[i].isMoving)
    && MovingOver(s[|s| - 1], s[|s| - 2], axis)
  }

  /** The tower resetGame builds has that shape. */
  lemma FreshTowerStacked()
    ensures Stacked([BaseBlock(), SpawnOn(BaseBlock(), X)], X)
  {
  }

  /** Committing an accepted placement into the top block and spawning the next
      moving block on the other axis keeps the shape of the stack. */
  lemma {:induction false} CommitKeepsShape(s: seq<Block>, axis: Axis, p: Placement, streak: nat)
    requires Stacked(s, axis)
    requires 0.0 < p.keptSize <= s[|s| - 1].Size(axis)
    ensures var placed := Commit(s[|s| - 1], axis, p, streak);
            Stacked(s[..|s| - 1] + [placed, SpawnOn(placed, axis.Other())], axis.Other())
  {
    var n := |s|;
    var top := s[n - 1];
    var placed := Commit(top, axis, p, streak);
    var next := SpawnOn(placed, axis.Other());
    var t := s[..n - 1] + [placed, next];
    CommitGeometry(top, axis, p, streak);
    assert Sized(top);
    assert top.Size(axis) <= InitialSize(axis);
    assert Sized(placed);
    forall i | 0 <= i < |t|
      ensures t[i].y == (i as real) * BlockHeight && Sized(t[i])
    {
      if i < n - 1 {
        assert t[i] == s[i];
      } else if i == n - 1 {
        assert t[i] == placed;
      } else {
        assert t[i] == next;
      }
    }
    forall i | 0 <= i < |t| - 1
      ensures !t[i].isMoving
    {
      if i < n - 1 {
        assert t[i] == s[i];
      }
    }
    assert t[|t| - 1] == next && t[|t| - 2] == placed;
    assert axis.Other().Other() == axis;
  }

  /** The stack after one oscillator step of its top block. */
  function Oscillated(s: seq<Block>, axis: Axis, score: nat, dt: real): seq<Block>
    requires |s| >= 2
  {
    s[..|s| - 1] + [OscillatorStep(s[|s| - 1], s[|s| - 2], axis, score, dt)]
  }

  /** An oscillator step keeps the shape of the stack. */
  lemma {:induction false} OscillatorKeepsShape(s: seq<Block>, axis: Axis, score: nat, dt: real)
    requires Stacked(s, axis)
    ensures Stacked(Oscillated(s, axis, score, dt), axis)
  {
    var n := |s|;
    var moved := OscillatorStep(s[n - 1], s[n - 2], axis, score, dt);
    var t := s[..n - 1] + [moved];
    forall i | 0 <= i < |t|
      ensures t[i].y == (i as real) * BlockHeight && Sized(t[i])
    {
      if i < n - 1 {
        assert t[i] == s[i];
      } else {
        assert t[i] == moved;
      }
    }
    forall i | 0 <= i < |t| - 1
      ensures !t[i].isMoving
    {
      assert t[i] == s[i];
    }
    assert t[|t| - 1] == moved && t[|t| - 2] == s[n - 2];
  }
}
