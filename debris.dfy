/** The debris field: pieces cut off a dropped block, each moved by a constant-
    gravity Euler step per frame and dropped once it has fallen below the floor. */
module Debris {
  import opened Config
  import opened Geometry
  import opened Sequences

  /** A falling piece: its box size, the position and rotation of its mesh, and
      its linear and angular velocity. */
  datatype Piece = Piece(size: Vec3, position: Vec3, rotation: Vec3, velocity: Vec3, angularVelocity: Vec3)

  /** The piece cut off a placed block along `axis`. `keptCenter` is where the
      placed block now sits on that axis; the piece is kicked away from it,
      lifted, and spun by `spin` (three Math.random draws in the source). */
  function CutPiece(axis: Axis, cutCenter: real, cutSize: real, keptCenter: real,
                    blockSizeX: real, blockSizeZ: real, blockCenterX: real, blockCenterZ: real,
                    y: real, spin: Vec3): Piece
  {
    var kick := if keptCenter - cutCenter > 0.0 then -1.0 else 1.0;
    Piece(
      if axis == X then Vec3(cutSize, BlockHeight, blockSizeZ) else Vec3(blockSizeX, BlockHeight, cutSize),
      if axis == X then Vec3(cutCenter, y, blockCenterZ) else Vec3(blockCenterX, y, cutCenter),
      Vec3(0.0, 0.0, 0.0),
      Vec3(if axis == X then kick * KickSpeed else 0.0, LiftSpeed, if axis == Z then kick * KickSpeed else 0.0),
      spin)
  }

  /** A cut piece moves outward, away from the kept footprint along the axis,
      not at all along the other axis, and rises at first; it is as wide as the
      cut along the axis and as the block along the other one, and sits at the
      cut's centre on the axis. */
  lemma CutPieceFliesOutward(axis: Axis, cutCenter: real, cutSize: real, keptCenter: real,
                             blockSizeX: real, blockSizeZ: real, blockCenterX: real, blockCenterZ: real,
                             y: real, spin: Vec3)
    ensures var p := CutPiece(axis, cutCenter, cutSize, keptCenter, blockSizeX, blockSizeZ, blockCenterX, blockCenterZ, y, spin);
            && (cutCenter < keptCenter ==> (if axis == X then p.velocity.x else p.velocity.z) < 0.0)
            && (cutCenter >= keptCenter ==> (if axis == X then p.velocity.x else p.velocity.z) > 0.0)
            && (if axis == X then p.velocity.z else p.velocity.x) == 0.0 && p.velocity.y > 0.0
            && p.size == (if axis == X then Vec3(cutSize, BlockHeight, blockSizeZ) else Vec3(blockSizeX, BlockHeight, cutSize))
            && (if axis == X then p.position.x else p.position.z) == cutCenter && p.position.y == y
  {
  }

  /** A velocity after `dt` seconds of gravity. */
  function Fall(v: Vec3, dt: real): Vec3 {
    v.(y := v.y - Gravity * dt)
  }

  /** A position (or rotation) advanced by a rate over `dt` seconds. */
  function Advance(at: Vec3, rate: Vec3, dt: real): Vec3 {
    Vec3(at.x + rate.x * dt, at.y + rate.y * dt, at.z + rate.z * dt)
  }

  /** One Euler step of `dt` seconds: gravity lowers the vertical velocity first,
      then position and rotation advance by the new velocities. */
  function StepPiece(p: Piece, dt: real): Piece {
    var v := Fall(p.velocity, dt);
    p.(velocity := v, position := Advance(p.position, v, dt), rotation := Advance(p.rotation, p.angularVelocity, dt))
  }

  predicate AboveFloor(p: Piece) { p.position.y > DebrisFloor }

  function StepAll(pieces: seq<Piece>, dt: real): (r: seq<Piece>)
    ensures |r| == |pieces|
  {
    seq(|pieces|, i requires 0 <= i < |pieces| => StepPiece(pieces[i], dt))
  }

  /** The debris list after one frame: every piece stepped, and only those still
      above the floor kept, in their original order. */
  function Survivors(pieces: seq<Piece>, dt: real): seq<Piece> {
    Filter(StepAll(pieces, dt), AboveFloor)
  }

  /** The survivors of a frame are exactly the stepped pieces that are above the
      floor: no piece below it is kept, none above it is lost, and nothing that
      was not in the list before the frame appears in it. */
  lemma SurvivorsExactly(pieces: seq<Piece>, dt: real)
    ensures |Survivors(pieces, dt)| <= |pieces|
    ensures forall q :: q in Survivors(pieces, dt) ==>
              AboveFloor(q) && exists i :: 0 <= i < |pieces| && q == StepPiece(pieces[i], dt)
    ensures forall i :: 0 <= i < |pieces| && AboveFloor(StepPiece(pieces[i], dt)) ==>
              StepPiece(pieces[i], dt) in Survivors(pieces, dt)
  {
    var stepped := StepAll(pieces, dt);
    FilterExactly(stepped, AboveFloor);
    forall q | q in Survivors(pieces, dt)
      ensures AboveFloor(q) && exists i :: 0 <= i < |pieces| && q == StepPiece(pieces[i], dt)
    {
      var k :| 0 <= k < |Survivors(pieces, dt)| && Survivors(pieces, dt)[k] == q;
      var i :| 0 <= i < |stepped| && stepped[i] == q;
      assert q == StepPiece(pieces[i], dt);
    }
    forall i | 0 <= i < |pieces| && AboveFloor(StepPiece(pieces[i], dt))
      ensures StepPiece(pieces[i], dt) in Survivors(pieces, dt)
    {
      assert stepped[i] == StepPiece(pieces[i], dt);
    }
  }
}
