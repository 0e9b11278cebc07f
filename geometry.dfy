/** Numbers, axes and intervals, and the drop resolver: the pure arithmetic that
    decides whether a dropped block lands perfectly, is trimmed to its overlap
    with the block below, or misses. */
module Geometry {
  import opened Config

  function Min(a: real, b: real): real { if a <= b then a else b }
  function Max(a: real, b: real): real { if a >= b then a else b }
  function Abs(x: real): real { if x < 0.0 then -x else x }

  /** clampNumber: Math.max(lo, Math.min(hi, value)). When the bounds are
      inverted the lower bound wins, as it does in the source. */
  function Clamp(value: real, lo: real, hi: real): (r: real)
    ensures lo <= hi ==> lo <= r <= hi
    ensures lo <= value <= hi ==> r == value
    ensures value < lo ==> r == lo
    ensures lo <= hi < value ==> r == hi
    ensures hi < lo ==> r == lo
  {
    Max(lo, Min(hi, value))
  }

  /** The frame delta of `tick`: elapsed milliseconds in seconds, clamped so that
      one frame never advances the simulation by a negative or a large step. */
  function FrameDelta(nowMs: real, lastMs: real): (dt: real)
    ensures 0.0 <= dt <= MaxFrameDelta
    ensures 0.0 <= nowMs - lastMs <= 1000.0 * MaxFrameDelta ==> dt == (nowMs - lastMs) / 1000.0
    // A long frame advances by exactly the maximum step; a clock that ran
    // backwards does not advance at all.
    ensures nowMs - lastMs > 1000.0 * MaxFrameDelta ==> dt == MaxFrameDelta
    ensures nowMs < lastMs ==> dt == 0.0
  {
    Clamp((nowMs - lastMs) / 1000.0, 0.0, MaxFrameDelta)
  }

  /** The two horizontal axes a block moves along; they alternate per placement. */
  datatype Axis = X | Z {
    function Other(): Axis { if this == X then Z else X }
  }

  datatype Vec3 = Vec3(x: real, y: real, z: real)

  /** Lower and upper end of the extent of a block with the given centre and size. */
  function Lo(center: real, size: real): real { center - size / 2.0 }
  function Hi(center: real, size: real): real { center + size / 2.0 }

  predicate Within(t: real, lo: real, hi: real) { lo <= t <= hi }

  /** Length of the intersection of two extents; zero or negative when they do not meet. */
  function OverlapSize(c1: real, s1: real, c2: real, s2: real): real {
    Min(Hi(c1, s1), Hi(c2, s2)) - Max(Lo(c1, s1), Lo(c2, s2))
  }

  /** The argument record of finalizePlacedBlock: the footprint kept on the
      tower, the piece cut away, and whether the drop was perfect. */
  datatype Placement = Placement(keptCenter: real, keptSize: real, cutCenter: real, cutSize: real, wasPerfect: bool)

  datatype DropOutcome = Placed(placement: Placement) | Miss

  /** The decision of tryDropCurrentBlock along the current axis, for a moving
      block at `currentPos` of size `currentSize` over a support at `previousPos`
      of size `previousSize`. */
  function Resolve(currentPos: real, currentSize: real, previousPos: real, previousSize: real): DropOutcome
  {
    var delta := currentPos - previousPos;
    if Abs(delta) <= PerfectTolerance then
      Placed(Placement(previousPos, currentSize, 0.0, 0.0, true))
    else
      var prevMin := Lo(previousPos, previousSize);
      var prevMax := Hi(previousPos, previousSize);
      var curMin := Lo(currentPos, currentSize);
      var curMax := Hi(currentPos, currentSize);
      var overlapMin := Max(prevMin, curMin);
      var overlapMax := Min(prevMax, curMax);
      var overlapSize := overlapMax - overlapMin;
      if overlapSize <= MissOverlap then
        Miss
      else
        var cutCenter := if currentPos < previousPos then (curMin + overlapMin) / 2.0
                         else (overlapMax + curMax) / 2.0;
        Placed(Placement((overlapMin + overlapMax) / 2.0, overlapSize, cutCenter, currentSize - overlapSize, false))
  }

  /** Perfect exactly when the offset is within the tolerance (inclusive); the
      block is then snapped onto the support, keeps its size and nothing is cut. */
  lemma ResolvePerfect(currentPos: real, currentSize: real, previousPos: real, previousSize: real)
    ensures var r := Resolve(currentPos, currentSize, previousPos, previousSize);
            && ((r.Placed? && r.placement.wasPerfect) <==> Abs(currentPos - previousPos) <= PerfectTolerance)
            && (r.Placed? && r.placement.wasPerfect ==> r.placement == Placement(previousPos, currentSize, 0.0, 0.0, true))
  {
  }

  /** A miss exactly when the drop is not perfect and the extents overlap by at
      most MissOverlap. */
  lemma ResolveMiss(currentPos: real, currentSize: real, previousPos: real, previousSize: real)
    ensures Resolve(currentPos, currentSize, previousPos, previousSize).Miss? <==>
              Abs(currentPos - previousPos) > PerfectTolerance
              && OverlapSize(currentPos, currentSize, previousPos, previousSize) <= MissOverlap
  {
  }

  /** A partial drop keeps a footprint as wide as the overlap, more than
      MissOverlap and no wider than the moving block, and cuts off the rest. */
  lemma ResolvePartial(currentPos: real, currentSize: real, previousPos: real, previousSize: real)
    ensures var r := Resolve(currentPos, currentSize, previousPos, previousSize);
            r.Placed? && !r.placement.wasPerfect ==>
              && r.placement.keptSize == OverlapSize(currentPos, currentSize, previousPos, previousSize)
              && MissOverlap < r.placement.keptSize <= currentSize
              && r.placement.keptSize + r.placement.cutSize == currentSize
  {
  }

  /** The kept footprint of a partial drop is exactly the intersection of the
      extents of the moving block and of its support. */
  lemma ResolveKeepsIntersection(currentPos: real, currentSize: real, previousPos: real, previousSize: real, t: real)
    ensures var r := Resolve(currentPos, currentSize, previousPos, previousSize);
            r.Placed? && !r.placement.wasPerfect ==>
              (Within(t, Lo(r.placement.keptCenter, r.placement.keptSize), Hi(r.placement.keptCenter, r.placement.keptSize))
               <==> Within(t, Lo(currentPos, currentSize), Hi(currentPos, currentSize))
                    && Within(t, Lo(previousPos, previousSize), Hi(previousPos, previousSize)))
  {
  }

  /** When the moving block is no wider than its support, the cut piece is the
      part of the moving block beyond the support, on the side away from it,
      and the kept footprint and the cut piece share an edge. */
  lemma ResolveCutSide(currentPos: real, currentSize: real, previousPos: real, previousSize: real)
    requires currentSize <= previousSize
    ensures var r := Resolve(currentPos, currentSize, previousPos, previousSize);
            r.Placed? && !r.placement.wasPerfect ==>
              var p := r.placement;
              if currentPos < previousPos then
                && Lo(p.cutCenter, p.cutSize) == Lo(currentPos, currentSize)
                && Hi(p.cutCenter, p.cutSize) == Lo(p.keptCenter, p.keptSize)
                && Hi(p.keptCenter, p.keptSize) == Hi(currentPos, currentSize)
              else
                && Lo(p.cutCenter, p.cutSize) == Hi(p.keptCenter, p.keptSize)
                && Hi(p.cutCenter, p.cutSize) == Hi(currentPos, currentSize)
                && Lo(p.keptCenter, p.keptSize) == Lo(currentPos, currentSize)
  {
  }

  /** With equal widths (what every reachable state has) the cut is as wide as
      the offset between the two blocks. */
  lemma ResolveEqualWidths(currentPos: real, size: real, previousPos: real)
    ensures var r := Resolve(currentPos, size, previousPos, size);
            r.Placed? && !r.placement.wasPerfect ==> r.placement.cutSize == Abs(currentPos - previousPos)
  {
  }
}
