/**
 * The indexing shared by the calibration table, its flash image and the
 * servo cluster: joint `j` (0 coxa, 1 tibia, 2 femur) of leg `l` (0..5)
 * lives at flat index `3 * l + j`, and flat index `i` belongs to leg `i / 3`,
 * joint `i % 3`.
 */
module Layout {
  const Legs: nat := 6
  const JointsPerLeg: nat := 3
  /** Number of servo channels, and of cells in the calibration table. */
  const Channels: nat := 18

  predicate IsLeg(l: int) { 0 <= l < Legs }
  predicate IsJoint(j: int) { 0 <= j < JointsPerLeg }
  predicate IsChannel(i: int) { 0 <= i < Channels }

  /** The flat index of joint `joint` of leg `leg`. */
  function FlatIndex(leg: int, joint: int): (i: int)
    requires IsJoint(joint)
    ensures i / JointsPerLeg == leg && i % JointsPerLeg == joint
    ensures IsLeg(leg) <==> IsChannel(i)
  {
    JointsPerLeg * leg + joint
  }

  /** Splitting a flat index into leg and joint and joining them again gives it back. */
  lemma FlatIndexOfSplit(i: int)
    ensures IsJoint(i % JointsPerLeg) && FlatIndex(i / JointsPerLeg, i % JointsPerLeg) == i
    ensures IsChannel(i) <==> IsLeg(i / JointsPerLeg)
  {
  }

  /** Two (leg, joint) pairs share a flat index only if they are the same pair. */
  lemma FlatIndexInjective(l1: int, j1: int, l2: int, j2: int)
    requires IsJoint(j1) && IsJoint(j2)
    requires FlatIndex(l1, j1) == FlatIndex(l2, j2)
    ensures l1 == l2 && j1 == j2
  {
  }
}
