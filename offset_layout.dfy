/**
 * `generateOffset` (src/components/map/OrderMap.jsx): the displacement given
 * to the order at a given position of its location group. The source computes
 * it in floating point from the polar form radius 0.004, angle index * 45
 * degrees; the model keeps the exact polar form.
 */
module OffsetLayout {

  const OffsetRadius: real := 0.004
  const AngleStepDegrees: nat := 45
  const FullTurnDegrees: nat := 360

  /** A displacement given by its length and its angle in degrees. */
  datatype PolarOffset = PolarOffset(radius: real, angleDegrees: nat)

  /**
   * The offset of position `index` within a group: the same radius for every
   * position, and a direction that advances 45 degrees per position, so that
   * it comes round to the first direction every eight positions.
   */
  function GenerateOffset(index: nat): (o: PolarOffset)
    ensures o.radius == OffsetRadius
    ensures Direction(o) == AngleStepDegrees * (index % 8)
  {
    AngleWithinTurn(index);
    PolarOffset(OffsetRadius, index * AngleStepDegrees)
  }

  /** The direction of an offset, as an angle within one full turn. */
  function Direction(p: PolarOffset): (d: nat)
    ensures d < FullTurnDegrees
  {
    p.angleDegrees % FullTurnDegrees
  }

  /** Eight steps of 45 degrees make one full turn. */
  lemma {:induction false} AngleWithinTurn(i: nat)
    ensures (i * AngleStepDegrees) % FullTurnDegrees == AngleStepDegrees * (i % 8)
  {
    var q, r := i / 8, i % 8;
    assert i == 8 * q + r;
    assert AngleStepDegrees == 45 && FullTurnDegrees == 360;
    var a := i * 45;
    assert a == 360 * q + 45 * r;
    assert 0 <= 45 * r < 360;
    assert a % 360 == 45 * r;
  }

  /**
   * Two positions point the same way exactly when they are congruent
   * modulo 8: positions 0..7 of a group get eight distinct directions, and
   * position 8 repeats the direction of position 0.
   */
  lemma {:induction false} SameDirectionIffSameOctant(i: nat, j: nat)
    ensures Direction(GenerateOffset(i)) == Direction(GenerateOffset(j)) <==> i % 8 == j % 8
  {
  }
}
