/** Conversions of one calibrated joint within a single turn. */
module Calibration {
  import opened Words
  import opened JointArithmetic

  datatype Calibration = Calibration(zero: u16, minimum: u16, maximum: u16, direction: int)

  datatype Result<+T> = Converted(value: T) | BadConfig | LimitViolation

  predicate Sane(c: Calibration) {
    (c.direction == 1 || c.direction == -1) && c.minimum <= c.zero <= c.maximum <= 4095
  }

  function UradToRaw(c: Calibration, urad: int32): Result<u16> {
    if !Sane(c) then BadConfig
    else
      var raw := c.zero + c.direction * ToCounts(urad);
      if raw < c.minimum as int || raw > c.maximum as int then LimitViolation else Converted(raw)
  }

  function RawToUrad(c: Calibration, raw: u16): Result<int32> {
    if !Sane(c) then BadConfig
    else if raw < c.minimum || raw > c.maximum then LimitViolation
    else
      UradFits((raw - c.zero as int) * c.direction);
      Converted(ToUrad((raw - c.zero as int) * c.direction))
  }

  /** A calibration is usable when it turns one way or the other and its range holds its zero within one turn. */
  predicate Usable(c: Calibration) {
    c.direction in {1, -1} && c.minimum <= c.zero && c.zero <= c.maximum && c.maximum < 4096
  }

  /** A raw position converts exactly in the range of a usable calibration, to the angle of its distance from zero. */
  lemma RawConvertsIff(c: Calibration, raw: u16)
    ensures RawToUrad(c, raw) ==
      if !Usable(c) then BadConfig
      else if c.minimum <= raw <= c.maximum then
        Converted(ToUrad(if c.direction == 1 then raw - c.zero as int else c.zero - raw as int))
      else LimitViolation
  {
  }

  /** An angle converts exactly when the position it comes to is in the range of a usable calibration. */
  lemma AngleConvertsIff(c: Calibration, urad: int32)
    ensures var at := if c.direction == 1 then c.zero + ToCounts(urad) else c.zero - ToCounts(urad);
      UradToRaw(c, urad) ==
        if !Usable(c) then BadConfig else if c.minimum <= at <= c.maximum then Converted(at) else LimitViolation
  {
  }

  lemma UradFits(counts: int)
    requires -4095 <= counts <= 4095
    ensures -0x8000_0000 <= ToUrad(counts) < 0x8000_0000
  {
    RoundingError(counts * TURN_URAD, RAW_PER_TURN);
  }

  /** Every raw position the joint may take comes back from its angle. */
  lemma RawRoundTrip(c: Calibration, raw: u16)
    requires RawToUrad(c, raw).Converted?
    ensures UradToRaw(c, RawToUrad(c, raw).value) == Converted(raw)
  {
    CountsRoundTrip((raw - c.zero as int) * c.direction);
  }

  /** An accepted angle comes back within half a count. */
  lemma AngleRoundTrip(c: Calibration, urad: int32)
    requires UradToRaw(c, urad).Converted?
    ensures var back := RawToUrad(c, UradToRaw(c, urad).value);
      back.Converted? && Gap(back.value, urad) <= 767
  {
    UradRoundTrip(urad);
    assert (UradToRaw(c, urad).value - c.zero as int) * c.direction == ToCounts(urad);
  }

  /** Between two accepted angles every angle is accepted, and raw positions keep the order, or reverse it. */
  lemma AcceptedRangeIsConvex(c: Calibration, x: int32, y: int32, z: int32)
    requires x <= y <= z && UradToRaw(c, x).Converted? && UradToRaw(c, z).Converted?
    ensures UradToRaw(c, y).Converted?
    ensures var a, b := UradToRaw(c, x).value, UradToRaw(c, y).value;
      if c.direction == 1 then a <= b else b <= a
  {
    ConversionsMonotone(x, y);
    ConversionsMonotone(y, z);
  }
}
