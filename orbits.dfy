/** Where the sun, the moon and the rock's shadow sit for a given day of the
    year, hour of the day and day of the lunar month (app.js:243-302; the same
    three functions stand at app_part2.js:6-65).

    Lengths are in kilometres, in the world frame of the source: x and y are
    horizontal, z is the height above the flat earth. */
module Orbits {
  import opened JsMath

  /** Height of the dome's ceiling, where both bodies circle. */
  const DomeHeight: real := 4000.0
  /** Height of the magnetic rock at the centre of the world. */
  const MagneticRockHeight: real := 60.0

  const SunMinRadius: real := 5000.0
  const SunMaxRadius: real := 14000.0
  const MoonMinRadius: real := 8000.0
  const MoonMaxRadius: real := 12000.0

  /** The day of the year on which the sun's orbit is at its tightest. */
  const SolsticeDay: int := 355

  datatype Option<T> = None | Some(value: T)

  /** The `{x, y, z, radius}` object returned for the sun and the moon. */
  datatype CelestialPosition = CelestialPosition(x: real, y: real, z: real, radius: real)

  /** The `{x, y, z}` object returned for the shadow. */
  datatype Point = Point(x: real, y: real, z: real)

  /** `deg * Math.PI / 180` */
  function Radians(m: Math, deg: real): real {
    deg * m.pi / 180.0
  }

  /** `rad * 180 / Math.PI` */
  function Degrees(m: Math, rad: real): real {
    rad * 180.0 / m.pi
  }

  // ---------------------------------------------------------------- the sun

  /** The annual angle: a full turn over 365 days, zero on the solstice day. */
  function YearAngle(m: Math, dayOfYear: int): real {
    Radians(m, (dayOfYear - SolsticeDay) as real * 360.0 / 365.0)
  }

  /** The sun's orbit radius swings between its minimum and its maximum with the cosine of the annual angle. */
  function SunRadius(m: Math, dayOfYear: int): (r: real)
    ensures Lawful(m) ==> SunMinRadius <= r <= SunMaxRadius
  {
    TrigLaws(m, YearAngle(m, dayOfYear));
    SunMinRadius + (SunMaxRadius - SunMinRadius) * (1.0 - m.cos(YearAngle(m, dayOfYear))) / 2.0
  }

  /** The daily angle: a full turn over 24 hours. */
  function DailyAngle(m: Math, hourOfDay: real): real {
    Radians(m, hourOfDay * 360.0 / 24.0)
  }

  /** `calculateSunPosition(dayOfYear, hourOfDay)` */
  function SunPosition(m: Math, dayOfYear: int, hourOfDay: real): (p: CelestialPosition)
    ensures p.z == DomeHeight
    ensures Lawful(m) ==> SunMinRadius <= p.radius <= SunMaxRadius
    ensures Lawful(m) ==> Square(p.x) + Square(p.y) == Square(p.radius)
  {
    var radius := SunRadius(m, dayOfYear);
    var angle := DailyAngle(m, hourOfDay);
    OnCircle(m, radius, angle);
    CelestialPosition(radius * m.cos(angle), radius * m.sin(angle), DomeHeight, radius)
  }

  // --------------------------------------------------------------- the moon

  /** The monthly angle: a full turn over a lunar month of 29.5 days. */
  function MonthlyAngle(m: Math, moonPhaseDay: real): real {
    Radians(m, moonPhaseDay * 360.0 / 29.5)
  }

  /** The moon's orbit radius swings about the middle of its range with the sine of the monthly angle. */
  function MoonRadius(m: Math, moonPhaseDay: real): (r: real)
    ensures Lawful(m) ==> MoonMinRadius <= r <= MoonMaxRadius
  {
    TrigLaws(m, MonthlyAngle(m, moonPhaseDay));
    (MoonMinRadius + MoonMaxRadius) / 2.0 +
      (MoonMaxRadius - MoonMinRadius) * m.sin(MonthlyAngle(m, moonPhaseDay)) / 2.0
  }

  /** The moon's angle: the daily angle in degrees plus the monthly angle
      converted back to degrees, the sum converted to radians. */
  function DailyOffset(m: Math, hourOfDay: real, moonPhaseDay: real): (a: real)
    ensures a == hourOfDay * m.pi / 12.0 + MonthlyAngle(m, moonPhaseDay)
  {
    var monthly := MonthlyAngle(m, moonPhaseDay);
    RadiansOfDegrees(m, monthly);
    Radians(m, hourOfDay * 360.0 / 24.0 + Degrees(m, monthly))
  }

  /** `calculateMoonPosition(dayOfYear, hourOfDay, moonPhaseDay)`; the day of
      the year is accepted and never read. */
  function MoonPosition(m: Math, dayOfYear: int, hourOfDay: real, moonPhaseDay: real): (p: CelestialPosition)
    ensures p.z == DomeHeight
    ensures Lawful(m) ==> MoonMinRadius <= p.radius <= MoonMaxRadius
    ensures Lawful(m) ==> Square(p.x) + Square(p.y) == Square(p.radius)
  {
    var radius := MoonRadius(m, moonPhaseDay);
    var angle := DailyOffset(m, hourOfDay, moonPhaseDay);
    OnCircle(m, radius, angle);
    CelestialPosition(radius * m.cos(angle), radius * m.sin(angle), DomeHeight, radius)
  }

  // ------------------------------------------------------------- the shadow

  /** `calculateShadowPosition(sunPos)`: the unit direction from the sun
      through the top of the rock, scaled so that its height grows by
      DomeHeight - MagneticRockHeight. Where JavaScript divides by zero (a
      zero direction, or a horizontal one) the result has non-finite x and y;
      the model returns None there. */
  function ShadowPosition(m: Math, sunPos: CelestialPosition): (r: Option<Point>)
    ensures r.Some? ==> r.value.z == DomeHeight
    ensures r.Some? ==> sunPos.z != MagneticRockHeight
    ensures r.Some? ==>
      var scale := (DomeHeight - MagneticRockHeight) / (sunPos.z - MagneticRockHeight);
      r.value.x == sunPos.x * scale && r.value.y == sunPos.y * scale
    ensures Lawful(m) ==> (r.Some? <==> sunPos.z != MagneticRockHeight)
  {
    var shadowDirX := -sunPos.x;
    var shadowDirY := -sunPos.y;
    var shadowDirZ := -sunPos.z + MagneticRockHeight;
    var length := m.sqrt(Square(shadowDirX) + Square(shadowDirY) + Square(shadowDirZ));
    SquareSign(shadowDirX);
    SquareSign(shadowDirY);
    SquareSign(shadowDirZ);
    SqrtPositive(m, Square(shadowDirX) + Square(shadowDirY) + Square(shadowDirZ));
    SqrtLaws(m, Square(shadowDirX) + Square(shadowDirY) + Square(shadowDirZ));
    if length == 0.0 then
      None
    else
      var unitX := shadowDirX / length;
      var unitY := shadowDirY / length;
      var unitZ := shadowDirZ / length;
      if unitZ == 0.0 then
        None
      else
        var t := (DomeHeight - MagneticRockHeight) / unitZ;
        Some(Point(unitX * t, unitY * t, DomeHeight))
  }

  // ----------------------------------------------------------------- lemmas

  /** Converting radians to degrees and back gives the angle unchanged. */
  lemma RadiansOfDegrees(m: Math, rad: real)
    ensures Radians(m, Degrees(m, rad)) == rad
  {
  }

  /** Converting a difference to radians is the difference of the conversions. */
  lemma RadiansOfDifference(m: Math, x: real, y: real)
    ensures Radians(m, x - y) == Radians(m, x) - Radians(m, y)
  {
  }

  /** A whole turn of 360 degrees is 2 pi radians. */
  lemma RadiansOfTurn(m: Math, x: real)
    ensures Radians(m, x + 360.0) == Radians(m, x) + 2.0 * m.pi
    ensures Radians(m, x - 360.0) == Radians(m, x) - 2.0 * m.pi
  {
  }

  /** On the solstice day the annual angle is zero and the sun's orbit is at its minimum radius. */
  lemma SolsticeRadius(m: Math, hourOfDay: real)
    requires Lawful(m)
    ensures YearAngle(m, SolsticeDay) == 0.0
    ensures SunPosition(m, SolsticeDay, hourOfDay).radius == SunMinRadius
  {
  }

  /** The sun's position repeats after 365 days. */
  lemma SunYearly(m: Math, dayOfYear: int, hourOfDay: real)
    requires Circular(m)
    ensures SunPosition(m, dayOfYear + 365, hourOfDay) == SunPosition(m, dayOfYear, hourOfDay)
  {
    var a := YearAngle(m, dayOfYear);
    assert YearAngle(m, dayOfYear + 365) == a + 2.0 * m.pi;
    assert PeriodicAt(m, a);
  }

  /** The sun's position repeats after 24 hours. */
  lemma SunDaily(m: Math, dayOfYear: int, hourOfDay: real)
    requires Circular(m)
    ensures SunPosition(m, dayOfYear, hourOfDay + 24.0) == SunPosition(m, dayOfYear, hourOfDay)
  {
    var a := DailyAngle(m, hourOfDay);
    assert DailyAngle(m, hourOfDay + 24.0) == a + 2.0 * m.pi;
    assert PeriodicAt(m, a);
  }

  /** The moon's position does not depend on the day of the year. */
  lemma MoonIgnoresDay(m: Math, day1: int, day2: int, hourOfDay: real, moonPhaseDay: real)
    ensures MoonPosition(m, day1, hourOfDay, moonPhaseDay) == MoonPosition(m, day2, hourOfDay, moonPhaseDay)
  {
  }

  /** A sun on the dome's ceiling casts its shadow straight back onto itself:
      the ray through the rock meets the ceiling's plane only at the sun. */
  lemma ShadowOfDomeSun(m: Math, sunPos: CelestialPosition)
    requires Lawful(m)
    requires sunPos.z == DomeHeight
    ensures ShadowPosition(m, sunPos) == Some(Point(sunPos.x, sunPos.y, DomeHeight))
  {
    var r := ShadowPosition(m, sunPos);
    assert r.Some?;
    assert (DomeHeight - MagneticRockHeight) / (sunPos.z - MagneticRockHeight) == 1.0;
    assert r.value.x == sunPos.x && r.value.y == sunPos.y;
  }

  /** For every day and hour the shadow is defined and lies under the sun's own x and y. */
  lemma ShadowUnderSun(m: Math, dayOfYear: int, hourOfDay: real)
    requires Lawful(m)
    ensures var sunPos := SunPosition(m, dayOfYear, hourOfDay);
      ShadowPosition(m, sunPos) == Some(Point(sunPos.x, sunPos.y, DomeHeight))
  {
    ShadowOfDomeSun(m, SunPosition(m, dayOfYear, hourOfDay));
  }
}
