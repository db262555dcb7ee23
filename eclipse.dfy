/** The alignment check that the info panel makes on every update
    (app.js:389-415; the same code stands at app_part2.js:152-178): the angle
    between the sun and the moon seen from the centre, and the distance from
    the moon to the rock's shadow, decide whether an eclipse or an opposition
    is reported. The panel's text and markup are not modelled; the decision is
    returned as an `Alignment`. */
module Eclipse {
  import opened JsMath
  import Orbits

  datatype Alignment = None | FullEclipse | PartialEclipse | Opposition

  /** Half of the umbra's 144 km diameter. */
  const UmbraRadius: real := 72.0
  /** Below this multiple of the umbra radius the eclipse is partial. */
  const PenumbraFactor: real := 1.5
  /** The tolerance band around 180 degrees that counts as "opposite". */
  const OppositionLow: real := 170.0
  const OppositionHigh: real := 190.0

  function Abs(v: real): (r: real)
    ensures r >= 0.0 && (r == v || r == -v)
  {
    if v < 0.0 then -v else v
  }

  /** `Math.atan2(y, x) * 180 / Math.PI`: the direction of (x, y) in degrees. */
  function Bearing(m: Math, y: real, x: real): (b: real)
    ensures Lawful(m) ==> -180.0 < b <= 180.0
  {
    var a := m.atan2(y, x);
    Atan2Laws(m, y, x);
    DegreesWithinHalfTurn(m, a);
    Orbits.Degrees(m, a)
  }

  /** The two guarded steps that bring a difference of bearings back into the
      half turn: subtract 360 above 180, then add 360 below -180. */
  function Normalize(raw: real): (d: real)
    ensures d == raw || d == raw - 360.0 || d == raw + 360.0
    ensures -180.0 <= raw <= 180.0 ==> d == raw
    ensures -540.0 <= raw <= 540.0 ==> -180.0 <= d <= 180.0
  {
    var once := if raw > 180.0 then raw - 360.0 else raw;
    if once < -180.0 then once + 360.0 else once
  }

  /** The moon's bearing minus the sun's, normalised. */
  function AngleDiff(m: Math, sunPos: Orbits.CelestialPosition, moonPos: Orbits.CelestialPosition): (d: real)
    ensures Lawful(m) ==> -180.0 <= d <= 180.0
  {
    Normalize(Bearing(m, moonPos.y, moonPos.x) - Bearing(m, sunPos.y, sunPos.x))
  }

  /** The horizontal distance from the moon to the shadow. */
  function MoonShadowDistance(m: Math, moonPos: Orbits.CelestialPosition, shadowPos: Orbits.Point): (d: real)
    ensures Lawful(m) ==>
      d >= 0.0 && Square(d) == Square(moonPos.x - shadowPos.x) + Square(moonPos.y - shadowPos.y)
  {
    var sum := Square(moonPos.x - shadowPos.x) + Square(moonPos.y - shadowPos.y);
    SquareSign(moonPos.x - shadowPos.x);
    SquareSign(moonPos.y - shadowPos.y);
    SqrtLaws(m, sum);
    m.sqrt(sum)
  }

  /** The decision: nothing unless the bodies are within ten degrees of
      opposite; then a full eclipse inside the umbra, a partial one inside
      one and a half umbra radii, and otherwise an opposition. */
  function Classify(angleDiff: real, distance: real): (a: Alignment)
    ensures a == None <==> !(OppositionLow < Abs(angleDiff) < OppositionHigh)
    ensures a == FullEclipse <==> OppositionLow < Abs(angleDiff) < OppositionHigh && distance < UmbraRadius
    ensures a == PartialEclipse <==>
      OppositionLow < Abs(angleDiff) < OppositionHigh && UmbraRadius <= distance < UmbraRadius * PenumbraFactor
    ensures a == Opposition <==>
      OppositionLow < Abs(angleDiff) < OppositionHigh && distance >= UmbraRadius * PenumbraFactor
  {
    if Abs(angleDiff) > OppositionLow && Abs(angleDiff) < OppositionHigh then
      if distance < UmbraRadius then FullEclipse
      else if distance < UmbraRadius * PenumbraFactor then PartialEclipse
      else Opposition
    else
      None
  }

  /** What `updateInfoPanel(sunPos, moonPos, shadowPos)` decides to show. */
  function Status(m: Math, sunPos: Orbits.CelestialPosition, moonPos: Orbits.CelestialPosition,
                  shadowPos: Orbits.Point): (a: Alignment)
    ensures Lawful(m) ==>
      (a == None <==> Abs(AngleDiff(m, sunPos, moonPos)) <= OppositionLow)
  {
    Classify(AngleDiff(m, sunPos, moonPos), MoonShadowDistance(m, moonPos, shadowPos))
  }

  // ----------------------------------------------------------------- lemmas

  /** An angle in (-pi, pi] is in (-180, 180] once converted to degrees. */
  lemma DegreesWithinHalfTurn(m: Math, a: real)
    ensures -(m.pi as real) < a <= m.pi ==> -180.0 < Orbits.Degrees(m, a) <= 180.0
  {
  }

  /** The upper half of the opposition test can never fail: the normalised
      difference of two bearings is at most 180 degrees in size, so the decision
      is the same without the comparison with 190. */
  lemma UpperBoundNeverDecides(m: Math, sunPos: Orbits.CelestialPosition,
                               moonPos: Orbits.CelestialPosition, shadowPos: Orbits.Point)
    requires Lawful(m)
    ensures Abs(AngleDiff(m, sunPos, moonPos)) < OppositionHigh
    ensures var distance := MoonShadowDistance(m, moonPos, shadowPos);
      Status(m, sunPos, moonPos, shadowPos) ==
        if Abs(AngleDiff(m, sunPos, moonPos)) <= OppositionLow then None
        else if distance < UmbraRadius then FullEclipse
        else if distance < UmbraRadius * PenumbraFactor then PartialEclipse
        else Opposition
  {
  }

  /** Converting an angle of 90 to 180 degrees gives a value between pi/2 and pi. */
  lemma RadiansOfObtuse(m: Math, deg: real)
    requires 90.0 <= deg <= 180.0
    ensures m.pi / 2.0 <= Orbits.Radians(m, deg) <= m.pi
  {
    var p: real := m.pi;
    ScaleMonotone(90.0, deg, p);
    ScaleMonotone(deg, 180.0, p);
  }

  /** The cosine of an angle of at least 90 degrees (either way) is not positive. */
  lemma CosOfObtuse(m: Math, deg: real)
    requires Circular(m)
    requires 90.0 <= Abs(deg) <= 180.0
    ensures m.cos(Orbits.Radians(m, deg)) <= 0.0
  {
    var t := Orbits.Radians(m, Abs(deg));
    RadiansOfObtuse(m, Abs(deg));
    assert CosDecreasingOn(m, m.pi / 2.0, t);
    if deg < 0.0 {
      Orbits.RadiansOfDifference(m, 0.0, -deg);
      assert CosEvenAt(m, t);
    }
  }

  /** Normalising changes an angle by whole turns only, which the cosine does not see. */
  lemma CosOfNormalize(m: Math, raw: real)
    requires Circular(m)
    ensures m.cos(Orbits.Radians(m, Normalize(raw))) == m.cos(Orbits.Radians(m, raw))
  {
    var d := Normalize(raw);
    Orbits.RadiansOfTurn(m, raw);
    if d == raw - 360.0 {
      assert PeriodicAt(m, Orbits.Radians(m, d));
    } else if d == raw + 360.0 {
      assert PeriodicAt(m, Orbits.Radians(m, raw));
    }
  }

  /** The difference of two bearings, converted back to radians, is the
      difference of the two atan2 values. */
  lemma RadiansOfBearingGap(m: Math, moonAngle: real, sunAngle: real)
    ensures Orbits.Radians(m, Orbits.Degrees(m, moonAngle) - Orbits.Degrees(m, sunAngle)) == moonAngle - sunAngle
  {
    Orbits.RadiansOfDifference(m, Orbits.Degrees(m, moonAngle), Orbits.Degrees(m, sunAngle));
    Orbits.RadiansOfDegrees(m, moonAngle);
    Orbits.RadiansOfDegrees(m, sunAngle);
  }

  /** The cosine of the normalised difference of bearings is the cosine of the
      difference of the two atan2 values. */
  lemma CosOfAngleDiff(m: Math, sunPos: Orbits.CelestialPosition, moonPos: Orbits.CelestialPosition)
    requires Circular(m)
    ensures m.cos(Orbits.Radians(m, AngleDiff(m, sunPos, moonPos))) ==
      m.cos(m.atan2(moonPos.y, moonPos.x) - m.atan2(sunPos.y, sunPos.x))
  {
    var moonAngle, sunAngle := m.atan2(moonPos.y, moonPos.x), m.atan2(sunPos.y, sunPos.x);
    var raw := Orbits.Degrees(m, moonAngle) - Orbits.Degrees(m, sunAngle);
    assert AngleDiff(m, sunPos, moonPos) == Normalize(raw);
    CosOfNormalize(m, raw);
    RadiansOfBearingGap(m, moonAngle, sunAngle);
  }

  /** A non-zero vector is its length times the cosine and sine of its atan2 angle. */
  lemma PolarForm(m: Math, y: real, x: real)
    requires Circular(m)
    requires Square(x) + Square(y) > 0.0
    ensures m.sqrt(Square(x) + Square(y)) >= 0.0
    ensures x == m.sqrt(Square(x) + Square(y)) * m.cos(m.atan2(y, x))
    ensures y == m.sqrt(Square(x) + Square(y)) * m.sin(m.atan2(y, x))
  {
    assert PolarAt(m, y, x);
    assert SqrtAt(m, Square(x) + Square(y));
  }

  /** Bodies at least 90 degrees apart have atan2 values whose difference has
      a non-positive cosine. */
  lemma CosOfGapNonPositive(m: Math, sunPos: Orbits.CelestialPosition, moonPos: Orbits.CelestialPosition)
    requires Circular(m)
    requires 90.0 <= Abs(AngleDiff(m, sunPos, moonPos))
    ensures m.cos(m.atan2(moonPos.y, moonPos.x) - m.atan2(sunPos.y, sunPos.x)) <= 0.0
  {
    CosOfAngleDiff(m, sunPos, moonPos);
    CosOfObtuse(m, AngleDiff(m, sunPos, moonPos));
  }

  /** The same, with the cosine of the difference expanded. */
  lemma CosOfGapExpanded(m: Math, sunPos: Orbits.CelestialPosition, moonPos: Orbits.CelestialPosition)
    requires Circular(m)
    requires 90.0 <= Abs(AngleDiff(m, sunPos, moonPos))
    ensures var moonAngle, sunAngle := m.atan2(moonPos.y, moonPos.x), m.atan2(sunPos.y, sunPos.x);
      m.cos(moonAngle) * m.cos(sunAngle) + m.sin(moonAngle) * m.sin(sunAngle) <= 0.0
  {
    CosOfGapNonPositive(m, sunPos, moonPos);
    assert CosOfDifference(m, m.atan2(moonPos.y, moonPos.x), m.atan2(sunPos.y, sunPos.x));
  }

  /** Two vectors whose atan2 angles differ by an angle with a non-positive
      cosine have a non-positive dot product. */
  lemma DotOfWideGap(m: Math, sunPos: Orbits.CelestialPosition, moonPos: Orbits.CelestialPosition)
    requires Circular(m)
    requires Square(sunPos.x) + Square(sunPos.y) > 0.0
    requires Square(moonPos.x) + Square(moonPos.y) > 0.0
    requires var moonAngle, sunAngle := m.atan2(moonPos.y, moonPos.x), m.atan2(sunPos.y, sunPos.x);
      m.cos(moonAngle) * m.cos(sunAngle) + m.sin(moonAngle) * m.sin(sunAngle) <= 0.0
    ensures moonPos.x * sunPos.x + moonPos.y * sunPos.y <= 0.0
  {
    var moonAngle, sunAngle := m.atan2(moonPos.y, moonPos.x), m.atan2(sunPos.y, sunPos.x);
    PolarForm(m, moonPos.y, moonPos.x);
    PolarForm(m, sunPos.y, sunPos.x);
    DotOfPolarNonPositive(moonPos.x, moonPos.y, sunPos.x, sunPos.y,
      m.sqrt(Square(moonPos.x) + Square(moonPos.y)), m.cos(moonAngle), m.sin(moonAngle),
      m.sqrt(Square(sunPos.x) + Square(sunPos.y)), m.cos(sunAngle), m.sin(sunAngle));
  }

  /** Two bodies at least 90 degrees apart, seen from the centre, point away
      from each other: the dot product of their horizontal positions is not positive. */
  lemma FacingAway(m: Math, sunPos: Orbits.CelestialPosition, moonPos: Orbits.CelestialPosition)
    requires Circular(m)
    requires Square(sunPos.x) + Square(sunPos.y) > 0.0
    requires Square(moonPos.x) + Square(moonPos.y) > 0.0
    requires 90.0 <= Abs(AngleDiff(m, sunPos, moonPos))
    ensures moonPos.x * sunPos.x + moonPos.y * sunPos.y <= 0.0
  {
    CosOfGapExpanded(m, sunPos, moonPos);
    DotOfWideGap(m, sunPos, moonPos);
  }

  /** Two points on circles of radius at least r0 around the centre that face
      away from each other are at least r0 apart. */
  lemma ApartWhenFacingAway(m: Math, moonPos: Orbits.CelestialPosition, shadowPos: Orbits.Point, r0: real)
    requires Lawful(m)
    requires 0.0 <= r0 <= moonPos.radius
    requires Square(moonPos.x) + Square(moonPos.y) == Square(moonPos.radius)
    requires moonPos.x * shadowPos.x + moonPos.y * shadowPos.y <= 0.0
    ensures MoonShadowDistance(m, moonPos, shadowPos) >= r0
  {
    var d := MoonShadowDistance(m, moonPos, shadowPos);
    GapSquared(moonPos.x, moonPos.y, shadowPos.x, shadowPos.y);
    SquareSign(shadowPos.x);
    SquareSign(shadowPos.y);
    if r0 < moonPos.radius {
      SquareStrictlyMonotone(r0, moonPos.radius);
    }
    assert Square(d) >= Square(r0);
    if d < r0 {
      SquareStrictlyMonotone(d, r0);
    }
  }

  /** Under exact arithmetic the eclipse branches are dead code: the shadow
      lies under the sun, so whenever the moon is within ten degrees of
      opposite the sun it is at least a moon-orbit radius away from the shadow,
      and the panel can only ever report an opposition or nothing. */
  lemma EclipsesNeverReported(m: Math, dayOfYear: int, hourOfDay: real, moonPhaseDay: real)
    requires Circular(m)
    ensures var sunPos := Orbits.SunPosition(m, dayOfYear, hourOfDay);
      var moonPos := Orbits.MoonPosition(m, dayOfYear, hourOfDay, moonPhaseDay);
      var shadowPos := Orbits.ShadowPosition(m, sunPos);
      shadowPos.Some? &&
      Status(m, sunPos, moonPos, shadowPos.value) ==
        if Abs(AngleDiff(m, sunPos, moonPos)) > OppositionLow then Opposition else None
  {
    var sunPos := Orbits.SunPosition(m, dayOfYear, hourOfDay);
    var moonPos := Orbits.MoonPosition(m, dayOfYear, hourOfDay, moonPhaseDay);
    Orbits.ShadowUnderSun(m, dayOfYear, hourOfDay);
    var shadowPos := Orbits.Point(sunPos.x, sunPos.y, Orbits.DomeHeight);
    UpperBoundNeverDecides(m, sunPos, moonPos, shadowPos);
    if Abs(AngleDiff(m, sunPos, moonPos)) > OppositionLow {
      SquareStrictlyMonotone(0.0, sunPos.radius);
      SquareStrictlyMonotone(0.0, moonPos.radius);
      FacingAway(m, sunPos, moonPos);
      ApartWhenFacingAway(m, moonPos, shadowPos, Orbits.MoonMinRadius);
    }
  }
}
