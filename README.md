# Flat-earth dome model: orbital geometry and alignment check

This project models the computational core of a 3D visualisation of a
flat, domed world. Four parts are modelled:

- **Sun position.** For a day of the year and an hour of the day, the sun
  circles at the dome's height (`DOME_HEIGHT`, 4000 km). Its orbit radius
  swings between 5000 and 14000 km over the year and is tightest on day 355.
- **Moon position.** The moon also circles at the dome's height. Its orbit
  radius and its angular offset follow a 29.5-day lunar month.
- **Shadow.** The rock's shadow is the point where the ray from the sun
  through the top of the magnetic rock (60 km high) meets the plane of the
  dome's ceiling.
- **Alignment check.** The info panel compares the sun's and the moon's
  bearings seen from the centre, and the moon's distance from the shadow.
  From these it reports a full eclipse, a partial eclipse, an opposition,
  or nothing.

The model also covers the animation clock, which advances a tenth of an
hour per frame.

`app_part2.js` repeats the three position functions (lines 6-65) and the
alignment check (lines 152-178) verbatim. One model serves both copies. The
table cites `app.js`.

JavaScript's `Math.sin`, `Math.cos`, `Math.atan2`, `Math.sqrt` and
`Math.PI` cannot be defined in Dafny. The model passes them in as a value of
type `JsMath.Math`. The laws they obey are stated as hypotheses:

- `JsMath.Lawful` holds the basic laws: ranges, sin² + cos² = 1, cos 0 = 1,
  the square root, and the range of atan2.
- `JsMath.Circular` adds periodicity, evenness and monotonicity of cosine,
  the cosine of a difference, cos(π/2) = 0, and the polar reading of atan2.

Functions state their guarantees in the form `Lawful(m) ==> …`, so they
impose no precondition the source does not have.

All arithmetic is exact real arithmetic.

Modules:

- `jsmath.dfy`: the abstract `Math` kit and its laws.
- `orbits.dfy`: the constants and the sun, moon and shadow positions.
- `eclipse.dfy`: the alignment decision, and the proof that its eclipse
  branches cannot be reached.
- `animation.dfy`: the frame clock.

### Properties of the code worth knowing

- **Both bodies sit at `DOME_HEIGHT`.** The sun and the moon circle at the
  same height, the height of the dome's ceiling.
- **The eclipse test uses the rock's shadow.** It compares the moon's
  distance from the rock's shadow with an umbra of radius 72, and with 1.5
  times that.
- **The normalised angle can be exactly -180.** A raw difference of exactly
  -180 passes both guarded steps unchanged, so the normalised angle lies in
  [-180, 180]. `Eclipse.Normalize` and `Eclipse.AngleDiff` state the closed
  range.
- **The upper bound of the window never decides.** The "< 190" half of the
  opposition test can never fail, because a normalised difference is at most
  180 in size (`Eclipse.UpperBoundNeverDecides`).
- **Eclipses are never reported.** Both bodies sit on the dome's ceiling, so
  the shadow of the sun falls on the sun's own x and y. When the moon is more
  than 170 degrees from the sun it is at least 8000 km from the shadow. The
  full and partial eclipse branches are therefore unreachable under exact
  arithmetic (`Eclipse.EclipsesNeverReported`).

## Model

| member | source | states |
|---|---|---|
| Orbits.RadiansOfDegrees | app.js:274 | converting radians to degrees and back returns the angle (the moon's monthly angle is converted to degrees and back inside its daily offset) |
| Orbits.SunRadius | app.js:245-250 | the sun's orbit radius lies between 5000 and 14000 for every day of the year (same at app_part2.js:8-13) |
| Orbits.SunPosition | app.js:243-261 | the sun is at height DOME_HEIGHT, its radius is within [5000, 14000], and x² + y² equals radius², so it lies on the circle of that radius (same at app_part2.js:6-24) |
| Orbits.MoonRadius | app.js:264-268 | the moon's orbit radius lies between 8000 and 12000 for every phase day (same at app_part2.js:27-31) |
| Orbits.DailyOffset | app.js:271-274 | the moon's angle is the hour as a fraction of a turn, hourOfDay·π/12, plus the monthly angle; the degree round trip adds nothing (same at app_part2.js:34-37) |
| Orbits.MoonPosition | app.js:263-281 | the moon is at height DOME_HEIGHT, its radius is within [8000, 12000], and x² + y² equals radius² (same at app_part2.js:26-44) |
| Orbits.ShadowPosition | app.js:284-302 | the shadow's height is DOME_HEIGHT, and x and y are the sun's scaled by (DOME_HEIGHT − 60)/(z − 60); under the laws a result exists exactly when the sun is not at the rock's height; otherwise JavaScript divides by zero and the model gives None (same at app_part2.js:47-65) |
| Orbits.SolsticeRadius | app.js:245-250 | on day 355 the annual angle is 0 and the sun's orbit has its minimum radius 5000 |
| Orbits.SunYearly | app.js:243-261 | the sun's position is the same on day d and on day d + 365 |
| Orbits.SunDaily | app.js:253-258 | the sun's position is the same at hour h and at hour h + 24 |
| Orbits.MoonIgnoresDay | app.js:263-281 | the moon's position does not depend on the day-of-year argument |
| Orbits.ShadowOfDomeSun | app.js:284-302 | for a sun at DOME_HEIGHT, the shadow is defined and lies at the sun's own x and y |
| Orbits.ShadowUnderSun | app.js:243-302 | for every day and hour, the shadow of the computed sun lies at the sun's own x and y |
| Eclipse.Abs | app.js:405 | `Math.abs`: the result is non-negative and is the argument or its negation |
| Eclipse.Bearing | app.js:390-391 | each body's bearing in degrees, atan2·180/π, lies in (-180, 180] (same at app_part2.js:153-154) |
| Eclipse.Normalize | app.js:392-394 | the guarded ±360 steps change the difference by a whole turn at most, leave values in [-180, 180] alone, and bring every value in [-540, 540] into [-180, 180] (same at app_part2.js:155-157) |
| Eclipse.AngleDiff | app.js:390-394 | the normalised bearing difference of moon and sun lies in [-180, 180] |
| Eclipse.MoonShadowDistance | app.js:400-402 | the moon-to-shadow distance is non-negative and its square is the squared horizontal gap (same at app_part2.js:163-165) |
| Eclipse.Classify | app.js:403-415 | the four outcomes, each as an if-and-only-if: None when the angle's size is outside (170, 190); inside it, FullEclipse below 72, PartialEclipse in [72, 108), Opposition from 108 (same at app_part2.js:166-178) |
| Eclipse.Status | app.js:390-415 | under the laws, the panel shows nothing exactly when the angle's size is at most 170 |
| Eclipse.UpperBoundNeverDecides | app.js:392-405 | the size of the normalised angle is always below 190, so the decision equals the one with the "< 190" test removed |
| Eclipse.CosOfNormalize | app.js:392-394 | normalising changes only whole turns, so the cosine of the angle in radians is unchanged |
| Eclipse.CosOfAngleDiff | app.js:390-394 | the cosine of the normalised difference is the cosine of the difference of the two atan2 values |
| Eclipse.FacingAway | app.js:390-394 | two bodies at least 90 degrees apart have a non-positive dot product of their horizontal positions |
| Eclipse.ApartWhenFacingAway | app.js:400-402 | a point on a circle of radius r that faces away from another point is at least r from it |
| Eclipse.EclipsesNeverReported | app.js:390-415 | for every day, hour and phase the shadow exists, and the panel reports Opposition when the angle's size exceeds 170 and nothing otherwise; it never reports a full or a partial eclipse |
| Animation.FollowingDay | app.js:505-506 | the next day stays within 1..365, and is day + 1 before day 365 |
| Animation.Next | app.js:502-506 | one frame keeps the day in 1..365 and the hour in [0, 24); for a clock in range the day changes exactly when the hour plus 0.1 reaches 24, and then the hour is 0 and the day is the following one; otherwise the hour grows by 0.1 |
| Animation.Ticks | app.js:501-506 | any number of frames keeps the clock in range |
| Animation.TickAdvances | app.js:502-506 | within a year a frame moves the elapsed time forward by more than 0 and at most 0.1 hours |
| Animation.YearWraps | app.js:503-506 | after the last hour of day 365 the clock reads day 1, hour 0 |
| Animation.WithinDay | app.js:502-503 | from midnight, the first 239 frames stay on the same day at hour k·0.1 |
| Animation.DayLength | app.js:502-506 | from midnight, 240 frames lead to midnight of the following day |
| Animation.Clock.constructor | app.js:20-21 | the clock starts on day 172 at hour 12, within range |
| Animation.Clock.Tick | app.js:501-506 | the fields' new values are one frame of `Next` applied to the old ones, and the range invariant is preserved |

## Left out

- Scene construction, meshes, materials, lights, the camera, the DOM
  read-outs and the rounding shown in them are presentation only. So are the
  constants used only for drawing: EARTH_RADIUS, MAGNETIC_ROCK_DIAMETER,
  ATMOSPHERE_HEIGHT, SUN_DIAMETER, MOON_DIAMETER and SCALE_FACTOR.
- Slider, checkbox and button handlers, including `parseInt` of slider
  values, and window resizing are event wiring.
- The `isAnimating` flag and the `requestAnimationFrame` scheduling are not
  modelled. `Animation.Clock.Tick` is the body that runs when the flag is on.
  `moonPhaseDay` is never advanced by the loop, so it is a plain parameter.
- The dome's slow rotation in the loop only affects the drawing.
- `app_part1.js` is not part of this model: it repeats the constants and the
  globals and otherwise builds the scene.
- IEEE double arithmetic is not modelled; all quantities are exact reals.
  Two things differ as a result:
  - Summing 0.1 in floating point drifts upward by about 1e-13 over a day.
    The wrap still happens on the same frame as with exact arithmetic
    (frame 240 from midnight, frame 120 from noon). Only the intermediate
    hours differ slightly from the k·0.1 that `Animation.WithinDay` gives.
  - The exact equalities proved here hold in the program only up to
    rounding. These are the shadow falling on the sun's own x and y, and
    x² + y² = radius² for both bodies.
- The trigonometric functions, the square root and π are parameters. Their
  laws are hypotheses, not definitions.
- Orbits.ShadowPosition: where JavaScript produces non-finite coordinates
  (NaN or Infinity from a division by zero), the model returns None instead
  of modelling those values.
