/**
 * Gauss-Krüger zone bookkeeping: the 3- and 6-degree zone of a longitude, the central
 * meridian of a zone, the false-easting `zoneY`, and how the forward and inverse projections
 * and the re-zoning operation choose their zone and central meridian.
 *
 * Longitudes are in degrees here. The source divides radians by `deg2rad(3)` or
 * `deg2rad(6)`, which is the same quotient, and builds central meridians with `deg2rad`.
 * The projection series themselves are parameters (`ForwardSeries`, `InverseSeries`).
 */
module Projector {
  import opened Wrappers
  import opened Reals

  /** zone3: the 3-degree zone number; a remainder above 1.5 degrees moves up one zone. */
  function Zone3(lon: real): int
  {
    Trunc(lon / 3.0) + (if Fmod(lon, 3.0) > 1.5 then 1 else 0)
  }

  /** zone6: the 6-degree zone number, counted from 1. */
  function Zone6(lon: real): int
  {
    Trunc(lon / 6.0) + 1
  }

  /** centerMeridian3: the central meridian of a 3-degree zone, in degrees. */
  function CenterMeridian3(zone: int): real
  {
    (3 * zone) as real
  }

  /** centerMeridian6: the central meridian of a 6-degree zone, in degrees. */
  function CenterMeridian6(zone: int): real
  {
    (6 * zone - 3) as real
  }

  /**
   * The band of longitudes (east of Greenwich) a zone covers, as an independent reference:
   * a 6-degree zone z covers [6(z-1), 6z); a 3-degree zone z covers (3z - 1.5, 3z + 1.5].
   */
  predicate InBand(lon: real, zone: int, interval: real)
  {
    if interval == 6.0 then 6.0 * (zone - 1) as real <= lon < 6.0 * zone as real
    else 3.0 * zone as real - 1.5 < lon <= 3.0 * zone as real + 1.5
  }

  /** A non-negative longitude is in 6-degree zone z exactly when it lies in z's band. */
  lemma Zone6Band(lon: real, zone: int)
    requires lon >= 0.0
    ensures Zone6(lon) == zone <==> InBand(lon, zone, 6.0)
  {
    var k := Trunc(lon / 6.0);
    DivNonneg(lon, 6.0);
    FloorDivBounds(lon, 6.0);
    assert k == (lon / 6.0).Floor;
    if InBand(lon, zone, 6.0) {
      assert (zone - 1) as real <= lon / 6.0 < zone as real;
    }
  }

  /** A non-negative longitude is in 3-degree zone z exactly when it lies in z's band. */
  lemma Zone3Band(lon: real, zone: int)
    requires lon >= 0.0
    ensures Zone3(lon) == zone <==> InBand(lon, zone, 3.0)
  {
    var k := Trunc(lon / 3.0);
    DivNonneg(lon, 3.0);
    FloorDivBounds(lon, 3.0);
    assert k == (lon / 3.0).Floor;
    assert Fmod(lon, 3.0) == lon - 3.0 * k as real;
    if InBand(lon, zone, 3.0) {
      if lon <= 3.0 * zone as real {
        assert (zone - 1) as real < lon / 3.0 <= zone as real;
        if lon / 3.0 == zone as real {
          assert k == zone;
        } else {
          assert k == zone - 1;
        }
      } else {
        assert zone as real < lon / 3.0 <= zone as real + 0.5;
        assert k == zone;
      }
    }
  }

  /** Whether an interval is one the projector knows: 3 or 6 degrees. */
  predicate KnownInterval(interval: real)
  {
    interval == 3.0 || interval == 6.0
  }

  /** Gauss_Projector::zone: the zone of a longitude, or invalid_argument for an unknown interval. */
  function Zone(lon: real, interval: real): (r: Result<int>)
    ensures r.Ok? <==> KnownInterval(interval)
    ensures r.Err? ==> r.error == InvalidArgument
  {
    if interval == 3.0 then Ok(Zone3(lon))
    else if interval == 6.0 then Ok(Zone6(lon))
    else Err(InvalidArgument)
  }

  /** For a non-negative longitude, the zone found is the one whose band holds it. */
  lemma ZoneIsBand(lon: real, interval: real, zone: int)
    requires lon >= 0.0 && KnownInterval(interval)
    ensures Zone(lon, interval) == Ok(zone) <==> InBand(lon, zone, interval)
  {
    if interval == 3.0 {
      Zone3Band(lon, zone);
    } else {
      Zone6Band(lon, zone);
    }
  }

  /** Gauss_Projector::centerMeridian(zone, interval), or invalid_argument for an unknown interval. */
  function CenterMeridianOf(zone: int, interval: real): (r: Result<real>)
    ensures r.Ok? <==> KnownInterval(interval)
    ensures r.Err? ==> r.error == InvalidArgument
  {
    if interval == 3.0 then Ok(CenterMeridian3(zone))
    else if interval == 6.0 then Ok(CenterMeridian6(zone))
    else Err(InvalidArgument)
  }

  /** Gauss_Projector::centerMeridian(longitude, interval): the central meridian of the longitude's own zone. */
  function CenterMeridianAt(lon: real, interval: real): (r: Result<real>)
    ensures r.Ok? <==> KnownInterval(interval)
    ensures r.Err? ==> r.error == InvalidArgument
  {
    match Zone(lon, interval)
    case Err(e) => Err(e)
    case Ok(zone) => CenterMeridianOf(zone, interval)
  }

  /**
   * The central meridian of a non-negative longitude's own zone is within half a zone of it:
   * less than 3 degrees west of it or at most 3 east for 6-degree zones, within 1.5 degrees
   * for 3-degree zones.
   */
  lemma CenterMeridianNear(lon: real, interval: real)
    requires lon >= 0.0 && KnownInterval(interval)
    ensures CenterMeridianAt(lon, interval).Ok?
    ensures interval == 6.0 ==> -3.0 <= lon - CenterMeridianAt(lon, interval).value < 3.0
    ensures interval == 3.0 ==> -1.5 < lon - CenterMeridianAt(lon, interval).value <= 1.5
  {
    var zone := Zone(lon, interval).value;
    ZoneIsBand(lon, interval, zone);
  }

  /** A Gauss_Project_Coordinate: the zone interval, the plane coordinates and the zone number. */
  datatype GaussCoordinate = GaussCoordinate(interval: real, x: real, y: real, zone: int)

  /** A geodetic coordinate: latitude as given to the series, longitude in degrees. */
  datatype Geodetic = Geodetic(lat: real, lon: real)

  const FALSE_EASTING: real := 500000.0
  const ZONE_PREFIX: real := 1000000.0

  /** zoneY: the y coordinate with the false easting added and the zone number prefixed. */
  function ZoneY(c: GaussCoordinate): (r: real)
  {
    c.y + FALSE_EASTING + c.zone as real * ZONE_PREFIX
  }

  /**
   * For a y coordinate within 500 km of the central meridian, the zone number and y can be
   * read back from zoneY: the millions give the zone, the remainder less the false easting gives y.
   */
  lemma ZoneYDecodes(c: GaussCoordinate)
    requires -FALSE_EASTING <= c.y < FALSE_EASTING
    ensures (ZoneY(c) / ZONE_PREFIX).Floor == c.zone
    ensures ZoneY(c) - (ZoneY(c) / ZONE_PREFIX).Floor as real * ZONE_PREFIX - FALSE_EASTING == c.y
  {
    var q := ZoneY(c) / ZONE_PREFIX;
    assert c.zone as real <= q < c.zone as real + 1.0;
  }

  /** The forward series: latitude and the longitude offset from the central meridian, in arc-seconds, to (x, y). */
  type ForwardSeries = (real, real) -> (real, real)

  /** The inverse series: (x, y) to latitude and the longitude offset from the central meridian, in degrees. */
  type InverseSeries = (real, real) -> (real, real)

  /** The longitude offset the forward series is given: arc-seconds east of the central meridian. */
  function OffsetSeconds(lon: real, central: real): real
  {
    3600.0 * (lon - central)
  }

  /**
   * Gauss_Projector::forward, apart from its series: a zone of -1 asks for the longitude's
   * own zone, any other zone is used as given; the interval must be 3 or 6 either way,
   * because the central meridian is looked up with it.
   */
  function Forward(g: Geodetic, interval: real, zone: int, fwd: ForwardSeries): (r: Result<GaussCoordinate>)
    ensures r.Ok? <==> KnownInterval(interval)
    ensures r.Err? ==> r.error == InvalidArgument
    ensures r.Ok? ==> r.value.interval == interval
    ensures r.Ok? && zone != -1 ==> r.value.zone == zone
    ensures r.Ok? && zone == -1 && g.lon >= 0.0 ==> InBand(g.lon, r.value.zone, interval)
  {
    var z := if zone == -1 then Zone(g.lon, interval) else Ok(zone);
    if z.Err? then Err(z.error)
    else
      match CenterMeridianOf(z.value, interval)
      case Err(e) => Err(e)
      case Ok(central) =>
        var (x, y) := fwd(g.lat, OffsetSeconds(g.lon, central));
        assert zone == -1 && g.lon >= 0.0 ==> InBand(g.lon, z.value, interval) by {
          if zone == -1 && g.lon >= 0.0 {
            ZoneIsBand(g.lon, interval, z.value);
          }
        }
        Ok(GaussCoordinate(interval, x, y, z.value))
  }

  /** Gauss_Projector::inverse, apart from its series: the longitude is the zone's central meridian plus the series offset. */
  function Inverse(c: GaussCoordinate, inv: InverseSeries): (r: Result<Geodetic>)
    ensures r.Ok? <==> KnownInterval(c.interval)
    ensures r.Err? ==> r.error == InvalidArgument
  {
    match CenterMeridianOf(c.zone, c.interval)
    case Err(e) => Err(e)
    case Ok(central) =>
      var (lat, dl) := inv(c.x, c.y);
      Ok(Geodetic(lat, central + dl))
  }

  /** The two series undo each other, the inverse returning the offset in degrees. */
  ghost predicate ExactSeries(fwd: ForwardSeries, inv: InverseSeries)
  {
    forall lat: real, dl: real :: inv(fwd(lat, dl).0, fwd(lat, dl).1) == (lat, dl / 3600.0)
  }

  /**
   * With series that undo each other, the inverse projection recovers the geodetic point from
   * any forward projection of it, whatever zone was asked for: both use the same central meridian.
   */
  lemma ForwardInverse(g: Geodetic, interval: real, zone: int, fwd: ForwardSeries, inv: InverseSeries)
    requires ExactSeries(fwd, inv)
    requires Forward(g, interval, zone, fwd).Ok?
    ensures Inverse(Forward(g, interval, zone, fwd).value, inv) == Ok(g)
  {
    var c := Forward(g, interval, zone, fwd).value;
    var central := CenterMeridianOf(c.zone, interval).value;
    var xy := fwd(g.lat, OffsetSeconds(g.lon, central));
    assert (c.x, c.y) == xy;
    assert inv(xy.0, xy.1) == (g.lat, OffsetSeconds(g.lon, central) / 3600.0);
    assert central + OffsetSeconds(g.lon, central) / 3600.0 == g.lon;
  }

  /**
   * modifyZone as written: the point is recovered by the inverse projection and then projected
   * forward with the TARGET ZONE passed as the interval, and no zone (so the point's own zone).
   */
  function ModifyZoneAsWritten(src: GaussCoordinate, target: int, fwd: ForwardSeries, inv: InverseSeries): (r: Result<GaussCoordinate>)
    ensures r.Ok? <==> Inverse(src, inv).Ok? && KnownInterval(target as real)
    ensures r.Ok? ==> r.value.interval == target as real
  {
    match Inverse(src, inv)
    case Err(e) => Err(e)
    case Ok(g) => Forward(g, target as real, -1, fwd)
  }

  /**
   * A 6-degree coordinate in zone 20 cannot be moved to zone 19 as written: 19 is taken as the
   * interval, which is unknown, so the call fails; a target of 3 or 6 instead switches the interval.
   */
  lemma ModifyZoneAsWrittenRejects(src: GaussCoordinate, fwd: ForwardSeries, inv: InverseSeries)
    requires src.interval == 6.0 && src.zone == 20
    ensures ModifyZoneAsWritten(src, 19, fwd, inv) == Err(InvalidArgument)
    ensures ModifyZoneAsWritten(src, 3, fwd, inv).Ok?
    ensures ModifyZoneAsWritten(src, 3, fwd, inv).value.interval == 3.0
  {
  }

  /** modifyZone as intended: re-project the recovered point into the target zone, keeping the interval. */
  function ModifyZone(src: GaussCoordinate, target: int, fwd: ForwardSeries, inv: InverseSeries): (r: Result<GaussCoordinate>)
    ensures r.Ok? <==> KnownInterval(src.interval)
    ensures r.Err? ==> r.error == InvalidArgument
    ensures r.Ok? ==> r.value.interval == src.interval
    ensures r.Ok? && target != -1 ==> r.value.zone == target
  {
    match Inverse(src, inv)
    case Err(e) => Err(e)
    case Ok(g) => Forward(g, src.interval, target, fwd)
  }

  /** With series that undo each other, moving a coordinate to another zone keeps the geodetic point it denotes. */
  lemma ModifyZoneKeepsPoint(src: GaussCoordinate, target: int, fwd: ForwardSeries, inv: InverseSeries)
    requires ExactSeries(fwd, inv)
    requires KnownInterval(src.interval)
    ensures Inverse(ModifyZone(src, target, fwd, inv).value, inv) == Inverse(src, inv)
  {
    var g := Inverse(src, inv).value;
    ForwardInverse(g, src.interval, target, fwd, inv);
  }
}
