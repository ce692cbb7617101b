/**
 * The table of src/components/PlanetaryDetails.jsx: for each body its
 * rashi (sign) name, its degree within the sign split into degrees,
 * minutes and seconds, and whether it is retrograde.
 */
module PlanetaryDetails {
  import opened Wrappers
  import opened JsMath
  import opened Astrology
  import KundliChart

  /** Degrees, minutes and seconds as `toDMS` computes them. */
  datatype Dms = Dms(d: int, m: int, s: int)

  /**
   * `toDMS(deg)`: whole degrees, whole minutes of the rest, and the
   * remaining seconds rounded. The rounding is not carried into the
   * minutes, so the seconds can be 60.
   */
  function ToDms(deg: real): (r: Dms)
    ensures r.d as real <= deg < r.d as real + 1.0
    ensures 0 <= r.m <= 59 && 0 <= r.s <= 60
    ensures -1.0 / 7200.0 < r.d as real + r.m as real / 60.0 + r.s as real / 3600.0 - deg <= 1.0 / 7200.0
  {
    var d := Floor(deg);
    var m := Floor((deg - d as real) * 60.0);
    var s := Round(((deg - d as real) * 60.0 - m as real) * 60.0);
    Dms(d, m, s)
  }

  /** Sixty seconds is shown for a value just under a whole minute: 599/36000 degrees is 0° 0' 60". */
  lemma SecondsCanBeSixty()
    ensures ToDms(599.0 / 36000.0) == Dms(0, 0, 60)
  {
    var deg := 599.0 / 36000.0;
    assert Floor(deg) == 0;
    assert (deg - 0.0) * 60.0 == 599.0 / 600.0;
    assert Floor(599.0 / 600.0) == 0;
    assert (599.0 / 600.0 - 0.0) * 60.0 == 59.9;
    assert Floor(59.9 + 0.5) == 60;
  }

  /** `toDMS(longitude % 30)`: the degree column, within the body's sign. */
  function DegreeInSign(longitude: real): (r: Dms)
    ensures 0.0 <= longitude ==> 0 <= r.d < 30 && r.d == Floor(longitude) - 30 * KundliChart.SignIndexOf(longitude)
  {
    var inSign := Rem(longitude, 30.0);
    if 0.0 <= longitude then
      var q := Floor(longitude / 30.0);
      QuotientBounds(longitude, 30.0, q);
      RemOfNonNegative(longitude, 30.0, q);
      assert Floor(inSign) == Floor(longitude) - 30 * q by {
        FloorShift(longitude, 30 * q);
      }
      ToDms(inSign)
    else
      ToDms(inSign)
  }

  lemma FloorShift(x: real, k: int)
    ensures Floor(x - k as real) == Floor(x) - k
  {
    var f := Floor(x) - k;
    assert f as real <= x - k as real < f as real + 1.0;
  }

  const Rashis: seq<string> := [
    "Aries", "Taurus", "Gemini", "Cancer",
    "Leo", "Virgo", "Libra", "Scorpio",
    "Sagittarius", "Capricorn", "Aquarius", "Pisces"
  ]

  /** `getRashi(deg)`: `rashis[Math.floor(deg / 30)]`, undefined (`None`) outside the array. */
  function GetRashi(deg: real): (r: Option<string>)
    ensures r.Some? <==> 0.0 <= deg < 360.0
    ensures r.Some? ==> r.value == Rashis[KundliChart.SignIndexOf(deg)]
  {
    var i := Floor(deg / 30.0);
    if 0 <= i < |Rashis| then Some(Rashis[i]) else None
  }

  /** A body drawn in house h of the chart is listed under the rashi of that house's sign. */
  lemma RashiOfHouseMember(ascendant: real, planets: seq<Position>, houseIndex: int, p: Position)
    requires 0.0 <= ascendant && 0 <= houseIndex
    requires p in KundliChart.PlanetsInHouse(ascendant, planets, houseIndex)
    ensures GetRashi(p.longitude) == Some(Rashis[KundliChart.SignNumber(ascendant, houseIndex) - 1])
  {
    var k := KundliChart.SignIndexOf(p.longitude);
    assert k + 1 == KundliChart.SignNumber(ascendant, houseIndex);
    assert 0 <= k < 12;
  }

  /** The speed column: retrograde exactly when the speed is negative; zero speed is direct. */
  function MotionLabel(speed: real): (r: string)
    ensures r == "Retrograde" <==> speed < 0.0
    ensures r == "Direct" <==> !(speed < 0.0)
  {
    if speed < 0.0 then "Retrograde" else "Direct"
  }

  /** One row of the table. */
  datatype DetailRow = DetailRow(name: string, rashi: Option<string>, degree: Dms, motion: string)

  /**
   * The rows of the table, one per body in the chart's order: the body's
   * name, the rashi holding its longitude (none outside [0, 360)), its whole
   * degrees into that rashi, and whether it is retrograde.
   */
  function DetailRows(planets: seq<Position>): (rows: seq<DetailRow>)
    ensures |rows| == |planets|
    ensures forall i :: 0 <= i < |planets| ==>
              var lon := planets[i].longitude;
              && rows[i].name == Name(planets[i].name)
              && (rows[i].rashi.Some? <==> 0.0 <= lon < 360.0)
              && (0.0 <= lon < 360.0 ==> rows[i].rashi == Some(Rashis[KundliChart.SignIndexOf(lon)]))
              && (0.0 <= lon ==> 0 <= rows[i].degree.d < 30
                                 && rows[i].degree.d == Floor(lon) - 30 * KundliChart.SignIndexOf(lon))
              && (rows[i].motion == "Retrograde" <==> planets[i].speed < 0.0)
              && (rows[i].motion == "Direct" <==> !(planets[i].speed < 0.0))
  {
    seq(|planets|, i requires 0 <= i < |planets| =>
      DetailRow(Name(planets[i].name), GetRashi(planets[i].longitude),
                DegreeInSign(planets[i].longitude), MotionLabel(planets[i].speed)))
  }

  /** The table and the chart agree: the row of a body drawn in house h names the rashi of the sign that house shows. */
  lemma RowOfHouseMember(ascendant: real, planets: seq<Position>, houseIndex: int, i: int)
    requires 0.0 <= ascendant && 0 <= houseIndex && 0 <= i < |planets|
    requires planets[i] in KundliChart.PlanetsInHouse(ascendant, planets, houseIndex)
    ensures DetailRows(planets)[i].rashi == Some(Rashis[KundliChart.SignNumber(ascendant, houseIndex) - 1])
  {
    RashiOfHouseMember(ascendant, planets, houseIndex, planets[i]);
  }
}
