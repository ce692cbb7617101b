/**
 * The whole-sign mapping of src/components/KundliChart.jsx: the twelve
 * houses are fixed places on the chart, house index 0 (H1) carries the
 * Ascendant's sign and each later house the next sign; every body is
 * drawn in the house whose sign holds its longitude.
 */
module KundliChart {
  import opened JsMath
  import opened Astrology

  /** The sign index (0 = Aries) a longitude falls in. */
  function SignIndexOf(longitude: real): int
  {
    Floor(longitude / 30.0)
  }

  /** `getSignNumber(houseIndex)`: the sign (1 = Aries) shown in a house. */
  function SignNumber(ascendant: real, houseIndex: int): (r: int)
    ensures 0 <= SignIndexOf(ascendant) + houseIndex ==> 1 <= r <= 12
  {
    IntRem(SignIndexOf(ascendant) + houseIndex, 12) + 1
  }

  /** The house (0..11) that shows sign `sign` (1..12): the inverse of `SignNumber`. */
  function HouseOfSign(ascendant: real, sign: int): (h: int)
    ensures 0 <= h < 12
  {
    (sign - 1 - SignIndexOf(ascendant)) % 12
  }

  /** Over the houses 0..11 the sign numbers are a permutation of 1..12, with `HouseOfSign` as inverse. */
  lemma SignNumberBijective(ascendant: real, houseIndex: int, sign: int)
    requires 0.0 <= ascendant
    ensures 0 <= houseIndex < 12 ==> HouseOfSign(ascendant, SignNumber(ascendant, houseIndex)) == houseIndex
    ensures 1 <= sign <= 12 ==> SignNumber(ascendant, HouseOfSign(ascendant, sign)) == sign
  {
    var a := SignIndexOf(ascendant);
    assert 0 <= a;
    if 0 <= houseIndex < 12 {
      UndoShift(a, houseIndex);
    }
    if 1 <= sign <= 12 {
      RedoShift(a, sign - 1);
    }
  }

  /** Moving on h places round twelve and back again returns to h. */
  lemma UndoShift(a: int, h: int)
    requires 0 <= h < 12
    ensures ((a + h) % 12 - a) % 12 == h
  {
    var q := (a + h) / 12;
    assert (a + h) % 12 - a == h - 12 * q;
  }

  /** Moving back to t and on again round twelve lands on t. */
  lemma RedoShift(a: int, t: int)
    requires 0 <= t < 12
    ensures (a + (t - a) % 12) % 12 == t
  {
    var q := (t - a) / 12;
    assert a + (t - a) % 12 == t - 12 * q;
  }

  /** Different houses show different signs. */
  lemma SignNumbersDistinct(ascendant: real, i: int, j: int)
    requires 0.0 <= ascendant && 0 <= i < 12 && 0 <= j < 12 && i != j
    ensures SignNumber(ascendant, i) != SignNumber(ascendant, j)
  {
    SignNumberBijective(ascendant, i, 1);
    SignNumberBijective(ascendant, j, 1);
  }

  /** House index 0 carries the Ascendant's own sign. */
  lemma FirstHouseIsAscendantSign(ascendant: real)
    requires 0.0 <= ascendant < 360.0
    ensures SignNumber(ascendant, 0) == Floor(ascendant / 30.0) + 1
  {
    assert 0 <= Floor(ascendant / 30.0) < 12;
  }

  /** Consecutive houses show cyclically consecutive signs, and house index 6 is six signs on from house index 0. */
  lemma NextHouseNextSign(ascendant: real, houseIndex: int)
    requires 0.0 <= ascendant && 0 <= houseIndex
    ensures SignNumber(ascendant, houseIndex + 1) == SignNumber(ascendant, houseIndex) % 12 + 1
    ensures SignNumber(ascendant, 6) == (SignNumber(ascendant, 0) + 5) % 12 + 1
  {
    var n := SignIndexOf(ascendant) + houseIndex;
    assert 0 <= n;
    ModShift12(n, 1);
    ModShift12(SignIndexOf(ascendant), 6);
  }

  /** Whether a body is drawn in a house: its sign is the house's sign. */
  predicate InHouse(ascendant: real, p: Position, houseIndex: int)
  {
    SignIndexOf(p.longitude) == IntRem(SignIndexOf(ascendant) + houseIndex, 12)
  }

  /** `getPlanetsInHouse(houseIndex)`: `planets.filter(...)` on the house's sign. */
  function PlanetsInHouse(ascendant: real, planets: seq<Position>, houseIndex: int): (r: seq<Position>)
    ensures |r| <= |planets|
    ensures forall p :: p in r <==> p in planets && SignIndexOf(p.longitude) + 1 == SignNumber(ascendant, houseIndex)
  {
    if planets == [] then []
    else
      var rest := PlanetsInHouse(ascendant, planets[1..], houseIndex);
      assert forall p :: p in planets <==> p == planets[0] || p in planets[1..];
      (if InHouse(ascendant, planets[0], houseIndex) then [planets[0]] else []) + rest
  }

  /** `xs` is `ys` with some entries removed, the others kept in order. */
  predicate IsSublist(xs: seq<Position>, ys: seq<Position>)
    decreases |ys|
  {
    if ys == [] then xs == []
    else (xs != [] && xs[0] == ys[0] && IsSublist(xs[1..], ys[1..])) || IsSublist(xs, ys[1..])
  }

  /** The bodies of a house appear in the order of the chart's list. */
  lemma {:induction false} PlanetsInHouseIsSublist(ascendant: real, planets: seq<Position>, houseIndex: int)
    ensures IsSublist(PlanetsInHouse(ascendant, planets, houseIndex), planets)
  {
    if planets != [] {
      PlanetsInHouseIsSublist(ascendant, planets[1..], houseIndex);
      var rest := PlanetsInHouse(ascendant, planets[1..], houseIndex);
      if InHouse(ascendant, planets[0], houseIndex) {
        assert ([planets[0]] + rest)[1..] == rest;
      } else {
        assert [] + rest == rest;
      }
    }
  }

  /** The number of bodies drawn in houses 0 .. n-1. */
  function CountInHouses(ascendant: real, planets: seq<Position>, n: nat): nat
  {
    if n == 0 then 0 else CountInHouses(ascendant, planets, n - 1) + |PlanetsInHouse(ascendant, planets, n - 1)|
  }

  /** A body whose longitude is in [0, 360) is drawn in exactly one house, the one of its sign. */
  lemma ExactlyOneHouse(ascendant: real, p: Position, houseIndex: int)
    requires 0.0 <= ascendant && 0.0 <= p.longitude < 360.0 && 0 <= houseIndex < 12
    ensures InHouse(ascendant, p, houseIndex) <==> houseIndex == HouseOfSign(ascendant, SignIndexOf(p.longitude) + 1)
  {
    var s := SignIndexOf(p.longitude);
    assert 0 <= s < 12;
    SignNumberBijective(ascendant, houseIndex, s + 1);
  }

  lemma {:induction false} CountOfOne(ascendant: real, p: Position, rest: seq<Position>, n: nat)
    requires 0.0 <= ascendant && 0.0 <= p.longitude < 360.0 && n <= 12
    ensures CountInHouses(ascendant, [p] + rest, n) ==
              CountInHouses(ascendant, rest, n) + (if HouseOfSign(ascendant, SignIndexOf(p.longitude) + 1) < n then 1 else 0)
  {
    if n > 0 {
      CountOfOne(ascendant, p, rest, n - 1);
      HouseOfCons(ascendant, p, rest, n - 1);
      ExactlyOneHouse(ascendant, p, n - 1);
    }
  }

  lemma HouseOfCons(ascendant: real, p: Position, rest: seq<Position>, houseIndex: int)
    ensures |PlanetsInHouse(ascendant, [p] + rest, houseIndex)| ==
              |PlanetsInHouse(ascendant, rest, houseIndex)| + (if InHouse(ascendant, p, houseIndex) then 1 else 0)
  {
    assert ([p] + rest)[0] == p && ([p] + rest)[1..] == rest;
  }

  /** The twelve houses partition the bodies: their list lengths add up to the number of bodies. */
  lemma {:induction false} HousesPartitionPlanets(ascendant: real, planets: seq<Position>)
    requires 0.0 <= ascendant
    requires forall i :: 0 <= i < |planets| ==> 0.0 <= planets[i].longitude < 360.0
    ensures CountInHouses(ascendant, planets, 12) == |planets|
  {
    if planets == [] {
      CountEmpty(ascendant, 12);
    } else {
      HousesPartitionPlanets(ascendant, planets[1..]);
      assert planets == [planets[0]] + planets[1..];
      CountOfOne(ascendant, planets[0], planets[1..], 12);
    }
  }

  lemma {:induction false} CountEmpty(ascendant: real, n: nat)
    ensures CountInHouses(ascendant, [], n) == 0
  {
    if n > 0 { CountEmpty(ascendant, n - 1); }
  }

  /** The engine's cusp for house i begins the sign that the chart shows in house i. */
  lemma CuspMatchesSignNumber(ascendant: real, i: nat)
    requires 0.0 <= ascendant < 360.0 && i < 12
    ensures Houses(ascendant)[i] / 30.0 + 1.0 == SignNumber(ascendant, i) as real
  {
    HouseCusp(ascendant, i);
    var k := (Floor(ascendant / 30.0) + i) % 12;
    assert (k * 30) as real / 30.0 == k as real;
  }

  // ---------------------------------------------------------------------
  // The rendered chart

  datatype Point = Point(x: int, y: int)

  /** `houseCenters`: where each house's text is drawn, H1 first. */
  const HouseCenters: seq<Point> := [
    Point(200, 80), Point(100, 40), Point(40, 100), Point(80, 200),
    Point(40, 300), Point(100, 360), Point(200, 320), Point(300, 360),
    Point(360, 300), Point(320, 200), Point(360, 100), Point(300, 40)
  ]

  /** What `renderHouseContent(houseIndex)` draws: the sign number and the bodies, at the house's center. */
  datatype HouseView = HouseView(signNumber: Num, planets: seq<Position>, center: Point)

  /**
   * `getSignNumber` with the ascendant as the chart receives it: a NaN
   * ascendant makes the sign number NaN.
   */
  function HouseSignNumber(ascendant: Num, houseIndex: int): (r: Num)
    ensures r.NaN? <==> ascendant.NaN?
    ensures ascendant.Fin? && 0.0 <= ascendant.v && 0 <= houseIndex ==>
              r.Fin? && 1.0 <= r.v <= 12.0 && r.v == SignNumber(ascendant.v, houseIndex) as real
  {
    match ascendant
    case NaN => NaN
    case Fin(a) => Fin(SignNumber(a, houseIndex) as real)
  }

  /**
   * `getPlanetsInHouse` with the ascendant as the chart receives it: with a
   * NaN ascendant the sign index is NaN, no `===` comparison holds, and
   * every house is empty.
   */
  function HouseBodies(ascendant: Num, planets: seq<Position>, houseIndex: int): (r: seq<Position>)
    ensures ascendant.NaN? ==> r == []
    ensures ascendant.Fin? ==> forall p :: p in r <==> p in planets && InHouse(ascendant.v, p, houseIndex)
  {
    match ascendant
    case NaN => []
    case Fin(a) => PlanetsInHouse(a, planets, houseIndex)
  }

  /** `[...Array(12)].map((_, i) => renderHouseContent(i))`: every index used is within `houseCenters`. */
  function RenderHouses(ascendant: Num, planets: seq<Position>): (views: seq<HouseView>)
    ensures |views| == 12 == |HouseCenters|
    ensures forall i :: 0 <= i < 12 ==>
              views[i].center == HouseCenters[i]
              && views[i].signNumber == HouseSignNumber(ascendant, i)
              && views[i].planets == HouseBodies(ascendant, planets, i)
  {
    seq(12, i requires 0 <= i < 12 =>
      HouseView(HouseSignNumber(ascendant, i), HouseBodies(ascendant, planets, i), HouseCenters[i]))
  }

  /** Every body of the chart is drawn once: the twelve views hold as many entries as the list. */
  lemma RenderedBodiesCount(ascendant: Num, planets: seq<Position>)
    requires ascendant.Fin? && 0.0 <= ascendant.v
    requires forall i :: 0 <= i < |planets| ==> 0.0 <= planets[i].longitude < 360.0
    ensures ViewCount(RenderHouses(ascendant, planets), 12) == |planets|
  {
    var views := RenderHouses(ascendant, planets);
    ViewCountIsCount(ascendant.v, planets, views, 12);
    HousesPartitionPlanets(ascendant.v, planets);
  }

  /** A NaN ascendant draws a chart with NaN sign numbers and no bodies at all. */
  lemma NaNAscendantDrawsNothing(planets: seq<Position>)
    ensures forall i :: 0 <= i < 12 ==> RenderHouses(NaN, planets)[i].signNumber.NaN?
    ensures ViewCount(RenderHouses(NaN, planets), 12) == 0
  {
    EmptyViewsCount(RenderHouses(NaN, planets), 12);
  }

  lemma {:induction false} EmptyViewsCount(views: seq<HouseView>, n: nat)
    requires n <= |views|
    requires forall i :: 0 <= i < |views| ==> views[i].planets == []
    ensures ViewCount(views, n) == 0
  {
    if n > 0 { EmptyViewsCount(views, n - 1); }
  }

  function ViewCount(views: seq<HouseView>, n: nat): nat
    requires n <= |views|
  {
    if n == 0 then 0 else ViewCount(views, n - 1) + |views[n - 1].planets|
  }

  lemma {:induction false} ViewCountIsCount(ascendant: real, planets: seq<Position>, views: seq<HouseView>, n: nat)
    requires views == RenderHouses(Fin(ascendant), planets) && n <= 12
    ensures ViewCount(views, n) == CountInHouses(ascendant, planets, n)
  {
    if n > 0 { ViewCountIsCount(ascendant, planets, views, n - 1); }
  }
}
