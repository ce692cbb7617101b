/**
 * The chart engine of src/utils/astrology.js (`calculatePlanetaryPositions`):
 * input validation and parsing, the per-body ephemeris queries, the derived
 * Ketu, the RAMC and sidereal Ascendant arithmetic and the whole-sign cusps.
 *
 * The Swiss Ephemeris instance is an `Ephemeris` value: the constants it
 * may or may not define, and its computations (`julday`, `calc_ut`,
 * `sidtime`, `get_ayanamsa_ut`) as functions. The sidereal mode that
 * `set_sid_mode` installs globally is passed to the calls it affects.
 * The spherical trigonometry of the tropical Ascendant is the function
 * `ascendantAngle`.
 */
module Astrology {
  import opened Wrappers
  import opened JsMath
  import opened JsText

  // ---------------------------------------------------------------------
  // Bodies and positions

  /** The bodies of the catalog. */
  datatype Planet = Sun | Moon | Mars | Mercury | Jupiter | Venus | Saturn | Rahu | Ketu

  /** The catalog, in the order in which the engine visits it. */
  const Catalog: seq<Planet> := [Sun, Moon, Mars, Mercury, Jupiter, Venus, Saturn, Rahu, Ketu]

  /** The index of a body in the catalog. */
  function Rank(p: Planet): (r: nat)
    ensures r < |Catalog| && Catalog[r] == p
  {
    match p
    case Sun => 0
    case Moon => 1
    case Mars => 2
    case Mercury => 3
    case Jupiter => 4
    case Venus => 5
    case Saturn => 6
    case Rahu => 7
    case Ketu => 8
  }

  function Name(p: Planet): string
  {
    match p
    case Sun => "Sun"
    case Moon => "Moon"
    case Mars => "Mars"
    case Mercury => "Mercury"
    case Jupiter => "Jupiter"
    case Venus => "Venus"
    case Saturn => "Saturn"
    case Rahu => "Rahu"
    case Ketu => "Ketu"
  }

  /** One entry of `positions`: sidereal longitude in degrees and speed in degrees per day. */
  datatype Position = Position(name: Planet, longitude: real, speed: real)

  /** The entries are in strictly increasing catalog order (so no body occurs twice). */
  predicate InCatalogOrder(positions: seq<Position>)
  {
    forall i, j :: 0 <= i < j < |positions| ==> Rank(positions[i].name) < Rank(positions[j].name)
  }

  /** `positions.find(p => p.name === name)`: the first entry for that body. */
  function FindFirst(positions: seq<Position>, name: Planet): (r: Option<Position>)
    ensures r.None? <==> forall i :: 0 <= i < |positions| ==> positions[i].name != name
    ensures r.Some? ==> exists i :: 0 <= i < |positions| && positions[i] == r.value
                                   && r.value.name == name
                                   && forall j :: 0 <= j < i ==> positions[j].name != name
  {
    if positions == [] then None
    else if positions[0].name == name then Some(positions[0])
    else
      var r := FindFirst(positions[1..], name);
      assert r.Some? ==> exists i :: 0 <= i < |positions| - 1 && positions[1..][i] == r.value
                                     && forall j :: 0 <= j < i ==> positions[1..][j].name != name;
      if r.Some? then
        var i :| 0 <= i < |positions| - 1 && positions[1..][i] == r.value
                 && forall j :: 0 <= j < i ==> positions[1..][j].name != name;
        assert positions[i + 1] == r.value;
        assert forall j :: 0 <= j < i + 1 ==> positions[j].name != name by {
          forall j | 0 <= j < i + 1 ensures positions[j].name != name {
            if j > 0 { assert positions[j] == positions[1..][j - 1]; }
          }
        }
        r
      else
        r
  }

  // ---------------------------------------------------------------------
  // The ephemeris library, as an interface

  /** What one `calc_ut` call gives back. */
  datatype CalcResult =
    | Throws(message: string)           // the call raised an exception
    | Missing                           // null or undefined
    | NoValues                          // an empty array
    | Values(first: real, speed: real)  // result[0] and result[3]

  /** The constants the library may leave undefined (`None`), and its computations. */
  datatype Ephemeris = Ephemeris(
    bodyId: Planet -> Option<int>,     // SE_SUN ... SE_KETU
    trueNode: Option<int>,             // SE_TRUE_NODE
    gregCal: Option<int>,              // SE_GREG_CAL
    sidmLahiri: Option<int>,           // SE_SIDM_LAHIRI
    flagSpeed: Option<bv32>,           // SEFLG_SPEED
    flagMoseph: Option<bv32>,          // SEFLG_MOSEPH
    flagSidereal: Option<bv32>,        // SEFLG_SIDEREAL
    julday: (real, real, real, real, int) -> Num,
    calcUt: (int, real, int, bv32) -> CalcResult,   // sidereal mode in force, jd, body id, flags
    sidtime: real -> real,
    ayanamsaUt: (int, real) -> real                  // sidereal mode in force, jd
  )

  const SEFLG_MOSEPH: bv32 := 4
  const SEFLG_SPEED: bv32 := 256
  const SEFLG_SIDEREAL: bv32 := 65536
  /** The body id that makes `calc_ut` return obliquity and nutation. */
  const SE_ECL_NUT: int := -1
  /** The id queried for Rahu when the library does not define SE_TRUE_NODE. */
  const DefaultTrueNode: int := 11

  /** `x || fallback` on a flag constant: undefined and 0 are both falsy. */
  function FlagOr(x: Option<bv32>, fallback: bv32): (r: bv32)
    ensures x.None? || x.value == 0 ==> r == fallback
    ensures x.Some? && x.value != 0 ==> r == x.value
    ensures fallback != 0 ==> r != 0
  {
    if x.Some? && x.value != 0 then x.value else fallback
  }

  /** The flag word for the obliquity query: the same without the sidereal flag. */
  function TropicalFlags(swe: Ephemeris): (r: bv32)
    ensures r & FlagOr(swe.flagSpeed, SEFLG_SPEED) == FlagOr(swe.flagSpeed, SEFLG_SPEED)
    ensures r & FlagOr(swe.flagMoseph, SEFLG_MOSEPH) == FlagOr(swe.flagMoseph, SEFLG_MOSEPH)
    ensures r != 0
  {
    var speed, moseph := FlagOr(swe.flagSpeed, SEFLG_SPEED), FlagOr(swe.flagMoseph, SEFLG_MOSEPH);
    OrKeepsLeft(speed, moseph);
    OrKeepsRight(speed, moseph);
    OrNonZero(speed, moseph);
    speed | moseph
  }

  /** The flag word for the body queries: speed, Moshier ephemeris, sidereal positions. */
  function SiderealFlags(swe: Ephemeris): (r: bv32)
    ensures r & TropicalFlags(swe) == TropicalFlags(swe)
    ensures r & FlagOr(swe.flagSidereal, SEFLG_SIDEREAL) == FlagOr(swe.flagSidereal, SEFLG_SIDEREAL)
    ensures r != 0
  {
    var sidereal := FlagOr(swe.flagSidereal, SEFLG_SIDEREAL);
    OrKeepsLeft(TropicalFlags(swe), sidereal);
    OrKeepsRight(TropicalFlags(swe), sidereal);
    OrNonZero(TropicalFlags(swe), sidereal);
    TropicalFlags(swe) | sidereal
  }

  /** The left operand of an or is contained in it. */
  lemma OrKeepsLeft(a: bv32, b: bv32)
    ensures (a | b) & a == a
  {
  }

  /** The right operand of an or is contained in it. */
  lemma OrKeepsRight(a: bv32, b: bv32)
    ensures (a | b) & b == b
  {
  }

  /** An or with a non-zero left operand is non-zero. */
  lemma OrNonZero(a: bv32, b: bv32)
    ensures a != 0 ==> a | b != 0
  {
  }

  /** The calendar flag handed to `julday`: `SE_GREG_CAL`, or 1 (Gregorian) when the library leaves it undefined. */
  function CalendarFlag(swe: Ephemeris): (r: int)
    ensures swe.gregCal.None? ==> r == 1
    ensures swe.gregCal.Some? ==> r == swe.gregCal.value
  {
    if swe.gregCal.Some? then swe.gregCal.value else 1
  }

  /** The sidereal mode set before the queries: `SE_SIDM_LAHIRI`, or 1 (Lahiri) when the library leaves it undefined. */
  function SiderealMode(swe: Ephemeris): (r: int)
    ensures swe.sidmLahiri.None? ==> r == 1
    ensures swe.sidmLahiri.Some? ==> r == swe.sidmLahiri.value
  {
    if swe.sidmLahiri.Some? then swe.sidmLahiri.value else 1
  }

  /** With the fallback constants the words are 256|4|65536 and 256|4. */
  lemma DefaultFlagWords(swe: Ephemeris)
    requires swe.flagSpeed.None? && swe.flagMoseph.None? && swe.flagSidereal.None?
    ensures SiderealFlags(swe) == 65796 && TropicalFlags(swe) == 260
  {
  }

  /** The tropical word is the sidereal word with the sidereal bit cleared, whenever the other two flags do not carry that bit. */
  lemma TropicalIsSiderealWithoutSiderealBit(swe: Ephemeris)
    requires (FlagOr(swe.flagSpeed, SEFLG_SPEED) | FlagOr(swe.flagMoseph, SEFLG_MOSEPH))
             & FlagOr(swe.flagSidereal, SEFLG_SIDEREAL) == 0
    ensures TropicalFlags(swe) == SiderealFlags(swe) & !FlagOr(swe.flagSidereal, SEFLG_SIDEREAL)
    ensures SiderealFlags(swe) == TropicalFlags(swe) | FlagOr(swe.flagSidereal, SEFLG_SIDEREAL)
  {
  }

  // ---------------------------------------------------------------------
  // Inputs

  const InvalidLocation := "Invalid location or timezone data."
  const InvalidDateTime := "Invalid date or time format."
  const JulianDayFailed := "Julian Day calculation failed (returned NaN)."
  const AscendantFailed := "Failed to calculate Ascendant."

  /** The five numbers read from the `YYYY-MM-DD` and `HH:MM` strings. */
  datatype CivilTime = CivilTime(year: real, month: real, day: real, hours: real, minutes: real)

  /** Element `i` of `parts.map(Number)` after destructuring: a missing element is `undefined`, which is NaN. */
  function FieldAt(parts: seq<string>, i: nat): Num
  {
    if i < |parts| then Number(parts[i]) else NaN
  }

  /** The date split on `-`, the time on `:`; every one of the five fields must be a number. */
  function ParseDateTime(date: string, time: string): (r: Option<CivilTime>)
  {
    var d, t := Split(date, '-'), Split(time, ':');
    var year, month, day := FieldAt(d, 0), FieldAt(d, 1), FieldAt(d, 2);
    var hours, minutes := FieldAt(t, 0), FieldAt(t, 1);
    if IsNaN(year) || IsNaN(month) || IsNaN(day) || IsNaN(hours) || IsNaN(minutes) then None
    else Some(CivilTime(year.v, month.v, day.v, hours.v, minutes.v))
  }

  /**
   * The parse fails exactly when a date or time field is missing or is not a
   * number; otherwise the fields are the numbers `Number` reads.
   */
  lemma ParseDateTimeCases(date: string, time: string)
    ensures var d, t := Split(date, '-'), Split(time, ':');
            && (ParseDateTime(date, time).None? <==>
                  |d| < 3 || |t| < 2 || Number(d[0]).NaN? || Number(d[1]).NaN? || Number(d[2]).NaN?
                  || Number(t[0]).NaN? || Number(t[1]).NaN?)
            && (ParseDateTime(date, time).Some? ==>
                  && Number(d[0]) == Fin(ParseDateTime(date, time).value.year)
                  && Number(d[1]) == Fin(ParseDateTime(date, time).value.month)
                  && Number(d[2]) == Fin(ParseDateTime(date, time).value.day)
                  && Number(t[0]) == Fin(ParseDateTime(date, time).value.hours)
                  && Number(t[1]) == Fin(ParseDateTime(date, time).value.minutes))
  {
  }

  /** Fields after the third date field and the second time field are ignored. */
  lemma ExtraFieldsIgnored(date: string, extraDate: string, time: string, extraTime: string)
    requires |Split(date, '-')| >= 3 && |Split(time, ':')| >= 2
    ensures ParseDateTime(date + "-" + extraDate, time + ":" + extraTime) == ParseDateTime(date, time)
  {
    SplitAppend(date, extraDate, '-');
    SplitAppend(time, extraTime, ':');
  }

  /** The UT decimal hour: local hours and minutes minus the offset, with no clamping and no day rollover. */
  function DecimalTime(c: CivilTime, timezone: real): real
  {
    c.hours + c.minutes / 60.0 - timezone
  }

  /**
   * The UT hour is the local clock hour shifted back by the offset, with no
   * day rollover: for a clock reading on the day it lies in [-tz, 24 - tz),
   * and the Julian Day is asked for that hour of the local calendar date.
   */
  lemma UtHour(swe: Ephemeris, c: CivilTime, timezone: real)
    ensures DecimalTime(c, timezone) == DecimalTime(c, 0.0) - timezone
    ensures 0.0 <= c.hours <= 23.0 && 0.0 <= c.minutes <= 59.0 ==>
              -timezone <= DecimalTime(c, timezone) < 24.0 - timezone
    ensures JulianDay(swe, c, timezone) ==
              swe.julday(c.year, c.month, c.day, DecimalTime(c, 0.0) - timezone, CalendarFlag(swe))
  {
  }

  /** The Julian Day the engine computes, from the parsed fields and the decimal UT hour. */
  function JulianDay(swe: Ephemeris, c: CivilTime, timezone: real): Num
  {
    swe.julday(c.year, c.month, c.day, DecimalTime(c, timezone), CalendarFlag(swe))
  }

  // ---------------------------------------------------------------------
  // The catalog loop

  /** What the catalog loop needs: the library, the sidereal mode in force, the Julian Day and the flag word. */
  datatype QueryContext = QueryContext(swe: Ephemeris, sidMode: int, jd: real, flags: bv32)

  /** The id the loop passes to `calc_ut` for a body; `None` when the body is not queried. */
  function QueryId(swe: Ephemeris, p: Planet): (r: Option<int>)
    ensures p == Ketu ==> r.None?
    ensures p == Rahu ==> r == Some(if swe.trueNode.Some? then swe.trueNode.value else DefaultTrueNode)
    ensures p != Rahu && p != Ketu ==> r == swe.bodyId(p)
  {
    var id := if p == Rahu then Some(if swe.trueNode.Some? then swe.trueNode.value else DefaultTrueNode)
              else swe.bodyId(p);
    if p == Ketu then None else id
  }

  /** What one iteration of the loop does for a body. */
  datatype Step = Skip | Add(position: Position) | Abort(message: string)

  function StepOf(ctx: QueryContext, p: Planet): (s: Step)
    ensures s.Add? ==> s.position.name == p
  {
    match QueryId(ctx.swe, p)
    case None => Skip
    case Some(id) =>
      match ctx.swe.calcUt(ctx.sidMode, ctx.jd, id, ctx.flags)
      case Throws(m) => Abort("Failed to calculate " + Name(p) + ": " + m)
      case Missing => Skip
      case NoValues => Skip
      case Values(lon, speed) => Add(Position(p, lon, speed))
  }

  predicate NoAbort(ctx: QueryContext, bodies: seq<Planet>)
  {
    forall i :: 0 <= i < |bodies| ==> !StepOf(ctx, bodies[i]).Abort?
  }

  /** The positions the loop has pushed after visiting `bodies`, when none of them aborted. */
  function Kept(ctx: QueryContext, bodies: seq<Planet>): (r: seq<Position>)
    ensures |r| <= |bodies|
    ensures forall k :: 0 <= k < |r| ==> StepOf(ctx, r[k].name) == Add(r[k])
  {
    if bodies == [] then []
    else
      var s := StepOf(ctx, bodies[|bodies| - 1]);
      Kept(ctx, bodies[..|bodies| - 1]) + (if s.Add? then [s.position] else [])
  }

  lemma KeptSnoc(ctx: QueryContext, bodies: seq<Planet>, i: nat)
    requires i < |bodies|
    ensures Kept(ctx, bodies[..i + 1]) ==
              Kept(ctx, bodies[..i]) + (if StepOf(ctx, bodies[i]).Add? then [StepOf(ctx, bodies[i]).position] else [])
    ensures NoAbort(ctx, bodies[..i]) && !StepOf(ctx, bodies[i]).Abort? ==> NoAbort(ctx, bodies[..i + 1])
  {
    assert bodies[..i + 1][..i] == bodies[..i];
  }

  /**
   * One pass of the loop body for body `p`: Rahu is queried under the
   * true-node id, Ketu and bodies without an id are skipped, a throwing
   * query aborts with a message naming the body, and only a result with
   * values yields a position.
   */
  method QueryBody(ctx: QueryContext, p: Planet) returns (s: Step)
    ensures s == StepOf(ctx, p)
  {
    var planetId := ctx.swe.bodyId(p);
    if p == Rahu {
      planetId := Some(if ctx.swe.trueNode.Some? then ctx.swe.trueNode.value else DefaultTrueNode);
    }
    if p == Ketu {
      return Skip;
    }
    if planetId.None? {
      return Skip;
    }
    var result := ctx.swe.calcUt(ctx.sidMode, ctx.jd, planetId.value, ctx.flags);
    match result {
      case Throws(m) =>
        s := Abort("Failed to calculate " + Name(p) + ": " + m);
      case Missing =>
        s := Skip;
      case NoValues =>
        s := Skip;
      case Values(lon, speed) =>
        s := Add(Position(p, lon, speed));
    }
  }

  /**
   * The loop over the catalog. It pushes one entry per body whose query
   * gives values, skips Ketu, bodies without an id and empty results, and
   * stops with an error naming the first body whose query throws.
   */
  method CollectPositions(ctx: QueryContext) returns (r: Result<seq<Position>, string>)
    ensures r.Ok? <==> NoAbort(ctx, Catalog)
    ensures r.Ok? ==> r.value == Kept(ctx, Catalog)
    ensures r.Err? ==> exists i :: 0 <= i < |Catalog| && StepOf(ctx, Catalog[i]) == Abort(r.error)
                                   && NoAbort(ctx, Catalog[..i])
  {
    var positions: seq<Position> := [];
    for i := 0 to |Catalog|
      invariant NoAbort(ctx, Catalog[..i])
      invariant positions == Kept(ctx, Catalog[..i])
    {
      KeptSnoc(ctx, Catalog, i);
      var step := QueryBody(ctx, Catalog[i]);
      match step {
        case Abort(message) =>
          r := Err(message);
          return;
        case Skip =>
        case Add(position) =>
          positions := positions + [position];
      }
    }
    assert Catalog[..|Catalog|] == Catalog;
    r := Ok(positions);
  }

  lemma FindFirstAppend(xs: seq<Position>, ys: seq<Position>, name: Planet)
    ensures FindFirst(xs + ys, name) == if FindFirst(xs, name).Some? then FindFirst(xs, name) else FindFirst(ys, name)
    decreases |xs|
  {
    if xs != [] {
      assert (xs + ys)[1..] == xs[1..] + ys;
      FindFirstAppend(xs[1..], ys, name);
    } else {
      assert xs + ys == ys;
    }
  }

  lemma FindFirstSingle(x: Position, name: Planet)
    ensures FindFirst([x], name) == if x.name == name then Some(x) else None
  {
  }

  /**
   * A body has an entry exactly when it was visited and its query gave
   * values, and that entry is what the query gave. In particular Ketu, which
   * is never queried, has none.
   */
  lemma {:induction false} KeptFind(ctx: QueryContext, bodies: seq<Planet>, p: Planet)
    ensures FindFirst(Kept(ctx, bodies), p) ==
              if p in bodies && StepOf(ctx, p).Add? then Some(StepOf(ctx, p).position) else None
  {
    if bodies != [] {
      var init := bodies[..|bodies| - 1];
      var last := bodies[|bodies| - 1];
      KeptFind(ctx, init, p);
      var s := StepOf(ctx, last);
      assert p in bodies <==> p in init || p == last by {
        assert bodies == init + [last];
      }
      if s.Add? {
        assert Kept(ctx, bodies) == Kept(ctx, init) + [s.position];
        FindFirstAppend(Kept(ctx, init), [s.position], p);
        FindFirstSingle(s.position, p);
      } else {
        assert Kept(ctx, bodies) == Kept(ctx, init);
      }
    }
  }

  /** Bodies listed in strictly increasing catalog order. */
  predicate Ascending(bodies: seq<Planet>)
  {
    forall i, j :: 0 <= i < j < |bodies| ==> Rank(bodies[i]) < Rank(bodies[j])
  }

  lemma CatalogAscending()
    ensures Ascending(Catalog)
  {
    forall i, j | 0 <= i < j < |Catalog| ensures Rank(Catalog[i]) < Rank(Catalog[j]) {
      assert forall k :: 0 <= k < |Catalog| ==> Rank(Catalog[k]) == k;
    }
  }

  /** The entries pushed keep the order of the bodies visited, and each belongs to a visited body. */
  lemma {:induction false} KeptInOrder(ctx: QueryContext, bodies: seq<Planet>)
    requires Ascending(bodies)
    ensures InCatalogOrder(Kept(ctx, bodies))
    ensures forall k :: 0 <= k < |Kept(ctx, bodies)| ==> Kept(ctx, bodies)[k].name in bodies
  {
    if bodies != [] {
      var init := bodies[..|bodies| - 1];
      var last := bodies[|bodies| - 1];
      KeptInOrder(ctx, init);
      var ks := Kept(ctx, init);
      var s := StepOf(ctx, last);
      assert bodies == init + [last];
      if s.Add? {
        assert Kept(ctx, bodies) == ks + [s.position];
        RanksBelowLast(bodies, ks);
        AppendInOrder(ks, s.position);
        forall k | 0 <= k < |ks| + 1 ensures (ks + [s.position])[k].name in bodies {
          if k < |ks| {
            assert ks[k].name in init;
          }
        }
      } else {
        assert Kept(ctx, bodies) == ks;
      }
    }
  }

  lemma RanksBelowLast(bodies: seq<Planet>, ks: seq<Position>)
    requires Ascending(bodies) && bodies != []
    requires forall k :: 0 <= k < |ks| ==> ks[k].name in bodies[..|bodies| - 1]
    ensures forall k :: 0 <= k < |ks| ==> Rank(ks[k].name) < Rank(bodies[|bodies| - 1])
  {
    forall k | 0 <= k < |ks| ensures Rank(ks[k].name) < Rank(bodies[|bodies| - 1]) {
      var init := bodies[..|bodies| - 1];
      assert ks[k].name in init;
      var i :| 0 <= i < |init| && init[i] == ks[k].name;
      assert bodies[i] == init[i];
    }
  }

  lemma AppendInOrder(xs: seq<Position>, x: Position)
    requires InCatalogOrder(xs)
    requires forall k :: 0 <= k < |xs| ==> Rank(xs[k].name) < Rank(x.name)
    ensures InCatalogOrder(xs + [x])
  {
  }

  // ---------------------------------------------------------------------
  // Ketu

  /** Ketu, the point opposite a Rahu entry, moving at Rahu's speed. */
  function KetuOf(rahu: Position): (k: Position)
    ensures k.name == Ketu && k.speed == rahu.speed
    ensures -180.0 <= rahu.longitude ==> 0.0 <= k.longitude < 360.0
    ensures 0.0 <= rahu.longitude < 360.0 ==>
              k.longitude == rahu.longitude + 180.0 || k.longitude == rahu.longitude - 180.0
  {
    var sum := rahu.longitude + 180.0;
    if 0.0 <= sum < 360.0 then
      RemOfNonNegative(sum, 360.0, 0);
      Position(Ketu, Rem(sum, 360.0), rahu.speed)
    else if 360.0 <= sum < 720.0 then
      RemOfNonNegative(sum, 360.0, 1);
      Position(Ketu, Rem(sum, 360.0), rahu.speed)
    else
      Position(Ketu, Rem(sum, 360.0), rahu.speed)
  }

  /** The positions after the Ketu step: Ketu is appended when a Rahu entry exists. */
  function WithKetu(positions: seq<Position>): (r: seq<Position>)
    ensures |r| == |positions| + (if FindFirst(positions, Rahu).Some? then 1 else 0)
    ensures r[..|positions|] == positions
    ensures FindFirst(positions, Rahu).Some? ==> r[|positions|] == KetuOf(FindFirst(positions, Rahu).value)
  {
    match FindFirst(positions, Rahu)
    case None => positions
    case Some(rahu) => positions + [KetuOf(rahu)]
  }

  /** Finds Rahu and, if present, pushes Ketu. */
  method AddKetu(positions: seq<Position>) returns (r: seq<Position>)
    ensures r == WithKetu(positions)
    ensures |r| == |positions| + (if FindFirst(positions, Rahu).Some? then 1 else 0)
    ensures r[..|positions|] == positions
  {
    r := positions;
    var rahu := FindFirst(positions, Rahu);
    if rahu.Some? {
      r := r + [KetuOf(rahu.value)];
    }
  }

  /**
   * On a list without Ketu and in catalog order, the Ketu step keeps the
   * catalog order, and Ketu ends up in the list exactly when Rahu is in
   * it, as the point opposite the first Rahu entry.
   */
  lemma WithKetuProperties(positions: seq<Position>)
    requires InCatalogOrder(positions) && FindFirst(positions, Ketu).None?
    ensures InCatalogOrder(WithKetu(positions))
    ensures FindFirst(WithKetu(positions), Ketu).Some? <==> FindFirst(positions, Rahu).Some?
    ensures FindFirst(positions, Rahu).Some? ==>
              FindFirst(WithKetu(positions), Ketu) == Some(KetuOf(FindFirst(positions, Rahu).value))
              && WithKetu(positions)[|positions|] == KetuOf(FindFirst(positions, Rahu).value)
    ensures forall p :: p != Ketu ==> FindFirst(WithKetu(positions), p) == FindFirst(positions, p)
  {
    match FindFirst(positions, Rahu)
    case None =>
    case Some(rahu) =>
      var ketu := KetuOf(rahu);
      assert WithKetu(positions) == positions + [ketu];
      KetuLastInOrder(positions, ketu);
      forall p | p != Ketu ensures FindFirst(positions + [ketu], p) == FindFirst(positions, p) {
        FindFirstAppend(positions, [ketu], p);
        FindFirstSingle(ketu, p);
      }
      FindFirstAppend(positions, [ketu], Ketu);
      FindFirstSingle(ketu, Ketu);
  }

  /** Ketu, last in the catalog, can be appended to a list without Ketu in catalog order. */
  lemma KetuLastInOrder(positions: seq<Position>, ketu: Position)
    requires InCatalogOrder(positions) && FindFirst(positions, Ketu).None? && ketu.name == Ketu
    ensures InCatalogOrder(positions + [ketu])
  {
    forall i | 0 <= i < |positions| ensures Rank(positions[i].name) < Rank(ketu.name) {
      assert positions[i].name != Ketu;
    }
    AppendInOrder(positions, ketu);
  }

  /**
   * The bodies of a computed chart: in catalog order; each queried body
   * present exactly when its query gave values, with those values; Ketu
   * present exactly when Rahu is, opposite Rahu and at Rahu's speed.
   */
  lemma ChartBodies(ctx: QueryContext)
    ensures InCatalogOrder(WithKetu(Kept(ctx, Catalog)))
    ensures forall p :: p != Ketu ==>
              FindFirst(WithKetu(Kept(ctx, Catalog)), p) ==
                if StepOf(ctx, p).Add? then Some(StepOf(ctx, p).position) else None
    ensures FindFirst(WithKetu(Kept(ctx, Catalog)), Ketu) ==
              if StepOf(ctx, Rahu).Add? then Some(KetuOf(StepOf(ctx, Rahu).position)) else None
  {
    var kept := Kept(ctx, Catalog);
    CatalogAscending();
    KeptInOrder(ctx, Catalog);
    forall p ensures FindFirst(kept, p) == if StepOf(ctx, p).Add? then Some(StepOf(ctx, p).position) else None {
      KeptFind(ctx, Catalog, p);
      assert p in Catalog by { assert Catalog[Rank(p)] == p; }
    }
    WithKetuProperties(kept);
  }

  // ---------------------------------------------------------------------
  // Ascendant

  /** RAMC in degrees: sidereal time turned into degrees plus the east longitude, reduced to one turn. */
  function Ramc(gmst: real, lon: real): (r: real)
    ensures 0.0 <= gmst < 24.0 && -180.0 <= lon <= 180.0 ==>
              0.0 <= r < 360.0 && (r - (gmst * 15.0 + lon) == 360.0 || r == gmst * 15.0 + lon || r - (gmst * 15.0 + lon) == -360.0)
  {
    var a := gmst * 15.0 + lon + 360.0;
    if 0.0 <= a < 360.0 then
      RemOfNonNegative(a, 360.0, 0);
      Rem(a, 360.0)
    else if 360.0 <= a < 720.0 then
      RemOfNonNegative(a, 360.0, 1);
      Rem(a, 360.0)
    else if 720.0 <= a < 1080.0 then
      RemOfNonNegative(a, 360.0, 2);
      Rem(a, 360.0)
    else
      Rem(a, 360.0)
  }

  /** RAMC does not change when the longitude is given one turn further east. */
  lemma RamcPeriodic(gmst: real, lon: real)
    requires 0.0 <= gmst * 15.0 + lon + 360.0
    ensures Ramc(gmst, lon + 360.0) == Ramc(gmst, lon)
  {
    var a := gmst * 15.0 + lon + 360.0;
    var q := Floor(a / 360.0);
    QuotientBounds(a, 360.0, q);
    RemOfNonNegative(a, 360.0, q);
    RemOfNonNegative(a + 360.0, 360.0, q + 1);
    assert gmst * 15.0 + (lon + 360.0) + 360.0 == a + 360.0;
  }

  /** `atan2(y, x)` in degrees, (-180, 180], lifted into [0, 360) by adding a turn to a negative angle. */
  function NormalizeTropical(angle: real): (r: real)
    ensures -360.0 <= angle < 360.0 ==> 0.0 <= r < 360.0
    ensures r == angle || r == angle + 360.0
    ensures 0.0 <= angle ==> r == angle
  {
    if angle < 0.0 then angle + 360.0 else angle
  }

  /** The sidereal Ascendant: the tropical one minus the ayanamsa, reduced to one turn. */
  function SiderealAscendant(ascTrop: real, ayanamsa: real): (r: real)
    ensures 0.0 <= ascTrop < 360.0 && 0.0 <= ayanamsa < 360.0 ==>
              0.0 <= r < 360.0 && (r == ascTrop - ayanamsa || r == ascTrop - ayanamsa + 360.0)
  {
    var a := ascTrop - ayanamsa + 360.0;
    if 0.0 <= a < 360.0 then
      RemOfNonNegative(a, 360.0, 0);
      Rem(a, 360.0)
    else if 360.0 <= a < 720.0 then
      RemOfNonNegative(a, 360.0, 1);
      Rem(a, 360.0)
    else
      Rem(a, 360.0)
  }

  /**
   * The `try` block that computes the Ascendant. Either obliquity query
   * throwing, or the tropical one returning null, is the error
   * "Failed to calculate Ascendant."; an empty obliquity array makes the
   * obliquity `undefined`, and the Ascendant NaN, which is not checked.
   */
  function AscendantOf(swe: Ephemeris, ascendantAngle: (real, real, real) -> real,
                       sidMode: int, jd: real, lat: real, lon: real): (r: Result<Num, string>)
    ensures r.Err? ==> r.error == AscendantFailed
    ensures r.Err? <==> swe.calcUt(sidMode, jd, SE_ECL_NUT, SiderealFlags(swe)).Throws?
                        || swe.calcUt(sidMode, jd, SE_ECL_NUT, TropicalFlags(swe)).Throws?
                        || swe.calcUt(sidMode, jd, SE_ECL_NUT, TropicalFlags(swe)).Missing?
    ensures r == Ok(NaN) <==> !swe.calcUt(sidMode, jd, SE_ECL_NUT, SiderealFlags(swe)).Throws?
                              && swe.calcUt(sidMode, jd, SE_ECL_NUT, TropicalFlags(swe)).NoValues?
    ensures r.Ok? && r.value.Fin? <==> !swe.calcUt(sidMode, jd, SE_ECL_NUT, SiderealFlags(swe)).Throws?
                                       && swe.calcUt(sidMode, jd, SE_ECL_NUT, TropicalFlags(swe)).Values?
    ensures r.Ok? && r.value.Fin? ==>
              exists eps, s :: swe.calcUt(sidMode, jd, SE_ECL_NUT, TropicalFlags(swe)) == Values(eps, s)
                && r.value.v == SiderealAscendant(NormalizeTropical(ascendantAngle(Ramc(swe.sidtime(jd), lon), eps, lat)),
                                                  swe.ayanamsaUt(sidMode, jd))
  {
    if swe.calcUt(sidMode, jd, SE_ECL_NUT, SiderealFlags(swe)).Throws? then Err(AscendantFailed)
    else
      match swe.calcUt(sidMode, jd, SE_ECL_NUT, TropicalFlags(swe))
      case Throws(_) => Err(AscendantFailed)
      case Missing => Err(AscendantFailed)
      case NoValues => Ok(NaN)
      case Values(eps, _) =>
        var gmst := swe.sidtime(jd);
        var ramc := Ramc(gmst, lon);
        var ascTrop := NormalizeTropical(ascendantAngle(ramc, eps, lat));
        var ayanamsa := swe.ayanamsaUt(sidMode, jd);
        Ok(Fin(SiderealAscendant(ascTrop, ayanamsa)))
  }

  // ---------------------------------------------------------------------
  // Whole-sign cusps

  /** `houses`: twelve cusps, starting at the beginning of the Ascendant's sign, 30 degrees apart, reduced to one turn. */
  function Houses(asc: real): (h: seq<real>)
    ensures |h| == 12
    ensures 0.0 <= asc ==> forall i :: 0 <= i < 12 ==> 0.0 <= h[i] < 360.0
  {
    var start := Floor(asc / 30.0) * 30;
    seq(12, i => Rem(start as real + (i * 30) as real, 360.0))
  }

  /** The closed form of each cusp: the start of sign `(floor(asc/30) + i) mod 12`. */
  lemma HouseCusp(asc: real, i: nat)
    requires 0.0 <= asc && i < 12
    ensures Houses(asc)[i] == ((Floor(asc / 30.0) + i) % 12 * 30) as real
  {
    var s := Floor(asc / 30.0);
    assert 0 <= s;
    var n := s + i;
    var q := n / 12;
    assert n == 12 * q + n % 12;
    var a := (s * 30) as real + (i * 30) as real;
    assert a == (n * 30) as real;
    assert (q as real) * 360.0 == (q * 360) as real;
    assert n * 30 == q * 360 + (n % 12) * 30;
    RemOfNonNegative(a, 360.0, q);
  }

  /** Each cusp is a multiple of 30 in [0, 360). */
  lemma HouseCuspInRange(asc: real, i: nat)
    requires 0.0 <= asc && i < 12
    ensures 0.0 <= Houses(asc)[i] < 360.0
    ensures Houses(asc)[i] == (Floor(Houses(asc)[i] / 30.0) * 30) as real
  {
    HouseCusp(asc, i);
    var k := (Floor(asc / 30.0) + i) % 12;
    assert (k * 30) as real / 30.0 == k as real;
  }

  /** Each cusp is the previous one moved on by one sign. */
  lemma HouseCuspNext(asc: real, i: nat)
    requires 0.0 <= asc && i < 11
    ensures Houses(asc)[i + 1] == Rem(Houses(asc)[i] + 30.0, 360.0)
  {
    HouseCusp(asc, i);
    HouseCusp(asc, i + 1);
    var n := Floor(asc / 30.0) + i;
    ModShift12(n, 1);
    SignStep(n % 12);
  }

  /** One sign on from the start of sign k, modulo a full turn, is the start of sign k + 1 modulo 12. */
  lemma SignStep(k: int)
    requires 0 <= k < 12
    ensures Rem((k * 30) as real + 30.0, 360.0) == ((k + 1) % 12 * 30) as real
  {
    var a := (k * 30) as real + 30.0;
    if k == 11 {
      RemOfNonNegative(a, 360.0, 1);
    } else {
      RemOfNonNegative(a, 360.0, 0);
    }
  }

  /** Properties of the cusps for an Ascendant in [0, 360). */
  lemma HousesWholeSign(asc: real)
    requires 0.0 <= asc < 360.0
    ensures Houses(asc)[0] == (Floor(asc / 30.0) * 30) as real
    ensures forall i :: 0 <= i < 12 ==>
              0.0 <= Houses(asc)[i] < 360.0 && Houses(asc)[i] == (Floor(Houses(asc)[i] / 30.0) * 30) as real
    ensures forall i :: 0 <= i < 11 ==> Houses(asc)[i + 1] == Rem(Houses(asc)[i] + 30.0, 360.0)
    ensures forall i, j :: 0 <= i < j < 12 ==> Houses(asc)[i] != Houses(asc)[j]
  {
    HouseCusp(asc, 0);
    assert 0 <= Floor(asc / 30.0) < 12;
    forall i | 0 <= i < 12
      ensures 0.0 <= Houses(asc)[i] < 360.0 && Houses(asc)[i] == (Floor(Houses(asc)[i] / 30.0) * 30) as real
    {
      HouseCuspInRange(asc, i);
    }
    forall i | 0 <= i < 11
      ensures Houses(asc)[i + 1] == Rem(Houses(asc)[i] + 30.0, 360.0)
    {
      HouseCuspNext(asc, i);
    }
    forall i, j | 0 <= i < j < 12
      ensures Houses(asc)[i] != Houses(asc)[j]
    {
      HouseCuspsDistinct(asc, i, j);
    }
  }

  /** Two different houses never share a cusp. */
  lemma HouseCuspsDistinct(asc: real, i: nat, j: nat)
    requires 0.0 <= asc && i < j < 12
    ensures Houses(asc)[i] != Houses(asc)[j]
  {
    HouseCusp(asc, i);
    HouseCusp(asc, j);
    var n := Floor(asc / 30.0) + i;
    ModShift12(n, j - i);
    assert n % 12 != (n % 12 + (j - i)) % 12;
  }

  /** The cusps the chart reports: NaN throughout when the Ascendant is NaN. */
  function ChartHouses(ascendant: Num): (h: seq<Num>)
    ensures |h| == 12
    ensures ascendant.NaN? ==> forall i :: 0 <= i < 12 ==> h[i].NaN?
    ensures ascendant.Fin? ==> forall i :: 0 <= i < 12 ==> h[i] == Fin(Houses(ascendant.v)[i])
  {
    match ascendant
    case NaN => seq(12, _ => NaN)
    case Fin(a) => seq(12, i requires 0 <= i < 12 => Fin(Houses(a)[i]))
  }

  // ---------------------------------------------------------------------
  // The whole computation

  /** What the engine returns. */
  datatype Chart = Chart(ascendant: Num, planets: seq<Position>, houses: seq<Num>)

  /**
   * The stages after a valid Julian Day: the catalog loop, Ketu, the
   * Ascendant and the cusps. Their errors come in that order.
   */
  method ChartForDay(swe: Ephemeris, ascendantAngle: (real, real, real) -> real, jd: real, lat: real, lon: real)
    returns (r: Result<Chart, string>)
    ensures var ctx := QueryContext(swe, SiderealMode(swe), jd, SiderealFlags(swe));
            var asc := AscendantOf(swe, ascendantAngle, SiderealMode(swe), jd, lat, lon);
            && (!NoAbort(ctx, Catalog) ==>
                  r.Err? && exists i :: 0 <= i < |Catalog| && StepOf(ctx, Catalog[i]) == Abort(r.error)
                                        && NoAbort(ctx, Catalog[..i]))
            && (NoAbort(ctx, Catalog) && asc.Err? ==> r == Err(AscendantFailed))
            && (NoAbort(ctx, Catalog) && asc.Ok? ==>
                  r == Ok(Chart(asc.value, WithKetu(Kept(ctx, Catalog)), ChartHouses(asc.value))))
  {
    var sidMode := SiderealMode(swe);
    var ctx := QueryContext(swe, sidMode, jd, SiderealFlags(swe));
    var collected := CollectPositions(ctx);
    if collected.Err? {
      return Err(collected.error);
    }
    var positions := AddKetu(collected.value);
    var ascendant := AscendantOf(swe, ascendantAngle, sidMode, jd, lat, lon);
    if ascendant.Err? {
      return Err(ascendant.error);
    }
    r := Ok(Chart(ascendant.value, positions, ChartHouses(ascendant.value)));
  }

  /** `calculatePlanetaryPositions(date, time, timezone, lat, lon)` once the library is loaded. */
  method CalculatePlanetaryPositions(swe: Ephemeris, ascendantAngle: (real, real, real) -> real,
                                     date: string, time: string, timezone: Num, lat: Num, lon: Num)
    returns (r: Result<Chart, string>)
    ensures IsNaN(lat) || IsNaN(lon) || IsNaN(timezone) ==> r == Err(InvalidLocation)
    ensures !IsNaN(lat) && !IsNaN(lon) && !IsNaN(timezone) && ParseDateTime(date, time).None? ==>
              r == Err(InvalidDateTime)
    ensures !IsNaN(lat) && !IsNaN(lon) && !IsNaN(timezone) && ParseDateTime(date, time).Some? ==>
              var jd := JulianDay(swe, ParseDateTime(date, time).value, timezone.v);
              && (jd.NaN? ==> r == Err(JulianDayFailed))
              && (jd.Fin? ==>
                    var ctx := QueryContext(swe, SiderealMode(swe), jd.v, SiderealFlags(swe));
                    var asc := AscendantOf(swe, ascendantAngle, SiderealMode(swe), jd.v, lat.v, lon.v);
                    && (!NoAbort(ctx, Catalog) ==>
                          r.Err? && exists i :: 0 <= i < |Catalog| && StepOf(ctx, Catalog[i]) == Abort(r.error)
                                                && NoAbort(ctx, Catalog[..i]))
                    && (NoAbort(ctx, Catalog) && asc.Err? ==> r == Err(AscendantFailed))
                    && (NoAbort(ctx, Catalog) && asc.Ok? ==>
                          r == Ok(Chart(asc.value, WithKetu(Kept(ctx, Catalog)), ChartHouses(asc.value)))))
  {
    if IsNaN(lat) || IsNaN(lon) || IsNaN(timezone) {
      return Err(InvalidLocation);
    }
    var parsed := ParseDateTime(date, time);
    if parsed.None? {
      return Err(InvalidDateTime);
    }
    var c := parsed.value;
    var decimalTime := DecimalTime(c, timezone.v);
    var jd := swe.julday(c.year, c.month, c.day, decimalTime, CalendarFlag(swe));
    assert jd == JulianDay(swe, c, timezone.v);
    if IsNaN(jd) {
      return Err(JulianDayFailed);
    }
    r := ChartForDay(swe, ascendantAngle, jd.v, lat.v, lon.v);
  }
}
