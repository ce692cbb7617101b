/**
 * The clock and string handling of src/components/InputForm.jsx:
 * `handleNow` fills the form from the current time on a 12-hour clock,
 * and `handleSubmit` turns the form back into a 24-hour `HH:MM` time, a
 * `YYYY-MM-DD` date and a UTC offset, and refuses a form without a place.
 */
module InputForm {
  import opened Wrappers
  import opened JsMath
  import opened JsText
  import Geocoding
  import Astrology

  datatype Meridiem = AM | PM

  /** The 24-hour value `handleSubmit` gives a 12-hour reading: 12 AM is 0, 12 PM is 12, other PM hours gain 12. */
  function Hour24(hrs: nat, ampm: Meridiem): (h: nat)
    ensures 1 <= hrs <= 12 ==> h <= 23 && h % 12 == hrs % 12 && (h >= 12 <==> ampm == PM)
    ensures hrs != 12 ==> h == hrs + (if ampm == PM then 12 else 0)
  {
    match ampm
    case PM => if hrs != 12 then hrs + 12 else hrs
    case AM => if hrs == 12 then 0 else hrs
  }

  /** The 12-hour reading `handleNow` gives an hour of the day: PM from noon on, and 12 in place of 0. */
  function Hour12(hour: nat): (r: (nat, Meridiem))
    ensures hour <= 23 ==> 1 <= r.0 <= 12 && r.0 % 12 == hour % 12 && (r.1 == PM <==> hour >= 12)
  {
    var ampm := if hour >= 12 then PM else AM;
    var hrs := IntRem(hour, 12);
    (if hrs != 0 then hrs else 12, ampm)
  }

  /** `handleSubmit`'s conversion (lines 112-114), as the source writes it: a local hour adjusted step by step. */
  method SubmitHours(hrs: nat, ampm: Meridiem) returns (hours: nat)
    ensures hours == Hour24(hrs, ampm)
  {
    hours := hrs;
    if ampm == PM && hours != 12 {
      hours := hours + 12;
    }
    if ampm == AM && hours == 12 {
      hours := 0;
    }
  }

  /** The two conversions are inverse: 12-hour readings and hours of the day correspond one to one. */
  lemma ClockRoundTrips(hour: nat, hrs: nat, ampm: Meridiem)
    ensures hour <= 23 ==> Hour24(Hour12(hour).0, Hour12(hour).1) == hour
    ensures 1 <= hrs <= 12 ==> Hour12(Hour24(hrs, ampm)) == (hrs, ampm)
  {
    if hour <= 23 {
      var (h, m) := Hour12(hour);
      assert h == if hour % 12 == 0 then 12 else hour % 12;
    }
    if 1 <= hrs <= 12 {
      var h := Hour24(hrs, ampm);
      assert h % 12 == hrs % 12;
    }
  }

  /** `Hour24` is one to one on {1..12} x {AM, PM}, onto 0..23. */
  lemma Hour24Bijective(hrs1: nat, m1: Meridiem, hrs2: nat, m2: Meridiem, hour: nat)
    requires 1 <= hrs1 <= 12 && 1 <= hrs2 <= 12
    ensures Hour24(hrs1, m1) == Hour24(hrs2, m2) ==> hrs1 == hrs2 && m1 == m2
    ensures hour <= 23 ==> 1 <= Hour12(hour).0 <= 12 && Hour24(Hour12(hour).0, Hour12(hour).1) == hour
  {
    ClockRoundTrips(hour, hrs1, m1);
    ClockRoundTrips(hour, hrs2, m2);
  }

  // ---------------------------------------------------------------------
  // The form

  /** A latitude or longitude field: empty at first, then the number a place search or geolocation gave. */
  datatype LocationField = Blank | Coordinate(value: Num)

  /**
   * `!field`: the empty string, NaN and 0 are falsy, so a field passes the
   * submit guard exactly when it holds a coordinate that is neither NaN nor 0.
   */
  predicate Falsy(f: LocationField)
  {
    f.Blank? || f.value.NaN? || f.value == Fin(0.0)
  }

  datatype FormData = FormData(
    name: string, gender: string,
    day: nat, month: nat, year: nat,
    hrs: nat, min: nat, sec: nat, ampm: Meridiem,
    place: string, latitude: LocationField, longitude: LocationField,
    timezone: string)

  /** What `new Date()` reads: `getMonth()` counts from 0, `getHours()` is 0..23. */
  datatype Now = Now(year: nat, month0: nat, date: nat, hours: nat, minutes: nat, seconds: nat)

  /** `handleNow`: the date and time fields are set from the clock, on a 12-hour dial; the other fields are kept. */
  method HandleNow(prev: FormData, now: Now) returns (next: FormData)
    requires now.hours <= 23
    ensures next == prev.(day := now.date, month := now.month0 + 1, year := now.year,
                          hrs := Hour12(now.hours).0, min := now.minutes, sec := now.seconds,
                          ampm := Hour12(now.hours).1)
    ensures 1 <= next.hrs <= 12 && (next.ampm == PM <==> now.hours >= 12)
    ensures Hour24(next.hrs, next.ampm) == now.hours
  {
    var hrs: nat := now.hours;
    var ampm := if hrs >= 12 then PM else AM;
    hrs := IntRem(hrs, 12);
    hrs := if hrs != 0 then hrs else 12;
    next := prev.(day := now.date, month := now.month0 + 1, year := now.year,
                  hrs := hrs, min := now.minutes, sec := now.seconds, ampm := ampm);
    ClockRoundTrips(now.hours, 1, AM);
  }

  /** `${year}-${month padded}-${day padded}`; the year is not padded. */
  function DateString(year: nat, month: nat, day: nat): string
  {
    DecimalString(year) + "-" + PadStart2(DecimalString(month)) + "-" + PadStart2(DecimalString(day))
  }

  /** `${hours padded}:${minutes padded}`. */
  function TimeString(hours: nat, minutes: nat): string
  {
    PadStart2(DecimalString(hours)) + ":" + PadStart2(DecimalString(minutes))
  }

  /** The offset sent with the form: parsed from the zone's formatted name, or India's 5.5 when no zone is set. */
  function TimezoneOffset(timezone: string, formatted: string -> string): (r: real)
    ensures timezone == "" ==> r == 5.5
    ensures -(99.0 + 99.0 / 60.0) <= r <= 99.0 + 99.0 / 60.0
  {
    if timezone != "" then Geocoding.GetTimezoneOffset(formatted(timezone)) else 5.5
  }

  /** What `handleSubmit` passes to `onSubmit`. */
  datatype Submission = Submission(name: string, date: string, time: string,
                                   latitude: LocationField, longitude: LocationField, timezone: real)

  /**
   * `handleSubmit`: converts the hour, computes the offset, builds the date
   * and time strings, and submits only when both coordinates are truthy.
   * `formatted` stands for the zone's `toLocaleString` output at the
   * current moment.
   */
  method HandleSubmit(form: FormData, formatted: string -> string) returns (out: Option<Submission>)
    ensures out.None? <==> Falsy(form.latitude) || Falsy(form.longitude)
    ensures out.Some? ==>
              && out.value.date == DateString(form.year, form.month, form.day)
              && out.value.time == TimeString(Hour24(form.hrs, form.ampm), form.min)
              && out.value.timezone == TimezoneOffset(form.timezone, formatted)
              && out.value.latitude == form.latitude && out.value.longitude == form.longitude
              && out.value.name == form.name
  {
    var hours := SubmitHours(form.hrs, form.ampm);
    var tzOffset := TimezoneOffset(form.timezone, formatted);
    var submitData := Submission(form.name, DateString(form.year, form.month, form.day),
                                 TimeString(hours, form.min), form.latitude, form.longitude, tzOffset);
    if Falsy(submitData.latitude) || Falsy(submitData.longitude) {
      return None;
    }
    out := Some(submitData);
  }

  /** The engine reads back from the submitted strings exactly the numbers the form held. */
  lemma DateTimeRoundTrip(year: nat, month: nat, day: nat, hours: nat, minutes: nat)
    ensures Astrology.ParseDateTime(DateString(year, month, day), TimeString(hours, minutes))
            == Some(Astrology.CivilTime(year as real, month as real, day as real, hours as real, minutes as real))
  {
    var date, time := DateString(year, month, day), TimeString(hours, minutes);
    DateFields(year, month, day);
    TimeFields(hours, minutes);
    ParseFields(date, time, Split(date, '-'), Split(time, ':'),
                Astrology.CivilTime(year as real, month as real, day as real, hours as real, minutes as real));
  }

  lemma DateFields(year: nat, month: nat, day: nat)
    ensures var d := Split(DateString(year, month, day), '-');
            |d| == 3 && Number(d[0]) == Fin(year as real) && Number(d[1]) == Fin(month as real)
            && Number(d[2]) == Fin(day as real)
  {
    DateSplits(year, month, day);
    FieldNumber(DecimalString(year), year);
    PaddedFieldNumber(month);
    PaddedFieldNumber(day);
  }

  lemma TimeFields(hours: nat, minutes: nat)
    ensures var t := Split(TimeString(hours, minutes), ':');
            |t| == 2 && Number(t[0]) == Fin(hours as real) && Number(t[1]) == Fin(minutes as real)
  {
    TimeSplits(hours, minutes);
    PaddedFieldNumber(hours);
    PaddedFieldNumber(minutes);
  }

  /** `ParseDateTime` on strings whose fields are known numbers. */
  lemma ParseFields(date: string, time: string, d: seq<string>, t: seq<string>, c: Astrology.CivilTime)
    requires |d| == 3 && |t| == 2
    requires Split(date, '-') == d && Split(time, ':') == t
    requires Number(d[0]) == Fin(c.year) && Number(d[1]) == Fin(c.month) && Number(d[2]) == Fin(c.day)
    requires Number(t[0]) == Fin(c.hours) && Number(t[1]) == Fin(c.minutes)
    ensures Astrology.ParseDateTime(date, time) == Some(c)
  {
  }

  lemma DateSplits(year: nat, month: nat, day: nat)
    ensures Split(DateString(year, month, day), '-')
            == [DecimalString(year), PadStart2(DecimalString(month)), PadStart2(DecimalString(day))]
  {
    var y, m, d := DecimalString(year), PadStart2(DecimalString(month)), PadStart2(DecimalString(day));
    PaddedDecimalValue(month);
    PaddedDecimalValue(day);
    DigitsHaveNo(y, '-');
    DigitsHaveNo(m, '-');
    DigitsHaveNo(d, '-');
    SplitThree(y, m, d, '-');
  }

  lemma TimeSplits(hours: nat, minutes: nat)
    ensures Split(TimeString(hours, minutes), ':')
            == [PadStart2(DecimalString(hours)), PadStart2(DecimalString(minutes))]
  {
    var hh, mm := PadStart2(DecimalString(hours)), PadStart2(DecimalString(minutes));
    PaddedDecimalValue(hours);
    PaddedDecimalValue(minutes);
    DigitsHaveNo(hh, ':');
    DigitsHaveNo(mm, ':');
    SplitTwo(hh, mm, ':');
  }

  lemma SplitThree(a: string, b: string, c: string, sep: char)
    requires sep !in a && sep !in b && sep !in c
    ensures Split(a + [sep] + b + [sep] + c, sep) == [a, b, c]
  {
    var parts := [a, b, c];
    assert forall i :: 0 <= i < |parts| ==> sep !in parts[i];
    SplitJoin(parts, sep);
    assert Join(parts, sep) == a + [sep] + b + [sep] + c by {
      assert Join(parts[1..], sep) == b + [sep] + c by {
        assert Join(parts[2..], sep) == c;
      }
    }
  }

  lemma SplitTwo(a: string, b: string, sep: char)
    requires sep !in a && sep !in b
    ensures Split(a + [sep] + b, sep) == [a, b]
  {
    var parts := [a, b];
    assert forall i :: 0 <= i < |parts| ==> sep !in parts[i];
    SplitJoin(parts, sep);
    assert Join(parts, sep) == a + [sep] + b by {
      assert Join(parts[1..], sep) == b;
    }
  }

  lemma FieldNumber(s: string, n: nat)
    requires s == DecimalString(n)
    ensures Number(s) == Fin(n as real)
  {
    NumberOfDigits(s);
  }

  lemma PaddedFieldNumber(n: nat)
    ensures Number(PadStart2(DecimalString(n))) == Fin(n as real)
  {
    PaddedDecimalValue(n);
    NumberOfDigits(PadStart2(DecimalString(n)));
  }

  lemma DigitsHaveNo(s: string, c: char)
    requires AllDigits(s) && !IsDigit(c)
    ensures c !in s
  {
    assert forall i :: 0 <= i < |s| ==> s[i] != c;
  }

  /** A submitted form always passes the engine's input checks: both coordinates are numbers and the date and time parse. */
  lemma SubmissionPassesEngineChecks(form: FormData, formatted: string -> string, out: Submission)
    requires !(Falsy(form.latitude) || Falsy(form.longitude))
    requires out.date == DateString(form.year, form.month, form.day)
    requires out.time == TimeString(Hour24(form.hrs, form.ampm), form.min)
    requires out.latitude == form.latitude && out.longitude == form.longitude
    ensures out.latitude.Coordinate? && !IsNaN(out.latitude.value)
    ensures out.longitude.Coordinate? && !IsNaN(out.longitude.value)
    ensures Astrology.ParseDateTime(out.date, out.time).Some?
  {
    DateTimeRoundTrip(form.year, form.month, form.day, Hour24(form.hrs, form.ampm), form.min);
  }
}
