/**
 * `getTimezoneOffset` of src/utils/geocoding.js, as a parse of the
 * string that `toLocaleString(..., { timeZoneName: 'longOffset' })`
 * produced: the first `GMT±HH:MM` in it gives the offset in hours.
 */
module Geocoding {
  import opened Wrappers
  import opened JsText

  /** `/GMT([+-]\d{2}):(\d{2})/` matches at index i. */
  predicate MatchAt(s: string, i: nat)
  {
    i + 9 <= |s|
    && s[i] == 'G' && s[i + 1] == 'M' && s[i + 2] == 'T'
    && (s[i + 3] == '+' || s[i + 3] == '-')
    && IsDigit(s[i + 4]) && IsDigit(s[i + 5])
    && s[i + 6] == ':'
    && IsDigit(s[i + 7]) && IsDigit(s[i + 8])
  }

  /** The leftmost match at or after `from`, as the unanchored regular expression finds it. */
  function FirstMatch(s: string, from: nat): (r: Option<nat>)
    ensures r.Some? ==> from <= r.value && MatchAt(s, r.value)
                        && forall j :: from <= j < r.value ==> !MatchAt(s, j)
    ensures r.None? ==> forall j :: from <= j ==> !MatchAt(s, j)
    decreases |s| - from
  {
    if from + 9 > |s| then None
    else if MatchAt(s, from) then Some(from)
    else FirstMatch(s, from + 1)
  }

  /** `parseInt(match[1], 10)`: the signed two-digit hour; "-00" is -0, which behaves as 0 below. */
  function MatchHours(s: string, i: nat): int
    requires MatchAt(s, i)
  {
    var hh := DigitValue(s[i + 4]) * 10 + DigitValue(s[i + 5]);
    if s[i + 3] == '-' then -hh else hh
  }

  /** `parseInt(match[2], 10)`. */
  function MatchMinutes(s: string, i: nat): nat
    requires MatchAt(s, i)
  {
    DigitValue(s[i + 7]) * 10 + DigitValue(s[i + 8])
  }

  /** The offset in hours: `hours + sign * minutes / 60`, where the sign is that of the parsed hour. */
  function OffsetAt(s: string, i: nat): (r: real)
    requires MatchAt(s, i)
    ensures r < 0.0 <==> MatchHours(s, i) < 0
    ensures MatchHours(s, i) < 0 ==> r == -((-MatchHours(s, i)) as real + MatchMinutes(s, i) as real / 60.0)
    ensures MatchHours(s, i) >= 0 ==> r == MatchHours(s, i) as real + MatchMinutes(s, i) as real / 60.0
  {
    var hours := MatchHours(s, i);
    var minutes := MatchMinutes(s, i);
    var sign := if hours < 0 then -1 else 1;
    hours as real + (sign * minutes) as real / 60.0
  }

  /** `getTimezoneOffset` on the formatted string: the first match's offset, or 0 without a match. */
  function GetTimezoneOffset(formatted: string): (r: real)
    ensures -(99.0 + 99.0 / 60.0) <= r <= 99.0 + 99.0 / 60.0
  {
    match FirstMatch(formatted, 0)
    case None => 0.0
    case Some(i) => OffsetAt(formatted, i)
  }

  /** The string `GMT` followed by the sign and two two-digit fields. */
  function GmtText(negative: bool, hh: nat, mm: nat): string
    requires hh < 100 && mm < 100
  {
    "GMT" + [if negative then '-' else '+'] + [DigitChar(hh / 10), DigitChar(hh % 10), ':', DigitChar(mm / 10), DigitChar(mm % 10)]
  }

  /** Behind a prefix without a match, `GMT+HH:MM` yields HH + MM/60 and `GMT-HH:MM` with HH >= 1 yields -(HH + MM/60). */
  lemma OffsetOfFirstMatch(prefix: string, negative: bool, hh: nat, mm: nat, suffix: string)
    requires hh < 100 && mm < 100
    requires forall j :: 0 <= j < |prefix| ==> !MatchAt(prefix + GmtText(negative, hh, mm), j)
    ensures !negative ==> GetTimezoneOffset(prefix + GmtText(negative, hh, mm) + suffix) == hh as real + mm as real / 60.0
    ensures negative && hh >= 1 ==> GetTimezoneOffset(prefix + GmtText(negative, hh, mm) + suffix) == -(hh as real + mm as real / 60.0)
    ensures negative && hh == 0 ==> GetTimezoneOffset(prefix + GmtText(negative, hh, mm) + suffix) == mm as real / 60.0
  {
    var g := GmtText(negative, hh, mm);
    var s := prefix + g + suffix;
    var i := |prefix|;
    assert s[i..i + 9] == g;
    assert MatchAt(s, i);
    forall j | 0 <= j < i ensures !MatchAt(s, j) {
      assert j + 9 <= |prefix + g| ==> s[j..j + 9] == (prefix + g)[j..j + 9];
      if MatchAt(s, j) {
        assert j + 9 <= |prefix + g|;
        assert MatchAt(prefix + g, j);
      }
    }
    assert FirstMatch(s, 0) == Some(i) by {
      FirstMatchIs(s, 0, i);
    }
    assert MatchMinutes(s, i) == mm;
    assert MatchHours(s, i) == if negative then -(hh as int) else hh as int;
  }

  lemma {:induction false} FirstMatchIs(s: string, from: nat, i: nat)
    requires from <= i && MatchAt(s, i) && forall j :: from <= j < i ==> !MatchAt(s, j)
    ensures FirstMatch(s, from) == Some(i)
    decreases i - from
  {
    if from < i {
      FirstMatchIs(s, from + 1, i);
    }
  }

  /** "GMT+05:30" gives 5.5 (India). */
  lemma IndiaOffset()
    ensures GetTimezoneOffset("GMT+05:30") == 5.5
  {
    OffsetOfFirstMatch("", false, 5, 30, "");
    assert "" + GmtText(false, 5, 30) + "" == "GMT+05:30";
  }

  /** A string without any `GMT±dd:dd`, such as a bare "GMT", gives 0. */
  lemma NoMatchGivesZero(formatted: string)
    requires forall j :: 0 <= j ==> !MatchAt(formatted, j)
    ensures GetTimezoneOffset(formatted) == 0.0
  {
  }

  lemma BareGmtGivesZero()
    ensures GetTimezoneOffset("GMT") == 0.0
  {
  }
}
