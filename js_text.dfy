/**
 * The JavaScript string operations the app relies on: `split` on one
 * character, the `Number(...)` conversion of a string, `String(n)` for a
 * non-negative integer and `padStart(2, '0')`.
 */
module JsText {
  import opened JsMath

  predicate IsDigit(c: char) { '0' <= c <= '9' }

  predicate AllDigits(s: string) { forall i :: 0 <= i < |s| ==> IsDigit(s[i]) }

  function DigitValue(c: char): nat
    requires IsDigit(c)
  {
    c as int - '0' as int
  }

  function DigitChar(d: nat): (c: char)
    requires d < 10
    ensures IsDigit(c) && DigitValue(c) == d
  {
    ('0' as int + d) as char
  }

  /** The value of a string of decimal digits, read left to right; leading zeros are allowed. */
  function DigitsValue(s: string): nat
    requires AllDigits(s)
  {
    if s == [] then 0 else DigitsValue(s[..|s| - 1]) * 10 + DigitValue(s[|s| - 1])
  }

  /** The value of the digits after a decimal point: 0.d1d2d3... */
  function FractionValue(s: string): (r: real)
    requires AllDigits(s)
    ensures 0.0 <= r <= 1.0
  {
    if s == [] then 0.0 else (DigitValue(s[0]) as real + FractionValue(s[1..])) / 10.0
  }

  /** `String(n)` for a non-negative integer: its shortest decimal digit string. */
  function DecimalString(n: nat): (s: string)
    ensures 1 <= |s| && AllDigits(s)
    ensures DigitsValue(s) == n
    ensures s[0] == '0' ==> n == 0
  {
    if n < 10 then [DigitChar(n)]
    else
      var init := DecimalString(n / 10);
      var s := init + [DigitChar(n % 10)];
      assert s[..|s| - 1] == init;
      s
  }

  function Zeros(k: nat): (z: string)
    ensures |z| == k && forall i :: 0 <= i < k ==> z[i] == '0'
  {
    if k == 0 then [] else Zeros(k - 1) + ['0']
  }

  /** `s.padStart(2, '0')`: zeros are prepended until the string has at least two characters. */
  function PadStart2(s: string): (r: string)
    ensures |s| >= 2 ==> r == s
    ensures |s| < 2 ==> |r| == 2
    ensures exists k: nat :: r == Zeros(k) + s
  {
    if |s| >= 2 then
      assert s == Zeros(0) + s;
      s
    else
      Zeros(2 - |s|) + s
  }

  /** Leading zeros do not change the value of a digit string. */
  lemma {:induction false} LeadingZerosValue(k: nat, s: string)
    requires AllDigits(s)
    ensures AllDigits(Zeros(k) + s)
    ensures DigitsValue(Zeros(k) + s) == DigitsValue(s)
  {
    var t := Zeros(k) + s;
    if s == [] {
      assert t == Zeros(k);
      ZerosValue(k);
    } else {
      var init := s[..|s| - 1];
      LeadingZerosValue(k, init);
      assert t[..|t| - 1] == Zeros(k) + init;
    }
  }

  lemma {:induction false} ZerosValue(k: nat)
    ensures AllDigits(Zeros(k)) && DigitsValue(Zeros(k)) == 0
  {
    if k > 0 {
      ZerosValue(k - 1);
      assert Zeros(k)[..k - 1] == Zeros(k - 1);
    }
  }

  /** The digit string `String(n).padStart(2, '0')` still has the value `n`. */
  lemma PaddedDecimalValue(n: nat)
    ensures AllDigits(PadStart2(DecimalString(n)))
    ensures DigitsValue(PadStart2(DecimalString(n))) == n
  {
    var s := DecimalString(n);
    var k: nat :| PadStart2(s) == Zeros(k) + s;
    LeadingZerosValue(k, s);
  }

  // ---------------------------------------------------------------------
  // split and join

  /** `parts.join(sep)`. */
  function Join(parts: seq<string>, sep: char): string
  {
    if parts == [] then ""
    else if |parts| == 1 then parts[0]
    else parts[0] + [sep] + Join(parts[1..], sep)
  }

  /** `s.split(sep)` for a one-character separator: the pieces between separators, always at least one. */
  function Split(s: string, sep: char): (parts: seq<string>)
    ensures |parts| >= 1
    decreases |s|
  {
    if s == [] then [""]
    else if s[0] == sep then [""] + Split(s[1..], sep)
    else
      var rest := Split(s[1..], sep);
      [[s[0]] + rest[0]] + rest[1..]
  }

  /** No piece holds the separator, and joining the pieces gives the string back. */
  lemma {:induction false} JoinSplit(s: string, sep: char)
    ensures forall i :: 0 <= i < |Split(s, sep)| ==> sep !in Split(s, sep)[i]
    ensures Join(Split(s, sep), sep) == s
    decreases |s|
  {
    if s != [] {
      JoinSplit(s[1..], sep);
      var rest := Split(s[1..], sep);
      if s[0] == sep {
        assert Split(s, sep) == [""] + rest;
        assert s == [] + [sep] + s[1..];
      } else {
        var parts := [[s[0]] + rest[0]] + rest[1..];
        assert Split(s, sep) == parts;
        assert parts[1..] == rest[1..];
        if |rest| == 1 {
          assert s == [s[0]] + rest[0];
        } else {
          assert Join(rest, sep) == rest[0] + [sep] + Join(rest[1..], sep);
          assert s == [s[0]] + s[1..];
        }
        forall i | 0 <= i < |parts| ensures sep !in parts[i] {
          if i > 0 { assert parts[i] == rest[i]; }
        }
      }
    }
  }

  /** Splitting a join of separator-free pieces gives the pieces back. */
  lemma {:induction false} SplitJoin(parts: seq<string>, sep: char)
    requires |parts| >= 1
    requires forall i :: 0 <= i < |parts| ==> sep !in parts[i]
    ensures Split(Join(parts, sep), sep) == parts
  {
    if |parts| == 1 {
      SplitFree(parts[0], [], sep);
      assert parts[0] + [] == parts[0];
    } else {
      SplitJoin(parts[1..], sep);
      var tail := Join(parts[1..], sep);
      assert Split([sep] + tail, sep) == [""] + parts[1..] by {
        assert ([sep] + tail)[1..] == tail;
      }
      SplitFree(parts[0], [sep] + tail, sep);
      assert parts[0] + [sep] + tail == parts[0] + ([sep] + tail);
      var st := Split([sep] + tail, sep);
      assert st[0] == "" && st[1..] == parts[1..];
      assert parts[0] + st[0] == parts[0];
      assert [parts[0]] + parts[1..] == parts;
    }
  }

  /** A separator-free prefix is glued to the first piece of what follows. */
  lemma {:induction false} SplitFree(a: string, t: string, sep: char)
    requires sep !in a
    ensures Split(a + t, sep) == [a + Split(t, sep)[0]] + Split(t, sep)[1..]
    decreases |a|
  {
    if a != [] {
      SplitFree(a[1..], t, sep);
      assert (a + t)[1..] == a[1..] + t;
      assert [a[0]] + (a[1..] + Split(t, sep)[0]) == a + Split(t, sep)[0];
    } else {
      assert a + t == t;
      assert a + Split(t, sep)[0] == Split(t, sep)[0];
      assert Split(t, sep) == [Split(t, sep)[0]] + Split(t, sep)[1..];
    }
  }

  /** Splitting at a separator placed between two strings splits each of them. */
  lemma {:induction false} SplitAppend(a: string, b: string, sep: char)
    ensures Split(a + [sep] + b, sep) == Split(a, sep) + Split(b, sep)
    decreases |a|
  {
    if a == [] {
      SplitCons(sep, b, sep);
      assert a + [sep] + b == [sep] + b;
    } else {
      SplitAppend(a[1..], b, sep);
      assert a + [sep] + b == [a[0]] + (a[1..] + [sep] + b);
      assert a == [a[0]] + a[1..];
      SplitCons(a[0], a[1..] + [sep] + b, sep);
      SplitCons(a[0], a[1..], sep);
      SplitPrefixJoin(a[0], Split(a[1..], sep), Split(b, sep), sep);
    }
  }

  lemma SplitCons(c: char, t: string, sep: char)
    ensures Split([c] + t, sep) ==
              if c == sep then [""] + Split(t, sep) else [[c] + Split(t, sep)[0]] + Split(t, sep)[1..]
  {
    assert ([c] + t)[1..] == t;
  }

  lemma SplitPrefixJoin(c: char, ra: seq<string>, sb: seq<string>, sep: char)
    requires |ra| >= 1
    ensures (if c == sep then [""] + (ra + sb) else [[c] + (ra + sb)[0]] + (ra + sb)[1..])
         == (if c == sep then [""] + ra else [[c] + ra[0]] + ra[1..]) + sb
  {
    if c != sep {
      assert (ra + sb)[0] == ra[0];
      assert (ra + sb)[1..] == ra[1..] + sb;
    }
  }

  // ---------------------------------------------------------------------
  // Number(string)

  /** The ECMAScript WhiteSpace and LineTerminator characters that `Number` trims. */
  predicate IsJsSpace(c: char)
  {
    c == '\t' || c == '\n' || c == '\U{000B}' || c == '\U{000C}' || c == '\r' || c == ' '
    || c == '\U{00A0}' || c == '\U{1680}' || ('\U{2000}' <= c <= '\U{200A}')
    || c == '\U{2028}' || c == '\U{2029}' || c == '\U{202F}' || c == '\U{205F}'
    || c == '\U{3000}' || c == '\U{FEFF}'
  }

  function TrimStart(s: string): (t: string)
    ensures |t| <= |s|
    ensures t == s[|s| - |t|..]
    ensures t != [] ==> !IsJsSpace(t[0])
  {
    if s != [] && IsJsSpace(s[0]) then TrimStart(s[1..]) else s
  }

  function TrimEnd(s: string): (t: string)
    ensures |t| <= |s| && t == s[..|t|]
    ensures t != [] ==> !IsJsSpace(t[|t| - 1])
  {
    if s != [] && IsJsSpace(s[|s| - 1]) then TrimEnd(s[..|s| - 1]) else s
  }

  function IndexOf(s: string, c: char): (i: nat)
    requires c in s
    ensures i < |s| && s[i] == c && c !in s[..i]
  {
    if s[0] == c then 0 else 1 + IndexOf(s[1..], c)
  }

  /** An unsigned decimal literal: digits, optionally with one '.', and at least one digit. */
  function UnsignedDecimal(u: string): Num
  {
    if '.' in u then
      var i := IndexOf(u, '.');
      var whole, frac := u[..i], u[i + 1..];
      if AllDigits(whole) && AllDigits(frac) && |whole| + |frac| > 0 then
        Fin(DigitsValue(whole) as real + FractionValue(frac))
      else NaN
    else if u != [] && AllDigits(u) then Fin(DigitsValue(u) as real)
    else NaN
  }

  function Negate(x: Num): Num
  {
    match x
    case NaN => NaN
    case Fin(v) => Fin(-v)
  }

  /**
   * `Number(s)`: surrounding white space is ignored, an empty or blank
   * string is 0, an optional sign precedes a decimal literal; anything
   * else is NaN.
   */
  function Number(s: string): Num
  {
    var t := TrimEnd(TrimStart(s));
    if t == [] then Fin(0.0)
    else if t[0] == '-' then Negate(UnsignedDecimal(t[1..]))
    else if t[0] == '+' then UnsignedDecimal(t[1..])
    else UnsignedDecimal(t)
  }

  /** A non-empty digit string converts to its value. */
  lemma NumberOfDigits(s: string)
    requires s != [] && AllDigits(s)
    ensures Number(s) == Fin(DigitsValue(s) as real)
  {
    assert !IsJsSpace(s[0]) && !IsJsSpace(s[|s| - 1]);
    assert TrimStart(s) == s;
    assert TrimEnd(s) == s;
    assert forall i :: 0 <= i < |s| ==> s[i] != '.';
  }

  /** A sign in front of a digit string: `-` negates the value, `+` keeps it. */
  lemma NumberSigned(s: string)
    requires s != [] && AllDigits(s)
    ensures Number("-" + s) == Fin(-(DigitsValue(s) as real))
    ensures Number("+" + s) == Fin(DigitsValue(s) as real)
  {
    assert IsDigit(s[|s| - 1]);
    MinusDigits(s);
    PlusDigits(s);
    UnsignedDigits(s);
    NegateFin(DigitsValue(s) as real);
  }

  lemma NegateFin(v: real)
    ensures Negate(Fin(v)) == Fin(-v)
  {
  }

  lemma MinusDigits(s: string)
    requires s != [] && !IsJsSpace(s[|s| - 1])
    ensures Number("-" + s) == Negate(UnsignedDecimal(s))
  {
    var t := "-" + s;
    assert t[1..] == s && t[|t| - 1] == s[|s| - 1];
    SignedText(t);
  }

  lemma PlusDigits(s: string)
    requires s != [] && !IsJsSpace(s[|s| - 1])
    ensures Number("+" + s) == UnsignedDecimal(s)
  {
    var t := "+" + s;
    assert t[1..] == s && t[|t| - 1] == s[|s| - 1];
    SignedText(t);
  }

  /** Text that starts with a sign and does not end in blank is read as the signed rest. */
  lemma SignedText(t: string)
    requires |t| >= 2 && (t[0] == '-' || t[0] == '+') && !IsJsSpace(t[|t| - 1])
    ensures Number(t) == if t[0] == '-' then Negate(UnsignedDecimal(t[1..])) else UnsignedDecimal(t[1..])
  {
    Untrimmed(t);
  }

  /** Without a sign, a non-empty digit string is read as its decimal value. */
  lemma UnsignedDigits(s: string)
    requires s != [] && AllDigits(s)
    ensures UnsignedDecimal(s) == Fin(DigitsValue(s) as real)
  {
    NumberOfDigits(s);
    assert IsDigit(s[0]) && IsDigit(s[|s| - 1]);
    Untrimmed(s);
  }

  /** Text that neither starts nor ends with blank is left alone by trimming. */
  lemma Untrimmed(t: string)
    requires t != [] && !IsJsSpace(t[0]) && !IsJsSpace(t[|t| - 1])
    ensures TrimEnd(TrimStart(t)) == t
  {
    assert TrimStart(t) == t;
  }

  /** Text that starts with anything but blank, a sign, a digit or a point is not a number. */
  lemma NumberOfStray(s: string)
    requires s != [] && !IsJsSpace(s[0]) && !IsDigit(s[0]) && s[0] != '+' && s[0] != '-' && s[0] != '.'
    ensures Number(s).NaN?
  {
    assert TrimStart(s) == s;
    TrimEndKeepsFirst(s);
    var t := TrimEnd(s);
    assert t[0] == s[0];
    if '.' in t {
      var i := IndexOf(t, '.');
      assert i > 0;
      assert t[..i][0] == s[0];
    }
  }

  lemma {:induction false} TrimEndKeepsFirst(s: string)
    requires s != [] && !IsJsSpace(s[0])
    ensures TrimEnd(s) != []
    decreases |s|
  {
    if IsJsSpace(s[|s| - 1]) {
      assert |s| > 1;
      TrimEndKeepsFirst(s[..|s| - 1]);
    }
  }

  /** Empty or all-blank text reads as 0. */
  lemma {:induction false} NumberOfBlank(s: string)
    requires forall i :: 0 <= i < |s| ==> IsJsSpace(s[i])
    ensures Number(s) == Fin(0.0)
  {
    BlankTrimsAway(s);
  }

  lemma {:induction false} BlankTrimsAway(s: string)
    requires forall i :: 0 <= i < |s| ==> IsJsSpace(s[i])
    ensures TrimStart(s) == []
    decreases |s|
  {
    if s != [] {
      BlankTrimsAway(s[1..]);
    }
  }
}
