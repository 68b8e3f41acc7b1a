/** Register values: `processValue`, `formatByType` and `ValidateValue` of
    `internal/registers/reader.go`, in exact arithmetic.

    A processed value is an integer number of tenths, which is all the formats can show. */
module Values {
  import opened Basics
  import opened FrameGrammar

  datatype Kind = IntegerKind | FloatKind

  /** `math.Round(n / d)`: to the nearest integer, halves away from zero. */
  function Round(n: int, d: int): int
    requires d > 0
  {
    if n >= 0 then (2 * n + d) / (2 * d) else -((-2 * n + d) / (2 * d))
  }

  /** n / d rounded to what the format shows, in tenths. */
  function Tenths(n: int, d: int, kind: Kind): int
    requires d > 0
  {
    if kind.FloatKind? then Round(10 * n, d) else 10 * Round(n, d)
  }

  function DigitChar(n: nat): char
    requires n < 10
  {
    '0' + n as char
  }

  function Digits(n: nat): string {
    if n < 10 then [DigitChar(n)] else Digits(n / 10) + [DigitChar(n % 10)]
  }

  /** `%.1f` or `%.0f` of a rounded value. */
  function Render(tenths: int, kind: Kind): string {
    var whole := (if tenths < 0 then "-" else "") + Digits(Abs(tenths) / 10);
    if kind.FloatKind? then whole + "." + [DigitChar(Abs(tenths) % 10)] else whole
  }

  /** `formatByType(n / d, kind)`. */
  function FormatByType(n: int, d: int, kind: Kind): string
    requires d > 0
  {
    Render(Tenths(n, d, kind), kind)
  }

  function DigitsValue(s: string): nat
    requires AllDigits(s)
  {
    if s == "" then 0 else 10 * DigitsValue(s[..|s| - 1]) + (s[|s| - 1] - '0') as int
  }

  /** A whole number as the unit reports it. */
  function ParseInteger(s: string): Option<int> {
    if !IsInteger(s) then None
    else if s[0] == '-' then Some(0 - DigitsValue(s[1..]) as int)
    else Some(DigitsValue(s))
  }

  /** Unsigned text with at most one decimal, in tenths. */
  function ParseUnsigned(s: string): Option<nat> {
    var n := |s|;
    if n >= 3 && s[n - 2] == '.' && AllDigits(s[..n - 2]) && Digit(s[n - 1]) then
      Some(10 * DigitsValue(s[..n - 2]) + (s[n - 1] - '0') as int)
    else if n > 0 && AllDigits(s) then Some(10 * DigitsValue(s))
    else None
  }

  /** `ParseFloat` on formatted text, in tenths. */
  function ParseText(s: string): Option<int> {
    if s != "" && s[0] == '-' then
      match ParseUnsigned(s[1..])
      case Some(t) => Some(0 - t as int)
      case None => None
    else
      match ParseUnsigned(s)
      case Some(t) => Some(t)
      case None => None
  }

  // ---- format then parse -----------------------------------------------------------

  lemma {:induction false} DigitsRoundTrip(n: nat)
    ensures Digits(n) != "" && AllDigits(Digits(n)) && DigitsValue(Digits(n)) == n
  {
    if n >= 10 {
      DigitsRoundTrip(n / 10);
      var s := Digits(n);
      assert s[..|s| - 1] == Digits(n / 10);
    } else {
      assert Digits(n)[..0] == "";
      assert DigitsValue("") == 0;
    }
  }

  /** Printing a whole number and reading it as the unit does is the identity. */
  lemma IntegerRoundTrip(n: int)
    ensures ParseInteger(Render(10 * n, IntegerKind)) == Some(n)
  {
    DigitsRoundTrip(Abs(n));
    var digits := Digits(Abs(n));
    assert Digit(digits[0]) && Abs(10 * n) / 10 == Abs(n);
    assert digits[0] != '-';
    if n < 0 {
      var s := "-" + digits;
      assert Render(10 * n, IntegerKind) == s && s[1..] == digits;
    } else {
      assert Render(10 * n, IntegerKind) == digits;
    }
  }

  /** A value that its format can show exactly. */
  predicate Shown(tenths: int, kind: Kind) { kind.FloatKind? || tenths % 10 == 0 }

  lemma UnsignedRoundTrip(whole: nat, tenth: nat, kind: Kind)
    requires tenth < 10 && (kind.IntegerKind? ==> tenth == 0)
    ensures var s := if kind.FloatKind? then Digits(whole) + "." + [DigitChar(tenth)] else Digits(whole);
      ParseUnsigned(s) == Some(10 * whole + tenth) && s[0] != '-'
  {
    DigitsRoundTrip(whole);
    var d := Digits(whole);
    if kind.FloatKind? {
      var s := d + "." + [DigitChar(tenth)];
      assert s[..|s| - 2] == d && s[|s| - 2] == '.' && s[|s| - 1] == DigitChar(tenth);
    } else {
      if |d| >= 3 {
        assert Digit(d[|d| - 2]);
      }
    }
    assert Digit(d[0]);
  }

  /** Formatting then parsing is the identity on rounded values. */
  lemma FormatThenParse(tenths: int, kind: Kind)
    requires Shown(tenths, kind)
    ensures ParseText(Render(tenths, kind)) == Some(tenths)
  {
    var whole, tenth := Abs(tenths) / 10, Abs(tenths) % 10;
    UnsignedRoundTrip(whole, tenth, kind);
    var unsigned := if kind.FloatKind? then Digits(whole) + "." + [DigitChar(tenth)] else Digits(whole);
    hide Digits, ParseUnsigned;
    if tenths < 0 {
      assert Render(tenths, kind) == "-" + unsigned;
      assert ("-" + unsigned)[1..] == unsigned;
    } else {
      assert Render(tenths, kind) == unsigned;
    }
  }

  lemma RoundedIsShown(n: int, d: int, kind: Kind)
    requires d > 0
    ensures Shown(Tenths(n, d, kind), kind)
  {
  }

  /** Two rounded values read the same only if they are the same. */
  lemma SameTextSameValue(a: int, b: int, kind: Kind)
    requires Shown(a, kind) && Shown(b, kind)
    ensures Render(a, kind) == Render(b, kind) <==> a == b
  {
    FormatThenParse(a, kind);
    FormatThenParse(b, kind);
  }

  /** There is no negative zero: a minus sign is printed for values below zero and no other. */
  lemma NoNegativeZero(n: int, d: int, kind: Kind)
    requires d > 0
    ensures FormatByType(n, d, kind) != "" && (FormatByType(n, d, kind)[0] == '-' <==> Tenths(n, d, kind) < 0)
    ensures Tenths(n, d, kind) == 0 ==> FormatByType(n, d, kind) == if kind.FloatKind? then "0.0" else "0"
  {
    var t := Tenths(n, d, kind);
    UnsignedRoundTrip(Abs(t) / 10, Abs(t) % 10, kind);
    DigitsRoundTrip(Abs(t) / 10);
    assert Digit(Digits(Abs(t) / 10)[0]);
  }

  // ---- writing and reading back ----------------------------------------------------

  lemma MulKeepsOrder(b: int, x: int, y: int)
    requires b > 0
    ensures x <= y ==> b * x <= b * y
  {
  }

  lemma QuotientIs(a: int, b: int, k: int)
    requires b > 0
    ensures a / b == k <==> b * k <= a < b * k + b
  {
    var q := a / b;
    assert b * q <= a < b * q + b;
    MulKeepsOrder(b, q + 1, k);
    MulKeepsOrder(b, k + 1, q);
    assert b * (q + 1) == b * q + b && b * (k + 1) == b * k + b;
  }

  /** n lies in the interval of length d around k * d that rounds to k: the end away from zero
      is outside, the end towards zero inside. */
  predicate RoundsTo(n: int, d: int, k: int) {
    var middle := 2 * (k * d);
    if k > 0 then middle - d <= 2 * n < middle + d
    else if k < 0 then middle - d < 2 * n <= middle + d
    else -d < 2 * n < d
  }

  lemma MulSigns(k: int, d: int)
    requires d > 0
    ensures k > 0 ==> k * d >= d
    ensures k < 0 ==> k * d <= -d
    ensures k == 0 ==> k * d == 0
    ensures 2 * d * k == 2 * (k * d) && 2 * d * -k == -2 * (k * d)
  {
    MulKeepsOrder(d, 1, k);
    MulKeepsOrder(d, k, -1);
  }

  lemma RoundIs(n: int, d: int, k: int)
    requires d > 0
    ensures Round(n, d) == k <==> RoundsTo(n, d, k)
  {
    MulSigns(k, d);
    var p := k * d;
    if n >= 0 {
      QuotientIs(2 * n + d, 2 * d, k);
      assert Round(n, d) == k <==> 2 * p <= 2 * n + d < 2 * p + 2 * d;
    } else {
      QuotientIs(-2 * n + d, 2 * d, -k);
      assert Round(n, d) == k <==> -2 * p <= -2 * n + d < -2 * p + 2 * d;
    }
  }

  /** The raw value in units of 1/d and the commanded value v are printed the same, if and
      only if raw/d rounds to v at the last printed place. */
  predicate ReadsBackAs(raw: int, d: int, kind: Kind, v: int) {
    if kind.FloatKind? then RoundsTo(10 * raw, d, 10 * v) else RoundsTo(raw, d, v)
  }

  lemma ReadBackAgreement(raw: int, d: int, kind: Kind, v: int)
    requires d > 0
    ensures FormatByType(raw, d, kind) == FormatByType(v, 1, kind) <==> ReadsBackAs(raw, d, kind, v)
  {
    var t, u := Tenths(raw, d, kind), Tenths(v, 1, kind);
    RoundedIsShown(raw, d, kind);
    RoundedIsShown(v, 1, kind);
    SameTextSameValue(t, u, kind);
    RoundIs(v, 1, v);
    RoundIs(10 * v, 1, 10 * v);
    RoundIs(10 * raw, d, 10 * v);
    RoundIs(raw, d, v);
  }

  lemma ExactRoundsTo(v: int, d: int)
    requires d > 0
    ensures RoundsTo(v * d, d, v)
  {
  }

  lemma HeldReadsBack(v: int, d: int, kind: Kind)
    requires d > 0
    ensures ReadsBackAs(v * d, d, kind, v)
  {
    ExactRoundsTo(v, d);
    ExactRoundsTo(10 * v, d);
    TenTimes(v, d);
  }

  lemma TenTimes(v: int, d: int)
    ensures 10 * v * d == 10 * (v * d)
  {
  }

  /** A unit that holds exactly what was commanded reads back as commanded. */
  lemma HeldValueIsConfirmed(v: int, d: int, kind: Kind)
    requires d > 0
    ensures FormatByType(v * d, d, kind) == FormatByType(v, 1, kind)
  {
    HeldReadsBack(v, d, kind);
    ReadBackAgreement(v * d, d, kind, v);
  }

  /** Within half of the last printed place: a tenth, or one. */
  predicate WithinHalf(raw: int, d: int, kind: Kind, v: int) {
    if kind.FloatKind? then 20 * Abs(raw - v * d) <= d else 2 * Abs(raw - v * d) <= d
  }

  lemma ReadsBackIsClose(raw: int, d: int, kind: Kind, v: int)
    requires d > 0 && ReadsBackAs(raw, d, kind, v)
    ensures WithinHalf(raw, d, kind, v)
  {
    TenTimes(v, d);
  }

  /** A confirmed write is true to within half of the last printed place. */
  lemma ConfirmedIsClose(raw: int, d: int, kind: Kind, v: int)
    requires d > 0 && FormatByType(raw, d, kind) == FormatByType(v, 1, kind)
    ensures WithinHalf(raw, d, kind, v)
  {
    ReadBackAgreement(raw, d, kind, v);
    ReadsBackIsClose(raw, d, kind, v);
  }
}
