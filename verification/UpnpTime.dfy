/** Track times as text, "H:MM:SS": printed with "%d:%02d:%02d" and read back with
    the same format, in which the two digits limit what is read. */
module UpnpTime {
  import opened Options

  // ---- C integer division: truncates toward zero ----

  function Quotient(a: int, b: int): int
    requires b > 0
  {
    if a >= 0 then a / b else -((-a) / b)
  }

  function Remainder(a: int, b: int): int
    requires b > 0
  {
    a - b * Quotient(a, b)
  }

  // ---- printf ----

  function Digit(d: nat): char
    requires d < 10
  {
    ('0' as int + d) as char
  }

  function Digits(n: nat): string {
    if n < 10 then [Digit(n)] else Digits(n / 10) + [Digit(n % 10)]
  }

  /** "%d" */
  function Decimal(n: int): string {
    if n < 0 then "-" + Digits(-n) else Digits(n)
  }

  /** "%02d": filled up with zeros to two characters, a sign counting as one */
  function Padded(n: int): string {
    if 0 <= n < 10 then "0" + Decimal(n) else Decimal(n)
  }

  function Hours(t: int): int {
    Quotient(t, 3600)
  }

  function Minutes(t: int): int {
    Quotient(Remainder(t, 3600), 60)
  }

  function Seconds(t: int): int {
    Remainder(Remainder(t, 3600), 60)
  }

  function Print(t: int): string {
    Decimal(Hours(t)) + ":" + Padded(Minutes(t)) + ":" + Padded(Seconds(t))
  }

  class IntCell {
    var value: int

    constructor (value: int)
      ensures this.value == value
    {
      this.value := value;
    }
  }

  method DivideLeaveRemainder(val: IntCell, divisor: int) returns (result: int)
    requires divisor > 0
    modifies val
    ensures result == Quotient(old(val.value), divisor)
    ensures val.value == Remainder(old(val.value), divisor)
    ensures old(val.value) == result * divisor + val.value
    ensures old(val.value) >= 0 ==> 0 <= val.value < divisor
    ensures old(val.value) <= 0 ==> 0 - divisor < val.value <= 0
  {
    result := Quotient(val.value, divisor);
    val.value := Remainder(val.value, divisor);
  }

  method PrintUpnpTime(t: int) returns (result: string)
    ensures result == Print(t)
  {
    var rest := new IntCell(t);
    var hour := DivideLeaveRemainder(rest, 3600);
    var minute := DivideLeaveRemainder(rest, 60);
    var second := DivideLeaveRemainder(rest, 1);
    result := Decimal(hour) + ":" + Padded(minute) + ":" + Padded(second);
  }

  // ---- sscanf ----

  predicate IsDigit(c: char) {
    '0' <= c <= '9'
  }

  predicate IsSpace(c: char) {
    c == ' ' || '\t' <= c <= '\r'
  }

  function SkipSpace(s: string): string {
    if s != [] && IsSpace(s[0]) then SkipSpace(s[1..]) else s
  }

  /** How many of the first `width` characters are digits, up to the first that is not. */
  function CountDigits(s: string, width: nat): (n: nat)
    ensures n <= |s| && n <= width
    ensures forall i :: 0 <= i < n ==> IsDigit(s[i])
  {
    if width == 0 || s == [] || !IsDigit(s[0]) then 0 else 1 + CountDigits(s[1..], width - 1)
  }

  function DigitValue(c: char): nat
    requires IsDigit(c)
  {
    c as int - '0' as int
  }

  function Value(digits: string): nat
    requires forall i :: 0 <= i < |digits| ==> IsDigit(digits[i])
  {
    if digits == [] then 0
    else 10 * Value(digits[..|digits| - 1]) + DigitValue(digits[|digits| - 1])
  }

  datatype Scanned = Scanned(value: int, rest: string)

  function ScanDigits(s: string, width: nat, negative: bool): Option<Scanned> {
    var n := CountDigits(s, width);
    if n == 0 then None
    else
      var v: int := Value(s[..n]);
      Some(Scanned(if negative then -v else v, s[n..]))
  }

  /** "%d" limited to `width` characters after leading white space */
  function ScanInt(s: string, width: nat): Option<Scanned> {
    var t := SkipSpace(s);
    if t != [] && width > 0 && (t[0] == '-' || t[0] == '+') then ScanDigits(t[1..], width - 1, t[0] == '-')
    else ScanDigits(t, width, false)
  }

  /** ":" and then a number of at most two characters; nothing counts as 0 and
      leaves nothing to read */
  function ScanField(s: string): Scanned {
    if s == [] || s[0] != ':' then Scanned(0, [])
    else
      match ScanInt(s[1..], 2)
      case Some(r) => r
      case None => Scanned(0, [])
  }

  /** Stops at the first part that does not match; what was not read is 0. */
  function Parse(text: string): int {
    match ScanInt(text, |text|)
    case None => 0
    case Some(hour) =>
      var minute := ScanField(hour.rest);
      var second := ScanField(minute.rest);
      hour.value * 3600 + minute.value * 60 + second.value
  }

  // ---- Reading what was printed ----

  predicate AllDigits(s: string) {
    forall i :: 0 <= i < |s| ==> IsDigit(s[i])
  }

  lemma {:induction false} DigitsValue(n: nat)
    ensures Digits(n) != [] && AllDigits(Digits(n)) && Value(Digits(n)) == n
    ensures n >= 10 ==> |Digits(n)| >= 2
    decreases n
  {
    if n >= 10 {
      DigitsValue(n / 10);
      var d := Digits(n);
      assert d[..|d| - 1] == Digits(n / 10);
    } else {
      assert Digits(n)[..0] == [];
    }
  }

  /** A run of digits ends where the width does, or where something else follows. */
  predicate RunEnds(d: string, rest: string, width: nat) {
    |d| == width || (|d| < width && (rest == [] || !IsDigit(rest[0])))
  }

  lemma {:induction false} CountAllDigits(d: string, rest: string, width: nat)
    requires AllDigits(d) && RunEnds(d, rest, width)
    ensures CountDigits(d + rest, width) == |d|
    decreases |d|
  {
    if d == [] {
      assert d + rest == rest;
    } else {
      assert (d + rest)[1..] == d[1..] + rest;
      CountAllDigits(d[1..], rest, width - 1);
    }
  }

  lemma ScanAllDigits(d: string, rest: string, width: nat, negative: bool)
    requires AllDigits(d) && d != [] && RunEnds(d, rest, width)
    ensures ScanDigits(d + rest, width, negative) == Some(Scanned(if negative then 0 - Value(d) else Value(d), rest))
  {
    CountAllDigits(d, rest, width);
    assert (d + rest)[..|d|] == d && (d + rest)[|d|..] == rest;
  }

  lemma ScanUnsigned(d: string, rest: string, width: nat)
    requires AllDigits(d) && d != [] && RunEnds(d, rest, width)
    ensures ScanInt(d + rest, width) == Some(Scanned(Value(d), rest))
  {
    assert (d + rest)[0] == d[0] && IsDigit(d[0]);
    ScanAllDigits(d, rest, width, false);
  }

  lemma ScanSigned(d: string, rest: string, width: nat)
    requires AllDigits(d) && d != [] && width > 0 && RunEnds(d, rest, width - 1)
    ensures ScanInt("-" + d + rest, width) == Some(Scanned(0 - Value(d), rest))
  {
    var text := "-" + d + rest;
    assert text[0] == '-' && text[1..] == d + rest;
    ScanAllDigits(d, rest, width - 1, true);
  }

  lemma ScanNatural(n: nat, zeros: string, rest: string, width: nat)
    requires zeros == "" || zeros == "0"
    requires rest == [] || !IsDigit(rest[0])
    requires |zeros + Digits(n)| <= width
    ensures ScanInt(zeros + Digits(n) + rest, width) == Some(Scanned(n, rest))
  {
    DigitsValue(n);
    ZeroInFront(Digits(n), zeros);
    ScanUnsigned(zeros + Digits(n), rest, width);
  }

  lemma ZeroInFront(d: string, zeros: string)
    requires AllDigits(d) && d != [] && (zeros == "" || zeros == "0")
    ensures AllDigits(zeros + d) && Value(zeros + d) == Value(d)
    decreases |d|
  {
    if zeros == "" {
      assert zeros + d == d;
    } else {
      var z := zeros + d;
      assert z[..|z| - 1] == zeros + d[..|d| - 1];
      if |d| > 1 {
        ZeroInFront(d[..|d| - 1], zeros);
      } else {
        assert d[..0] == [] && z[..1] == "0" && "0"[..0] == [];
        assert Value("0") == 0;
      }
    }
  }

  lemma ScanFieldPrinted(n: int, rest: string)
    requires -10 < n < 60 && (rest == [] || !IsDigit(rest[0]))
    ensures ScanField(":" + Padded(n) + rest) == Scanned(n, rest)
  {
    var text := ":" + Padded(n) + rest;
    TwoDigits(n);
    if n < 0 {
      DigitsValue(-n);
      assert text[1..] == "-" + Digits(-n) + rest;
      ScanSigned(Digits(-n), rest, 2);
    } else {
      var zeros := if n < 10 then "0" else "";
      assert text[1..] == zeros + Digits(n) + rest;
      ScanNatural(n, zeros, rest, 2);
    }
  }

  lemma TwoDigits(n: int)
    requires -100 < n < 100
    ensures 0 <= n < 10 ==> |Decimal(n)| == 1
    ensures -10 < n < 0 || 10 <= n ==> |Decimal(n)| == 2
    ensures n <= -10 ==> Decimal(n) == ['-', Digit(-n / 10), Digit(-n % 10)]
  {
    var k := if n < 0 then -n else n;
    if k >= 10 {
      assert Digits(k) == Digits(k / 10) + [Digit(k % 10)] && Digits(k / 10) == [Digit(k / 10)];
    }
  }

  lemma DigitIsValue(d: nat)
    requires d < 10
    ensures AllDigits([Digit(d)]) && Value([Digit(d)]) == d
  {
  }

  lemma ScanSignAndDigit(d: nat, e: char, rest: string)
    requires d < 10
    ensures ScanField(":" + ['-', Digit(d), e] + rest) == Scanned(0 - d, [e] + rest)
  {
    var text := ":" + ['-', Digit(d), e] + rest;
    assert text[1..] == "-" + [Digit(d)] + ([e] + rest);
    DigitIsValue(d);
    ScanSigned([Digit(d)], [e] + rest, 2);
  }

  /** Of a negative number of two digits only the sign and the first digit are read. */
  lemma ScanFieldCutsNegative(n: int, rest: string)
    requires -60 < n <= -10
    ensures ScanField(":" + Padded(n) + rest) == Scanned(-(-n / 10), [Digit(-n % 10)] + rest)
  {
    TwoDigits(n);
    ScanSignAndDigit(-n / 10, Digit(-n % 10), rest);
  }

  lemma Parts(t: int)
    ensures t == Hours(t) * 3600 + Minutes(t) * 60 + Seconds(t)
    ensures -60 < Minutes(t) < 60 && -60 < Seconds(t) < 60
    ensures t >= 0 ==> Minutes(t) >= 0 && Seconds(t) >= 0
    ensures t < 0 ==> Minutes(t) == -((-t) % 3600 / 60) && Seconds(t) == -((-t) % 60)
  {
  }

  lemma ScanHours(h: int, rest: string, width: nat)
    requires (rest == [] || !IsDigit(rest[0])) && |Decimal(h)| <= width
    ensures ScanInt(Decimal(h) + rest, width) == Some(Scanned(h, rest))
  {
    if h < 0 {
      DigitsValue(-h);
      ScanSigned(Digits(-h), rest, width);
    } else {
      assert "" + Digits(h) == Digits(h);
      ScanNatural(h, "", rest, width);
    }
  }

  lemma ParseFromHours(t: int)
    ensures var minute := ScanField(":" + Padded(Minutes(t)) + (":" + Padded(Seconds(t))));
            Parse(Print(t)) == Hours(t) * 3600 + minute.value * 60 + ScanField(minute.rest).value
  {
    var rest := ":" + Padded(Minutes(t)) + (":" + Padded(Seconds(t)));
    assert Print(t) == Decimal(Hours(t)) + rest;
    ScanHours(Hours(t), rest, |Print(t)|);
  }

  /** The value of the minutes and seconds that are read for printed ones. */
  lemma ScanTwoFields(m: int, s: int)
    requires -60 < m < 60 && -60 < s < 60
    ensures var minute := ScanField(":" + Padded(m) + (":" + Padded(s)));
            var second := ScanField(minute.rest);
            && minute.value == (if m > -10 then m else -(-m / 10))
            && second.value == (if m <= -10 then 0 else if s > -10 then s else -(-s / 10))
  {
    var tail := ":" + Padded(s);
    if m > -10 {
      ScanFieldPrinted(m, tail);
      assert tail == ":" + Padded(s) + [];
      if s > -10 {
        ScanFieldPrinted(s, []);
      } else {
        ScanFieldCutsNegative(s, []);
      }
    } else {
      ScanFieldCutsNegative(m, tail);
    }
  }

  /** A time reads back as it was printed exactly when it is not negative, or
      when a negative one has less than ten minutes and ten seconds beyond its
      hours and minutes: a longer part is cut off after its sign and one digit. */
  lemma RoundTripIff(t: int)
    ensures Parse(Print(t)) == t <==> t >= 0 || ((-t) % 3600 < 600 && (-t) % 60 < 10)
  {
    Parts(t);
    ParseFromHours(t);
    ScanTwoFields(Minutes(t), Seconds(t));
  }

  lemma {:induction false} DigitsFit(n: nat, k: nat, bound: nat)
    requires 0 < k && n < bound && bound == Power10(k)
    ensures |Digits(n)| <= k
    decreases k
  {
    assert Power10(k) == 10 * Power10(k - 1);
    if n >= 10 {
      DigitsFit(n / 10, k - 1, Power10(k - 1));
    }
  }

  function Power10(k: nat): nat {
    if k == 0 then 1 else 10 * Power10(k - 1)
  }

  lemma DecimalFits(n: int, k: nat)
    requires 0 < k && 0 - Power10(k) < n < Power10(k)
    ensures |Decimal(n)| <= k + 1 && |Padded(n)| <= k + 1
  {
    DigitsFit(if n < 0 then -n else n, k, Power10(k));
  }

  /** Any 32-bit time fits the callers' buffer of 32 characters, with its NUL. */
  lemma PrintFits(t: int)
    requires -0x8000_0000 <= t < 0x8000_0000
    ensures |Print(t)| < 32
  {
    Parts(t);
    assert Power10(2) == 100 && Power10(4) == 100 * Power10(2) && Power10(6) == 100 * Power10(4);
    DecimalFits(Hours(t), 6);
    DecimalFits(Minutes(t), 2);
    DecimalFits(Seconds(t), 2);
  }

  // ---- The text itself ----

  const DIGITS := "0123456789"

  lemma TwoDigitsPrinted(n: nat)
    requires n < 60
    ensures Padded(n) == [DIGITS[n / 10], DIGITS[n % 10]]
  {
    TwoDigits(n);
    DigitIsPrinted(n / 10);
    DigitIsPrinted(n % 10);
    if n >= 10 {
      assert Digits(n) == Digits(n / 10) + [Digit(n % 10)] && Digits(n / 10) == [Digit(n / 10)];
    } else {
      assert Decimal(n) == [Digit(n)];
    }
  }

  lemma DigitIsPrinted(d: nat)
    requires d < 10
    ensures Digit(d) == DIGITS[d]
  {
  }

  lemma Sixties(h: nat, m: nat, s: nat)
    requires m < 60 && s < 60
    ensures (3600 * h + 60 * m + s) / 60 == 60 * h + m && (3600 * h + 60 * m + s) % 60 == s
    ensures (60 * h + m) % 60 == m
  {
  }

  lemma NaturalParts(t: nat)
    ensures Hours(t) == t / 3600 && Minutes(t) == t / 60 % 60 && Seconds(t) == t % 60
  {
    Sixties(t / 3600, t % 3600 / 60, t % 3600 % 60);
    assert t == 3600 * (t / 3600) + 60 * (t % 3600 / 60) + t % 3600 % 60;
  }

  /** What follows the hours */
  function ClockText(t: nat): string {
    [':', DIGITS[t / 60 % 60 / 10], DIGITS[t / 60 % 60 % 10], ':', DIGITS[t % 60 / 10], DIGITS[t % 60 % 10]]
  }

  lemma PrintedParts(t: nat)
    ensures Print(t) == Digits(t / 3600) + ClockText(t)
  {
    NaturalParts(t);
    TwoDigitsPrinted(t / 60 % 60);
    TwoDigitsPrinted(t % 60);
    assert [':'] + Padded(t / 60 % 60) + ([':'] + Padded(t % 60)) == ClockText(t);
  }

  /** A time from zero on is printed as its hours, a colon, two digits for the minutes,
      a colon, and two digits for the seconds. */
  lemma PrintedForm(t: nat)
    ensures var text := Print(t);
            var n := |text| - 6;
            n >= 1 && AllDigits(text[..n]) && Value(text[..n]) == t / 3600 && text[n..] == ClockText(t)
  {
    PrintedParts(t);
    var hours := Digits(t / 3600);
    DigitsValue(t / 3600);
    assert (hours + ClockText(t))[..|hours|] == hours && (hours + ClockText(t))[|hours|..] == ClockText(t);
  }

  /** Texts of digits with colons between them: hours, minutes, seconds. A number alone
      is hours. */
  lemma DigitsAreParsed(h: string, m: string, s: string)
    requires AllDigits(h) && AllDigits(m) && AllDigits(s)
    requires h != [] && 1 <= |m| <= 2 && 1 <= |s| <= 2
    ensures Parse(h + ":" + m + ":" + s) == Value(h) * 3600 + Value(m) * 60 + Value(s)
    ensures Parse(h) == Value(h) * 3600
  {
    HoursFirst(h, m, s);
    FieldIsScanned(m, ":" + s);
    FieldIsScanned(s, []);
    assert ":" + s + [] == ":" + s;
    HoursAlone(h);
  }

  lemma HoursFirst(h: string, m: string, s: string)
    requires AllDigits(h) && h != []
    ensures var minute := ScanField(":" + m + (":" + s));
            Parse(h + ":" + m + ":" + s) == Value(h) * 3600 + minute.value * 60 + ScanField(minute.rest).value
  {
    var rest := ":" + m + (":" + s);
    assert h + ":" + m + ":" + s == h + rest;
    ScanUnsigned(h, rest, |h + rest|);
  }

  lemma HoursAlone(h: string)
    requires AllDigits(h) && h != []
    ensures Parse(h) == Value(h) * 3600
  {
    assert h + [] == h;
    ScanUnsigned(h, [], |h|);
  }

  lemma FieldIsScanned(d: string, rest: string)
    requires AllDigits(d) && 1 <= |d| <= 2 && (rest == [] || !IsDigit(rest[0]))
    ensures ScanField(":" + d + rest) == Scanned(Value(d), rest)
  {
    ScanUnsigned(d, rest, 2);
    assert ":" + d + rest == ":" + (d + rest);
    FieldFollows(d + rest, Scanned(Value(d), rest));
  }

  lemma FieldFollows(s: string, r: Scanned)
    requires ScanInt(s, 2) == Some(r)
    ensures ScanField(":" + s) == r
  {
    assert (":" + s)[1..] == s;
  }
}
