/** JavaScript's string-to-number conversions as the forms and handlers use
    them: `Number(s)` (the whole trimmed text must be a numeral, and blank
    text is 0), `parseFloat(s)` (the longest numeral prefix) and
    `parseInt(s)` (the longest run of digits after an optional sign, read
    as hexadecimal after a `0x` prefix). Numerals are decimal: an optional
    sign, digits, an optional point and fraction digits, and an optional
    exponent. */
module Numbers {
  import opened Wrappers
  import opened Text

  /** A JavaScript number: `NaN` or a finite value. */
  datatype JsNumber = NaN | Num(value: real)

  predicate IsDigit(c: char) {
    '0' <= c <= '9'
  }

  predicate AllDigits(s: string) {
    forall i :: 0 <= i < |s| ==> IsDigit(s[i])
  }

  /** Length of the run of decimal digits that starts `s`. */
  function DigitRun(s: string): (n: nat)
    ensures n <= |s|
    ensures n < |s| ==> !IsDigit(s[n])
  {
    if |s| > 0 && IsDigit(s[0]) then
      1 + DigitRun(s[1..])
    else 0
  }

  /** Every character of a digit run is a digit. */
  lemma {:induction false} DigitRunDigits(s: string)
    ensures AllDigits(s[..DigitRun(s)])
  {
    if |s| > 0 && IsDigit(s[0]) {
      DigitRunDigits(s[1..]);
      assert forall i :: 1 <= i < DigitRun(s) ==> s[..DigitRun(s)][i] == s[1..][..DigitRun(s[1..])][i - 1];
    }
  }

  lemma FractionRunDigits(rest: string)
    ensures |rest| > 0 ==> AllDigits(rest[1..][..DigitRun(rest[1..])])
  {
    if |rest| > 0 {
      DigitRunDigits(rest[1..]);
    }
  }

  /** The value of a digit string, most significant digit first. */
  function DigitsValue(d: string): nat {
    if |d| == 0 then 0
    else 10 * DigitsValue(d[..|d| - 1]) + DigitValue(d[|d| - 1])
  }

  function DigitValue(c: char): nat {
    if IsDigit(c) then c as int - '0' as int else 0
  }

  function Pow10(n: nat): (r: nat)
    ensures r >= 1
  {
    if n == 0 then 1 else 10 * Pow10(n - 1)
  }

  /** A numeral found at the start of a string: sign, whole digits,
      fraction digits, power of ten, and how many characters it spans. */
  datatype Numeral = Numeral(negative: bool, whole: string, fraction: string, exponent: int, length: nat)

  /** The numeral that starts `s`, if any: it needs at least one digit before
      or after the point, and an exponent part counts only when a digit
      follows its `e` and optional sign. */
  function ScanNumeral(s: string): (r: Option<Numeral>)
    ensures r.Some? ==> r.value.length <= |s| && |r.value.whole| + |r.value.fraction| > 0
    ensures r.Some? ==> AllDigits(r.value.whole) && AllDigits(r.value.fraction)
    ensures r.None? <==> ScanMantissa(s).None?
  {
    var m := ScanMantissa(s);
    if m.None? then None
    else
      var e := ScanExponent(s[m.value.length..]);
      if e.None? then m
      else Some(m.value.(exponent := e.value.0, length := m.value.length + e.value.1))
  }

  /** The sign, digits, point and fraction digits that start `s`, as a
      numeral with no exponent. */
  function ScanMantissa(s: string): (r: Option<Numeral>)
    ensures r.Some? ==> r.value.length <= |s| && |r.value.whole| + |r.value.fraction| > 0
    ensures r.Some? ==> AllDigits(r.value.whole) && AllDigits(r.value.fraction)
    ensures r.Some? ==> r.value.exponent == 0
  {
    var signed := |s| > 0 && (s[0] == '+' || s[0] == '-');
    var body := if signed then s[1..] else s;
    var a := DigitRun(body);
    var rest := body[a..];
    var point := |rest| > 0 && rest[0] == '.';
    var f := if point then DigitRun(rest[1..]) else 0;
    if a + f == 0 then None
    else
      DigitRunDigits(body);
      FractionRunDigits(rest);
      Some(Numeral(
        signed && s[0] == '-',
        body[..a],
        if point then rest[1..][..f] else "",
        0,
        (if signed then 1 else 0) + a + (if point then 1 + f else 0)))
  }

  /** The exponent part that starts `s`, if any: `e` or `E`, an optional
      sign and at least one digit; its value and its length. */
  function ScanExponent(s: string): (r: Option<(int, nat)>)
    ensures r.Some? ==> 2 <= r.value.1 <= |s| && (s[0] == 'e' || s[0] == 'E')
    ensures |s| == 0 || (s[0] != 'e' && s[0] != 'E') ==> r.None?
  {
    if |s| == 0 || (s[0] != 'e' && s[0] != 'E') then None
    else
      var signed := |s| > 1 && (s[1] == '+' || s[1] == '-');
      var digits := s[(if signed then 2 else 1)..];
      var k := DigitRun(digits);
      if k == 0 then None
      else
        var v: int := DigitsValue(digits[..k]);
        Some((if signed && s[1] == '-' then -v else v, (if signed then 2 else 1) + k))
  }

  function NumeralValue(n: Numeral): real {
    var magnitude := DigitsValue(n.whole) as real
      + DigitsValue(n.fraction) as real / Pow10(|n.fraction|) as real;
    var scaled := if n.exponent >= 0 then magnitude * Pow10(n.exponent) as real
                  else magnitude / Pow10(-n.exponent) as real;
    if n.negative then -scaled else scaled
  }

  /** `Number(s)`: blank text is 0; otherwise the trimmed text must be one
      numeral, or the result is `NaN`. */
  function ToNumber(s: string): (r: JsNumber)
    ensures AllWhitespace(s) ==> r == Num(0.0)
    ensures r.Num? && !AllWhitespace(s) ==> ScanNumeral(Trim(s)).Some?
  {
    var t := Trim(s);
    if |t| == 0 then Num(0.0)
    else
      match ScanNumeral(t)
      case Some(n) => if n.length == |t| then Num(NumeralValue(n)) else NaN
      case None => NaN
  }

  /** `parseFloat(s)`: the numeral that starts the text after leading white
      space, ignoring whatever follows it; `NaN` when there is none. */
  function ParseFloat(s: string): (r: JsNumber)
    ensures r.NaN? <==> ScanNumeral(TrimStart(s)).None?
  {
    match ScanNumeral(TrimStart(s))
    case Some(n) => Num(NumeralValue(n))
    case None => NaN
  }

  /** `parseInt(s)` without a radix: after leading white space and an
      optional sign, a `0x` or `0X` prefix selects hexadecimal and otherwise
      the digits are decimal; `None` stands for `NaN`, when no digit of the
      chosen base follows. */
  function ParseInt(s: string): (r: Option<int>)
    ensures r.None? <==> Magnitude(SignedBody(TrimStart(s))).None?
    ensures r.Some? && IsNegative(TrimStart(s)) ==> r.value <= 0
    ensures r.Some? && !IsNegative(TrimStart(s)) ==> r.value >= 0
    ensures r.Some? ==> (if r.value < 0 then -r.value else r.value) == Magnitude(SignedBody(TrimStart(s))).value
  {
    WithSign(IsNegative(TrimStart(s)), Magnitude(SignedBody(TrimStart(s))))
  }

  /** A magnitude with the sign applied. */
  function WithSign(negative: bool, m: Option<nat>): (r: Option<int>)
    ensures r.None? <==> m.None?
    ensures r.Some? ==> r.value == if negative then -(m.value as int) else m.value
  {
    if m.None? then None else Some(if negative then -(m.value as int) else m.value)
  }

  /** The unsigned value `parseInt` reads from the text after the sign:
      hexadecimal digits after a `0x` prefix, decimal digits otherwise, and
      nothing when no digit of that base comes first. */
  function Magnitude(b: string): (m: Option<nat>)
    ensures HexPrefix(b) ==> (m.None? <==> HexRun(b[2..]) == 0)
    ensures !HexPrefix(b) ==> (m.None? <==> DigitRun(b) == 0)
    ensures m.Some? && !HexPrefix(b) ==> m.value == DigitsValue(b[..DigitRun(b)])
  {
    if HexPrefix(b) then HexMagnitude(b[2..]) else DecimalMagnitude(b)
  }

  /** The value of the hexadecimal digits that start `h`, if there are any. */
  function HexMagnitude(h: string): (m: Option<nat>)
    ensures m.None? <==> HexRun(h) == 0
  {
    var k := HexRun(h);
    if k == 0 then None else Some(HexValue(h[..k]))
  }

  /** The value of the decimal digits that start `b`, if there are any. */
  function DecimalMagnitude(b: string): (m: Option<nat>)
    ensures m.None? <==> DigitRun(b) == 0
  {
    var a := DigitRun(b);
    if a == 0 then None else Some(DigitsValue(b[..a]))
  }

  predicate IsNegative(t: string) {
    |t| > 0 && t[0] == '-'
  }

  /** The `0x` or `0X` prefix that makes `parseInt` read hexadecimal. */
  predicate HexPrefix(b: string) {
    |b| >= 2 && b[0] == '0' && (b[1] == 'x' || b[1] == 'X')
  }

  predicate IsHexDigit(c: char) {
    IsDigit(c) || 'a' <= c <= 'f' || 'A' <= c <= 'F'
  }

  function HexDigitValue(c: char): (v: nat)
    ensures v < 16
  {
    if IsDigit(c) then c as int - '0' as int
    else if 'a' <= c <= 'f' then c as int - 'a' as int + 10
    else if 'A' <= c <= 'F' then c as int - 'A' as int + 10
    else 0
  }

  /** Length of the run of hexadecimal digits that starts `s`. */
  function HexRun(s: string): (n: nat)
    ensures n <= |s|
    ensures n < |s| ==> !IsHexDigit(s[n])
  {
    if |s| > 0 && IsHexDigit(s[0]) then
      1 + HexRun(s[1..])
    else 0
  }

  /** The value of a hexadecimal digit string, most significant digit first. */
  function HexValue(d: string): nat {
    if |d| == 0 then 0
    else 16 * HexValue(d[..|d| - 1]) + HexDigitValue(d[|d| - 1])
  }

  /** `parseInt` reads hexadecimal digits after a `0x` prefix. */
  lemma ParseIntHex()
    ensures ParseInt("0x1A") == Some(26)
  {
    HexText("0x1A", "1A");
    HexOneA();
    ParseIntParts("0x1A", 26);
  }

  lemma HexOneA()
    ensures HexRun("1A") == 2 && HexValue("1A") == 26
    ensures Magnitude("0x1A") == Some(26)
  {
    assert "1A"[1..] == "A" && "A"[1..] == "";
    assert HexRun("A") == 1;
    assert "1A"[..2] == "1A" && "1A"[..1] == "1" && "1"[..0] == "";
    assert HexValue("1") == 1;
    assert "0x1A"[2..] == "1A";
  }

  /** The sign comes before the prefix, and the prefix may be upper case. */
  lemma ParseIntSignedHex()
    ensures ParseInt("-0X10") == Some(-16)
  {
    var t := "-0X10";
    TrimStartUnchanged(t);
    assert t[1..] == "0X10" && IsNegative(t) && SignedBody(t) == "0X10";
    var b := "10";
    assert "0X10"[2..] == b && b[1..] == "0" && "0"[1..] == "";
    assert HexRun(b) == 2;
    assert b[..2] == b && b[..1] == "1" && "1"[..0] == "";
    assert HexValue(b) == 16;
    assert Magnitude("0X10") == Some(16);
    ParseIntParts(t, 16);
  }

  /** A `0x` prefix with no hexadecimal digit after it is `NaN`, although a
      decimal reading would have found the digit 0. */
  lemma ParseIntBareHexPrefix()
    ensures ParseInt("0x") == None
    ensures DigitRun("0x") == 1
  {
    HexText("0x", "");
    assert "0x"[1..] == "x";
  }

  /** A leading zero without `x` still reads decimal digits. */
  lemma ParseIntLeadingZero()
    ensures ParseInt("012") == Some(12)
  {
    TrimStartUnchanged("012");
    assert SignedBody("012") == "012" && "012"[1..] == "12" && "12"[1..] == "2" && "2"[1..] == "";
    assert DigitRun("012") == 3;
    assert "012"[..3] == "012" && "012"[..2] == "01" && "01"[..1] == "0" && "0"[..0] == "";
    assert DigitsValue("012") == 12;
    assert Magnitude("012") == Some(12);
    ParseIntParts("012", 12);
  }

  /** Unsigned text with a `0x` prefix is read from the digits after it. */
  lemma HexText(s: string, digits: string)
    requires s == "0x" + digits
    ensures TrimStart(s) == s && SignedBody(s) == s && !IsNegative(s)
    ensures HexPrefix(s) && s[2..] == digits
  {
    TrimStartUnchanged(s);
  }

  /** The text after an optional leading sign. */
  function SignedBody(t: string): (b: string)
    ensures |b| <= |t|
  {
    if |t| > 0 && (t[0] == '+' || t[0] == '-') then t[1..] else t
  }

  /** Reading back the digits of a natural number gives the number. */
  lemma {:induction false} DigitsOfNat(n: nat)
    ensures DigitsValue(NatToString(n)) == n
    ensures DigitRun(NatToString(n)) == |NatToString(n)|
  {
    var d := NatToString(n);
    DigitRunAll(d);
    if n >= 10 {
      DigitsOfNat(n / 10);
      assert d[..|d| - 1] == NatToString(n / 10);
    }
  }

  /** A string made only of digits is one digit run. */
  lemma {:induction false} DigitRunAll(d: string)
    requires forall i :: 0 <= i < |d| ==> '0' <= d[i] <= '9'
    ensures DigitRun(d) == |d|
  {
    if |d| > 0 {
      DigitRunAll(d[1..]);
    }
  }

  /** The server reads back an id the client wrote into a path:
      `parseInt(String(id)) == id`. */
  lemma ParseIntOfIntToString(n: int)
    ensures ParseInt(IntToString(n)) == Some(n)
  {
    if n < 0 {
      ParseIntOfNegative(n);
    } else {
      NatDigits(n);
      ParseIntOfDigits(NatToString(n));
    }
  }

  lemma ParseIntOfNegative(n: int)
    requires n < 0
    ensures ParseInt(IntToString(n)) == Some(n)
  {
    NegativeText(n);
    ParseIntParts(IntToString(n), -n);
  }

  /** The text of a negative number is a minus sign and the digits of its
      magnitude, which `parseInt` reads whole. */
  lemma NegativeText(n: int)
    requires n < 0
    ensures TrimStart(IntToString(n)) == IntToString(n) && IsNegative(IntToString(n))
    ensures Magnitude(SignedBody(IntToString(n))) == Some(-n)
  {
    var d := NatToString(-n);
    NatDigits(-n);
    MinusText(d);
    MagnitudeOfDigits(d);
  }

  /** The decimal digits of a natural number form one digit run worth it. */
  lemma NatDigits(m: nat)
    ensures IsDigit(NatToString(m)[0]) && DigitRun(NatToString(m)) == |NatToString(m)|
    ensures DigitsValue(NatToString(m)) == m
  {
    DigitsOfNat(m);
  }

  lemma ParseIntOfDigits(d: string)
    requires |d| > 0 && IsDigit(d[0]) && DigitRun(d) == |d|
    ensures ParseInt(d) == Some(DigitsValue(d))
  {
    TrimStartUnchanged(d);
    assert SignedBody(d) == d;
    MagnitudeOfDigits(d);
  }

  /** A minus sign in front of a digit string is the sign `parseInt` reads. */
  lemma MinusText(d: string)
    requires |d| > 0 && IsDigit(d[0])
    ensures TrimStart("-" + d) == "-" + d && IsNegative("-" + d) && SignedBody("-" + d) == d
  {
    var s := "-" + d;
    assert s[0] == '-' && s[1..] == d;
    TrimStartUnchanged(s);
  }

  /** `parseInt` applies the sign to the magnitude read after it. */
  lemma ParseIntParts(s: string, m: nat)
    requires Magnitude(SignedBody(TrimStart(s))) == Some(m)
    ensures ParseInt(s) == Some(if IsNegative(TrimStart(s)) then -(m as int) else m)
  {
  }

  /** A string of decimal digits has no `0x` prefix and is read whole. */
  lemma MagnitudeOfDigits(d: string)
    requires |d| > 0 && IsDigit(d[0]) && DigitRun(d) == |d|
    ensures Magnitude(d) == Some(DigitsValue(d))
  {
    assert d[..|d|] == d;
    assert |d| >= 2 ==> IsDigit(d[..|d|][1]);
  }

  /** `Number(String(n)) == n` for a natural number. */
  lemma ToNumberOfNatToString(n: nat)
    ensures ToNumber(NatToString(n)) == Num(n as real)
  {
    var d := NatToString(n);
    DigitsOfNat(n);
    assert IsDigit(d[0]) && IsDigit(d[|d| - 1]);
    ToNumberOfDigits(d);
  }

  lemma ToNumberOfDigits(d: string)
    requires |d| > 0 && IsDigit(d[0]) && IsDigit(d[|d| - 1]) && DigitRun(d) == |d|
    ensures ToNumber(d) == Num(DigitsValue(d) as real)
  {
    TrimDigits(d);
    ScanDigits(d);
    WholeNumeralValue(d);
    ToNumberOfNumeral(d, Numeral(false, d, "", 0, |d|));
  }

  /** Digits carry no white space at either end. */
  lemma TrimDigits(d: string)
    requires |d| > 0 && IsDigit(d[0]) && IsDigit(d[|d| - 1])
    ensures Trim(d) == d
  {
    TrimTrimmed(d);
  }

  /** A numeral without sign or fraction is worth its digits. */
  lemma WholeNumeralValue(d: string)
    ensures NumeralValue(Numeral(false, d, "", 0, |d|)) == DigitsValue(d) as real
  {
    UnscaledValue(Numeral(false, d, "", 0, |d|));
  }

  /** A numeral with no fraction and no exponent is worth its whole digits,
      with its sign. */
  lemma UnscaledValue(n: Numeral)
    requires n.fraction == "" && n.exponent == 0
    ensures NumeralValue(n) == if n.negative then -(DigitsValue(n.whole) as real) else DigitsValue(n.whole) as real
  {
    assert Pow10(0) == 1 && DigitsValue("") == 0 && |""| == 0;
    var m := DigitsValue(n.whole) as real + 0 as real / 1 as real;
    assert m == DigitsValue(n.whole) as real;
    assert m * 1 as real == m;
  }

  /** Trimmed text that is exactly one numeral converts to that numeral's value. */
  lemma ToNumberOfNumeral(t: string, n: Numeral)
    requires |t| > 0 && Trim(t) == t && ScanNumeral(t) == Some(n) && n.length == |t|
    ensures ToNumber(t) == Num(NumeralValue(n))
  {
  }

  /** A digit string scans as one whole-number numeral covering all of it. */
  lemma ScanDigits(d: string)
    requires |d| > 0 && DigitRun(d) == |d|
    ensures ScanNumeral(d) == Some(Numeral(false, d, "", 0, |d|))
  {
    assert d[..|d|] == d && d[|d|..] == "";
    assert ScanMantissa(d) == Some(Numeral(false, d, "", 0, |d|));
    assert ScanExponent(d[|d|..]) == None;
  }

  /** `parseFloat` reads back the decimal text of any integer. */
  lemma ParseFloatOfIntToString(n: int)
    ensures ParseFloat(IntToString(n)) == Num(n as real)
  {
    if n < 0 {
      ParseFloatOfNegative(n);
    } else {
      var d := NatToString(n);
      NatDigits(n);
      ScanDigits(d);
      WholeNumeralValue(d);
      TrimStartUnchanged(d);
    }
  }

  lemma ParseFloatOfNegative(n: int)
    requires n < 0
    ensures ParseFloat(IntToString(n)) == Num(n as real)
  {
    var d := NatToString(-n);
    NatDigits(-n);
    MinusText(d);
    ScanMinusDigits(d);
  }

  /** A minus sign and a digit string scan as one negative whole numeral. */
  lemma ScanMinusDigits(d: string)
    requires |d| > 0 && DigitRun(d) == |d|
    ensures ScanNumeral("-" + d) == Some(Numeral(true, d, "", 0, |d| + 1))
    ensures NumeralValue(Numeral(true, d, "", 0, |d| + 1)) == -(DigitsValue(d) as real)
  {
    var s := "-" + d;
    MantissaMinusDigits(d);
    assert s[|d| + 1..] == "";
    assert ScanExponent("") == None;
    UnscaledValue(Numeral(true, d, "", 0, |d| + 1));
  }

  lemma MantissaMinusDigits(d: string)
    requires |d| > 0 && DigitRun(d) == |d|
    ensures ScanMantissa("-" + d) == Some(Numeral(true, d, "", 0, |d| + 1))
  {
    var s := "-" + d;
    assert s[0] == '-' && s[1..] == d;
    assert d[..|d|] == d && d[|d|..] == "";
  }

  /** `parseFloat` reads an exponent, stops at the first character that
      cannot continue the numeral, and ignores an `e` with no digit after it. */
  lemma ParseFloatExponent()
    ensures ParseFloat("1e3") == Num(1000.0)
    ensures ParseFloat("2.5x") == Num(2.5)
    ensures ParseFloat("7e") == Num(7.0)
  {
    ScanOneEThree();
    ScanTwoPointFive();
    ScanSevenE();
  }

  lemma ScanOneEThree()
    ensures ParseFloat("1e3") == Num(1000.0)
  {
    var s := "1e3";
    TrimStartUnchanged(s);
    assert s[1..] == "e3" && "e3"[1..] == "3" && "3"[1..] == "";
    assert DigitRun(s) == 1 && s[..1] == "1" && DigitRun("3") == 1 && "3"[..1] == "3";
    assert ScanExponent("e3") == Some((3, 2));
    var n := Numeral(false, "1", "", 3, 3);
    assert ScanNumeral(s) == Some(n);
    assert "1"[..0] == "" && DigitsValue("1") == 1 && Pow10(3) == 1000;
    assert NumeralValue(n) == 1000.0;
  }

  lemma ScanTwoPointFive()
    ensures ParseFloat("2.5x") == Num(2.5)
  {
    var s := "2.5x";
    TrimStartUnchanged(s);
    MantissaTwoPointFive();
    assert s[3..] == "x" && ScanExponent("x") == None;
    var n := Numeral(false, "2", "5", 0, 3);
    assert ScanNumeral(s) == Some(n);
    assert "2"[..0] == "" && DigitsValue("2") == 2 && "5"[..0] == "" && DigitsValue("5") == 5;
    assert NumeralValue(n) == 2.5;
  }

  lemma MantissaTwoPointFive()
    ensures ScanMantissa("2.5x") == Some(Numeral(false, "2", "5", 0, 3))
  {
    var s := "2.5x";
    assert s[1..] == ".5x" && ".5x"[1..] == "5x" && "5x"[1..] == "x";
    assert DigitRun(s) == 1 && s[..1] == "2" && DigitRun("5x") == 1 && "5x"[..1] == "5";
  }

  lemma ScanSevenE()
    ensures ParseFloat("7e") == Num(7.0)
  {
    var s := "7e";
    TrimStartUnchanged(s);
    assert s[1..] == "e" && "e"[1..] == "";
    assert DigitRun(s) == 1 && s[..1] == "7";
    assert ScanExponent("e") == None;
    var n := Numeral(false, "7", "", 0, 1);
    assert ScanNumeral(s) == Some(n);
    assert "7"[..0] == "" && DigitsValue("7") == 7;
    assert NumeralValue(n) == 7.0;
  }

  // ----- Number inputs -----

  /** `JSON.stringify` of a number: `NaN` is sent as `null`. */
  function Json(n: JsNumber): (r: Option<real>)
    ensures r.None? <==> n.NaN?
    ensures r.Some? ==> r.value == n.value
  {
    if n.NaN? then None else Some(n.value)
  }

  /** A decimal input's change handler: nothing for an empty box, otherwise
      `parseFloat` of the text. */
  function DecimalInput(text: string): (r: Option<JsNumber>)
    ensures r.None? <==> text == ""
    ensures r.Some? ==> (r.value.NaN? <==> ScanNumeral(TrimStart(text)).None?)
  {
    if text == "" then None else Some(ParseFloat(text))
  }

  /** A whole-number input's change handler: nothing for an empty box,
      otherwise `parseInt` of the text, `NaN` when no digit follows. */
  function IntInput(text: string): (r: Option<JsNumber>)
    ensures r.None? <==> text == ""
    ensures r.Some? && r.value.Num? ==> r.value.value == r.value.value.Floor as real
  {
    if text == "" then None
    else match ParseInt(text)
      case Some(n) => Some(Num(n as real))
      case None => Some(NaN)
  }

  /** `z.number().positive()` on an input's value: an empty box or `NaN`
      fails. */
  predicate PositiveInput(b: Option<JsNumber>) {
    b.Some? && b.value.Num? && b.value.value > 0.0
  }

  /** `z.number().int().positive()`. */
  predicate PositiveInteger(n: JsNumber) {
    n.Num? && n.value > 0.0 && n.value == n.value.Floor as real
  }
}
