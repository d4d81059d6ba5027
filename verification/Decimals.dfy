/**
 What the number conversions compute, in terms of the digits written: `atoi`, `atof` and `sprintf("%f")` against the
 places of a decimal.
 */
module Decimals {
  import opened Values
  import opened Lexical
  import opened Doubles
  import opened Conversions

  // ----- digits -----

  /** A possibly empty string of digits. */
  predicate Digits(t: string) { forall c | c in t :: Digit(c) }

  /** Ten to the n. */
  function Tens(n: nat): (p: int)
    ensures p > 0
  {
    if n == 0 then 1 else 10 * Tens(n - 1)
  }

  /** Each digit has its value. */
  lemma MagnitudeOfDigit(i: nat)
    requires i < 10
    ensures Digits(["0123456789"[i]]) && Magnitude(["0123456789"[i]]) == i
  {
    var c := "0123456789"[i];
    assert c as int == '0' as int + i;
    assert [c][..0] == "" && Magnitude("") == 0;
  }

  /** Digits further left count ten times as much for each place. */
  lemma {:induction false} MagnitudeOfDigits(t: string, u: string)
    requires Digits(t) && Digits(u)
    ensures Digits(t + u) && Magnitude(t + u) == Magnitude(t) * Tens(|u|) + Magnitude(u)
  {
    assert forall c | c in t + u :: c in t || c in u;
    if u == "" {
      assert t + u == t && Tens(0) == 1;
    } else {
      var init, c := u[..|u| - 1], u[|u| - 1];
      assert u == init + [c] && forall d | d in init :: d in u;
      assert t + u == (t + init) + [c];
      MagnitudeOfDigits(t, init);
      assert c in u;
      MagnitudeStep(t + init, c);
      MagnitudeStep(init, c);
      assert Tens(|u|) == 10 * Tens(|init|);
      TenTimes(Magnitude(t), Tens(|init|), Magnitude(init), DigitValue(c));
    }
  }

  lemma TenTimes(m: int, p: int, k: int, d: int)
    ensures 10 * (m * p + k) + d == m * (10 * p) + (10 * k + d)
  {
  }

  lemma MagnitudeStep(t: string, c: char)
    requires Digits(t) && Digit(c)
    ensures Digits(t + [c]) && Magnitude(t + [c]) == 10 * Magnitude(t) + DigitValue(c)
  {
    assert (t + [c])[..|t|] == t;
  }

  // ----- integers -----

  /** `(int)` of a long takes the low 32 bits, as two's complement; strtol stops at the ends of a long. */
  lemma ToIntExactly(v: int)
    ensures -0x8000_0000_0000_0000 <= v < 0x8000_0000_0000_0000 ==> (ToInt(v) - v) % 0x1_0000_0000 == 0
    ensures -0x8000_0000 <= v < 0x8000_0000 ==> ToInt(v) == v
    ensures v >= 0x8000_0000_0000_0000 ==> ToInt(v) == -1
    ensures v < -0x8000_0000_0000_0000 ==> ToInt(v) == 0
  {
  }

  predicate SignText(sign: string) { sign == "" || sign == "+" || sign == "-" }

  /** The white space of `isspace`. */
  predicate Space(c: char) { c in " \t\n\r" || c as int == 11 || c as int == 12 }

  predicate Spacing(t: string) { forall c | c in t :: Space(c) }

  lemma SpaceIsBlank(c: char)
    ensures Space(c) <==> Blank(c)
  {
  }

  lemma {:induction false} SkipSpacing(t: string, s: string)
    requires Spacing(t) && (s != "" ==> !Blank(s[0]))
    ensures AfterBlanks(t + s) == s
  {
    if t == "" {
      assert t + s == s;
    } else {
      SpaceIsBlank(t[0]);
      assert t[0] in t && Blank(t[0]);
      assert (t + s)[1..] == t[1..] + s && forall c | c in t[1..] :: c in t;
      SkipSpacing(t[1..], s);
    }
  }

  /** A number is not blank in front. */
  lemma StartsNumber(sign: string, body: string)
    requires SignText(sign) && (sign == "" ==> body != "" && !Blank(body[0]) && body[0] !in "+-")
    ensures var s := sign + body; s != "" && !Blank(s[0]) && AfterSign(s) == body && (Negative(s) <==> sign == "-")
  {
    if sign == "" { assert sign + body == body; }
  }

  /** `atoi`: white space, a sign, and the digits up to the first byte that is none. */
  lemma AtoiReads(blanks: string, sign: string, digits: string, rest: string)
    requires Spacing(blanks) && SignText(sign) && Digits(digits) && (rest != "" ==> !Digit(rest[0]))
    requires sign == "" ==> digits != ""
    ensures Atoi(blanks + sign + digits + rest) == ToInt(Signed(sign == "-", Magnitude(digits)))
  {
    var body := digits + rest;
    assert sign == "" ==> body != "" && body[0] == digits[0] && digits[0] in digits && Digit(body[0]);
    assert blanks + sign + digits + rest == blanks + (sign + body) && body[..|digits|] == digits;
    hide AfterBlanks, DigitRun, Magnitude, AfterSign, Negative, Digits, Spacing, ToInt;
    StartsNumber(sign, body);
    SkipSpacing(blanks, sign + body);
    RunOfDigits(digits, rest);
  }

  lemma {:induction false} RunOfDigits(digits: string, rest: string)
    requires Digits(digits) && (rest != "" ==> !Digit(rest[0]))
    ensures DigitRun(digits + rest) == |digits|
  {
    if digits == "" {
      assert digits + rest == rest;
    } else {
      assert digits[0] in digits && (digits + rest)[1..] == digits[1..] + rest;
      assert forall c | c in digits[1..] :: c in digits;
      RunOfDigits(digits[1..], rest);
    }
  }

  function Signed(minus: bool, n: nat): int { if minus then 0 - n as int else n }

  /** Where there is no number to read, the result is zero. */
  lemma AtoiNothing(blanks: string, rest: string)
    requires Spacing(blanks) && (rest != "" ==> !Digit(rest[0]) && !Space(rest[0]) && rest[0] !in "+-")
    ensures Atoi(blanks + rest) == 0
  {
    if rest != "" { SpaceIsBlank(rest[0]); }
    SkipSpacing(blanks, rest);
    assert rest[..0] == "";
  }

  /** An integer token in the range of an int. */
  lemma IntegerValue(minus: bool, w: string)
    requires AllDigits(w)
    ensures var t := (if minus then "-" else "") + w;
            IsInteger(t) && IntValue(t) == ToInt(Signed(minus, Magnitude(w)))
  {
    var t := (if minus then "-" else "") + w;
    if minus { assert t[1..] == w && t[0] in t; } else { assert t == w; }
  }

  // ----- powers of ten -----

  lemma {:induction false} ShiftUp(v: real, k: int)
    ensures Shift(v, k + 1) == Shift(v, k) * 10.0
    decreases if k < 0 then -k else k
  {
    if k > 0 { ShiftUp(v * 10.0, k - 1); } else if k < 0 { ShiftUp(v / 10.0, k + 1); }
  }

  lemma {:induction false} ShiftBy(v: real, k: int, n: nat)
    ensures Shift(v, k + n) == Shift(v, k) * Tens(n) as real
  {
    if n > 0 {
      ShiftBy(v, k, n - 1);
      ShiftUp(v, k + n - 1);
      assert k + n - 1 + 1 == k + n;
      var s, p := Shift(v, k), Tens(n - 1);
      assert Tens(n) as real == 10.0 * p as real;
      hide *;
      Grouped(s, p as real);
    }
  }

  lemma Grouped(s: real, p: real)
    ensures s * p * 10.0 == s * (10.0 * p)
  {
  }

  lemma ShiftDown(v: real, k: int, n: nat)
    ensures Shift(v, k - n) == Shift(v, k) / Tens(n) as real
  {
    ShiftBy(v, k - n, n);
    Undo(Shift(v, k - n), Tens(n) as real, Shift(v, k));
  }

  lemma Undo(a: real, p: real, b: real)
    requires p > 0.0 && b == a * p
    ensures a == b / p
  {
  }

  // ----- decimals -----

  /** `.f`, or nothing, or the point alone. */
  function PointText(point: bool, f: string): string { if point then "." + f else "" }

  /** An exponent mark, a sign and digits, or nothing. */
  function PowerText(mark: string, sign: string, p: string): string { mark + sign + p }

  predicate Powered(mark: string, sign: string, p: string) {
    if p == "" then mark == "" && sign == "" else (mark == "e" || mark == "E") && SignText(sign) && Digits(p)
  }

  /** The digits w and f around the point, and the power of ten. */
  function DecimalValue(w: string, f: string, sign: string, p: string): real
    requires Digits(w) && Digits(f) && Digits(p)
  {
    MagnitudeOfDigits(w, f);
    var m := Magnitude(w + f) as real / Tens(|f|) as real;
    var scale := Tens(Magnitude(p)) as real;
    if sign == "-" then m / scale else m * scale
  }

  lemma ReadStep(t: string, c: char)
    ensures ScanReal(t + [c], false) ==
            match ScanReal(t, false) case None => None case Some(s) => NextReal(s, c, false)
    ensures var r := Read(t, false);
            Read(t + [c], false) ==
            match ScanReal(t + [c], false)
            case Some(Integral) => r.(digits := 10 * r.digits + DigitValue(c))
            case Some(Fraction) => r.(digits := 10 * r.digits + DigitValue(c), scale := r.scale + 1)
            case Some(ExponentSign) => r.(powerNeg := c == '-')
            case Some(ExponentDigits) => r.(power := 10 * r.power + DigitValue(c))
            case _ => r
  {
    assert (t + [c])[..|t|] == t;
  }

  lemma {:induction false} ReadWhole(w: string)
    requires Digits(w)
    ensures Read(w, false) == Reading(Magnitude(w), 0, false, 0)
    ensures ScanReal(w, false) == Some(if w == "" then NoDigits else Integral)
  {
    if w != "" {
      var init, c := w[..|w| - 1], w[|w| - 1];
      assert w == init + [c] && c in w && forall d | d in init :: d in w;
      ReadWhole(init);
      ReadStep(init, c);
      MagnitudeStep(init, c);
    }
  }

  /** One more digit behind the point. */
  lemma ReadFraction(t: string, digits: string, n: nat, c: char)
    requires Digit(c) && Digits(digits) && Read(t, false) == Reading(Magnitude(digits), n, false, 0)
    requires ScanReal(t, false) in [Some(BarePoint), Some(PointAfter), Some(Fraction)]
    ensures Digits(digits + [c]) && Read(t + [c], false) == Reading(Magnitude(digits + [c]), n + 1, false, 0)
    ensures ScanReal(t + [c], false) == Some(Fraction)
  {
    hide Magnitude, Read, ScanReal;
    ReadStep(t, c);
    MagnitudeStep(digits, c);
  }

  lemma {:induction false} ReadPoint(w: string, f: string)
    requires Digits(w) && Digits(f)
    ensures Digits(w + f) && Read(w + "." + f, false) == Reading(Magnitude(w + f), |f|, false, 0)
    ensures ScanReal(w + "." + f, false)
            == Some(if f != "" then Fraction else if w == "" then BarePoint else PointAfter)
  {
    MagnitudeOfDigits(w, f);
    if f == "" {
      assert w + "." + f == w + ['.'] && w + f == w;
      ReadDot(w);
    } else {
      var init, c := f[..|f| - 1], f[|f| - 1];
      hide *;
      LastDigit(w, f);
      LastDigit(w + ".", f);
      ReadPoint(w, init);
      ReadFraction(w + "." + init, w + init, |init|, c);
    }
  }

  lemma ReadDot(w: string)
    requires Digits(w)
    ensures Read(w + ['.'], false) == Reading(Magnitude(w), 0, false, 0)
    ensures ScanReal(w + ['.'], false) == Some(if w == "" then BarePoint else PointAfter)
  {
    hide Magnitude, Read, ScanReal;
    ReadWhole(w);
    ReadStep(w, '.');
  }

  /** One more digit of the power. */
  lemma ReadPowerDigit(t: string, r: Reading, digits: string, c: char)
    requires Digit(c) && Digits(digits) && Read(t, false) == r.(power := Magnitude(digits))
    requires ScanReal(t, false) in [Some(Exponent), Some(ExponentSign), Some(ExponentDigits)]
    ensures Digits(digits + [c]) && Read(t + [c], false) == r.(power := Magnitude(digits + [c]))
    ensures ScanReal(t + [c], false) == Some(ExponentDigits)
  {
    hide Magnitude, Read, ScanReal;
    ReadStep(t, c);
    MagnitudeStep(digits, c);
  }

  lemma {:induction false} ReadPower(t: string, r: Reading, p: string)
    requires Digits(p) && p != "" && Read(t, false) == r && r.power == 0
    requires ScanReal(t, false) == Some(Exponent) || ScanReal(t, false) == Some(ExponentSign)
    ensures Read(t + p, false) == r.(power := Magnitude(p)) && ScanReal(t + p, false) == Some(ExponentDigits)
  {
    hide *;
    var init, c := p[..|p| - 1], p[|p| - 1];
    LastDigit(t, p);
    if init != "" { ReadPower(t, r, init); } else { NoDigit(t); }
    ReadPowerDigit(t + init, r, init, c);
  }

  lemma LastDigit(t: string, p: string)
    requires Digits(p) && p != ""
    ensures var init, c := p[..|p| - 1], p[|p| - 1];
            p == init + [c] && t + p == (t + init) + [c] && Digits(init) && Digit(c)
  {
    assert p[|p| - 1] in p && forall d | d in p[..|p| - 1] :: d in p;
  }

  lemma NoDigit(t: string)
    ensures t + "" == t && Magnitude("") == 0
  {
  }

  /** The digits of a number, wherever its point is. */
  lemma ReadMantissa(w: string, point: bool, f: string)
    requires Digits(w) && Digits(f) && w + f != "" && (f != "" ==> point)
    ensures Digits(w + f)
    ensures Read(w + PointText(point, f), false) == Reading(Magnitude(w + f), |f|, false, 0)
    ensures ScanReal(w + PointText(point, f), false)
            == Some(if f != "" then Fraction else if point then PointAfter else Integral)
  {
    if point {
      ReadPoint(w, f);
      assert w + PointText(point, f) == w + "." + f;
    } else {
      ReadWhole(w);
      assert w + f == w && w + PointText(point, f) == w;
    }
  }

  lemma ReadDecimal(w: string, point: bool, f: string, mark: string, sign: string, p: string)
    requires Digits(w) && Digits(f) && w + f != "" && (f != "" ==> point) && Powered(mark, sign, p)
    ensures Digits(w + f) && Digits(p)
    ensures var t := w + PointText(point, f) + PowerText(mark, sign, p);
            && Read(t, false) == Reading(Magnitude(w + f), |f|, sign == "-", Magnitude(p))
            && ScanReal(t, false) == Some(if p != "" then ExponentDigits else if f != "" then Fraction
                                          else if point then PointAfter else Integral)
  {
    var m := w + PointText(point, f);
    assert p == "" ==> m + PowerText(mark, sign, p) == m && Magnitude(p) == 0;
    hide Magnitude, Read, ScanReal, PointText;
    ReadMantissa(w, point, f);
    if p != "" { ReadExponent(m, mark, sign, p); }
  }

  lemma ReadExponent(m: string, mark: string, sign: string, p: string)
    requires p != "" && Powered(mark, sign, p) && Read(m, false).power == 0 && !Read(m, false).powerNeg
    requires ScanReal(m, false).Some? && FinalReal(ScanReal(m, false).value)
    requires ScanReal(m, false) != Some(ExponentDigits)
    ensures var t := m + PowerText(mark, sign, p);
            && Read(t, false) == Read(m, false).(powerNeg := sign == "-", power := Magnitude(p))
            && ScanReal(t, false) == Some(ExponentDigits)
  {
    hide Magnitude, Read, ScanReal;
    var e := m + [mark[0]];
    ReadStep(m, mark[0]);
    if sign == "" {
      assert m + PowerText(mark, sign, p) == e + p;
      ReadPower(e, Read(e, false), p);
    } else {
      ReadStep(e, sign[0]);
      assert m + PowerText(mark, sign, p) == e + [sign[0]] + p;
      ReadPower(e + [sign[0]], Read(e + [sign[0]], false), p);
    }
  }

  /** The value before rounding. */
  lemma ExactDecimal(w: string, point: bool, f: string, mark: string, sign: string, p: string)
    requires Digits(w) && Digits(f) && w + f != "" && (f != "" ==> point) && Powered(mark, sign, p)
    ensures Digits(p) && DecimalValue(w, f, sign, p) >= 0.0
    ensures ExactValue(w + PointText(point, f) + PowerText(mark, sign, p), false) == DecimalValue(w, f, sign, p)
  {
    var t := w + PointText(point, f) + PowerText(mark, sign, p);
    hide *;
    ReadDecimal(w, point, f, mark, sign, p);
    DigitsAre(w + f);
    DigitsAre(p);
    var n, k := Magnitude(w + f), Magnitude(p);
    ExactReading(t, n, |f|, sign == "-", k);
    DecimalIs(w, f, sign, p);
    ShiftDecimal(n as real, |f|, sign == "-", k);
  }

  lemma DigitsAre(t: string)
    requires Digits(t)
    ensures forall c | c in t :: Digit(c)
  {
  }

  lemma ExactReading(t: string, digits: nat, scale: nat, down: bool, power: nat)
    requires Read(t, false) == Reading(digits, scale, down, power)
    ensures ExactValue(t, false) == Shift(digits as real, Signed(down, power) - scale)
  {
    hide Read, Shift;
  }

  lemma DecimalIs(w: string, f: string, sign: string, p: string)
    requires Digits(w) && Digits(f) && Digits(p)
    ensures Digits(w + f)
    ensures var v, scale := Magnitude(w + f) as real / Tens(|f|) as real, Tens(Magnitude(p)) as real;
            DecimalValue(w, f, sign, p) == if sign == "-" then v / scale else v * scale
  {
    MagnitudeOfDigits(w, f);
    hide Magnitude, Tens, Digits;
  }

  lemma ShiftDecimal(m: real, n: nat, down: bool, k: nat)
    requires m >= 0.0
    ensures Shift(m, Signed(down, k) - n) ==
            (var v := m / Tens(n) as real; if down then v / Tens(k) as real else v * Tens(k) as real)
    ensures Shift(m, Signed(down, k) - n) >= 0.0
  {
    hide Shift, Tens;
    var low := Signed(true, n);
    ShiftNothing(m);
    ShiftDown(m, 0, n);
    Quotient(m, Tens(n) as real);
    var v := Shift(m, low);
    assert v == m / Tens(n) as real && v >= 0.0;
    if down {
      ShiftDown(m, low, k);
      Quotient(v, Tens(k) as real);
    } else {
      ShiftBy(m, low, k);
      Product(v, Tens(k) as real);
    }
  }

  lemma ShiftNothing(m: real)
    ensures Shift(m, 0) == m
  {
  }

  lemma Quotient(a: real, p: real)
    requires a >= 0.0 && p > 0.0
    ensures a / p >= 0.0
  {
  }

  lemma Product(a: real, p: real)
    requires a >= 0.0 && p > 0.0
    ensures a * p >= 0.0
  {
  }

  // ----- floats -----

  function FloatText(minus: bool, w: string, f: string, mark: string, sign: string, p: string): string {
    (if minus then "-" else "") + w + PointText(f != "", f) + PowerText(mark, sign, p)
  }

  predicate FloatParts(w: string, f: string, mark: string, sign: string, p: string) {
    AllDigits(w) && Digits(f) && Powered(mark, sign, p) && (f != "" || p != "")
  }

  lemma RoundIsNumber(v: real)
    requires v >= 0.0
    ensures Round(v) != NotANumber()
  {
    RoundUnsignedIsDouble(v);
    Pow2Step(1024);
    if RoundUnsigned(v) != Infinity() { RoundKeeps(RoundUnsigned(v)); }
    hide RoundUnsigned, Representable, Grid;
  }

  /** The value stored for a float: that of its digits, point and power, rounded to the nearest double. */
  lemma FloatValue(minus: bool, w: string, f: string, mark: string, sign: string, p: string)
    requires FloatParts(w, f, mark, sign, p)
    ensures var v := Round(DecimalValue(w, f, sign, p));
            RealValue(FloatText(minus, w, f, mark, sign, p)) == if minus then -v else v
  {
    var body := w + PointText(f != "", f) + PowerText(mark, sign, p);
    var t := FloatText(minus, w, f, mark, sign, p);
    assert t == (if minus then "-" else "") + body;
    assert body[0] == w[0] && w[0] in w && Digit(body[0]);
    StartsNumber(if minus then "-" else "", body);
    hide Digits, PointText, PowerText, FloatText, Powered, ExactValue, Round, NotANumber;
    ExactDecimal(w, f != "", f, mark, sign, p);
    RoundIsNumber(DecimalValue(w, f, sign, p));
  }

  /** Every float has such parts. */
  lemma FloatHasParts(t: string) returns (minus: bool, w: string, f: string, mark: string, sign: string, p: string)
    requires IsFloat(t)
    ensures FloatParts(w, f, mark, sign, p) && t == FloatText(minus, w, f, mark, sign, p)
  {
    if IsPlainFraction(t) {
      minus, w, f := FractionParts(t);
      mark, sign, p := "", "", "";
      assert t == FloatText(minus, w, f, mark, sign, p);
    } else {
      var i :| 0 <= i <= |t| && IsMantissa(t[..i]) && IsExponent(t[i..]);
      minus, w, f := MantissaParts(t[..i]);
      mark, sign, p := ExponentParts(t[i..]);
      assert t == t[..i] + t[i..];
    }
  }

  /** And only floats have. */
  lemma PartsAreFloat(minus: bool, w: string, f: string, mark: string, sign: string, p: string)
    requires FloatParts(w, f, mark, sign, p)
    ensures IsFloat(FloatText(minus, w, f, mark, sign, p))
  {
    var i := (if minus then "-" else "") + w;
    var m, x := i + PointText(f != "", f), PowerText(mark, sign, p);
    SignedInteger(minus, w);
    if f != "" {
      assert m[..|i|] == i && m[|i|..] == "." + f && ("." + f)[1..] == f;
      assert IsPlainFraction(m);
    } else {
      assert m == i;
    }
    if p != "" {
      ExponentText(mark, sign, p);
      assert (m + x)[..|m|] == m && (m + x)[|m|..] == x;
    } else {
      assert m + x == m;
    }
  }

  lemma SignedInteger(minus: bool, w: string)
    requires AllDigits(w)
    ensures IsInteger((if minus then "-" else "") + w)
  {
    if minus { assert ("-" + w)[1..] == w; } else { assert "" + w == w; }
  }

  lemma ExponentText(mark: string, sign: string, p: string)
    requires p != "" && Powered(mark, sign, p)
    ensures IsExponent(PowerText(mark, sign, p))
  {
    var x := PowerText(mark, sign, p);
    if sign == "" { assert x[1..] == p; } else { assert x[2..] == p; }
  }

  lemma IntegerParts(t: string) returns (minus: bool, w: string)
    requires IsInteger(t)
    ensures AllDigits(w) && t == (if minus then "-" else "") + w
  {
    if AllDigits(t) { minus, w := false, t; } else { minus, w := true, t[1..]; }
  }

  lemma FractionParts(t: string) returns (minus: bool, w: string, f: string)
    requires IsPlainFraction(t)
    ensures AllDigits(w) && Digits(f) && f != "" && t == (if minus then "-" else "") + w + PointText(true, f)
  {
    var i :| 0 <= i <= |t| && IsInteger(t[..i]) && IsFraction(t[i..]);
    var u, v := t[..i], t[i..];
    assert t == u + v;
    hide *;
    minus, w := IntegerParts(u);
    f := Behind(v);
  }

  lemma Behind(t: string) returns (f: string)
    requires IsFraction(t)
    ensures Digits(f) && f != "" && t == PointText(true, f)
  {
    f := t[1..];
    assert t == "." + f;
  }

  lemma MantissaParts(t: string) returns (minus: bool, w: string, f: string)
    requires IsMantissa(t)
    ensures AllDigits(w) && Digits(f) && t == (if minus then "-" else "") + w + PointText(f != "", f)
  {
    if IsInteger(t) {
      minus, w := IntegerParts(t);
      f := "";
    } else {
      minus, w, f := FractionParts(t);
    }
  }

  lemma ExponentParts(t: string) returns (mark: string, sign: string, p: string)
    requires IsExponent(t)
    ensures p != "" && Powered(mark, sign, p) && t == PowerText(mark, sign, p)
  {
    mark := [t[0]];
    if AllDigits(t[1..]) { sign, p := "", t[1..]; } else { sign, p := [t[1]], t[2..]; }
    assert t == mark + sign + p;
  }

  /** Which bytes `strtod` would still take after a number that ends like this. */
  predicate TakesMore(point: bool, f: string, p: string, c: char) {
    Digit(c) || (p == "" && (c in "eE" || c in "xX" || (!point && c == '.')))
  }

  /** `atof` on any memory: white space, a sign, and the longest decimal number; any of its parts may be missing. */
  lemma AtofReads(blanks: string, minus: string, w: string, point: bool, f: string, mark: string, sign: string,
                  p: string, rest: string)
    requires Spacing(blanks) && SignText(minus)
    requires Digits(w) && Digits(f) && w + f != "" && (f != "" ==> point) && Powered(mark, sign, p)
    requires rest != "" ==> !TakesMore(point, f, p, rest[0])
    ensures var v := Round(DecimalValue(w, f, sign, p)); var body := w + PointText(point, f) + PowerText(mark, sign, p);
            Atof(blanks + minus + body + rest) == if minus == "-" then -v else v
  {
    hide *;
    var body := w + PointText(point, f) + PowerText(mark, sign, p);
    var s := body + rest;
    ReadDecimal(w, point, f, mark, sign, p);
    BodyStarts(w, point, f, mark, sign, p, rest);
    AtofSigned(blanks, minus, s);
    assert blanks + minus + body + rest == blanks + minus + s;
    ReadsBody(w, point, f, mark, sign, p, rest);
    ExactDecimal(w, point, f, mark, sign, p);
    RoundIsNumber(DecimalValue(w, f, sign, p));
  }

  /** White space and sign. */
  lemma AtofBehind(blanks: string, sign: string, s: string)
    requires Spacing(blanks) && SignText(sign) && s != "" && !Blank(s[0]) && s[0] !in "+-"
    ensures Atof(blanks + sign + s) == WithSign(sign == "-", Unsigned(s))
  {
    StartsNumber(sign, s);
    SkipSpacing(blanks, sign + s);
    assert blanks + sign + s == blanks + (sign + s);
    hide AfterBlanks, Unsigned, NotANumber, Negative, AfterSign, Spacing, WithSign;
  }

  lemma AtofSigned(blanks: string, minus: string, s: string)
    requires Spacing(blanks) && SignText(minus) && s != "" && (Digit(s[0]) || s[0] == '.')
    ensures var v := Unsigned(s);
            v != NotANumber() ==> Atof(blanks + minus + s) == if minus == "-" then -v else v
  {
    assert !Blank(s[0]) && s[0] !in "+-";
    hide Unsigned, NotANumber, Atof, Spacing;
    AtofBehind(blanks, minus, s);
  }

  lemma BodyStarts(w: string, point: bool, f: string, mark: string, sign: string, p: string, rest: string)
    requires Digits(w) && Digits(f) && w + f != "" && (f != "" ==> point) && Powered(mark, sign, p)
    ensures var s := w + PointText(point, f) + PowerText(mark, sign, p) + rest;
            s != "" && (Digit(s[0]) || s[0] == '.')
  {
    if w != "" { assert w[0] in w; }
  }

  /** Behind blanks and sign. */
  lemma ReadsBody(w: string, point: bool, f: string, mark: string, sign: string, p: string, rest: string)
    requires Digits(w) && Digits(f) && w + f != "" && (f != "" ==> point) && Powered(mark, sign, p)
    requires rest != "" ==> !TakesMore(point, f, p, rest[0])
    ensures var body := w + PointText(point, f) + PowerText(mark, sign, p);
            Unsigned(body + rest) == Round(ExactValue(body, false))
  {
    var body := w + PointText(point, f) + PowerText(mark, sign, p);
    var s := body + rest;
    hide *;
    BodyStarts(w, point, f, mark, sign, p, rest);
    NoHex(w, point, f, mark, sign, p, rest);
    StopsBehind(w, point, f, mark, sign, p, rest);
    NoWord(s);
    assert s[..|body|] == body;
  }

  /** What stands in front is neither a word nor a hexadecimal number. */
  lemma NoWord(s: string)
    requires s != "" && (Digit(s[0]) || s[0] == '.') && !IsHex(s)
    ensures Unsigned(s) == Round(ExactValue(s[..Longest(s, |s|, false)], false))
  {
    assert "nan"[0] == 'n' && "inf"[0] == 'i' && Lower(s[0]) == s[0];
    hide ExactValue, Round, IsHex, Longest;
  }

  lemma StopsBehind(w: string, point: bool, f: string, mark: string, sign: string, p: string, rest: string)
    requires Digits(w) && Digits(f) && w + f != "" && (f != "" ==> point) && Powered(mark, sign, p)
    requires rest != "" ==> !TakesMore(point, f, p, rest[0])
    ensures var body := w + PointText(point, f) + PowerText(mark, sign, p);
            Longest(body + rest, |body + rest|, false) == |body|
  {
    var body := w + PointText(point, f) + PowerText(mark, sign, p);
    var s := body + rest;
    ReadDecimal(w, point, f, mark, sign, p);
    assert body != "" && s[..|body|] == body && (rest != "" ==> s[|body|] == rest[0]);
    hide Read, ScanReal, PointText, PowerText, Digits, Magnitude, Longest;
    LongestStops(s, |body|, |s|);
  }

  lemma NoHex(w: string, point: bool, f: string, mark: string, sign: string, p: string, rest: string)
    requires Digits(w) && Digits(f) && w + f != "" && (f != "" ==> point) && Powered(mark, sign, p)
    requires rest != "" ==> !TakesMore(point, f, p, rest[0])
    ensures !IsHex(w + PointText(point, f) + PowerText(mark, sign, p) + rest)
  {
    var body := w + PointText(point, f) + PowerText(mark, sign, p);
    var s := body + rest;
    if |s| > 1 {
      if |body| > 1 {
        assert s[1] == body[1];
        SecondByte(w, point, f, mark, sign, p);
      } else {
        assert s[1] == rest[0];
      }
    }
    hide Longest;
  }

  lemma SecondByte(w: string, point: bool, f: string, mark: string, sign: string, p: string)
    requires Digits(w) && Digits(f) && w + f != "" && (f != "" ==> point) && Powered(mark, sign, p)
    ensures var body := w + PointText(point, f) + PowerText(mark, sign, p);
            |body| > 1 ==> body[1] !in "xX"
  {
    var body := w + PointText(point, f) + PowerText(mark, sign, p);
    assert forall c | c in w :: Digit(c);
    assert forall c | c in f :: Digit(c);
    assert forall c | c in p :: Digit(c);
    if |body| > 1 {
      var c := body[1];
      assert c in w || c in PointText(point, f) || c in PowerText(mark, sign, p);
      assert c in PointText(point, f) ==> c == '.' || c in f;
      assert c in PowerText(mark, sign, p) ==> c in mark || c in sign || c in p;
    }
  }

  /** The words of `strtod`, in letters of either case. */
  lemma AtofWords(blanks: string, sign: string, a: char, b: char, c: char, rest: string)
    requires Spacing(blanks) && SignText(sign)
    ensures a in "nN" && b in "aA" && c in "nN" ==> Atof(blanks + sign + ([a, b, c] + rest)) == NotANumber()
    ensures a in "iI" && b in "nN" && c in "fF" ==>
              Atof(blanks + sign + ([a, b, c] + rest)) == if sign == "-" then -Infinity() else Infinity()
  {
    var s := [a, b, c] + rest;
    assert s[0] == a && s[1] == b && s[2] == c;
    SpelledOut(s);
    if a in "nNiI" {
      hide *;
      LetterInFront(s);
      AtofBehind(blanks, sign, s);
      Words(s, sign == "-");
    }
  }

  lemma LetterInFront(s: string)
    requires s != "" && s[0] in "nNiI"
    ensures !Blank(s[0]) && s[0] !in "+-"
  {
  }

  lemma Words(s: string, minus: bool)
    ensures Spells(s, "nan") ==> WithSign(minus, Unsigned(s)) == NotANumber()
    ensures Spells(s, "inf") && !Spells(s, "nan") ==>
              WithSign(minus, Unsigned(s)) == if minus then -Infinity() else Infinity()
  {
    Pow2Step(1024);
    hide Spells, Round, ExactValue, IsHex, Longest;
  }

  lemma SpelledOut(s: string)
    requires |s| >= 3
    ensures Spells(s, "nan") <==> s[0] in "nN" && s[1] in "aA" && s[2] in "nN"
    ensures Spells(s, "inf") <==> s[0] in "iI" && s[1] in "nN" && s[2] in "fF"
  {
    assert "nan"[0] == 'n' && "nan"[1] == 'a' && "nan"[2] == 'n';
    assert "inf"[0] == 'i' && "inf"[1] == 'n' && "inf"[2] == 'f';
  }

  /** Where there is no number to read, the result is zero. */
  lemma AtofNothing(blanks: string, rest: string)
    requires Spacing(blanks)
    requires rest != "" ==> !Digit(rest[0]) && !Space(rest[0]) && rest[0] !in "+-.nNiI"
    ensures Atof(blanks + rest) == 0.0
  {
    if rest != "" { SpaceIsBlank(rest[0]); }
    SkipSpacing(blanks, rest);
    NothingRead(rest);
    ReadWhole("");
    RoundScaled(0, 0);
    assert Scaled(0, 0) == 0.0 && rest[..0] == "" && Magnitude("") == 0;
    assert rest != "" ==> Lower(rest[0]) != 'n' && Lower(rest[0]) != 'i';
    assert "nan"[0] == 'n' && "inf"[0] == 'i';
    hide Longest, Round, NotANumber, Spacing, AfterBlanks, Read;
  }

  lemma NothingRead(s: string)
    requires s != "" ==> !Digit(s[0]) && s[0] != '.'
    ensures Longest(s, |s|, false) == 0
  {
    if s != "" {
      assert s[..1] == "" + [s[0]];
      ScanRealAppend("", s[0]);
      NoPrefix(s, |s|);
    }
  }

  lemma {:induction false} NoPrefix(s: string, k: nat)
    requires k <= |s| && s != "" && ScanReal(s[..1], false) == None
    ensures Longest(s, k, false) == 0
  {
    if k > 0 {
      ScanRealDead(s, 1, k);
      NoPrefix(s, k - 1);
    }
  }

  // ----- ties -----

  /** A value halfway between two neighbouring doubles goes to the one with the even mantissa. */
  lemma TieGoesEven(m: int, e: int)
    requires MIN_EXP <= e <= MAX_EXP && (if e == MIN_EXP then 0 else MANTISSA / 2) <= m < MANTISSA - 1
    ensures var v := (Scaled(m, e) + Scaled(m + 1, e)) / 2.0;
            Round(v) == Scaled(if m % 2 == 0 then m else m + 1, e)
  {
    hide *;
    var v, n := (Scaled(m, e) + Scaled(m + 1, e)) / 2.0, if m % 2 == 0 then m else m + 1;
    Between(m, e, v);
    TieGrid(m, e, v);
    HalfPlace(m, e, v);
    Halfway(m);
    BelowTop(n, e);
    RoundsTo(v, e, n);
  }

  lemma RoundsTo(v: real, e: int, n: int)
    requires v >= 0.0 && Grid(v) == e && NearestEven(v / Pow2(e)) == n && Scaled(n, e) <= Infinity()
    ensures Round(v) == Scaled(n, e)
  {
    hide Grid, NearestEven, Scaled, Infinity, Pow2;
  }

  lemma Halfway(m: int)
    ensures NearestEven(m as real + 0.5) == if m % 2 == 0 then m else m + 1
  {
    assert (m as real + 0.5).Floor == m;
  }

  lemma BelowTop(n: int, e: int)
    requires MIN_EXP <= e <= MAX_EXP && n < MANTISSA
    ensures Scaled(n, e) <= Infinity()
  {
    ScaledLess(n, MANTISSA, e);
    MantissaIs(e);
    Pow2Grows(53 + e, 1024);
    hide Pow2, Scaled;
  }

  lemma Between(m: int, e: int, v: real)
    requires v == (Scaled(m, e) + Scaled(m + 1, e)) / 2.0
    ensures Scaled(m, e) < v < Scaled(m + 1, e) && (m >= 0 ==> v >= 0.0)
  {
    ScaledLess(m, m + 1, e);
    NonNegative(m, e);
    hide Scaled;
  }

  lemma HalfPlace(m: int, e: int, v: real)
    requires v == (Scaled(m, e) + Scaled(m + 1, e)) / 2.0
    ensures v / Pow2(e) == m as real + 0.5
  {
    var p := Pow2(e);
    assert Scaled(m, e) == m as real * p && Scaled(m + 1, e) == (m as real + 1.0) * p;
    hide *;
    Middle(m as real, p);
    Undo(m as real + 0.5, p, v);
  }

  lemma Middle(m: real, p: real)
    ensures (m * p + (m + 1.0) * p) / 2.0 == (m + 0.5) * p
  {
  }

  lemma TieGrid(m: int, e: int, v: real)
    requires MIN_EXP <= e <= MAX_EXP && (if e == MIN_EXP then 0 else MANTISSA / 2) <= m < MANTISSA - 1
    requires Scaled(m, e) < v < Scaled(m + 1, e)
    ensures Grid(v) == e
  {
    hide *;
    MantissaIs(e);
    ScaledLess(m + 1, MANTISSA, e);
    if m > MANTISSA / 2 { ScaledLess(MANTISSA / 2, m, e); }
    GridBounds(v);
    var g := Grid(v);
    if g > e { Pow2Grows(53 + e, 52 + g); }
    if g < e { Pow2Grows(53 + g, 52 + e); }
  }

  lemma GridBounds(v: real)
    ensures MIN_EXP <= Grid(v) <= MAX_EXP && (v < Pow2(53 + Grid(v)) || Grid(v) == MAX_EXP)
    ensures Grid(v) > MIN_EXP ==> v >= Pow2(52 + Grid(v))
  {
    hide Pow2, Grid;
  }

  // ----- printing -----

  /** `%f`: six digits behind the point; the decimal is as near to the double as six digits allow, even on a tie. */
  lemma DoubleTextIs(d: real) returns (w: string, f: string)
    requires Abs(d) < Infinity()
    ensures AllDigits(w) && Digits(f) && |f| == 6 && (w[0] == '0' ==> w == "0")
    ensures DoubleText(d) == (if d < 0.0 then "-" else "") + w + "." + f
    ensures var n := Magnitude(w + f) as real;
            && Abs(n - Abs(d) * 1000000.0) <= 0.5
            && (Abs(n - Abs(d) * 1000000.0) == 0.5 ==> Magnitude(w + f) % 2 == 0)
  {
    assert Abs(d) * 1000000.0 >= 0.0;
    hide *;
    var x := Abs(d) * 1000000.0;
    HalfAway(x);
    var n := NearestEven(x);
    PrintsSigned(d, n);
    w, f := SixPlaces(n);
  }

  lemma PrintsSigned(d: real, n: int)
    requires Abs(d) < Infinity() && n == NearestEven(Abs(d) * 1000000.0)
    ensures n >= 0
    ensures var frac := NatText(n % 1000000);
            DoubleText(d) == (if d < 0.0 then "-" else "") + NatText(n / 1000000) + "."
                             + ((if |frac| < 6 then Zeros(6 - |frac|) else "") + frac)
  {
    NoEnds(d);
    HalfAway(Abs(d) * 1000000.0);
    hide NearestEven, NatText, Zeros, NotANumber, Infinity;
  }

  lemma NoEnds(d: real)
    requires Abs(d) < Infinity()
    ensures d != NotANumber() && d != Infinity() && d != -Infinity()
  {
    Pow2Step(1024);
  }

  lemma HalfAway(x: real)
    requires x >= 0.0
    ensures var n := NearestEven(x);
            n >= 0 && Abs(n as real - x) <= 0.5 && (Abs(n as real - x) == 0.5 ==> n % 2 == 0)
  {
    NearestIs(x);
  }

  /** The decimal digits of n, the last six apart. */
  lemma SixPlaces(n: nat) returns (w: string, f: string)
    ensures AllDigits(w) && Digits(f) && |f| == 6 && (w[0] == '0' ==> w == "0")
    ensures w == NatText(n / 1000000)
    ensures var frac := NatText(n % 1000000); f == (if |frac| < 6 then Zeros(6 - |frac|) else "") + frac
    ensures Digits(w + f) && Magnitude(w + f) == n
  {
    NatTextValue(n / 1000000);
    NoZeroInFront(n / 1000000);
    assert Digits(NatText(n / 1000000)) && AllDigits(NatText(n / 1000000));
    hide *;
    w := NatText(n / 1000000);
    f := LastSix(n % 1000000);
    MagnitudeOfDigits(w, f);
  }

  lemma LastSix(n: nat) returns (f: string)
    requires n < 1000000
    ensures Digits(f) && |f| == 6 && Magnitude(f) == n && Tens(6) == 1000000
    ensures var frac := NatText(n); f == (if |frac| < 6 then Zeros(6 - |frac|) else "") + frac
  {
    var frac := NatText(n);
    assert Tens(3) == 1000;
    assert Tens(6) == 1000000;
    TextWidth(n, 6);
    NatTextValue(n);
    f := Zeros(6 - |frac|) + frac;
    assert |frac| == 6 ==> f == "" + frac;
    ZerosInFront(6 - |frac|, frac);
    hide NatText, Magnitude, Tens;
  }

  lemma {:induction false} TextWidth(n: nat, k: nat)
    requires k > 0 && n < Tens(k)
    ensures |NatText(n)| <= k
  {
    if n >= 10 { TextWidth(n / 10, k - 1); }
  }

  lemma {:induction false} NoZeroInFront(n: nat)
    ensures NatText(n)[0] == '0' ==> n == 0 && NatText(n) == "0"
  {
    if n >= 10 { NoZeroInFront(n / 10); }
  }

  lemma {:induction false} ZerosInFront(k: nat, t: string)
    requires Digits(t)
    ensures Digits(Zeros(k) + t) && Magnitude(Zeros(k) + t) == Magnitude(t)
  {
    if k == 0 {
      assert Zeros(0) + t == t;
    } else {
      ZerosInFront(k - 1, t);
      var u := Zeros(k - 1) + t;
      assert Zeros(k) + t == "0" + u;
      MagnitudeOfDigit(0);
      assert ["0123456789"[0]] == "0";
      MagnitudeOfDigits("0", u);
    }
  }
}
