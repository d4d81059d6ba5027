/** The C library conversions the parser and the printer rely on, and `interpretate_esc_seq`. */
module Conversions {
  import opened Values
  import opened Lexical
  import opened Doubles

  function DigitValue(c: char): int { c as int - '0' as int }

  /** The natural number a digit string denotes. */
  function Magnitude(t: string): (n: nat)
    requires forall c | c in t :: Digit(c)
  {
    if t == "" then 0
    else
      assert Digit(t[|t| - 1]);
      10 * Magnitude(t[..|t| - 1]) + DigitValue(t[|t| - 1])
  }

  /** `(int)strtol(t)` on a 64-bit platform: clamped to a long, then its low 32 bits. */
  function ToInt(v: int): Int32 {
    var long := if v < -0x8000_0000_0000_0000 then -0x8000_0000_0000_0000
                else if v > 0x7fff_ffff_ffff_ffff then 0x7fff_ffff_ffff_ffff else v;
    var low := long % 0x1_0000_0000;
    if low < 0x8000_0000 then low else low - 0x1_0000_0000
  }

  function IntValue(t: string): Int32 {
    if !IsInteger(t) then 0
    else if AllDigits(t) then ToInt(Magnitude(t))
    else ToInt(0 - Magnitude(t[1..]) as int)
  }

  // ----- strtol and strtod, on any memory -----

  /** `isspace` */
  predicate Blank(c: char) { c == ' ' || 9 <= c as int <= 13 }

  function AfterBlanks(s: string): string {
    if s != "" && Blank(s[0]) then AfterBlanks(s[1..]) else s
  }

  predicate Negative(s: string) { s != "" && s[0] == '-' }

  function AfterSign(s: string): string {
    if s != "" && s[0] in "+-" then s[1..] else s
  }

  /** How many digits a text starts with. */
  function DigitRun(s: string): (n: nat)
    ensures n <= |s| && (forall c | c in s[..n] :: Digit(c)) && (n < |s| ==> !Digit(s[n]))
  {
    if s != "" && Digit(s[0]) then
      assert forall n: nat | n <= |s[1..]| :: s[..1 + n] == [s[0]] + s[1..][..n];
      1 + DigitRun(s[1..])
    else 0
  }

  /** `atoi` */
  function Atoi(s: string): Int32 {
    var t := AfterBlanks(s);
    var u := AfterSign(t);
    var n: int := Magnitude(u[..DigitRun(u)]);
    ToInt(if Negative(t) then -n else n)
  }

  /** Where `strtod` stands inside a number: before and after its digits, its point and its exponent. */
  datatype RealState =
    | NoDigits | Integral | BarePoint | PointAfter | Fraction | Exponent | ExponentSign | ExponentDigits

  predicate RealDigit(c: char, hex: bool) { if hex then HexDigit(c) else Digit(c) }
  predicate ExponentMark(c: char, hex: bool) { if hex then c in "pP" else c in "eE" }

  function NextReal(s: RealState, c: char, hex: bool): Option<RealState> {
    match s
    case NoDigits => if RealDigit(c, hex) then Some(Integral) else if c == '.' then Some(BarePoint) else None
    case Integral =>
      if RealDigit(c, hex) then Some(Integral) else if c == '.' then Some(PointAfter)
      else if ExponentMark(c, hex) then Some(Exponent) else None
    case BarePoint => if RealDigit(c, hex) then Some(Fraction) else None
    case PointAfter =>
      if RealDigit(c, hex) then Some(Fraction) else if ExponentMark(c, hex) then Some(Exponent) else None
    case Fraction =>
      if RealDigit(c, hex) then Some(Fraction) else if ExponentMark(c, hex) then Some(Exponent) else None
    case Exponent => if Digit(c) then Some(ExponentDigits) else if c in "+-" then Some(ExponentSign) else None
    case ExponentSign => if Digit(c) then Some(ExponentDigits) else None
    case ExponentDigits => if Digit(c) then Some(ExponentDigits) else None
  }

  predicate FinalReal(s: RealState) { s == Integral || s == PointAfter || s == Fraction || s == ExponentDigits }

  function ScanReal(t: string, hex: bool): Option<RealState> {
    if t == "" then Some(NoDigits)
    else
      match ScanReal(t[..|t| - 1], hex)
      case None => None
      case Some(s) => NextReal(s, t[|t| - 1], hex)
  }

  /** What has been gathered of `m.f e p`: the digits, how many follow the point, and the power. */
  datatype Reading = Reading(digits: int, scale: nat, powerNeg: bool, power: int)

  function HexValue(c: char): int {
    if 'a' <= c then c as int - 'a' as int + 10 else if 'A' <= c then c as int - 'A' as int + 10 else DigitValue(c)
  }

  function Read(t: string, hex: bool): Reading {
    if t == "" then Reading(0, 0, false, 0)
    else
      var r, c := Read(t[..|t| - 1], hex), t[|t| - 1];
      var digits := if hex then 16 * r.digits + HexValue(c) else 10 * r.digits + DigitValue(c);
      match ScanReal(t, hex)
      case Some(Integral) => r.(digits := digits)
      case Some(Fraction) => r.(digits := digits, scale := r.scale + 1)
      case Some(ExponentSign) => r.(powerNeg := c == '-')
      case Some(ExponentDigits) => r.(power := 10 * r.power + DigitValue(c))
      case _ => r
  }

  function Shift(v: real, places: int): real
    decreases if places < 0 then -places else places
  {
    if places == 0 then v else if places > 0 then Shift(v * 10.0, places - 1) else Shift(v / 10.0, places + 1)
  }

  /** The number a text denotes, exactly: in decimal, or in hexadecimal with a binary exponent. */
  function ExactValue(t: string, hex: bool): real {
    var r := Read(t, hex);
    var power := if r.powerNeg then -r.power else r.power;
    if hex then Scaled(r.digits, power - 4 * r.scale) else Shift(r.digits as real, power - r.scale)
  }

  /** Length of the longest prefix, no longer than `k`, that is a number. */
  function Longest(s: string, k: nat, hex: bool): (n: nat)
    requires k <= |s|
    ensures n <= k
  {
    if k == 0 then 0
    else if ScanReal(s[..k], hex).Some? && FinalReal(ScanReal(s[..k], hex).value) then k
    else Longest(s, k - 1, hex)
  }

  function Lower(c: char): char { if 'A' <= c <= 'Z' then (c as int + 32) as char else c }

  /** The text starts with this word, in letters of either case. */
  predicate Spells(s: string, word: string) {
    |s| >= |word| && forall i :: 0 <= i < |word| ==> Lower(s[i]) == word[i]
  }

  predicate IsHex(s: string) {
    |s| > 2 && s[0] == '0' && s[1] in "xX" && Longest(s[2..], |s| - 2, true) > 0
  }

  /** `strtod` behind blanks and sign. */
  function Unsigned(s: string): real {
    if Spells(s, "nan") then NotANumber()
    else if Spells(s, "inf") then Infinity()
    else if IsHex(s) then Round(ExactValue(s[2..][..Longest(s[2..], |s| - 2, true)], true))
    else Round(ExactValue(s[..Longest(s, |s|, false)], false))
  }

  function WithSign(negative: bool, v: real): real { if negative && v != NotANumber() then -v else v }

  /** `atof` */
  function Atof(s: string): real {
    var t := AfterBlanks(s);
    WithSign(Negative(t), Unsigned(AfterSign(t)))
  }

  /** The double nearest to the number a float text denotes. */
  function RealValue(t: string): real { WithSign(Negative(t), Round(ExactValue(AfterSign(t), false))) }

  // ----- conversions of tokens -----

  lemma AtoiOfToken(token: string, rest: string)
    requires IsInteger(token) && (rest != "" ==> !Digit(rest[0]))
    ensures Atoi(token + rest) == IntValue(token)
  {
    var s := token + rest;
    var u := AfterSign(s);
    var digits := AfterSign(token);
    assert token[0] in token && s[0] == token[0] && !Blank(s[0]);
    assert u == digits + rest;
    assert u[..|digits|] == digits;
  }

  lemma {:induction false} ScanRealDead(s: string, n: nat, k: nat)
    requires n <= k <= |s| && ScanReal(s[..n], false) == None
    ensures ScanReal(s[..k], false) == None
  {
    if n < k {
      ScanRealDead(s, n, k - 1);
      assert s[..k][..k - 1] == s[..k - 1];
    }
  }

  lemma ScanRealAppend(t: string, c: char)
    ensures ScanReal(t + [c], false) ==
            match ScanReal(t, false) case None => None case Some(s) => NextReal(s, c, false)
  {
    assert (t + [c])[..|t|] == t;
  }

  lemma {:induction false} LongestStops(s: string, n: nat, k: nat)
    requires 0 < n <= k <= |s|
    requires ScanReal(s[..n], false).Some? && FinalReal(ScanReal(s[..n], false).value)
    requires n < |s| ==> NextReal(ScanReal(s[..n], false).value, s[n], false) == None
    ensures Longest(s, k, false) == n
  {
    if n < k {
      assert s[..n + 1] == s[..n] + [s[n]];
      ScanRealAppend(s[..n], s[n]);
      ScanRealDead(s, n + 1, k);
      LongestStops(s, n, k - 1);
    }
  }

  /** A token's states are states of `strtod`, behind the sign. */
  function RealStateOf(d: NumState): RealState {
    match d
    case Minus => NoDigits
    case Whole => Integral
    case Point => PointAfter
    case Decimals => Fraction
    case E => Exponent
    case Sign => ExponentSign
    case Power => ExponentDigits
  }

  lemma NextAgrees(d: NumState, c: char)
    requires FinalNumber(d)
    ensures NextReal(RealStateOf(d), c, false) == None <==> NextNumber(d, c) == None
  {
  }

  lemma {:induction false} TokenScan(t: string)
    requires ScanNumber(t).Some?
    ensures t != "" && (t[0] == '-' || Digit(t[0])) && (ScanNumber(t).value == Minus <==> t == "-")
    ensures ScanReal(AfterSign(t), false) == Some(RealStateOf(ScanNumber(t).value))
    ensures forall c | c in AfterSign(t) :: Digit(c) || c in ".eE+-"
    ensures AfterSign(t) != "" ==> Digit(AfterSign(t)[0])
  {
    if |t| > 1 {
      var init, c := t[..|t| - 1], t[|t| - 1];
      TokenScan(init);
      assert t == init + [c] && AfterSign(t) == AfterSign(init) + [c];
      ScanRealAppend(AfterSign(init), c);
    } else {
      assert AfterSign(t) == "" || (AfterSign(t) == t == "" + [t[0]] && ScanReal("", false) == Some(NoDigits));
      if AfterSign(t) != "" { ScanRealAppend("", t[0]); }
    }
  }

  lemma AtofOfToken(token: string, rest: string)
    requires ScanNumber(token).Some? && FinalFloat(ScanNumber(token).value)
    requires rest != "" ==> NextNumber(ScanNumber(token).value, rest[0]) == None
    ensures Atof(token + rest) == RealValue(token)
  {
    var s := token + rest;
    var u, digits := AfterSign(s), AfterSign(token);
    TokenScan(token);
    FloatIsLong(token);
    assert s[0] == token[0] && !Blank(s[0]) && u == digits + rest;
    assert u[0] == digits[0] && u[1] == digits[1] && u[..|digits|] == digits;
    assert digits[1] in digits && Digit(u[0]) && u[1] !in "xX";
    hide Longest, ScanReal, ScanNumber, ExactValue, Round, NotANumber, IsHex, Unsigned;
    if rest != "" { NextAgrees(ScanNumber(token).value, rest[0]); }
    LongestStops(u, |digits|, |u|);
    PlainDecimal(u);
  }

  /** What starts with a digit and has no x behind it is a decimal number. */
  lemma PlainDecimal(u: string)
    requires |u| > 1 && Digit(u[0]) && u[1] !in "xX"
    ensures Unsigned(u) == Round(ExactValue(u[..Longest(u, |u|, false)], false))
  {
    assert "nan"[0] == 'n' && "inf"[0] == 'i' && Lower(u[0]) == u[0];
    hide Longest, ExactValue, Round;
  }

  lemma FloatIsLong(t: string)
    requires ScanNumber(t).Some? && FinalFloat(ScanNumber(t).value)
    ensures |AfterSign(t)| >= 2
  {
    var u := AfterSign(t);
    TokenScan(t);
    assert u[..0] == "" && ScanReal("", false) == Some(NoDigits);
  }

  /**
   A number conversion started at a token never looks past the byte that ended it: whatever the buffer
   holds beyond, the result is the value of the token alone.
   */
  lemma ConversionStopsAtToken(token: string, rest: string)
    requires ScanNumber(token).Some?
    requires rest != "" ==> NextNumber(ScanNumber(token).value, rest[0]) == None
    ensures ScanNumber(token).value == Whole ==> Atoi(token + rest) == IntValue(token)
    ensures FinalFloat(ScanNumber(token).value) ==> Atof(token + rest) == RealValue(token)
  {
    if ScanNumber(token).value == Whole {
      NumberAutomatonExact(token);
      AtoiOfToken(token, rest);
    }
    if FinalFloat(ScanNumber(token).value) { AtofOfToken(token, rest); }
  }

  // ----- printing -----

  /** `sprintf("%d")` of a natural number. */
  function NatText(n: nat): (t: string)
    ensures t != "" && forall c | c in t :: Digit(c)
  {
    var d := [(n % 10 + '0' as int) as char];
    if n < 10 then d else NatText(n / 10) + d
  }

  /** `sprintf("%d")` */
  function IntText(i: int): string { if i < 0 then "-" + NatText(-i) else NatText(i) }

  function Zeros(n: nat): string { seq(n, _ => '0') }

  /** `sprintf("%f")`: six digits after the point, the value of the double rounded to the nearest, ties to even. */
  function DoubleText(d: real): string {
    if d == NotANumber() then "nan"
    else if d == Infinity() then "inf"
    else if d == -Infinity() then "-inf"
    else
      var n := NearestEven(Abs(d) * 1000000.0);
      var frac := NatText(n % 1000000);
      (if d < 0.0 then "-" else "") + NatText(n / 1000000) + "."
      + (if |frac| < 6 then Zeros(6 - |frac|) else "") + frac
  }

  lemma {:induction false} NatTextValue(n: nat)
    ensures Magnitude(NatText(n)) == n
  {
    if n >= 10 {
      NatTextValue(n / 10);
      var t := NatText(n);
      assert t[..|t| - 1] == NatText(n / 10);
    }
  }

  /** `atoi` undoes `%d` on every C int. */
  lemma IntTextValue(i: Int32)
    ensures IsInteger(IntText(i)) && IntValue(IntText(i)) == i
  {
    var t := IntText(i);
    var n: int := i;
    if n < 0 {
      NatTextValue(-n);
      assert t[1..] == NatText(-n);
      assert t[0] in t;
    } else {
      NatTextValue(n);
    }
  }

  // ----- strings -----

  predicate Escaped(t: string) { '\\' in t }

  /** A token text that ends at a lead byte's follower count: how far the copy loop moves at once. */
  function Width(c: char): nat { 1 + Follow(c) }

  lemma GroupStart(s: TextState, c: char)
    requires AtBoundary(s) && NextText(s, c).Some? && c != '\\'
    ensures NextText(s, c).value == if Width(c) == 1 then Between else More(Width(c) - 1)
  {
  }

  lemma {:induction false} ScanTextPrefix(t: string, k: nat)
    requires ScanText(t).Some? && k <= |t|
    ensures ScanText(t[..k]).Some?
  {
    if k < |t| {
      ScanTextPrefix(t[..|t| - 1], k);
      assert t[..|t| - 1][..k] == t[..k];
    } else {
      assert t[..k] == t;
    }
  }

  lemma ScanTextAt(t: string, k: nat)
    requires k < |t| && ScanText(t[..k + 1]).Some?
    ensures ScanText(t[..k]).Some? && ScanText(t[..k + 1]) == NextText(ScanText(t[..k]).value, t[k])
  {
    assert t[..k + 1] == t[..k] + [t[k]];
    ScanTextAppend(t[..k], t[k]);
  }

  /** Inside a group the automaton counts the bytes still due. */
  lemma {:induction false} InsideGroup(t: string, off: nat, k: nat, s: TextState)
    requires ScanText(t).Some?
    requires off < off + k <= |t| && k <= Width(t[off]) && t[off] != '\\'
    requires ScanText(t[..off]) == Some(s) && AtBoundary(s)
    ensures ScanText(t[..off + k]) == Some(if k == Width(t[off]) then Between else More(Width(t[off]) - k))
  {
    hide ScanText;
    ScanTextPrefix(t, off + k);
    assert off + k - 1 + 1 == off + k;
    ScanTextAt(t, off + k - 1);
    if k > 1 {
      InsideGroup(t, off, k - 1, s);
    } else {
      GroupStart(s, t[off]);
    }
  }

  /** The copy loop never runs past the end of an escape-free token text. */
  lemma WidthStaysInside(t: string, off: nat)
    requires IsText(t) && !Escaped(t) && off < |t|
    requires ScanText(t[..off]).Some? && AtBoundary(ScanText(t[..off]).value)
    ensures off + Width(t[off]) <= |t|
    ensures var s := ScanText(t[..off + Width(t[off])]); s.Some? && AtBoundary(s.value)
  {
    TextAutomatonExact(t);
    hide ScanText, IsText, Width;
    var w := Width(t[off]);
    assert t[off] in t && t[..|t|] == t;
    assert w > 0 by { WidthPositive(t[off]); }
    InsideGroup(t, off, if off + w <= |t| then w else |t| - off, ScanText(t[..off]).value);
  }

  lemma WidthPositive(c: char)
    ensures Width(c) > 0
  {
  }

  /**
   `interpretate_esc_seq` on `len` bytes of a token text without escapes. The loop copies a whole UTF-8
   group at a time and is the identity: it neither reads nor writes past the token.
   */
  method InterpretateEscSeq(str: string, len: nat) returns (dest: string)
    requires len <= |str| && IsText(str[..len]) && !Escaped(str[..len])
    ensures dest == str[..len]
  {
    ghost var token := str[..len];
    BoundaryAtStart(token);
    hide ScanText, Width, IsText, Escaped;
    var off, destOff := 0, 0;
    var mem := new char[len + 1](_ => '\0');
    while off < len
      invariant 0 <= off == destOff <= len
      invariant mem[..destOff] == token[..off]
      invariant ScanText(token[..off]).Some? && AtBoundary(ScanText(token[..off]).value)
      decreases len - off
    {
      WidthStaysInside(token, off);
      WidthPositive(str[off]);
      var n := Width(str[off]);
      CopyBytes(mem, destOff, str, off, n);
      assert token[..off + n] == token[..off] + str[off..off + n];
      off, destOff := off + n, destOff + n;
    }
    mem[len] := '\0';
    dest := mem[..len];
    assert mem[..len] == token[..len];
  }

  lemma BoundaryAtStart(t: string)
    ensures t[..0] == "" && ScanText(t[..0]).Some? && AtBoundary(ScanText(t[..0]).value)
  {
  }

  /** `memcpy(dest + at, str + from, n)` */
  method CopyBytes(dest: array<char>, at: nat, str: string, from: nat, n: nat)
    requires at + n <= dest.Length && from + n <= |str|
    modifies dest
    ensures dest[..] == old(dest[..at]) + str[from..from + n] + old(dest[at + n..])
  {
    var k := 0;
    while k < n
      invariant 0 <= k <= n
      invariant forall j :: at <= j < at + k ==> dest[j] == str[from + j - at]
      invariant forall j :: 0 <= j < dest.Length && !(at <= j < at + k) ==> dest[j] == old(dest[j])
    {
      dest[at + k] := str[from + k];
      k := k + 1;
    }
  }
}
