/**
 The tokens of src/json.rl: their regular definitions, the automata Ragel makes of them, and the
 conversions `atoi` and `atof` that read a number out of the buffer.
 */
module Lexical {
  import opened Values

  predicate Digit(c: char) { '0' <= c <= '9' }
  predicate HexDigit(c: char) { Digit(c) || 'a' <= c <= 'f' || 'A' <= c <= 'F' }

  /** `uni_ascii_area` without `esc_seq`. */
  predicate Plain(c: char) { 0x20 <= c as int <= 0x7e && c != '"' && c != '\\' }
  predicate Continuation(c: char) { 0x80 <= c as int <= 0xbf }

  /** How many `uni` bytes must follow this lead byte; 0 when it is none. */
  function Follow(c: char): nat {
    if 0xc0 <= c as int <= 0xdf then 1
    else if 0xe0 <= c as int <= 0xef then 2
    else if 0xf0 <= c as int <= 0xf7 then 3
    else 0
  }

  // ----- the regular definitions -----

  predicate AllDigits(t: string) { |t| > 0 && forall c | c in t :: Digit(c) }

  predicate IsInteger(t: string) {
    AllDigits(t) || (|t| > 0 && t[0] == '-' && AllDigits(t[1..]))
  }

  predicate IsFraction(t: string) { |t| > 0 && t[0] == '.' && AllDigits(t[1..]) }

  predicate IsExponent(t: string) {
    && |t| > 1 && (t[0] == 'e' || t[0] == 'E')
    && (AllDigits(t[1..]) || ((t[1] == '+' || t[1] == '-') && AllDigits(t[2..])))
  }

  /** `float`: an integer part followed by a fraction, an exponent, or both. */
  ghost predicate IsFloat(t: string) { IsPlainFraction(t) || WithExponent(t) }

  ghost predicate IsPlainFraction(t: string) {
    exists i :: 0 <= i <= |t| && IsInteger(t[..i]) && IsFraction(t[i..])
  }

  ghost predicate IsMantissa(t: string) { IsInteger(t) || IsPlainFraction(t) }

  ghost predicate WithExponent(t: string) {
    exists i :: 0 <= i <= |t| && IsMantissa(t[..i]) && IsExponent(t[i..])
  }

  /** `uni_token` */
  predicate IsToken(t: string) {
    || (|t| == 1 && Plain(t[0]))
    || (|t| == 2 && t[0] == '\\' && t[1] in "\"bnr\\/ft")
    || (|t| == 6 && t[0] == '\\' && t[1] == 'u' && forall c | c in t[2..] :: HexDigit(c))
    || (|t| > 1 && |t| == 1 + Follow(t[0]) && forall c | c in t[1..] :: Continuation(c))
  }

  /** `uni_token*` */
  ghost predicate IsText(t: string) {
    t == "" || exists n :: 0 <= n < |t| && IsText(t[..n]) && IsToken(t[n..])
  }

  // ----- the fixed words -----

  datatype Word = NullWord | TrueWord | FalseWord

  function Spelling(w: Word): string {
    match w case NullWord => "null" case TrueWord => "true" case FalseWord => "false"
  }

  function WordValue(w: Word): Json {
    match w case NullWord => Null case TrueWord => Bool(true) case FalseWord => Bool(false)
  }

  // ----- the automata -----

  /** Where the machine stands inside `uni_token*`. */
  datatype TextState = Fresh | Between | More(n: nat) | Escape | Hex(n: nat)

  function NextText(s: TextState, c: char): Option<TextState> {
    match s
    case Fresh => StartToken(c)
    case Between => StartToken(c)
    case More(n) => if !Continuation(c) then None else if n <= 1 then Some(Between) else Some(More(n - 1))
    case Escape => if c == 'u' then Some(Hex(4)) else if c in "\"bnr\\/ft" then Some(Between) else None
    case Hex(n) => if !HexDigit(c) then None else if n <= 1 then Some(Between) else Some(Hex(n - 1))
  }

  function StartToken(c: char): Option<TextState> {
    if Plain(c) then Some(Between)
    else if c == '\\' then Some(Escape)
    else if Follow(c) > 0 then Some(More(Follow(c)))
    else None
  }

  predicate AtBoundary(s: TextState) { s == Fresh || s == Between }

  function ScanText(t: string): Option<TextState> {
    if t == "" then Some(Fresh)
    else
      match ScanText(t[..|t| - 1])
      case None => None
      case Some(s) => NextText(s, t[|t| - 1])
  }

  /** Where the machine stands inside `num`. */
  datatype NumState = Minus | Whole | Point | Decimals | E | Sign | Power

  function StartNumber(c: char): Option<NumState> {
    if c == '-' then Some(Minus) else if Digit(c) then Some(Whole) else None
  }

  function NextNumber(s: NumState, c: char): Option<NumState> {
    match s
    case Minus => if Digit(c) then Some(Whole) else None
    case Whole =>
      if Digit(c) then Some(Whole) else if c == '.' then Some(Point) else if c in "eE" then Some(E) else None
    case Point => if Digit(c) then Some(Decimals) else None
    case Decimals => if Digit(c) then Some(Decimals) else if c in "eE" then Some(E) else None
    case E => if Digit(c) then Some(Power) else if c in "+-" then Some(Sign) else None
    case Sign => if Digit(c) then Some(Power) else None
    case Power => if Digit(c) then Some(Power) else None
  }

  predicate FinalFloat(s: NumState) { s == Decimals || s == Power }
  predicate FinalNumber(s: NumState) { s == Whole || FinalFloat(s) }

  function ScanNumber(t: string): Option<NumState> {
    if t == "" then None
    else if |t| == 1 then StartNumber(t[0])
    else
      match ScanNumber(t[..|t| - 1])
      case None => None
      case Some(s) => NextNumber(s, t[|t| - 1])
  }

  // ----- the automata accept exactly the regular definitions -----

  lemma {:induction false} ScanTextAppend(a: string, c: char)
    ensures ScanText(a + [c]) == match ScanText(a) case None => None case Some(s) => NextText(s, c)
  {
    assert (a + [c])[..|a|] == a;
  }

  lemma {:induction false} ScanNumberAppend(a: string, c: char)
    requires a != ""
    ensures ScanNumber(a + [c]) == match ScanNumber(a) case None => None case Some(s) => NextNumber(s, c)
  {
    assert (a + [c])[..|a|] == a;
  }

  /** The start of the token that is still open at the end of `t`. */
  ghost function Cut(t: string): (k: nat)
    ensures k <= |t|
  {
    if t == "" then 0
    else match ScanText(t[..|t| - 1])
      case Some(s) => if AtBoundary(s) then |t| - 1 else Cut(t[..|t| - 1])
      case None => 0
  }

  /** What the text since the cut looks like when the machine stands at `s`. */
  ghost predicate OpenToken(s: TextState, t: string) {
    match s
    case Fresh => t == ""
    case Between => IsToken(t)
    case More(n) => 0 < n <= 3 && |t| > 0 && |t| + n == 1 + Follow(t[0]) && forall c | c in t[1..] :: Continuation(c)
    case Escape => t == "\\"
    case Hex(n) => 0 < n <= 4 && |t| + n == 6 && t[..2] == "\\u" && forall c | c in t[2..] :: HexDigit(c)
  }

  lemma OpenTokenStep(s: TextState, t: string, c: char)
    requires OpenToken(s, t) && NextText(s, c).Some?
    ensures OpenToken(NextText(s, c).value, if AtBoundary(s) then [c] else t + [c])
  {
    if !AtBoundary(s) {
      var u := t + [c];
      if s.Hex? {
        assert u[..2] == t[..2] && u[2..] == t[2..] + [c];
        assert u[0] == t[..2][0] && u[1] == t[..2][1];
      } else if s.More? {
        assert u[1..] == t[1..] + [c];
      } else if c == 'u' {
        assert u[..2] == "\\u";
      }
    }
  }

  lemma BoundaryText(s: TextState, t: string, k: nat)
    requires k <= |t| && IsText(t[..k]) && OpenToken(s, t[k..]) && AtBoundary(s) && (t != "" ==> k < |t|)
    ensures IsText(t)
  {
    if s == Fresh { assert t == ""; } else { assert IsText(t[..k]) && IsToken(t[k..]); }
  }

  lemma {:induction false} ScanTextSound(t: string)
    requires ScanText(t).Some?
    ensures IsText(t[..Cut(t)]) && OpenToken(ScanText(t).value, t[Cut(t)..])
    ensures t != "" ==> Cut(t) < |t|
  {
    if t == "" {
      assert Cut(t) == 0;
    } else {
      var u, c := t[..|t| - 1], t[|t| - 1];
      assert t == u + [c] && ScanText(u).Some?;
      hide ScanText, Cut, OpenToken, IsText;
      ScanTextSound(u);
      TextSoundStep(u, c);
    }
  }

  lemma TextSoundStep(u: string, c: char)
    requires ScanText(u + [c]).Some? && ScanText(u).Some?
    requires IsText(u[..Cut(u)]) && OpenToken(ScanText(u).value, u[Cut(u)..]) && (u != "" ==> Cut(u) < |u|)
    ensures var t := u + [c]; Cut(t) < |t| && IsText(t[..Cut(t)]) && OpenToken(ScanText(t).value, t[Cut(t)..])
  {
    var t, s, k := u + [c], ScanText(u).value, Cut(u);
    ScanTextAppend(u, c);
    assert t[..|t| - 1] == u;
    assert Cut(t) == if AtBoundary(s) then |u| else k;
    assert u == "" ==> s == Fresh;
    hide ScanText, Cut;
    OpenTokenStep(s, u[k..], c);
    if AtBoundary(s) {
      BoundaryText(s, u, k);
      assert t[|u|..] == [c];
    } else {
      hide OpenToken, NextText, IsText;
      assert t[k..] == u[k..] + [c];
      assert t[..k] == u[..k];
    }
  }

  /** Where the machine stands after k bytes of a token. */
  function Within(t: string, k: nat): TextState
    requires 0 < k <= |t|
  {
    if k == |t| then Between else if t[0] != '\\' then More(|t| - k) else if k == 1 then Escape
    else Hex(if k < 6 then 6 - k else 0)
  }

  lemma TokenStarts(t: string)
    requires IsToken(t)
    ensures t != "" && StartToken(t[0]) == Some(Within(t, 1))
  {
  }

  lemma TokenGoesOn(t: string, k: nat)
    requires IsToken(t) && 1 < k <= |t|
    ensures NextText(Within(t, k - 1), t[k - 1]) == Some(Within(t, k))
  {
    assert t[k - 1] == t[1..][k - 2] && t[k - 1] in t[1..];
    if k > 2 { assert t[k - 1] == t[2..][k - 3] && t[k - 1] in t[2..]; }
  }

  /** From a token boundary, each prefix of a token leads to the state that remembers it. */
  lemma {:induction false} ScanToken(a: string, t: string, k: nat)
    requires ScanText(a).Some? && AtBoundary(ScanText(a).value)
    requires IsToken(t) && 0 < k <= |t|
    ensures ScanText(a + t[..k]) == Some(Within(t, k))
  {
    hide *;
    var init, c := a + t[..k - 1], t[k - 1];
    assert a + t[..k] == init + [c];
    ScanTextAppend(init, c);
    if k == 1 {
      assert init == a;
      BoundaryStarts(ScanText(a).value, c);
      TokenStarts(t);
    } else {
      TokenGoesOn(t, k);
      ScanToken(a, t, k - 1);
    }
  }

  lemma BoundaryStarts(s: TextState, c: char)
    requires AtBoundary(s)
    ensures NextText(s, c) == StartToken(c)
  {
  }

  lemma FreshOnlyAtStart(t: string)
    requires t != ""
    ensures ScanText(t) != Some(Fresh)
  {
  }

  lemma TextAt(t: string, n: nat)
    requires n < |t| && IsText(t[..n]) && IsToken(t[n..])
    ensures IsText(t)
  {
  }

  lemma TokenEnds(t: string, n: nat)
    requires n < |t| && IsToken(t[n..]) && ScanText(t[..n]).Some? && AtBoundary(ScanText(t[..n]).value)
    ensures ScanText(t) == Some(Between)
  {
    hide ScanText, IsToken;
    ScanToken(t[..n], t[n..], |t| - n);
    assert t[n..][..|t| - n] == t[n..];
    assert t[..n] + t[n..] == t;
  }

  /** json.rl:14-22: the machine is between tokens exactly after a `uni_token*`. */
  lemma {:induction false} TextAutomatonExact(t: string)
    ensures IsText(t) <==> ScanText(t).Some? && AtBoundary(ScanText(t).value)
  {
    if t == "" {
      assert IsText(t);
    } else if ScanText(t).Some? && AtBoundary(ScanText(t).value) {
      ScanTextSound(t);
      hide ScanText, IsText;
      assert ScanText(t).value == Between by { FreshOnlyAtStart(t); }
      TextAt(t, Cut(t));
    } else if IsText(t) {
      var n :| 0 <= n < |t| && IsText(t[..n]) && IsToken(t[n..]);
      hide ScanText, IsText, IsToken;
      TextAutomatonExact(t[..n]);
      TokenEnds(t, n);
    }
  }

  ghost predicate NumberShape(s: NumState, t: string) {
    match s
    case Minus => t == "-"
    case Whole => IsInteger(t)
    case Point => |t| > 0 && IsInteger(t[..|t| - 1]) && t[|t| - 1] == '.'
    case Decimals => IsPlainFraction(t)
    case E => |t| > 0 && IsMantissa(t[..|t| - 1]) && t[|t| - 1] in "eE"
    case Sign => |t| > 1 && IsMantissa(t[..|t| - 2]) && t[|t| - 2] in "eE" && t[|t| - 1] in "+-"
    case Power => WithExponent(t)
  }

  lemma AllDigitsAppend(t: string, c: char)
    ensures AllDigits(t + [c]) <==> (t == "" || AllDigits(t)) && Digit(c)
  {
    assert c in t + [c];
    assert forall d | d in t :: d in t + [c];
  }

  lemma IntegerAppend(t: string, c: char)
    requires t != ""
    ensures IsInteger(t + [c]) <==> (IsInteger(t) || t == "-") && Digit(c)
  {
    AllDigitsAppend(t, c);
    AllDigitsAppend(t[1..], c);
    assert (t + [c])[1..] == t[1..] + [c];
    assert AllDigits(t) ==> t[0] in t;
    assert (t + [c])[0] == t[0];
  }

  lemma FractionAppend(t: string, c: char)
    requires t != ""
    ensures IsFraction(t + [c]) <==> (IsFraction(t) || t == ".") && Digit(c)
  {
    AllDigitsAppend(t[1..], c);
    assert (t + [c])[1..] == t[1..] + [c];
  }

  lemma ExponentAppend(t: string, c: char)
    requires t != ""
    ensures IsExponent(t + [c]) <==>
            (IsExponent(t) || t == "e" || t == "E" || (|t| == 2 && t[0] in "eE" && t[1] in "+-")) && Digit(c)
  {
    var u := t + [c];
    AllDigitsAppend(t[1..], c);
    assert u[1..] == t[1..] + [c];
    assert AllDigits(u[1..]) ==> u[1] in u[1..];
    if |t| > 1 {
      AllDigitsAppend(t[2..], c);
      assert u[2..] == t[2..] + [c];
    }
  }

  lemma FractionLong(t: string)
    requires IsFraction(t)
    ensures |t| > 1
  {
  }

  lemma PlainFractionAppend(t: string, c: char)
    requires t != ""
    ensures IsPlainFraction(t + [c]) <==> (IsPlainFraction(t) || NumberShape(Point, t)) && Digit(c)
  {
    hide IsInteger, AllDigits;
    var u := t + [c];
    if IsPlainFraction(u) {
      var i :| 0 <= i <= |u| && IsInteger(u[..i]) && IsFraction(u[i..]);
      FractionLong(u[i..]);
      assert i < |t|;
      assert u[..i] == t[..i] && u[i..] == t[i..] + [c];
      FractionAppend(t[i..], c);
      assert t[i..] == "." ==> |t| - 1 == i && t[|t| - 1] == t[i..][0];
    }
    if IsPlainFraction(t) && Digit(c) {
      var i :| 0 <= i <= |t| && IsInteger(t[..i]) && IsFraction(t[i..]);
      assert u[..i] == t[..i] && u[i..] == t[i..] + [c];
      FractionAppend(t[i..], c);
    }
    if NumberShape(Point, t) && Digit(c) {
      var i := |t| - 1;
      assert u[..i] == t[..i] && u[i..] == "." + [c];
      FractionAppend(".", c);
    }
  }

  lemma WithExponentAt(t: string, i: nat)
    requires i <= |t| && IsMantissa(t[..i]) && IsExponent(t[i..])
    ensures WithExponent(t)
  {
  }

  lemma WithExponentGrows(t: string, c: char)
    requires t != "" && Digit(c) && (WithExponent(t) || NumberShape(E, t) || NumberShape(Sign, t))
    ensures WithExponent(t + [c])
  {
    var i: nat;
    if WithExponent(t) {
      i :| 0 <= i <= |t| && IsMantissa(t[..i]) && IsExponent(t[i..]);
    } else {
      i := if NumberShape(E, t) then |t| - 1 else |t| - 2;
    }
    assert (t + [c])[..i] == t[..i] && (t + [c])[i..] == t[i..] + [c];
    ExponentAppend(t[i..], c);
    WithExponentAt(t + [c], i);
  }

  lemma WithExponentShrinks(t: string, c: char, i: nat)
    requires t != "" && i <= |t| + 1 && IsMantissa((t + [c])[..i]) && IsExponent((t + [c])[i..])
    ensures (WithExponent(t) || NumberShape(E, t) || NumberShape(Sign, t)) && Digit(c)
  {
    var u := t + [c];
    assert i < |t|;
    assert u[..i] == t[..i] && u[i..] == t[i..] + [c];
    hide IsMantissa;
    ExponentAppend(t[i..], c);
    if IsExponent(t[i..]) {
      WithExponentAt(t, i);
    } else {
      hide IsExponent;
      assert t[i..][0] == t[i] && |t[i..]| == |t| - i;
      assert |t| - i == 2 ==> t[i..][1] == t[|t| - 1];
    }
  }

  lemma WithExponentAppend(t: string, c: char)
    requires t != ""
    ensures WithExponent(t + [c]) <==> (WithExponent(t) || NumberShape(E, t) || NumberShape(Sign, t)) && Digit(c)
  {
    hide IsMantissa, IsExponent;
    if WithExponent(t + [c]) {
      var i :| 0 <= i <= |t + [c]| && IsMantissa((t + [c])[..i]) && IsExponent((t + [c])[i..]);
      WithExponentShrinks(t, c, i);
    } else if Digit(c) && (WithExponent(t) || NumberShape(E, t) || NumberShape(Sign, t)) {
      WithExponentGrows(t, c);
    }
  }

  /** What comes before the last byte of a number, state by state. */
  lemma LastByte(u: string, c: char)
    requires u != ""
    ensures var t := u + [c];
            && (NumberShape(Point, t) <==> NumberShape(Whole, u) && c == '.')
            && (NumberShape(E, t) <==> (NumberShape(Whole, u) || NumberShape(Decimals, u)) && c in "eE")
            && (NumberShape(Sign, t) <==> NumberShape(E, u) && c in "+-")
            && !NumberShape(Minus, t)
  {
    var t := u + [c];
    assert t[..|t| - 1] == u && t[..|t| - 2] == u[..|u| - 1] && t[|t| - 1] == c && t[|t| - 2] == u[|u| - 1];
    hide IsInteger, IsPlainFraction;
  }

  lemma NumberShapeStep(u: string, c: char, s: NumState)
    requires u != ""
    requires forall r :: ScanNumber(u) == Some(r) <==> NumberShape(r, u)
    ensures ScanNumber(u + [c]) == Some(s) <==> NumberShape(s, u + [c])
  {
    ScanNumberAppend(u, c);
    LastByte(u, c);
    match s {
      case Whole => IntegerAppend(u, c); assert NumberShape(Minus, u) <==> u == "-";
      case Decimals => PlainFractionAppend(u, c);
      case Power => WithExponentAppend(u, c);
      case _ =>
    }
    forall r, q | ScanNumber(u) == Some(r) && NumberShape(q, u) ensures r == q {}
    hide IsInteger, IsPlainFraction, WithExponent, IsMantissa, ScanNumber;
  }

  /** Each state of the number automaton is reached by exactly one family of texts. */
  lemma {:induction false} ScanNumberExact(t: string, s: NumState)
    ensures ScanNumber(t) == Some(s) <==> NumberShape(s, t)
  {
    if |t| <= 1 {
      ShortNumbers(t, s);
    } else {
      var u, c := t[..|t| - 1], t[|t| - 1];
      assert t == u + [c];
      forall r ensures ScanNumber(u) == Some(r) <==> NumberShape(r, u) { ScanNumberExact(u, r); }
      NumberShapeStep(u, c, s);
    }
  }

  lemma ShortNumbers(t: string, s: NumState)
    requires |t| <= 1
    ensures ScanNumber(t) == Some(s) <==> NumberShape(s, t)
  {
    assert !IsPlainFraction(t);
    assert !WithExponent(t);
    if t != "" { assert t[..0] == "" && t[0] in t && !IsMantissa(""); }
  }

  /** json.rl:8-9: `integer` and `float` are exactly what the automaton accepts, and never overlap. */
  lemma NumberAutomatonExact(t: string)
    ensures ScanNumber(t) == Some(Whole) <==> IsInteger(t)
    ensures ScanNumber(t).Some? && FinalFloat(ScanNumber(t).value) <==> IsFloat(t)
  {
    ScanNumberExact(t, Whole);
    ScanNumberExact(t, Decimals);
    ScanNumberExact(t, Power);
  }
}
