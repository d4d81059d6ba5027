/**
 What becomes of a token that is open when the buffer is drained. `json_parser_drain` moves `off` but not `p_start`, so
 the token is later read without its first bytes.
 */
module Draining {
  import opened Values
  import opened Lexical
  import opened Conversions
  import opened Machine
  import opened ShapeInvariant
  import opened Parser
  import opened Sessions

  /** Every byte of w belongs to the token that is open. */
  predicate StaysOpen(s: State, w: string) {
    forall i :: 0 <= i <= |w| ==> TokenOpen(Run(s, w[..i]).cs)
  }

  lemma NotOpenAfter(s: State, c: char)
    requires s.cs.At? && s.cs.pos == After && (s.stack != [] ==> s.stack[0].At? && s.stack[0].pos == After)
    ensures !TokenOpen(AfterValue(s, c).cs)
  {
  }

  /** A byte that leaves the token open extends it, and nothing else looks at the token. */
  lemma TokenStep(s: State, u: string, c: char)
    requires Shape(s) && TokenOpen(s.cs) && TokenOpen(Step(s, c).cs)
    ensures Step(s, c).token == s.token + [c]
    ensures Step(s.(token := u), c) == Step(s, c).(token := u + [c])
  {
    if s.cs.pos.InNumber? {
      hide *;
      NumberTokenStep(s, u, c);
    } else {
      hide Shape, NextText, AfterValue;
    }
  }

  lemma NumberTokenStep(s: State, u: string, c: char)
    requires Shape(s) && s.cs.At? && s.cs.pos.InNumber? && TokenOpen(Step(s, c).cs)
    ensures Step(s, c).token == s.token + [c]
    ensures Step(s.(token := u), c) == Step(s, c).(token := u + [c])
  {
    if s.stack != [] { assert ContextFits(s, 0); }
    if FinalNumber(s.cs.pos.d) { NotOpenAfter(Settle(s), c); }
    hide Shape, AfterValue, NextNumber, MayFollow;
  }

  /** While a token is open the machine never looks at it: with any other text in its place it moves the same way. */
  lemma {:induction false} TokenUnseen(s: State, u: string, w: string)
    requires Shape(s) && StaysOpen(s, w)
    ensures Run(s, w).token == s.token + w && TokenOpen(Run(s, w).cs)
    ensures Run(s.(token := u), w) == Run(s, w).(token := u + w)
  {
    if w == "" {
      OpenNow(s);
      RunNothing(s);
      RunNothing(s.(token := u));
      hide *;
      assert s.token + "" == s.token && u + "" == u;
    } else {
      var init, c := w[..|w| - 1], w[|w| - 1];
      OpenPrefix(s, w);
      hide StaysOpen, Run, TokenOpen, Shape, Step;
      TokenUnseen(s, u, init);
      assert w == init + [c];
      TokenUnseenStep(s, u, init, c);
    }
  }

  lemma OpenNow(s: State)
    requires StaysOpen(s, "")
    ensures TokenOpen(s.cs)
  {
    assert ""[..0] == "";
    RunNothing(s);
  }

  lemma OpenPrefix(s: State, w: string)
    requires StaysOpen(s, w) && w != ""
    ensures StaysOpen(s, w[..|w| - 1]) && TokenOpen(Run(s, w).cs)
  {
    hide TokenOpen, Run;
    var init := w[..|w| - 1];
    forall i | 0 <= i <= |init| ensures TokenOpen(Run(s, init[..i]).cs) {
      assert init[..i] == w[..i];
    }
    assert w[..|w|] == w;
  }

  lemma TokenUnseenStep(s: State, u: string, w: string, c: char)
    requires Shape(s) && TokenOpen(Run(s, w).cs) && TokenOpen(Run(s, w + [c]).cs)
    requires Run(s, w).token == s.token + w && Run(s.(token := u), w) == Run(s, w).(token := u + w)
    ensures Run(s, w + [c]).token == s.token + (w + [c])
    ensures Run(s.(token := u), w + [c]) == Run(s, w + [c]).(token := u + (w + [c]))
  {
    RunShape(s, w);
    hide Step, Shape, TokenOpen, Run;
    RunThen(s, w, c);
    RunThen(s.(token := u), w, c);
    TokenStep(Run(s, w), u + w, c);
    Longer(s.token, w, c);
    Longer(u, w, c);
  }

  lemma Longer(u: string, w: string, c: char)
    ensures u + (w + [c]) == (u + w) + [c]
  {
  }

  /** What a parser that was drained of n bytes finds at `pStart` after w more bytes: the token without its first n. */
  lemma StaleToken(jp: JsonParser, buf: string, w: string, n: nat)
    requires jp.Valid(buf) && jp.off == |buf| && TokenOpen(jp.cs) && n == jp.readyForDrain > 0
    ensures var token := jp.Abs(buf).token + w;
            Window((buf + w)[n..], jp.pStart, |buf + w| - n) == if n <= |token| then token[n..] else ""
  {
    var all := buf + w;
    StaleWindow(all, jp.pStart, |all|, n);
    assert Window(all, jp.pStart, |all|) == Window(buf, jp.pStart, |buf|) + w;
  }

  // ----- strings and names -----

  predicate Quotable(cs: Control) {
    cs.At? && match cs.pos
      case InName(t) => AtBoundary(t)
      case InString(t) => AtBoundary(t)
      case _ => false
  }

  /**
   A drain of n bytes with a string or name open, and the token closed by a quote after w more bytes: without its first
   n bytes it is always another string that is stored, or another key that is kept.
   */
  lemma StaleText(s: State, w: string, n: nat)
    requires Shape(s) && StaysOpen(s, w) && Quotable(Run(s, w).cs) && 0 < n <= |s.token + w|
    ensures var r := Run(s, w); var stale := (s.token + w)[n..];
            var seen, missed := Step(r, '"'), Step(r.(token := stale), '"');
            && r.token == s.token + w && stale != r.token
            && (r.cs.pos.InString? ==>
                  seen == Stored(r, Str(r.token)) && missed == Stored(r, Str(stale)) && seen.cur != missed.cur)
            && (r.cs.pos.InName? ==>
                  seen.name == Some(r.token) && missed.name == Some(stale) && seen.name != missed.name)
  {
    var r, stale := Run(s, w), (s.token + w)[n..];
    TokenUnseen(s, "", w);
    RunShape(s, w);
    if r.cs.pos.InString? {
      OtherValueOtherParent(r, Str(r.token), Str(stale));
      assert Step(r.(token := stale), '"') == Stored(r, Str(stale));
    }
  }

  /** What a value is stored in shows which value it was. */
  lemma OtherValueOtherParent(r: State, x: Json, y: Json)
    requires Shape(r) && r.cs.At? && MayAdd(r.cs) && Keyed(x) && Keyed(y) && x != y
    ensures Stored(r, x).cur != Stored(r, y).cur
    ensures LatestIs(Stored(r, x).cur, x) && LatestIs(Stored(r, y).cur, y)
  {
    AddedKeyed(r, x);
    AddedKeyed(r, y);
    hide Shape;
  }

  // ----- numbers -----

  /** The number the machine has read. */
  function NumberRead(r: State): Json
    requires r.cs.At? && r.cs.pos.InNumber?
  {
    if r.cs.pos.d == Whole then Int(IntValue(r.token)) else Double(RealValue(r.token))
  }

  predicate EndsNumber(r: State, c: char) {
    && r.cs.At? && r.cs.pos.InNumber?
    && FinalNumber(r.cs.pos.d) && NextNumber(r.cs.pos.d, c) == None && MayFollow(r.cs.level, c)
  }

  /** A number of another value makes a difference, also when the byte that ends it closes the container it is in. */
  lemma OtherNumberOtherState(r: State, x: Json, y: Json, c: char)
    requires Shape(r) && EndsNumber(r, c) && Keyed(x) && Keyed(y)
    ensures AfterValue(Stored(r, x), c) == AfterValue(Stored(r, y), c) <==> x == y
  {
    if x != y {
      OtherValueOtherParent(r, x, y);
      var a, b := Stored(r, x), Stored(r, y);
      if r.cs.level == Single {
        RootGrows(r, x);
        RootGrows(r, y);
        assert Deliver(a).delivered[|r.delivered|] == x && Deliver(b).delivered[|r.delivered|] == y;
      } else if c != ' ' && c != ',' {
        assert ContextFits(r, 0);
        OtherChildOtherParent(a, b);
      }
    }
  }

  lemma RootGrows(r: State, x: Json)
    requires Shape(r) && r.cs.At? && r.cs.level == Single && r.cs.pos.InNumber?
    ensures Stored(r, x).cur == Arr([x])
  {
  }

  lemma OtherChildOtherParent(a: State, b: State)
    requires a == b.(cur := a.cur) && a.cur != b.cur && a.contexts != [] && a.stack != []
    requires var parent := a.contexts[0].obj;
             (parent.Arr? && parent.elems != []) || (parent.Obj? && parent.members != [])
    requires a.stack[0] == At(Main, After) ==> a.contexts[0].obj.Arr? && |a.contexts[0].obj.elems| == 1
    ensures End(a) != End(b)
  {
    var p, x, y := a.contexts[0].obj, a.cur, b.cur;
    if p.Arr? {
      var n := |p.elems| - 1;
      assert WriteBack(p, x).elems[n] == x && WriteBack(p, y).elems[n] == y;
      if a.stack[0] == At(Main, After) {
        assert End(a).delivered[|a.delivered|] == x && End(b).delivered[|b.delivered|] == y;
      }
    } else {
      var n := |p.members| - 1;
      assert WriteBack(p, x).members[n].value == x && WriteBack(p, y).members[n].value == y;
    }
  }

  lemma NumberGoesOn(s: State, d: NumState, c: char)
    requires Shape(s) && s.cs.At? && s.cs.pos == InNumber(d) && TokenOpen(Step(s, c).cs)
    ensures NextNumber(d, c).Some?
    ensures Step(s, c) == s.(cs := At(s.cs.level, InNumber(NextNumber(d, c).value)), token := s.token + [c])
  {
    if s.stack != [] { assert ContextFits(s, 0); }
    if FinalNumber(d) { NotOpenAfter(Settle(s), c); }
    hide Shape, AfterValue, NextNumber, MayFollow, Settle;
  }

  lemma EndIsStep(r: State, c: char)
    requires EndsNumber(r, c)
    ensures Step(r, c) == AfterValue(Stored(r, NumberRead(r)), c)
  {
    hide AfterValue, IntValue, RealValue, NextNumber, MayFollow;
  }

  lemma EndShapes(r: State, x: Json, c: char)
    requires Shape(r) && EndsNumber(r, c) && Keyed(x)
    ensures Shape(AfterValue(Stored(r, x), c)) && !TokenOpen(AfterValue(Stored(r, x), c).cs)
  {
    StoredShape(r, x);
    AfterShape(Stored(r, x), c);
    if r.stack != [] { assert ContextFits(r, 0); }
    StoredKeepsStack(r, x);
    NotOpenAfter(Stored(r, x), c);
  }

  lemma StoredKeepsStack(r: State, x: Json)
    requires r.cs.At?
    ensures Stored(r, x).stack == r.stack && Stored(r, x).cs == At(r.cs.level, After)
  {
  }

  /** The bytes w and then c come next. */
  predicate Ahead(buf: string, off: int, w: string, c: char) {
    0 <= off && off + |w| < |buf| && buf[off..off + |w|] == w && buf[off + |w|] == c
  }

  lemma AheadNext(buf: string, off: int, w: string, c: char)
    requires Ahead(buf, off, w, c)
    ensures 0 <= off < |buf| && buf[off] == if w == "" then c else w[0]
    ensures w != "" ==> Ahead(buf, off + 1, w[1..], c)
  {
    if w != "" {
      assert buf[off + 1..off + |w|] == buf[off..off + |w|][1..];
    }
  }

  /** The parser is where the machine is in s, with a number open, except for what it would find of the number. */
  ghost predicate Follows(jp: JsonParser, buf: string, s: State)
    reads jp
  {
    s.cs.At? && s.cs.pos.InNumber? && jp.Abs(buf) == s.(token := jp.Abs(buf).token)
  }

  /** A byte of a number that is still open: the parser moves with the machine, whatever it finds at `pStart`. */
  method StaleByte(jp: JsonParser, buf: string, c: char, ghost s: State, ghost t: State)
    requires Follows(jp, buf, s) && Shape(s) && 0 <= jp.off < |buf| && buf[jp.off] == c && 0 <= jp.pStart <= |buf|
    requires NextNumber(s.cs.pos.d, c).Some?
    requires t == s.(cs := At(s.cs.level, InNumber(NextNumber(s.cs.pos.d, c).value)), token := s.token + [c])
    modifies jp
    ensures Follows(jp, buf, t) && jp.off == old(jp.off) + 1 && jp.pStart == old(jp.pStart)
  {
    hide Shape, NextNumber;
    jp.ByteOfNumber(c, jp.cs.pos.d, buf, s.token);
  }

  method ReadStale(jp: JsonParser, buf: string, w: string, c: char, ghost s: State)
    requires Shape(s) && Follows(jp, buf, s)
    requires Ahead(buf, jp.off, w, c) && 0 <= jp.pStart <= |buf| && StaysOpen(s, w)
    modifies jp
    ensures Follows(jp, buf, Run(s, w)) && jp.off == old(jp.off) + |w| && jp.pStart == old(jp.pStart)
    ensures 0 <= jp.off < |buf| && buf[jp.off] == c
    decreases w
  {
    AheadNext(buf, jp.off, w, c);
    FollowsNumber(jp, buf, s);
    if w == "" {
      RunNothing(s);
    } else {
      StaleStep(s, w);
      hide *;
      StaleByte(jp, buf, w[0], s, Step(s, w[0]));
      ReadStale(jp, buf, w[1..], c, Step(s, w[0]));
    }
  }

  lemma FollowsNumber(jp: JsonParser, buf: string, s: State)
    requires Follows(jp, buf, s)
    ensures s.cs.At? && s.cs.pos.InNumber?
  {
  }

  lemma StaleStep(s: State, w: string)
    requires Shape(s) && StaysOpen(s, w) && w != "" && s.cs.At? && s.cs.pos.InNumber?
    ensures var c, t := w[0], Step(s, w[0]);
            && Shape(t) && StaysOpen(t, w[1..]) && Run(s, w) == Run(t, w[1..]) && NextNumber(s.cs.pos.d, c).Some?
            && t == s.(cs := At(s.cs.level, InNumber(NextNumber(s.cs.pos.d, c).value)), token := s.token + [c])
  {
    var c, t, rest := w[0], Step(s, w[0]), w[1..];
    StepShape(s, c);
    RunOne(s, c);
    assert w[..1] == [c] && TokenOpen(Run(s, w[..1]).cs);
    NumberGoesOn(s, s.cs.pos.d, c);
    OpenTail(s, w);
    hide *;
    assert w == [c] + rest;
    RunConcat(s, [c], rest);
  }

  lemma OpenTail(s: State, w: string)
    requires StaysOpen(s, w) && w != ""
    ensures StaysOpen(Step(s, w[0]), w[1..])
  {
    forall i | 0 <= i <= |w| - 1 ensures TokenOpen(Run(Step(s, w[0]), w[1..][..i]).cs) {
      OpenLater(s, w, i);
    }
    hide TokenOpen, Run, Step;
  }

  lemma OpenLater(s: State, w: string, i: nat)
    requires StaysOpen(s, w) && i < |w|
    ensures TokenOpen(Run(Step(s, w[0]), w[1..][..i]).cs)
  {
    assert TokenOpen(Run(s, w[..i + 1]).cs);
    hide *;
    RunOne(s, w[0]);
    assert w[..i + 1] == [w[0]] + w[1..][..i];
    RunConcat(s, [w[0]], w[1..][..i]);
  }

  /**
   A number open when the buffer is drained, read to its end by the drained parser: `rest` is what memory holds
   from the mark on, w the bytes of the number still to come in it, c the byte that ends it. The
   parser stores what `atoi` or `atof` makes of the memory at `pStart`, and goes on as an undrained one would if and
   only if that is the value of the number.
   */
  method StaleNumber(jp: JsonParser, buf: string, rest: string, w: string, c: char) returns (n: nat)
    requires jp.Valid(buf) && jp.off == |buf| && TokenOpen(jp.cs) && jp.cs.pos.InNumber?
    requires Ahead(rest, jp.off - jp.readyForDrain, w, c) && jp.pStart <= |rest|
    requires StaysOpen(jp.Abs(buf), w) && EndsNumber(Run(jp.Abs(buf), w), c)
    modifies jp
    ensures n == old(jp.readyForDrain) && jp.off == |buf| - n + |w| + 1
    ensures var r := Run(old(jp.Abs(buf)), w);
            StoresFound(jp, rest, r, c, NumberAt(r.cs.pos.d, rest[old(jp.pStart)..]))
  {
    hide *;
    ghost var s := jp.Abs(buf);
    ghost var r := Run(s, w);
    MarkInRange(jp, buf);
    EndsAtNumber(r, c);
    n := DrainOpen(jp, buf, rest);
    FinishStale(jp, rest, w, c, s, r, NumberAt(r.cs.pos.d, rest[jp.pStart..]));
  }

  lemma MarkInRange(jp: JsonParser, buf: string)
    requires jp.Valid(buf) && TokenOpen(jp.cs)
    ensures 0 <= jp.readyForDrain <= jp.pStart && jp.readyForDrain <= jp.off <= |buf|
  {
  }

  lemma EndsAtNumber(r: State, c: char)
    requires EndsNumber(r, c)
    ensures r.cs.At? && r.cs.pos.InNumber?
  {
  }

  /** The drain itself. */
  method DrainOpen(jp: JsonParser, ghost buf: string, ghost rest: string) returns (n: nat)
    requires jp.Valid(buf) && TokenOpen(jp.cs) && jp.cs.pos.InNumber?
    modifies jp
    ensures n == old(jp.readyForDrain) && jp.off == old(jp.off) - n && jp.pStart == old(jp.pStart)
    ensures Shape(old(jp.Abs(buf))) && Follows(jp, rest, old(jp.Abs(buf)))
  {
    hide Shape, Window;
    n := jp.Drain(buf);
  }

  /** c ends the number and x is stored for it; the parser is where it should be exactly if x is what was read. */
  ghost predicate StoresFound(jp: JsonParser, buf: string, r: State, c: char, x: Json)
    requires r.cs.At? && r.cs.pos.InNumber?
    reads jp
  {
    && jp.Valid(buf) && jp.Abs(buf) == AfterValue(Stored(r, x), c)
    && (jp.Abs(buf) == Step(r, c) <==> x == NumberRead(r))
  }

  /** The drained parser, from where it stands to the end of the number. */
  method FinishStale(jp: JsonParser, buf: string, w: string, c: char, ghost s: State, ghost r: State, ghost x: Json)
    requires Shape(s) && Follows(jp, buf, s) && Ahead(buf, jp.off, w, c) && StaysOpen(s, w)
    requires r == Run(s, w) && EndsNumber(r, c)
    requires 0 <= jp.pStart <= |buf| && x == NumberAt(r.cs.pos.d, buf[jp.pStart..])
    modifies jp
    ensures StoresFound(jp, buf, r, c, x) && jp.off == old(jp.off) + |w| + 1
  {
    RunShape(s, w);
    hide *;
    ReadStale(jp, buf, w, c, s);
    EndStale(jp, buf, c, r, x);
  }

  /** The byte that ends such a number. */
  method EndStale(jp: JsonParser, buf: string, c: char, ghost r: State, ghost x: Json)
    requires Shape(r) && 0 <= jp.off < |buf| && buf[jp.off] == c && EndsNumber(r, c) && Follows(jp, buf, r)
    requires 0 <= jp.pStart <= |buf| && x == NumberAt(r.cs.pos.d, buf[jp.pStart..])
    modifies jp
    ensures StoresFound(jp, buf, r, c, x) && jp.off == old(jp.off) + 1
  {
    EndShapes(r, x, c);
    EndIsStep(r, c);
    OtherNumberOtherState(r, x, NumberRead(r), c);
    EndsIs(r, c);
    StoredForgets(r, jp.Abs(buf).token, x);
    assert jp.cs.At? && jp.cs == r.cs;
    hide Shape, EndsNumber, NumberRead, NumberAt, AfterValue, Stored, Step, NextNumber;
    jp.ByteOfNumber(c, jp.cs.pos.d, buf, r.token);
  }

  lemma EndsIs(r: State, c: char)
    requires EndsNumber(r, c)
    ensures Ends(r.cs, r.cs.pos.d, c)
  {
  }

  lemma StoredForgets(r: State, token: string, x: Json)
    requires r.cs.At?
    ensures Stored(r.(token := token), x) == Stored(r, x)
  {
  }

  lemma ZerosBefore(t: string)
    requires AllDigits(t)
    ensures AllDigits("0" + t) && Magnitude("0" + t) == Magnitude(t)
  {
    var init := t[..|t| - 1];
    assert ("0" + t)[..|t|] == "0" + init;
    assert forall c | c in init :: c in t;
    if init != "" { ZerosBefore(init); } else { assert "0" + init == "0" && "0"[..0] == ""; }
  }

  /** Not every stale number is another one: a zero in front does not count, so 01 without its first byte is still 1. */
  lemma LeadingZeros(r: State, t: string, c: char, more: string)
    requires r.cs.At? && r.cs.pos == InNumber(Whole) && EndsNumber(r, c)
    requires t != "" && AllDigits(t) && r.token == "0" + t
    ensures NumberAt(Whole, t + ([c] + more)) == NumberRead(r)
  {
    ZerosBefore(t);
    AtoiOfToken(t, [c] + more);
    hide IntValue, Atoi;
    SameInteger(t, r.token);
  }

  lemma SameInteger(t: string, u: string)
    requires AllDigits(t) && AllDigits(u) && Magnitude(t) == Magnitude(u)
    ensures IntValue(t) == IntValue(u)
  {
  }

  // ----- a drain in the middle of a string -----

  /** The state after `[[],"abcdef`: the mark is behind the inner array, byte 3; the open string starts at byte 5. */
  function MidString(token: string): State {
    State(At(Array, InString(Between)), [At(Main, After)], Arr([Arr([])]), ArrayAdd,
          [Context(Arr([Arr([])]), ArrayAdd)], None, token, [], 0, false)
  }

  lemma MidStringReached()
    ensures Run(Initial(Main), "[[],\"abcdef") == MidString("abcdef")
  {
    var s0 := Initial(Main);
    var s5 := MidString("").(cs := At(Array, InString(Fresh)));
    MidStringOpened();
    LettersInString(s5, "abcdef", 6);
    assert "[[],\"abcdef" == "[[],\"" + "abcdef" && "abcdef"[..6] == "abcdef";
    RunConcat(s0, "[[],\"", "abcdef");
  }

  /** Inside `[`, and inside `[[`. */
  const OUTER_CONTEXT := Context(Arr([Arr([])]), ArrayAdd)
  const IN_OUTER := State(At(Array, Start), [At(Main, After)], Arr([]), ArrayAdd,
                          [OUTER_CONTEXT], None, "", [], 0, false)
  const IN_INNER := State(At(Array, Start), [At(Array, After), At(Main, After)], Arr([]), ArrayAdd,
                         [OUTER_CONTEXT, OUTER_CONTEXT], None, "", [], 0, false)

  lemma OpenOuter()
    ensures Step(Initial(Main), '[') == IN_OUTER
  {
    assert [] + [Arr([])] == [Arr([])];
  }

  lemma OpenInner()
    ensures Step(IN_OUTER, '[') == IN_INNER
  {
    assert [] + [Arr([])] == [Arr([])];
  }

  lemma CloseInner()
    ensures Step(IN_INNER, ']') == MidString("").(cs := At(Array, After))
  {
    assert [Arr([])][..0] + [Arr([])] == [Arr([])];
  }

  lemma OpenString()
    ensures Step(Step(MidString("").(cs := At(Array, After)), ','), '"')
            == MidString("").(cs := At(Array, InString(Fresh)))
  {
  }

  lemma MidStringOpened()
    ensures Run(Initial(Main), "[[],\"") == MidString("").(cs := At(Array, InString(Fresh)))
  {
    var s0 := Initial(Main);
    OpenOuter();
    OpenInner();
    CloseInner();
    OpenString();
    hide Step, Run, Initial, MidString, IN_OUTER, IN_INNER;
    RunOne(s0, '[');
    RunThen(s0, "[", '[');
    RunThen(s0, "[[", ']');
    RunThen(s0, "[[]", ',');
    RunThen(s0, "[[],", '"');
    assert "[[],\"" == "[[]," + ['"'] && "[[]," == "[[]" + [','] && "[[]" == "[[" + [']'] && "[[" == "[" + ['['];
  }

  lemma LetterInString(s: State, t: TextState, c: char)
    requires s.cs == At(Array, InString(t)) && AtBoundary(t) && Plain(c)
    ensures Step(s, c) == s.(cs := At(Array, InString(Between)), token := s.token + [c])
  {
  }

  lemma {:induction false} LettersInString(s: State, t: string, k: nat)
    requires s.cs == At(Array, InString(Fresh)) && s.token == "" && 0 < k <= |t| && forall c | c in t :: Plain(c)
    ensures Run(s, t[..k]) == s.(cs := At(Array, InString(Between)), token := t[..k])
  {
    hide Step, Run;
    assert t[..k] == t[..k - 1] + [t[k - 1]];
    assert t[k - 1] in t;
    if k == 1 {
      assert t[..1] == [t[0]] == "" + [t[0]];
      RunOne(s, t[0]);
      LetterInString(s, Fresh, t[0]);
    } else {
      LettersInString(s, t, k - 1);
      RunThen(s, t[..k - 1], t[k - 1]);
      LetterInString(Run(s, t[..k - 1]), Between, t[k - 1]);
    }
  }

  lemma LettersMarkNothing(t: string, k: nat)
    requires k <= |t| && forall c | c in t :: Plain(c)
    ensures MarkAfter(Initial(Main), "[[],\"" + t[..k], 0, 0) == 3
  {
    var s0 := Initial(Main);
    if k == 0 {
      assert "[[],\"" + t[..0] == "[[],\"";
      OpeningMarks();
    } else {
      InTheLetters(t, k - 1);
      assert "[[],\"" + t[..k] == ("[[],\"" + t[..k - 1]) + [t[k - 1]];
      hide *;
      LettersMarkNothing(t, k - 1);
      MarkThen(s0, "[[],\"" + t[..k - 1], t[k - 1], 0, 0);
    }
  }

  /** No letter of the string completes a value. */
  lemma InTheLetters(t: string, k: nat)
    requires k < |t| && forall c | c in t :: Plain(c)
    ensures !Marks(Run(Initial(Main), "[[],\"" + t[..k]), t[k])
  {
    MidStringOpened();
    RunConcat(Initial(Main), "[[],\"", t[..k]);
    var s := MidString("").(cs := At(Array, InString(Fresh)));
    assert t[k] in t && t[..0] == "";
    if k > 0 { LettersInString(s, t, k); } else { RunNothing(s); }
    hide Run, Step, Initial;
  }

  lemma OpeningMarks()
    ensures MarkAfter(Initial(Main), "[[],\"", 0, 0) == 3
  {
    var s0 := Initial(Main);
    OpenOuter();
    OpenInner();
    CloseInner();
    assert Step(MidString("").(cs := At(Array, After)), ',').cs == At(Array, Need);
    hide Step, Run, MarkAfter;
    RunOne(s0, '[');
    RunThen(s0, "[", '[');
    RunThen(s0, "[[", ']');
    RunThen(s0, "[[]", ',');
    assert "[[],\"" == "[[]," + ['"'] && "[[]," == "[[]" + [','] && "[[]" == "[[" + [']'] && "[[" == "[" + ['['];
    MarkThen(s0, "[[", ']', 0, 0);
    MarkThen(s0, "[[]", ',', 0, 0);
    MarkThen(s0, "[[],", '"', 0, 0);
  }

  lemma CloseMidString(token: string)
    ensures Run(MidString(token), "\"]").delivered == [Arr([Arr([]), Str(token)])]
  {
    var s := MidString(token);
    assert "\"]" == "\"" + [']'] && ['"'] == "\"";
    QuoteMidString(token);
    BracketMidString(token);
    hide *;
    RunOne(s, '"');
    RunThen(s, "\"", ']');
  }

  lemma QuoteMidString(token: string)
    ensures Step(MidString(token), '"')
            == MidString("").(cs := At(Array, After), cur := Arr([Arr([]), Str(token)]))
  {
    assert [Arr([])] + [Str(token)] == [Arr([]), Str(token)];
  }

  lemma BracketMidString(token: string)
    ensures var es := [Arr([]), Str(token)];
            Step(MidString("").(cs := At(Array, After), cur := Arr(es)), ']').delivered == [Arr(es)]
  {
    var es := [Arr([]), Str(token)];
    assert [Arr([])][..0] + [Arr(es)] == [Arr(es)];
  }

  lemma OtherToken(s: State, token: string)
    requires Shape(s) && s.cs.At? && TokenFits(s.cs.pos, token)
    ensures Shape(s.(token := token))
  {
    forall i | 0 <= i < |s.stack| ensures ContextFits(s.(token := token), i) {
      assert ContextFits(s, i);
    }
  }

  lemma ThreeLetters()
    ensures ScanText("def") == Some(Between)
  {
    assert ScanText("") == Some(Fresh);
    assert NextText(Fresh, 'd') == NextText(Between, 'e') == NextText(Between, 'f') == Some(Between);
    hide ScanText, NextText;
    ScanTextAppend("", 'd');
    ScanTextAppend("d", 'e');
    ScanTextAppend("de", 'f');
    assert "" + ['d'] == "d" && "d" + ['e'] == "de" && "de" + ['f'] == "def";
  }

  lemma TokenAt(jp: JsonParser, buf: string)
    requires jp.Valid(buf)
    ensures TokenOpen(jp.Abs(buf).cs) ==> jp.pStart == jp.off - |jp.Abs(buf).token|
  {
    hide Shape;
  }

  /** A new parser reads a buffer. */
  method ReadAll(buf: string, ghost s: State, ghost mark: int) returns (jp: JsonParser)
    requires Run(Initial(Main), buf) == s && MarkAfter(Initial(Main), buf, 0, 0) == mark && s.cs.At?
    ensures fresh(jp) && jp.Valid(buf) && jp.Abs(buf) == s && jp.off == |buf| && jp.readyForDrain == mark
    ensures TokenOpen(s.cs) ==> jp.pStart == |buf| - |s.token|
  {
    jp := new JsonParser(Main);
    assert "" + buf == buf && buf[0..] == buf;
    hide *;
    LongerBuffer(jp, "", buf);
    jp.Process(buf);
    TokenAt(jp, buf);
  }

  lemma MidStringIs(token: string)
    ensures var s := MidString(token); s.cs.At? && TokenOpen(s.cs) && s.token == token
  {
  }

  /** A parser that has read `[[],"abcdef`. */
  method StopMidString() returns (jp: JsonParser, buf: string)
    ensures buf == "[[],\"abcdef" && fresh(jp) && jp.Valid(buf) && jp.Abs(buf) == MidString("abcdef")
    ensures jp.off == 11 && jp.pStart == 5 && jp.readyForDrain == 3
  {
    buf := "[[],\"abcdef";
    MidStringReached();
    LettersMarkNothing("abcdef", 6);
    assert "[[],\"" + "abcdef"[..6] == buf;
    MidStringIs("abcdef");
    hide *;
    jp := ReadAll(buf, MidString("abcdef"), 3);
  }

  /** More bytes come in, and the buffer so far is passed on. */
  method GoOn(jp: JsonParser, buf: string, ghost s: State, w: string) returns (delivered: seq<Json>)
    requires jp.Valid(buf) && jp.Abs(buf) == s && jp.off == |buf|
    modifies jp
    ensures delivered == Run(s, w).delivered
  {
    LongerBuffer(jp, buf, w);
    assert (buf + w)[|buf|..] == w;
    hide *;
    jp.Process(buf + w);
    assert jp.Abs(buf + w).delivered == jp.delivered;
    delivered := jp.delivered;
  }

  /** The same parser after the drain, as the rest of the input finds it. */
  lemma AfterDrain(jp: JsonParser, buf: string)
    requires jp.Abs(buf) == MidString("abcdef").(token := jp.Abs(buf).token) && buf == ",\"abcdef"
    requires Shape(MidString("abcdef")) && jp.off == 8 && jp.pStart == 5 && jp.readyForDrain == 0
    ensures jp.Valid(buf) && jp.Abs(buf) == MidString("def")
  {
    ThreeLetters();
    OtherToken(MidString("abcdef"), "def");
    assert buf[5..8] == "def";
  }

  /**
   Why `MayDrain` is needed. After `[[],"abcdef` a drain returns 3, although the string is open, and the buffer becomes
   `,"abcdef`, but the string is still looked for at byte 5. The rest `"]` then delivers "def" instead of "abcdef".
   */
  method StaleDrain() returns (n: int, delivered: seq<Json>)
    ensures n == 3 && delivered == [Arr([Arr([]), Str("def")])]
  {
    CloseMidString("def");
    hide *;
    var jp, buf := StopMidString();
    n := DrainMidString(jp, buf);
    delivered := GoOn(jp, buf[n..], MidString("def"), "\"]");
  }

  method DrainMidString(jp: JsonParser, buf: string) returns (n: nat)
    requires buf == "[[],\"abcdef" && jp.Valid(buf) && jp.Abs(buf) == MidString("abcdef")
    requires jp.off == 11 && jp.pStart == 5 && jp.readyForDrain == 3
    modifies jp
    ensures n == 3 && jp.Valid(buf[3..]) && jp.Abs(buf[3..]) == MidString("def") && jp.off == |buf[3..]|
  {
    ghost var rest := ",\"abcdef";
    assert buf[3..] == rest;
    MidStringIs("abcdef");
    hide Shape, MidString, Window, Run;
    n := jp.Drain(buf);
    AfterDrain(jp, rest);
  }

  /** Without the drain. */
  method Undrained() returns (delivered: seq<Json>)
    ensures delivered == [Arr([Arr([]), Str("abcdef")])]
  {
    CloseMidString("abcdef");
    var jp, buf := StopMidString();
    hide *;
    delivered := GoOn(jp, buf, MidString("abcdef"), "\"]");
  }

  // ----- a drain in the middle of a number -----

  /** Inside `[`, after these values, at this position. */
  function InArray(es: seq<Json>, pos: Pos, token: string): State {
    State(At(Array, pos), [At(Main, After)], Arr(es), ArrayAdd, [OUTER_CONTEXT], None, token, [], 0, false)
  }

  lemma FirstDigitStep(es: seq<Json>, pos: Pos, c: char)
    requires Digit(c) && (pos == Start || pos == Need)
    ensures Step(InArray(es, pos, ""), c) == InArray(es, InNumber(Whole), [c])
  {
  }

  lemma DigitStep(es: seq<Json>, token: string, c: char)
    requires Digit(c)
    ensures Step(InArray(es, InNumber(Whole), token), c) == InArray(es, InNumber(Whole), token + [c])
  {
  }

  lemma CommaStep(es: seq<Json>, token: string, n: Int32)
    requires IntValue(token) == n
    ensures Step(InArray(es, InNumber(Whole), token), ',') == InArray(es + [Int(n)], Need, "")
  {
    hide IntValue, RealValue;
  }

  lemma StaleCommaStep(es: seq<Json>, token: string, n: Int32)
    ensures AfterValue(Stored(InArray(es, InNumber(Whole), token), Int(n)), ',') == InArray(es + [Int(n)], Need, "")
  {
  }

  lemma BlankStep(es: seq<Json>)
    ensures Step(InArray(es, Need, ""), ' ') == InArray(es, Need, "")
  {
  }

  lemma BracketStep(es: seq<Json>, token: string, n: Int32)
    requires IntValue(token) == n
    ensures Step(InArray(es, InNumber(Whole), token), ']').delivered == [Arr(es + [Int(n)])]
  {
    hide IntValue, RealValue;
    assert [Arr([])][..0] + [Arr(es + [Int(n)])] == [Arr(es + [Int(n)])];
  }

  lemma Numbers()
    ensures IntValue("9") == 9 && IntValue("0") == 0 && IntValue("23") == 23 && Atoi(" 23]") == 23
  {
    Magnitudes();
    assert AllDigits("9") && AllDigits("0") && AllDigits("23");
    hide Magnitude, DigitRun;
    AtoiOfToken("23", "]");
    assert "23" + "]" == "23]" && " 23]"[1..] == "23]";
    assert AfterBlanks(" 23]") == AfterBlanks("23]");
  }

  lemma Magnitudes()
    ensures Magnitude("9") == 9 && Magnitude("0") == 0 && Magnitude("23") == 23
  {
    assert Magnitude("") == 0 && "9"[..0] == "" && "0"[..0] == "" && "2"[..0] == "" && "23"[..1] == "2";
    assert Magnitude("2") == 2;
  }

  lemma NumberMarks()
    ensures Marks(InArray([], InNumber(Whole), "9"), ',')
    ensures !Marks(InArray([Int(9)], Need, ""), ' ') && !Marks(InArray([Int(9)], Need, ""), '0')
  {
  }

  lemma NumberText()
    ensures "[9, 0" == "[9, " + ['0'] && "[9, " == "[9," + [' '] && "[9," == "[9" + [','] && "[9" == "[" + ['9']
    ensures |"[9"| == 2
  {
  }

  lemma ReachNumber()
    ensures Run(Initial(Main), "[9, 0") == InArray([Int(9)], InNumber(Whole), "0")
    ensures MarkAfter(Initial(Main), "[9, 0", 0, 0) == 3
  {
    var s0 := Initial(Main);
    OpenOuter();
    FirstDigitStep([], Start, '9');
    Numbers();
    CommaStep([], "9", 9);
    BlankStep([Int(9)]);
    FirstDigitStep([Int(9)], Need, '0');
    assert [] + [Int(9)] == [Int(9)] && IN_OUTER == InArray([], Start, "");
    NumberMarks();
    NumberText();
    hide *;
    RunOne(s0, '[');
    RunThen(s0, "[", '9');
    RunThen(s0, "[9", ',');
    RunThen(s0, "[9,", ' ');
    RunThen(s0, "[9, ", '0');
    MarkThen(s0, "[9", ',', 0, 0);
    MarkThen(s0, "[9,", ' ', 0, 0);
    MarkThen(s0, "[9, ", '0', 0, 0);
  }

  lemma RestOfNumbers()
    ensures Run(InArray([Int(9), Int(23)], Need, ""), "  23]").delivered == [Arr([Int(9), Int(23), Int(23)])]
  {
    var es := [Int(9), Int(23)];
    assert es + [Int(23)] == [Int(9), Int(23), Int(23)];
    assert "  23]" == [' ', ' ', '2', '3', ']'] && ["2"[0]] + ['3'] == "23" && ['2', '3'] == "23";
    assert Digit('2') && Digit('3');
    Numbers();
    hide *;
    FiveBytes(es, '2', '3', 23);
  }

  /** Two spaces, a number of two digits, and the bracket. */
  lemma FiveBytes(es: seq<Json>, a: char, b: char, n: Int32)
    requires Digit(a) && Digit(b) && IntValue([a, b]) == n
    ensures Run(InArray(es, Need, ""), [' ', ' ', a, b, ']']).delivered == [Arr(es + [Int(n)])]
  {
    var s := InArray(es, Need, "");
    assert [' ', ' '] == [' '] + [' '] && [' ', ' ', a] == [' ', ' '] + [a];
    assert [' ', ' ', a, b] == [' ', ' ', a] + [b] && [' ', ' ', a, b, ']'] == [' ', ' ', a, b] + [']'];
    assert [a] + [b] == [a, b];
    hide *;
    BlankStep(es);
    FirstDigitStep(es, Need, a);
    DigitStep(es, [a], b);
    BracketStep(es, [a, b], n);
    RunOne(s, ' ');
    RunThen(s, [' '], ' ');
    RunThen(s, [' ', ' '], a);
    RunThen(s, [' ', ' ', a], b);
    RunThen(s, [' ', ' ', a, b], ']');
  }

  lemma InArrayIs(es: seq<Json>, pos: Pos, token: string)
    ensures var s := InArray(es, pos, token); s.cs == At(Array, pos) && s.token == token
    ensures pos.InNumber? ==> TokenOpen(InArray(es, pos, token).cs)
  {
  }

  /** A parser that has read `[9, 0`. */
  method StopMidNumber() returns (jp: JsonParser, buf: string)
    ensures buf == "[9, 0" && fresh(jp) && jp.Valid(buf) && jp.Abs(buf) == InArray([Int(9)], InNumber(Whole), "0")
    ensures jp.off == 5 && jp.pStart == 4 && jp.readyForDrain == 3
  {
    buf := "[9, 0";
    ReachNumber();
    InArrayIs([Int(9)], InNumber(Whole), "0");
    hide *;
    jp := ReadAll(buf, InArray([Int(9)], InNumber(Whole), "0"), 3);
  }

  lemma NothingStaysOpen(r: State)
    requires TokenOpen(r.cs)
    ensures StaysOpen(r, "")
  {
    assert ""[..0] == "";
    RunNothing(r);
    hide Run, TokenOpen;
  }

  lemma StaleZero()
    ensures var r := InArray([Int(9)], InNumber(Whole), "0");
            && StaysOpen(r, "") && Run(r, "") == r && EndsNumber(r, ',') && NumberRead(r) == Int(0)
            && NumberAt(Whole, " 0,  23]"[4..]) == Int(23)
            && AfterValue(Stored(r, Int(23)), ',') == InArray([Int(9), Int(23)], Need, "")
  {
    Numbers();
    var r := InArray([Int(9)], InNumber(Whole), "0");
    assert " 0,  23]"[4..] == " 23]" && [Int(9)] + [Int(23)] == [Int(9), Int(23)];
    ZeroEnds([Int(9)]);
    hide IntValue, Atoi, AfterValue, Stored, Run, StaysOpen, EndsNumber, NumberRead, InArray;
    RunNothing(r);
    StaleCommaStep([Int(9)], "0", 23);
    InArrayIs([Int(9)], InNumber(Whole), "0");
    NothingStaysOpen(r);
  }

  lemma ZeroEnds(es: seq<Json>)
    ensures var r := InArray(es, InNumber(Whole), "0");
            EndsNumber(r, ',') && r.cs.At? && r.cs.pos.InNumber? && NumberRead(r) == Int(IntValue("0"))
  {
    hide IntValue;
  }

  /**
   A stale number that the machine's own automaton would refuse. After `[9, 0` a drain returns 3, then `,  23]` arrives:
   at byte 4 of what is left there is ` 23]`, which `atoi` reads as 23, so [9, 23, 23] is delivered for [9, 0, 23].
   */
  method StaleBlank() returns (n: nat, delivered: seq<Json>)
    ensures n == 3 && delivered == [Arr([Int(9), Int(23), Int(23)])]
  {
    var rest := " 0,  23]";
    assert |rest| == 8 && rest[3..] == "  23]" && Ahead(rest, 2, "", ',');
    RestOfNumbers();
    StaleZero();
    hide *;
    var jp, buf := StopMidNumber();
    n := ReadsOn(jp, buf, rest);
    delivered := Finish(jp, rest, InArray([Int(9), Int(23)], Need, ""));
  }

  /** The drain, and the rest of the number. */
  method ReadsOn(jp: JsonParser, buf: string, rest: string) returns (n: nat)
    requires jp.Valid(buf) && jp.Abs(buf) == InArray([Int(9)], InNumber(Whole), "0")
    requires jp.off == |buf| == 5 && jp.pStart == 4 && jp.readyForDrain == 3
    requires |rest| == 8 && Ahead(rest, 2, "", ',') && NumberAt(Whole, rest[4..]) == Int(23)
    modifies jp
    ensures n == 3 && jp.off == 3 && jp.Valid(rest) && jp.Abs(rest) == InArray([Int(9), Int(23)], Need, "")
  {
    hide *;
    StaleZero();
    InNumberNow(jp, buf, [Int(9)], Whole, "0");
    n := StaleNumber(jp, buf, rest, "", ',');
    FoundIs(jp, rest, InArray([Int(9)], InNumber(Whole), "0"), ',', Int(23));
  }

  lemma InNumberNow(jp: JsonParser, buf: string, es: seq<Json>, d: NumState, token: string)
    requires jp.Abs(buf) == InArray(es, InNumber(d), token)
    ensures TokenOpen(jp.cs) && jp.cs.At? && jp.cs.pos.InNumber?
    ensures var r := InArray(es, InNumber(d), token); r.cs.At? && r.cs.pos == InNumber(d)
  {
  }

  lemma FoundIs(jp: JsonParser, buf: string, r: State, c: char, x: Json)
    requires r.cs.At? && r.cs.pos.InNumber? && StoresFound(jp, buf, r, c, x)
    ensures jp.Valid(buf) && jp.Abs(buf) == AfterValue(Stored(r, x), c)
  {
  }

  /** The rest of the buffer. */
  method Finish(jp: JsonParser, buf: string, ghost s: State) returns (delivered: seq<Json>)
    requires jp.Valid(buf) && jp.Abs(buf) == s && 0 <= jp.off <= |buf|
    modifies jp
    ensures delivered == Run(s, buf[old(jp.off)..]).delivered
  {
    hide *;
    jp.Process(buf);
    DeliveredIs(jp, buf);
    delivered := jp.delivered;
  }

  lemma DeliveredIs(jp: JsonParser, buf: string)
    ensures jp.Abs(buf).delivered == jp.delivered
  {
  }
}
