/** The main results about the two entry points, `json_parser_parse` and the incremental stream parser. */
module Parsing {
  import opened Values
  import opened Lexical
  import opened Conversions
  import opened Machine
  import opened ShapeInvariant
  import opened Grammar
  import opened Completeness
  import opened Soundness

  // ----- json_parser_parse -----

  lemma EndDelivers(s: State)
    requires Shape(s) && s.cs.At? && !Outer(s.cs.level) && Base(s) == Single
    ensures End(s).delivered == s.delivered
  {
    assert ContextFits(s, 0);
    if |s.stack| == 1 { assert s.stack[0].level == Single; }
  }

  /** Inside `single_json_value` only the final NUL delivers. */
  lemma StepDeliversNothing(s: State, c: char)
    requires Shape(s) && s.cs.At? && Base(s) == Single && c != '\0'
    ensures Step(s, c).delivered == s.delivered
  {
    if !Outer(s.cs.level) { EndDelivers(s); }
    if s.cs.pos.InNumber? {
      NumberDeliversNothing(s, c);
    } else if s.cs.pos == After {
      AfterDeliversNothing(s, c);
    } else {
      hide Shape, End, NextText, AfterValue, StepNumber, StartNumber;
    }
  }

  lemma AfterDeliversNothing(s: State, c: char)
    requires s.cs.At? && s.cs.pos == After && c != '\0' && s.cs.level != Main
    requires !Outer(s.cs.level) ==> End(s).delivered == s.delivered
    ensures AfterValue(s, c).delivered == s.delivered
  {
    hide End;
  }

  lemma NumberDeliversNothing(s: State, c: char)
    requires Shape(s) && s.cs.At? && s.cs.pos.InNumber? && Base(s) == Single && c != '\0'
    ensures Step(s, c).delivered == s.delivered
  {
    var d, t := s.cs.pos.d, Settle(s);
    assert PosFits(s.cs.level, s.cs.pos);
    if FinalNumber(d) {
      SettleShape(s);
      SettleKeeps(s);
      if !Outer(s.cs.level) { EndDelivers(t); }
      hide Shape, Settle, End, AfterValue, NextNumber, MayFollow;
      AfterDeliversNothing(t, c);
    } else {
      hide Shape, NextNumber, Settle, AfterValue;
    }
  }

  lemma {:induction false} NothingBeforeNul(u: string)
    requires '\0' !in u
    ensures var s := Run(Initial(Single), u); s.delivered == [] && Shape(s) && (s.cs.At? ==> Base(s) == Single)
  {
    hide Step, Shape;
    InitialShape(Single);
    RunShape(Initial(Single), u);
    if u != "" {
      var w, c := u[..|u| - 1], u[|u| - 1];
      assert c in u && forall d | d in w :: d in u;
      NothingBeforeNul(w);
      var s := Run(Initial(Single), w);
      if s.cs.At? {
        StepDeliversNothing(s, c);
        if Step(s, c).cs.At? { StepBase(s, c); }
      } else {
        FailedForever(s, [c]);
        RunOne(s, c);
      }
    }
  }

  /** The derivation found when the machine is at the end of a value of `single_json_value`. */
  lemma WholeValue(u: string) returns (v: Cst)
    requires '\0' !in u
    requires var s := Run(Initial(Single), u); AtEnd(s) && s.cs.level == Single
    ensures Derives(v) && Text(v) == u && Settle(Run(Initial(Single), u)).cur == Arr([Tree(v)])
    ensures Settle(Run(Initial(Single), u)).delivered == []
  {
    hide Step, Run, Settle, Shape, FramesText, FrameText;
    var s := Run(Initial(Single), u);
    var fs := RunSound(Single, u);
    if s.cs.pos.InNumber? { fs := SettleSound(fs, s); } else { SettledAlready(s); }
    v := OnlyValue(fs, Settle(s));
  }

  lemma SettledAlready(s: State)
    requires s.cs.At? && s.cs.pos == After
    ensures Settle(s) == s
  {
  }

  lemma OnlyValue(fs: seq<Frame>, t: State) returns (v: Cst)
    requires Matches(fs, t) && Shape(t) && t.cs == At(Single, After)
    ensures Derives(v) && Text(v) == Consumed(fs, t) && t.cur == Arr([Tree(v)]) && t.delivered == []
  {
    UnfoldText(fs);
    var vs := fs[0].values;
    v := vs[0];
    assert fs[1..] == [] && FramesText([]) == "" && StreamText([]) == "";
    assert vs == [] + [v];
    StreamGrows([], v);
  }

  /** The last step of `json_parser_parse`. */
  lemma NulStep(s: State)
    requires Shape(s) && s.delivered == [] && (s.cs.At? ==> Base(s) == Single)
    ensures AtEnd(s) && s.cs.level == Single ==> Step(s, '\0').delivered == Deliver(Settle(s)).delivered
    ensures !(AtEnd(s) && s.cs.level == Single) ==> Step(s, '\0').delivered == []
  {
    if s.cs.At? {
      hide Shape;
      match s.cs.pos
      case InNumber(d) => NulAfterNumber(s, d);
      case InName(t) => hide AfterValue, StepNumber, StepWord, StepGap;
      case InString(t) => hide AfterValue, StepNumber, StepWord, StepGap;
      case InWord(w, k) => hide AfterValue, StepNumber, StepText, StepGap;
      case After => hide StepNumber, StepText, StepGap, StepWord, End, Begin;
      case _ => hide StepNumber, StepText, StepWord, AfterValue, End, Begin;
    }
  }

  lemma NulAfterNumber(s: State, d: NumState)
    requires s.cs.At? && s.cs.pos == InNumber(d) && s.delivered == [] && (s.cs.level == Main ==> s.stack != [])
    ensures AtEnd(s) && s.cs.level == Single ==> Step(s, '\0').delivered == Deliver(Settle(s)).delivered
    ensures !(AtEnd(s) && s.cs.level == Single) ==> Step(s, '\0').delivered == []
  {
    SettleKeeps(s);
    SettleAfter(s);
    hide Settle, IntValue, RealValue, End, Begin;
  }

  /** The text derives from `json_value`, with this tree. */
  ghost predicate Parses(u: string, t: Json) {
    exists v :: Derives(v) && Text(v) == u && Tree(v) == t
  }

  /**
   `json_parser_parse` is exact: it returns the value t for the text u if and only if u derives from
   `json_value` with tree t; otherwise it returns nothing. (A C string has no NUL inside.)
   */
  lemma ParseExact(u: string, t: Json)
    requires '\0' !in u
    ensures |Run(Initial(Single), u + "\0").delivered| <= 1
    ensures Run(Initial(Single), u + "\0").delivered == [t] <==> Parses(u, t)
  {
    NothingBeforeNul(u);
    var s := Run(Initial(Single), u);
    RunThen(Initial(Single), u, '\0');
    NulStep(s);
    hide Step, Run, Shape, Settle;
    if AtEnd(s) && s.cs.level == Single {
      var v := WholeValue(u);
      assert Step(s, '\0').delivered == [Tree(v)];
    }
    forall v | Derives(v) && Text(v) == u
      ensures Run(Initial(Single), u + "\0").delivered == [Tree(v)]
    {
      SingleComplete(v);
    }
  }

  /** json.rl is unambiguous as far as values go: one text never stands for two trees. */
  lemma Unambiguous(v: Cst, w: Cst)
    requires Derives(v) && Derives(w) && Text(v) == Text(w)
    ensures Tree(v) == Tree(w)
  {
    SingleComplete(v);
    SingleComplete(w);
  }

  // ----- the stream parser -----

  /** Finishes a token text at any point of it. */
  function TextEnd(t: TextState): string {
    match t
    case Fresh => ""
    case Between => ""
    case More(n) => seq(n, _ => '\U{80}')
    case Escape => "n"
    case Hex(n) => Zeros(n)
  }

  lemma FillStep(s: State, t: TextState, c: char, n: nat)
    requires s.cs.At? && (s.cs.pos == InName(t) || s.cs.pos == InString(t)) && n > 0
    requires (t == More(n) && Continuation(c)) || (t == Hex(n) && HexDigit(c))
    ensures var r := Step(s, c); var u := if n == 1 then Between else if t.More? then More(n - 1) else Hex(n - 1);
            r.cs == At(s.cs.level, if s.cs.pos.InName? then InName(u) else InString(u)) && r.stack == s.stack
  {
    hide AfterValue, StepGap, StepNumber, StepWord;
  }

  lemma {:induction false} RunFill(s: State, t: TextState, c: char, n: nat)
    requires s.cs.At? && (s.cs.pos == InName(t) || s.cs.pos == InString(t)) && n > 0
    requires (t == More(n) && Continuation(c)) || (t == Hex(n) && HexDigit(c))
    ensures var r := Run(s, seq(n, _ => c));
            r.cs == At(s.cs.level, if s.cs.pos.InName? then InName(Between) else InString(Between))
    ensures Run(s, seq(n, _ => c)).stack == s.stack
    decreases n
  {
    FillStep(s, t, c, n);
    hide Step, Run;
    var u := seq(n, _ => c);
    var r := Step(s, c);
    RunOne(s, c);
    if n == 1 {
      assert u == [c];
    } else {
      assert u == [c] + seq(n - 1, _ => c);
      RunConcat(s, [c], seq(n - 1, _ => c));
      RunFill(r, if t.More? then More(n - 1) else Hex(n - 1), c, n - 1);
    }
  }

  lemma EscapeStep(s: State, t: TextState)
    requires s.cs.At? && (s.cs.pos == InName(t) || s.cs.pos == InString(t)) && t == Escape
    ensures var r := Step(s, 'n');
            && r.cs == At(s.cs.level, if s.cs.pos.InName? then InName(Between) else InString(Between))
            && r.stack == s.stack
  {
  }

  lemma FinishText(s: State, t: TextState)
    requires Shape(s) && s.cs.At? && (s.cs.pos == InName(t) || s.cs.pos == InString(t))
    ensures var r := Run(s, TextEnd(t));
            && r.stack == s.stack && r.cs.At? && r.cs.level == s.cs.level
            && exists b :: AtBoundary(b) && r.cs.pos == if s.cs.pos.InName? then InName(b) else InString(b)
  {
    ScanTextSound(s.token);
    assert t.More? || t.Hex? ==> t.n > 0;
    if t == Escape { EscapeStep(s, t); }
    hide Shape, ScanText, OpenToken, IsText, Step;
    match t
    case More(n) => RunFill(s, t, '\U{80}', n);
    case Escape => RunOne(s, 'n');
    case Hex(n) =>
      assert Zeros(n) == seq(n, _ => '0');
      RunFill(s, t, '0', n);
    case _ => RunNone(s);
  }

  /** From inside any string or name a few bytes lead past its closing quote. */
  lemma QuoteSteps(s: State)
    requires s.cs.At?
    requires match s.cs.pos case InName(b) => AtBoundary(b) case InString(b) => AtBoundary(b) case _ => false
    ensures var r := Step(s, '"');
            r.cs == At(s.cs.level, if s.cs.pos.InName? then Colon else After) && r.stack == s.stack
  {
  }

  lemma FinishQuoted(s: State, t: TextState) returns (w: string)
    requires Shape(s) && s.cs.At? && (s.cs.pos == InName(t) || s.cs.pos == InString(t))
    ensures Run(s, w).cs == At(s.cs.level, if s.cs.pos.InName? then Colon else After)
    ensures Run(s, w).stack == s.stack
  {
    FinishText(s, t);
    hide Run, Shape, TextEnd;
    w := TextEnd(t) + ['"'];
    RunThen(s, TextEnd(t), '"');
    QuoteSteps(Run(s, TextEnd(t)));
  }

  /** From inside any number at most one digit makes it complete. */
  lemma FinishNumber(s: State) returns (w: string)
    requires s.cs.At? && s.cs.pos.InNumber?
    ensures AtEnd(Run(s, w)) && Run(s, w).cs.level == s.cs.level && Run(s, w).stack == s.stack
  {
    if FinalNumber(s.cs.pos.d) {
      RunNone(s);
      w := "";
    } else {
      RunOne(s, '0');
      w := "0";
    }
  }

  lemma {:induction false} FinishWord(s: State, word: Word, k: nat) returns (w: string)
    requires s.cs.At? && s.cs.pos == InWord(word, k) && 0 < k < |Spelling(word)|
    ensures AtEnd(Run(s, w)) && Run(s, w).cs.level == s.cs.level && Run(s, w).stack == s.stack
    decreases |Spelling(word)| - k
  {
    var c := Spelling(word)[k];
    RunOne(s, c);
    w := [c];
    if k + 1 < |Spelling(word)| {
      var u := FinishWord(Step(s, c), word, k + 1);
      RunConcat(s, [c], u);
      w := [c] + u;
    }
  }

  /** From inside a token some bytes lead out of it. */
  lemma FinishToken(s: State) returns (w: string)
    requires Shape(s) && s.cs.At? && !Outer(s.cs.level)
    ensures var r := Run(s, w); r.cs.At? && r.cs.level == s.cs.level && r.stack == s.stack
    ensures var p := Run(s, w).cs.pos;
            AtEnd(Run(s, w)) || p == Start || p == Need || p == Colon || p == Value
  {
    if s.cs.pos.InName? {
      w := FinishQuoted(s, s.cs.pos.n);
    } else if s.cs.pos.InString? {
      w := FinishQuoted(s, s.cs.pos.t);
    } else if s.cs.pos.InNumber? {
      w := FinishNumber(s);
    } else if s.cs.pos.InWord? {
      w := FinishWord(s, s.cs.pos.w, s.cs.pos.k);
    } else {
      RunNone(s);
      w := "";
    }
  }

  lemma FromValue(s: State)
    requires Ready(s.cs) && !Outer(s.cs.level)
    ensures var r := Run(s, "0"); AtEnd(r) && r.cs.level == s.cs.level && r.stack == s.stack
  {
    RunOne(s, '0');
  }

  lemma FromColon(s: State)
    requires s.cs == At(Object, Colon)
    ensures var r := Run(s, ":0"); AtEnd(r) && r.cs.level == s.cs.level && r.stack == s.stack
  {
    RunOne(s, ':');
    FromValue(Step(s, ':'));
    RunConcat(s, ":", "0");
    assert ":" + "0" == ":0";
  }

  lemma FromName(s: State)
    requires s.cs == At(Object, Need)
    ensures var r := Run(s, "\"\":0"); AtEnd(r) && r.cs.level == s.cs.level && r.stack == s.stack
  {
    RunOne(s, '"');
    RunThen(s, "\"", '"');
    assert "\"\"" == "\"" + ['"'];
    FromColon(Run(s, "\"\""));
    RunConcat(s, "\"\"", ":0");
    assert "\"\"" + ":0" == "\"\":0";
  }

  /** Between tokens, the bytes that lead to the end of a value. */
  lemma FinishGap(s: State) returns (w: string)
    requires Shape(s) && s.cs.At? && !Outer(s.cs.level) && (s.cs.pos == Need || s.cs.pos == Colon || s.cs.pos == Value)
    ensures var r := Run(s, w); AtEnd(r) && r.cs.level == s.cs.level && r.stack == s.stack
  {
    hide Run;
    if s.cs == At(Object, Need) { FromName(s); w := "\"\":0"; }
    else if s.cs.pos == Colon { FromColon(s); w := ":0"; }
    else { FromValue(s); w := "0"; }
  }

  /** From any place inside an array or object some bytes lead to the end of one of its values, or to its start. */
  lemma ReachEnd(s: State) returns (w: string)
    requires Shape(s) && s.cs.At? && !Outer(s.cs.level)
    ensures var r := Run(s, w);
            r.cs.At? && r.cs.level == s.cs.level && r.stack == s.stack && (AtEnd(r) || r.cs.pos == Start)
  {
    w := FinishToken(s);
    var r := Run(s, w);
    if !AtEnd(r) && r.cs.pos != Start {
      RunShape(s, w);
      var u := FinishGap(r);
      RunConcat(s, w, u);
      w := w + u;
    }
  }

  /** From any place inside an array or object some bytes close it. */
  lemma CloseLevel(s: State) returns (w: string)
    requires Shape(s) && s.cs.At? && !Outer(s.cs.level)
    ensures Run(s, w).cs.At? && |Run(s, w).stack| == |s.stack| - 1
  {
    w := ReachEnd(s);
    var r := Run(s, w);
    RunShape(s, w);
    var b := if s.cs.level == Array then Square else Curly;
    RunThen(s, w, CloseText(b)[0]);
    w := w + [CloseText(b)[0]];
    hide Run;
    if r.cs.pos == Start {
      StepCloseEmpty(r, b);
      EndKeeps(r);
    } else {
      StepClose(r, b);
      SettleShape(r);
      SettleKeeps(r);
      EndKeeps(Settle(r));
    }
  }

  /** No state is a dead end: from every state that is not the error state all open containers can still be closed. */
  lemma {:induction false} CloseAll(s: State) returns (w: string)
    requires Shape(s) && s.cs.At? && Base(s) == Main
    ensures Run(s, w).cs.At? && Run(s, w).stack == []
    decreases |s.stack|
  {
    RunNone(s);
    w := "";
    if s.stack != [] {
      w := CloseLevel(s);
      RunShape(s, w);
      RunBase(s, w);
      var u := CloseAll(Run(s, w));
      RunConcat(s, w, u);
      w := w + u;
    }
  }

  lemma {:induction false} RunBase(s: State, w: string)
    requires Shape(s) && Run(s, w).cs.At?
    ensures s.cs.At? && Base(Run(s, w)) == Base(s)
  {
    if w != "" {
      var u, c := w[..|w| - 1], w[|w| - 1];
      RunShape(s, u);
      StepBase(Run(s, u), c);
      RunBase(s, u);
    }
  }

  /** The complete values in the frames: a stream of derivations that starts the input. */
  lemma DeliveredStream(w: string) returns (vs: seq<Cst>)
    requires Run(Initial(Main), w).cs.At?
    ensures DerivesStream(vs) && StreamText(vs) <= w && Run(Initial(Main), w).delivered == Trees(vs)
    ensures Run(Initial(Main), w).stack == [] ==> StreamText(vs) == w
  {
    var s := Run(Initial(Main), w);
    var fs := RunSound(Main, w);
    hide Run, Shape, Initial;
    BottomFrame(fs, s);
    vs := fs[|s.stack|].values;
    BottomText(fs);
    hide Matches, FramesText, FrameText, DerivesStream, StreamText, Trees, Base;
    if s.stack == [] { OneFrame(fs); }
  }

  /** The frame at the bottom holds what has been delivered. */
  lemma BottomFrame(fs: seq<Frame>, s: State)
    requires Matches(fs, s) && Shape(s) && Base(s) == Main
    ensures |fs| == |s.stack| + 1
    ensures var f := fs[|s.stack|];
            f.Top? && DerivesStream(f.values) && s.delivered == Trees(f.values) && FrameText(f) == StreamText(f.values)
    ensures s.stack == [] ==> TokenText(s.cs, s.token) == ""
  {
    var n := |s.stack|;
    if n > 0 {
      assert Suspended(fs[n], LevelAt(s, n), s.contexts[n - 1].obj, LevelAt(s, n - 1), s);
    } else {
      assert PosMatches(fs[0], s) && FrameDerives(fs[0]);
    }
    hide Trees, StreamText;
  }

  lemma OneFrame(fs: seq<Frame>)
    requires |fs| == 1
    ensures FramesText(fs) == FrameText(fs[0])
  {
    UnfoldText(fs);
    assert fs[1..] == [] && FramesText([]) == "";
  }

  lemma {:induction false} BottomText(fs: seq<Frame>)
    requires fs != []
    ensures FrameText(fs[|fs| - 1]) <= FramesText(fs)
  {
    if |fs| > 1 {
      BottomText(fs[1..]);
    } else {
      assert FramesText(fs[1..]) == "";
    }
  }

  /** Can this input be continued to a stream of arrays and objects? */
  ghost predicate Viable(w: string) {
    exists vs :: DerivesStream(vs) && w <= StreamText(vs)
  }

  /** The stream parser is in the error state exactly when what it has read is no prefix of a valid stream. */
  lemma ErrorExact(w: string)
    ensures Run(Initial(Main), w).cs == Failed <==> !Viable(w)
  {
    var s := Run(Initial(Main), w);
    InitialShape(Main);
    RunShape(Initial(Main), w);
    if s.cs.At? {
      RunBase(Initial(Main), w);
      var u := CloseAll(s);
      RunConcat(Initial(Main), w, u);
      var vs := DeliveredStream(w + u);
      assert w <= StreamText(vs);
    }
    if Viable(w) {
      var vs :| DerivesStream(vs) && w <= StreamText(vs);
      var u := StreamText(vs)[|w|..];
      assert w + u == StreamText(vs);
      RunConcat(Initial(Main), w, u);
      StreamComplete(vs);
      if s.cs == Failed { FailedForever(s, u); }
    }
  }

  /** The longest part of the input read without error, and the error count. */
  lemma {:induction false} ReadPart(w: string) returns (p: string)
    ensures p <= w && Run(Initial(Main), p).cs.At?
    ensures Run(Initial(Main), w).delivered == Run(Initial(Main), p).delivered
    ensures Run(Initial(Main), w).errors == if Run(Initial(Main), w).cs == Failed then 1 else 0
  {
    hide Step;
    p := w;
    if w != "" {
      var u, c := w[..|w| - 1], w[|w| - 1];
      var s := Run(Initial(Main), u);
      p := ReadPart(u);
      InitialShape(Main);
      RunShape(Initial(Main), u);
      if s.cs == Failed {
        FailedForever(s, [c]);
        RunOne(s, c);
      } else {
        RunBase(Initial(Main), u);
        StepErrors(s, c);
        if Step(s, c).cs == Failed { p := u; } else { p := w; }
      }
    }
  }

  /** What an ordinary byte and an error each leave behind. */
  predicate OneError(s: State, t: State) {
    if t.cs == Failed then t.errors == s.errors + 1 && t.delivered == s.delivered else t.errors == s.errors
  }

  lemma AfterErrors(s: State, c: char)
    requires s.cs.At? && s.cs.pos == After && s.cs.level != Single
    requires !Outer(s.cs.level) ==> End(s).cs.At? && End(s).errors == s.errors
    ensures OneError(s, AfterValue(s, c))
  {
    hide End;
  }

  /** A byte either moves on without an error, or fails with one error report and nothing else. */
  lemma StepErrors(s: State, c: char)
    requires Shape(s) && s.cs.At? && Base(s) == Main
    ensures OneError(s, Step(s, c))
  {
    assert s.cs.level != Single;
    if s.stack != [] { EndErrors(s); }
    assert s.stack != [] <==> !Outer(s.cs.level);
    hide Shape, End, IntValue, RealValue, NextText, StartNumber;
    match s.cs.pos
    case After => AfterErrors(s, c);
    case InNumber(d) =>
      SettleErrors(s);
      if NextNumber(d, c) == None && FinalNumber(d) && MayFollow(s.cs.level, c) { AfterErrors(Settle(s), c); }
    case _ =>
  }

  lemma SettleErrors(s: State)
    requires s.cs.At?
    ensures var t := Settle(s);
            t.cs.At? && t.cs.level == s.cs.level && t.errors == s.errors && t.delivered == s.delivered
    ensures s.cs.pos.InNumber? && FinalNumber(s.cs.pos.d) ==> Settle(s).cs.pos == After
  {
    hide IntValue, RealValue, With;
  }

  lemma EndErrorsOf(s: State)
    requires s.stack != [] && s.contexts != [] && s.stack[0].At?
    ensures End(s).cs.At? && End(s).errors == s.errors
  {
    hide WriteBack;
  }

  lemma EndErrors(s: State)
    requires Shape(s) && s.cs.At? && s.stack != []
    ensures End(s).cs.At? && End(s).errors == s.errors
    ensures End(Settle(s)).cs.At? && End(Settle(s)).errors == s.errors
  {
    assert ContextFits(s, 0) && |s.contexts| == |s.stack|;
    SettleKeeps(s);
    SettleAfter(s);
    SettleErrors(s);
    hide Shape, ContextFits, Settle;
    EndErrorsOf(s);
    EndErrorsOf(Settle(s));
  }

  /**
   Stream delivery. For any bytes at all: what is delivered are the trees of a stream that starts the
   input; every stream that starts the input has been delivered, in order; and there is one error report,
   at the first byte after which no valid stream is possible, or none if there is no such byte.
   */
  lemma StreamExact(w: string)
    ensures var r := Run(Initial(Main), w);
            && (exists vs :: DerivesStream(vs) && StreamText(vs) <= w && r.delivered == Trees(vs))
            && (forall vs :: DerivesStream(vs) && StreamText(vs) <= w ==> Trees(vs) <= r.delivered)
            && r.errors == if Viable(w) then 0 else 1
  {
    var r := Run(Initial(Main), w);
    var p := ReadPart(w);
    var vs := DeliveredStream(p);
    ErrorExact(w);
    hide Run, DerivesStream, Trees, StreamText;
    forall us | DerivesStream(us) && StreamText(us) <= w
      ensures Trees(us) <= r.delivered
    {
      StartIsDelivered(us, w);
    }
  }

  lemma StartIsDelivered(us: seq<Cst>, w: string)
    requires DerivesStream(us) && StreamText(us) <= w
    ensures Trees(us) <= Run(Initial(Main), w).delivered
  {
    var rest := w[|StreamText(us)|..];
    assert StreamText(us) + rest == w;
    RunConcat(Initial(Main), StreamText(us), rest);
    StreamComplete(us);
    DeliveredGrows(Run(Initial(Main), StreamText(us)), rest);
  }

  lemma {:induction false} DeliveredGrows(s: State, w: string)
    ensures s.delivered <= Run(s, w).delivered
  {
    if w != "" {
      DeliveredGrows(s, w[..|w| - 1]);
      StepGrows(Run(s, w[..|w| - 1]), w[|w| - 1]);
    }
  }

  lemma EndGrows(s: State)
    ensures s.delivered <= End(s).delivered
  {
  }

  lemma AfterGrows(s: State, c: char)
    requires s.cs.At? && s.cs.pos == After
    ensures s.delivered <= AfterValue(s, c).delivered
  {
    EndGrows(s);
    hide End;
  }

  lemma GapGrows(s: State, c: char)
    requires s.cs.At?
    ensures s.delivered <= StepGap(s, c).delivered
  {
    EndGrows(s);
    hide End, Empty;
    assert StartValue(s, c).delivered == s.delivered;
  }

  lemma StepGrows(s: State, c: char)
    ensures s.delivered <= Step(s, c).delivered
  {
    if s.cs.At? {
      GapGrows(s, c);
      hide StepGap, NextText, NextNumber, AfterValue;
      match s.cs.pos
      case After => AfterGrows(s, c);
      case InNumber(d) =>
        SettleErrors(s);
        if NextNumber(d, c) == None && FinalNumber(d) && MayFollow(s.cs.level, c) { AfterGrows(Settle(s), c); }
      case _ =>
    }
  }

  /** Once there has been an error no later input causes another value or error. */
  lemma ErrorAbsorbs(w: string, more: string)
    requires !Viable(w)
    ensures Run(Initial(Main), w + more) == Run(Initial(Main), w)
  {
    ErrorExact(w);
    RunConcat(Initial(Main), w, more);
    FailedForever(Run(Initial(Main), w), more);
  }
}
