/** Completeness: on the text of any derivation the machine delivers the tree of that derivation. */
module Completeness {
  import opened Values
  import opened Lexical
  import opened Conversions
  import opened Machine
  import opened ShapeInvariant
  import opened Grammar

  /** What the machine should have done once a whole value is behind it. */
  function Placed(s: State, v: Json): State
    requires s.cs.At?
  {
    Arrive(Stored(s, v))
  }

  function LevelOf(b: Bracket): Level { if b == Square then Array else Object }

  lemma RunNone(s: State)
    ensures Run(s, "") == s
  {
  }

  // ----- tokens -----

  lemma {:induction false} RunSpaces(s: State, n: nat)
    requires Step(s, ' ') == s
    ensures Run(s, Spaces(n)) == s
  {
    if n > 0 {
      RunSpaces(s, n - 1);
      assert Spaces(n) == Spaces(n - 1) + [' '];
      RunThen(s, Spaces(n - 1), ' ');
    }
  }

  /** The state inside a string or name whose bytes so far are `raw`. */
  function InText(s: State, raw: string): State
    requires s.cs.At? && ScanText(raw).Some?
  {
    var t := ScanText(raw).value;
    Goto(s, if s.cs.pos.InName? then InName(t) else InString(t)).(token := raw)
  }

  lemma StepInText(s: State, raw: string, c: char)
    requires s.cs.At? && (s.cs.pos.InString? || s.cs.pos.InName?) && ScanText(raw + [c]).Some?
    ensures ScanText(raw).Some? && Step(InText(s, raw), c) == InText(s, raw + [c])
  {
    ScanTextAppend(raw, c);
    hide ScanText;
    if AtBoundary(ScanText(raw).value) { QuoteEnds(ScanText(raw).value); }
    hide NextText;
  }

  lemma QuoteEnds(t: TextState)
    requires AtBoundary(t)
    ensures NextText(t, '"') == None
  {
  }

  lemma {:induction false} RunText(s: State, raw: string)
    requires s.cs.At? && (s.cs.pos == InString(Fresh) || s.cs.pos == InName(Fresh)) && s.token == ""
    requires ScanText(raw).Some?
    ensures Run(s, raw) == InText(s, raw)
  {
    hide Run, Step;
    RunNone(s);
    if raw != "" {
      var u, c := raw[..|raw| - 1], raw[|raw| - 1];
      assert raw == u + [c];
      hide ScanText, InText;
      StepInText(s, u, c);
      RunText(s, u);
      RunThen(s, u, c);
    }
  }

  lemma StepInNumber(s: State, t: string, c: char)
    requires s.cs.At? && t != "" && ScanNumber(t + [c]).Some?
    ensures ScanNumber(t).Some?
    ensures Step(Goto(s, InNumber(ScanNumber(t).value)).(token := t), c)
            == Goto(s, InNumber(ScanNumber(t + [c]).value)).(token := t + [c])
  {
    ScanNumberAppend(t, c);
  }

  lemma FirstDigit(s: State, t: string)
    requires Ready(s.cs) && s.cs.level != Main && |t| == 1 && ScanNumber(t).Some?
    ensures Step(s, t[0]) == Goto(s, InNumber(ScanNumber(t).value)).(token := t)
  {
  }

  lemma {:induction false} RunNumber(s: State, t: string)
    requires Ready(s.cs) && s.cs.level != Main && ScanNumber(t).Some?
    ensures Run(s, t) == Goto(s, InNumber(ScanNumber(t).value)).(token := t)
  {
    assert t != "";
    hide Run, Step, ScanNumber;
    var u, c := t[..|t| - 1], t[|t| - 1];
    assert t == u + [c];
    if u == "" {
      FirstDigit(s, t);
      RunOne(s, c);
      assert t == [c];
    } else {
      StepInNumber(s, u, c);
      RunNumber(s, u);
      RunThen(s, u, c);
    }
  }

  lemma StepInWord(s: State, w: Word, k: nat)
    requires s.cs.At? && 0 < k < |Spelling(w)|
    ensures Step(Goto(s, InWord(w, k)), Spelling(w)[k])
            == if k + 1 == |Spelling(w)| then Stored(Goto(s, InWord(w, k)), WordValue(w)) else Goto(s, InWord(w, k + 1))
  {
  }

  lemma StoredAnywhere(s: State, pos: Pos, v: Json)
    requires s.cs.At?
    ensures Stored(Goto(s, pos), v) == Stored(s, v)
  {
  }

  lemma FirstLetter(s: State, w: Word)
    requires Ready(s.cs) && s.cs.level != Main
    ensures Step(s, Spelling(w)[0]) == Goto(s, InWord(w, 1)) && |Spelling(w)| > 1
  {
  }

  lemma {:induction false} RunWordPart(s: State, w: Word, k: nat)
    requires Ready(s.cs) && s.cs.level != Main && 0 < k < |Spelling(w)|
    ensures Run(s, Spelling(w)[..k]) == Goto(s, InWord(w, k))
  {
    hide Run, Step, Spelling;
    assert Spelling(w)[..k] == Spelling(w)[..k - 1] + [Spelling(w)[k - 1]];
    FirstLetter(s, w);
    if k == 1 {
      assert Spelling(w)[..1] == [Spelling(w)[0]];
      RunOne(s, Spelling(w)[0]);
    } else {
      RunWordPart(s, w, k - 1);
      StepInWord(s, w, k - 1);
      RunThen(s, Spelling(w)[..k - 1], Spelling(w)[k - 1]);
    }
  }

  lemma RunWord(s: State, w: Word)
    requires Shape(s) && Ready(s.cs) && s.cs.level != Main
    ensures Run(s, Spelling(w)) == Stored(s, WordValue(w))
  {
    hide Run, Step, Spelling, Stored;
    FirstLetter(s, w);
    var k := |Spelling(w)| - 1;
    RunWordPart(s, w, k);
    StepInWord(s, w, k);
    StoredAnywhere(s, InWord(w, k), WordValue(w));
    assert Spelling(w) == Spelling(w)[..k] + [Spelling(w)[k]];
    RunThen(s, Spelling(w)[..k], Spelling(w)[k]);
  }

  lemma OpenQuote(s: State)
    requires Ready(s.cs) && s.cs.level != Main
    ensures Step(s, '"') == Goto(s, InString(Fresh))
  {
  }

  lemma CloseQuote(s: State, raw: string)
    requires s.cs.At? && ScanText(raw).Some? && AtBoundary(ScanText(raw).value)
    ensures s.cs.pos.InString? ==> Step(InText(s, raw), '"') == Stored(s, Str(raw))
    ensures s.cs.pos.InName? ==> Step(InText(s, raw), '"') == Goto(s, Colon).(name := Some(raw), token := "")
  {
  }

  lemma RunQuoted(s: State, raw: string)
    requires Shape(s) && Ready(s.cs) && s.cs.level != Main && IsText(raw)
    ensures Run(s, "\"" + raw + "\"") == Stored(s, Str(raw))
  {
    assert s.token == "";
    TextAutomatonExact(raw);
    hide Run, Step, ScanText, InText, Stored, IsText, Shape;
    var q := Goto(s, InString(Fresh));
    OpenQuote(s);
    RunOne(s, '"');
    RunConcat(s, "\"", raw);
    RunText(q, raw);
    CloseQuote(q, raw);
    StoredAnywhere(s, InString(Fresh), Str(raw));
    RunThen(s, "\"" + raw, '"');
  }

  lemma KeySteps(s: State, name: Option<string>)
    requires s.cs.At? && s.cs.level == Object
    ensures s.cs.pos == Start || s.cs.pos == Need ==> Step(s, '"') == Goto(s, InName(Fresh))
    ensures var n := Goto(s, Colon).(name := name); Step(n, ' ') == n && Step(n, ':') == Goto(n, Value)
    ensures var v := Goto(s, Value).(name := name); Step(v, ' ') == v
  {
  }

  lemma RunKey(s: State, k: Key)
    requires Shape(s) && s.cs.At? && s.cs.level == Object && (s.cs.pos == Start || s.cs.pos == Need) && IsText(k.raw)
    ensures Run(s, KeyText(k)) == Goto(s, Value).(name := Some(k.raw))
  {
    assert s.token == "";
    TextAutomatonExact(k.raw);
    hide Run, Step, ScanText, InText, IsText, Shape;
    var q, i := "\"", Goto(s, InName(Fresh));
    KeySteps(s, Some(k.raw));
    RunOne(s, '"');
    RunConcat(s, q, k.raw);
    RunText(i, k.raw);
    CloseQuote(i, k.raw);
    RunThen(s, q + k.raw, '"');
    var n := Goto(s, Colon).(name := Some(k.raw));
    assert Run(s, q + k.raw + q) == n;
    RunConcat(s, q + k.raw + q, Spaces(k.pre));
    RunSpaces(n, k.pre);
    RunThen(s, q + k.raw + q + Spaces(k.pre), ':');
    RunConcat(s, q + k.raw + q + Spaces(k.pre) + ":", Spaces(k.post));
    RunSpaces(Goto(n, Value), k.post);
  }

  // ----- values -----

  /** The byte that may follow a value also ends a number; the effect is that of settling it first. */
  lemma StepSettled(s: State, c: char)
    requires s.cs.At? && s.cs.pos.InNumber? && FinalNumber(s.cs.pos.d) && MayFollow(s.cs.level, c)
    ensures Step(s, c) == Step(Settle(s), c)
  {
    assert NextNumber(s.cs.pos.d, c) == None;
    hide NextNumber, AfterValue, IntValue, RealValue, MayFollow, Added;
  }

  predicate AtEnd(s: State) {
    s.cs.At? && (s.cs.pos == After || (s.cs.pos.InNumber? && FinalNumber(s.cs.pos.d)))
  }

  lemma StepSpaceSettled(s: State)
    requires AtEnd(s) && (s.cs.level == Array || s.cs.level == Object)
    ensures var t := Step(s, ' '); AtEnd(t) && Settle(t) == Settle(s) && t.cs.level == s.cs.level
  {
    hide IntValue, RealValue, End, Begin;
    if s.cs.pos.InNumber? { StepSettled(s, ' '); }
  }

  lemma {:induction false} RunSpacesSettled(s: State, n: nat)
    requires AtEnd(s) && (s.cs.level == Array || s.cs.level == Object)
    ensures var t := Run(s, Spaces(n)); AtEnd(t) && Settle(t) == Settle(s) && t.cs.level == s.cs.level
  {
    hide Run, Step, Settle, AtEnd;
    RunNone(s);
    assert Spaces(0) == "";
    if n > 0 {
      RunSpacesSettled(s, n - 1);
      assert Spaces(n) == Spaces(n - 1) + [' '];
      RunThen(s, Spaces(n - 1), ' ');
      StepSpaceSettled(Run(s, Spaces(n - 1)));
    }
  }

  lemma WriteBackAdded(s: State, before: Json, v: Json)
    requires Shape(s) && MayAdd(s.cs)
    ensures WriteBack(Added(s, before).cur, v) == Added(s, v).cur
  {
    assert s.add == ObjectAdd ==> s.name.Some?;
    hide Shape, Without;
    if s.cur.Arr? {
      assert (s.cur.elems + [before])[..|s.cur.elems|] == s.cur.elems;
    } else {
      var ms := s.cur.members;
      var w := With(ms, s.name.value, before);
      assert w[..|w| - 1] == Without(ms, s.name.value);
    }
  }

  lemma PlacedPlain(s: State, v: Json)
    requires s.cs.At? && s.cs.level != Main
    ensures Placed(s, v) == Stored(s, v) == Settle(Stored(s, v))
    ensures AtEnd(Stored(s, v)) && Stored(s, v).cs.level == s.cs.level
  {
  }

  lemma PlacedBox(s: State, v: Json)
    requires s.cs.At?
    ensures AtEnd(Placed(s, v)) && Placed(s, v) == Settle(Placed(s, v)) && Placed(s, v).cs.level == s.cs.level
  {
  }

  lemma StoredForgets(s: State, d: NumState, t: string, v: Json)
    requires s.cs.At?
    ensures Stored(Goto(s, InNumber(d)).(token := t), v) == Stored(s, v)
  {
  }

  lemma SettledNumber(s: State, t: string)
    requires s.cs.At? && s.cs.level != Main && (IsInteger(t) || IsFloat(t))
    ensures ScanNumber(t).Some?
    ensures var r := Goto(s, InNumber(ScanNumber(t).value)).(token := t);
            AtEnd(r) && Settle(r) == Stored(s, Tree(CNumber(t)))
  {
    NumberAutomatonExact(t);
    StoredForgets(s, ScanNumber(t).value, t, Tree(CNumber(t)));
    hide ScanNumber, IsFloat, IsInteger, IntValue, RealValue, Stored;
  }

  /** A value in place: the machine has read all of `v`, and is after it or at the end of its number. */
  lemma {:induction false} RunValue(s: State, v: Cst)
    requires Shape(s) && Ready(s.cs) && Derives(v) && (s.cs.level == Main ==> v.CBox?)
    ensures var r := Run(s, Text(v)); AtEnd(r) && Settle(r) == Placed(s, Tree(v)) && r.cs.level == s.cs.level
    decreases v, 2
  {
    hide Run, Stored, Placed, AtEnd, Settle, ScanNumber;
    if s.cs.level != Main { PlacedPlain(s, Tree(v)); }
    match v
    case CWord(w) => RunWord(s, w);
    case CNumber(t) =>
      SettledNumber(s, t);
      RunNumber(s, t);
    case CString(raw) => RunQuoted(s, raw);
    case CBox(_, _, _, _) =>
      RunBox(s, v);
      PlacedBox(s, Tree(v));
  }

  lemma StepOpen(s: State, b: Bracket)
    requires Ready(s.cs)
    ensures Step(s, OpenText(b)[0]) == Begin(s, LevelOf(b))
    ensures Step(Begin(s, LevelOf(b)), ' ') == Begin(s, LevelOf(b))
  {
  }

  lemma RunOpen(s: State, b: Bracket, lead: nat)
    requires Shape(s) && Ready(s.cs)
    ensures Run(s, OpenText(b) + Spaces(lead)) == Begin(s, LevelOf(b))
  {
    assert s.cs.At?;
    hide Run, Step, Begin, Shape, Ready;
    StepOpen(s, b);
    RunOne(s, OpenText(b)[0]);
    assert OpenText(b) == [OpenText(b)[0]];
    RunConcat(s, OpenText(b), Spaces(lead));
    RunSpaces(Begin(s, LevelOf(b)), lead);
  }

  lemma {:induction false} RunBox(s: State, v: Cst)
    requires Shape(s) && Ready(s.cs) && v.CBox? && Derives(v)
    ensures Run(s, Text(v)) == Placed(s, Tree(v))
    decreases v, 1
  {
    hide Run, Begin, End, Step, Placed;
    var CBox(b, lead, done, last) := v;
    var inner := Begin(s, LevelOf(b));
    BeginShape(s, LevelOf(b));
    BeginState(s, b);
    var head, c := OpenText(b) + Spaces(lead), CloseText(b)[0];
    RunOpen(s, b, lead);
    RunItems(inner, b, done);
    RunShape(inner, ItemsText(done));
    var filled := Run(inner, ItemsText(done));
    RunConcat(s, head, ItemsText(done));
    CloseBox(s, LevelOf(b), Tree(v));
    var body := head + ItemsText(done);
    if last.Some? {
      RunEntry(filled, b, last.value);
      RunConcat(s, body, EntryText(last.value));
      RunThen(s, body + EntryText(last.value), c);
      StepClose(Run(filled, EntryText(last.value)), b);
      assert Text(v) == body + EntryText(last.value) + [c];
    } else {
      RunThen(s, body, c);
      StepCloseEmpty(filled, b);
      assert Text(v) == body + [c];
    }
  }

  lemma BeginState(s: State, b: Bracket)
    requires s.cs.At?
    ensures var t := Begin(s, LevelOf(b)); t.cs == At(LevelOf(b), Start) && t.cur == EmptyBox(b)
  {
  }

  lemma StepClose(e: State, b: Bracket)
    requires AtEnd(e) && e.cs.level == LevelOf(b)
    ensures Step(e, CloseText(b)[0]) == End(Settle(e))
  {
    hide End, Begin, IntValue, RealValue;
    if e.cs.pos.InNumber? {
      StepSettled(e, CloseText(b)[0]);
    }
  }

  lemma StepCloseEmpty(e: State, b: Bracket)
    requires e.cs == At(LevelOf(b), Start)
    ensures Step(e, CloseText(b)[0]) == End(e)
  {
  }

  /** `A_end_*` undoes `A_begin_*`: the parent ends up as if the finished child had been added whole. */
  lemma CloseBox(s: State, level: Level, v: Json)
    requires Shape(s) && Ready(s.cs)
    ensures End(Begin(s, level).(cur := v)) == Placed(s, v)
    ensures End(Goto(Begin(s, level).(cur := v), After)) == Placed(s, v)
  {
    var t := Begin(s, level).(cur := v);
    WriteBackAdded(s, Empty(level), v);
    assert t.contexts[1..] == s.contexts && t.stack[1..] == s.stack;
  }

  lemma StepComma(e: State)
    requires AtEnd(e) && !Outer(e.cs.level)
    ensures Settle(e).cs.At? && Step(e, ',') == Goto(Settle(e), Need)
            && Step(Goto(Settle(e), Need), ' ') == Goto(Settle(e), Need)
  {
    hide IntValue, RealValue, End, Begin;
    if e.cs.pos.InNumber? { StepSettled(e, ','); }
  }

  /** A container's entries up to and including a comma. */
  lemma {:induction false} RunItems(s: State, b: Bracket, items: seq<Item>)
    requires Shape(s) && s.cs == At(LevelOf(b), Start) && s.cur == EmptyBox(b)
    requires forall i | i in items :: DerivesItem(b, i)
    ensures Run(s, ItemsText(items)) == Goto(s.(cur := Contents(b, items)), if items == [] then Start else Need)
    decreases items, 1
  {
    RunNone(s);
    if items != [] {
      var init, i := items[..|items| - 1], items[|items| - 1];
      assert ItemsText(items) == ItemsText(init) + EntryText(i) + "," + Spaces(i.post);
      assert Contents(b, items) == WithEntry(Contents(b, init), i.key, EntryTree(i));
      RunItems(s, b, init);
      RunShape(s, ItemsText(init));
      hide Run, Step, Settle, AtEnd, Shape, ItemsText, Contents, EntryText, EntryTree, WithEntry, DerivesItem;
      var m := Run(s, ItemsText(init));
      RunConcat(s, ItemsText(init), EntryText(i));
      RunEntry(m, b, i);
      StepComma(Run(m, EntryText(i)));
      RunThen(s, ItemsText(init) + EntryText(i), ',');
      RunConcat(s, ItemsText(init) + EntryText(i) + ",", Spaces(i.post));
      RunSpaces(Goto(s.(cur := Contents(b, items)), Need), i.post);
    }
  }

  lemma {:induction false} RunEntry(s: State, b: Bracket, i: Item)
    requires Shape(s) && s.cs.At? && s.cs.level == LevelOf(b) && (s.cs.pos == Start || s.cs.pos == Need)
    requires DerivesItem(b, i)
    ensures var r := Run(s, EntryText(i));
            AtEnd(r) && r.cs.level == LevelOf(b)
                && Settle(r) == Goto(s.(cur := WithEntry(s.cur, i.key, EntryTree(i))), After)
    decreases i, 0
  {
    hide Run, Settle, AtEnd, Placed;
    var h := if b == Square then s else Goto(s, Value).(name := Some(i.key.value.raw));
    RunNone(s);
    if b == Curly { RunKey(s, i.key.value); }
    assert Run(s, HeadText(i.key)) == h;
    RunShape(s, HeadText(i.key));
    RunConcat(s, HeadText(i.key), Text(i.value));
    RunValue(h, i.value);
    RunConcat(s, HeadText(i.key) + Text(i.value), Spaces(i.pre));
    RunSpacesSettled(Run(h, Text(i.value)), i.pre);
    EntryPlaced(s, b, i.key, EntryTree(i));
  }

  lemma EntryPlaced(s: State, b: Bracket, key: Option<Key>, v: Json)
    requires Shape(s) && s.cs.At? && s.cs.level == LevelOf(b) && (s.cs.pos == Start || s.cs.pos == Need)
    requires key.Some? <==> b == Curly
    ensures Placed(if b == Square then s else Goto(s, Value).(name := Some(key.value.raw)), v)
            == Goto(s.(cur := WithEntry(s.cur, key, v)), After)
  {
  }

  // ----- the two entry points -----

  lemma StepNul(e: State, v: Json)
    requires AtEnd(e) && e.cs.level == Single && Settle(e) == Placed(Initial(Single), v)
    ensures var r := Step(e, '\0'); r.delivered == [v] && r.errors == 0 && r.cs == At(Single, Done)
  {
    if e.cs.pos.InNumber? { StepSettled(e, '\0'); }
  }

  /** `json_parser_parse` on the text of a derivation delivers its tree, once, without error. */
  lemma SingleComplete(v: Cst)
    requires Derives(v)
    ensures var r := Run(Initial(Single), Text(v) + "\0");
            r.delivered == [Tree(v)] && r.errors == 0 && r.cs == At(Single, Done)
  {
    hide Run, Step, AtEnd, Settle, Placed;
    var s := Initial(Single);
    InitialShape(Single);
    RunValue(s, v);
    StepNul(Run(s, Text(v)), Tree(v));
    RunThen(s, Text(v), '\0');
  }

  /** The state of `main` after a stream. */
  function AfterStream(vs: seq<Cst>): State {
    Initial(Main).(cs := At(Main, if vs == [] then Start else After), delivered := Trees(vs))
  }

  lemma PlacedOnMain(init: seq<Cst>, x: Json)
    ensures AfterStream(init).cs.At?
    ensures Placed(AfterStream(init), x)
            == Initial(Main).(cs := At(Main, After), delivered := Trees(init) + [x])
  {
    assert [] + [x] == [x] && [x][1..] == [];
    hide Trees;
  }

  lemma StreamStep(init: seq<Cst>, v: Cst)
    requires Run(Initial(Main), StreamText(init)) == AfterStream(init) && Derives(v) && v.CBox?
    ensures Run(AfterStream(init), Text(v))
            == Initial(Main).(cs := At(Main, After), delivered := Trees(init) + [Tree(v)])
  {
    InitialShape(Main);
    RunShape(Initial(Main), StreamText(init));
    PlacedOnMain(init, Tree(v));
    assert Ready(AfterStream(init).cs);
    hide *;
    RunBox(AfterStream(init), v);
  }

  /** `main` on a stream of arrays and objects delivers each of them, in order. */
  lemma {:induction false} StreamComplete(vs: seq<Cst>)
    requires DerivesStream(vs)
    ensures var r := Run(Initial(Main), StreamText(vs));
            r == Initial(Main).(cs := At(Main, if vs == [] then Start else After), delivered := Trees(vs))
  {
    RunNone(Initial(Main));
    if vs != [] {
      var init, v := vs[..|vs| - 1], vs[|vs| - 1];
      StreamComplete(init);
      StreamStep(init, v);
      hide Run, Initial;
      RunConcat(Initial(Main), StreamText(init), Text(v));
    }
  }
}
