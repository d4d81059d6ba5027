/** The shape invariant of the parser: what is true of its state between any two bytes. */
module ShapeInvariant {
  import opened Values
  import opened Lexical
  import opened Conversions
  import opened Machine

  predicate Outer(level: Level) { level == Main || level == Single }

  /** Positions each machine can be in. */
  predicate PosFits(level: Level, pos: Pos) {
    match pos
    case Start => true
    case After => true
    case Done => level == Single
    case Need => level == Array || level == Object
    case Colon => level == Object
    case Value => level == Object
    case InName(_) => level == Object
    case _ => level != Main
  }

  predicate IsContainer(v: Json, level: Level) { if level == Object then v.Obj? else v.Arr? }

  predicate AddFits(add: AddFunction, level: Level) { add == if level == Object then ObjectAdd else ArrayAdd }

  /** A pending name is held exactly between a name and its value. */
  predicate NameDue(cs: Control)
    requires cs.At?
  {
    cs.level == Object && (cs.pos == Colon || cs.pos == Value || cs.pos.InString? || cs.pos.InNumber? || cs.pos.InWord?)
  }

  predicate TokenFits(pos: Pos, token: string) {
    match pos
    case InName(t) => ScanText(token) == Some(t)
    case InString(t) => ScanText(token) == Some(t)
    case InNumber(d) => ScanNumber(token) == Some(d)
    case InWord(w, k) => 0 < k < |Spelling(w)| && token == ""
    case _ => token == ""
  }

  /** The latest entry of a suspended container: the child that was opened in it. */
  predicate LatestIs(parent: Json, child: Json) {
    match parent
    case Arr(es) => es != [] && es[|es| - 1] == child
    case Obj(ms) => ms != [] && ms[|ms| - 1].value == child
    case _ => false
  }

  /** How many values the root array holds. */
  predicate RootFits(level: Level, pos: Pos, root: Json) {
    root.Arr? && |root.elems| == if level == Single && pos == After then 1 else 0
  }

  /** The context at index i: its object and `add` fit the machine to return to, its latest entry is the open child. */
  ghost predicate ContextFits(s: State, i: nat)
    requires s.cs.At? && i < |s.contexts| == |s.stack|
  {
    && s.stack[i].At? && s.stack[i].pos == After
    && (Outer(s.stack[i].level) <==> i == |s.stack| - 1)
    && IsContainer(s.contexts[i].obj, s.stack[i].level) && AddFits(s.contexts[i].add, s.stack[i].level)
    && Keyed(s.contexts[i].obj)
    && LatestIs(s.contexts[i].obj,
        Empty(if i == 0 then s.cs.level else if s.stack[i - 1].At? then s.stack[i - 1].level else Array))
    && (Outer(s.stack[i].level) ==> s.contexts[i].obj.Arr? && |s.contexts[i].obj.elems| == 1)
  }

  ghost predicate Shape(s: State) {
    && |s.stack| == |s.contexts|
    && !s.internal
    && (forall v | v in s.delivered :: Keyed(v))
    && (s.cs.At? ==>
          && PosFits(s.cs.level, s.cs.pos)
          && IsContainer(s.cur, s.cs.level) && AddFits(s.add, s.cs.level) && Keyed(s.cur)
          && (Outer(s.cs.level) <==> s.stack == [])
          && (Outer(s.cs.level) ==> RootFits(s.cs.level, s.cs.pos, s.cur))
          && (s.name.Some? <==> NameDue(s.cs))
          && TokenFits(s.cs.pos, s.token)
          && forall i :: 0 <= i < |s.stack| ==> ContextFits(s, i))
  }

  lemma InitialShape(level: Level)
    requires Outer(level)
    ensures Shape(Initial(level))
  {
  }

  /** Ready for a value: the positions from which `json_value` starts. */
  predicate Ready(cs: Control) {
    cs.At? && match cs.level
      case Main => cs.pos == Start || cs.pos == After
      case Single => cs.pos == Start
      case Array => cs.pos == Start || cs.pos == Need
      case Object => cs.pos == Value
  }

  /** Waiting for, or inside, a value: where `add` may be called. */
  predicate MayAdd(cs: Control) {
    cs.At? && (Ready(cs) || cs.pos.InString? || cs.pos.InNumber? || cs.pos.InWord?)
  }

  lemma AddedKeyed(s: State, v: Json)
    requires Shape(s) && MayAdd(s.cs) && Keyed(v)
    ensures var a := Added(s, v);
            Keyed(a.cur) && !a.internal && IsContainer(a.cur, s.cs.level) && LatestIs(a.cur, v) && a.name == None
    ensures s.cur.Arr? ==> Added(s, v).cur == Arr(s.cur.elems + [v])
  {
    if s.add == ObjectAdd {
      WithKeepsKeyed(s.cur.members, s.name.value, v);
    }
  }

  lemma AddedKeeps(s: State, v: Json)
    ensures var a := Added(s, v);
            && a.cs == s.cs && a.stack == s.stack && a.contexts == s.contexts && a.add == s.add
            && a.token == s.token && a.delivered == s.delivered
  {
  }

  lemma StoredContext(s: State, v: Json, i: nat)
    requires Shape(s) && MayAdd(s.cs) && s.cs.level != Main && Keyed(v) && i < |s.stack|
    ensures |Stored(s, v).contexts| == |Stored(s, v).stack| == |s.stack| && ContextFits(Stored(s, v), i)
  {
    assert ContextFits(s, i);
    AddedKeeps(s, v);
    hide Added, Keyed, LatestIs, IsContainer, AddFits, Empty;
  }

  lemma StoredShape(s: State, v: Json)
    requires Shape(s) && MayAdd(s.cs) && s.cs.level != Main && Keyed(v)
    ensures Shape(Stored(s, v))
  {
    AddedKeyed(s, v);
    AddedKeeps(s, v);
    StoredContexts(s, v);
    assert Outer(s.cs.level) ==> s.cur == Arr([]) && Added(s, v).cur == Arr([v]) by { assert [] + [v] == [v]; }
    hide Added, Keyed, LatestIs, Empty, ContextFits, IsContainer, AddFits;
  }

  lemma StoredContexts(s: State, v: Json)
    requires Shape(s) && MayAdd(s.cs) && s.cs.level != Main && Keyed(v)
    ensures var t := Stored(s, v);
            |t.contexts| == |t.stack| && forall i :: 0 <= i < |t.stack| ==> ContextFits(t, i)
  {
    var t := Stored(s, v);
    assert t.stack == s.stack && t.contexts == s.contexts && |t.stack| == |s.contexts| by { AddedKeeps(s, v); }
    hide *;
    forall i | 0 <= i < |t.stack| ensures ContextFits(t, i) { StoredContext(s, v, i); }
  }

  lemma EmptyFits(level: Level)
    ensures Keyed(Empty(level)) && IsContainer(Empty(level), level)
  {
  }

  lemma BeginContext(s: State, level: Level)
    requires Shape(s) && Ready(s.cs) && !Outer(level)
    ensures ContextFits(Begin(s, level), 0)
  {
    EmptyFits(level);
    AddedKeyed(s, Empty(level));
    AddedKeeps(s, Empty(level));
    assert Outer(s.cs.level) ==> s.cur == Arr([]) && Added(s, Empty(level)).cur == Arr([Empty(level)])
      by { assert [] + [Empty(level)] == [Empty(level)]; }
    hide Added, Keyed, Empty, LatestIs;
  }

  lemma BeginContexts(s: State, level: Level, i: nat)
    requires Shape(s) && Ready(s.cs) && 0 < i <= |s.stack|
    ensures ContextFits(Begin(s, level), i)
  {
    AddedKeeps(s, Empty(level));
    hide Added, Keyed, Empty, LatestIs;
    assert ContextFits(s, i - 1);
  }

  lemma BeginShape(s: State, level: Level)
    requires Shape(s) && Ready(s.cs) && !Outer(level)
    ensures Shape(Begin(s, level))
  {
    var t := Begin(s, level);
    forall i | 0 <= i < |t.stack| ensures ContextFits(t, i) {
      AddedKeeps(s, Empty(level));
      if i == 0 { BeginContext(s, level); } else { BeginContexts(s, level, i); }
    }
    EmptyFits(level);
    AddedKeyed(s, Empty(level));
    AddedKeeps(s, Empty(level));
    hide Added, Keyed, Empty, ContextFits;
  }

  lemma WriteBackKeyed(parent: Json, child: Json, before: Json)
    requires Keyed(parent) && Keyed(child) && LatestIs(parent, before)
    ensures Keyed(WriteBack(parent, child)) && LatestIs(WriteBack(parent, child), child)
  {
    match parent
    case Arr(es) =>
      forall e | e in es[..|es| - 1] + [child] ensures Keyed(e) {}
    case Obj(ms) =>
      var ns := ms[..|ms| - 1] + [Member(ms[|ms| - 1].key, child)];
      assert forall i :: 0 <= i < |ns| ==> ns[i].key == ms[i].key;
      forall m | m in ns ensures Keyed(m.value) {}
  }

  lemma EndShape(s: State)
    requires Shape(s) && s.cs.At? && !Outer(s.cs.level) && s.name == None && s.token == ""
    ensures Shape(End(s)) && End(s).cs == s.stack[0]
    ensures |End(s).stack| == |s.stack| - 1
  {
    assert ContextFits(s, 0);
    WriteBackKeyed(s.contexts[0].obj, s.cur, Empty(s.cs.level));
    var t := End(s);
    forall i | 0 <= i < |t.stack| ensures ContextFits(t, i) { assert ContextFits(s, i + 1); }
    if |s.stack| > 1 { assert ContextFits(s, 1); }
  }

  /** The whole invariant is kept by every byte, from any state that has it. */
  lemma StepShape(s: State, c: char)
    requires Shape(s)
    ensures Shape(Step(s, c))
  {
    if s.cs.At? {
      match s.cs.pos
      case After => AfterShape(s, c);
      case InName(t) => TextShape(s, c, t);
      case InString(t) => TextShape(s, c, t);
      case InNumber(d) => NumberShape(s, c, d);
      case InWord(w, k) => if StepWord(s, c, w, k).cs.At? { WordShape(s, c, w, k); }
      case _ => GapShape(s, c);
    }
  }

  lemma AfterShape(s: State, c: char)
    requires Shape(s) && s.cs.At? && s.cs.pos == After
    ensures Shape(AfterValue(s, c))
  {
    if MayFollow(s.cs.level, c) {
      match s.cs.level
      case Main => BeginShape(s, if c == '[' then Array else Object);
      case Single =>
      case _ =>
        if c == ',' { MoveShape(s, Need); } else if c != ' ' { EndShape(s); }
    }
  }

  lemma MoveShape(s: State, pos: Pos)
    requires Shape(s) && s.cs.At? && PosFits(s.cs.level, pos) && TokenFits(pos, s.token)
    requires s.name.Some? <==> NameDue(At(s.cs.level, pos))
    requires s.cs.level == Single ==> s.cs.pos != After && pos != After
    ensures Shape(Goto(s, pos))
  {
    var t := Goto(s, pos);
    forall i | 0 <= i < |t.stack| ensures ContextFits(t, i) { assert ContextFits(s, i); }
  }

  lemma TokenShape(s: State, pos: Pos, token: string)
    requires Shape(s) && s.cs.At? && PosFits(s.cs.level, pos) && TokenFits(pos, token)
    requires s.name.Some? <==> NameDue(At(s.cs.level, pos))
    requires s.cs.level == Single ==> s.cs.pos != After && pos != After
    ensures Shape(Goto(s, pos).(token := token))
  {
    var t := Goto(s, pos).(token := token);
    forall i | 0 <= i < |t.stack| ensures ContextFits(t, i) { assert ContextFits(s, i); }
  }

  lemma TextShape(s: State, c: char, t: TextState)
    requires Shape(s) && s.cs.At? && (s.cs.pos == InName(t) || s.cs.pos == InString(t))
    ensures Shape(StepText(s, c, t))
  {
    assert ScanText(s.token) == Some(t) && PosFits(s.cs.level, s.cs.pos) && (s.name.Some? <==> NameDue(s.cs));
    assert MayAdd(s.cs) || s.cs.pos.InName?;
    ScanTextAppend(s.token, c);
    hide ScanText, NextText, Shape, Stored;
    if c == '"' && AtBoundary(t) {
      if s.cs.pos.InName? { NameShape(s); } else { StoredShape(s, Str(s.token)); }
    } else if NextText(t, c).Some? {
      var u := NextText(t, c).value;
      TokenShape(s, if s.cs.pos.InName? then InName(u) else InString(u), s.token + [c]);
    }
  }

  lemma NameShape(s: State)
    requires Shape(s) && s.cs.At? && s.cs.pos.InName?
    ensures Shape(Goto(s, Colon).(name := Some(s.token), token := ""))
  {
    var u := Goto(s, Colon).(name := Some(s.token), token := "");
    forall i | 0 <= i < |u.stack| ensures ContextFits(u, i) { assert ContextFits(s, i); }
  }

  lemma SettleShape(s: State)
    requires Shape(s)
    ensures Shape(Settle(s))
  {
    if s.cs.At? && s.cs.pos == InNumber(Whole) {
      StoredShape(s, Int(IntValue(s.token)));
    } else if s.cs.At? && s.cs.pos.InNumber? && FinalFloat(s.cs.pos.d) {
      StoredShape(s, Double(RealValue(s.token)));
    }
  }

  lemma NumberShape(s: State, c: char, d: NumState)
    requires Shape(s) && s.cs.At? && s.cs.pos == InNumber(d)
    ensures Shape(StepNumber(s, c, d))
  {
    match NextNumber(d, c)
    case Some(e) =>
      ScanNumberAppend(s.token, c);
      TokenShape(s, InNumber(e), s.token + [c]);
    case None =>
      if FinalNumber(d) && MayFollow(s.cs.level, c) {
        SettleShape(s);
        AfterShape(Settle(s), c);
      }
  }

  lemma WordShape(s: State, c: char, w: Word, k: nat)
    requires Shape(s) && s.cs.At? && s.cs.pos == InWord(w, k)
    ensures Shape(StepWord(s, c, w, k))
  {
    if c == Spelling(w)[k] {
      if k + 1 == |Spelling(w)| { StoredShape(s, WordValue(w)); } else { MoveShape(s, InWord(w, k + 1)); }
    }
  }

  lemma StartValueShape(s: State, c: char)
    requires Shape(s) && Ready(s.cs) && s.cs.level != Main
    ensures Shape(StartValue(s, c))
  {
    if c == '[' { BeginShape(s, Array); }
    else if c == '{' { BeginShape(s, Object); }
    else if c == '"' { MoveShape(s, InString(Fresh)); }
    else if StartNumber(c).Some? { TokenShape(s, InNumber(StartNumber(c).value), [c]); }
    else if c == 'n' { MoveShape(s, InWord(NullWord, 1)); }
    else if c == 't' { MoveShape(s, InWord(TrueWord, 1)); }
    else if c == 'f' { MoveShape(s, InWord(FalseWord, 1)); }
  }

  lemma GapShape(s: State, c: char)
    requires Shape(s) && s.cs.At?
            && (s.cs.pos.Start? || s.cs.pos.Need? || s.cs.pos.Colon? || s.cs.pos.Value? || s.cs.pos.Done?)
    ensures Shape(StepGap(s, c))
  {
    match s.cs.level
    case Main => if c == '[' { BeginShape(s, Array); } else if c == '{' { BeginShape(s, Object); }
    case Single => if s.cs.pos == Start { StartValueShape(s, c); }
    case Array =>
      if c != ' ' {
        if s.cs.pos == Start && c == ']' { EndShape(s); } else { StartValueShape(s, c); }
      }
    case Object =>
      if c != ' ' {
        if s.cs.pos == Colon { if c == ':' { MoveShape(s, Value); } }
        else if s.cs.pos == Value { StartValueShape(s, c); }
        else if c == '"' { MoveShape(s, InName(Fresh)); }
        else if s.cs.pos == Start && c == '}' { EndShape(s); }
      }
  }

  /** The invariant holds after any input. */
  lemma {:induction false} RunShape(s: State, w: string)
    requires Shape(s)
    ensures Shape(Run(s, w))
  {
    if w != "" {
      RunShape(s, w[..|w| - 1]);
      StepShape(Run(s, w[..|w| - 1]), w[|w| - 1]);
    }
  }
}
