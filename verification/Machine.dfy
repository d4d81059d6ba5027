/**
 The pushdown machine of src/json_parser.rl, one byte at a time: the state its actions keep, and the
 transitions Ragel derives from src/json.rl. Token texts are kept as text; the buffer offsets that the
 program keeps instead belong to module `Parser`.
 */
module Machine {
  import opened Values
  import opened Lexical
  import opened Conversions

  /** The four Ragel machines: `main`, `single_json_value`, `array` and `object`. */
  datatype Level = Main | Single | Array | Object

  /** Positions inside one machine; all but `Name`..`Word` are between tokens. */
  datatype Pos =
    | Start            // before the first value or name
    | Need             // after a comma
    | Colon            // after a name, before its colon
    | Value            // after the colon
    | After            // after a value
    | Done             // after the final NUL of `single_json_value`
    | InName(n: TextState)
    | InString(t: TextState)
    | InNumber(d: NumState)
    | InWord(w: Word, k: nat)

  /** `cs`: the error state 0, or a position in one of the machines. */
  datatype Control = Failed | At(level: Level, pos: Pos)

  /** `jp->add` */
  datatype AddFunction = ArrayAdd | ObjectAdd

  /** A `context_stack_entry`. */
  datatype Context = Context(obj: Json, add: AddFunction)

  /**
   The machine between two bytes. `stack` and `contexts` have their top at index 0. A context's `obj`
   holds the child that was open when it was pushed as its latest entry; popping writes the finished
   child back there. `delivered` are the values handed to `s_cb`, `errors` counts the calls of
   `handle_error(JSON_PARSE_ERROR)`, `internal` says that some action saw -1 or undefined data.
   */
  datatype State = State(
    cs: Control, stack: seq<Control>,
    cur: Json, add: AddFunction, contexts: seq<Context>,
    name: Option<string>, token: string,
    delivered: seq<Json>, errors: nat, internal: bool)

  function Initial(level: Level): State {
    State(At(level, Start), [], Arr([]), ArrayAdd, [], None, "", [], 0, false)
  }

  // ----- actions -----

  /** `jp->add(jp->cur_obj, &jp->p_name, v)` */
  function Added(s: State, v: Json): State {
    match s.add
    case ArrayAdd => if s.cur.Arr? then s.(cur := Arr(s.cur.elems + [v])) else s.(internal := true)
    case ObjectAdd =>
      if s.cur.Obj? && s.name.Some? then s.(cur := Obj(With(s.cur.members, s.name.value, v)), name := None)
      else s.(internal := true)
  }

  function Goto(s: State, pos: Pos): State
    requires s.cs.At?
  {
    s.(cs := At(s.cs.level, pos))
  }

  /** A value without children is stored and the machine is after it. */
  function Stored(s: State, v: Json): State
    requires s.cs.At?
  {
    Goto(Added(s, v), After).(token := "")
  }

  function Empty(level: Level): Json { if level == Object then Obj([]) else Arr([]) }

  /** `A_begin_array`, `A_begin_object`: `begin` adds the new container, `fcall` enters its machine. */
  function Begin(s: State, level: Level): State
    requires s.cs.At?
  {
    var a := Added(s, Empty(level));
    a.(contexts := [Context(a.cur, a.add)] + a.contexts,
       stack := [At(s.cs.level, After)] + a.stack,
       cur := Empty(level), add := if level == Object then ObjectAdd else ArrayAdd,
       cs := At(level, Start))
  }

  /** The parent with its latest entry, the child just finished, as it is now. */
  function WriteBack(parent: Json, child: Json): Json {
    match parent
    case Arr(es) => if es == [] then parent else Arr(es[..|es| - 1] + [child])
    case Obj(ms) => if ms == [] then parent else Obj(ms[..|ms| - 1] + [Member(ms[|ms| - 1].key, child)])
    case _ => parent
  }

  /** `A_end_array`, `A_end_object`: `parser_pop_context`, then `fret`, then the to-state action. */
  function End(s: State): State {
    if s.contexts == [] || s.stack == [] then s.(internal := true)
    else
      Arrive(s.(cur := WriteBack(s.contexts[0].obj, s.cur), add := s.contexts[0].add, contexts := s.contexts[1..],
                cs := s.stack[0], stack := s.stack[1..]))
  }

  /** `%to(A_final)` on the final state of `non_plain_json_value`. */
  function Arrive(s: State): State {
    if s.cs == At(Main, After) then Deliver(s) else s
  }

  /** `handle_json_object`: takes element 0 out of the root array and hands it to `s_cb`. */
  function Deliver(s: State): State {
    if s.cur.Arr? && s.cur.elems != [] then
      s.(cur := Arr(s.cur.elems[1..]), delivered := s.delivered + [s.cur.elems[0]])
    else s.(internal := true)
  }

  /**
   `A_err` is on every state of `main`, `array` and `object`, but in `single_json_value` only from the end of its
   value on.
   */
  predicate ErrorArmed(cs: Control)
    requires cs.At?
  {
    cs.level != Single || cs.pos == After || cs.pos == Done || (cs.pos.InNumber? && FinalNumber(cs.pos.d))
  }

  function Fail(s: State): State
    requires s.cs.At?
  {
    s.(cs := Failed, token := "", errors := if ErrorArmed(s.cs) then s.errors + 1 else s.errors)
  }

  // ----- transitions -----

  /** First byte of a `json_value`. */
  function StartValue(s: State, c: char): State
    requires s.cs.At?
  {
    if c == '[' then Begin(s, Array)
    else if c == '{' then Begin(s, Object)
    else if c == '"' then Goto(s, InString(Fresh))
    else if StartNumber(c).Some? then Goto(s, InNumber(StartNumber(c).value)).(token := [c])
    else if c == 'n' then Goto(s, InWord(NullWord, 1))
    else if c == 't' then Goto(s, InWord(TrueWord, 1))
    else if c == 'f' then Goto(s, InWord(FalseWord, 1))
    else Fail(s)
  }

  /** Which bytes may come right after a value. */
  predicate MayFollow(level: Level, c: char) {
    match level
    case Main => c in "[{"
    case Single => c == '\0'
    case Array => c in " ,]"
    case Object => c in " ,}"
  }

  /** One byte after a value. */
  function AfterValue(s: State, c: char): State
    requires s.cs.At? && s.cs.pos == After
  {
    if !MayFollow(s.cs.level, c) then Fail(s)
    else match s.cs.level
      case Main => Begin(s, if c == '[' then Array else Object)
      case Single => Goto(Deliver(s), Done)
      case _ => if c == ' ' then s else if c == ',' then Goto(s, Need) else End(s)
  }

  /** `A_save_int` or `A_save_float` when the machine stands at the end of a number. */
  function Settle(s: State): State {
    match s.cs
    case At(_, InNumber(Whole)) => Stored(s, Int(IntValue(s.token)))
    case At(_, InNumber(d)) => if FinalFloat(d) then Stored(s, Double(RealValue(s.token))) else s
    case _ => s
  }

  /** One byte of text: what the position becomes, or None when it is not a text byte. */
  function StepText(s: State, c: char, t: TextState): State
    requires s.cs.At? && (s.cs.pos == InName(t) || s.cs.pos == InString(t))
  {
    if c == '"' && AtBoundary(t) then
      (if s.cs.pos.InName? then Goto(s, Colon).(name := Some(s.token), token := "") else Stored(s, Str(s.token)))
    else match NextText(t, c)
      case Some(u) => Goto(s, if s.cs.pos.InName? then InName(u) else InString(u)).(token := s.token + [c])
      case None => Fail(s)
  }

  function StepNumber(s: State, c: char, d: NumState): State
    requires s.cs.At? && s.cs.pos == InNumber(d)
  {
    match NextNumber(d, c)
    case Some(e) => Goto(s, InNumber(e)).(token := s.token + [c])
    case None => if FinalNumber(d) && MayFollow(s.cs.level, c) then AfterValue(Settle(s), c) else Fail(s)
  }

  function StepWord(s: State, c: char, w: Word, k: nat): State
    requires s.cs.At?
  {
    if k < |Spelling(w)| && c == Spelling(w)[k] then
      (if k + 1 == |Spelling(w)| then Stored(s, WordValue(w)) else Goto(s, InWord(w, k + 1)))
    else Fail(s)
  }

  /** Between tokens, except after a value. */
  function StepGap(s: State, c: char): State
    requires s.cs.At?
  {
    var level, pos := s.cs.level, s.cs.pos;
    if c == ' ' && (level == Array || level == Object) then s
    else match level
      case Main => if c == '[' then Begin(s, Array) else if c == '{' then Begin(s, Object) else Fail(s)
      case Single => if pos == Start then StartValue(s, c) else Fail(s)
      case Array => if pos == Start && c == ']' then End(s) else StartValue(s, c)
      case Object =>
        if pos == Colon then (if c == ':' then Goto(s, Value) else Fail(s))
        else if pos == Value then StartValue(s, c)
        else if c == '"' then Goto(s, InName(Fresh))
        else if pos == Start && c == '}' then End(s)
        else Fail(s)
  }

  /** One byte. In the error state nothing happens any more. */
  function Step(s: State, c: char): State {
    if s.cs == Failed then s
    else match s.cs.pos
      case After => AfterValue(s, c)
      case InName(t) => StepText(s, c, t)
      case InString(t) => StepText(s, c, t)
      case InNumber(d) => StepNumber(s, c, d)
      case InWord(w, k) => StepWord(s, c, w, k)
      case _ => StepGap(s, c)
  }

  function Run(s: State, w: string): State {
    if w == "" then s else Step(Run(s, w[..|w| - 1]), w[|w| - 1])
  }

  lemma {:induction false} RunConcat(s: State, u: string, w: string)
    ensures Run(s, u + w) == Run(Run(s, u), w)
  {
    if w == "" {
      assert u + w == u;
    } else {
      assert (u + w)[..|u + w| - 1] == u + w[..|w| - 1];
      RunConcat(s, u, w[..|w| - 1]);
    }
  }

  lemma RunOne(s: State, c: char)
    ensures Run(s, [c]) == Step(s, c)
  {
    assert [c][..0] == "";
    assert Run(s, "") == s;
  }

  lemma RunThen(s: State, u: string, c: char)
    ensures Run(s, u + [c]) == Step(Run(s, u), c)
  {
    RunConcat(s, u, [c]);
    RunOne(Run(s, u), c);
  }

  /** The error state is absorbing: no later byte delivers a value or reports another error. */
  lemma {:induction false} FailedForever(s: State, w: string)
    requires s.cs == Failed
    ensures Run(s, w) == s
  {
    if w != "" { FailedForever(s, w[..|w| - 1]); }
  }
}
