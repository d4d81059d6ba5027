/**
 `struct json_parser` as the program keeps it: buffer offsets instead of token texts, a drain mark, and
 actions that read tokens out of the buffer they are given. Its methods are proved against `Machine`.
 */
module Parser {
  import opened Values
  import opened Lexical
  import opened Conversions
  import opened Machine
  import opened ShapeInvariant

  /** `p_start` is meaningful: a string, name or number is open and its first byte has been seen. */
  predicate TokenOpen(cs: Control) {
    cs.At? && match cs.pos
      case InName(t) => t != Fresh
      case InString(t) => t != Fresh
      case InNumber(_) => true
      case _ => false
  }

  /** Bytes `from` up to `to` of the caller's buffer. */
  function Window(buf: string, from: int, to: int): string {
    if 0 <= from <= to <= |buf| then buf[from..to] else ""
  }

  predicate Closes(level: Level, c: char) { (level == Array && c == ']') || (level == Object && c == '}') }

  /** Does this byte call `update_for_drain`: does it complete a value? */
  predicate Marks(s: State, c: char) {
    s.cs.At? && match s.cs.pos
      case Start => Closes(s.cs.level, c)
      case After => Closes(s.cs.level, c)
      case InString(t) => c == '"' && AtBoundary(t)
      case InNumber(d) => NextNumber(d, c) == None && FinalNumber(d) && MayFollow(s.cs.level, c)
      case InWord(w, k) => k + 1 == |Spelling(w)| && c == Spelling(w)[k]
      case _ => false
  }

  /** The drain mark after w, read from offset `off` on: behind the last byte that completed a value. */
  function MarkAfter(s: State, w: string, off: int, mark: int): int {
    if w == "" then mark
    else
      var init, c := w[..|w| - 1], w[|w| - 1];
      if Marks(Run(s, init), c) then off + |w| else MarkAfter(s, init, off, mark)
  }

  /** What `atoi` or `atof` makes of the memory at `p_start`. */
  function NumberAt(d: NumState, memory: string): Json {
    if d == Whole then Int(Atoi(memory)) else Double(Atof(memory))
  }

  /** The byte ends the number and starts what may come after it. */
  predicate Ends(cs: Control, d: NumState, c: char) {
    cs.At? && NextNumber(d, c) == None && FinalNumber(d) && MayFollow(cs.level, c)
  }

  /** In its place in the buffer, the number converted is the one that was read. */
  lemma SavedNumber(jp: JsonParser, buf: string, d: NumState)
    requires jp.Valid(buf) && jp.cs.At? && jp.cs.pos == InNumber(d) && FinalNumber(d)
    requires jp.off < |buf| && NextNumber(d, buf[jp.off]) == None
    ensures Stored(jp.Abs(buf), NumberAt(d, buf[jp.pStart..])) == Settle(jp.Abs(buf))
  {
    var token := Window(buf, jp.pStart, jp.off);
    assert ScanNumber(token) == Some(d) && 0 <= jp.pStart < jp.off;
    hide Shape, Stored, Atoi, Atof, IntValue, RealValue, ScanNumber, Window, NextNumber;
    WindowThen(buf, jp.pStart, jp.off);
    ConversionStopsAtToken(token, buf[jp.off..]);
  }

  lemma WindowThen(buf: string, from: int, to: int)
    requires 0 <= from <= to <= |buf|
    ensures buf[from..] == Window(buf, from, to) + buf[to..]
  {
  }

  /** A byte that goes on with a string or name is added to the token. */
  lemma InsideStep(s: State, c: char, t: TextState, pos: Pos)
    requires s.cs.At? && (s.cs.pos == InName(t) || s.cs.pos == InString(t)) && NextText(t, c).Some?
    requires pos == (if s.cs.pos.InName? then InName(NextText(t, c).value) else InString(NextText(t, c).value))
    ensures StepText(s, c, t) == s.(cs := At(s.cs.level, pos), token := s.token + [c])
    ensures TokenOpen(At(s.cs.level, pos)) && (TokenOpen(s.cs) <==> t != Fresh)
  {
    NotFreshAfter(t, c);
    hide NextText;
  }

  lemma InsideWindow(jp: JsonParser, buf: string, t: TextState)
    requires jp.Valid(buf) && jp.off < |buf| && jp.cs.At? && (jp.cs.pos == InName(t) || jp.cs.pos == InString(t))
    ensures Window(buf, if t == Fresh then jp.off else jp.pStart, jp.off) == jp.Abs(buf).token
    ensures 0 <= jp.off && (t != Fresh ==> 0 <= jp.pStart <= jp.off)
  {
    hide Shape;
  }

  class JsonParser {
    var curObj: Json
    var contextStack: seq<Context>
    var add: AddFunction

    var pStart: int
    var pName: Option<string>

    var off: int
    var cs: Control
    var stack: seq<Control>

    var delivered: seq<Json>   // the calls of s_cb
    var parseErrors: nat       // the calls of handle_error(JSON_PARSE_ERROR), each an event_once when e_cb is set
    var internalError: bool    // handle_error(JSON_INTERNAL_ERROR)
    var readyForDrain: int

    /** The machine state, once the open token is looked up in the buffer. */
    ghost function Abs(buf: string): State
      reads this
    {
      State(cs, stack, curObj, add, contextStack, pName,
            if TokenOpen(cs) then Window(buf, pStart, off) else "", delivered, parseErrors, internalError)
    }

    /**
     What holds between two calls, relative to the buffer. A token that is open lies in the buffer, from
     `pStart` to `off`, and nothing of it has been marked for draining.
     */
    ghost predicate Valid(buf: string)
      reads this
    {
      && 0 <= readyForDrain <= off <= |buf|
      && (TokenOpen(cs) ==> readyForDrain <= pStart < off)
      && Shape(Abs(buf))
    }

    /** `json_parser_new`; `json_parser_parse` sets `cs` to the other entry point. */
    constructor (level: Level)
      requires Outer(level)
      ensures Valid("") && Abs("") == Initial(level)
      ensures off == 0 && readyForDrain == 0
    {
      curObj := Arr([]);
      contextStack := [];
      add := ArrayAdd;
      pStart := 0;
      pName := None;
      off := 0;
      cs := At(level, Start);
      stack := [];
      delivered := [];
      parseErrors := 0;
      internalError := false;
      readyForDrain := 0;
    }

    // ----- actions -----

    /** `jp->add(jp->cur_obj, &jp->p_name, value)` */
    method Add(value: Json, ghost buf: string)
      modifies `curObj, `pName, `internalError
      ensures Abs(buf) == Added(old(Abs(buf)), value)
    {
      if add == ArrayAdd {
        if curObj.Arr? { curObj := Arr(curObj.elems + [value]); } else { internalError := true; }
      } else {
        if curObj.Obj? && pName.Some? {
          curObj := Obj(With(curObj.members, pName.value, value));
          pName := None;
        } else {
          internalError := true;
        }
      }
    }

    /** The byte at `off` is the current one, so the mark goes right behind it. */
    method UpdateForDrain()
      modifies `readyForDrain
      ensures readyForDrain == off + 1
    {
      readyForDrain := off + 1;
    }

    method PushContext()
      modifies `contextStack
      ensures contextStack == [Context(curObj, add)] + old(contextStack)
    {
      contextStack := [Context(curObj, add)] + contextStack;
    }

    method PopContext()
      modifies `curObj, `add, `contextStack
      ensures old(contextStack) == [] ==> curObj == old(curObj) && add == old(add) && contextStack == []
      ensures old(contextStack) != [] ==>
                && curObj == WriteBack(old(contextStack[0]).obj, old(curObj))
                && add == old(contextStack[0]).add && contextStack == old(contextStack)[1..]
    {
      if contextStack == [] { return; }
      var entry := contextStack[0];
      curObj := WriteBack(entry.obj, curObj);
      add := entry.add;
      contextStack := contextStack[1..];
    }

    /** `A_begin_array`, `A_begin_object` */
    method BeginContainer(level: Level, ghost buf: string)
      requires cs.At? && !TokenOpen(cs) && !Outer(level)
      modifies `curObj, `pName, `internalError, `contextStack, `add, `cs, `stack
      ensures Abs(buf) == Begin(old(Abs(buf)), level) && cs == At(level, Start)
    {
      Add(Empty(level), buf);
      PushContext();
      curObj := Empty(level);
      add := if level == Object then ObjectAdd else ArrayAdd;
      stack := [At(cs.level, After)] + stack;
      cs := At(level, Start);
    }

    /** `A_end_array`, `A_end_object`, and `%to(A_final)` where `fret` arrives */
    method EndContainer(ghost buf: string)
      requires cs.At? && !Outer(cs.level) && !TokenOpen(cs) && Shape(Abs(buf)) && pName == None
      modifies `curObj, `add, `contextStack, `cs, `stack, `delivered, `readyForDrain
      ensures Abs(buf) == End(old(Abs(buf))) && !TokenOpen(cs) && cs.At?
      ensures readyForDrain == off + 1
    {
      ghost var s := Abs(buf);
      ContextThere(s);
      EndFields(s);
      hide Shape, ContextFits, Window, WriteBack, End;
      UpdateForDrain();
      PopContext();
      cs := stack[0];
      stack := stack[1..];
      if cs == At(Main, After) { HandleJsonObject(); }
    }

    /** `handle_json_object`: the value leaves the root array before the callback sees it */
    method HandleJsonObject()
      requires curObj.Arr? && curObj.elems != []
      modifies `curObj, `delivered
      ensures curObj == Arr(old(curObj).elems[1..]) && delivered == old(delivered) + [old(curObj).elems[0]]
    {
      var res := curObj.elems[0];
      curObj := Arr(curObj.elems[1..]);
      delivered := delivered + [res];
    }

    /** `A_save_null` and its like: the value is added and marks the bytes so far as drainable */
    method SaveValue(value: Json, ghost buf: string)
      requires cs.At?
      modifies `curObj, `pName, `internalError, `cs, `readyForDrain
      ensures Abs(buf) == Stored(old(Abs(buf)), value) && cs == At(old(cs).level, After)
      ensures readyForDrain == off + 1
    {
      Add(value, buf);
      UpdateForDrain();
      cs := At(cs.level, After);
    }

    /** `A_save_int`, `A_save_float`: the conversion reads from `pStart` on, in whatever the buffer holds there */
    method SaveNumber(buf: string)
      requires cs.At? && cs.pos.InNumber? && 0 <= pStart <= |buf|
      modifies `curObj, `pName, `internalError, `cs, `readyForDrain
      ensures Abs(buf) == Stored(old(Abs(buf)), NumberAt(old(cs).pos.d, buf[pStart..]))
      ensures cs == At(old(cs).level, After) && readyForDrain == off + 1
    {
      var memory := buf[pStart..];
      if cs.pos.d == Whole {
        SaveValue(Int(Atoi(memory)), buf);
      } else {
        SaveValue(Double(Atof(memory)), buf);
      }
    }

    /** `get_interprete_str`: decoding a token that holds escapes is outside the model, which keeps its bytes */
    method TokenString(buf: string) returns (t: string)
      requires Valid(buf) && TokenOpen(cs) && !cs.pos.InNumber? && IsText(Window(buf, pStart, off))
      ensures t == Window(buf, pStart, off)
    {
      var len := off - pStart;
      if Escaped(buf[pStart..off]) {
        t := buf[pStart..off];
      } else {
        assert buf[pStart..][..len] == buf[pStart..off];
        t := InterpretateEscSeq(buf[pStart..], len);
      }
    }

    /** `A_err`, where it is armed, does `fbreak`; elsewhere the machine stops at the byte it cannot take */
    method Reject(ghost buf: string)
      requires cs.At?
      modifies `cs, `parseErrors, `off
      ensures Abs(buf) == Fail(old(Abs(buf)))
      ensures off == if ErrorArmed(old(cs)) then old(off) + 1 else old(off)
    {
      if ErrorArmed(cs) {
        parseErrors := parseErrors + 1;
        off := off + 1;
      }
      cs := Failed;
    }

    // ----- transitions: one byte each -----

    /** How a byte moves the offsets: past it unless the machine stopped; the drain mark goes behind it, or stays. */
    twostate predicate Moved(buf: string, marks: bool)
      reads this
    {
      && old(off) <= off <= old(off) + 1
      && (cs != Failed ==> off == old(off) + 1)
      && readyForDrain == (if marks then off else old(readyForDrain)) && (marks ==> cs.At? && !TokenOpen(cs))
      && (TokenOpen(cs) ==> pStart == if TokenOpen(old(cs)) then old(pStart) else old(off))
    }

    /** One byte after a value. */
    method ByteAfter(c: char, ghost buf: string)
      requires cs.At? && cs.pos == After && Shape(Abs(buf))
      modifies this
      ensures Abs(buf) == AfterValue(old(Abs(buf)), c)
      ensures Moved(buf, Closes(old(cs).level, c)) && !TokenOpen(cs) && (MayFollow(old(cs).level, c) ==> cs.At?)
    {
      if !MayFollow(cs.level, c) {
        Reject(buf);
        return;
      }
      match cs.level {
        case Main => BeginContainer(if c == '[' then Array else Object, buf);
        case Single =>
          HandleJsonObject();
          cs := At(Single, Done);
        case _ =>
          if c == ',' { cs := At(cs.level, Need); }
          else if c != ' ' { EndContainer(buf); }
      }
      off := off + 1;
    }

    /** The first byte of a `json_value`. */
    method ByteOfValue(c: char, ghost buf: string)
      requires Shape(Abs(buf)) && Ready(cs) && cs.level != Main && 0 <= off < |buf| && buf[off] == c
      modifies this
      ensures Abs(buf) == StartValue(old(Abs(buf)), c)
      ensures Moved(buf, false)
    {
      hide Shape, Begin, Stored, Added;
      if c == '[' { BeginContainer(Array, buf); }
      else if c == '{' { BeginContainer(Object, buf); }
      else if c == '"' { cs := At(cs.level, InString(Fresh)); }
      else if StartNumber(c).Some? {
        pStart := off;
        cs := At(cs.level, InNumber(StartNumber(c).value));
      }
      else if c == 'n' { cs := At(cs.level, InWord(NullWord, 1)); }
      else if c == 't' { cs := At(cs.level, InWord(TrueWord, 1)); }
      else if c == 'f' { cs := At(cs.level, InWord(FalseWord, 1)); }
      else { Reject(buf); return; }
      off := off + 1;
    }

    /** The bytes between the quotes; `A_save_start` runs on the closing quote when there are none. */
    method QuotedText(t: TextState, buf: string) returns (value: string)
      requires Valid(buf) && off < |buf| && cs.At? && (cs.pos == InName(t) || cs.pos == InString(t)) && AtBoundary(t)
      modifies `pStart
      ensures value == Abs(buf).token && Abs(buf) == old(Abs(buf))
    {
      value := "";
      if t == Fresh {
        pStart := off;
      } else {
        TextAutomatonExact(Window(buf, pStart, off));
        value := TokenString(buf);
      }
    }

    /** The closing quote: `A_save_name` or `A_save_string`. */
    method ByteOfQuote(t: TextState, buf: string)
      requires Valid(buf) && off < |buf| && cs.At? && (cs.pos == InName(t) || cs.pos == InString(t)) && AtBoundary(t)
      modifies this
      ensures Abs(buf) == StepText(old(Abs(buf)), '"', t)
      ensures Moved(buf, old(cs).pos.InString?)
    {
      var value := QuotedText(t, buf);
      hide Shape, AtBoundary, IsText, Window;
      if cs.pos.InName? {
        pName := Some(value);
        cs := At(cs.level, Colon);
      } else {
        SaveValue(Str(value), buf);
      }
      off := off + 1;
    }

    /** Another byte of a string or name; `A_save_start` runs on its first. */
    method ByteInside(c: char, t: TextState, buf: string)
      requires Valid(buf) && off < |buf| && buf[off] == c && cs.At? && (cs.pos == InName(t) || cs.pos == InString(t))
      requires NextText(t, c).Some?
      modifies `pStart, `cs, `off
      ensures Abs(buf) == StepText(old(Abs(buf)), c, t)
      ensures Moved(buf, false)
    {
      ghost var s := Abs(buf);
      var u := NextText(t, c).value;
      var pos := if cs.pos.InName? then InName(u) else InString(u);
      InsideStep(s, c, t, pos);
      InsideWindow(this, buf, t);
      hide Shape, NextText, StepText, Window;
      if t == Fresh { pStart := off; }
      WindowGrows(buf, pStart, off);
      cs := At(cs.level, pos);
      off := off + 1;
    }

    method ByteOfText(c: char, t: TextState, buf: string)
      requires Valid(buf) && off < |buf| && buf[off] == c && cs.At? && (cs.pos == InName(t) || cs.pos == InString(t))
      modifies this
      ensures Abs(buf) == StepText(old(Abs(buf)), c, t)
      ensures Moved(buf, old(cs).pos.InString? && c == '"' && AtBoundary(t))
    {
      if c == '"' && AtBoundary(t) {
        ByteOfQuote(t, buf);
      } else if NextText(t, c).Some? {
        ByteInside(c, t, buf);
      } else {
        Reject(buf);
      }
    }

    method ByteInNumber(c: char, d: NumState, buf: string)
      requires 0 <= off < |buf| && buf[off] == c && cs.At? && cs.pos == InNumber(d) && NextNumber(d, c).Some?
      modifies `cs, `off
      ensures cs == At(old(cs).level, InNumber(NextNumber(d, c).value)) && Moved(buf, false)
      ensures old(Valid(buf)) ==> Abs(buf) == StepNumber(old(Abs(buf)), c, d)
    {
      if Valid(buf) { WindowGrows(buf, pStart, off); }
      hide Shape, NextNumber;
      cs := At(cs.level, InNumber(NextNumber(d, c).value));
      off := off + 1;
    }

    /** The byte that ends a number. What has been read of it plays no part, only what is found at `pStart`. */
    method ByteEndsNumber(c: char, d: NumState, buf: string, ghost token: string)
      requires cs.At? && cs.pos == InNumber(d) && FinalNumber(d) && MayFollow(cs.level, c) && 0 <= pStart <= |buf|
      requires Shape(Abs(buf).(token := token))
      modifies this
      ensures Abs(buf) == AfterValue(Stored(old(Abs(buf)), NumberAt(d, buf[old(pStart)..])), c)
      ensures Moved(buf, true)
    {
      ghost var s := Abs(buf);
      StoredShape(s.(token := token), NumberAt(d, buf[pStart..]));
      assert Stored(s.(token := token), NumberAt(d, buf[pStart..])) == Stored(s, NumberAt(d, buf[pStart..]));
      hide Shape, Stored, NumberAt;
      SaveNumber(buf);
      ByteAfter(c, buf);
    }

    /**
     A byte with a number open. `token` is what has been read of it; that this is still to be found in the buffer is
     needed only where the parser is said to take the machine's step.
     */
    method ByteOfNumber(c: char, d: NumState, buf: string, ghost token: string)
      requires 0 <= off < |buf| && buf[off] == c && cs.At? && cs.pos == InNumber(d) && 0 <= pStart <= |buf|
      requires Shape(Abs(buf).(token := token))
      modifies this
      ensures NextNumber(d, c).Some? ==>
                var cs := At(old(cs).level, InNumber(NextNumber(d, c).value));
                Abs(buf) == old(Abs(buf)).(cs := cs, token := Abs(buf).token)
      ensures Ends(old(cs), d, c) ==> Abs(buf) == AfterValue(Stored(old(Abs(buf)), NumberAt(d, buf[old(pStart)..])), c)
      ensures old(Valid(buf)) ==> Abs(buf) == StepNumber(old(Abs(buf)), c, d)
      ensures Moved(buf, Ends(old(cs), d, c))
    {
      hide Shape, NextNumber, Settle, Stored, NumberAt;
      if NextNumber(d, c).Some? {
        ByteInNumber(c, d, buf);
      } else if FinalNumber(d) && MayFollow(cs.level, c) {
        if Valid(buf) { SavedNumber(this, buf, d); }
        ByteEndsNumber(c, d, buf, token);
      } else {
        Reject(buf);
      }
    }

    method ByteOfWord(c: char, w: Word, k: nat, ghost buf: string)
      requires cs.At? && cs.pos == InWord(w, k)
      modifies this
      ensures Abs(buf) == StepWord(old(Abs(buf)), c, w, k)
      ensures Moved(buf, k + 1 == |Spelling(w)| && c == Spelling(w)[k])
    {
      if k < |Spelling(w)| && c == Spelling(w)[k] {
        if k + 1 == |Spelling(w)| {
          SaveValue(WordValue(w), buf);
        } else {
          cs := At(cs.level, InWord(w, k + 1));
        }
        off := off + 1;
      } else {
        Reject(buf);
      }
    }

    /** Between tokens, except after a value. */
    method ByteOfGap(c: char, ghost buf: string)
      requires cs.At? && (cs.pos.Start? || cs.pos.Need? || cs.pos.Colon? || cs.pos.Value? || cs.pos.Done?)
      requires Shape(Abs(buf)) && 0 <= off < |buf| && buf[off] == c
      modifies this
      ensures Abs(buf) == StepGap(old(Abs(buf)), c)
      ensures Moved(buf, old(cs).pos.Start? && Closes(old(cs).level, c))
    {
      var level, pos := cs.level, cs.pos;
      if c == ' ' && (level == Array || level == Object) {
        off := off + 1;
      } else if level == Main {
        if c == '[' || c == '{' {
          BeginContainer(if c == '[' then Array else Object, buf);
          off := off + 1;
        } else {
          Reject(buf);
        }
      } else if (level == Array && !(pos == Start && c == ']')) || pos == Value || (level == Single && pos == Start) {
        ByteOfValue(c, buf);
      } else if level == Single {
        Reject(buf);
      } else if pos == Colon {
        if c == ':' { cs := At(level, Value); off := off + 1; } else { Reject(buf); }
      } else if level == Object && c == '"' {
        cs := At(level, InName(Fresh));
        off := off + 1;
      } else if pos == Start && (level == Array || c == '}') {
        EndContainer(buf);
        off := off + 1;
      } else {
        Reject(buf);
      }
    }

    /** One round of the generated machine's loop. */
    method Exec(buf: string)
      requires Valid(buf) && off < |buf| && cs.At?
      modifies this
      ensures Abs(buf) == Step(old(Abs(buf)), buf[old(off)])
      ensures Valid(buf) && Moved(buf, Marks(old(Abs(buf)), buf[old(off)]))
    {
      var c := buf[off];
      StepShape(Abs(buf), c);
      match cs.pos {
        case After => ByteAfter(c, buf);
        case InName(t) => ByteOfText(c, t, buf);
        case InString(t) => ByteOfText(c, t, buf);
        case InNumber(d) => ByteOfNumber(c, d, buf, Abs(buf).token);
        case InWord(w, k) => ByteOfWord(c, w, k, buf);
        case _ => ByteOfGap(c, buf);
      }
      hide Shape, Step;
    }

    /**
     `json_parser_process`. Whatever bytes lie beyond the current one, the effect is that of the machine
     on the bytes not seen before, which are all of them unless it has stopped.
     */
    method Process(buf: string)
      requires Valid(buf)
      modifies this
      ensures Valid(buf)
      ensures Abs(buf) == Run(old(Abs(buf)), buf[old(off)..])
      ensures cs.At? ==> off == |buf|
      ensures readyForDrain == MarkAfter(old(Abs(buf)), buf[old(off)..], old(off), old(readyForDrain))
    {
      hide Shape, Step, Run, Marks, MarkAfter;
      ghost var s0, o, p, m := Abs(buf), off, off, readyForDrain;
      MarkNothing(s0, o, m);
      RunNothing(s0);
      assert buf[p..p] == "";
      while off < |buf| && cs != Failed
        invariant Valid(buf)
        invariant cs.At? ==> p == off
        invariant o <= p <= |buf| && Abs(buf) == Run(s0, buf[o..p])
        invariant readyForDrain == MarkAfter(s0, buf[o..p], o, m)
        decreases cs.At?, |buf| - off
      {
        Exec(buf);
        RunThen(s0, buf[o..p], buf[p]);
        MarkThen(s0, buf[o..p], buf[p], o, m);
        assert buf[o..p + 1] == buf[o..p] + [buf[p]];
        p := p + 1;
      }
      assert buf[o..] == buf[o..p] + buf[p..];
      if cs == Failed {
        RunConcat(s0, buf[o..p], buf[p..]);
        FailedForever(Abs(buf), buf[p..]);
        MarkStays(s0, buf[o..p], buf[p..], o, m);
      } else {
        assert buf[p..] == "";
        assert buf[o..p] + "" == buf[o..p];
      }
    }

    /**
     `json_parser_drain`. The parser goes on as if nothing had happened, on the buffer without the bytes it
     returns, if and only if no token is open or nothing was drained: `pStart` is not moved.
     */
    method Drain(ghost buf: string) returns (n: int)
      requires Valid(buf)
      modifies `off, `readyForDrain
      ensures n == old(readyForDrain) && 0 <= n <= |buf|
      ensures off == old(off) - n && readyForDrain == 0
      ensures Valid(buf[n..]) && Abs(buf[n..]) == old(Abs(buf)) <==> !TokenOpen(cs) || n == 0
    {
      n := readyForDrain;
      off := off - readyForDrain;
      readyForDrain := 0;
      assert n == 0 ==> buf[n..] == buf;
      if TokenOpen(cs) && n > 0 {
        StaleWindow(buf, pStart, old(off), n);
      }
    }
  }

  /**
   With a mark in front of it, an open token is not found again at its old offset in the drained buffer: what is found
   there are the last bytes of the token, without its first n; nothing when the token is not longer than that.
   */
  lemma StaleWindow(buf: string, from: int, to: int, n: int)
    requires 0 < n <= from < to <= |buf|
    ensures Window(buf[n..], from, to - n) == if n <= to - from then Window(buf, from, to)[n..] else ""
    ensures |Window(buf[n..], from, to - n)| < |Window(buf, from, to)|
  {
  }

  lemma MarkNothing(s: State, off: int, mark: int)
    ensures MarkAfter(s, "", off, mark) == mark
  {
  }

  lemma MarkThen(s: State, w: string, c: char, off: int, mark: int)
    ensures MarkAfter(s, w + [c], off, mark)
            == if Marks(Run(s, w), c) then off + |w| + 1 else MarkAfter(s, w, off, mark)
  {
    assert (w + [c])[..|w|] == w;
  }

  lemma MarkFails(s: State, w: string, c: char, off: int, mark: int)
    requires Run(s, w).cs == Failed
    ensures MarkAfter(s, w + [c], off, mark) == MarkAfter(s, w, off, mark)
  {
    hide Run, MarkAfter;
    MarkThen(s, w, c, off, mark);
  }

  lemma {:induction false} MarkStays(s: State, u: string, w: string, off: int, mark: int)
    requires Run(s, u).cs == Failed
    ensures MarkAfter(s, u + w, off, mark) == MarkAfter(s, u, off, mark)
  {
    if w == "" {
      assert u + w == u;
    } else {
      var init, c := w[..|w| - 1], w[|w| - 1];
      assert u + w == (u + init) + [c];
      hide *;
      MarkStays(s, u, init, off, mark);
      RunConcat(s, u, init);
      FailedForever(Run(s, u), init);
      MarkFails(s, u + init, c, off, mark);
    }
  }

  lemma ContextThere(s: State)
    requires Shape(s) && s.cs.At? && !Outer(s.cs.level)
    ensures s.stack != [] && s.contexts != [] && s.stack[0].At? && s.stack[0].pos == After
    ensures s.stack[0].level == Main ==> s.contexts[0].obj.Arr? && s.contexts[0].obj.elems != []
  {
    assert ContextFits(s, 0);
    hide Keyed, LatestIs, IsContainer, AddFits;
  }

  /** What is left when a container ends. */
  lemma EndFields(s: State)
    requires s.stack != [] && s.contexts != [] && s.stack[0].At? && s.stack[0].pos == After
    requires s.stack[0].level == Main ==> s.contexts[0].obj.Arr? && s.contexts[0].obj.elems != []
    ensures var parent := WriteBack(s.contexts[0].obj, s.cur);
            var t := s.(cur := parent, add := s.contexts[0].add, contexts := s.contexts[1..],
                        cs := s.stack[0], stack := s.stack[1..]);
            if s.stack[0] == At(Main, After) then
              && parent.Arr? && parent.elems != []
              && End(s) == t.(cur := Arr(parent.elems[1..]), delivered := s.delivered + [parent.elems[0]])
            else End(s) == t
  {
  }

  lemma RunNothing(s: State)
    ensures Run(s, "") == s
  {
  }

  lemma WindowGrows(buf: string, from: int, to: int)
    requires 0 <= from <= to < |buf|
    ensures Window(buf, from, to + 1) == Window(buf, from, to) + [buf[to]]
  {
  }

  lemma NotFreshAfter(t: TextState, c: char)
    requires NextText(t, c).Some?
    ensures NextText(t, c).value != Fresh && !(c == '"' && AtBoundary(t))
  {
  }
}
