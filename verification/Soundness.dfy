/**
 Soundness: whatever the machine has read without error is the yield of partial derivations, one frame per
 open container, and the values it holds are the trees of those derivations.
 */
module Soundness {
  import opened Values
  import opened Lexical
  import opened Conversions
  import opened Machine
  import opened ShapeInvariant
  import opened Grammar
  import opened Completeness

  /** How much of an object's pending name has been read. */
  datatype Pending = Nothing | Named(raw: string, pre: nat) | Awaiting(key: Key)

  /** The part of a derivation that has been read at one level. */
  datatype Frame =
    | Top(values: seq<Cst>)
    | Inside(bracket: Bracket, lead: nat, done: seq<Item>, last: Option<Item>, pending: Pending)

  function PendingText(p: Pending): string {
    match p
    case Nothing => ""
    case Named(raw, pre) => "\"" + raw + "\"" + Spaces(pre)
    case Awaiting(k) => KeyText(k)
  }

  function FrameText(f: Frame): string {
    match f
    case Top(vs) => StreamText(vs)
    case Inside(b, lead, done, last, p) =>
      OpenText(b) + Spaces(lead) + ItemsText(done) + (if last.Some? then EntryText(last.value) else "") + PendingText(p)
  }

  /** Innermost frame first. */
  function FramesText(fs: seq<Frame>): string {
    if fs == [] then "" else FramesText(fs[1..]) + FrameText(fs[0])
  }

  function TokenText(cs: Control, token: string): string {
    if cs == Failed then ""
    else match cs.pos
      case InName(_) => "\"" + token
      case InString(_) => "\"" + token
      case InNumber(_) => token
      case InWord(w, k) => if k <= |Spelling(w)| then Spelling(w)[..k] else ""
      case _ => ""
  }

  /** All that has been read. */
  function Consumed(fs: seq<Frame>, s: State): string { FramesText(fs) + TokenText(s.cs, s.token) }

  function FrameValue(f: Frame): Json {
    match f
    case Top(vs) => Arr(Trees(vs))
    case Inside(b, _, done, last, _) =>
      if last.Some? then WithEntry(Contents(b, done), last.value.key, EntryTree(last.value)) else Contents(b, done)
  }

  ghost predicate FrameDerives(f: Frame) {
    match f
    case Top(vs) => forall v | v in vs :: Derives(v)
    case Inside(b, _, done, last, p) =>
      && (forall i | i in done :: DerivesItem(b, i))
      && (last.Some? ==> DerivesItem(b, last.value) && p == Nothing)
      && (p.Named? ==> b == Curly && IsText(p.raw))
      && (p.Awaiting? ==> b == Curly && IsText(p.key.raw))
  }

  /** A value may be put here: the pending key is complete in an object. */
  predicate Open(f: Frame) {
    f.Inside? ==> f.last == None && if f.bracket == Curly then f.pending.Awaiting? else f.pending == Nothing
  }

  function Slot(f: Frame): Option<Key> {
    if f.Inside? && f.pending.Awaiting? then Some(f.pending.key) else None
  }

  /** The frame of the current machine agrees with its position. */
  predicate PosMatches(f: Frame, s: State)
    requires s.cs.At?
  {
    match f
    case Top(vs) =>
      && Outer(s.cs.level)
      && (s.cs.level == Main ==> s.delivered == Trees(vs) && forall v | v in vs :: v.CBox?)
      && (s.cs.level == Single ==>
            if s.cs.pos == After then |vs| == 1 && s.delivered == [] && s.cur == Arr(Trees(vs))
            else if s.cs.pos == Done then |vs| == 1 && s.delivered == Trees(vs)
            else vs == [] && s.delivered == [])
    case Inside(b, _, done, last, p) =>
      && s.cs.level == LevelOf(b)
      && s.cur == FrameValue(f)
      && (match s.cs.pos
          case Start => done == [] && last == None && p == Nothing
          case Need => done != [] && last == None && p == Nothing
          case InName(_) => last == None && p == Nothing
          case Colon => last == None && p.Named? && s.name == Some(p.raw)
          case After => last.Some?
          case _ => Open(f) && (b == Curly ==> s.name == Some(p.key.raw)))
  }

  function LevelAt(s: State, i: nat): Level
    requires s.cs.At? && i <= |s.stack|
  {
    if i == 0 then s.cs.level else if s.stack[i - 1].At? then s.stack[i - 1].level else Main
  }

  /** A suspended machine: the frame it was left in and the context pushed for it. */
  ghost predicate Suspended(f: Frame, level: Level, obj: Json, child: Level, s: State) {
    && Open(f) && FrameDerives(f)
    && match f
       case Top(vs) =>
         && Outer(level)
         && (level == Main ==> s.delivered == Trees(vs) && forall v | v in vs :: v.CBox?)
         && (level == Single ==> vs == [] && s.delivered == [])
         && obj == Arr([Empty(child)])
       case Inside(b, _, _, _, _) => level == LevelOf(b) && obj == WithEntry(FrameValue(f), Slot(f), Empty(child))
  }

  ghost predicate Matches(fs: seq<Frame>, s: State) {
    && s.cs.At?
    && |fs| == |s.stack| + 1 == |s.contexts| + 1
    && FrameDerives(fs[0]) && PosMatches(fs[0], s)
    && forall i :: 0 <= i < |s.stack| ==> Suspended(fs[i + 1], LevelAt(s, i + 1), s.contexts[i].obj, LevelAt(s, i), s)
  }

  // ----- one value more -----

  /** The frames once a value has been read into the innermost one. */
  function Grown(f: Frame, v: Cst): Frame {
    match f
    case Top(vs) => Top(vs + [v])
    case Inside(_, _, _, _, _) => f.(last := Some(Item(Slot(f), v, 0, 0)), pending := Nothing)
  }

  lemma StreamGrows(vs: seq<Cst>, v: Cst)
    ensures StreamText(vs + [v]) == StreamText(vs) + Text(v) && Trees(vs + [v]) == Trees(vs) + [Tree(v)]
  {
    assert (vs + [v])[..|vs|] == vs;
  }

  lemma GrownText(f: Frame, v: Cst)
    requires Open(f)
    ensures FrameText(Grown(f, v)) == FrameText(f) + Text(v)
  {
    match f
    case Top(vs) => StreamGrows(vs, v);
    case Inside(b, lead, done, _, p) =>
      assert Spaces(0) == "";
      var i := Item(Slot(f), v, 0, 0);
      assert EntryText(i) == HeadText(Slot(f)) + Text(v) == PendingText(p) + Text(v);
      var base := OpenText(b) + Spaces(lead) + ItemsText(done);
      GrownStrings(base, EntryText(i), PendingText(p), Text(v));
      hide Spaces, ItemsText, EntryText, PendingText, HeadText, Text;
  }

  lemma GrownStrings(base: string, item: string, pending: string, text: string)
    requires item == pending + text
    ensures base + item + "" == base + "" + pending + text
  {
  }

  lemma GrownDerives(f: Frame, v: Cst)
    requires Open(f) && FrameDerives(f) && Derives(v)
    ensures FrameDerives(Grown(f, v))
  {
    match f
    case Top(vs) => forall w | w in vs + [v] ensures Derives(w) { assert w in vs || w == v; }
    case Inside(b, _, _, _, _) => assert DerivesItem(b, Item(Slot(f), v, 0, 0));
  }

  /** `jp->add` and the frame agree on what a value does to the container. */
  lemma GrownValue(f: Frame, v: Cst)
    requires Open(f)
    ensures f.Inside? ==> FrameValue(Grown(f, v)) == WithEntry(FrameValue(f), Slot(f), Tree(v))
  {
  }

  /** The innermost frame changes and nothing else does. */
  lemma TopMatches(fs: seq<Frame>, s: State, f: Frame, t: State)
    requires Matches(fs, s)
    requires t.cs.At? && t.cs.level == s.cs.level && t.stack == s.stack && t.contexts == s.contexts
    requires t.delivered == s.delivered || s.stack == []
    requires FrameDerives(f) && PosMatches(f, t)
    ensures Matches([f] + fs[1..], t)
  {
    hide FrameDerives, PosMatches;
    var gs := [f] + fs[1..];
    forall i | 0 <= i < |t.stack|
      ensures Suspended(gs[i + 1], LevelAt(t, i + 1), t.contexts[i].obj, LevelAt(t, i), t)
    {
      assert Suspended(fs[i + 1], LevelAt(s, i + 1), s.contexts[i].obj, LevelAt(s, i), s);
    }
  }

  /** `jp->add` on the container and `WithEntry` on the frame's value agree. */
  lemma AddedIsEntry(f: Frame, s: State, v: Json)
    requires Shape(s) && MayAdd(s.cs) && f.Inside? && PosMatches(f, s)
    ensures Open(f) && Added(s, v).cur == WithEntry(FrameValue(f), Slot(f), v)
  {
    hide FrameValue, With;
  }

  lemma StoredTop(f: Frame, s: State, v: Cst)
    requires Shape(s) && MayAdd(s.cs) && s.cs.level == Single && f.Top? && PosMatches(f, s)
    ensures PosMatches(Grown(f, v), Stored(s, Tree(v)))
  {
    StreamGrows([], v);
    assert f.values + [v] == [v] && [] + [Tree(v)] == [Tree(v)];
    assert s.cur == Arr([]);
    hide Tree, Trees;
  }

  lemma StoredPos(f: Frame, s: State, v: Cst)
    requires Shape(s) && MayAdd(s.cs) && s.cs.level != Main && PosMatches(f, s) && FrameDerives(f)
    ensures Open(f) && PosMatches(Grown(f, v), Stored(s, Tree(v)))
  {
    if f.Top? {
      hide Stored, Shape, FrameDerives, Tree;
      StoredTop(f, s, v);
    } else {
      hide Stored, Shape, FrameDerives, Tree;
      StoredInside(f, s, v);
    }
  }

  lemma GrownLast(f: Frame, v: Cst)
    requires f.Inside? && Open(f)
    ensures var g := Grown(f, v); g.Inside? && g.last.Some? && g.bracket == f.bracket
  {
  }

  lemma InsideAfter(f: Frame, t: State)
    requires f.Inside? && f.last.Some? && t.cs.At? && t.cs.pos == After
    requires t.cs.level == LevelOf(f.bracket) && t.cur == FrameValue(f)
    ensures PosMatches(f, t)
  {
    hide FrameValue;
  }

  lemma StoredInside(f: Frame, s: State, v: Cst)
    requires Shape(s) && MayAdd(s.cs) && s.cs.level != Main && PosMatches(f, s) && FrameDerives(f) && f.Inside?
    ensures Open(f) && PosMatches(Grown(f, v), Stored(s, Tree(v)))
  {
    AddedIsEntry(f, s, Tree(v));
    GrownValue(f, v);
    StoredKeeps(s, Tree(v));
    var t, g := Stored(s, Tree(v)), Grown(f, v);
    assert t.cur == Added(s, Tree(v)).cur == FrameValue(g) && s.cs.level == LevelOf(f.bracket);
    hide *;
    GrownLast(f, v);
    InsideAfter(g, t);
  }

  lemma StoredMatches(fs: seq<Frame>, s: State, v: Cst)
    requires Shape(s) && Matches(fs, s) && MayAdd(s.cs) && s.cs.level != Main && Derives(v)
    ensures Matches([Grown(fs[0], v)] + fs[1..], Stored(s, Tree(v)))
  {
    hide Shape, PosMatches, FrameDerives, Stored, Grown, Tree, Derives, Suspended, MayAdd;
    StoredPos(fs[0], s, v);
    GrownDerives(fs[0], v);
    StoredKeeps(s, Tree(v));
    TopMatches(fs, s, Grown(fs[0], v), Stored(s, Tree(v)));
  }

  lemma StoredKeeps(s: State, v: Json)
    requires s.cs.At?
    ensures var t := Stored(s, v);
            t.cs == At(s.cs.level, After) && t.stack == s.stack && t.contexts == s.contexts
                && t.delivered == s.delivered
  {
  }

  lemma ReplaceTop(fs: seq<Frame>, f: Frame)
    requires fs != []
    ensures FramesText([f] + fs[1..]) == FramesText(fs[1..]) + FrameText(f)
  {
    assert ([f] + fs[1..])[1..] == fs[1..];
  }

  lemma SameFrames(fs: seq<Frame>)
    requires fs != []
    ensures [fs[0]] + fs[1..] == fs
  {
  }

  function EmptyFrame(b: Bracket): Frame { Inside(b, 0, [], None, Nothing) }

  lemma BeginText(fs: seq<Frame>, b: Bracket)
    ensures FramesText([EmptyFrame(b)] + fs) == FramesText(fs) + OpenText(b)
  {
    assert ([EmptyFrame(b)] + fs)[1..] == fs && Spaces(0) == "";
    assert FrameText(EmptyFrame(b)) == OpenText(b) + "" + "" + "" + "" == OpenText(b);
  }

  /** The context pushed by `begin` holds the frame's value with the new child as its latest entry. */
  lemma BeginSuspends(f: Frame, s: State, b: Bracket)
    requires Shape(s) && Ready(s.cs) && PosMatches(f, s) && FrameDerives(f)
    ensures Suspended(f, s.cs.level, Begin(s, LevelOf(b)).contexts[0].obj, LevelOf(b), s)
  {
    assert Outer(s.cs.level) ==> s.cur == Arr([]);
    assert [] + [Empty(LevelOf(b))] == [Empty(LevelOf(b))];
  }

  lemma BeginKeeps(s: State, b: Bracket)
    requires Shape(s) && Ready(s.cs)
    ensures var t := Begin(s, LevelOf(b));
            && t.cs == At(LevelOf(b), Start) && t.cur == EmptyBox(b)
            && |t.stack| == |t.contexts| == |s.stack| + 1
            && t.stack[0] == At(s.cs.level, After) && t.stack[1..] == s.stack && t.contexts[1..] == s.contexts
            && t.delivered == s.delivered
  {
  }

  lemma FreshFits(b: Bracket, t: State)
    requires t.cs == At(LevelOf(b), Start) && t.cur == EmptyBox(b)
    ensures FrameDerives(EmptyFrame(b)) && PosMatches(EmptyFrame(b), t)
  {
  }

  lemma BeginMatches(fs: seq<Frame>, s: State, b: Bracket)
    requires Shape(s) && Matches(fs, s) && Ready(s.cs)
    ensures Matches([EmptyFrame(b)] + fs, Begin(s, LevelOf(b)))
  {
    var gs, t := [EmptyFrame(b)] + fs, Begin(s, LevelOf(b));
    BeginSuspends(fs[0], s, b);
    BeginKeeps(s, b);
    FreshFits(b, t);
    assert Suspended(fs[0], s.cs.level, t.contexts[0].obj, LevelOf(b), s);
    hide Shape, Ready, Begin, PosMatches, FrameDerives;
    forall i | 0 <= i < |t.stack|
      ensures Suspended(gs[i + 1], LevelAt(t, i + 1), t.contexts[i].obj, LevelAt(t, i), t)
    {
      if i > 0 { DeeperSuspended(fs, s, t, i); }
    }
  }

  /** Pushing a context does not touch the ones below. */
  lemma DeeperSuspended(fs: seq<Frame>, s: State, t: State, i: nat)
    requires Matches(fs, s) && t.cs.At? && |t.stack| == |t.contexts| == |s.stack| + 1 && 0 < i < |t.stack|
    requires t.stack[0] == At(s.cs.level, After) && t.stack[1..] == s.stack && t.contexts[1..] == s.contexts
    requires t.delivered == s.delivered
    ensures Suspended(fs[i], LevelAt(t, i + 1), t.contexts[i].obj, LevelAt(t, i), t)
  {
    hide PosMatches, FrameDerives, Open, FrameValue, WithEntry;
    assert Suspended(fs[i], LevelAt(s, i), s.contexts[i - 1].obj, LevelAt(s, i - 1), s);
    assert t.contexts[i] == s.contexts[i - 1] && t.stack[i] == s.stack[i - 1];
  }

  /** The derivation of the container that is being closed. */
  function Closed(f: Frame): Cst
    requires f.Inside?
  {
    CBox(f.bracket, f.lead, f.done, f.last)
  }

  lemma WriteBackEntry(parent: Json, key: Option<Key>, before: Json, v: Json)
    requires parent.Arr? || (parent.Obj? && key.Some?)
    ensures WriteBack(WithEntry(parent, key, before), v) == WithEntry(parent, key, v)
  {
    match parent
    case Arr(es) => assert (es + [before])[..|es|] == es;
    case Obj(ms) =>
      var w := With(ms, key.value.raw, before);
      assert w[..|w| - 1] == Without(ms, key.value.raw);
    case _ =>
  }

  lemma ContentsKind(f: Frame)
    requires f.Inside?
    ensures f.bracket == Square ==> FrameValue(f).Arr?
    ensures f.bracket == Curly ==> FrameValue(f).Obj?
  {
  }

  lemma ClosedText(f: Frame)
    requires f.Inside? && f.pending == Nothing
    ensures Text(Closed(f)) == FrameText(f) + CloseText(f.bracket)
  {
    var last := if f.last.Some? then EntryText(f.last.value) else "";
    assert FrameText(f) == OpenText(f.bracket) + Spaces(f.lead) + ItemsText(f.done) + last + "";
  }

  lemma EndText(fs: seq<Frame>)
    requires |fs| > 1 && fs[0].Inside? && fs[0].pending == Nothing && Open(fs[1])
    ensures FramesText([Grown(fs[1], Closed(fs[0]))] + fs[2..]) == FramesText(fs) + CloseText(fs[0].bracket)
  {
    hide FramesText, FrameText, Text, Grown, Closed, Open;
    var f, p := fs[0], fs[1];
    ClosedText(f);
    GrownText(p, Closed(f));
    UnfoldText(fs);
    UnfoldText(fs[1..]);
    assert fs[1..][1..] == fs[2..];
    ReplaceTop(fs[1..], Grown(p, Closed(f)));
    var u, x, y, z := FramesText(fs[2..]), FrameText(p), FrameText(f), CloseText(f.bracket);
    assert u + (x + (y + z)) == u + x + y + z;
  }

  lemma UnfoldText(fs: seq<Frame>)
    requires fs != []
    ensures FramesText(fs) == FramesText(fs[1..]) + FrameText(fs[0])
  {
  }

  /** The container that is being closed derives, with the value the machine has built. */
  lemma ClosedDerives(f: Frame, s: State)
    requires s.cs.At? && !Outer(s.cs.level) && (s.cs.pos == Start || s.cs.pos == After)
    requires PosMatches(f, s) && FrameDerives(f)
    ensures f.Inside? && f.pending == Nothing && Derives(Closed(f)) && Tree(Closed(f)) == s.cur
  {
  }

  /**
   What closing the outermost container does: `A_final` for `main`, a value to be delivered later for
   `single_json_value`.
   */
  lemma EndOuter(s: State)
    requires Shape(s) && s.cs.At? && |s.stack| == 1 && s.contexts[0].obj == Arr([Empty(s.cs.level)])
    ensures var t := End(s); t.cs == s.stack[0] && t.cs.At? && t.cs.pos == After
    ensures s.stack[0].level == Main ==> End(s).delivered == s.delivered + [s.cur]
    ensures s.stack[0].level != Main ==> End(s).delivered == s.delivered && End(s).cur == Arr([s.cur])
  {
    assert ContextFits(s, 0);
    assert [Empty(s.cs.level)][..0] + [s.cur] == [s.cur];
    hide Shape, ContextFits, Empty;
  }

  lemma MoreBoxes(vs: seq<Cst>, v: Cst)
    requires v.CBox? && forall w | w in vs :: w.CBox?
    ensures forall w | w in vs + [v] :: w.CBox?
  {
  }

  lemma OneTree(v: Cst)
    ensures [] + [v] == [v] && Trees([v]) == [Tree(v)]
  {
    StreamGrows([], v);
    assert [] + [v] == [v] && Trees([]) == [] && [] + [Tree(v)] == [Tree(v)];
  }

  lemma EndTop(vs: seq<Cst>, v: Cst, s: State)
    requires Shape(s) && s.cs.At? && !Outer(s.cs.level) && Tree(v) == s.cur && v.CBox?
    requires Suspended(Top(vs), LevelAt(s, 1), s.contexts[0].obj, s.cs.level, s)
    ensures End(s).cs.At? && PosMatches(Top(vs + [v]), End(s))
  {
    assert ContextFits(s, 0);
    EndOuter(s);
    assert s.stack[0].level == Main ==> s.delivered == Trees(vs) && forall w | w in vs :: w.CBox?;
    assert s.stack[0].level != Main ==> vs == [] && s.delivered == [];
    hide Tree, Trees, Shape, ContextFits, End, Empty, Suspended;
    StreamGrows(vs, v);
    OneTree(v);
    if s.stack[0].level == Main { MoreBoxes(vs, v); }
  }

  lemma EndCur(p: Frame, s: State)
    requires Shape(s) && s.cs.At? && !Outer(s.cs.level) && p.Inside?
    requires Suspended(p, LevelAt(s, 1), s.contexts[0].obj, s.cs.level, s)
    ensures s.contexts != [] && End(s).cur == WithEntry(FrameValue(p), Slot(p), s.cur)
  {
    assert ContextFits(s, 0);
    ContentsKind(p);
    WriteBackEntry(FrameValue(p), Slot(p), Empty(s.cs.level), s.cur);
    assert End(s).cur == WriteBack(s.contexts[0].obj, s.cur);
    hide FrameValue, WithEntry, FrameDerives, WriteBack, Shape, ContextFits, Empty, End;
  }

  lemma EndInside(p: Frame, v: Cst, s: State)
    requires Shape(s) && s.cs.At? && !Outer(s.cs.level) && Tree(v) == s.cur && p.Inside?
    requires Suspended(p, LevelAt(s, 1), s.contexts[0].obj, s.cs.level, s)
    ensures End(s).cs.At? && PosMatches(Grown(p, v), End(s))
  {
    assert ContextFits(s, 0);
    GrownValue(p, v);
    GrownLast(p, v);
    EndCur(p, s);
    EndKeeps(s);
    assert s.stack[0].level == LevelOf(p.bracket);
    hide *;
    InsideAfter(Grown(p, v), End(s));
  }

  lemma EndPos(f: Frame, p: Frame, s: State)
    requires Shape(s) && s.cs.At? && !Outer(s.cs.level) && (s.cs.pos == Start || s.cs.pos == After)
    requires PosMatches(f, s) && FrameDerives(f)
    requires Suspended(p, LevelAt(s, 1), s.contexts[0].obj, s.cs.level, s)
    ensures f.Inside? && f.pending == Nothing && Derives(Closed(f))
    ensures End(s).cs.At? && PosMatches(Grown(p, Closed(f)), End(s))
  {
    ClosedDerives(f, s);
    hide Shape, FrameDerives, Suspended, PosMatches, End;
    match p
    case Top(vs) => EndTop(vs, Closed(f), s);
    case Inside(_, _, _, _, _) => EndInside(p, Closed(f), s);
  }

  lemma EndKeeps(s: State)
    requires Shape(s) && s.cs.At? && !Outer(s.cs.level)
    ensures var t := End(s);
            && t.cs == s.stack[0] && t.cs.At? && t.cs.pos == After && t.token == s.token
            && t.stack == s.stack[1..] && t.contexts == s.contexts[1..]
                && (t.stack != [] ==> t.delivered == s.delivered)
  {
    assert ContextFits(s, 0);
  }

  /** The frames below the one that was left in are those of the machines below. */
  lemma EndFrames(fs: seq<Frame>, s: State, g: Frame)
    requires Shape(s) && Matches(fs, s) && !Outer(s.cs.level)
    ensures var t, gs := End(s), [g] + fs[2..];
            && t.cs.At? && |gs| == |t.stack| + 1 == |t.contexts| + 1 && |fs| >= 2
            && forall i :: 0 <= i < |t.stack| ==>
                 Suspended(gs[i + 1], LevelAt(t, i + 1), t.contexts[i].obj, LevelAt(t, i), t)
  {
    var t, gs := End(s), [g] + fs[2..];
    EndKeeps(s);
    assert |fs| == |s.stack| + 1 == |s.contexts| + 1 >= 2;
    hide End, PosMatches, FrameDerives, Shape;
    forall i | 0 <= i < |t.stack|
      ensures Suspended(gs[i + 1], LevelAt(t, i + 1), t.contexts[i].obj, LevelAt(t, i), t)
    {
      assert Suspended(fs[i + 2], LevelAt(s, i + 2), s.contexts[i + 1].obj, LevelAt(s, i + 1), s);
      assert gs[i + 1] == fs[i + 2];
    }
  }

  lemma LeftFrame(fs: seq<Frame>, s: State)
    requires Shape(s) && Matches(fs, s) && !Outer(s.cs.level)
    ensures |fs| == |s.stack| + 1 >= 2 && |s.contexts| > 0 && s.cs.At?
    ensures Suspended(fs[1], LevelAt(s, 1), s.contexts[0].obj, s.cs.level, s) && Open(fs[1]) && FrameDerives(fs[1])
    ensures PosMatches(fs[0], s) && FrameDerives(fs[0])
  {
    assert Suspended(fs[1], LevelAt(s, 1), s.contexts[0].obj, LevelAt(s, 0), s);
    hide PosMatches, FrameDerives;
  }

  lemma EndMatches(fs: seq<Frame>, s: State)
    requires Shape(s) && Matches(fs, s) && !Outer(s.cs.level) && (s.cs.pos == Start || s.cs.pos == After)
    ensures Matches([Grown(fs[1], Closed(fs[0]))] + fs[2..], End(s))
    ensures fs[0].Inside? && fs[0].pending == Nothing && Open(fs[1])
  {
    var f, p := fs[0], fs[1];
    LeftFrame(fs, s);
    EndPos(f, p, s);
    GrownDerives(p, Closed(f));
    EndFrames(fs, s, Grown(p, Closed(f)));
    hide End, PosMatches, FrameDerives, Shape, Grown, Closed, Open, Suspended, LevelAt;
  }

  // ----- one byte more -----

  /** What a step has to establish. */
  ghost predicate Tracks(fs: seq<Frame>, s: State, c: char, gs: seq<Frame>, t: State) {
    Matches(gs, t) && Consumed(gs, t) == Consumed(fs, s) + [c]
  }

  lemma ConsumedGrows(a: string, x: string, t0: string, t1: string, c: char)
    requires x + t1 == t0 + [c]
    ensures (a + x) + t1 == (a + t0) + [c]
  {
    assert (a + x) + t1 == a + (x + t1);
  }

  lemma EndSound(fs: seq<Frame>, s: State, c: char) returns (gs: seq<Frame>)
    requires Shape(s) && Matches(fs, s) && !Outer(s.cs.level) && (s.cs.pos == Start || s.cs.pos == After)
    requires [c] == CloseText(if s.cs.level == Array then Square else Curly)
    ensures Tracks(fs, s, c, gs, End(s))
  {
    assert s.cs.level == LevelOf(fs[0].bracket) && TokenText(s.cs, s.token) == "";
    hide Shape, Matches, Closed, Grown, FramesText, Open, Suspended;
    EndMatches(fs, s);
    EndText(fs);
    EndKeeps(s);
    gs := [Grown(fs[1], Closed(fs[0]))] + fs[2..];
    hide End;
    assert TokenText(End(s).cs, End(s).token) == "";
    assert [c] == CloseText(fs[0].bracket);
    ConsumedGrows(FramesText(fs), [c], "", "", c);
  }

  lemma BeginSound(fs: seq<Frame>, s: State, b: Bracket, c: char) returns (gs: seq<Frame>)
    requires Shape(s) && Matches(fs, s) && Ready(s.cs) && [c] == OpenText(b)
    ensures Tracks(fs, s, c, gs, Begin(s, LevelOf(b)))
  {
    BeginMatches(fs, s, b);
    BeginText(fs, b);
    BeginState(s, b);
    gs := [EmptyFrame(b)] + fs;
    hide Shape, Matches, Begin, FramesText;
  }

  lemma SpacesGrow(n: nat)
    ensures Spaces(n + 1) == Spaces(n) + " "
  {
  }

  lemma ItemsGrow(items: seq<Item>, i: Item)
    ensures ItemsText(items + [i]) == ItemsText(items) + EntryText(i) + "," + Spaces(i.post)
    ensures forall b :: Contents(b, items + [i]) == WithEntry(Contents(b, items), i.key, EntryTree(i))
  {
    assert (items + [i])[..|items|] == items;
  }

  /** A space only lengthens the run of spaces the machine stands in. */
  function Spaced(f: Frame, pos: Pos): Frame
    requires f.Inside?
  {
    match pos
    case Start => f.(lead := f.lead + 1)
    case Need => if f.done == [] then f else
        var i := f.done[|f.done| - 1]; f.(done := f.done[..|f.done| - 1] + [i.(post := i.post + 1)])
    case Colon => if f.pending.Named? then f.(pending := Named(f.pending.raw, f.pending.pre + 1)) else f
    case Value =>
      if f.pending.Awaiting? then f.(pending := Awaiting(f.pending.key.(post := f.pending.key.post + 1))) else f
    case _ => if f.last.Some? then f.(last := Some(f.last.value.(pre := f.last.value.pre + 1))) else f
  }

  lemma NeedSpaced(f: Frame)
    requires f.Inside? && f.done != [] && FrameDerives(f)
    ensures var g := Spaced(f, Need); FrameDerives(g) && FrameValue(g) == FrameValue(f) && g.done != []
    ensures ItemsText(Spaced(f, Need).done) == ItemsText(f.done) + " "
  {
    var init, i := f.done[..|f.done| - 1], f.done[|f.done| - 1];
    var j := i.(post := i.post + 1);
    assert f.done == init + [i];
    SpacedItem(f.bracket, init, i);
    hide EntryText, EntryTree, Spaces, ItemsText, Contents, DerivesItem;
    forall k | k in init + [j] ensures DerivesItem(f.bracket, k) {
      assert k in init ==> k in f.done;
      assert i in f.done;
    }
  }

  /** One space more behind the comma of the last item. */
  lemma SpacedItem(b: Bracket, init: seq<Item>, i: Item)
    ensures var j := i.(post := i.post + 1);
            && ItemsText(init + [j]) == ItemsText(init + [i]) + " "
            && Contents(b, init + [j]) == Contents(b, init + [i])
            && (DerivesItem(b, j) <==> DerivesItem(b, i))
  {
    var j := i.(post := i.post + 1);
    assert EntryText(j) == EntryText(i) && EntryTree(j) == EntryTree(i);
    hide EntryText, EntryTree, ItemsText, Contents, Spaces;
    ItemsGrow(init, i);
    ItemsGrow(init, j);
    SpacesGrow(i.post);
  }

  lemma SpacedPos(f: Frame, s: State)
    requires f.Inside? && s.cs.At? && PosFits(s.cs.level, s.cs.pos) && PosMatches(f, s) && FrameDerives(f)
    requires s.cs.pos == Start || s.cs.pos == Need || s.cs.pos == Colon || s.cs.pos == Value || s.cs.pos == After
    ensures FrameDerives(Spaced(f, s.cs.pos)) && PosMatches(Spaced(f, s.cs.pos), s)
  {
    if s.cs.pos == Need { NeedSpaced(f); }
  }

  lemma StartSpaced(o: string, n: nat)
    ensures o + Spaces(n + 1) + "" + "" + "" == (o + Spaces(n) + "" + "" + "") + " "
  {
    SpacesGrow(n);
  }

  lemma ItemSpaced(u: string, items: string)
    ensures u + (items + " ") + "" + "" == (u + items + "" + "") + " "
  {
  }

  lemma LastSpaced(u: string, e: string)
    ensures u + (e + " ") + "" == (u + e + "") + " "
  {
  }

  lemma PendingSpaced(u: string, p: string)
    ensures u + (p + " ") == (u + p) + " "
  {
  }

  lemma LongerPending(p: Pending)
    ensures p.Named? ==> PendingText(p.(pre := p.pre + 1)) == PendingText(p) + " "
    ensures p.Awaiting? ==> PendingText(Awaiting(p.key.(post := p.key.post + 1))) == PendingText(p) + " "
  {
    if p.Named? { SpacesGrow(p.pre); } else if p.Awaiting? { SpacesGrow(p.key.post); }
  }

  lemma SpacedText(f: Frame, s: State)
    requires f.Inside? && s.cs.At? && PosFits(s.cs.level, s.cs.pos) && PosMatches(f, s) && FrameDerives(f)
    requires s.cs.pos == Start || s.cs.pos == Need || s.cs.pos == Colon || s.cs.pos == Value || s.cs.pos == After
    ensures FrameText(Spaced(f, s.cs.pos)) == FrameText(f) + " "
  {
    SpacedPosFacts(f, s);
    if s.cs.pos == Need { NeedSpaced(f); }
    NoItems();
    LongerPending(f.pending);
    if f.last.Some? { LongerEntry(f.last.value); }
    hide PosMatches, FrameDerives, PosFits, ItemsText, EntryText, Spaces;
    var u := OpenText(f.bracket) + Spaces(f.lead);
    StartSpaced(OpenText(f.bracket), f.lead);
    ItemSpaced(u, ItemsText(f.done));
    PendingSpaced(u + ItemsText(f.done) + "", PendingText(f.pending));
    if f.last.Some? { LastSpaced(u + ItemsText(f.done), EntryText(f.last.value)); }
    hide OpenText;
  }

  lemma SpacedPosFacts(f: Frame, s: State)
    requires f.Inside? && s.cs.At? && PosFits(s.cs.level, s.cs.pos) && PosMatches(f, s) && FrameDerives(f)
    ensures s.cs.pos == Start || s.cs.pos == Need || s.cs.pos == Colon || s.cs.pos == Value ==> f.last == None
    ensures s.cs.pos == Start ==> f.done == []
    ensures s.cs.pos == Start || s.cs.pos == Need || s.cs.pos == After ==> f.pending == Nothing
    ensures s.cs.pos == Need ==> f.done != []
    ensures s.cs.pos == Colon ==> f.pending.Named?
    ensures s.cs.pos == Value ==> f.pending.Awaiting?
    ensures s.cs.pos == After ==> f.last.Some?
  {
  }

  lemma NoItems()
    ensures ItemsText([]) == ""
  {
  }

  lemma LongerEntry(i: Item)
    ensures EntryText(i.(pre := i.pre + 1)) == EntryText(i) + " "
  {
    SpacesGrow(i.pre);
  }

  /** Replacing the innermost frame by one with a longer text. */
  lemma GrowText(fs: seq<Frame>, g: Frame, more: string)
    requires fs != [] && FrameText(g) == FrameText(fs[0]) + more
    ensures FramesText([g] + fs[1..]) == FramesText(fs) + more
  {
    hide FrameText, FramesText;
    UnfoldText(fs);
    ReplaceTop(fs, g);
  }

  /** The innermost frame takes in a byte and what was read of a token before it. */
  lemma TopTracks(fs: seq<Frame>, s: State, c: char, g: Frame, t: State, more: string)
    requires Matches(fs, s)
    requires t.cs.At? && t.cs.level == s.cs.level && t.stack == s.stack && t.contexts == s.contexts
    requires t.delivered == s.delivered && FrameDerives(g) && PosMatches(g, t)
    requires fs != [] && FrameText(g) == FrameText(fs[0]) + more
    requires more + TokenText(t.cs, t.token) == TokenText(s.cs, s.token) + [c]
    ensures Tracks(fs, s, c, [g] + fs[1..], t)
  {
    hide Matches, FramesText, FrameText, PosMatches, FrameDerives, TokenText;
    TopMatches(fs, s, g, t);
    GrowText(fs, g, more);
    ConsumedGrows(FramesText(fs), more, TokenText(s.cs, s.token), TokenText(t.cs, t.token), c);
  }

  lemma InsideFrame(fs: seq<Frame>, s: State)
    requires Matches(fs, s) && !Outer(s.cs.level)
    ensures fs[0].Inside? && FrameDerives(fs[0])
  {
  }

  lemma SpaceSound(fs: seq<Frame>, s: State) returns (gs: seq<Frame>)
    requires Shape(s) && Matches(fs, s) && !Outer(s.cs.level)
    requires s.cs.pos == Start || s.cs.pos == Need || s.cs.pos == Colon || s.cs.pos == Value || s.cs.pos == After
    ensures Tracks(fs, s, ' ', gs, s)
  {
    assert PosFits(s.cs.level, s.cs.pos);
    MatchesFrame(fs, s);
    InsideFrame(fs, s);
    SpacedText(fs[0], s);
    SpacedPos(fs[0], s);
    var g := Spaced(fs[0], s.cs.pos);
    gs := [g] + fs[1..];
    assert " " + TokenText(s.cs, s.token) == TokenText(s.cs, s.token) + [' '];
    hide *;
    TopTracks(fs, s, ' ', g, s, " ");
  }

  lemma CommaStrings(u: string, items: string, e: string)
    ensures u + (items + e + "," + "") + "" + "" == (u + items + e + "") + ","
  {
  }

  lemma CommaText(f: Frame)
    requires f.Inside? && f.last.Some? && f.pending == Nothing && FrameDerives(f)
    ensures var i := f.last.value.(post := 0); var g := f.(done := f.done + [i], last := None);
            FrameText(g) == FrameText(f) + "," && FrameValue(g) == FrameValue(f) && FrameDerives(g)
  {
    var i := f.last.value.(post := 0);
    ItemsGrow(f.done, i);
    assert EntryText(i) == EntryText(f.last.value) && EntryTree(i) == EntryTree(f.last.value) && Spaces(0) == "";
    assert DerivesItem(f.bracket, i);
    hide Spaces, EntryText, ItemsText, Contents, WithEntry, DerivesItem;
    CommaStrings(OpenText(f.bracket) + Spaces(f.lead), ItemsText(f.done), EntryText(i));
    forall j | j in f.done + [i] ensures DerivesItem(f.bracket, j) { assert j in f.done || j == i; }
  }

  lemma CommaSound(fs: seq<Frame>, s: State) returns (gs: seq<Frame>)
    requires Shape(s) && Matches(fs, s) && !Outer(s.cs.level) && s.cs.pos == After
    ensures Tracks(fs, s, ',', gs, Goto(s, Need))
  {
    var f := fs[0];
    var g := f.(done := f.done + [f.last.value.(post := 0)], last := None);
    CommaText(f);
    gs := [g] + fs[1..];
    TopMatches(fs, s, g, Goto(s, Need));
    hide Shape, Matches, FramesText, FrameText;
    GrowText(fs, g, ",");
    ConsumedGrows(FramesText(fs), ",", "", "", ',');
  }

  /** A token begins or goes on: the frames stay as they are. */
  lemma TokenSound(fs: seq<Frame>, s: State, c: char, pos: Pos, token: string)
    requires Shape(s) && Matches(fs, s)
    requires s.cs.level != Main && PosMatches(fs[0], Goto(s, pos).(token := token))
    requires TokenText(At(s.cs.level, pos), token) == TokenText(s.cs, s.token) + [c]
    ensures Tracks(fs, s, c, fs, Goto(s, pos).(token := token))
  {
    TopMatches(fs, s, fs[0], Goto(s, pos).(token := token));
    SameFrames(fs);
  }

  /** A value without children ends: `t` is the state before the byte, `v` what has been read of it. */
  lemma StoredSound(fs: seq<Frame>, s: State, v: Cst) returns (gs: seq<Frame>)
    requires Shape(s) && Matches(fs, s) && MayAdd(s.cs) && s.cs.level != Main && Derives(v) && Open(fs[0])
    ensures Matches(gs, Stored(s, Tree(v)))
    ensures Consumed(gs, Stored(s, Tree(v))) == FramesText(fs) + Text(v)
  {
    assert fs != [] && s.cs.At?;
    hide Shape, Matches, FramesText, FrameText, Grown, Tree, Text, Derives, Open;
    StoredMatches(fs, s, v);
    gs := [Grown(fs[0], v)] + fs[1..];
    GrownText(fs[0], v);
    GrowText(fs, gs[0], Text(v));
    StoredKeeps(s, Tree(v));
  }

  lemma ValueOpen(fs: seq<Frame>, s: State)
    requires Shape(s) && Matches(fs, s) && MayAdd(s.cs)
    ensures Open(fs[0])
  {
  }

  /** A value's first byte, when it is not a bracket, leaves the frame as it is. */
  lemma FirstByteSound(fs: seq<Frame>, s: State, c: char, pos: Pos, token: string)
    requires Shape(s) && Matches(fs, s) && Ready(s.cs) && s.cs.level != Main
    requires pos.InString? || pos.InNumber? || pos.InWord?
    requires TokenText(At(s.cs.level, pos), token) == [c]
    ensures Tracks(fs, s, c, fs, Goto(s, pos).(token := token))
  {
    ValueOpen(fs, s);
    TokenSound(fs, s, c, pos, token);
  }

  /** Where the first byte of a value without children leads. */
  function FirstPos(c: char): (pos: Pos)
    ensures pos.InString? || pos.InNumber? || pos.InWord?
  {
    if c == '"' then InString(Fresh) else if StartNumber(c).Some? then InNumber(StartNumber(c).value)
    else if c == 'n' then InWord(NullWord, 1) else if c == 't' then InWord(TrueWord, 1) else InWord(FalseWord, 1)
  }

  lemma StartValueSound(fs: seq<Frame>, s: State, c: char) returns (gs: seq<Frame>)
    requires Shape(s) && Matches(fs, s) && Ready(s.cs) && s.cs.level != Main && StartValue(s, c).cs.At?
    ensures Tracks(fs, s, c, gs, StartValue(s, c))
  {
    assert s.token == "" && s.cs.At?;
    gs := fs;
    if c == '[' || c == '{' {
      assert StartValue(s, c) == Begin(s, if c == '[' then Array else Object);
      hide Shape, Matches, Tracks, Begin, Ready, StartValue;
      gs := BeginSound(fs, s, if c == '[' then Square else Curly, c);
    } else {
      var pos := FirstPos(c);
      var token := if StartNumber(c).Some? then [c] else "";
      assert StartValue(s, c) == Goto(s, pos).(token := token);
      assert TokenText(At(s.cs.level, pos), token) == [c];
      hide Shape, Matches, Tracks, Ready, StartValue, Goto, TokenText, StartNumber;
      FirstByteSound(fs, s, c, pos, token);
    }
  }

  lemma NamedText(f: Frame, raw: string)
    requires f.Inside? && f.pending == Nothing
    ensures FrameText(f.(pending := Named(raw, 0))) == FrameText(f) + ("\"" + raw + "\"")
  {
    assert Spaces(0) == "";
    var last := if f.last.Some? then EntryText(f.last.value) else "";
    var u := OpenText(f.bracket) + Spaces(f.lead) + ItemsText(f.done) + last;
    assert u + ("\"" + raw + "\"" + "") == u + "" + ("\"" + raw + "\"");
  }

  lemma NamedMatches(f: Frame, s: State)
    requires Shape(s) && s.cs.At? && s.cs.pos.InName? && IsText(s.token) && PosMatches(f, s) && FrameDerives(f)
    ensures var g := f.(pending := Named(s.token, 0));
            FrameDerives(g) && PosMatches(g, Goto(s, Colon).(name := Some(s.token), token := ""))
  {
  }

  lemma NameSound(fs: seq<Frame>, s: State) returns (gs: seq<Frame>)
    requires Shape(s) && Matches(fs, s) && s.cs.pos.InName? && AtBoundary(s.cs.pos.n)
    ensures Tracks(fs, s, '"', gs, Goto(s, Colon).(name := Some(s.token), token := ""))
  {
    var f := fs[0];
    assert f.Inside? && f.pending == Nothing && ScanText(s.token) == Some(s.cs.pos.n) && |fs| > 0;
    assert PosMatches(f, s) && FrameDerives(f);
    TextAutomatonExact(s.token);
    hide FrameDerives, PosMatches, FrameText, FramesText, Shape, IsText, ScanText, Matches;
    var g := f.(pending := Named(s.token, 0));
    NamedText(f, s.token);
    NamedMatches(f, s);
    gs := [g] + fs[1..];
    TopMatches(fs, s, g, Goto(s, Colon).(name := Some(s.token), token := ""));
    GrowText(fs, g, "\"" + s.token + "\"");
    ConsumedGrows(FramesText(fs), "\"" + s.token + "\"", "\"" + s.token, "", '"');
  }

  lemma ColonSound(fs: seq<Frame>, s: State) returns (gs: seq<Frame>)
    requires Shape(s) && Matches(fs, s) && s.cs.pos == Colon
    ensures Tracks(fs, s, ':', gs, Goto(s, Value))
  {
    var f := fs[0];
    var g := f.(pending := Awaiting(Key(f.pending.raw, f.pending.pre, 0)));
    assert Spaces(0) == "";
    assert PendingText(g.pending) == PendingText(f.pending) + ":";
    assert FrameText(g) == FrameText(f) + ":";
    gs := [g] + fs[1..];
    TopMatches(fs, s, g, Goto(s, Value));
    GrowText(fs, g, ":");
    hide Shape, Matches, FramesText, FrameText;
  }

  lemma LongerToken(s: State, pos: Pos, c: char)
    requires s.cs.At? && ((s.cs.pos.InName? && pos.InName?) || (s.cs.pos.InString? && pos.InString?))
    ensures TokenText(At(s.cs.level, pos), s.token + [c]) == TokenText(s.cs, s.token) + [c]
  {
    assert "\"" + (s.token + [c]) == ("\"" + s.token) + [c];
  }

  lemma TextEnds(fs: seq<Frame>, s: State, t: TextState)
    requires Shape(s) && Matches(fs, s) && s.cs.At? && (s.cs.pos == InName(t) || s.cs.pos == InString(t))
    requires AtBoundary(t)
    ensures s.cs.pos.InName? ==> StepText(s, '"', t) == Goto(s, Colon).(name := Some(s.token), token := "")
    ensures s.cs.pos.InString? ==>
              && s.cs.level != Main && MayAdd(s.cs) && fs != [] && Open(fs[0])
              && StepText(s, '"', t) == Stored(s, Tree(CString(s.token)))
              && Derives(CString(s.token)) && Text(CString(s.token)) == TokenText(s.cs, s.token) + ['"']
  {
    assert ScanText(s.token) == Some(t) && PosFits(s.cs.level, s.cs.pos);
    if s.cs.pos.InString? { ValueOpen(fs, s); }
    TextAutomatonExact(s.token);
    hide Shape, Matches, Stored, ScanText, IsText, NextText;
  }

  lemma TextGoesOn(fs: seq<Frame>, s: State, c: char, t: TextState, u: TextState, pos: Pos)
    requires Shape(s) && Matches(fs, s) && s.cs.At? && (s.cs.pos == InName(t) || s.cs.pos == InString(t))
    requires NextText(t, c) == Some(u) && !(c == '"' && AtBoundary(t))
    requires pos == if s.cs.pos.InName? then InName(u) else InString(u)
    ensures StepText(s, c, t) == Goto(s, pos).(token := s.token + [c])
    ensures s.cs.level != Main && fs != [] && PosMatches(fs[0], s)
  {
    assert PosFits(s.cs.level, s.cs.pos);
    MatchesFrame(fs, s);
    hide Shape, Matches, PosMatches, NextText;
  }

  lemma TextSound(fs: seq<Frame>, s: State, c: char, t: TextState) returns (gs: seq<Frame>)
    requires Shape(s) && Matches(fs, s) && (s.cs.pos == InName(t) || s.cs.pos == InString(t))
    requires StepText(s, c, t).cs.At?
    ensures Tracks(fs, s, c, gs, StepText(s, c, t))
  {
    gs := fs;
    if c == '"' && AtBoundary(t) {
      if s.cs.pos.InName? {
        TextEnds(fs, s, t);
        hide *;
        gs := NameSound(fs, s);
      } else {
        TextEnds(fs, s, t);
        hide *;
        gs := StoredSound(fs, s, CString(s.token));
        ConsumedIs(fs, s, gs, StepText(s, c, t), c, Text(CString(s.token)));
      }
    } else {
      var u := NextText(t, c).value;
      var pos := if s.cs.pos.InName? then InName(u) else InString(u);
      TextGoesOn(fs, s, c, t, u, pos);
      hide *;
      InsideMatches(fs[0], s, pos, s.token + [c]);
      LongerToken(s, pos, c);
      TokenSound(fs, s, c, pos, s.token + [c]);
    }
  }

  /** Settling a number consumes nothing: the digits move from the token to the frame. */
  lemma SettleSound(fs: seq<Frame>, s: State) returns (gs: seq<Frame>)
    requires Shape(s) && Matches(fs, s) && s.cs.pos.InNumber? && FinalNumber(s.cs.pos.d)
    ensures Matches(gs, Settle(s)) && Consumed(gs, Settle(s)) == Consumed(fs, s)
    ensures Shape(Settle(s)) && Settle(s).cs == At(s.cs.level, After)
  {
    ValueOpen(fs, s);
    SettleShape(s);
    SettleIs(s);
    hide Shape, Matches, Stored, Settle, Derives, Tree, Open, FramesText;
    gs := StoredSound(fs, s, CNumber(s.token));
  }

  lemma SettleIs(s: State)
    requires Shape(s) && s.cs.At? && s.cs.pos.InNumber? && FinalNumber(s.cs.pos.d)
    ensures Derives(CNumber(s.token)) && Settle(s) == Stored(s, Tree(CNumber(s.token)))
    ensures MayAdd(s.cs) && s.cs.level != Main && Text(CNumber(s.token)) == s.token
    ensures Settle(s).cs == At(s.cs.level, After) && Settle(s).token == "" && TokenText(s.cs, s.token) == s.token
  {
    NumberAutomatonExact(s.token);
    AddedKeeps(s, Tree(CNumber(s.token)));
    hide ScanNumber, IsInteger, IsFloat, IntValue, RealValue, Added;
  }

  lemma AfterSound(fs: seq<Frame>, s: State, c: char) returns (gs: seq<Frame>)
    requires Shape(s) && Matches(fs, s) && s.cs.pos == After && s.cs.level != Single && AfterValue(s, c).cs.At?
    ensures Tracks(fs, s, c, gs, AfterValue(s, c))
  {
    match s.cs.level
    case Main => gs := BeginSound(fs, s, if c == '[' then Square else Curly, c);
    case _ =>
      if c == ' ' { gs := SpaceSound(fs, s); }
      else if c == ',' { gs := CommaSound(fs, s); }
      else { gs := EndSound(fs, s, c); }
  }

  /** Every byte that is not an error extends the partial derivations by exactly that byte. */
  lemma StepSound(fs: seq<Frame>, s: State, c: char) returns (gs: seq<Frame>)
    requires Shape(s) && Matches(fs, s) && Step(s, c).cs.At? && !(s.cs.level == Single && c == '\0')
    ensures Tracks(fs, s, c, gs, Step(s, c))
  {
    gs := fs;
    match s.cs.pos
    case After => gs := AfterSound(fs, s, c);
    case InName(t) => gs := TextSound(fs, s, c, t);
    case InString(t) => gs := TextSound(fs, s, c, t);
    case InNumber(d) => gs := NumberSound(fs, s, c);
    case InWord(w, k) => gs := WordSound(fs, s, c);
    case _ => gs := GapSound(fs, s, c);
  }

  lemma NumberSound(fs: seq<Frame>, s: State, c: char) returns (gs: seq<Frame>)
    requires Shape(s) && Matches(fs, s) && s.cs.pos.InNumber? && !(s.cs.level == Single && c == '\0')
    requires StepNumber(s, c, s.cs.pos.d).cs.At?
    ensures Tracks(fs, s, c, gs, StepNumber(s, c, s.cs.pos.d))
  {
    MatchesFrame(fs, s);
    assert PosFits(s.cs.level, s.cs.pos);
    hide Matches, Shape, PosMatches, AfterValue, Settle, NextNumber;
    match NextNumber(s.cs.pos.d, c)
    case Some(e) =>
      gs := fs;
      InsideMatches(fs[0], s, InNumber(e), s.token + [c]);
      TokenSound(fs, s, c, InNumber(e), s.token + [c]);
    case None =>
      var hs := SettleSound(fs, s);
      gs := AfterSound(hs, Settle(s), c);
  }

  /** Another position inside the same value, name or word. */
  lemma InsideMatches(f: Frame, s: State, pos: Pos, token: string)
    requires s.cs.At? && PosMatches(f, s) && s.cs.level != Main
    requires (s.cs.pos.InString? && pos.InString?) || (s.cs.pos.InName? && pos.InName?)
             || (s.cs.pos.InNumber? && pos.InNumber?) || (s.cs.pos.InWord? && pos.InWord?)
    ensures PosMatches(f, Goto(s, pos).(token := token))
  {
  }

  lemma MatchesFrame(fs: seq<Frame>, s: State)
    requires Matches(fs, s)
    ensures fs != [] && s.cs.At? && PosMatches(fs[0], s)
  {
  }

  /** What a value that has just ended and the byte that ended it amount to. */
  lemma ConsumedIs(fs: seq<Frame>, s: State, gs: seq<Frame>, t: State, c: char, text: string)
    requires Matches(gs, t) && Consumed(gs, t) == FramesText(fs) + text
    requires s.cs.At? && text == TokenText(s.cs, s.token) + [c]
    ensures Tracks(fs, s, c, gs, t)
  {
    var a, b := FramesText(fs), TokenText(s.cs, s.token);
    hide Matches, FramesText, TokenText;
    assert a + (b + [c]) == (a + b) + [c];
  }

  lemma WordFacts(fs: seq<Frame>, s: State, c: char, w: Word, k: nat)
    requires Shape(s) && Matches(fs, s) && s.cs.pos == InWord(w, k) && StepWord(s, c, w, k).cs.At?
    ensures k < |Spelling(w)| && s.cs.level != Main && fs != [] && PosMatches(fs[0], s) && Open(fs[0]) && MayAdd(s.cs)
    ensures Text(CWord(w)) == Spelling(w) && Derives(CWord(w)) && Tree(CWord(w)) == WordValue(w)
    ensures TokenText(s.cs, s.token) == Spelling(w)[..k] && Spelling(w)[..k + 1] == Spelling(w)[..k] + [c]
    ensures k + 1 == |Spelling(w)| ==> Spelling(w) == TokenText(s.cs, s.token) + [c]
    ensures k + 1 < |Spelling(w)| ==> TokenText(At(s.cs.level, InWord(w, k + 1)), "") == TokenText(s.cs, s.token) + [c]
    ensures StepWord(s, c, w, k) ==
            if k + 1 == |Spelling(w)| then Stored(s, WordValue(w)) else Goto(s, InWord(w, k + 1)).(token := "")
  {
    assert PosFits(s.cs.level, s.cs.pos) && TokenFits(s.cs.pos, s.token);
    MatchesFrame(fs, s);
    ValueOpen(fs, s);
    hide Shape, Matches, PosMatches, Stored;
    assert Spelling(w)[..|Spelling(w)|] == Spelling(w);
  }

  lemma WordSound(fs: seq<Frame>, s: State, c: char) returns (gs: seq<Frame>)
    requires Shape(s) && Matches(fs, s) && s.cs.pos.InWord? && StepWord(s, c, s.cs.pos.w, s.cs.pos.k).cs.At?
    ensures Tracks(fs, s, c, gs, StepWord(s, c, s.cs.pos.w, s.cs.pos.k))
  {
    var w, k, t := s.cs.pos.w, s.cs.pos.k, StepWord(s, c, s.cs.pos.w, s.cs.pos.k);
    WordFacts(fs, s, c, w, k);
    hide *;
    if k + 1 == |Spelling(w)| {
      gs := StoredSound(fs, s, CWord(w));
      ConsumedIs(fs, s, gs, t, c, Text(CWord(w)));
    } else {
      gs := fs;
      InsideMatches(fs[0], s, InWord(w, k + 1), "");
      TokenSound(fs, s, c, InWord(w, k + 1), "");
    }
  }

  lemma GapSound(fs: seq<Frame>, s: State, c: char) returns (gs: seq<Frame>)
    requires Shape(s) && Matches(fs, s) && StepGap(s, c).cs.At?
    requires s.cs.pos == Start || s.cs.pos == Need || s.cs.pos == Colon || s.cs.pos == Value || s.cs.pos == Done
    ensures Tracks(fs, s, c, gs, StepGap(s, c))
  {
    var level, pos := s.cs.level, s.cs.pos;
    assert PosFits(level, pos) && (Ready(s.cs) || pos == Colon || pos == Done || level == Object);
    assert s.token == "";
    hide Shape, Matches, Tracks, Begin, End, StartValue;
    if level == Main {
      gs := BeginSound(fs, s, if c == '[' then Square else Curly, c);
    } else if level == Single {
      gs := StartValueSound(fs, s, c);
    } else if c == ' ' {
      gs := SpaceSound(fs, s);
    } else if pos == Start && (c == ']' || c == '}') {
      gs := EndSound(fs, s, c);
    } else if level == Array || pos == Value {
      gs := StartValueSound(fs, s, c);
    } else if pos == Colon {
      gs := ColonSound(fs, s);
    } else {
      gs := NameStarts(fs, s, c);
    }
  }

  /** The quote in front of a name. */
  lemma NameStarts(fs: seq<Frame>, s: State, c: char) returns (gs: seq<Frame>)
    requires Shape(s) && Matches(fs, s) && s.cs.At? && s.cs.level == Object && c == '"'
    requires s.cs.pos == Start || s.cs.pos == Need
    ensures Tracks(fs, s, c, gs, Goto(s, InName(Fresh)))
  {
    gs := fs;
    TokenSound(fs, s, c, InName(Fresh), "");
    hide Shape, Matches, Tracks;
  }

  /** The machine at the bottom of the call stack never changes. */
  function Base(s: State): Level
    requires s.cs.At?
  {
    LevelAt(s, |s.stack|)
  }

  /** A byte leaves the call stack alone, calls one machine, or returns from one. */
  predicate Moves(s: State, t: State)
    requires s.cs.At?
  {
    || t.cs == Failed
    || (t.cs.level == s.cs.level && t.stack == s.stack)
    || t.stack == [At(s.cs.level, After)] + s.stack
    || (s.stack != [] && t.stack == s.stack[1..] && t.cs == s.stack[0])
  }

  lemma SettleKeeps(s: State)
    requires s.cs.At?
    ensures Settle(s).cs.At? && Settle(s).cs.level == s.cs.level && Settle(s).stack == s.stack
  {
  }

  lemma AfterMoves(s: State, c: char)
    requires s.cs.At? && s.cs.pos == After && (s.stack == [] <==> Outer(s.cs.level)) && |s.stack| == |s.contexts|
    requires s.stack != [] ==> s.stack[0].At?
    ensures Moves(s, AfterValue(s, c))
  {
  }

  lemma NumberMoves(s: State, c: char, d: NumState)
    requires s.cs.At? && s.cs.pos == InNumber(d) && (s.stack == [] <==> Outer(s.cs.level)) && |s.stack| == |s.contexts|
    requires s.stack != [] ==> s.stack[0].At?
    ensures Moves(s, StepNumber(s, c, d))
  {
    SettleKeeps(s);
    SettleAfter(s);
    hide Settle, AfterValue, NextNumber, MayFollow;
    if NextNumber(d, c) == None && FinalNumber(d) && MayFollow(s.cs.level, c) { AfterMoves(Settle(s), c); }
  }

  lemma SettleAfter(s: State)
    requires s.cs.At?
    ensures s.cs.pos.InNumber? && FinalNumber(s.cs.pos.d) ==> Settle(s).cs.pos == After
    ensures |Settle(s).contexts| == |s.contexts|
  {
    hide IntValue, RealValue;
  }

  lemma TextMoves(s: State, c: char, t: TextState)
    requires s.cs.At? && (s.cs.pos == InName(t) || s.cs.pos == InString(t))
    ensures Moves(s, StepText(s, c, t))
  {
    hide NextText;
  }

  lemma WordMoves(s: State, c: char, w: Word, k: nat)
    requires s.cs.At?
    ensures Moves(s, StepWord(s, c, w, k))
  {
    hide Spelling, WordValue;
  }

  lemma GapMoves(s: State, c: char)
    requires s.cs.At? && (s.stack == [] <==> Outer(s.cs.level)) && |s.stack| == |s.contexts|
    requires s.stack != [] ==> s.stack[0].At?
    ensures Moves(s, StepGap(s, c))
  {
    StartMoves(s, c);
    BoxMoves(s);
    assert Moves(s, s) && Moves(s, Fail(s)) && Moves(s, Goto(s, Value)) && Moves(s, Goto(s, InName(Fresh)));
    hide StartValue, Begin, End, Moves, Goto, Fail;
  }

  lemma StartMoves(s: State, c: char)
    requires s.cs.At?
    ensures Moves(s, StartValue(s, c))
  {
    if c == '[' || c == '{' {
      assert StartValue(s, c) == Begin(s, if c == '[' then Array else Object);
      hide *;
      BoxMoves(s);
    } else {
      var t := StartValue(s, c);
      assert t.cs == Failed || (t.cs.level == s.cs.level && t.stack == s.stack);
      hide StartValue;
    }
  }

  lemma BoxMoves(s: State)
    requires s.cs.At?
    ensures Moves(s, Begin(s, Array)) && Moves(s, Begin(s, Object))
    ensures s.stack != [] && s.contexts != [] && s.stack[0].At? ==> Moves(s, End(s))
  {
    AddedKeeps(s, Empty(Array));
    AddedKeeps(s, Empty(Object));
    hide Added;
  }

  lemma StepMoves(s: State, c: char)
    requires Shape(s) && s.cs.At?
    ensures Moves(s, Step(s, c))
  {
    if s.stack != [] { assert ContextFits(s, 0); }
    assert s.stack == [] <==> Outer(s.cs.level);
    hide Shape, ContextFits, AfterValue, StepNumber, StepText, StepWord, StepGap, Moves;
    match s.cs.pos
    case After => AfterMoves(s, c);
    case InNumber(d) => NumberMoves(s, c, d);
    case InName(t) => TextMoves(s, c, t);
    case InString(t) => TextMoves(s, c, t);
    case InWord(w, k) => WordMoves(s, c, w, k);
    case _ => GapMoves(s, c);
  }

  lemma MovesKeepBase(s: State, t: State)
    requires s.cs.At? && t.cs.At? && Moves(s, t)
    requires s.stack != [] ==> s.stack[0].At?
    ensures Base(t) == Base(s)
  {
  }

  lemma RunningBefore(s: State, c: char)
    requires Step(s, c).cs.At?
    ensures s.cs.At?
  {
  }

  lemma StepBase(s: State, c: char)
    requires Shape(s) && Step(s, c).cs.At?
    ensures s.cs.At? && Base(Step(s, c)) == Base(s)
  {
    RunningBefore(s, c);
    if s.stack != [] { assert ContextFits(s, 0); }
    StepMoves(s, c);
    hide Step, Shape, ContextFits, Moves, Base;
    MovesKeepBase(s, Step(s, c));
  }

  lemma {:induction false} RunSound(level: Level, w: string) returns (fs: seq<Frame>)
    requires Outer(level) && Run(Initial(level), w).cs.At? && (level == Single ==> '\0' !in w)
    ensures var s := Run(Initial(level), w); Matches(fs, s) && Consumed(fs, s) == w && Base(s) == level && Shape(s)
  {
    hide Step, Shape, Matches, Consumed;
    InitialShape(level);
    if w == "" {
      fs := [Top([])];
      InitialMatches(level);
    } else {
      var u, c := w[..|w| - 1], w[|w| - 1];
      var s := Run(Initial(level), u);
      assert c in w && (forall d | d in u :: d in w) && w == u + [c];
      RunShape(Initial(level), u);
      StepBase(s, c);
      fs := RunSound(level, u);
      StepShape(s, c);
      BaseIsOuter(s);
      fs := StepSound(fs, s, c);
    }
  }

  lemma InitialMatches(level: Level)
    requires Outer(level)
    ensures Matches([Top([])], Initial(level)) && Consumed([Top([])], Initial(level)) == ""
  {
  }

  lemma BaseIsOuter(s: State)
    requires Shape(s) && s.cs.At?
    ensures s.cs.level == Single ==> Base(s) == Single
  {
  }
}
