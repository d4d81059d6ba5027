/** The printer of src/json.c, its length function, and the round trip through the parser. */
module Printing {
  import opened Values
  import opened Lexical
  import opened Conversions
  import opened Machine
  import opened ShapeInvariant
  import opened Grammar
  import opened Completeness
  import opened Soundness
  import opened Parsing

  // ----- what is printed -----

  function PrintText(v: Json): string
    decreases v, 1
  {
    match v
    case Null => "null"
    case Bool(b) => if b then "true" else "false"
    case Int(i) => IntText(i)
    case Double(d) => DoubleText(d)
    case Str(s) => "\"" + s + "\""
    case Arr(es) => "[" + ElemsText(es) + "]"
    case Obj(ms) => "{" + MembersText(ms) + "}"
  }

  function ElemsText(es: seq<Json>): string
    decreases es, 0
  {
    if es == [] then ""
    else if |es| == 1 then PrintText(es[0])
    else ElemsText(es[..|es| - 1]) + ", " + PrintText(es[|es| - 1])
  }

  /** `print_object_entry` */
  function MemberText(m: Member): string
    decreases m, 0
  {
    "\"" + m.key + "\": " + PrintText(m.value)
  }

  function MembersText(ms: seq<Member>): string
    decreases ms, 0
  {
    if ms == [] then ""
    else if |ms| == 1 then MemberText(ms[0])
    else MembersText(ms[..|ms| - 1]) + ", " + MemberText(ms[|ms| - 1])
  }

  /** Empty arrays and objects in a tree. */
  function EmptyBoxes(v: Json): nat
    decreases v, 1
  {
    match v
    case Arr(es) => if es == [] then 1 else EmptyElems(es)
    case Obj(ms) => if ms == [] then 1 else EmptyMembers(ms)
    case _ => 0
  }

  function EmptyElems(es: seq<Json>): nat
    decreases es, 0
  {
    if es == [] then 0 else EmptyElems(es[..|es| - 1]) + EmptyBoxes(es[|es| - 1])
  }

  function EmptyMember(m: Member): nat
    decreases m, 0
  {
    EmptyBoxes(m.value)
  }

  function EmptyMembers(ms: seq<Member>): nat
    decreases ms, 0
  {
    if ms == [] then 0 else EmptyMembers(ms[..|ms| - 1]) + EmptyMember(ms[|ms| - 1])
  }

  // ----- the program's loops -----

  /** The buffer `char *buf` of the print functions, as the C string it holds. */
  class Buffer {
    var text: string

    constructor ()
      ensures text == ""
    {
      text := "";
    }

    method Strcat(s: string)
      modifies this
      ensures text == old(text) + s
    {
      text := text + s;
    }

    /** `obj->print(obj, buf)` */
    method Print(v: Json)
      modifies this
      ensures text == old(text) + PrintText(v)
      decreases v, 1
    {
      match v
      case Null => Strcat("null");
      case Bool(b) => Strcat(if b then "true" else "false");
      case Int(i) => Strcat(IntText(i));
      case Double(d) => Strcat(DoubleText(d));
      case Str(s) => Strcat("\""); Strcat(s); Strcat("\"");
      case Arr(es) => PrintArray(v);
      case Obj(ms) => PrintObject(v);
    }

    /** `array_print`: a separator after every entry but the last. */
    method PrintArray(v: Json)
      requires v.Arr?
      modifies this
      ensures text == old(text) + PrintText(v)
      decreases v, 0
    {
      var es := v.elems;
      BoxText(v);
      hide PrintText, ElemsText;
      Strcat("[");
      if es == [] { Strcat("]"); return; }
      var pos := 0;
      ghost var done := "";
      while pos + 1 < |es|
        invariant 0 <= pos < |es|
        invariant text == old(text) + ("[" + done)
        invariant done == if pos == 0 then "" else ElemsText(es[..pos]) + ", "
      {
        ElemsTextGrows(es, pos);
        Print(es[pos]);
        Strcat(", ");
        BufferStep(old(text), "[", done, PrintText(es[pos]));
        done := done + PrintText(es[pos]) + ", ";
        pos := pos + 1;
      }
      ElemsTextGrows(es, pos);
      assert es[..|es|] == es;
      Print(es[pos]);
      Strcat("]");
      BufferEnd(old(text), "[", done, PrintText(es[pos]), "]");
    }

    /** `object_print` */
    method PrintObject(v: Json)
      requires v.Obj?
      modifies this
      ensures text == old(text) + PrintText(v)
      decreases v, 0
    {
      var ms := v.members;
      BoxText(v);
      hide PrintText, MembersText, MemberText;
      Strcat("{");
      if ms == [] { Strcat("}"); return; }
      var pos := 0;
      ghost var done := "";
      while pos + 1 < |ms|
        invariant 0 <= pos < |ms|
        invariant text == old(text) + ("{" + done)
        invariant done == if pos == 0 then "" else MembersText(ms[..pos]) + ", "
      {
        MembersTextGrows(ms, pos);
        PrintEntry(ms[pos]);
        Strcat(", ");
        BufferStep(old(text), "{", done, MemberText(ms[pos]));
        done := done + MemberText(ms[pos]) + ", ";
        pos := pos + 1;
      }
      MembersTextGrows(ms, pos);
      assert ms[..|ms|] == ms;
      PrintEntry(ms[pos]);
      Strcat("}");
      BufferEnd(old(text), "{", done, MemberText(ms[pos]), "}");
    }

    /** `print_object_entry` */
    method PrintEntry(m: Member)
      modifies this
      ensures text == old(text) + MemberText(m)
      decreases m
    {
      Strcat("\"");
      Strcat(m.key);
      Strcat("\": ");
      Print(m.value);
    }
  }

  lemma BufferStep(before: string, open: string, done: string, entry: string)
    ensures before + (open + done) + entry + ", " == before + (open + (done + entry + ", "))
  {
  }

  lemma BufferEnd(before: string, open: string, done: string, entry: string, close: string)
    ensures before + (open + done) + entry + close == before + (open + (done + entry) + close)
  {
  }

  lemma BoxText(v: Json)
    ensures v.Arr? ==> PrintText(v) == "[" + ElemsText(v.elems) + "]"
    ensures v.Obj? ==> PrintText(v) == "{" + MembersText(v.members) + "}"
    ensures ElemsText([]) == "" && MembersText([]) == ""
  {
  }

  lemma ElemsTextGrows(es: seq<Json>, k: nat)
    requires k < |es|
    ensures ElemsText(es[..k + 1]) == (if k == 0 then "" else ElemsText(es[..k]) + ", ") + PrintText(es[k])
  {
    assert es[..k + 1][..k] == es[..k];
  }

  lemma MembersTextGrows(ms: seq<Member>, k: nat)
    requires k < |ms|
    ensures MembersText(ms[..k + 1]) == (if k == 0 then "" else MembersText(ms[..k]) + ", ") + MemberText(ms[k])
  {
    assert ms[..k + 1][..k] == ms[..k];
  }

  /**
   `obj->s_length(obj)`. Each entry is counted with a separator and two bytes are taken back at the end,
   also when there was no entry: the result is too small by exactly two for every empty array or object.
   */
  method StringLength(v: Json) returns (len: int)
    ensures len == |PrintText(v)| - 2 * EmptyBoxes(v)
    decreases v
  {
    match v
    case Null => len := |"null"|;
    case Bool(b) => len := if b then |"true"| else |"false"|;
    case Int(i) => len := |IntText(i)|;
    case Double(d) => len := |DoubleText(d)|;
    case Str(s) => len := |s| + 2;
    case Arr(es) =>
      len := 1;
      for k := 0 to |es|
        invariant len == 1 + |ElemsText(es[..k])| + (if k == 0 then 0 else 2) - 2 * EmptyElems(es[..k])
      {
        ElemsTextGrows(es, k);
        assert es[..k + 1][..k] == es[..k];
        var l := StringLength(es[k]);
        len := len + l;
        len := len + 2;
      }
      assert es[..|es|] == es;
      len := len - 2;
      len := len + 1;
    case Obj(ms) =>
      len := 1;
      for k := 0 to |ms|
        invariant len == 1 + |MembersText(ms[..k])| + (if k == 0 then 0 else 2) - 2 * EmptyMembers(ms[..k])
      {
        MembersTextGrows(ms, k);
        assert ms[..k + 1][..k] == ms[..k];
        len := len + 1;
        len := len + |ms[k].key|;
        len := len + 3;
        var l := StringLength(ms[k].value);
        len := len + l;
        len := len + 2;
      }
      assert ms[..|ms|] == ms;
      len := len - 2;
      len := len + 1;
  }

  /** `json_to_string`: the bytes allocated suffice for the text and its NUL exactly when no container is empty. */
  method JsonToString(v: Json) returns (res: string, size: int)
    ensures res == PrintText(v)
    ensures size == |res| + 1 - 2 * EmptyBoxes(v)
    ensures size >= |res| + 1 <==> EmptyBoxes(v) == 0
  {
    var len := StringLength(v);
    size := len + 1;
    var buf := new Buffer();
    buf.Print(v);
    res := buf.text;
  }

  // ----- the round trip -----

  /** Every string and key is a `uni_token*`. */
  ghost predicate AllText(v: Json) {
    match v
    case Str(s) => IsText(s)
    case Arr(es) => forall e | e in es :: AllText(e)
    case Obj(ms) => forall m | m in ms :: IsText(m.key) && AllText(m.value)
    case _ => true
  }

  /** A C string, so without NUL, in which escape decoding plays no part. */
  predicate PlainBytes(s: string) { '\0' !in s && !Escaped(s) }

  predicate PlainStrings(v: Json) {
    match v
    case Str(s) => PlainBytes(s)
    case Arr(es) => forall e | e in es :: PlainStrings(e)
    case Obj(ms) => forall m | m in ms :: PlainBytes(m.key) && PlainStrings(m.value)
    case _ => true
  }

  /** The derivation of the printed text. */
  function Printed(v: Json): Cst
    decreases v, 1
  {
    match v
    case Null => CWord(NullWord)
    case Bool(b) => CWord(if b then TrueWord else FalseWord)
    case Int(i) => CNumber(IntText(i))
    case Double(d) => CNumber(DoubleText(d))
    case Str(s) => CString(s)
    case Arr(es) =>
      if es == [] then CBox(Square, 0, [], None)
      else CBox(Square, 0, PrintedElems(es[..|es| - 1]), Some(Item(None, Printed(es[|es| - 1]), 0, 0)))
    case Obj(ms) =>
      if ms == [] then CBox(Curly, 0, [], None)
      else CBox(Curly, 0, PrintedMembers(ms[..|ms| - 1]), Some(PrintedMember(ms[|ms| - 1]).(post := 0)))
  }

  function PrintedElems(es: seq<Json>): seq<Item>
    decreases es, 0
  {
    if es == [] then [] else PrintedElems(es[..|es| - 1]) + [Item(None, Printed(es[|es| - 1]), 0, 1)]
  }

  function PrintedMember(m: Member): Item
    decreases m, 0
  {
    Item(Some(Key(m.key, 0, 1)), Printed(m.value), 0, 1)
  }

  function PrintedMembers(ms: seq<Member>): seq<Item>
    decreases ms, 0
  {
    if ms == [] then [] else PrintedMembers(ms[..|ms| - 1]) + [PrintedMember(ms[|ms| - 1])]
  }

  ghost predicate Printable(v: Json) { DoubleFree(v) && Keyed(v) && AllText(v) }

  /** What makes a derivation of the printed text right. */
  ghost predicate Represents(c: Cst, v: Json) {
    Derives(c) && Text(c) == PrintText(v) && Tree(c) == v
  }

  lemma SmallSpaces()
    ensures Spaces(0) == "" && Spaces(1) == " "
  {
  }

  lemma LeafRepresents(v: Json)
    requires Printable(v) && !v.Arr? && !v.Obj?
    ensures Represents(Printed(v), v)
  {
    if v.Int? { IntTextValue(v.i); }
  }

  lemma EmptyRepresents()
    ensures Represents(CBox(Square, 0, [], None), Arr([])) && Represents(CBox(Curly, 0, [], None), Obj([]))
  {
    SmallSpaces();
  }

  lemma {:induction false} PrintedRepresents(v: Json)
    requires Printable(v)
    ensures Represents(Printed(v), v)
    decreases v, 2
  {
    hide Represents, ElemsRepresent, MembersRepresent, MemberRepresents;
    EmptyRepresents();
    match v
    case Arr(es) =>
      if es != [] {
        var init, e := es[..|es| - 1], es[|es| - 1];
        PrintedElemsRepresent(init);
        PrintedRepresents(e);
        ArrayRepresents(PrintedElems(init), init, Printed(e), e);
        assert es == init + [e];
      }
    case Obj(ms) =>
      if ms != [] {
        var init, m := ms[..|ms| - 1], ms[|ms| - 1];
        DistinctPrefix(ms, |ms| - 1);
        PrintedMembersRepresent(init);
        PrintedMemberRepresents(m);
        assert ms == init + [m];
        ObjectRepresents(PrintedMembers(init), init, PrintedMember(m).(post := 0), m);
      }
    case _ => LeafRepresents(v);
  }

  /** What the derivations of an array's entries, each with a comma, amount to. */
  ghost predicate ElemsRepresent(items: seq<Item>, es: seq<Json>) {
    && (forall i | i in items :: DerivesItem(Square, i))
    && ItemsText(items) == (if es == [] then "" else ElemsText(es) + ", ")
    && Contents(Square, items) == Arr(es)
    && (items == [] <==> es == [])
  }

  lemma {:induction false} PrintedElemsRepresent(es: seq<Json>)
    requires forall e | e in es :: Printable(e)
    ensures ElemsRepresent(PrintedElems(es), es)
    decreases es, 1
  {
    if es != [] {
      var init, e := es[..|es| - 1], es[|es| - 1];
      assert PrintedElems(es) == PrintedElems(init) + [Item(None, Printed(e), 0, 1)];
      hide Represents, ElemsRepresent, PrintedElems, Printed, Printable;
      PrintedElemsRepresent(init);
      PrintedRepresents(e);
      assert es == init + [e];
      ElemsRepresentStep(PrintedElems(init), init, Printed(e), e);
    }
  }

  lemma EntryRepresents(c: Cst, e: Json, post: nat)
    requires Represents(c, e)
    ensures var i := Item(None, c, 0, post);
            DerivesItem(Square, i) && EntryText(i) == PrintText(e) && EntryTree(i) == e
  {
    SmallSpaces();
  }

  lemma CommaSpace(done: string, e: string)
    ensures done + e + "," + " " == (done + e) + ", "
  {
  }

  lemma ElemsRepresentStep(items: seq<Item>, es: seq<Json>, c: Cst, e: Json)
    requires ElemsRepresent(items, es) && Represents(c, e)
    ensures ElemsRepresent(items + [Item(None, c, 0, 1)], es + [e])
  {
    var i := Item(None, c, 0, 1);
    SmallSpaces();
    assert WithEntry(Arr(es), None, e) == Arr(es + [e]);
    hide *;
    ItemsGrow(items, i);
    EntryRepresents(c, e, 1);
    ElemItems(items, es);
    ArrayText(es, e);
    CommaSpace(ItemsText(items), PrintText(e));
    OneMoreItem(items, i);
    AreElems(items + [i], es + [e]);
  }

  lemma OneMoreItem(items: seq<Item>, i: Item)
    requires (forall j | j in items :: DerivesItem(Square, j)) && DerivesItem(Square, i)
    ensures forall j | j in items + [i] :: DerivesItem(Square, j)
  {
    hide DerivesItem;
  }

  lemma AreElems(items: seq<Item>, es: seq<Json>)
    requires (forall i | i in items :: DerivesItem(Square, i)) && items != [] && es != []
    requires ItemsText(items) == ElemsText(es) + ", " && Contents(Square, items) == Arr(es)
    ensures ElemsRepresent(items, es)
  {
  }

  lemma BoxTexts(open: string, done: string, e: string, close: string)
    ensures open + "" + done + e + close == open + (done + e) + close
  {
  }

  lemma ArrayRepresents(items: seq<Item>, es: seq<Json>, c: Cst, e: Json)
    requires ElemsRepresent(items, es) && Represents(c, e)
    ensures Represents(CBox(Square, 0, items, Some(Item(None, c, 0, 0))), Arr(es + [e]))
  {
    var i := Item(None, c, 0, 0);
    SquareBox(items, i);
    EntryRepresents(c, e, 0);
    ElemItems(items, es);
    ArrayText(es, e);
    assert WithEntry(Arr(es), None, e) == Arr(es + [e]);
    hide *;
    BoxTexts("[", ItemsText(items), EntryText(i), "]");
    IsRepresented(CBox(Square, 0, items, Some(i)), Arr(es + [e]));
  }

  lemma SquareBox(items: seq<Item>, i: Item)
    ensures var c := CBox(Square, 0, items, Some(i));
            && Text(c) == "[" + "" + ItemsText(items) + EntryText(i) + "]"
            && Tree(c) == WithEntry(Contents(Square, items), i.key, EntryTree(i))
            && (DerivesItem(Square, i) && (forall j | j in items :: DerivesItem(Square, j)) ==> Derives(c))
  {
    SmallSpaces();
    hide ItemsText, EntryText, Contents, EntryTree, DerivesItem, Spaces;
  }

  lemma ElemItems(items: seq<Item>, es: seq<Json>)
    requires ElemsRepresent(items, es)
    ensures forall j | j in items :: DerivesItem(Square, j)
    ensures ItemsText(items) == (if es == [] then "" else ElemsText(es) + ", ") && Contents(Square, items) == Arr(es)
  {
    hide ItemsText, Contents, DerivesItem, ElemsText;
  }

  lemma ArrayText(es: seq<Json>, e: Json)
    ensures ElemsText(es + [e]) == (if es == [] then "" else ElemsText(es) + ", ") + PrintText(e)
    ensures PrintText(Arr(es + [e])) ==
            "[" + ((if es == [] then "" else ElemsText(es) + ", ") + PrintText(e)) + "]"
  {
    BoxText(Arr(es + [e]));
    assert (es + [e])[..|es|] == es && (es + [e])[..|es| + 1] == es + [e];
    hide PrintText, ElemsText;
    ElemsTextGrows(es + [e], |es|);
  }

  ghost predicate MembersRepresent(items: seq<Item>, ms: seq<Member>) {
    && (forall i | i in items :: DerivesItem(Curly, i))
    && ItemsText(items) == (if ms == [] then "" else MembersText(ms) + ", ")
    && Contents(Curly, items) == Obj(ms)
    && (items == [] <==> ms == [])
  }

  ghost predicate MemberRepresents(i: Item, m: Member) {
    && DerivesItem(Curly, i) && EntryText(i) == MemberText(m)
    && i.key.value.raw == m.key && EntryTree(i) == m.value
  }

  lemma {:induction false} PrintedMemberRepresents(m: Member)
    requires Printable(m.value) && IsText(m.key)
    ensures forall post :: MemberRepresents(PrintedMember(m).(post := post), m)
    decreases m, 0
  {
    SmallSpaces();
    PrintedRepresents(m.value);
    var q := "\"";
    assert q + m.key + q + "" + ":" + " " == q + m.key + "\": ";
  }

  /** A key not met before is simply appended. */
  lemma FreshKey(ms: seq<Member>, m: Member)
    requires DistinctKeys(ms + [m])
    ensures With(ms, m.key, m.value) == ms + [m]
  {
    var k := Find(ms, m.key);
    assert (ms + [m])[|ms|] == m && forall j :: 0 <= j < |ms| ==> (ms + [m])[j] == ms[j];
  }

  lemma DistinctPrefix(ms: seq<Member>, k: nat)
    requires DistinctKeys(ms) && k <= |ms|
    ensures DistinctKeys(ms[..k])
  {
  }

  lemma {:induction false} PrintedMembersRepresent(ms: seq<Member>)
    requires DistinctKeys(ms) && forall m | m in ms :: Printable(m.value) && IsText(m.key)
    ensures MembersRepresent(PrintedMembers(ms), ms)
    decreases ms, 1
  {
    if ms != [] {
      var init, m := ms[..|ms| - 1], ms[|ms| - 1];
      DistinctPrefix(ms, |ms| - 1);
      PrintedMembersRepresent(init);
      PrintedMemberRepresents(m);
      assert ms == init + [m];
      assert PrintedMember(m).(post := 1) == PrintedMember(m);
      MembersRepresentStep(PrintedMembers(init), init, PrintedMember(m), m);
    }
  }

  lemma MembersRepresentStep(items: seq<Item>, ms: seq<Member>, i: Item, m: Member)
    requires MembersRepresent(items, ms) && MemberRepresents(i, m) && i.post == 1 && DistinctKeys(ms + [m])
    ensures MembersRepresent(items + [i], ms + [m])
  {
    SmallSpaces();
    ItemsGrow(items, i);
    FreshKey(ms, m);
    assert (ms + [m])[..|ms|] == ms;
    assert (ms + [m])[..|ms| + 1] == ms + [m];
    MembersTextGrows(ms + [m], |ms|);
    hide ItemsText, Contents, EntryText, EntryTree, MemberText, MembersText, DerivesItem, With, Spaces;
    CommaSpace(ItemsText(items), MemberText(m));
    forall j | j in items + [i] ensures DerivesItem(Curly, j) { assert j in items || j == i; }
  }

  lemma ObjectRepresents(items: seq<Item>, ms: seq<Member>, i: Item, m: Member)
    requires MembersRepresent(items, ms) && MemberRepresents(i, m) && DistinctKeys(ms + [m])
    ensures Represents(CBox(Curly, 0, items, Some(i)), Obj(ms + [m]))
  {
    var c := CBox(Curly, 0, items, Some(i));
    CurlyBox(items, i);
    ItemsOf(items, ms, i, m);
    FreshKey(ms, m);
    ObjectText(ms, m);
    hide *;
    BoxTexts("{", ItemsText(items), EntryText(i), "}");
    IsRepresented(c, Obj(ms + [m]));
  }

  lemma IsRepresented(c: Cst, v: Json)
    requires Derives(c) && Text(c) == PrintText(v) && Tree(c) == v
    ensures Represents(c, v)
  {
  }

  lemma CurlyBox(items: seq<Item>, i: Item)
    ensures var c := CBox(Curly, 0, items, Some(i));
            && Text(c) == "{" + "" + ItemsText(items) + EntryText(i) + "}"
            && Tree(c) == WithEntry(Contents(Curly, items), i.key, EntryTree(i))
            && (DerivesItem(Curly, i) && (forall j | j in items :: DerivesItem(Curly, j)) ==> Derives(c))
  {
    SmallSpaces();
    hide ItemsText, EntryText, Contents, EntryTree, DerivesItem, Spaces;
  }

  lemma ItemsOf(items: seq<Item>, ms: seq<Member>, i: Item, m: Member)
    requires MembersRepresent(items, ms) && MemberRepresents(i, m)
    ensures DerivesItem(Curly, i) && forall j | j in items :: DerivesItem(Curly, j)
    ensures ItemsText(items) == (if ms == [] then "" else MembersText(ms) + ", ") && EntryText(i) == MemberText(m)
    ensures WithEntry(Contents(Curly, items), i.key, EntryTree(i)) == Obj(With(ms, m.key, m.value))
  {
    hide ItemsText, EntryText, Contents, EntryTree, With, MembersText, MemberText;
  }

  lemma ObjectText(ms: seq<Member>, m: Member)
    ensures PrintText(Obj(ms + [m])) ==
            "{" + ((if ms == [] then "" else MembersText(ms) + ", ") + MemberText(m)) + "}"
  {
    BoxText(Obj(ms + [m]));
    assert (ms + [m])[..|ms|] == ms && (ms + [m])[..|ms| + 1] == ms + [m];
    hide PrintText, MembersText, MemberText;
    MembersTextGrows(ms + [m], |ms|);
  }

  /** Parsing a derivation gives trees of a special kind: their strings and keys are `uni_token*`. */
  lemma {:induction false} TreesAreText(c: Cst)
    requires Derives(c)
    ensures AllText(Tree(c))
    decreases c, 1
  {
    match c
    case CBox(b, _, done, last) =>
      ContentsAreText(b, done);
      if last.Some? {
        EntryIsText(b, last.value);
        EntryKeepsText(Contents(b, done), last.value.key, EntryTree(last.value));
      }
    case _ =>
  }

  lemma {:induction false} EntryIsText(b: Bracket, i: Item)
    requires DerivesItem(b, i)
    ensures AllText(EntryTree(i))
    decreases i, 0
  {
    TreesAreText(i.value);
  }

  lemma {:induction false} ContentsAreText(b: Bracket, items: seq<Item>)
    requires forall i | i in items :: DerivesItem(b, i)
    ensures AllText(Contents(b, items))
    decreases items, 0
  {
    if items != [] {
      var init, i := items[..|items| - 1], items[|items| - 1];
      ContentsAreText(b, init);
      EntryIsText(b, i);
      EntryKeepsText(Contents(b, init), i.key, EntryTree(i));
    }
  }

  lemma EntryKeepsText(parent: Json, key: Option<Key>, v: Json)
    requires AllText(parent) && AllText(v) && (key.Some? ==> IsText(key.value.raw))
    ensures AllText(WithEntry(parent, key, v))
  {
    if parent.Obj? && key.Some? {
      var ms := parent.members;
      forall m | m in With(ms, key.value.raw, v) ensures IsText(m.key) && AllText(m.value) {
        assert m in ms || m == Member(key.value.raw, v);
      }
    }
  }

  lemma {:induction false} NoNulPrinted(v: Json)
    requires DoubleFree(v) && PlainStrings(v)
    ensures '\0' !in PrintText(v)
    decreases v, 1
  {
    match v
    case Arr(es) => NoNulElems(es);
    case Obj(ms) => NoNulMembers(ms);
    case _ =>
  }

  lemma {:induction false} NoNulElems(es: seq<Json>)
    requires forall e | e in es :: DoubleFree(e) && PlainStrings(e)
    ensures '\0' !in ElemsText(es)
    decreases es, 0
  {
    if es != [] {
      NoNulElems(es[..|es| - 1]);
      NoNulPrinted(es[|es| - 1]);
    }
  }

  lemma {:induction false} NoNulMember(m: Member)
    requires PlainBytes(m.key) && DoubleFree(m.value) && PlainStrings(m.value)
    ensures '\0' !in MemberText(m)
    decreases m, 0
  {
    NoNulPrinted(m.value);
  }

  lemma {:induction false} NoNulMembers(ms: seq<Member>)
    requires forall m | m in ms :: PlainBytes(m.key) && DoubleFree(m.value) && PlainStrings(m.value)
    ensures '\0' !in MembersText(ms)
    decreases ms, 0
  {
    if ms != [] {
      NoNulMembers(ms[..|ms| - 1]);
      NoNulMember(ms[|ms| - 1]);
    }
  }

  /**
   Parse undoes print. For a tree without doubles and without backslashes, running the parser on the
   printed text delivers that very tree, once and in the same order, if and only if its objects have
   distinct keys and its strings and keys consist of whole unescaped `uni_token`s.
   */
  lemma ParseUndoesPrint(v: Json)
    requires DoubleFree(v) && PlainStrings(v)
    ensures Run(Initial(Single), PrintText(v) + "\0").delivered == [v] <==> Keyed(v) && AllText(v)
  {
    if Keyed(v) && AllText(v) {
      PrintedRepresents(v);
      SingleComplete(Printed(v));
    } else if Run(Initial(Single), PrintText(v) + "\0").delivered == [v] {
      InitialShape(Single);
      RunShape(Initial(Single), PrintText(v) + "\0");
      assert v in [v];
      NoNulPrinted(v);
      ParseExact(PrintText(v), v);
      var c :| Derives(c) && Text(c) == PrintText(v) && Tree(c) == v;
      TreesAreText(c);
    }
  }

  /** The texts of several values, one after the other, as a peer writes them to the connection. */
  function Written(vs: seq<Json>): string {
    if vs == [] then "" else Written(vs[..|vs| - 1]) + PrintText(vs[|vs| - 1])
  }

  lemma {:induction false} WrittenDerives(vs: seq<Json>) returns (cs: seq<Cst>)
    requires forall v | v in vs :: Printable(v) && (v.Arr? || v.Obj?)
    ensures DerivesStream(cs) && StreamText(cs) == Written(vs) && Trees(cs) == vs
  {
    cs := [];
    if vs != [] {
      var init, v := vs[..|vs| - 1], vs[|vs| - 1];
      assert v in vs;
      assert vs == init + [v] && Written(vs) == Written(init) + PrintText(v) && Printed(v).CBox?;
      PrintedRepresents(v);
      assert Derives(Printed(v)) && Text(Printed(v)) == PrintText(v) && Tree(Printed(v)) == v;
      hide Printed, Text, Tree, PrintText, Printable, StreamText, Trees, Written, Derives, Represents;
      var ds := WrittenDerives(init);
      StreamGrows(ds, Printed(v));
      cs := ds + [Printed(v)];
      forall d | d in cs ensures d.CBox? && Derives(d) { assert d in ds || d == Printed(v); }
    } else {
      assert StreamText([]) == "" && Trees([]) == [];
    }
  }

  /** A connection: any sequence of printed arrays and objects arrives as that sequence, without error. */
  lemma StreamUndoesPrint(vs: seq<Json>)
    requires forall v | v in vs :: Printable(v) && (v.Arr? || v.Obj?)
    ensures var r := Run(Initial(Main), Written(vs)); r.delivered == vs && r.errors == 0 && r.stack == []
  {
    var cs := WrittenDerives(vs);
    StreamComplete(cs);
  }

  // ----- the text, written out -----

  lemma Braces(a: string, b: string, c: string, d: string)
    ensures "{" + ("" + (a + b + c + d)) + "}" == ("{" + a) + b + c + d + "}"
  {
  }

  /** What is printed for each kind of value, and between the entries of a container. */
  lemma PrintWritten(e: Json, key: string)
    ensures PrintText(Null) == "null" && PrintText(Bool(true)) == "true" && PrintText(Bool(false)) == "false"
    ensures PrintText(Str(key)) == "\"" + key + "\""
    ensures PrintText(Arr([])) == "[]" && PrintText(Obj([])) == "{}"
    ensures PrintText(Arr([e])) == "[" + PrintText(e) + "]"
    ensures PrintText(Obj([Member(key, e)])) == "{\"" + key + "\": " + PrintText(e) + "}"
  {
    assert "[" + "" + "]" == "[]" && "{" + "" + "}" == "{}";
    assert MemberText(Member(key, e)) == "\"" + key + "\": " + PrintText(e);
    hide PrintText, MemberText;
    ObjectText([], Member(key, e));
    assert [] + [Member(key, e)] == [Member(key, e)];
    Braces("\"", key, "\": ", PrintText(e));
  }

  /** Entries are separated by a comma and a space, wherever an array is cut in two. */
  lemma {:induction false} ElemsJoined(us: seq<Json>, vs: seq<Json>)
    requires us != [] && vs != []
    ensures PrintText(Arr(us + vs)) == "[" + (Inside(Arr(us)) + ", " + Inside(Arr(vs))) + "]"
    ensures Inside(Arr(us + vs)) == Inside(Arr(us)) + ", " + Inside(Arr(vs))
  {
    var init, v := vs[..|vs| - 1], vs[|vs| - 1];
    assert us + vs == (us + init) + [v] && vs == init + [v] && us + [] == us && us + init != [];
    hide *;
    InsideBrackets(Arr(us + vs));
    ElemsEnd(us + init, v);
    ElemsEnd(init, v);
    if init != [] { ElemsJoined(us, init); }
    Associates(Inside(Arr(us)), Inside(Arr(init)), PrintText(v));
  }

  /** So are the entries of an object. */
  lemma {:induction false} MembersJoined(us: seq<Member>, vs: seq<Member>)
    requires us != [] && vs != []
    ensures PrintText(Obj(us + vs)) == "{" + (Inside(Obj(us)) + ", " + Inside(Obj(vs))) + "}"
    ensures Inside(Obj(us + vs)) == Inside(Obj(us)) + ", " + Inside(Obj(vs))
  {
    var init, v := vs[..|vs| - 1], vs[|vs| - 1];
    assert us + vs == (us + init) + [v] && vs == init + [v] && us + [] == us && us + init != [];
    hide *;
    InsideBrackets(Obj(us + vs));
    MembersEnd(us + init, v);
    MembersEnd(init, v);
    if init != [] { MembersJoined(us, init); }
    Associates(Inside(Obj(us)), Inside(Obj(init)), MemberText(v));
  }

  /** The text between the brackets. */
  function Inside(v: Json): string
    requires v.Arr? || v.Obj?
  {
    if v.Arr? then ElemsText(v.elems) else MembersText(v.members)
  }

  lemma InsideBrackets(v: Json)
    requires v.Arr? || v.Obj?
    ensures PrintText(v) == (if v.Arr? then "[" else "{") + Inside(v) + (if v.Arr? then "]" else "}")
  {
  }

  lemma ElemsEnd(es: seq<Json>, e: Json)
    ensures Inside(Arr(es + [e])) == (if es == [] then "" else Inside(Arr(es)) + ", ") + PrintText(e)
  {
    assert (es + [e])[..|es|] == es && (es + [e])[..|es| + 1] == es + [e];
    ElemsTextGrows(es + [e], |es|);
    hide PrintText, ElemsText;
  }

  lemma MembersEnd(ms: seq<Member>, m: Member)
    ensures Inside(Obj(ms + [m])) == (if ms == [] then "" else Inside(Obj(ms)) + ", ") + MemberText(m)
  {
    assert (ms + [m])[..|ms|] == ms && (ms + [m])[..|ms| + 1] == ms + [m];
    MembersTextGrows(ms + [m], |ms|);
    hide MemberText, MembersText;
  }

  lemma Associates(a: string, b: string, c: string)
    ensures a + ", " + b + ", " + c == a + ", " + (b + ", " + c)
    ensures a + ", " + ("" + c) == a + ", " + c && "" + c == c
  {
  }
}
