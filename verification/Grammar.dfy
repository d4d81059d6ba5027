/**
 The grammar of src/json.rl as a set of derivation trees. `array` and `object` are read as recursive
 nonterminals; a tree records every free choice of a derivation, down to the number of spaces.
 */
module Grammar {
  import opened Values
  import opened Lexical
  import opened Conversions

  datatype Bracket = Square | Curly

  datatype Cst =
    | CWord(w: Word)
    | CNumber(text: string)
    | CString(raw: string)
    | CBox(bracket: Bracket, lead: nat, done: seq<Item>, last: Option<Item>)  // (json_value s_r_s)* json_value sp

  /** `name` (in objects only), a value, and the spaces before and after the comma. */
  datatype Item = Item(key: Option<Key>, value: Cst, pre: nat, post: nat)

  /** '"' uni_token* '"' sp ":" sp */
  datatype Key = Key(raw: string, pre: nat, post: nat)

  // ----- the text a derivation yields -----

  function Spaces(n: nat): string { seq(n, _ => ' ') }

  function KeyText(k: Key): string { "\"" + k.raw + "\"" + Spaces(k.pre) + ":" + Spaces(k.post) }

  function HeadText(key: Option<Key>): string { if key.Some? then KeyText(key.value) else "" }

  function OpenText(b: Bracket): string { if b == Square then "[" else "{" }
  function CloseText(b: Bracket): string { if b == Square then "]" else "}" }

  function Text(v: Cst): string
    decreases v, 1
  {
    match v
    case CWord(w) => Spelling(w)
    case CNumber(t) => t
    case CString(raw) => "\"" + raw + "\""
    case CBox(b, lead, done, last) =>
      OpenText(b) + Spaces(lead) + ItemsText(done) + (if last.Some? then EntryText(last.value) else "") + CloseText(b)
  }

  function EntryText(i: Item): string
    decreases i, 0
  {
    HeadText(i.key) + Text(i.value) + Spaces(i.pre)
  }

  function ItemsText(items: seq<Item>): string
    decreases items, 0
  {
    if items == [] then ""
    else
      var i := items[|items| - 1];
      ItemsText(items[..|items| - 1]) + EntryText(i) + "," + Spaces(i.post)
  }

  // ----- the value a derivation stands for -----

  function EmptyBox(b: Bracket): Json { if b == Square then Arr([]) else Obj([]) }

  /** One more entry: appended to an array; in an object a later duplicate key replaces the earlier one, at the tail. */
  function WithEntry(parent: Json, key: Option<Key>, v: Json): Json {
    match parent
    case Arr(es) => Arr(es + [v])
    case Obj(ms) => if key.Some? then Obj(With(ms, key.value.raw, v)) else parent
    case _ => parent
  }

  function Tree(v: Cst): Json
    decreases v, 1
  {
    match v
    case CWord(w) => WordValue(w)
    case CNumber(t) => if IsInteger(t) then Int(IntValue(t)) else Double(RealValue(t))
    case CString(raw) => Str(raw)
    case CBox(b, _, done, last) =>
      if last.Some? then WithEntry(Contents(b, done), last.value.key, EntryTree(last.value)) else Contents(b, done)
  }

  function EntryTree(i: Item): Json
    decreases i, 0
  {
    Tree(i.value)
  }

  function Contents(b: Bracket, items: seq<Item>): (r: Json)
    ensures if b == Square then r.Arr? else r.Obj?
    decreases items, 0
  {
    if items == [] then EmptyBox(b)
    else
      var i := items[|items| - 1];
      WithEntry(Contents(b, items[..|items| - 1]), i.key, EntryTree(i))
  }

  // ----- which trees are derivations -----

  ghost predicate Derives(v: Cst)
    decreases v, 1
  {
    match v
    case CWord(_) => true
    case CNumber(t) => IsInteger(t) || IsFloat(t)
    case CString(raw) => IsText(raw)
    case CBox(b, _, done, last) =>
      && (forall i | i in done :: DerivesItem(b, i))
      && (if last.Some? then DerivesItem(b, last.value) else done == [])
  }

  ghost predicate DerivesItem(b: Bracket, i: Item)
    decreases i, 0
  {
    && (i.key.Some? <==> b == Curly)
    && (i.key.Some? ==> IsText(i.key.value.raw))
    && Derives(i.value)
  }

  /** A stream of top-level arrays and objects, with nothing between them. */
  function StreamText(vs: seq<Cst>): string {
    if vs == [] then "" else StreamText(vs[..|vs| - 1]) + Text(vs[|vs| - 1])
  }

  function Trees(vs: seq<Cst>): seq<Json> {
    if vs == [] then [] else Trees(vs[..|vs| - 1]) + [Tree(vs[|vs| - 1])]
  }

  ghost predicate DerivesStream(vs: seq<Cst>) {
    forall v | v in vs :: v.CBox? && Derives(v)
  }
}
