/** The JSON value tree of src/json.c, as a value, and the association list behind an object. */
module Values {

  datatype Option<+T> = None | Some(value: T)

  /** C `int`: 32 bits, two's complement. */
  type Int32 = i: int | -0x8000_0000 <= i < 0x8000_0000

  /** A `char *` is the string of its bytes before the terminating NUL: the char with code b stands for byte b. */
  datatype Json =
    | Null
    | Bool(b: bool)
    | Int(i: Int32)
    | Double(d: real)
    | Str(s: string)
    | Arr(elems: seq<Json>)
    | Obj(members: seq<Member>)

  /** An `object_list_entry`: what is kept under a key. */
  datatype Pair<+V> = Member(key: string, value: V)

  type Member = Pair<Json>

  /** Position of the first entry with this key, or the length of the list: the walk of `json_object_get`. */
  function Find<V>(ms: seq<Pair<V>>, key: string): (k: nat)
    ensures k <= |ms|
    ensures k < |ms| ==> ms[k].key == key
    ensures forall j :: 0 <= j < k ==> ms[j].key != key
  {
    if ms == [] then 0 else if ms[0].key == key then 0 else 1 + Find(ms[1..], key)
  }

  /** `json_object_get` on an object's entries. */
  function Lookup(ms: seq<Member>, key: string): Option<Json> {
    var k := Find(ms, key);
    if k < |ms| then Some(ms[k].value) else None
  }

  /** `json_object_get` on any value, NULL when it is not an object. */
  function Get(v: Json, key: string): Option<Json> {
    if v.Obj? then Lookup(v.members, key) else None
  }

  /** `json_object_del`: unlinks the first entry with this key. */
  function Without<V>(ms: seq<Pair<V>>, key: string): seq<Pair<V>> {
    var k := Find(ms, key);
    if k < |ms| then ms[..k] + ms[k + 1..] else ms
  }

  /** `json_object_add`: an older entry with the key goes, the new one is linked at the tail. */
  function With(ms: seq<Member>, key: string, v: Json): seq<Member> {
    Without(ms, key) + [Member(key, v)]
  }

  ghost predicate DistinctKeys(ms: seq<Member>) {
    forall i, j :: 0 <= i < j < |ms| ==> ms[i].key != ms[j].key
  }

  /** Every object in the tree has distinct keys. */
  ghost predicate Keyed(v: Json) {
    match v
    case Arr(es) => forall e | e in es :: Keyed(e)
    case Obj(ms) => DistinctKeys(ms) && forall m | m in ms :: Keyed(m.value)
    case _ => true
  }

  ghost predicate DoubleFree(v: Json) {
    match v
    case Double(_) => false
    case Arr(es) => forall e | e in es :: DoubleFree(e)
    case Obj(ms) => forall m | m in ms :: DoubleFree(m.value)
    case _ => true
  }

  /** With distinct keys a lookup finds exactly the entries there are. */
  lemma LookupFindsEntries(ms: seq<Member>, key: string, v: Json)
    requires DistinctKeys(ms)
    ensures Lookup(ms, key) == Some(v) <==> Member(key, v) in ms
  {
    if Member(key, v) in ms {
      var k :| 0 <= k < |ms| && ms[k] == Member(key, v);
      assert Find(ms, key) <= k;
    }
  }

  lemma LookupAgrees(ms: seq<Member>, us: seq<Member>, key: string)
    requires DistinctKeys(ms) && DistinctKeys(us)
    requires forall v :: Member(key, v) in ms <==> Member(key, v) in us
    ensures Lookup(ms, key) == Lookup(us, key)
  {
    if Lookup(ms, key).Some? {
      LookupFindsEntries(ms, key, Lookup(ms, key).value);
      LookupFindsEntries(us, key, Lookup(ms, key).value);
    } else if Lookup(us, key).Some? {
      LookupFindsEntries(us, key, Lookup(us, key).value);
      LookupFindsEntries(ms, key, Lookup(us, key).value);
    }
  }

  lemma WithoutEntries(ms: seq<Member>, key: string)
    requires DistinctKeys(ms)
    ensures DistinctKeys(Without(ms, key))
    ensures forall m :: m in Without(ms, key) <==> m in ms && m.key != key
  {
    var k, u := Find(ms, key), Without(ms, key);
    if k < |ms| {
      assert forall i :: 0 <= i < |u| ==> u[i] == ms[if i < k then i else i + 1];
      forall m | m in ms && m.key != key ensures m in u {
        var i :| 0 <= i < |ms| && ms[i] == m;
        assert u[if i < k then i else i - 1] == m;
      }
    }
  }

  /** `json_object_del` acts as removing one key from the map; the other entries keep their order. */
  lemma WithoutIsMapRemoval(ms: seq<Member>, key: string)
    requires DistinctKeys(ms)
    ensures DistinctKeys(Without(ms, key)) && Lookup(Without(ms, key), key) == None
    ensures forall other :: other != key ==> Lookup(Without(ms, key), other) == Lookup(ms, other)
  {
    WithoutEntries(ms, key);
    forall other | other != key ensures Lookup(Without(ms, key), other) == Lookup(ms, other) {
      LookupAgrees(Without(ms, key), ms, other);
    }
  }

  /** `json_object_add` acts as a map update that also moves the key to the tail. */
  lemma WithIsMapUpdate(ms: seq<Member>, key: string, v: Json)
    requires DistinctKeys(ms)
    ensures DistinctKeys(With(ms, key, v))
    ensures Lookup(With(ms, key, v), key) == Some(v)
    ensures forall other :: other != key ==> Lookup(With(ms, key, v), other) == Lookup(ms, other)
  {
    WithoutEntries(ms, key);
    var w := With(ms, key, v);
    assert w[|w| - 1] == Member(key, v);
    LookupFindsEntries(w, key, v);
    forall other | other != key ensures Lookup(w, other) == Lookup(ms, other) {
      LookupAgrees(w, ms, other);
    }
  }

  lemma WithKeepsKeyed(ms: seq<Member>, key: string, v: Json)
    requires Keyed(Obj(ms)) && Keyed(v)
    ensures Keyed(Obj(With(ms, key, v)))
  {
    WithoutEntries(ms, key);
    WithIsMapUpdate(ms, key, v);
    forall m | m in With(ms, key, v) ensures Keyed(m.value) {
      assert m == Member(key, v) || m in Without(ms, key);
    }
  }
}
