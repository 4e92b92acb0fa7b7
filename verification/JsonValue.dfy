/** JSON values over UTF-16 code units, and what they mean: objects are unordered maps. */
module JsonValue {
  type Unit = u: int | 0 <= u < 0x1_0000
  type Text = seq<Unit>

  /** The integers that a JSON number keeps exactly. */
  type SafeInteger = n: int | -9007199254740991 <= n <= 9007199254740991

  /** An object lists its own properties in their insertion order; an array element or a property may
      turn out to be undefined at run time. */
  datatype Json =
    | Null | Undefined | Bool(b: bool) | Num(n: SafeInteger) | Str(s: Text)
    | Arr(items: seq<Json>) | Obj(entries: seq<Entry>)

  datatype Entry = Entry(key: Text, value: Json)

  // ---- what a value means ----

  datatype Value =
    | VNull | VUndefined | VBool(b: bool) | VNum(n: int) | VStr(s: Text)
    | VArr(items: seq<Value>) | VObj(fields: map<Text, Value>)

  function Meaning(v: Json): Value
    decreases v
  {
    match v
    case Null => VNull
    case Bool(b) => VBool(b)
    case Num(n) => VNum(n)
    case Str(s) => VStr(s)
    case Arr(items) => VArr(MeaningItems(items))
    case Obj(entries) => VObj(MeaningEntries(entries))
    case Undefined => VUndefined
  }

  function MeaningItems(items: seq<Json>): (r: seq<Value>)
    ensures |r| == |items|
    ensures forall k :: 0 <= k < |items| ==> r[k] == Meaning(items[k])
    decreases items
  {
    if items == [] then [] else MeaningItems(items[..|items| - 1]) + [Meaning(items[|items| - 1])]
  }

  function MeaningEntries(entries: seq<Entry>): (r: map<Text, Value>)
    ensures forall k :: k in r <==> exists i :: 0 <= i < |entries| && entries[i].key == k
    decreases entries
  {
    if entries == [] then map[]
    else
      var last := entries[|entries| - 1];
      MeaningEntries(entries[..|entries| - 1])[last.key := Meaning(last.value)]
  }

  predicate DistinctKeys(entries: seq<Entry>) {
    forall i, j :: 0 <= i < j < |entries| ==> entries[i].key != entries[j].key
  }

  /** No object repeats a key. */
  predicate Proper(v: Json)
    decreases v
  {
    match v
    case Arr(items) => forall k :: 0 <= k < |items| ==> Proper(items[k])
    case Obj(entries) => DistinctKeys(entries) && forall k :: 0 <= k < |entries| ==> Proper(entries[k].value)
    case _ => true
  }

  predicate Defined(v: Json)
    decreases v
  {
    match v
    case Arr(items) => forall k :: 0 <= k < |items| ==> Defined(items[k])
    case Obj(entries) => forall k :: 0 <= k < |entries| ==> Defined(entries[k].value)
    case Undefined => false
    case _ => true
  }
}
