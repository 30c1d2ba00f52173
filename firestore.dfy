/**
 * Loosely typed Firestore data. A document is a map from field names to values; a field
 * holding `null` reads the same as a missing field. Numbers are the Long values Firestore
 * stores for integers (doubles are not modelled).
 */
module Firestore {
  import opened Wrappers
  import Text

  datatype Value =
    | Null
    | Bool(b: bool)
    | Str(s: string)
    | Num(n: int)
    | Timestamp(seconds: int, nanos: int)
    | MapV(entries: seq<(string, Value)>)
    | ListV(items: seq<Value>)

  type Doc = map<string, Value>

  /** `data[key]`, with a stored null read as absent. */
  function Field(d: Doc, key: string): (r: Option<Value>)
    ensures r.Some? <==> key in d && d[key] != Null
    ensures r.Some? ==> r.value == d[key]
  {
    if key in d && d[key] != Null then Some(d[key]) else None
  }

  /** `data[key] as? String`. */
  function StrField(d: Doc, key: string): (r: Option<string>)
    ensures r.Some? <==> key in d && d[key].Str?
    ensures r.Some? ==> d[key] == Str(r.value)
  {
    if key in d && d[key].Str? then Some(d[key].s) else None
  }

  /** The first of the keys whose value is not null (`d[a] ?: d[b] ?: …`). */
  function FirstField(d: Doc, keys: seq<string>): (r: Option<Value>)
    ensures r.None? <==> forall i :: 0 <= i < |keys| ==> Field(d, keys[i]).None?
    ensures r.Some? ==> exists i :: 0 <= i < |keys| && Field(d, keys[i]) == r
                          && forall j :: 0 <= j < i ==> Field(d, keys[j]).None?
  {
    if keys == [] then None
    else if Field(d, keys[0]).Some? then Field(d, keys[0])
    else
      var r := FirstField(d, keys[1..]);
      assert forall i :: 1 <= i < |keys| ==> keys[i] == keys[1..][i - 1];
      r
  }

  /** `toString()` of a value, as Kotlin renders the Java objects Firestore returns. */
  function ToText(v: Value): string
    decreases v, 1
  {
    match v
    case Null => "null"
    case Bool(b) => if b then "true" else "false"
    case Str(s) => s
    case Num(n) => Text.IntToString(n)
    case Timestamp(sec, ns) =>
      "Timestamp(seconds=" + Text.IntToString(sec) + ", nanoseconds=" + Text.IntToString(ns) + ")"
    case MapV(es) => "{" + EntriesText(v, es) + "}"
    case ListV(xs) => "[" + ItemsText(v, xs) + "]"
  }

  function EntriesText(parent: Value, es: seq<(string, Value)>): string
    requires forall e :: e in es ==> e.1 < parent
    decreases parent, 0, |es|
  {
    if es == [] then ""
    else
      var head := es[0].0 + "=" + ToText(es[0].1);
      if |es| == 1 then head else head + ", " + EntriesText(parent, es[1..])
  }

  function ItemsText(parent: Value, xs: seq<Value>): string
    requires forall x :: x in xs ==> x < parent
    decreases parent, 0, |xs|
  {
    if xs == [] then ""
    else
      assert xs[0] in xs;
      assert forall x :: x in xs[1..] ==> x in xs;
      if |xs| == 1 then ToText(xs[0])
      else ToText(xs[0]) + ", " + ItemsText(parent, xs[1..])
  }

  /** `data[key]?.toString()`. */
  function TextField(d: Doc, key: string): (r: Option<string>)
    ensures r.Some? <==> Field(d, key).Some?
    ensures StrField(d, key).Some? ==> r == StrField(d, key)
  {
    match Field(d, key)
    case None => None
    case Some(v) => Some(ToText(v))
  }

  /** `set(fields, SetOptions.merge())`: the given fields replace or join the stored ones. */
  function Merge(d: Doc, fields: Doc): (r: Doc)
    ensures r.Keys == d.Keys + fields.Keys
    ensures forall k :: k in fields ==> r[k] == fields[k]
    ensures forall k :: k in d && k !in fields ==> r[k] == d[k]
  {
    map k | k in d.Keys + fields.Keys :: if k in fields then fields[k] else d[k]
  }
}
