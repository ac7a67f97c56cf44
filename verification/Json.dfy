/** JSON values; an object keeps its entries in insertion order. */
module Json {
  import opened Text

  datatype Json =
    | Null
    | Bool(b: bool)
    | Num(n: real)
    | Str(s: string)
    | Arr(items: seq<Json>)
    | Obj(entries: seq<Entry>)

  datatype Entry = Entry(key: string, value: Json)

  function Keys(es: seq<Entry>): set<string> {
    if es == [] then {} else {es[0].key} + Keys(es[1..])
  }

  /** The value under the first entry with this key. */
  function Lookup(es: seq<Entry>, key: string): (v: Option<Json>)
    ensures v.Some? <==> key in Keys(es)
  {
    if es == [] then None
    else if es[0].key == key then Some(es[0].value)
    else Lookup(es[1..], key)
  }

  /** Dictionary assignment: an existing key keeps its place, a new one goes last. */
  function Put(es: seq<Entry>, key: string, value: Json): seq<Entry> {
    if es == [] then [Entry(key, value)]
    else if es[0].key == key then [Entry(key, value)] + es[1..]
    else [es[0]] + Put(es[1..], key, value)
  }

  lemma {:induction false} LookupPut(es: seq<Entry>, key: string, value: Json, k: string)
    ensures Lookup(Put(es, key, value), k) == if k == key then Some(value) else Lookup(es, k)
    ensures Keys(Put(es, key, value)) == Keys(es) + {key}
  {
    if es == [] {
      assert [Entry(key, value)][1..] == [];
    } else if es[0].key == key {
      assert ([Entry(key, value)] + es[1..])[1..] == es[1..];
    } else {
      LookupPut(es[1..], key, value, k);
      var tail := Put(es[1..], key, value);
      assert ([es[0]] + tail)[1..] == tail;
    }
  }
}
