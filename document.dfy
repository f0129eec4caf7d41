/** The JSON-like document that the codec converts, as Python holds it after
    `json.load`: dicts keep their insertion order and never repeat a key. */
module Document {
  import opened Bytes

  datatype Value =
    | Null                   // None
    | Bool(b: bool)          // True / False
    | Int(i: int)
    | Float(bits: Word32)    // a float, kept as the float32 pattern struct.pack('f') gives it
    | Str(s: string)
    | List(items: seq<Value>)
    | Obj(entries: seq<Entry>)

  datatype Entry = Entry(key: string, val: Value)

  function Keys(es: seq<Entry>): (ks: seq<string>)
    ensures |ks| == |es| && forall i :: 0 <= i < |es| ==> ks[i] == es[i].key
  {
    if |es| == 0 then [] else [es[0].key] + Keys(es[1..])
  }

  /** What a Python dict guarantees: no key twice. */
  predicate DistinctKeys(es: seq<Entry>)
  {
    forall i, j :: 0 <= i < j < |es| ==> es[i].key != es[j].key
  }

  /** `d[key] = v` on a dict: an existing key keeps its place and gets the
      new value; a new key goes at the end. */
  function Put(es: seq<Entry>, key: string, v: Value): (r: seq<Entry>)
    ensures key in Keys(es) ==> |r| == |es|
    ensures key !in Keys(es) ==> r == es + [Entry(key, v)]
  {
    if |es| == 0 then [Entry(key, v)]
    else if es[0].key == key then [Entry(key, v)] + es[1..]
    else [es[0]] + Put(es[1..], key, v)
  }

  /** `d[key] = v` adds `key` to the dict's keys, at the end when it is new. */
  lemma {:induction false} PutKeys(es: seq<Entry>, key: string, v: Value)
    ensures Keys(Put(es, key, v)) == if key in Keys(es) then Keys(es) else Keys(es) + [key]
  {
    if |es| > 0 && es[0].key != key {
      PutKeys(es[1..], key, v);
      assert Keys(es) == [es[0].key] + Keys(es[1..]);
      assert Keys(Put(es, key, v)) == [es[0].key] + Keys(Put(es[1..], key, v));
    }
  }

  /** On a dict, `d[key] = v` gives the entry with that key the new value,
      keeps every other entry where it was, and still repeats no key. */
  lemma {:induction false} PutUpdates(es: seq<Entry>, key: string, v: Value)
    requires DistinctKeys(es)
    ensures key in Keys(es) ==> forall i :: 0 <= i < |es| ==>
              Put(es, key, v)[i] == if es[i].key == key then Entry(key, v) else es[i]
    ensures DistinctKeys(Put(es, key, v))
  {
    var r := Put(es, key, v);
    PutKeys(es, key, v);
    if key in Keys(es) {
      PutInPlace(es, key, v);
      assert forall i :: 0 <= i < |r| ==> r[i].key == Keys(r)[i] == Keys(es)[i] == es[i].key;
    } else {
      assert forall i :: 0 <= i < |es| ==> es[i].key == Keys(es)[i] != key;
    }
  }

  /** An existing key keeps its place and takes the new value. */
  lemma {:induction false} PutInPlace(es: seq<Entry>, key: string, v: Value)
    requires DistinctKeys(es) && key in Keys(es)
    ensures |Put(es, key, v)| == |es|
    ensures forall i :: 0 <= i < |es| ==>
              Put(es, key, v)[i] == if es[i].key == key then Entry(key, v) else es[i]
  {
    var r := Put(es, key, v);
    if es[0].key == key {
      forall i | 0 < i < |es| ensures es[i].key != key {
        assert es[0].key != es[i].key;
      }
    } else {
      assert Keys(es) == [es[0].key] + Keys(es[1..]);
      PutInPlace(es[1..], key, v);
    }
  }

  /** `d[key]`, or None when the key is missing. */
  function Get(es: seq<Entry>, key: string): (r: Option<Value>)
    ensures r.Some? <==> key in Keys(es)
    ensures r.Some? ==> exists i :: 0 <= i < |es| && es[i] == Entry(key, r.value)
  {
    if |es| == 0 then None
    else if es[0].key == key then Some(es[0].val)
    else Get(es[1..], key)
  }

  /** Assigning to the i-th key, when no earlier entry has that key, changes
      that entry's value only. */
  lemma {:induction false} PutAt(es: seq<Entry>, i: nat, v: Value)
    requires i < |es| && forall j :: 0 <= j < i ==> es[j].key != es[i].key
    ensures Put(es, es[i].key, v) == es[i := Entry(es[i].key, v)]
  {
    if i > 0 {
      PutAt(es[1..], i - 1, v);
      assert es[1..][i - 1 := Entry(es[i].key, v)] == es[i := Entry(es[i].key, v)][1..];
    }
  }

  /** Looking up the i-th key, when no earlier entry has that key. */
  lemma {:induction false} GetAt(es: seq<Entry>, i: nat)
    requires i < |es| && forall j :: 0 <= j < i ==> es[j].key != es[i].key
    ensures Get(es, es[i].key) == Some(es[i].val)
  {
    if i > 0 {
      GetAt(es[1..], i - 1);
    }
  }

  datatype Option<+T> = None | Some(value: T)
}
