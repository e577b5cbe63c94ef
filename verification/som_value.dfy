/**
 The boxed value that crosses the boundary between native objects and the
 script engine (SOM_VALUE). Its internal representation and its coercion
 rules live outside the object-model layer; this module keeps only what the
 thunks and the reflection utility rely on:
 - boxing a native value (the SOM_VALUE(x) constructor) is `Box`;
 - `make_error(msg)` is `Error`;
 - `get<T>()` is a coercion supplied by the caller as a function parameter;
 - `set_item(key, val)` turns an undefined value into a map and then
   inserts or replaces one key of it, keeping insertion order.
 */
module SomValue {

  datatype Option<+T> = None | Some(value: T)

  /** A boxed value over native values of type N. The default value is
      `Undefined`. */
  datatype Value<N> =
    | Undefined
    | Box(native: N)
    | Error(message: string)
    | Map(entries: seq<(string, Value<N>)>)

  /** `get<T>()`: coerce a boxed value to the native type named by the tag. */
  type Coercion<!Ty, !N> = (Ty, Value<N>) -> N

  /** True iff some entry of the map carries the key. */
  ghost predicate HasKey<N>(entries: seq<(string, Value<N>)>, key: string) {
    exists i :: 0 <= i < |entries| && entries[i].0 == key
  }

  /** A map value never holds the same key twice. */
  ghost predicate DistinctKeys<N>(entries: seq<(string, Value<N>)>) {
    forall i, j :: 0 <= i < j < |entries| ==> entries[i].0 != entries[j].0
  }

  /** The value stored under a key, if any (the first entry with that key). */
  function Lookup<N>(entries: seq<(string, Value<N>)>, key: string): (r: Option<Value<N>>)
    ensures r.None? <==> !HasKey(entries, key)
    ensures r.Some? ==> exists i :: 0 <= i < |entries| && entries[i] == (key, r.value)
  {
    if entries == [] then None
    else if entries[0].0 == key then Some(entries[0].1)
    else
      var r := Lookup(entries[1..], key);
      assert forall i :: 0 < i < |entries| ==> entries[i] == entries[1..][i - 1];
      assert r.Some? ==> exists i :: 0 <= i < |entries[1..]| && entries[1..][i] == (key, r.value);
      r
  }

  lemma HasKeyCons<N>(e: (string, Value<N>), entries: seq<(string, Value<N>)>)
    ensures forall k :: HasKey([e] + entries, k) <==> e.0 == k || HasKey(entries, k)
  {
    var s := [e] + entries;
    assert HasKey(s, e.0) by { assert s[0] == e; }
    forall k | HasKey(entries, k)
      ensures HasKey(s, k)
    {
      var i :| 0 <= i < |entries| && entries[i].0 == k;
      assert s[i + 1] == entries[i];
    }
    forall k | HasKey(s, k) && e.0 != k
      ensures HasKey(entries, k)
    {
      var i :| 0 <= i < |s| && s[i].0 == k;
      assert i > 0 && entries[i - 1] == s[i];
    }
  }

  lemma DistinctKeysCons<N>(e: (string, Value<N>), entries: seq<(string, Value<N>)>)
    ensures DistinctKeys([e] + entries) <==> !HasKey(entries, e.0) && DistinctKeys(entries)
  {
    var s := [e] + entries;
    assert forall i :: 0 <= i < |entries| ==> s[i + 1] == entries[i];
    if DistinctKeys(s) {
      forall i | 0 <= i < |entries|
        ensures entries[i].0 != e.0
      {
        assert s[0] == e && s[i + 1] == entries[i];
      }
    }
    if !HasKey(entries, e.0) && DistinctKeys(entries) {
      forall i, j | 0 <= i < j < |s|
        ensures s[i].0 != s[j].0
      {
        if i == 0 {
          assert s[j] == entries[j - 1];
        } else {
          assert s[i] == entries[i - 1] && s[j] == entries[j - 1];
        }
      }
    }
  }

  /** Insert-or-replace on the entries of a map: a present key keeps its
      position and gets the new value, an absent key is appended. */
  function Put<N>(entries: seq<(string, Value<N>)>, key: string, item: Value<N>): (r: seq<(string, Value<N>)>)
    ensures |r| == |entries| || r == entries + [(key, item)]
  {
    if entries == [] then [(key, item)]
    else if entries[0].0 == key then [(key, item)] + entries[1..]
    else [entries[0]] + Put(entries[1..], key, item)
  }

  /** After a put, the key holds the new item and every other key is as it was. */
  lemma {:induction false} PutLookup<N>(entries: seq<(string, Value<N>)>, key: string, item: Value<N>)
    ensures Lookup(Put(entries, key, item), key) == Some(item)
    ensures forall k :: k != key ==> Lookup(Put(entries, key, item), k) == Lookup(entries, k)
  {
    var r := Put(entries, key, item);
    if entries != [] {
      assert r[1..] == (if entries[0].0 == key then entries[1..] else Put(entries[1..], key, item));
      if entries[0].0 != key {
        PutLookup(entries[1..], key, item);
      }
    }
  }

  /** A put adds exactly its own key to the key set; it appends only when
      the key was absent. */
  lemma {:induction false} PutKeys<N>(entries: seq<(string, Value<N>)>, key: string, item: Value<N>)
    ensures forall k :: HasKey(Put(entries, key, item), k) <==> HasKey(entries, k) || k == key
    ensures !HasKey(entries, key) ==> Put(entries, key, item) == entries + [(key, item)]
    ensures HasKey(entries, key) ==> |Put(entries, key, item)| == |entries|
  {
    var r := Put(entries, key, item);
    if entries == [] {
      HasKeyCons((key, item), []);
      assert [(key, item)] + [] == r;
    } else {
      assert entries == [entries[0]] + entries[1..];
      HasKeyCons(entries[0], entries[1..]);
      if entries[0].0 == key {
        HasKeyCons((key, item), entries[1..]);
      } else {
        var rest := Put(entries[1..], key, item);
        PutKeys(entries[1..], key, item);
        HasKeyCons(entries[0], rest);
        if !HasKey(entries, key) {
          assert r == [entries[0]] + (entries[1..] + [(key, item)]);
        }
      }
    }
  }

  /** A put never makes a map hold a key twice. */
  lemma {:induction false} PutDistinct<N>(entries: seq<(string, Value<N>)>, key: string, item: Value<N>)
    ensures DistinctKeys(entries) ==> DistinctKeys(Put(entries, key, item))
  {
    if entries != [] && DistinctKeys(entries) {
      assert entries == [entries[0]] + entries[1..];
      DistinctKeysCons(entries[0], entries[1..]);
      if entries[0].0 == key {
        DistinctKeysCons((key, item), entries[1..]);
      } else {
        var rest := Put(entries[1..], key, item);
        PutDistinct(entries[1..], key, item);
        PutKeys(entries[1..], key, item);
        DistinctKeysCons(entries[0], rest);
      }
    }
  }

  /** The value a boxed value holds under a key: a map's entry, nothing for
      any other kind of value. */
  function Item<N>(v: Value<N>, key: string): Option<Value<N>> {
    if v.Map? then Lookup(v.entries, key) else None
  }

  /** `set_item(key, item)` on a value that is either still the default or
      already a map: the result is a map holding `item` under `key` and
      every other key as before. */
  function SetItem<N>(v: Value<N>, key: string, item: Value<N>): (r: Value<N>)
    requires v.Undefined? || v.Map?
    ensures r.Map?
    ensures Item(r, key) == Some(item)
    ensures forall k :: k != key ==> Item(r, k) == Item(v, k)
    ensures (v.Map? ==> DistinctKeys(v.entries)) ==> DistinctKeys(r.entries)
  {
    match v
    case Undefined =>
      assert Lookup([(key, item)][1..], key) == None;
      Map([(key, item)])
    case Map(entries) =>
      PutLookup(entries, key, item);
      PutDistinct(entries, key, item);
      Map(Put(entries, key, item))
  }
}
