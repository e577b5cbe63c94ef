/**
 asset_to_map: the reflection utility that packs an asset's properties
 into a map value, built only from the asset's passport.

 The loop calls every getter of the property table, in table order, on a
 fresh default value; each getter that reports TRUE contributes its value
 under the name of its atom. An asset without a passport gives the default
 value, and so does an asset none of whose getters reports TRUE.
 */
module Reflection {
  import opened Atoms
  import opened SomValue
  import opened NativeMembers
  import opened Accessors
  import opened Passports

  /** The (name, value) pairs of a map, in order. */
  type Entries<N> = seq<(string, Value<N>)>

  // ---------------------------------------------------------------------
  // The utility as written
  // ---------------------------------------------------------------------

  /** The loop of asset_to_map over the remaining properties `props`, with
      the map built so far. A getter may change the receiver and the next
      getter sees the change; an exception escaping a getter ends the loop
      and escapes asset_to_map. */
  function Collect<T, N>(atoms: AtomTable, props: seq<PropertyDef<T, N>>, thing: T, acc: Value<N>): (r: (T, Outcome<Value<N>>))
    requires acc.Undefined? || acc.Map?
    ensures r.1.Returns? ==> r.1.value.Undefined? || r.1.value.Map?
    ensures r.1.Returns? && acc.Map? ==> r.1.value.Map?
    decreases |props|
  {
    if props == [] then (thing, Returns(acc))
    else
      match props[0].getter(thing, Undefined)
      case Raised(after, e) => (after, Throws(e))
      case Completed(ok, after, val) =>
        var acc' := if ok then SetItem(acc, atoms.resolve(props[0].name), val) else acc;
        Collect(atoms, props[1..], after, acc')
  }

  /** asset_to_map(ptr): the asset's passport, if it has one, is a parameter;
      the property table is the first n_properties entries of the array. */
  function AssetToMap<T, N>(atoms: AtomTable, passport: Option<Passport<T, N>>, thing: T): (r: (T, Outcome<Value<N>>))
    requires passport.Some? ==> passport.value.nProperties <= |passport.value.properties|
    ensures passport.None? ==> r == (thing, Returns(Undefined))
    ensures r.1.Returns? ==> r.1.value.Undefined? || r.1.value.Map?
  {
    match passport
    case None => (thing, Returns(Undefined))
    case Some(psp) => Collect(atoms, psp.properties[..psp.nProperties], thing, Undefined)
  }

  // ---------------------------------------------------------------------
  // What it computes: the harvested pairs, and the map they make
  // ---------------------------------------------------------------------

  /** The pairs asset_to_map gathers, without any map semantics: one pair
      (atom name, value) for each property whose getter reports TRUE, in
      table order; a property whose getter reports FALSE contributes none. */
  function Harvest<T, N>(atoms: AtomTable, props: seq<PropertyDef<T, N>>, thing: T): (r: (T, Outcome<Entries<N>>))
    ensures r.1.Returns? ==> |r.1.value| <= |props|
    decreases |props|
  {
    if props == [] then (thing, Returns([]))
    else
      match props[0].getter(thing, Undefined)
      case Raised(after, e) => (after, Throws(e))
      case Completed(ok, after, val) =>
        var (last, rest) := Harvest(atoms, props[1..], after);
        match rest
        case Throws(e) => (last, Throws(e))
        case Returns(es) => (last, Returns(if ok then [(atoms.resolve(props[0].name), val)] + es else es))
  }

  /** The value given last for a key in a list of pairs. */
  function LastValue<N>(es: Entries<N>, key: string): (r: Option<Value<N>>)
    ensures r.None? <==> !HasKey(es, key)
    decreases |es|
  {
    if es == [] then None
    else
      var later := LastValue(es[1..], key);
      assert es == [es[0]] + es[1..];
      HasKeyCons(es[0], es[1..]);
      if later.Some? then later
      else if es[0].0 == key then Some(es[0].1)
      else None
  }

  /** What successive set_item calls leave, one call per pair in order,
      starting from `acc`. */
  function SetAll<N>(acc: Value<N>, es: Entries<N>): (v: Value<N>)
    requires acc.Undefined? || acc.Map?
    ensures v.Undefined? || v.Map?
    ensures v.Undefined? <==> acc.Undefined? && es == []
    ensures (acc.Map? ==> DistinctKeys(acc.entries)) ==> (v.Map? ==> DistinctKeys(v.entries))
    decreases |es|
  {
    if es == [] then acc
    else SetAll(SetItem(acc, es[0].0, es[0].1), es[1..])
  }

  /** After successive set_item calls, a key holds the value given last for
      it in the pairs, or else the one it held before the calls. */
  lemma {:induction false} SetAllItem<N>(acc: Value<N>, es: Entries<N>, k: string)
    requires acc.Undefined? || acc.Map?
    ensures Item(SetAll(acc, es), k) == (if HasKey(es, k) then LastValue(es, k) else Item(acc, k))
    decreases |es|
  {
    if es != [] {
      var e := es[0];
      var acc' := SetItem(acc, e.0, e.1);
      var rest := es[1..];
      SetAllItem(acc', rest, k);
      assert SetAll(acc, es) == SetAll(acc', rest);
      assert es == [e] + rest;
      HasKeyCons(e, rest);
      if HasKey(rest, k) {
        assert LastValue(es, k) == LastValue(rest, k);
      } else if e.0 == k {
        assert LastValue(es, k) == Some(e.1);
        assert Item(acc', k) == Some(e.1);
      } else {
        assert !HasKey(es, k);
        assert Item(acc', k) == Item(acc, k);
      }
    }
  }

  /** set_item calls with names new to a map and distinct from each other
      append their pairs to it, in order. */
  lemma {:induction false} SetAllAppends<N>(a: Entries<N>, es: Entries<N>)
    requires DistinctKeys(a + es)
    ensures SetAll(Map(a), es) == Map(a + es)
    decreases |es|
  {
    if es == [] {
      assert a + [] == a;
    } else {
      var e := es[0];
      var all := a + es;
      assert all[|a|] == e;
      assert !HasKey(a, e.0) by {
        forall i | 0 <= i < |a|
          ensures a[i].0 != e.0
        {
          assert all[i] == a[i];
        }
      }
      PutKeys(a, e.0, e.1);
      assert SetItem(Map(a), e.0, e.1) == Map(a + [e]);
      assert (a + [e]) + es[1..] == all;
      SetAllAppends(a + [e], es[1..]);
    }
  }

  /** The loop of asset_to_map, started on the default value or on any map,
      ends on that value with the harvest of the properties set into it, in
      order; it stops with the
      same exception, and leaves the receiver in the same state, as the
      harvest. */
  lemma {:induction false} CollectSetsHarvest<T, N>(atoms: AtomTable, props: seq<PropertyDef<T, N>>, thing: T, acc: Value<N>)
    requires acc.Undefined? || acc.Map?
    ensures Collect(atoms, props, thing, acc).0 == Harvest(atoms, props, thing).0
    ensures Collect(atoms, props, thing, acc).1.Returns? <==> Harvest(atoms, props, thing).1.Returns?
    ensures Harvest(atoms, props, thing).1.Throws? ==>
              Collect(atoms, props, thing, acc).1.exception == Harvest(atoms, props, thing).1.exception
    ensures Harvest(atoms, props, thing).1.Returns? ==>
              Collect(atoms, props, thing, acc).1.value == SetAll(acc, Harvest(atoms, props, thing).1.value)
    decreases |props|
  {
    if props != [] {
      var reply := props[0].getter(thing, Undefined);
      if reply.Completed? {
        var tail := props[1..];
        var next := Harvest(atoms, tail, reply.thing);
        if reply.ok {
          var x := (atoms.resolve(props[0].name), reply.out);
          var acc' := SetItem(acc, x.0, x.1);
          CollectSetsHarvest(atoms, tail, reply.thing, acc');
          if next.1.Returns? {
            var es := [x] + next.1.value;
            assert es[0] == x && es[1..] == next.1.value;
            assert SetAll(acc, es) == SetAll(acc', next.1.value);
          }
        } else {
          CollectSetsHarvest(atoms, tail, reply.thing, acc);
        }
      }
    }
  }

  /** asset_to_map packs exactly the harvest: it ends in the same receiver
      state, propagates the same exception, and otherwise returns the
      harvested pairs set into the default value. That result is the default
      value exactly when no getter reported TRUE; it has a key exactly when
      some harvested pair has that name, holding the value gathered last
      under it; and when the names differ it is the map of the harvested
      pairs themselves, in table order. */
  lemma AssetToMapPacksHarvest<T, N>(atoms: AtomTable, psp: Passport<T, N>, thing: T)
    requires psp.nProperties <= |psp.properties|
    ensures var harvest := Harvest(atoms, psp.properties[..psp.nProperties], thing);
            var packed := AssetToMap(atoms, Some(psp), thing);
            && packed.0 == harvest.0
            && (packed.1.Returns? <==> harvest.1.Returns?)
            && (harvest.1.Throws? ==> packed.1.exception == harvest.1.exception)
            && (harvest.1.Returns? ==>
                  var es := harvest.1.value;
                  var result := packed.1.value;
                  && (result.Undefined? <==> es == [])
                  && (forall k :: HasKey(es, k) <==> result.Map? && HasKey(result.entries, k))
                  && (forall k :: Item(result, k) == LastValue(es, k))
                  && (DistinctKeys(es) ==> result == if es == [] then Undefined else Map(es)))
  {
    var props := psp.properties[..psp.nProperties];
    CollectSetsHarvest(atoms, props, thing, Undefined);
    var harvest := Harvest(atoms, props, thing);
    if harvest.1.Returns? {
      var es := harvest.1.value;
      var result := SetAll(Undefined, es);
      forall k
        ensures HasKey(es, k) <==> result.Map? && HasKey(result.entries, k)
        ensures Item(result, k) == LastValue(es, k)
      {
        SetAllItem(Undefined, es, k);
      }
      if DistinctKeys(es) && es != [] {
        assert es == [es[0]] + es[1..];
        SetAllAppends([es[0]], es[1..]);
      }
    }
  }

  // ---------------------------------------------------------------------
  // Which properties are harvested
  // ---------------------------------------------------------------------

  /** A getter that, on this receiver and a fresh value, returns (with TRUE
      or FALSE) and leaves the receiver as it was: every data-member getter,
      and every const getter that does not throw. */
  ghost predicate Quiet<T, N>(d: PropertyDef<T, N>, thing: T) {
    var reply := d.getter(thing, Undefined);
    reply.Completed? && reply.thing == thing
  }

  /** The getter reports TRUE on this receiver and a fresh value. */
  ghost predicate Reports<T, N>(d: PropertyDef<T, N>, thing: T) {
    var reply := d.getter(thing, Undefined);
    reply.Completed? && reply.ok
  }

  /** Some property of the table is named `key` and its getter reports TRUE. */
  ghost predicate SomeReports<T, N>(atoms: AtomTable, props: seq<PropertyDef<T, N>>, thing: T, key: string) {
    exists i :: 0 <= i < |props| && Reports(props[i], thing) && atoms.resolve(props[i].name) == key
  }

  /** With quiet getters, asset_to_map's harvest leaves the receiver alone,
      throws nothing, and holds a name exactly when some property of that
      name has a getter reporting TRUE; properties whose getter reports
      FALSE are skipped. */
  lemma {:induction false} HarvestOfQuietGetters<T, N>(atoms: AtomTable, props: seq<PropertyDef<T, N>>, thing: T)
    requires forall i :: 0 <= i < |props| ==> Quiet(props[i], thing)
    ensures var (after, gathered) := Harvest(atoms, props, thing);
            && after == thing
            && gathered.Returns?
            && forall k :: HasKey(gathered.value, k) <==> SomeReports(atoms, props, thing, k)
    decreases |props|
  {
    if props != [] {
      var tail := props[1..];
      assert forall i :: 0 <= i < |tail| ==> tail[i] == props[i + 1];
      HarvestOfQuietGetters(atoms, tail, thing);
      var reply := props[0].getter(thing, Undefined);
      assert Quiet(props[0], thing);
      var es := Harvest(atoms, tail, thing).1.value;
      var head := (atoms.resolve(props[0].name), reply.out);
      HasKeyCons(head, es);
      forall k
        ensures SomeReports(atoms, props, thing, k)
            <==> (Reports(props[0], thing) && head.0 == k) || SomeReports(atoms, tail, thing, k)
      {
        if SomeReports(atoms, props, thing, k) {
          var i :| 0 <= i < |props| && Reports(props[i], thing) && atoms.resolve(props[i].name) == k;
          if i > 0 {
            assert tail[i - 1] == props[i];
          }
        }
        if SomeReports(atoms, tail, thing, k) {
          var i :| 0 <= i < |tail| && Reports(tail[i], thing) && atoms.resolve(tail[i].name) == k;
          assert props[i + 1] == tail[i];
        }
      }
    }
  }

  /** asset_to_map on an asset whose getters are all quiet: the receiver is
      left alone, nothing is thrown, the result has a key exactly when some
      property of that name has a getter reporting TRUE, and the result is
      the default value exactly when no getter reports TRUE. */
  lemma AssetToMapOfQuietGetters<T, N>(atoms: AtomTable, psp: Passport<T, N>, thing: T)
    requires psp.nProperties <= |psp.properties|
    requires forall i :: 0 <= i < psp.nProperties ==> Quiet(psp.properties[i], thing)
    ensures var (after, result) := AssetToMap(atoms, Some(psp), thing);
            var props := psp.properties[..psp.nProperties];
            && after == thing
            && result.Returns?
            && (result.value.Undefined? <==> forall i :: 0 <= i < |props| ==> !Reports(props[i], thing))
            && (forall k :: result.value.Map? && HasKey(result.value.entries, k) <==> SomeReports(atoms, props, thing, k))
  {
    var props := psp.properties[..psp.nProperties];
    HarvestOfQuietGetters(atoms, props, thing);
    AssetToMapPacksHarvest(atoms, psp, thing);
    var es := Harvest(atoms, props, thing).1.value;
    if es != [] {
      assert HasKey(es, es[0].0);
      assert SomeReports(atoms, props, thing, es[0].0);
    }
    if exists i :: 0 <= i < |props| && Reports(props[i], thing) {
      var i :| 0 <= i < |props| && Reports(props[i], thing);
      assert SomeReports(atoms, props, thing, atoms.resolve(props[i].name));
    }
  }
}
