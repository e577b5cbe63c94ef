/**
 The per-class descriptor (som_passport_t) and its entries
 (som_property_def_t, som_method_def_t), together with the registration
 macros that fill them in: SOM_PASSPORT_BEGIN[_EX], SOM_PASSPORT_FLAGS,
 SOM_FUNCS / SOM_FUNC / SOM_FUNC_EX, SOM_PROPS / SOM_PROP / SOM_RO_PROP /
 SOM_VIRTUAL_PROP / SOM_RO_VIRTUAL_PROP, and SOM_ITEM_GET / SOM_ITEM_SET /
 SOM_ITEM_NEXT.

 The descriptor stores accessors as function pointers; here they are
 function values, and a macro builds the closure of a thunk over the native
 member it adapts. The property and method tables keep their C shape, an
 array and a separate count.
 */
module Passports {
  import opened Atoms
  import opened SomValue
  import opened NativeMembers
  import opened Accessors
  import opened Thunks

  /** The UINT64 flags word of a passport. */
  newtype Flags = x: int | 0 <= x < 0x1_0000_0000_0000_0000

  /** som_passport_flags: a sealed object cannot get new properties, an
      extendable one can. */
  const SealedObject: Flags := 0x00
  const ExtendableObject: Flags := 0x01

  /** som_property_def_t: a name atom, a getter, and a setter that is absent
      (null) for a read-only property. */
  datatype PropertyDef<!T, !N> = PropertyDef(name: Atom, getter: PropGetter<T, N>, setter: Option<PropSetter<T, N>>)

  /** som_method_def_t: a name atom, the declared number of parameters, and
      the invoker. */
  datatype MethodDef<!T, !N> = MethodDef(name: Atom, params: nat, func: MethodInvoker<T, N>)

  /** som_passport_t. The item accessors are absent (null) unless the class
      registers them. */
  datatype Passport<!T, !N> = Passport(
    flags: Flags,
    name: Atom,
    itemGetter: Option<ItemGetter<T, N>>,
    itemSetter: Option<ItemSetter<T, N>>,
    itemNext: Option<ItemNext<T, N>>,
    properties: seq<PropertyDef<T, N>>, nProperties: nat,
    methods: seq<MethodDef<T, N>>, nMethods: nat)

  /** Each count is the length of its array, as SOM_PROPS and SOM_FUNCS set them. */
  ghost predicate WellFormed<T, N>(p: Passport<T, N>) {
    p.nProperties == |p.properties| && p.nMethods == |p.methods|
  }

  /** The arity contract of a method entry: its invoker can be called
      whenever argv holds at least `params` entries, and it looks at no entry
      past those. */
  ghost predicate ReadsDeclaredArguments<T(!new), N(!new)>(d: MethodDef<T, N>) {
    && (forall thing, argv, result :: d.params <= |argv| ==> d.func.requires(thing, argv, result))
    && (forall thing, argv, argv', result ::
          d.params <= |argv| && d.params <= |argv'| && argv[..d.params] == argv'[..d.params] ==>
            d.func(thing, argv, result) == d.func(thing, argv', result))
  }

  // ---------------------------------------------------------------------
  // Entries
  // ---------------------------------------------------------------------

  /** SOM_PROP(name): a data member exposed read-write under the atom of its name. */
  function SomProp<T(!new), Ty, N(!new)>(atoms: AtomTable, get: Coercion<Ty, N>, name: string, f: Field<T, Ty, N>): (d: PropertyDef<T, N>)
    ensures d.name == atoms.intern(name)
    ensures d.setter.Some?
    ensures forall thing, out :: d.getter(thing, out) == FieldGetter(f, thing, out)
    ensures forall thing, v :: d.setter.value(thing, v) == FieldSetter(get, f, thing, v)
  {
    PropertyDef(atoms.intern(name),
                (thing, out) => FieldGetter(f, thing, out),
                Some((thing, v) => FieldSetter(get, f, thing, v)))
  }

  /** SOM_RO_PROP(name): the same getter as SOM_PROP, and a null setter. */
  function SomRoProp<T(!new), Ty, N(!new)>(atoms: AtomTable, name: string, f: Field<T, Ty, N>): (d: PropertyDef<T, N>)
    ensures d.name == atoms.intern(name)
    ensures d.setter.None?
    ensures forall thing, out :: d.getter(thing, out) == FieldGetter(f, thing, out)
  {
    PropertyDef(atoms.intern(name), (thing, out) => FieldGetter(f, thing, out), None)
  }

  /** Through the descriptor SOM_PROP builds, a property set then read yields
      the box of the coerced value (the value itself when get<PT>() undoes
      boxing); the read-only descriptor of the same member reads the same
      and has no setter. */
  lemma SomPropRoundTrip<T(!new), Ty, N(!new)>(atoms: AtomTable, get: Coercion<Ty, N>, name: string, f: Field<T, Ty, N>,
                                             thing: T, v: Value<N>, out: Value<N>)
    requires Lawful(f)
    ensures var d := SomProp(atoms, get, name, f);
            var stored := d.setter.value(thing, v);
            && stored == Completed(true, stored.thing, ())
            && d.getter(stored.thing, out) == Completed(true, stored.thing, Box(get(f.ty, v)))
            && (v.Box? && get(f.ty, v) == v.native ==> d.getter(stored.thing, out).out == v)
    ensures var ro := SomRoProp(atoms, name, f);
            ro.setter.None? && ro.getter(thing, out) == SomProp(atoms, get, name, f).getter(thing, out)
  {
    FieldRoundTrip(get, f, f, thing, v, out);
  }

  /** SOM_VIRTUAL_PROP(name, getter, setter): a property backed by a getter
      member function and a bool-returning setter member function. */
  function SomVirtualProp<T(!new), Ty, N(!new)>(atoms: AtomTable, get: Coercion<Ty, N>, name: string,
                                              g: Member<T, (), N>, setterTy: Ty, s: Mutator<T, N, bool>): (d: PropertyDef<T, N>)
    ensures d.name == atoms.intern(name)
    ensures d.setter.Some?
    ensures forall thing, out :: d.getter(thing, out) == GetterFunctionThunk(g, thing, out)
    ensures forall thing, v :: d.setter.value(thing, v) == SetterFunctionThunk(get, setterTy, s, thing, v)
  {
    PropertyDef(atoms.intern(name),
                (thing, out) => GetterFunctionThunk(g, thing, out),
                Some((thing, v) => SetterFunctionThunk(get, setterTy, s, thing, v)))
  }

  /** SOM_RO_VIRTUAL_PROP(name, getter): a getter member function and a null setter. */
  function SomRoVirtualProp<T(!new), N(!new)>(atoms: AtomTable, name: string, g: Member<T, (), N>): (d: PropertyDef<T, N>)
    ensures d.name == atoms.intern(name)
    ensures d.setter.None?
    ensures forall thing, out :: d.getter(thing, out) == GetterFunctionThunk(g, thing, out)
  {
    PropertyDef(atoms.intern(name), (thing, out) => GetterFunctionThunk(g, thing, out), None)
  }

  /** SOM_FUNC(name) and SOM_FUNC_EX(ename, fname): a method entry whose
      `params` is the n_params of the member's thunk, that is its declared
      arity, and whose invoker is that thunk. */
  function SomFunc<T(!new), Ty, N(!new)>(atoms: AtomTable, get: Coercion<Ty, N>, name: string, m: NativeMethod<T, Ty, N>): (d: MethodDef<T, N>)
    requires |m.params| <= MaxArity
    ensures d.name == atoms.intern(name)
    ensures d.params == |m.params|
    ensures forall thing, argv, result :: |m.params| <= |argv| ==> d.func.requires(thing, argv, result)
    ensures forall thing, argv, result :: |m.params| <= |argv| ==>
              d.func(thing, argv, result) == MethodThunk(get, m, thing, argv, result)
  {
    MethodDef(atoms.intern(name), |m.params|,
              (thing, argv, result) requires |m.params| <= |argv| => MethodThunk(get, m, thing, argv, result))
  }

  /** Arity agreement: the entry SOM_FUNC builds declares exactly the number
      of arguments its invoker reads. */
  lemma {:induction false} SomFuncReadsDeclaredArguments<T(!new), Ty, N(!new)>(atoms: AtomTable, get: Coercion<Ty, N>,
                                                                             name: string, m: NativeMethod<T, Ty, N>)
    requires |m.params| <= MaxArity
    ensures ReadsDeclaredArguments(SomFunc(atoms, get, name, m))
  {
    var d := SomFunc(atoms, get, name, m);
    forall thing, argv, argv', result |
      d.params <= |argv| && d.params <= |argv'| && argv[..d.params] == argv'[..d.params]
      ensures d.func(thing, argv, result) == d.func(thing, argv', result)
    {
      MethodReadsDeclaredArguments(get, m, thing, argv, argv', result);
    }
  }

  // ---------------------------------------------------------------------
  // The passport body: SOM_PASSPORT_BEGIN ... SOM_PASSPORT_END
  // ---------------------------------------------------------------------

  /** SOM_PASSPORT_BEGIN(classname) / SOM_PASSPORT_BEGIN_EX(exname, classname):
      a zero-initialised passport (sealed, no item accessors, empty tables)
      named by the atom of the exported class name. */
  function PassportBegin<T, N>(atoms: AtomTable, className: string): (p: Passport<T, N>)
    ensures WellFormed(p)
    ensures p.name == atoms.intern(className)
    ensures p.flags == SealedObject
    ensures p.itemGetter.None? && p.itemSetter.None? && p.itemNext.None?
    ensures p.nProperties == 0 && p.nMethods == 0
  {
    Passport(0, atoms.intern(className), None, None, None, [], 0, [], 0)
  }

  /** SOM_PASSPORT_FLAGS(fs) */
  function SomPassportFlags<T, N>(st: Passport<T, N>, fs: Flags): (p: Passport<T, N>)
    ensures p.flags == fs
    ensures p.(flags := st.flags) == st
    ensures WellFormed(st) ==> WellFormed(p)
  {
    st.(flags := fs)
  }

  /** SOM_FUNCS(...): the method table and its element count. */
  function SomFuncs<T, N>(st: Passport<T, N>, defs: seq<MethodDef<T, N>>): (p: Passport<T, N>)
    ensures p.methods == defs && p.nMethods == |defs|
    ensures p.(methods := st.methods, nMethods := st.nMethods) == st
    ensures WellFormed(st) ==> WellFormed(p)
  {
    st.(methods := defs, nMethods := |defs|)
  }

  /** SOM_PROPS(...): the property table and its element count. */
  function SomProps<T, N>(st: Passport<T, N>, defs: seq<PropertyDef<T, N>>): (p: Passport<T, N>)
    ensures p.properties == defs && p.nProperties == |defs|
    ensures p.(properties := st.properties, nProperties := st.nProperties) == st
    ensures WellFormed(st) ==> WellFormed(p)
  {
    st.(properties := defs, nProperties := |defs|)
  }

  /** SOM_ITEM_GET(func): the item getter becomes the get-accessor thunk of `g`. */
  function SomItemGet<T(!new), Ty, N(!new)>(st: Passport<T, N>, get: Coercion<Ty, N>, keyTy: Ty, g: Member<T, N, (bool, N)>): (p: Passport<T, N>)
    ensures p.itemGetter.Some?
    ensures forall thing, key, out :: p.itemGetter.value(thing, key, out) == ItemGetThunk(get, keyTy, g, thing, key, out)
    ensures p.(itemGetter := st.itemGetter) == st
    ensures WellFormed(st) ==> WellFormed(p)
  {
    st.(itemGetter := Some((thing, key, out) => ItemGetThunk(get, keyTy, g, thing, key, out)))
  }

  /** SOM_ITEM_SET(func): the item setter becomes the set-accessor thunk of `s`. */
  function SomItemSet<T(!new), Ty, N(!new)>(st: Passport<T, N>, get: Coercion<Ty, N>, keyTy: Ty, valueTy: Ty,
                                          s: Mutator<T, (N, N), bool>): (p: Passport<T, N>)
    ensures p.itemSetter.Some?
    ensures forall thing, key, v :: p.itemSetter.value(thing, key, v) == ItemSetThunk(get, keyTy, valueTy, s, thing, key, v)
    ensures p.(itemSetter := st.itemSetter) == st
    ensures WellFormed(st) ==> WellFormed(p)
  {
    st.(itemSetter := Some((thing, key, v) => ItemSetThunk(get, keyTy, valueTy, s, thing, key, v)))
  }

  /** SOM_ITEM_NEXT(func): the iterator becomes the next-accessor thunk of `n`. */
  function SomItemNext<T(!new), Ty, N(!new)>(st: Passport<T, N>, get: Coercion<Ty, N>, indexTy: Ty,
                                           n: Mutator<T, N, (bool, N, N)>): (p: Passport<T, N>)
    ensures p.itemNext.Some?
    ensures forall thing, index, v :: p.itemNext.value(thing, index, v) == ItemNextThunk(get, indexTy, n, thing, index, v)
    ensures p.(itemNext := st.itemNext) == st
    ensures WellFormed(st) ==> WellFormed(p)
  {
    st.(itemNext := Some((thing, index, v) => ItemNextThunk(get, indexTy, n, thing, index, v)))
  }
}
