# Sciter object model (SOM) reflection layer, in Dafny

This project models `include/sciter-om-def.h` of the Sciter SDK: the layer
that lets a native C++ object (an *asset*) expose properties, indexed items
and methods to the script engine through one boxed-value calling
convention.

- **Boxed values** (`SomValue`): `SOM_VALUE` as `Undefined | Box(n) |
  Error(msg) | Map(entries)`. `get<T>()` is a coercion passed in as a
  function parameter. `set_item` inserts or replaces one key of a map and
  keeps insertion order.
- **Atoms** (`Atoms`): the engine's name table, modelled as a pair of
  functions `intern` (SciterAtomValue) and `resolve` (atom_name). The only
  assumption relied on is the round trip `resolve(intern(s)) == s` for the
  names actually registered. A 64-bit table cannot round-trip every string,
  so the assumption is stated over a set of names.
- **Native members** (`NativeMembers`): a member function is `Mutating` or
  `Inspecting` (const). It returns a value or throws. `RuntimeError` is
  `std::runtime_error`; every other exception is `OtherException`.
- **Accessor shapes** (`Accessors`): the `som_*_t` function-pointer types.
  A `Reply` is either `Completed(ok, thing, out)` or `Raised(thing, e)`.
  `Completed` carries the returned BOOL, the receiver after the call and
  the out-parameters. `Raised` is an exception escaping the accessor.
- **Thunks** (`Thunks`): `member_property`, `member_function` (arities 0–4,
  const and non-const), `member_getter_function`, `member_setter_function`,
  `member_set_accessor`, `member_get_accessor` and `member_next_accessor`.
- **Passports** (`Passports`): `som_property_def_t`, `som_method_def_t`,
  `som_passport_t` and the registration macros. A macro builds a closure of
  a thunk over the native member it adapts.
- **Reflection** (`Reflection`): `asset_to_map`. It is a fold over the
  property table that threads the receiver through the getters.

Two failure channels run through the model. A method thunk that catches a
`std::runtime_error` (the `exception` typedef at
include/sciter-om-def.h:131) still returns TRUE, with an error value as its
result. FALSE comes only from a native item accessor or setter that itself
answers false. Any other exception propagates unchanged.

The const virtual getter and the virtual setter have their try/catch
commented out (include/sciter-om-def.h:323-324 and 334-335); those lines
would have boxed the error. The model follows the live code: a runtime
error escapes both (`ConstGetterAsymmetry`).

A property set and then read back through the data-member thunks gives the
box of `get<PT>(v)`, not `v` itself. The model states that, and gives `v`
only when `get<PT>` undoes boxing.

## Model

| member | source | states |
|---|---|---|
| `Atoms.AtomEqualityIsNameEquality` | include/sciter-om-def.h:16-17 | for a table that round-trips on the registered names, two registered names get the same atom exactly when they are the same name |
| `SomValue.Put` | include/sciter-om-def.h:355 | set_item on a map gives entries of the same length, or exactly the old entries with the new pair appended at the end |
| `SomValue.SetItem` | include/sciter-om-def.h:355 | set_item on the default value or a map gives a map that holds the new item under the key, keeps every other key's value, and never holds a key twice |
| `SomValue.PutKeys` | include/sciter-om-def.h:355 | inserting into a map adds exactly the new key to its key set, and appends at the end only when the key was absent |
| `Thunks.FieldGetter` | include/sciter-om-def.h:136-137 | the data-member getter always reports TRUE, boxes the member's current value and leaves the receiver unchanged |
| `Thunks.FieldSetter` | include/sciter-om-def.h:138-139 | the data-member setter always reports TRUE and stores get<PT>() of the value into the member |
| `Thunks.FieldRoundTrip` | include/sciter-om-def.h:133-140 | set then get yields TRUE and the box of get<PT>(v), which is v when get undoes boxing; for a member assumed separate from the stored one, its getter reads the same box after the store |
| `Thunks.Unbox` | include/sciter-om-def.h:154-192 | the argument list has one entry per declared parameter, and entry i is argv[i] coerced to the i-th parameter type |
| `Thunks.CatchRuntimeError` | include/sciter-om-def.h:149-150 | a normal return is boxed and a runtime error becomes an error value with its message, both with TRUE; only other exceptions escape, and the exception raised is the one thrown |
| `Thunks.MethodThunk` | include/sciter-om-def.h:144-244 | a method thunk never reports FALSE; it boxes a returned value, turns a runtime error into an error value with TRUE, raises any other exception exactly as thrown, and leaves the receiver unchanged for a const member |
| `Thunks.MethodReadsDeclaredArguments` | include/sciter-om-def.h:184-191 | two argument vectors that agree on their first n_params entries give the same reply, so nothing past argv[n_params-1] is read |
| `Thunks.ConstMethodThunkAgrees` | include/sciter-om-def.h:194-244 | the thunk of a const member behaves as the thunk of a non-const member that hands the receiver back unchanged |
| `Thunks.GetterFunctionThunk` | include/sciter-om-def.h:307-328 | a virtual getter never reports FALSE and boxes a returned value; the non-const one turns a runtime error into an error value with its message and TRUE, while the const one lets every exception escape and leaves the receiver unchanged; an escaping exception is the one thrown |
| `Thunks.ConstGetterAsymmetry` | include/sciter-om-def.h:319-328 | for a const getter, the const and non-const getter thunks agree exactly when it does not throw a runtime error; when it does, the const thunk raises it where the other would box it |
| `Thunks.SetterFunctionThunk` | include/sciter-om-def.h:330-339 | the virtual setter returns exactly the native bool, boxes no error, and propagates every exception, runtime errors included |
| `Thunks.ItemSetThunk` | include/sciter-om-def.h:247-253 | the item setter returns exactly the native bool for the coerced key and value and propagates every exception |
| `Thunks.ItemGetThunk` | include/sciter-om-def.h:255-284 | the item getter reports TRUE exactly when the native answers true, then writes the boxed value; on FALSE the out-value keeps its prior contents |
| `Thunks.ItemNextThunk` | include/sciter-om-def.h:286-305 | on a native true both the index and the value are written (as boxes of what the native left) with TRUE; on false neither is touched and FALSE is returned |
| `Passports.SomProp` | include/sciter-om-def.h:74-76 | SOM_PROP names the entry by the atom of its name and installs the data-member getter and a non-null setter |
| `Passports.SomRoProp` | include/sciter-om-def.h:78-79 | SOM_RO_PROP installs the same getter and a null setter |
| `Passports.SomPropRoundTrip` | include/sciter-om-def.h:74-79 | through the entry's own setter and getter, set then get gives TRUE and the box of get<PT>(v); the read-only entry reads the same and has no setter |
| `Passports.SomVirtualProp` | include/sciter-om-def.h:81-83 | SOM_VIRTUAL_PROP installs the getter-function thunk and a non-null setter-function thunk |
| `Passports.SomRoVirtualProp` | include/sciter-om-def.h:85-86 | SOM_RO_VIRTUAL_PROP installs the getter-function thunk and a null setter |
| `Passports.SomFunc` | include/sciter-om-def.h:66-72 | the method entry's params is the member's declared arity, its invoker can be called with that many arguments, and it then behaves as the method thunk |
| `Passports.SomFuncReadsDeclaredArguments` | include/sciter-om-def.h:66-68 | the invoker of a SOM_FUNC entry accepts any argv of at least params entries and reads no entry past the declared arity |
| `Passports.PassportBegin` | include/sciter-om-def.h:97-109 | a fresh passport is sealed, named by the atom of the exported class name, has no item accessors and empty tables, and its counts match its arrays |
| `Passports.SomPassportFlags` | include/sciter-om-def.h:115 | SOM_PASSPORT_FLAGS sets the flags and changes no other field |
| `Passports.SomFuncs` | include/sciter-om-def.h:117-120 | SOM_FUNCS installs the method array with n_methods equal to its length and changes no other field |
| `Passports.SomProps` | include/sciter-om-def.h:122-125 | SOM_PROPS installs the property array with n_properties equal to its length and changes no other field |
| `Passports.SomItemGet` | include/sciter-om-def.h:91-92 | SOM_ITEM_GET makes the item getter the get-accessor thunk of the member and changes no other field |
| `Passports.SomItemSet` | include/sciter-om-def.h:88-89 | SOM_ITEM_SET makes the item setter the set-accessor thunk of the member and changes no other field |
| `Passports.SomItemNext` | include/sciter-om-def.h:94-95 | SOM_ITEM_NEXT makes the iterator the next-accessor thunk of the member and changes no other field |
| `Reflection.Collect` | include/sciter-om-def.h:351-357 | when the asset_to_map loop returns, its result is the default value or a map, and a map whenever the loop started on one |
| `Reflection.AssetToMap` | include/sciter-om-def.h:349-360 | with no passport the result is the default value and the receiver is untouched; otherwise the result is the default value or a map |
| `Reflection.SetAll` | include/sciter-om-def.h:351-355 | successive set_item calls starting from the default value or a map give the default value exactly when it started so and no pair was set, and never make a map hold a key twice |
| `Reflection.SetAllItem` | include/sciter-om-def.h:351-355 | after successive set_item calls a key holds the value given last for it among the pairs, or else the value it held before |
| `Reflection.SetAllAppends` | include/sciter-om-def.h:351-355 | set_item calls whose names are distinct and new to the map append their pairs to it in order |
| `Reflection.CollectSetsHarvest` | include/sciter-om-def.h:351-357 | the asset_to_map loop started on the default value or any map ends on that value with the remaining harvest set into it; the receiver and any escaping exception are the same as the harvest's |
| `Reflection.AssetToMapPacksHarvest` | include/sciter-om-def.h:349-360 | asset_to_map returns the map of the TRUE-reporting properties' (name, value) pairs in table order: default value iff none, keys exactly their names, the last value per name, and exactly those pairs when names differ |
| `Reflection.HarvestOfQuietGetters` | include/sciter-om-def.h:352-356 | when the getters neither throw nor change the receiver, the harvest holds a name exactly when a property of that name reports TRUE; FALSE getters are skipped |
| `Reflection.AssetToMapOfQuietGetters` | include/sciter-om-def.h:349-360 | for such getters asset_to_map leaves the receiver unchanged, has a key exactly when a property of that name reports TRUE, and is the default value exactly when none does |

## Left out

- The representation of `SOM_VALUE` and the rules of `get<T>()` live in
  `sciter-x-value.h`, which is not part of this model. Coercion is a total
  function parameter, so a coercion that throws is not modelled.
- `SciterAtomValue` and `SciterAtomNameCB` are calls into the engine. They
  are the two functions of `AtomTable`.
- `asset_get_passport` and the function-local static passport with its
  lazy initialisation are a lifetime concern. `asset_to_map` takes the
  passport, or its absence, as a parameter, and a passport is an immutable
  record.
- `interface_name`, the `reserved` fields and the C++ template and
  preprocessor plumbing (`decltype`, `static_cast`, stringification) are
  not modelled. The model keeps only their effect.
- `som_dispose_t` is declared but never used in this file.
- `argc` is ignored by every method thunk. The host's argument count is
  `|argv|`.
- Exceptions other than `std::runtime_error` only propagate. The model
  does not say what they carry, nor what the out-parameters hold after one.
- Integer widths of `size_t` counts and `UINT argc` are not modelled.
  Atoms and flags are bounded to 64 bits.
- Iterating a collection through `ItemNextThunk` until it is exhausted
  depends on the native `next` member. This file promises only one step.
- Member lookup by atom and the host's dispatch calls (`get_property`,
  `set_property` on a read-only member, and so on) belong to the engine,
  not to this file. What the file does provide is the null setter of a
  read-only property.
- Members whose type is `SOM_VALUE` itself (a `sciter::value` data member,
  a method returning `make_error(...)` or a map) are copied by
  `SOM_VALUE(x)`, not boxed. The model always boxes with `Box`, so such a
  pass-through value is not modelled.
- Passports.SomFunc: states only that the invoker accepts any argv with at
  least `params` entries. It does not state that shorter vectors are
  rejected, because Dafny exposes only that direction of a lambda's
  precondition. In the source a shorter argv is undefined behaviour.
- Passports.SomFuncReadsDeclaredArguments: same one-directional statement
  of the invoker's precondition as `SomFunc`.
