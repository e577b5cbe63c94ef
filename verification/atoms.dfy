/**
 Name atoms: 64-bit tokens that the engine's atom table hands out for
 member and class names, so that dispatch compares integers, not strings.
 The table itself belongs to the engine (SciterAtomValue interns a name,
 SciterAtomNameCB reports the name of an atom); the model keeps the two
 operations as a pair of functions.
 */
module Atoms {

  /** som_atom_t / UINT64 */
  newtype Atom = x: int | 0 <= x < 0x1_0000_0000_0000_0000

  /** The engine's atom table. `intern` is SciterAtomValue; `resolve` is
      atom_name, which collects the name SciterAtomNameCB reports. */
  datatype AtomTable = AtomTable(intern: string -> Atom, resolve: Atom -> string)

  /** The one assumption the reflection layer relies on, for the names that
      are actually registered (class, property and method names): resolving
      the atom of such a name gives the name back. No 64-bit table can do
      this for every string, so the assumption is confined to `names`. */
  ghost predicate RoundTripsOn(table: AtomTable, names: set<string>) {
    forall name :: name in names ==> table.resolve(table.intern(name)) == name
  }

  /** With a table that round-trips on the registered names, atom equality
      among those names is exactly name equality, which is what lets
      dispatch compare atoms instead of strings. */
  lemma AtomEqualityIsNameEquality(table: AtomTable, names: set<string>, a: string, b: string)
    requires RoundTripsOn(table, names)
    requires a in names && b in names
    ensures table.intern(a) == table.intern(b) <==> a == b
  {
    if table.intern(a) == table.intern(b) {
      calc {
        a;
        table.resolve(table.intern(a));
        table.resolve(table.intern(b));
        b;
      }
    }
  }
}
