/**
 The thunk generator of sciter::om: adapters that turn a statically typed
 native member into one of the uniform accessor shapes of `Accessors`.
 Every thunk coerces its boxed inputs with `get<T>()`, calls the native
 member on the receiver, and boxes what comes back.

 Two failure channels are kept apart. A BOOL FALSE (protocol failure) comes
 only from a native item accessor or setter that itself answers false. A
 std::runtime_error thrown by a native method is caught by the method
 thunks and by the non-const getter thunk and becomes a boxed error value
 reported with TRUE. Every other exception, and a runtime error thrown
 where no thunk catches it, propagates.
 */
module Thunks {
  import opened SomValue
  import opened NativeMembers
  import opened Accessors

  // ---------------------------------------------------------------------
  // member_property: direct access to a data member
  // ---------------------------------------------------------------------

  /** A data member `PT Type::*M`: the tag of PT (for get<PT>()), how to read
      it from the receiver and how to store into it. */
  datatype Field<!T, Ty, !N> = Field(ty: Ty, read: T -> N, write: (T, N) -> T)

  /** What makes it a data member: reading after storing gives what was stored. */
  ghost predicate Lawful<T(!new), Ty, N(!new)>(f: Field<T, Ty, N>) {
    forall thing, n :: f.read(f.write(thing, n)) == n
  }

  /** Two different data members: storing into `f` leaves `g` as it was. */
  ghost predicate Separate<T(!new), Ty, N(!new)>(f: Field<T, Ty, N>, g: Field<T, Ty, N>) {
    forall thing, n :: g.read(f.write(thing, n)) == g.read(thing)
  }

  /** member_property::getter: box the member's current value, report TRUE,
      never touch the receiver. */
  function FieldGetter<T, Ty, N>(f: Field<T, Ty, N>, thing: T, out: Value<N>): (r: Reply<T, Value<N>>)
    ensures r.Completed? && r.ok && r.thing == thing
    ensures r.out.Box? && r.out.native == f.read(thing)
  {
    Completed(true, thing, Box(f.read(thing)))
  }

  /** member_property::setter: store get<PT>() of the value into the member
      and report TRUE. */
  function FieldSetter<T, Ty, N>(get: Coercion<Ty, N>, f: Field<T, Ty, N>, thing: T, v: Value<N>): (r: Reply<T, ()>)
    ensures r.Completed? && r.ok
    ensures r.thing == f.write(thing, get(f.ty, v))
  {
    Completed(true, f.write(thing, get(f.ty, v)), ())
  }

  /** Setting a data member and reading it back gives the box of the coerced
      value; when get<PT>() undoes boxing, that is the value that was set.
      For a member `g` separate from `f` (an assumption about the two
      members, not a consequence of the thunks), the getter of `g` reads
      the same box after the store as before it. */
  lemma FieldRoundTrip<T(!new), Ty, N(!new)>(get: Coercion<Ty, N>, f: Field<T, Ty, N>, g: Field<T, Ty, N>,
                                           thing: T, v: Value<N>, out: Value<N>)
    requires Lawful(f)
    ensures var stored := FieldSetter(get, f, thing, v).thing;
            FieldGetter(f, stored, out) == Completed(true, stored, Box(get(f.ty, v)))
    ensures v.Box? && get(f.ty, v) == v.native ==>
              FieldGetter(f, FieldSetter(get, f, thing, v).thing, out).out == v
    ensures Separate(f, g) ==>
              FieldGetter(g, FieldSetter(get, f, thing, v).thing, out).out == FieldGetter(g, thing, out).out
  {
  }

  // ---------------------------------------------------------------------
  // member_function: method thunks, arities 0 to 4, const and non-const
  // ---------------------------------------------------------------------

  /** member_function is specialised for member functions of 0 to 4
      parameters; there is no thunk for more. */
  const MaxArity: nat := 4

  /** A member function `Ret (Type::*)(P0, ..., Pn-1)`, const or not: the
      tags of its parameter types and the member itself. Its arity, the
      n_params of its member_function specialisation, is `|params|`. */
  datatype NativeMethod<!T, Ty, !N> = NativeMethod(params: seq<Ty>, body: Member<T, seq<N>, N>)

  /** The argument list a thunk builds: `argv[i].get<Pi>()` for each
      declared parameter, in order, and nothing past the last one. */
  function Unbox<Ty, N>(get: Coercion<Ty, N>, params: seq<Ty>, argv: seq<Value<N>>): (args: seq<N>)
    requires |params| <= |argv|
    ensures |args| == |params|
    ensures forall i :: 0 <= i < |params| ==> args[i] == get(params[i], argv[i])
  {
    if params == [] then []
    else [get(params[0], argv[0])] + Unbox(get, params[1..], argv[1..])
  }

  /** The try/catch shared by the method thunks and the non-const getter
      thunk, applied to the native outcome and the receiver after the call. */
  function CatchRuntimeError<T, N>(thing: T, outcome: Outcome<N>): (r: Reply<T, Value<N>>)
    ensures r.thing == thing
    ensures r.Completed? ==> r.ok
    ensures r.Raised? <==> outcome.Throws? && outcome.exception.OtherException?
    ensures outcome.Returns? ==> r.out == Box(outcome.value)
    ensures outcome.Throws? && outcome.exception.RuntimeError? ==> r.out == Error(outcome.exception.what)
    ensures r.Raised? ==> r.exception == outcome.exception
  {
    match outcome
    case Returns(v) => Completed(true, thing, Box(v))
    case Throws(RuntimeError(what)) => Completed(true, thing, Error(what))
    case Throws(OtherException) => Raised(thing, OtherException)
  }

  /** member_function<...>::thunk. The result out-parameter is always
      overwritten when the thunk returns, so its incoming value never shows. */
  function MethodThunk<T, Ty, N>(get: Coercion<Ty, N>, m: NativeMethod<T, Ty, N>,
                                 thing: T, argv: seq<Value<N>>, result: Value<N>): (r: Reply<T, Value<N>>)
    requires |m.params| <= MaxArity
    requires |m.params| <= |argv|
    ensures r.Completed? ==> r.ok
    ensures r.Raised? ==> r.exception == OtherException
    ensures m.body.Inspecting? ==> r.thing == thing
    ensures var (after, outcome) := Call(m.body, thing, Unbox(get, m.params, argv));
            && r.thing == after
            && (outcome.Returns? ==> r == Completed(true, after, Box(outcome.value)))
            && (outcome.Throws? && outcome.exception.RuntimeError? ==>
                  r == Completed(true, after, Error(outcome.exception.what)))
            && (outcome.Throws? && outcome.exception.OtherException? ==>
                  r == Raised(after, outcome.exception))
  {
    var (after, outcome) := Call(m.body, thing, Unbox(get, m.params, argv));
    CatchRuntimeError(after, outcome)
  }

  /** A method thunk reads exactly the first n_params entries of argv: two
      argument vectors that agree there give the same reply. */
  lemma MethodReadsDeclaredArguments<T, Ty, N>(get: Coercion<Ty, N>, m: NativeMethod<T, Ty, N>, thing: T,
                                              argv: seq<Value<N>>, argv': seq<Value<N>>, result: Value<N>)
    requires |m.params| <= MaxArity
    requires |m.params| <= |argv| && |m.params| <= |argv'|
    requires argv[..|m.params|] == argv'[..|m.params|]
    ensures MethodThunk(get, m, thing, argv, result) == MethodThunk(get, m, thing, argv', result)
  {
    var n := |m.params|;
    forall i | 0 <= i < n
      ensures argv[i] == argv'[i]
    {
      assert argv[i] == argv[..n][i] && argv'[i] == argv'[..n][i];
    }
    assert Unbox(get, m.params, argv) == Unbox(get, m.params, argv');
  }

  /** The const specialisations have the same body as the non-const ones:
      a const member behaves as a non-const member that hands the receiver
      back unchanged. */
  lemma ConstMethodThunkAgrees<T(!new), Ty, N(!new)>(get: Coercion<Ty, N>, params: seq<Ty>, body: Member<T, seq<N>, N>,
                                                    thing: T, argv: seq<Value<N>>, result: Value<N>)
    requires |params| <= MaxArity && |params| <= |argv|
    ensures MethodThunk(get, NativeMethod(params, body), thing, argv, result)
         == MethodThunk(get, NativeMethod(params, AsMutating(body)), thing, argv, result)
  {
  }

  // ---------------------------------------------------------------------
  // member_getter_function / member_setter_function: virtual properties
  // ---------------------------------------------------------------------

  /** member_getter_function<...>::thunk. The non-const specialisation
      catches a runtime error like a method thunk; the const one has its
      try/catch commented out, so every exception propagates from it. */
  function GetterFunctionThunk<T, N>(g: Member<T, (), N>, thing: T, out: Value<N>): (r: Reply<T, Value<N>>)
    ensures r.Completed? ==> r.ok
    ensures g.Inspecting? ==> r.thing == thing
    ensures var (after, outcome) := Call(g, thing, ());
            && r.thing == after
            && (outcome.Returns? ==> r == Completed(true, after, Box(outcome.value)))
            && (g.Mutating? ==> (r.Raised? <==> outcome.Throws? && outcome.exception.OtherException?))
            && (g.Mutating? && outcome.Throws? && outcome.exception.RuntimeError? ==>
                  r == Completed(true, after, Error(outcome.exception.what)))
            && (g.Inspecting? ==> (r.Raised? <==> outcome.Throws?))
            && (r.Raised? ==> outcome.Throws? && r == Raised(after, outcome.exception))
  {
    match g
    case Mutating(run) =>
      var (after, outcome) := run(thing, ());
      CatchRuntimeError(after, outcome)
    case Inspecting(inspect) =>
      match inspect(thing, ())
      case Returns(v) => Completed(true, thing, Box(v))
      case Throws(e) => Raised(thing, e)
  }

  /** The const-getter asymmetry, as written: for a const getter the two
      getter specialisations agree exactly when the getter does not throw a
      runtime error; when it does, the const thunk lets the error escape
      while the non-const one would have boxed it. */
  lemma ConstGetterAsymmetry<T(!new), N(!new)>(g: Member<T, (), N>, thing: T, out: Value<N>)
    requires g.Inspecting?
    ensures var outcome := g.inspect(thing, ());
            GetterFunctionThunk(g, thing, out) == GetterFunctionThunk(AsMutating(g), thing, out)
            <==> !(outcome.Throws? && outcome.exception.RuntimeError?)
    ensures var outcome := g.inspect(thing, ());
            outcome.Throws? && outcome.exception.RuntimeError? ==>
              && GetterFunctionThunk(g, thing, out) == Raised(thing, outcome.exception)
              && GetterFunctionThunk(AsMutating(g), thing, out) == Completed(true, thing, Error(outcome.exception.what))
  {
  }

  /** `return r;` after a native call that answers bool: the verdict is the
      native's own, and an exception is passed through unboxed. */
  function PassVerdict<T>(call: (T, Outcome<bool>)): (r: Reply<T, ()>)
    ensures r.thing == call.0
    ensures r.Completed? <==> call.1.Returns?
    ensures r.Completed? ==> r.ok == call.1.value
    ensures r.Raised? ==> r.exception == call.1.exception
  {
    match call.1
    case Returns(verdict) => Completed(verdict, call.0, ())
    case Throws(e) => Raised(call.0, e)
  }

  /** member_setter_function<...>::thunk: pass get<P0>() of the value to the
      native setter and return its bool; its try/catch is commented out, so
      nothing is boxed and every exception propagates. */
  function SetterFunctionThunk<T, Ty, N>(get: Coercion<Ty, N>, ty: Ty, s: Mutator<T, N, bool>,
                                         thing: T, v: Value<N>): (r: Reply<T, ()>)
    ensures var (after, outcome) := s(thing, get(ty, v));
            && r.thing == after
            && (r.Completed? <==> outcome.Returns?)
            && (r.Completed? ==> r.ok == outcome.value)
            && (r.Raised? ==> r.exception == outcome.exception)
  {
    PassVerdict(s(thing, get(ty, v)))
  }

  // ---------------------------------------------------------------------
  // member_set_accessor / member_get_accessor / member_next_accessor
  // ---------------------------------------------------------------------

  /** member_set_accessor<...>::thunk: coerce key and value, return the
      native bool; no catch. */
  function ItemSetThunk<T, Ty, N>(get: Coercion<Ty, N>, keyTy: Ty, valueTy: Ty, s: Mutator<T, (N, N), bool>,
                                  thing: T, key: Value<N>, value: Value<N>): (r: Reply<T, ()>)
    ensures var (after, outcome) := s(thing, (get(keyTy, key), get(valueTy, value)));
            && r.thing == after
            && (r.Completed? <==> outcome.Returns?)
            && (r.Completed? ==> r.ok == outcome.value)
            && (r.Raised? ==> r.exception == outcome.exception)
  {
    PassVerdict(s(thing, (get(keyTy, key), get(valueTy, value))))
  }

  /** member_get_accessor<...>::thunk (const or not). The native answers a
      bool and leaves a value in its reference parameter; *p_value is written
      with the boxed value only when the answer is true. */
  function ItemGetThunk<T, Ty, N>(get: Coercion<Ty, N>, keyTy: Ty, g: Member<T, N, (bool, N)>,
                                  thing: T, key: Value<N>, out: Value<N>): (r: Reply<T, Value<N>>)
    ensures g.Inspecting? ==> r.thing == thing
    ensures r.Completed? && !r.ok ==> r.out == out
    ensures var (after, outcome) := Call(g, thing, get(keyTy, key));
            && r.thing == after
            && (r.Completed? <==> outcome.Returns?)
            && (r.Completed? ==> (r.ok <==> outcome.value.0))
            && (r.Completed? && r.ok ==> r.out == Box(outcome.value.1))
            && (r.Raised? ==> r.exception == outcome.exception)
  {
    var (after, outcome) := Call(g, thing, get(keyTy, key));
    match outcome
    case Returns(answer) =>
      if answer.0 then Completed(true, after, Box(answer.1)) else Completed(false, after, out)
    case Throws(e) => Raised(after, e)
  }

  /** member_next_accessor<...>::thunk. The native takes the coerced index by
      reference, answers a bool and leaves the next index and value behind;
      both *p_index and *p_value are written, and only, when it answers true. */
  function ItemNextThunk<T, Ty, N>(get: Coercion<Ty, N>, indexTy: Ty, n: Mutator<T, N, (bool, N, N)>,
                                   thing: T, index: Value<N>, value: Value<N>): (r: Reply<T, (Value<N>, Value<N>)>)
    ensures r.Completed? && !r.ok ==> r.out == (index, value)
    ensures var (after, outcome) := n(thing, get(indexTy, index));
            && r.thing == after
            && (r.Completed? <==> outcome.Returns?)
            && (r.Completed? ==> (r.ok <==> outcome.value.0))
            && (r.Completed? && r.ok ==> r.out == (Box(outcome.value.1), Box(outcome.value.2)))
            && (r.Raised? ==> r.exception == outcome.exception)
  {
    var (after, outcome) := n(thing, get(indexTy, index));
    match outcome
    case Returns(answer) =>
      if answer.0 then Completed(true, after, (Box(answer.1), Box(answer.2)))
      else Completed(false, after, (index, value))
    case Throws(e) => Raised(after, e)
  }
}
