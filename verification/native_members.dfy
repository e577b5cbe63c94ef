/**
 Native members as the thunks see them. A native member is called on a
 receiver (the asset) with its already coerced arguments; it either returns
 a value or throws. A non-const member may change the receiver, a const
 one cannot.
 */
module NativeMembers {

  /** What a native call can throw. `RuntimeError` is std::runtime_error
      (sciter::om::exception), the one kind some thunks catch; everything
      else is `OtherException`, which every thunk lets propagate. */
  datatype Exception = RuntimeError(what: string) | OtherException

  /** How a native call ended. */
  datatype Outcome<+R> = Returns(value: R) | Throws(exception: Exception)

  /** A non-const member function: it receives and may update the receiver. */
  type Mutator<!T, !A, !R> = (T, A) -> (T, Outcome<R>)

  /** A member function pointer of either const-ness. */
  datatype Member<!T, !A, !R> =
    | Mutating(run: Mutator<T, A, R>)
    | Inspecting(inspect: (T, A) -> Outcome<R>)

  /** Calling a member on a receiver: the receiver after the call and the
      outcome. A const member leaves the receiver as it was. */
  function Call<T, A, R>(m: Member<T, A, R>, thing: T, args: A): (r: (T, Outcome<R>))
    ensures m.Inspecting? ==> r.0 == thing && r.1 == m.inspect(thing, args)
    ensures m.Mutating? ==> r == m.run(thing, args)
  {
    match m
    case Mutating(run) => run(thing, args)
    case Inspecting(inspect) => (thing, inspect(thing, args))
  }

  /** A const member seen as a non-const one that hands the receiver back. */
  function AsMutating<T(!new), A(!new), R>(m: Member<T, A, R>): (r: Member<T, A, R>)
    ensures r.Mutating?
    ensures forall thing, args :: r.run(thing, args) == Call(m, thing, args)
  {
    Mutating((thing, args) => Call(m, thing, args))
  }
}
