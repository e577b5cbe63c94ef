/**
 The uniform calling convention every adapted member ends up in
 (som_prop_getter_t, som_prop_setter_t, som_item_getter_t,
 som_item_setter_t, som_item_next_t, som_method_t).

 A C accessor returns a BOOL and writes its out-parameters, or an exception
 escapes it. `Reply` carries exactly that: `Completed(ok, thing, out)` is a
 return with the BOOL, the receiver afterwards and the final contents of the
 out-parameters; `Raised` is an exception propagating out of the accessor.
 */
module Accessors {
  import opened SomValue
  import opened NativeMembers

  datatype Reply<+T, +O> =
    | Completed(ok: bool, thing: T, out: O)
    | Raised(thing: T, exception: Exception)

  /** som_prop_getter_t: receiver and *p_value in, BOOL and *p_value out. */
  type PropGetter<!T, !N> = (T, Value<N>) -> Reply<T, Value<N>>

  /** som_prop_setter_t: receiver and the value to store; no out-parameter. */
  type PropSetter<!T, !N> = (T, Value<N>) -> Reply<T, ()>

  /** som_item_getter_t: receiver, key and *p_value in; BOOL and *p_value out. */
  type ItemGetter<!T, !N> = (T, Value<N>, Value<N>) -> Reply<T, Value<N>>

  /** som_item_setter_t: receiver, key and value; no out-parameter. */
  type ItemSetter<!T, !N> = (T, Value<N>, Value<N>) -> Reply<T, ()>

  /** som_item_next_t: receiver, *p_idx and *p_value in; BOOL, *p_idx and
      *p_value out. */
  type ItemNext<!T, !N> = (T, Value<N>, Value<N>) -> Reply<T, (Value<N>, Value<N>)>

  /** som_method_t: receiver, argv and *p_result in; BOOL and *p_result out.
      It is partial: the caller must supply at least as many arguments as
      the method reads. */
  type MethodInvoker<!T, !N> = (T, seq<Value<N>>, Value<N>) --> Reply<T, Value<N>>
}
