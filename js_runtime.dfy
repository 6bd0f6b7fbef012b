/** The JavaScript built-ins the Yoki methods call while building their trace messages, and
    when those calls throw. The trace messages are built at the call site, before the logger
    checks `debug_mode`, so a throw there aborts the operation whether or not debugging is on. */
module JsRuntime {
  import opened KeyOrder
  import opened PoolSpec

  /** How the runtime treats each payload at the moment of a call: whether JSON.stringify
      accepts it (it throws on a BigInt or a circular object), and whether a template literal
      can turn it into a string (that throws on a Symbol or an object without toString).
      Payloads are mutable objects, so each call is given the judgement that holds when it runs. */
  datatype Runtime<!T> = Runtime(stringifies: T -> bool, converts: T -> bool)

  /** The outcome of a call that may throw. */
  datatype Outcome<R> = Returned(value: R) | Threw

  /** JSON.stringify(v) returns normally; for `undefined` it returns `undefined`. */
  predicate Stringifies<T>(rt: Runtime<T>, v: JsValue<T>)
  {
    v.Undefined? || rt.stringifies(v.payload)
  }

  /** The template literal `${v}` evaluates normally; `undefined` becomes "undefined". */
  predicate Converts<T>(rt: Runtime<T>, v: JsValue<T>)
  {
    v.Undefined? || rt.converts(v.payload)
  }

  /** How many entries, from the front, a walk that stringifies each value traces before
      reaching the first value JSON.stringify rejects. */
  function TracedCount<T>(rt: Runtime<T>, es: seq<Entry<T>>): (n: nat)
    ensures n <= |es|
    ensures forall i :: 0 <= i < n ==> Stringifies(rt, es[i].value)
    ensures n < |es| ==> !Stringifies(rt, es[n].value)
  {
    if es == [] || !Stringifies(rt, es[0].value) then 0 else 1 + TracedCount(rt, es[1..])
  }
}
