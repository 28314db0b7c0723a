/** The live `trace` decorator: log the call, run the wrapped function, log its result. */
module Trace {

  /** The two console lines `trace` prints: the function's name with the argument, then the
      returned value (the text formatting and `repr` are abstracted away). */
  datatype Event<X, Y> = Call(name: string, arg: X) | Return(value: Y)

  /** A result together with the console lines emitted while computing it, in order. */
  datatype Traced<X, Y> = Traced(value: Y, events: seq<Event<X, Y>>)

  /** One invocation of the wrapper `trace(f)` named `name` on argument `x`. */
  function Trace<X, Y>(name: string, f: X -> Y, x: X): (r: Traced<X, Y>)
    ensures r.value == f(x)
    ensures |r.events| == 2
    ensures r.events[0] == Call(name, x)
    ensures r.events[1] == Return(r.value)
  {
    var value := f(x);
    Traced(value, [Call(name, x), Return(value)])
  }
}
