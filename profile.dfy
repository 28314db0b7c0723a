/** The nesting-depth bookkeeping of the `profile` decorator. The wall-clock timestamps and the
    elapsed time it prints are not modelled: only which lines are printed, and when. */
module Profile {

  /** The lines `profile` prints: the start timestamp, the end timestamp (both only at depth 1)
      and the final report naming the function and its argument (only once depth is back to 0). */
  datatype Event<X> = StartStamp | EndStamp | Report(name: string, arg: X)

  /** The lines one whole profiled call prints when it is entered at nesting depth `outer`:
      the outermost call prints its start, end and report; a nested call prints nothing. */
  function CallLog<X>(outer: nat, name: string, x: X): seq<Event<X>>
  {
    if outer == 0 then [StartStamp, EndStamp, Report(name, x)] else []
  }

  /** The state `profile(func)` attaches to the decorated function: its name, the `depth`
      counter (set to 0 at decoration time) and the console lines printed so far. */
  class Profiler<X> {
    const name: string
    var depth: nat
    var log: seq<Event<X>>

    constructor (name: string)
      ensures this.name == name && depth == 0 && log == []
    {
      this.name := name;
      depth := 0;
      log := [];
    }

    /** What the wrapper does before it calls the wrapped function: count one more level of
        nesting and, on the outermost call, print the start timestamp. */
    method Enter()
      modifies this
      ensures depth == old(depth) + 1
      ensures log == old(log) + (if depth == 1 then [StartStamp] else [])
    {
      depth := depth + 1;
      if depth == 1 {
        log := log + [StartStamp];
      }
    }

    /** What the wrapper does after the wrapped function returned on argument `x`: on the
        outermost call print the end timestamp, drop one level of nesting, and print the report
        when the depth is back to 0. Only reached after a matching Enter, so depth >= 1. */
    method Leave(x: X)
      requires depth >= 1
      modifies this
      ensures depth == old(depth) - 1
      ensures log == old(log) + (if old(depth) == 1 then [EndStamp] else [])
                              + (if depth == 0 then [Report(name, x)] else [])
    {
      if depth == 1 {
        log := log + [EndStamp];
      }
      depth := depth - 1;
      if depth == 0 {
        log := log + [Report(name, x)];
      }
    }
  }

  /** A profiled call prints a report exactly when it was entered at depth 0, and that report
      is its last line. */
  lemma ReportOnlyOutermost<X>(outer: nat, name: string, x: X)
    ensures (exists i :: 0 <= i < |CallLog(outer, name, x)| && CallLog(outer, name, x)[i].Report?)
            <==> outer == 0
    ensures outer == 0 ==> CallLog(outer, name, x)[|CallLog(outer, name, x)| - 1] == Report(name, x)
  {
    if outer == 0 {
      assert CallLog(outer, name, x)[2].Report?;
    }
  }
}
