/** The `beautiful_trace` decorator, applied to `fib`: every entry and exit line carries the
    recursion depth as its indentation. The decorated name is what fib's body calls, so the
    recursive calls are traced too. */
module DepthTrace {
  import opened Fibonacci

  /** The two lines the wrapper prints per call. `depth` is the number of `'|  '` indents:
      the entry line carries the name and argument, the exit line the returned value. */
  datatype Event = Enter(depth: nat, name: string, arg: int) | Exit(depth: nat, value: int)

  datatype Option<T> = None | Some(value: T)

  /** The lines a depth-traced call of fib(n) prints when entered at depth d: its own entry
      line, the lines of its two recursive calls one level deeper, its own exit line. */
  function FibTrace(name: string, d: nat, n: nat): seq<Event>
    decreases n
  {
    [Enter(d, name, n)]
    + (if n == 0 || n == 1 then [] else FibTrace(name, d + 1, n - 1) + FibTrace(name, d + 1, n - 2))
    + [Exit(d, Fib(n))]
  }

  /** How many times fib's body runs in the call tree of fib(n). */
  function Invocations(n: nat): (r: nat)
    ensures r >= 1
    decreases n
  {
    if n == 0 || n == 1 then 1 else 1 + Invocations(n - 1) + Invocations(n - 2)
  }

  /** Reference reading of a log, independent of how it was produced: keep a live nesting depth
      `cur`, starting above `floor`. An entry line must carry the current depth and opens one
      level; an exit line must carry the depth of the level it closes, which must lie above
      `floor`. The result is the depth reached, or None when a line breaks these rules. */
  function Replay(t: seq<Event>, floor: nat, cur: nat): Option<nat>
    decreases |t|
  {
    if t == [] then Some(cur)
    else match t[0]
      case Enter(k, _, _) => if k == cur then Replay(t[1..], floor, cur + 1) else None
      case Exit(k, _) => if cur > floor && k == cur - 1 then Replay(t[1..], floor, cur - 1) else None
  }

  /** Number of entry lines in a log. */
  function Entries(t: seq<Event>): nat
    decreases |t|
  {
    if t == [] then 0 else (if t[0].Enter? then 1 else 0) + Entries(t[1..])
  }

  lemma {:induction false} EntriesAppend(a: seq<Event>, b: seq<Event>)
    ensures Entries(a + b) == Entries(a) + Entries(b)
    decreases |a|
  {
    if a != [] {
      assert (a + b)[0] == a[0];
      assert (a + b)[1..] == a[1..] + b;
      EntriesAppend(a[1..], b);
    } else {
      assert a + b == b;
    }
  }

  /** A call's lines replay cleanly from its entry depth back to that same depth, whatever
      follows them, as long as the depth never sinks to the floor. */
  lemma {:induction false} ReplayFibTrace(name: string, d: nat, n: nat, floor: nat, rest: seq<Event>)
    requires floor <= d
    ensures Replay(FibTrace(name, d, n) + rest, floor, d) == Replay(rest, floor, d)
    decreases n
  {
    var inner := if n == 0 || n == 1 then [] else FibTrace(name, d + 1, n - 1) + FibTrace(name, d + 1, n - 2);
    var t := FibTrace(name, d, n) + rest;
    assert t == [Enter(d, name, n)] + (inner + ([Exit(d, Fib(n))] + rest));
    assert t[1..] == inner + ([Exit(d, Fib(n))] + rest);
    var tail := [Exit(d, Fib(n))] + rest;
    if n >= 2 {
      var a := FibTrace(name, d + 1, n - 1);
      var b := FibTrace(name, d + 1, n - 2);
      assert inner + tail == a + (b + tail);
      ReplayFibTrace(name, d + 1, n - 1, floor, b + tail);
      ReplayFibTrace(name, d + 1, n - 2, floor, tail);
    }
    assert tail[1..] == rest;
  }

  /** The shape of one traced call fib(n) entered at depth d: it opens with its entry line and
      closes with its exit line, both at depth d, the exit carrying fib(n); every line in between
      is deeper; read as a log it keeps the indentation equal to the live nesting depth and comes
      back to d; it prints one entry line per run of the body and twice that many lines in all. */
  lemma {:induction false} FibTraceShape(name: string, d: nat, n: nat)
    ensures FibTrace(name, d, n)[0] == Enter(d, name, n)
    ensures FibTrace(name, d, n)[|FibTrace(name, d, n)| - 1] == Exit(d, Fib(n))
    ensures forall i :: 0 < i < |FibTrace(name, d, n)| - 1 ==> FibTrace(name, d, n)[i].depth > d
    ensures Replay(FibTrace(name, d, n), d, d) == Some(d)
    ensures Entries(FibTrace(name, d, n)) == Invocations(n)
    ensures |FibTrace(name, d, n)| == 2 * Invocations(n)
    decreases n
  {
    var t := FibTrace(name, d, n);
    ReplayFibTrace(name, d, n, d, []);
    assert t + [] == t;
    if n == 0 || n == 1 {
      assert t == [Enter(d, name, n), Exit(d, Fib(n))];
      assert t[1..] == [Exit(d, Fib(n))];
    } else {
      var a := FibTrace(name, d + 1, n - 1);
      var b := FibTrace(name, d + 1, n - 2);
      FibTraceShape(name, d + 1, n - 1);
      FibTraceShape(name, d + 1, n - 2);
      assert t == [Enter(d, name, n)] + (a + b) + [Exit(d, Fib(n))];
      forall i | 0 < i < |t| - 1
        ensures t[i].depth > d
      {
        if i - 1 < |a| {
          assert t[i] == a[i - 1];
        } else {
          assert t[i] == b[i - 1 - |a|];
        }
      }
      EntriesAppend([Enter(d, name, n)], a + b);
      EntriesAppend(a, b);
      EntriesAppend([Enter(d, name, n)] + (a + b), [Exit(d, Fib(n))]);
      assert Entries([Exit(d, Fib(n))]) == 0;
      assert Entries([Enter(d, name, n)]) == 1;
    }
  }

  /** The state `beautiful_trace(fib)` attaches to fib: its name, the `rec_depth` counter (0 at
      decoration time) and the lines printed so far. `calls` only counts runs of the body. */
  class TracedFib {
    const name: string
    var recDepth: nat
    var log: seq<Event>
    ghost var calls: nat

    constructor (name: string)
      ensures this.name == name && recDepth == 0 && log == [] && calls == 0
    {
      this.name := name;
      recDepth := 0;
      log := [];
      calls := 0;
    }

    /** The wrapper `inner`: print the entry line at the current depth, go one level deeper for
        the call, come back up, and print the exit line at the restored depth. */
    method Fib(n: nat) returns (v: int)
      modifies this
      ensures v == Fibonacci.Fib(n)
      ensures recDepth == old(recDepth)
      ensures log == old(log) + FibTrace(name, old(recDepth), n)
      ensures calls == old(calls) + Invocations(n)
      decreases n, 1
    {
      log := log + [Enter(recDepth, name, n)];
      recDepth := recDepth + 1;
      v := Body(n);
      recDepth := recDepth - 1;
      log := log + [Exit(recDepth, v)];
    }

    /** The undecorated body of `fib`; its recursive calls reach the wrapper again. */
    method Body(n: nat) returns (v: int)
      modifies this
      ensures v == Fibonacci.Fib(n)
      ensures recDepth == old(recDepth)
      ensures log == old(log) + (if n == 0 || n == 1 then []
                                 else FibTrace(name, recDepth, n - 1) + FibTrace(name, recDepth, n - 2))
      ensures calls == old(calls) + 1 + (if n == 0 || n == 1 then 0 else Invocations(n - 1) + Invocations(n - 2))
      decreases n, 0
    {
      calls := calls + 1;
      if n == 0 || n == 1 {
        v := 1;
      } else {
        var a := Fib(n - 1);
        var b := Fib(n - 2);
        v := a + b;
      }
    }
  }

  /** A first call of the depth-traced fib(n) from top level: its log is well nested from
      depth 0 back to depth 0, and it prints one entry and one exit line per run of the body. */
  method FirstCall(n: nat) returns (v: int, log: seq<Event>, ghost calls: nat)
    ensures v == Fib(n)
    ensures Replay(log, 0, 0) == Some(0)
    ensures Entries(log) == calls && |log| == 2 * calls && calls >= 1
    ensures log[0] == Enter(0, "fib", n) && log[|log| - 1] == Exit(0, v)
  {
    var t := new TracedFib("fib");
    v := t.Fib(n);
    log := t.log;
    calls := t.calls;
    assert log == FibTrace("fib", 0, n);
    FibTraceShape("fib", 0, n);
  }
}
