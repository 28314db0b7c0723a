/** `flatten_list`, decorated with `@profile`: a nested list flattened into the sequence of its
    non-list items, left to right. Its recursive calls go through the profiling wrapper. */
module FlattenList {
  import opened Profile

  /** A value `flatten_list` may be given: a list of such values, or any other item (an integer
      here). */
  datatype Nested = Atom(value: int) | List(items: seq<Nested>)

  /** The reference flattening: an item stands for itself; a list is the concatenation, in
      order, of the flattenings of its elements. */
  function Flatten(n: Nested): seq<Nested>
    decreases n
  {
    match n
    case Atom(_) => [n]
    case List(xs) => FlattenAll(xs)
  }

  /** The flattenings of the elements of `xs`, concatenated in order. */
  function FlattenAll(xs: seq<Nested>): seq<Nested>
    decreases xs
  {
    if xs == [] then [] else FlattenAll(xs[..|xs| - 1]) + Flatten(xs[|xs| - 1])
  }

  /** Number of non-list items anywhere inside `n`. */
  function Leaves(n: Nested): nat
    decreases n
  {
    match n
    case Atom(_) => 1
    case List(xs) => LeavesAll(xs)
  }

  function LeavesAll(xs: seq<Nested>): nat
    decreases xs
  {
    if xs == [] then 0 else Leaves(xs[0]) + LeavesAll(xs[1..])
  }

  predicate AllAtoms(s: seq<Nested>)
  {
    forall i :: 0 <= i < |s| ==> s[i].Atom?
  }

  /** Flattening distributes over concatenation: the elements of `xs` come first, in order. */
  lemma {:induction false} FlattenAllAppend(xs: seq<Nested>, ys: seq<Nested>)
    ensures FlattenAll(xs + ys) == FlattenAll(xs) + FlattenAll(ys)
    decreases |ys|
  {
    if ys == [] {
      assert xs + ys == xs;
    } else {
      var zs := xs + ys;
      assert zs[..|zs| - 1] == xs + ys[..|ys| - 1];
      assert zs[|zs| - 1] == ys[|ys| - 1];
      FlattenAllAppend(xs, ys[..|ys| - 1]);
    }
  }

  /** A list's flattening is its first element's flattening followed by the rest's. */
  lemma FlattenAllCons(xs: seq<Nested>)
    requires xs != []
    ensures FlattenAll(xs) == Flatten(xs[0]) + FlattenAll(xs[1..])
  {
    assert xs == [xs[0]] + xs[1..];
    FlattenAllAppend([xs[0]], xs[1..]);
    assert [xs[0]][..0] == [];
  }

  /** The result holds only non-list items, one per item of the input. */
  lemma {:induction false} FlattenShape(n: Nested)
    ensures AllAtoms(Flatten(n))
    ensures |Flatten(n)| == Leaves(n)
    decreases n, 1
  {
    match n
    case Atom(_) =>
    case List(xs) => FlattenAllShape(xs);
  }

  lemma {:induction false} FlattenAllShape(xs: seq<Nested>)
    ensures AllAtoms(FlattenAll(xs))
    ensures |FlattenAll(xs)| == LeavesAll(xs)
    decreases xs, 0
  {
    if xs != [] {
      FlattenAllCons(xs);
      FlattenShape(xs[0]);
      FlattenAllShape(xs[1..]);
    }
  }

  /** A list of items only is already flat. */
  lemma {:induction false} FlattenAtoms(s: seq<Nested>)
    requires AllAtoms(s)
    ensures FlattenAll(s) == s
    decreases |s|
  {
    if s != [] {
      FlattenAtoms(s[..|s| - 1]);
      assert s[..|s| - 1] + [s[|s| - 1]] == s;
    }
  }

  /** Flattening is idempotent: flattening a flattened list changes nothing. */
  lemma FlattenIdempotent(n: Nested)
    ensures Flatten(List(Flatten(n))) == Flatten(n)
  {
    FlattenShape(n);
    FlattenAtoms(Flatten(n));
  }

  /** The decorated `flatten_list`: profile's wrapper around the body. */
  method FlattenProfiled(prof: Profiler<Nested>, nested: Nested) returns (ret: seq<Nested>)
    modifies prof
    ensures ret == Flatten(nested)
    ensures prof.depth == old(prof.depth)
    ensures prof.log == old(prof.log) + CallLog(old(prof.depth), prof.name, nested)
    decreases nested, 1
  {
    prof.Enter();
    ret := FlattenBody(prof, nested);
    prof.Leave(nested);
  }

  /** The undecorated body: start from an empty list and, for a list, append the flattening of
      each element in turn (each a call of the decorated function); otherwise a singleton. */
  method FlattenBody(prof: Profiler<Nested>, nested: Nested) returns (ret: seq<Nested>)
    requires prof.depth >= 1
    modifies prof
    ensures ret == Flatten(nested)
    ensures prof.depth == old(prof.depth) && prof.log == old(prof.log)
    decreases nested, 0
  {
    ret := [];
    match nested
    case List(xs) =>
      var i := 0;
      while i < |xs|
        invariant 0 <= i <= |xs|
        invariant ret == FlattenAll(xs[..i])
        invariant prof.depth == old(prof.depth) && prof.log == old(prof.log)
      {
        var sub := FlattenProfiled(prof, xs[i]);
        assert xs[..i + 1][..i] == xs[..i];
        ret := ret + sub;
        i := i + 1;
      }
      assert xs[..|xs|] == xs;
    case Atom(_) =>
      ret := [nested];
  }

  /** A top-level call of the decorated `flatten_list`: the result is the reference flattening,
      and profile prints its three lines once, for the outermost call only. */
  method FirstCall(nested: Nested) returns (ret: seq<Nested>, log: seq<Event<Nested>>)
    ensures ret == Flatten(nested)
    ensures AllAtoms(ret) && |ret| == Leaves(nested)
    ensures log == [StartStamp, EndStamp, Report("flatten_list", nested)]
  {
    var prof := new Profiler<Nested>("flatten_list");
    ret := FlattenProfiled(prof, nested);
    log := prof.log;
    FlattenShape(nested);
  }
}
