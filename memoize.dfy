/** The `memoize` decorator over a one-argument integer function. */
module Memoize {

  /** The state `memoize(f)` creates: the wrapped function and the dictionary `f.cache` from
      arguments already seen to their results. `calls` only counts how often `f` itself ran. */
  class Memo {
    const f: int -> int
    var cache: map<int, int>
    ghost var calls: nat

    /** The cache is coherent: every stored entry is what `f` gives for its key. */
    ghost predicate Valid()
      reads this
    {
      forall k :: k in cache ==> cache[k] == f(k)
    }

    /** Decoration: the cache starts empty. */
    constructor (f: int -> int)
      ensures Valid()
      ensures this.f == f && cache == map[] && calls == 0
    {
      this.f := f;
      cache := map[];
      calls := 0;
    }

    /** The wrapper `g(x)`: on a miss compute `f(x)` and store it under `x`; on a hit return the
        stored value without running `f`. Either way the result is `f(x)`. */
    method Call(x: int) returns (v: int)
      requires Valid()
      modifies this
      ensures Valid()
      ensures v == f(x)
      ensures x in old(cache) ==> cache == old(cache) && calls == old(calls)
      ensures x !in old(cache) ==> cache == old(cache)[x := f(x)] && calls == old(calls) + 1
    {
      if x !in cache {
        calls := calls + 1;
        cache := cache[x := f(x)];
      }
      v := cache[x];
    }
  }

  /** Two calls with the same argument run `f` at most once and agree with each other. */
  method CallTwice(m: Memo, x: int) returns (a: int, b: int)
    requires m.Valid()
    modifies m
    ensures m.Valid()
    ensures a == m.f(x) && b == a
    ensures m.calls <= old(m.calls) + 1
    ensures old(m.cache).Keys <= m.cache.Keys && m.cache.Keys == old(m.cache).Keys + {x}
  {
    a := m.Call(x);
    b := m.Call(x);
  }

  /** Entries are independent: storing the result for `x2` leaves a different `x1` a miss. */
  method IndependentEntries(m: Memo, x1: int, x2: int) returns (v: int)
    requires m.Valid()
    requires x1 != x2 && x1 !in m.cache
    modifies m
    ensures m.Valid()
    ensures v == m.f(x2) && x2 in m.cache && x1 !in m.cache
  {
    v := m.Call(x2);
  }

  /** A memoized square: 4 misses (f runs), 4 again hits (f does not run), 5 misses. */
  method SquareScenario() returns (a: int, b: int, c: int, ghost calls: nat)
    ensures a == 16 && b == 16 && c == 25
    ensures calls == 2
  {
    var m := new Memo(x => x * x);
    a := m.Call(4);
    b := m.Call(4);
    c := m.Call(5);
    calls := m.calls;
  }
}
