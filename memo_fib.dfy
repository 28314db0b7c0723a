/** `fib` decorated as `@profile @memoize`: every call, including the recursive ones (the
    decorated name is what the body calls), goes through profile's depth bookkeeping and then
    through memoize's cache before the body runs. */
module MemoFib {
  import opened Fibonacci
  import opened Profile

  /** The arguments 0 through n: the only keys a call of fib(n) can add to the cache. */
  ghost function UpTo(n: int): (r: set<int>)
    ensures forall k :: k in r <==> 0 <= k <= n
    ensures |r| == if n < 0 then 0 else n + 1
    decreases n
  {
    if n < 0 then {} else UpTo(n - 1) + {n}
  }

  /** The decorated `fib`: `cache` is memoize's `f.cache` on the undecorated function; `profiler`
      is profile's state on the memoized function; `calls` counts runs of the body. */
  class ProfiledMemoFib {
    var cache: map<int, int>
    ghost var calls: nat
    const profiler: Profiler<int>

    /** Every cached value is the recurrence's value, and the body ran once per cached key. */
    ghost predicate Valid()
      reads this
    {
      && (forall k :: k in cache ==> k >= 0 && cache[k] == Fibonacci.Fib(k))
      && calls == |cache|
    }

    constructor (profiler: Profiler<int>)
      ensures Valid()
      ensures this.profiler == profiler && cache == map[] && calls == 0
    {
      this.profiler := profiler;
      cache := map[];
      calls := 0;
    }

    /** The outermost layer, profile's `inner`. */
    method Fib(n: nat) returns (v: int)
      requires Valid()
      modifies this, profiler
      ensures Valid()
      ensures v == Fibonacci.Fib(n)
      ensures n in cache && old(cache).Keys <= cache.Keys
      ensures cache.Keys <= old(cache).Keys + UpTo(n)
      ensures n in old(cache) ==> cache == old(cache) && calls == old(calls)
      ensures profiler.depth == old(profiler.depth)
      ensures profiler.log == old(profiler.log) + CallLog(old(profiler.depth), profiler.name, n)
      decreases n, 2
    {
      profiler.Enter();
      v := Memoized(n);
      profiler.Leave(n);
    }

    /** The middle layer, memoize's `g`: run the body on a miss, store its value, return the
        cached value. */
    method Memoized(n: nat) returns (v: int)
      requires Valid() && profiler.depth >= 1
      modifies this, profiler
      ensures Valid()
      ensures v == Fibonacci.Fib(n)
      ensures n in cache && old(cache).Keys <= cache.Keys
      ensures cache.Keys <= old(cache).Keys + UpTo(n)
      ensures n in old(cache) ==> cache == old(cache) && calls == old(calls)
      ensures profiler.depth == old(profiler.depth) && profiler.log == old(profiler.log)
      decreases n, 1
    {
      if n !in cache {
        var r := Body(n);
        cache := cache[n := r];
        calls := calls + 1;
      }
      v := cache[n];
    }

    /** The undecorated body of `fib`; its recursive calls reach the decorated `fib` again. */
    method Body(n: nat) returns (v: int)
      requires Valid() && profiler.depth >= 1
      modifies this, profiler
      ensures Valid()
      ensures v == Fibonacci.Fib(n)
      ensures old(cache).Keys <= cache.Keys
      ensures cache.Keys <= old(cache).Keys + UpTo(n - 1)
      ensures profiler.depth == old(profiler.depth) && profiler.log == old(profiler.log)
      decreases n, 0
    {
      if n == 0 || n == 1 {
        v := 1;
      } else {
        var a := Fib(n - 1);
        var b := Fib(n - 2);
        v := a + b;
      }
    }
  }

  /** A subset is no larger than its superset. */
  lemma SubsetSize(a: set<int>, b: set<int>)
    requires a <= b
    ensures |a| <= |b|
  {
    assert b == a + (b - a);
  }

  /** A first call of the decorated `fib(n)`: it returns the recurrence's value, prints the
      profile lines once (start, end, report), and runs the body at most n + 1 times. The report
      names memoize's wrapper `g`, the function `profile` was applied to. */
  method FirstCall(n: nat) returns (v: int, log: seq<Event<int>>, ghost calls: nat)
    ensures v == Fibonacci.Fib(n)
    ensures log == [StartStamp, EndStamp, Report("g", n)]
    ensures calls <= n + 1
  {
    var p := new Profiler<int>("g");
    var d := new ProfiledMemoFib(p);
    v := d.Fib(n);
    log := p.log;
    calls := d.calls;
    assert d.cache.Keys <= UpTo(n);
    SubsetSize(d.cache.Keys, UpTo(n));
  }

  /** Calling the decorated `fib(n)` a second time is a cache hit: the same value, and the body
      does not run again. */
  method RepeatCall(n: nat) returns (first: int, second: int, ghost callsAfterFirst: nat, ghost callsAfterSecond: nat)
    ensures first == Fibonacci.Fib(n) && second == first
    ensures callsAfterSecond == callsAfterFirst
  {
    var p := new Profiler<int>("g");
    var d := new ProfiledMemoFib(p);
    first := d.Fib(n);
    callsAfterFirst := d.calls;
    second := d.Fib(n);
    callsAfterSecond := d.calls;
  }
}
