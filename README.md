# Function-wrapping decorators, modelled in Dafny

`beautiful_decorators.py` shows higher-order wrappers that add behaviour around a
one-argument function without touching its body. The only live one is `trace`. The file also
holds commented-out versions of `beautiful_trace` (indents log lines by recursion depth),
`profile` (times the outermost call), `memoize` (caches results in a dictionary attached to the
function) and two decorated functions, `flatten_list` and `fib`. This project models all of
them from the source text as written.

Console output is an appended log of abstract events. The state that Python attaches to a
function object (`f.cache`, `f.rec_depth`, `func.depth`) is a field of an explicit object. A
recursive decorated function calls its decorated name, so its recursive calls pass through the
wrappers again. The model follows that path: the decorated function is a method that runs the
wrapper's steps and then calls a body method, and the body calls the decorated method again.

Modules, one per concept of the file:

- `Fibonacci` (fib.dfy): the recurrence, with `fib(0) = fib(1) = 1`.
- `Trace` (trace.dfy): the live `trace` decorator, as a function returning the value and the two events it prints.
- `Profile` (profile.dfy): `profile`'s depth counter and the lines it prints, as a `Profiler` class.
- `Memoize` (memoize.dfy): `memoize` over any `int -> int` function, as a `Memo` class holding the cache.
- `MemoFib` (memo_fib.dfy): `fib` decorated `@profile @memoize`, as in the file.
- `DepthTrace` (depth_trace.dfy): `beautiful_trace`, applied to `fib`.
- `FlattenList` (flatten.dfy): `flatten_list` decorated `@profile`, proved against a pure recursive flattening.

Ghost counters named `calls` count how often the wrapped function's body actually runs. They
are not in the source. With `memoize` they state that the cache saves work. With
`beautiful_trace` they match the entry lines to the runs of the body.

## Model

| member | source | states |
|---|---|---|
| Fibonacci.Fib | beautiful_decorators.py:76-80 | the recurrence: both base cases give 1, every value is at least 1 |
| Trace.Trace | beautiful_decorators.py:3-9 | the wrapper returns exactly `f(x)` and emits exactly two events, in order: the call event with the name and `x`, then the return event with that same value |
| Profile.Profiler.constructor | beautiful_decorators.py:24 | decoration sets the depth to 0; nothing is printed yet |
| Profile.Profiler.Enter | beautiful_decorators.py:26-29 | the depth goes up by one; the start line is printed only when the new depth is 1 |
| Profile.Profiler.Leave | beautiful_decorators.py:31-37 | the end line is printed only at depth 1; the depth goes down by one; the report is printed only when the depth is back to 0 |
| Profile.ReportOnlyOutermost | beautiful_decorators.py:35-37 | a profiled call's log holds a report if and only if the call was entered at depth 0, and then the report is its last line |
| Memoize.Memo.constructor | beautiful_decorators.py:41-42 | decoration starts with an empty cache, which is trivially coherent |
| Memoize.Memo.Call | beautiful_decorators.py:43-46 | returns `f(x)` and keeps every entry equal to `f` of its key; on a miss the cache becomes the old one plus `x := f(x)` and `f` runs once; on a hit the cache is unchanged and `f` does not run |
| Memoize.CallTwice | beautiful_decorators.py:43-46 | two calls with one argument agree, run `f` at most once, and add only that key |
| Memoize.IndependentEntries | beautiful_decorators.py:43-46 | storing one key leaves a different, absent key a miss |
| Memoize.SquareScenario | beautiful_decorators.py:41-47 | a memoized square gives 16, 16 and 25 for 4, 4 and 5, and the square runs only twice |
| MemoFib.ProfiledMemoFib.constructor | beautiful_decorators.py:74-76 | decorated `fib` starts with an empty, coherent cache |
| MemoFib.ProfiledMemoFib.Fib | beautiful_decorators.py:25-38 | the profiled, memoized `fib(n)` equals the plain recurrence; the cache stays coherent, holds `n` afterwards, keeps every old key and adds none above `n`; when `n` was already cached, neither the cache nor the body's run count changes; the profile depth is restored; a report is printed only for the outermost call |
| MemoFib.ProfiledMemoFib.Memoized | beautiful_decorators.py:43-46 | the cache lookup around fib's body: returns the recurrence's value; a hit changes neither the cache nor the run count; the body runs once per newly cached key; nested calls print nothing |
| MemoFib.ProfiledMemoFib.Body | beautiful_decorators.py:76-80 | fib's body, with its recursive calls going through the cache, returns the recurrence's value and adds only keys below `n` |
| MemoFib.FirstCall | beautiful_decorators.py:74-80 | a first call `fib(n)` returns the recurrence's value, prints start, end and report exactly once (the report names `g`, memoize's wrapper, which is what `profile` wraps), and runs the body at most `n + 1` times |
| MemoFib.RepeatCall | beautiful_decorators.py:43-46 | a second call `fib(n)` is a cache hit: it returns the same value and the body does not run again |
| DepthTrace.TracedFib.constructor | beautiful_decorators.py:11-12 | decoration sets `rec_depth` to 0 |
| DepthTrace.TracedFib.Fib | beautiful_decorators.py:13-19 | the depth-traced `fib(n)` returns the recurrence's value; `rec_depth` is back to its pre-call value after every call, recursive ones included; the log grows by exactly the nested trace of the call tree, with entry and exit of each call at the same depth |
| DepthTrace.TracedFib.Body | beautiful_decorators.py:76-80 | fib's body under the trace: its recursive calls' lines are one level deeper, and `rec_depth` is unchanged around it |
| DepthTrace.ReplayFibTrace | beautiful_decorators.py:14-18 | read with a live nesting counter, a call's lines are consistent and bring the counter back to the call's own depth, never below it |
| DepthTrace.FibTraceShape | beautiful_decorators.py:14-18 | a call's lines open with its entry and close with its exit, both at its own depth, and the exit carries `fib(n)`; every line in between is deeper; the indentation always equals the live nesting depth; there is one entry line per run of the body, and twice as many lines in all |
| DepthTrace.FirstCall | beautiful_decorators.py:11-20 | a top-level call's log starts and ends at depth 0, nests correctly, and holds one entry/exit pair per run of the body |
| FlattenList.FlattenAllAppend | beautiful_decorators.py:68-69 | appending element by element: flattening a concatenation gives the two flattenings concatenated, in order |
| FlattenList.FlattenAllCons | beautiful_decorators.py:68-69 | a list's flattening is its first element's flattening followed by the rest's, left to right |
| FlattenList.FlattenShape | beautiful_decorators.py:66-72 | the result holds only non-list items, and its length is the number of items in the input |
| FlattenList.FlattenAllShape | beautiful_decorators.py:68-70 | the same two facts for a list's elements taken together |
| FlattenList.FlattenAtoms | beautiful_decorators.py:67-72 | a list of non-list items flattens to itself |
| FlattenList.FlattenIdempotent | beautiful_decorators.py:65-72 | flattening an already flattened list changes nothing |
| FlattenList.FlattenProfiled | beautiful_decorators.py:64-72 | the profiled `flatten_list` returns the reference flattening, restores the profile depth, and prints its lines only when it is the outermost call |
| FlattenList.FlattenBody | beautiful_decorators.py:66-72 | the accumulating loop yields the reference flattening: a singleton for a non-list, otherwise the elements' flattenings concatenated in order; nested calls print nothing |
| FlattenList.FirstCall | beautiful_decorators.py:64-72 | a top-level call returns the reference flattening, holds only items, one per input item, and prints start, end and report once |

## Left out

- Text of the printed lines (`repr`, `'|  ' * depth`, Python 2 `print` syntax): lines are abstract events. Depth is a number, not an indentation string.
- Timestamps, elapsed time and the `time` module in `profile` (lines 23, 27, 31, 36-37): wall-clock values and floats. `StartStamp`, `EndStamp` and `Report` record only which lines appear and when. `Report` stands for the two lines printed at depth 0 (lines 36-37).
- Variable arity: `profile`'s wrapper takes exactly one argument `x` (line 25), and so does the model.
- `supress_output` (lines 49-57): it swaps `sys.stdout` for `os.devnull`, which is process-level I/O.
- `foo` (lines 59-61) only prints. The top-level driver lines 81-82 are not modelled as such. `MemoFib.FirstCall` and `FlattenList.FirstCall` show what such a first call yields.
- Python metaprogramming: attributes attached to function objects, `__name__` and rebinding a name by decoration. These become explicit objects, a `name` field, and a method that calls the decorated method.
- Exceptions. The source catches none. If the inner call raises, `rec_depth` and `depth` are not restored (lines 16-17, 30-34). The model's wrapped functions never fail, so it claims restoration only for calls that return.
- `fib` on a negative argument recurses forever in the source, since `n is 0 or n is 1` never holds. The model takes `n` as a natural number. Python's `n is 0` is modelled as equality (lines 77-78).
- Python's recursion limit is not modelled, nor is the running time of `fib(46)` without the cache.
- Non-integer items: `flatten_list` treats anything that is not a `list` (strings, tuples, ...) as an item. The model's items are integers. `memoize`'s keys are integers, where Python accepts any hashable value.
- `beautiful_trace` is applied to nothing in the source. The model applies it to `fib`, so that its recursive case is exercised.
- Count-calls wrappers and a general wrapper pipeline are not in this file and are not modelled.
