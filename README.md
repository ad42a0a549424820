# b3j0f.utils: iterable helpers and dotted-path lookup, in Dafny

This project models two parts of the `b3j0f.utils` Python library and
proves properties of the models.

**Iterable helpers** (`b3j0f/utils/iterable.py`; module `Iterable`).
`isiterable`, `ensureiterable`, `first`, `last`, `itemat` and `slice` work
on any Python value. A value is modelled by its type and the order in which
iterating it produces elements (`Items`). The value kinds are `None`, a
non-iterable object, `str`, `list`, `tuple`, `set`, a generator, a
user-defined iterable, and `dict`/`OrderedDict`. A dict iterates its keys,
and its (key, value) entries are kept in iteration order. `iter()` returns
an `Iterator` object, and `next()` is `Iterator.Next`, with `None` standing
for `StopIteration`. So `last`, `itemat` and `slice` are `while` loops over
`Next`, and each is proved against a specification function on sequences.
Raised exceptions become `Err` values of `Outcomes.Result`.

**Dotted-path resolver** (`b3j0f/utils/path.py`; modules `Dotted` and `Path`).
`lookup(path)` splits the path on `.`. It resolves the first component as
an importable module, then from the caller's locals, then from the
caller's globals. It then imports successively longer dotted prefixes
until an import fails, and resolves the remaining components by
`getattr`. Successes are memoised in a module-level dict. The model makes
the interpreter explicit:

- `Env.modules`: what `import_module` succeeds on, by dotted name.
- `Env.attrs`: what `getattr` succeeds on.
- `Scope`: the calling frame's local and global bindings.

The module-level `__LOOKUP_CACHE` is the `cache` field of a `Resolver`
object. `Resolver.Lookup` runs the source's two loops and is proved equal
to the pure function `LookupSpec`, which is built on `Resolve`. The lemmas
are proved about those two functions. `getpath` is the function `GetPath`.

Where the code and its documentation or tests disagree, the model follows
the code. Five of these points look like defects in the source. Each of
them has an as-written member and a corrected one under "## Findings":

- `slice` on a `str`, `list` or `tuple` raises `TypeError`. It indexes
  with the tuple `(lower, upper)` where native slicing was meant.
- The generic branch of `slice` collects positions
  `max(lower, 0) .. min(n, lower + upper) - 1`, not `lower .. upper - 1`.
- `itemat` returns `None` out of range. Its tests expect `IndexError`.
- `clearcache` never empties or shrinks the module cache.
- A path whose first component is empty (it starts with `.`) makes
  `import_module('')` raise `ValueError`, which `lookup` does not catch.
  Its docstring promises `ImportError` for a wrong path.

Two more points are modelled as the code has them and have no corrected
counterpart:

- An error from an attribute access carries the list of components
  resolved so far, `components[:index]`.
- The test module imports a function `sliceit`, which `iterable.py` does
  not define. The modelled function is `slice` (`Iterable.Slice`).

## Model

| member | source | states |
|---|---|---|
| `Iterable.IsIterable` | b3j0f/utils/iterable.py:54-58 | the definition of `isiterable`: not an instance of any excluded type, and an instance of `Iterable`. `IsIterableExcluded` and `IsIterableUnexcluded` state its meaning |
| `Iterable.IsIterableExcluded` | b3j0f/utils/iterable.py:54-56 | `isiterable` is false whenever the element is an instance of a type in `exclude` |
| `Iterable.IsIterableUnexcluded` | b3j0f/utils/iterable.py:55-56 | when no type in `exclude` matches the element, `isiterable` is exactly "the element is iterable" (so `isiterable([], exclude=str)` holds), in particular for `exclude=None`; `None` is never iterable, whatever `exclude` is |
| `Iterable.EnsureIterable` | b3j0f/utils/iterable.py:80-89 | the definition of `ensureiterable`: the factory applied to `[value]` when `value` is not iterable or excluded, and to `value` itself otherwise. `EnsureIterableContents` and `EnsureIterableIdempotent` state its meaning for `list` |
| `Iterable.ListOf` | b3j0f/utils/iterable.py:61 | the default factory `list`: the elements of an iterable in iteration order, and `TypeError` for a non-iterable value |
| `Iterable.EnsureIterableContents` | b3j0f/utils/iterable.py:80-89 | with the `list` factory, `ensureiterable` never raises. A non-iterable or excluded value becomes the one-element list `[value]`. An iterable value becomes a list of its elements in iteration order |
| `Iterable.EnsureIterableIdempotent` | b3j0f/utils/iterable.py:80-89 | when lists are not excluded, applying `ensureiterable` to its own result gives the same result |
| `Iterable.Iterator.Next` | b3j0f/utils/iterable.py:115-116 | `next()` produces the next unconsumed element and advances by one; on an exhausted iterator it signals `StopIteration` and changes nothing |
| `Iterable.Iter` | b3j0f/utils/iterable.py:112 | `iter(v)` raises `TypeError` exactly for non-iterable values; otherwise it gives a fresh iterator over `v`'s elements with nothing consumed |
| `Iterable.First` | b3j0f/utils/iterable.py:109-119 | `first` gives element 0 of a non-empty iterable and `default` for an empty one; `TypeError` for a non-iterable value |
| `Iterable.Exhaust` | b3j0f/utils/iterable.py:124-135 | the loop of `last` returns the final element produced, or `default` if none is left, and leaves the iterator exhausted |
| `Iterable.Last` | b3j0f/utils/iterable.py:121-135 | `last` gives the final element of a non-empty iterable and `default` for an empty one; `TypeError` for a non-iterable value |
| `Iterable.ItemAtSpec` | b3j0f/utils/iterable.py:141-161 | the element `itemat` yields: `s[i]` for `0 <= i < n`, `s[n + i]` for `-n <= i < 0`, and `None` for every other index, including `i < -n` |
| `Iterable.Advance` | b3j0f/utils/iterable.py:148-159 | the `while index >= 0` loop consumes exactly `index + 1` elements when the element exists, and all remaining ones when the iterator runs out first (then it returns `None`); a negative index consumes nothing; `index` strictly decreases |
| `Iterable.ItemAt` | b3j0f/utils/iterable.py:137-161 | `itemat` returns `Items(v)` at the normalised index, or `None` out of range. It raises `TypeError` for a non-iterable value, and for a negative index on a value without `len` |
| `Iterable.ItemAtChecked` | b3j0f/utils/test/iterable.py:246-269 | the behaviour the tests expect: the same element in range, and `IndexError` out of range |
| `Iterable.ItemAtOutOfRangeIsNone` | b3j0f/utils/iterable.py:141 | as written, an index past the end gives `None`, indistinguishable from a stored `None`; the checked version tells them apart |
| `Iterable.Window` | b3j0f/utils/iterable.py:181-190 | the `for index in range(0, lower + upper)` loop keeps exactly what `next` produces at positions `lower` and beyond, stopping at `StopIteration`: the window `Collected(items, lower, upper)`. It consumes `min(n, max(lower + upper, 0))` elements of the iterator |
| `Iterable.CollectWindow` | b3j0f/utils/iterable.py:178-190 | when `upper > lower`, `slice` collects exactly the window `Collected(Items(v), lower, upper)`, and `iter` raises `TypeError` for a non-iterable value |
| `Iterable.BuildDict` | b3j0f/utils/iterable.py:192-196 | the loop that fills the result dict assigns each collected key its value from the input dict, in order |
| `Iterable.Rebuild` | b3j0f/utils/iterable.py:199-204 | `iterablecls(values)` with the list fallback: a collection keeps its kind, and a generator or non-collection falls back to a list |
| `Iterable.SliceSpec` | b3j0f/utils/iterable.py:163-206 | the definition of what `slice` returns or raises, branch by branch: the native branch, the `len` shifts of negative bounds, `iter`, the window, and the dict or rebuilt result. The slice lemmas state its meaning |
| `Iterable.Slice` | b3j0f/utils/iterable.py:163-206 | `slice` returns or raises exactly `SliceSpec`: `TypeError` on the native branch and when `len` or `iter` is missing; otherwise the collected window, rebuilt with the input's type, a plain dict, or the list fallback |
| `Iterable.SliceEmptyWhenBoundsCross` | b3j0f/utils/iterable.py:172-178 | when the shifted `upper` is not above the shifted `lower`, the generic branch returns an empty container for every kind of value |
| `Iterable.CollectedPositions` | b3j0f/utils/iterable.py:181-190 | the collected values are the elements at positions `max(lower, 0) .. min(n, lower + upper) - 1` in original order, so there are `max(0, min(n, lower + upper) - max(lower, 0))` of them |
| `Iterable.SliceGenericElements` | b3j0f/utils/iterable.py:198-204 | a `set` or user iterable is rebuilt with its own type; a generator's window becomes a list, the `except` fallback |
| `Iterable.SliceDictEntries` | b3j0f/utils/iterable.py:192-196 | slicing a dict gives a plain dict whose entries are the input's entries in the window: each collected key keeps its original value, in iteration order |
| `Iterable.SliceDefaultBounds` | b3j0f/utils/iterable.py:163 | with the default bounds `0` and `sys.maxsize` the window is every element |
| `Iterable.SliceIntended` | b3j0f/utils/test/iterable.py:310-332 | native slicing `s[lower:upper]`: `max(0, hi - lo)` elements starting at `lo`, where `lo` and `hi` are the bounds shifted once when negative and clamped to `0 .. n` |
| `Iterable.NativeSlice` | b3j0f/utils/test/iterable.py:312-313 | slicing a `str`, `list` or `tuple` as intended keeps its type and holds the intended window of its elements |
| `Iterable.CollectedFromStart` | b3j0f/utils/iterable.py:181 | from lower bound `0` the generic branch agrees with native slicing |
| `Iterable.CollectedWindowOvershoots` | b3j0f/utils/iterable.py:181 | on four elements with bounds `1, 2` the generic branch collects positions 1 and 2, where native slicing gives position 1 alone |
| `Iterable.NativeBranchRaises` | b3j0f/utils/iterable.py:166-167 | every `str`, `list` and `tuple`, though iterable, makes `slice` raise `TypeError` |
| `Dotted.Split` | b3j0f/utils/path.py:64 | `path.split('.')` has at least one component, and no component contains a dot |
| `Dotted.JoinSplit` | b3j0f/utils/path.py:64 | joining the components with `.` gives back the path |
| `Dotted.SplitJoin` | b3j0f/utils/path.py:96-97 | splitting dot-free components joined with `.` gives back the components |
| `Dotted.SplitAppend` | b3j0f/utils/path.py:141-142 | appending `"." + name` for a dot-free name adds exactly one component |
| `Dotted.PrefixNext` | b3j0f/utils/path.py:96-97 | each module name tried is the previous one extended by `.` and the next component, i.e. `'.'.join(components[:index + 1])` |
| `Path.Cleared` | b3j0f/utils/path.py:18-20 | the documented `clearcache`: nothing is left for `None`; otherwise every entry but `path`, with its value unchanged |
| `Path.GetPath` | b3j0f/utils/path.py:137-144 | `getpath` fails with `AttributeError` exactly when `__name__` or `__module__` is missing; for a module it is the module's name |
| `Path.Resolver.constructor` | b3j0f/utils/path.py:13 | the cache starts empty |
| `Path.Root` | b3j0f/utils/path.py:68-83 | the definition of the first-component step: `ValueError` for an empty name, then a module, a local, a global, else `ImportError(path)`. `RootOrder` states its meaning |
| `Path.Imports` | b3j0f/utils/path.py:89-99 | the import loop: it stops at the first dotted prefix that does not import, at a position between its start and the number of components. `ImportsChain` states the rest |
| `Path.Attrs` | b3j0f/utils/path.py:101-111 | the definition of the attribute loop: `getattr` component by component, and `ImportError` with `components[:index]` at the first missing attribute. `AttrsError` and `AttrsIgnoreModules` state its meaning |
| `Path.Resolve` | b3j0f/utils/path.py:58-111 | the definition of the uncached `lookup`: split, root, import chain, then attributes. `ImportsNeverResume`, `FailureReport` and the round-trip lemmas state its meaning |
| `Path.LookupSpec` | b3j0f/utils/path.py:52-118 | the definition of `lookup` on a cache: a hit on a non-empty cached path when caching, otherwise `Resolve`, with the result stored on success when caching. `CacheHit`, `CacheFrame` and `EmptyPathFails` state its meaning |
| `Path.Resolver.Lookup` | b3j0f/utils/path.py:29-120 | `lookup`'s result and the new cache are exactly `LookupSpec` of the old cache: a cache hit, or `Resolve` with `cache[path] := result` on success when caching |
| `Path.Resolver.ClearCacheAsWritten` | b3j0f/utils/path.py:22-26 | `clearcache()` returns normally and `clearcache(path)` raises `UnboundLocalError`; neither may change the cache (the method has no `modifies`) |
| `Path.Resolver.ClearCache` | b3j0f/utils/path.py:16-21 | the documented `clearcache`: the cache afterwards is `Cleared(old cache, path)` |
| `Path.ClearAllKeepsEntry` | b3j0f/utils/path.py:23-24 | after `lookup('os')` and `clearcache()` as written, `'os'` is still cached |
| `Path.EmptyPathFails` | b3j0f/utils/path.py:53-58 | an empty path raises `ImportError` and leaves the cache untouched, with or without caching |
| `Path.CacheHit` | b3j0f/utils/path.py:53-56 | with caching on and the path cached, the cached object is returned, the cache is unchanged, and modules and scope make no difference |
| `Path.CacheFrame` | b3j0f/utils/path.py:109-118 | the cache changes only by `cache[path] := result` after a success with caching on. Failures and uncached lookups leave it as it was. No key other than `path` changes |
| `Path.RootOrder` | b3j0f/utils/path.py:70-83 | an importable first component makes the scope irrelevant; failing that, a local binding makes the globals irrelevant; with none of the three, `ImportError` |
| `Path.ImportsChain` | b3j0f/utils/path.py:91-99 | the import loop imports the successive prefixes `components[:j]`, stops at the first that fails, and yields the deepest module imported |
| `Path.AttrsIgnoreModules` | b3j0f/utils/path.py:103-107 | the attribute loop depends only on attributes, never on what is importable |
| `Path.ImportsNeverResume` | b3j0f/utils/path.py:87-107 | `lookup` is the import prefix chain up to the first failed import, then attribute access from the last object obtained, and adding modules at longer names cannot change that second part |
| `Path.FailureReport` | b3j0f/utils/path.py:105-118 | every failure is `ValueError` for an empty first component, `ImportError(path)` for an unresolved root, or `ImportError` with `components[:i]` where `1 <= i < len(components)` |
| `Path.LeadingDotRaisesValueError` | b3j0f/utils/path.py:68-72 | a path `"." + n` makes `import_module('')` raise `ValueError`, and `lookup` lets it escape |
| `Path.ResolveDocumented` | b3j0f/utils/path.py:44 | the documented `lookup`: every failure is an `ImportError` about the path. It agrees with `Resolve` except that the empty-first-component `ValueError` becomes `ImportError(path)` |
| `Path.GetPathRoundTrip` | b3j0f/utils/path.py:123-144 | without the cache, resolving `getpath(x)` gives `x`, from any calling scope, for a member at the top level of a module whose every dotted prefix is importable |
| `Path.GetPathLookupRoundTrip` | b3j0f/utils/path.py:29-58 | `lookup(getpath(x))` with its default cache gives `x` when the cache holds nothing or `x` under that path, and then leaves `x` cached there; also with caching off |
| `Path.StaleEntryBreaksRoundTrip` | b3j0f/utils/path.py:53-56 | the cache condition is needed: a different object cached under `getpath(x)` is returned instead of `x` |
| `Path.ModuleRoundTrip` | b3j0f/utils/path.py:141 | without the cache, resolving `getpath(m)` gives `m` for an importable module `m` whose prefixes are importable |
| `Path.ModuleLookupRoundTrip` | b3j0f/utils/path.py:52-58 | `lookup(getpath(m))` with the cache gives `m` when nothing else is cached under its name, and then leaves `m` cached |
| `Path.ClearThenLookupAgain` | b3j0f/utils/path.py:113-118 | after a successful cached lookup, removing the entry and looking up again without the cache gives the same object |
| `Path.CachedScopeNameLeaks` | b3j0f/utils/path.py:76-115 | a name resolved from one caller's locals is cached under the bare name, and a later call from a frame binding that name differently gets the first caller's object |

## Left out

- Iterator state shared with the caller is out of scope. A generator
  passed to `first`, `last`, `itemat` or `slice` is its own iterator, and
  the calls consume it. The value-level methods start a fresh `Iterator`
  over the value's elements. `Exhaust`, `Advance` and `Window` state how
  much of an `Iterator` they are given they consume.
- Subclassing: `isinstance` knows only `object`, exact types, and
  `OrderedDict` as a subclass of `dict`.
- `ensureiterable`'s factory is a parameter. Only `list` (`ListOf`) is
  given a definition.
- `slice` rebuilds a user iterable by calling its class on the list of
  values. The model assumes that call succeeds. A constructor that raises,
  where the bare `except` would fall back to the list, is not modelled.
- Rebuilding a `set` may reorder its elements. The model keeps the
  iteration order.
- Iterable.SliceDictEntries: requires `DistinctKeys`. A real dict never
  repeats a key, but `Value` does not enforce that.
- Real `import_module` side effects and frame inspection are out of scope,
  and so are exceptions other than `ImportError` raised while importing a
  module. Modules and scopes are explicit maps. `Env.modules` is taken as
  given: importing `a.b` does not by itself require `a`.
- The `random()` sentinel that marks "not found" is an `Err` result.
- Non-string paths are out of scope. `lookup(None)` also fails with
  `ImportError`.
- Python 2/3 differences and `six` are out of scope.
- `getattr` is the fixed map `Env.attrs`, so the same attribute access
  always gives the same object. In Python 2 each access to a method builds
  a new unbound method, so `lookup` of a method path is not that method
  object.
- Iterables are finite: `Items` is a sequence. On an infinite generator
  `last` never returns, while `Exhaust` always terminates.
- A sized user class is taken to have a `len` equal to the number of
  elements it iterates. `itemat` and `slice` use that length to shift
  negative indexes and bounds.
- An object iterable only through `__getitem__` is modelled as a
  non-iterable `Scalar`. `iter` raises `TypeError` for it, while Python's
  `iter()` accepts it.
- Iterable.Rebuild: for a non-iterable value the model always falls back
  to the list. A class that accepts a list, as `bool` does, is not
  modelled, so `slice(True, 1, 0)` gives an empty list where the source
  gives `False`.
- `b3j0f/utils/proxy/core.py` and `b3j0f/utils/reflect.py` rely on runtime
  class synthesis and interpreter reflection. They are not part of this
  model. `setup.py` is packaging and is not part of this model either.

## Findings

| source | as written | input that shows it | evidently intended | confidence | as-written member | corrected member |
|---|---|---|---|---|---|---|
| b3j0f/utils/iterable.py:141-161 | an index out of range returns `None` | `itemat([], 0)` returns `None` | raise `IndexError`, as b3j0f/utils/test/iterable.py:248 and 269 assert | not executed | `Iterable.ItemAtOutOfRangeIsNone` | `Iterable.ItemAtChecked` |
| b3j0f/utils/iterable.py:167 | `iterable[lower, upper]` indexes with a tuple, which raises `TypeError` | `slice([1], 0, 1)` raises `TypeError` | native slicing `iterable[lower:upper]` | not executed | `Iterable.NativeBranchRaises` | `Iterable.NativeSlice` |
| b3j0f/utils/iterable.py:181 | the loop runs to `lower + upper`, collecting `max(lower, 0) .. min(n, lower + upper) - 1` | a 4-element set with `lower=1, upper=2` gives positions 1 and 2 | positions `lower .. upper - 1`, as b3j0f/utils/test/iterable.py:321-327 computes | not executed | `Iterable.CollectedWindowOvershoots` | `Iterable.SliceIntended` |
| b3j0f/utils/path.py:24 | `__LOOKUP_CACHE = {}` without `global` makes the name local to the whole function | `clearcache()` after `lookup('os')` leaves `'os'` cached; `clearcache('os')` raises `UnboundLocalError` at line 26 | remove one entry, or all entries for `None` (lines 18-20) | not executed | `Path.Resolver.ClearCacheAsWritten` | `Path.Resolver.ClearCache` |
| b3j0f/utils/path.py:72 | `import_module(module_name)` with an empty first component raises `ValueError`, which only an `except ImportError` follows | `lookup(".a")` raises `ValueError` | raise `ImportError`, as the docstring at line 44 promises | not executed | `Path.LeadingDotRaisesValueError` | `Path.ResolveDocumented` |
