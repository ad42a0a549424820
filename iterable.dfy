/** The iterable helpers of b3j0f/utils/iterable.py.

    A Python value is modelled by what these helpers can observe of it: its
    type and the order in which iterating it produces elements. A dict
    iterates its keys; its (key, value) pairs are kept in iteration order.
    `iter()` gives an `Iterator` object and `next()` is `Iterator.Next`, so
    the loops of `last`, `itemat` and `slice` are loops over `Next` calls. */
module Iterable {
  import opened Outcomes

  /** `sys.maxsize` on a 64-bit interpreter: the default upper bound of `slice`. */
  const MaxSize: int := 0x7FFF_FFFF_FFFF_FFFF

  /** The kinds of non-string, non-mapping iterables: `list`, `tuple`, `set`,
      generators (no `len`, no constructor from a list) and user classes
      defining `__iter__` (with or without `__len__`). */
  datatype CollKind =
    | ListKind
    | TupleKind
    | SetKind
    | GeneratorKind
    | CustomKind(name: string, sized: bool)

  datatype Value =
    | NoneValue
      /** a number or any object of class `cls` without `__iter__` */
    | Scalar(cls: string, id: int)
    | Str(chars: string)
    | Coll(kind: CollKind, items: seq<Value>)
      /** a `dict` (an `OrderedDict` when `ordered`), entries in iteration order */
    | Dict(ordered: bool, entries: seq<(Value, Value)>)

  /** The types that may be named in an `exclude` argument. */
  datatype Type =
    | ObjectType
    | NoneType
    | ScalarType(name: string)
    | StrType
    | CollType(kind: CollKind)
    | DictType
    | OrderedDictType

  function TypeOf(v: Value): Type {
    match v
    case NoneValue => NoneType
    case Scalar(c, _) => ScalarType(c)
    case Str(_) => StrType
    case Coll(k, _) => CollType(k)
    case Dict(o, _) => if o then OrderedDictType else DictType
  }

  /** `isinstance(v, t)`: the exact type, `object`, and `OrderedDict` being a
      subclass of `dict`. */
  predicate IsInstance(v: Value, t: Type) {
    t == ObjectType || t == TypeOf(v) || (v.Dict? && v.ordered && t == DictType)
  }

  /** `isinstance(v, exclude)` for a tuple of types; `exclude=None` is the
      empty set, for which `isinstance` is false as well. */
  predicate Excluded(v: Value, exclude: set<Type>) {
    exists t :: t in exclude && IsInstance(v, t)
  }

  /** `isinstance(v, collections.Iterable)` */
  predicate IsIterableValue(v: Value) {
    v.Str? || v.Coll? || v.Dict?
  }

  /** `len(v)` is defined */
  predicate Sized(v: Value) {
    match v
    case Str(_) => true
    case Dict(_, _) => true
    case Coll(k, _) => !k.GeneratorKind? && (k.CustomKind? ==> k.sized)
    case _ => false
  }

  function Keys(entries: seq<(Value, Value)>): seq<Value> {
    seq(|entries|, i requires 0 <= i < |entries| => entries[i].0)
  }

  /** The elements `iter(v)` produces, in order. */
  function Items(v: Value): seq<Value>
    requires IsIterableValue(v)
  {
    match v
    case Str(s) => seq(|s|, i requires 0 <= i < |s| => Str([s[i]]))
    case Coll(_, xs) => xs
    case Dict(_, es) => Keys(es)
  }

  function Min(a: int, b: int): int { if a <= b then a else b }
  function Max(a: int, b: int): int { if a <= b then b else a }

  // ---------------------------------------------------------------- isiterable

  /** `isiterable(element, exclude)` */
  predicate IsIterable(element: Value, exclude: set<Type>) {
    !Excluded(element, exclude) && IsIterableValue(element)
  }

  lemma IsIterableExcluded(element: Value, exclude: set<Type>, t: Type)
    requires t in exclude && IsInstance(element, t)
    ensures !IsIterable(element, exclude)
  {
  }

  /** When no type in `exclude` matches the element (always so for
      `exclude=None`), the answer is exactly "element is iterable"; `None`
      is never iterable. */
  lemma IsIterableUnexcluded(element: Value, exclude: set<Type>)
    ensures !Excluded(element, exclude) ==> (IsIterable(element, exclude) <==> IsIterableValue(element))
    ensures IsIterable(element, {}) <==> IsIterableValue(element)
    ensures forall exclude :: !IsIterable(NoneValue, exclude)
  {
  }

  // ------------------------------------------------------------ ensureiterable

  /** `ensureiterable(value, iterable=factory, exclude)`: the factory (a
      container type such as `list`) is a function of the interpreter, given
      here as a parameter; it is applied to `value` itself, or to the list
      `[value]` when `value` is not iterable or is excluded. */
  function EnsureIterable<R>(value: Value, factory: Value -> R, exclude: set<Type>): R {
    if !IsIterable(value, exclude) then factory(Coll(ListKind, [value])) else factory(value)
  }

  /** `list` as a factory: `list(x)` holds what iterating `x` produces and
      raises `TypeError` for a non-iterable `x`. */
  function ListOf(x: Value): Result<Value> {
    if IsIterableValue(x) then Ok(Coll(ListKind, Items(x))) else Err(TypeError)
  }

  /** With the default `list` factory `ensureiterable` never raises: a
      non-iterable or excluded value becomes a one-element list holding
      exactly that value, and an iterable one a list of its elements in
      iteration order. */
  lemma EnsureIterableContents(value: Value, exclude: set<Type>)
    ensures var r := EnsureIterable(value, ListOf, exclude);
      && r.Ok? && r.value.Coll? && r.value.kind == ListKind
      && r.value.items == (if IsIterable(value, exclude) then Items(value) else [value])
  {
  }

  /** With lists not excluded, `ensureiterable` of its own result gives that
      result back. */
  lemma EnsureIterableIdempotent(value: Value, exclude: set<Type>)
    requires CollType(ListKind) !in exclude && ObjectType !in exclude
    ensures var once := EnsureIterable(value, ListOf, exclude);
      once.Ok? && EnsureIterable(once.value, ListOf, exclude) == once
  {
    var once := EnsureIterable(value, ListOf, exclude);
    assert !Excluded(once.value, exclude);
  }

  // ------------------------------------------------------------------ iterator

  /** The iterator `iter(v)` returns: the elements and how many were consumed. */
  class Iterator {
    const items: seq<Value>
    var pos: nat

    ghost predicate Valid()
      reads this
    {
      pos <= |items|
    }

    constructor (items: seq<Value>)
      ensures Valid() && this.items == items && pos == 0
    {
      this.items := items;
      pos := 0;
    }

    /** `next(iterator)`; `None` stands for `StopIteration`. */
    method Next() returns (r: Option<Value>)
      requires Valid()
      modifies this
      ensures Valid()
      ensures old(pos) < |items| ==> r == Some(items[old(pos)]) && pos == old(pos) + 1
      ensures old(pos) == |items| ==> r == None && pos == old(pos)
    {
      if pos < |items| {
        r := Some(items[pos]);
        pos := pos + 1;
      } else {
        r := None;
      }
    }
  }

  /** `iter(v)`, raising `TypeError` for a non-iterable value. */
  method Iter(v: Value) returns (r: Result<Iterator>)
    ensures r.Err? <==> !IsIterableValue(v)
    ensures r.Err? ==> r.error == TypeError
    ensures r.Ok? ==> fresh(r.value) && r.value.Valid() && r.value.items == Items(v) && r.value.pos == 0
  {
    if !IsIterableValue(v) {
      return Err(TypeError);
    }
    var it := new Iterator(Items(v));
    return Ok(it);
  }

  // --------------------------------------------------------------------- first

  /** `first(iterable, default)` */
  method First(v: Value, default: Value) returns (r: Result<Value>)
    ensures !IsIterableValue(v) ==> r == Err(TypeError)
    ensures IsIterableValue(v) && Items(v) == [] ==> r == Ok(default)
    ensures IsIterableValue(v) && Items(v) != [] ==> r == Ok(Items(v)[0])
  {
    var it :- Iter(v);
    var next := it.Next();
    r := Ok(next.GetOr(default));
  }

  // ---------------------------------------------------------------------- last

  /** The `while True: next(...)` loop of `last`, run on an iterator that may
      already be partly consumed: it returns the final element produced, or
      `default` when none is left, and leaves the iterator exhausted. */
  method Exhaust(it: Iterator, default: Value) returns (r: Value)
    requires it.Valid()
    modifies it
    ensures it.Valid() && it.pos == |it.items|
    ensures r == if old(it.pos) == |it.items| then default else it.items[|it.items| - 1]
  {
    r := default;
    while true
      invariant it.Valid() && old(it.pos) <= it.pos
      invariant r == if it.pos == old(it.pos) then default else it.items[it.pos - 1]
      decreases |it.items| - it.pos
    {
      var next := it.Next();
      if next.None? {
        break;
      }
      r := next.value;
    }
  }

  /** `last(iterable, default)` */
  method Last(v: Value, default: Value) returns (r: Result<Value>)
    ensures !IsIterableValue(v) ==> r == Err(TypeError)
    ensures IsIterableValue(v) && Items(v) == [] ==> r == Ok(default)
    ensures IsIterableValue(v) && Items(v) != [] ==> r == Ok(Items(v)[|Items(v)| - 1])
  {
    var it :- Iter(v);
    var x := Exhaust(it, default);
    r := Ok(x);
  }

  // -------------------------------------------------------------------- itemat

  /** What `itemat` returns for the element sequence `s`: a negative index
      counts from the end, and any index out of range gives `None`. */
  function ItemAtSpec(s: seq<Value>, index: int): (r: Value)
    ensures 0 <= index < |s| ==> r == s[index]
    ensures -|s| <= index < 0 ==> r == s[|s| + index]
    ensures index >= |s| || index < -|s| ==> r == NoneValue
  {
    var i := if index < 0 then index + |s| else index;
    if 0 <= i < |s| then s[i] else NoneValue
  }

  /** The `while index >= 0` loop of `itemat`: consumes at most `index + 1`
      elements, and returns `None` when the iterator runs out first. */
  method Advance(it: Iterator, index: int) returns (r: Value)
    requires it.Valid()
    modifies it
    ensures it.Valid()
    ensures 0 <= index < |it.items| - old(it.pos) ==>
              r == it.items[old(it.pos) + index] && it.pos == old(it.pos) + index + 1
    ensures index < 0 ==> r == NoneValue && it.pos == old(it.pos)
    ensures index >= |it.items| - old(it.pos) ==> r == NoneValue && it.pos == |it.items|
  {
    r := NoneValue;
    var i := index;
    ghost var start := it.pos;
    while i >= 0
      invariant it.Valid() && start <= it.pos
      invariant it.pos - start + i == index
      invariant i < 0 ==> i == index
      invariant r == NoneValue
      decreases i
    {
      var next := it.Next();
      if next.None? {
        break;
      }
      if i == 0 {
        r := next.value;
        break;
      }
      i := i - 1;
    }
  }

  /** `itemat(iterable, index)`. A negative index first needs `len`, which a
      generator lacks. */
  method ItemAt(v: Value, index: int) returns (r: Result<Value>)
    ensures !IsIterableValue(v) ==> r == Err(TypeError)
    ensures IsIterableValue(v) && index < 0 && !Sized(v) ==> r == Err(TypeError)
    ensures IsIterableValue(v) && (index >= 0 || Sized(v)) ==> r == Ok(ItemAtSpec(Items(v), index))
  {
    var it :- Iter(v);
    var i := index;
    if i < 0 {
      if !Sized(v) {
        return Err(TypeError);
      }
      i := i + |Items(v)|;
    }
    var x := Advance(it, i);
    r := Ok(x);
  }

  /** `itemat` as its tests expect it: `IndexError` out of range. */
  function ItemAtChecked(s: seq<Value>, index: int): (r: Result<Value>)
    ensures r.Ok? <==> -|s| <= index < |s|
    ensures r.Ok? ==> r.value == ItemAtSpec(s, index)
    ensures r.Err? ==> r.error == IndexError
  {
    if -|s| <= index < |s| then Ok(ItemAtSpec(s, index)) else Err(IndexError)
  }

  /** As written, an index past the end reads as `None`, which cannot be told
      apart from a stored `None`; the checked version raises `IndexError`. */
  lemma ItemAtOutOfRangeIsNone()
    ensures ItemAtSpec([], 0) == NoneValue
    ensures ItemAtSpec([NoneValue], 1) == ItemAtSpec([NoneValue], 0)
    ensures ItemAtChecked([], 0) == Err(IndexError)
    ensures ItemAtChecked([NoneValue], 1) != ItemAtChecked([NoneValue], 0)
  {
  }

  // --------------------------------------------------------------------- slice

  /** Values `slice` hands to the branch that indexes with `iterable[lower, upper]`. */
  predicate NativeSliced(v: Value) {
    v.Str? || (v.Coll? && (v.kind == ListKind || v.kind == TupleKind))
  }

  /** A negative bound is shifted once by the length. */
  function Shift(bound: int, n: int): int {
    if bound < 0 then bound + n else bound
  }

  /** The elements the generic branch collects with shifted bounds `lower`
      and `upper`: the loop runs over positions `0 .. lower + upper - 1` and
      keeps those from `lower` on. */
  function Collected<T>(s: seq<T>, lower: int, upper: int): seq<T> {
    var lo := Max(lower, 0);
    var hi := Min(|s|, lower + upper);
    if upper > lower && lo < hi then s[lo..hi] else []
  }

  /** `dict[k]`: the value entered for key `k`. */
  function DictGet(entries: seq<(Value, Value)>, k: Value): Value {
    if entries == [] then NoneValue
    else if entries[0].0 == k then entries[0].1
    else DictGet(entries[1..], k)
  }

  /** `d[k] = x`: replaces the value of an existing key, or appends a new entry. */
  function DictSet(entries: seq<(Value, Value)>, k: Value, x: Value): seq<(Value, Value)> {
    if entries == [] then [(k, x)]
    else if entries[0].0 == k then [(k, x)] + entries[1..]
    else [entries[0]] + DictSet(entries[1..], k, x)
  }

  /** The dict `for value in values: result[value] = iterable[value]` builds. */
  function FromKeys(keys: seq<Value>, src: seq<(Value, Value)>): seq<(Value, Value)> {
    if keys == [] then []
    else
      var k := keys[|keys| - 1];
      DictSet(FromKeys(keys[..|keys| - 1], src), k, DictGet(src, k))
  }

  /** `iterablecls(values)`, with the list fallback of the bare `except`.
      A generator cannot be built from a list. For a non-iterable value
      the model assumes its class rejects a list too, so the fallback
      applies; a class that accepts one (`bool([])`) is not modelled. */
  function Rebuild(v: Value, values: seq<Value>): Value {
    match v
    case Coll(k, _) => if k == GeneratorKind then Coll(ListKind, values) else Coll(k, values)
    case _ => Coll(ListKind, values)
  }

  /** The bounds of the generic branch after negative ones were shifted. */
  function ShiftedBounds(v: Value, lower: int, upper: int): (int, int) {
    var n := if Sized(v) then |Items(v)| else 0;
    (Shift(lower, n), Shift(upper, n))
  }

  /** The value `slice` builds from the collected values: a plain dict
      mapping each collected key to its value for a dict, and
      `iterablecls(values)` otherwise. */
  function Assemble(v: Value, values: seq<Value>): Value {
    if v.Dict? then Dict(false, FromKeys(values, v.entries)) else Rebuild(v, values)
  }

  /** What `slice(iterable, lower, upper)` returns or raises. */
  function SliceSpec(v: Value, lower: int, upper: int): Result<Value> {
    if NativeSliced(v) then Err(TypeError)
    else if (lower < 0 || upper < 0) && !Sized(v) then Err(TypeError)
    else
      var (lo, hi) := ShiftedBounds(v, lower, upper);
      if hi <= lo then Ok(Assemble(v, []))
      else if !IsIterableValue(v) then Err(TypeError)
      else Ok(Assemble(v, Collected(Items(v), lo, hi)))
  }

  /** The `for index in range(0, lower + upper)` loop of `slice` over an
      iterator: it keeps what `next` produces from position `lower` on and
      stops early at `StopIteration`. */
  method Window(it: Iterator, lower: int, upper: int) returns (values: seq<Value>)
    requires it.Valid() && it.pos == 0 && upper > lower
    modifies it
    ensures values == Collected(it.items, lower, upper)
    ensures it.Valid() && it.pos == Min(|it.items|, Max(lower + upper, 0))
  {
    ghost var lo := Max(lower, 0);
    values := [];
    var index := 0;
    while index < lower + upper
      invariant it.Valid() && it.pos == index
      invariant index <= Max(lower + upper, 0)
      invariant index <= lo ==> values == []
      invariant lo <= index ==> values == it.items[lo..index]
      decreases lower + upper - index
    {
      var next := it.Next();
      if next.None? {
        break;
      }
      if index >= lower {
        assert it.items[lo..index + 1] == it.items[lo..index] + [it.items[index]];
        values := values + [next.value];
      }
      index := index + 1;
    }
    CollectedAtExit(it.items, lower, upper, index);
  }

  lemma CollectedAtExit<T>(s: seq<T>, lower: int, upper: int, index: int)
    requires upper > lower
    requires 0 <= index <= |s| && index <= Max(lower + upper, 0)
    requires index == |s| || index >= lower + upper
    ensures index == Min(|s|, Max(lower + upper, 0))
    ensures index <= Max(lower, 0) ==> Collected(s, lower, upper) == []
    ensures Max(lower, 0) <= index ==> Collected(s, lower, upper) == s[Max(lower, 0)..index]
  {
  }

  /** The window `slice` collects when `upper > lower`; `iter` raises
      `TypeError` first for a non-iterable value. */
  method CollectWindow(v: Value, lower: int, upper: int) returns (r: Result<seq<Value>>)
    requires upper > lower
    ensures !IsIterableValue(v) ==> r == Err(TypeError)
    ensures IsIterableValue(v) ==> r == Ok(Collected(Items(v), lower, upper))
  {
    var it :- Iter(v);
    var values := Window(it, lower, upper);
    return Ok(values);
  }

  /** The loop of `slice` that fills the result dict, key by key. */
  method BuildDict(keys: seq<Value>, src: seq<(Value, Value)>) returns (result: seq<(Value, Value)>)
    ensures result == FromKeys(keys, src)
  {
    result := [];
    for i := 0 to |keys|
      invariant result == FromKeys(keys[..i], src)
    {
      assert keys[..i + 1][..i] == keys[..i];
      result := DictSet(result, keys[i], DictGet(src, keys[i]));
    }
    assert keys[..|keys|] == keys;
  }

  /** `slice(iterable, lower, upper)`; b3j0f/utils/test/iterable.py imports
      it under the name `sliceit`, which iterable.py does not define. */
  method Slice(v: Value, lower: int, upper: int) returns (r: Result<Value>)
    ensures r == SliceSpec(v, lower, upper)
  {
    if NativeSliced(v) {
      return Err(TypeError);
    }
    var lo, hi := lower, upper;
    if lo < 0 {
      if !Sized(v) {
        return Err(TypeError);
      }
      lo := lo + |Items(v)|;
    }
    if hi < 0 {
      if !Sized(v) {
        return Err(TypeError);
      }
      hi := hi + |Items(v)|;
    }
    assert (lo, hi) == ShiftedBounds(v, lower, upper);
    var values: seq<Value> := [];
    if hi > lo {
      values :- CollectWindow(v, lo, hi);
    }
    if v.Dict? {
      var result := BuildDict(values, v.entries);
      r := Ok(Dict(false, result));
    } else {
      r := Ok(Rebuild(v, values));
    }
  }

  // -------------------------------------------------------- slice: properties

  /** No key is entered twice: the invariant of a real dict. */
  predicate DistinctKeys(es: seq<(Value, Value)>) {
    forall i, j :: 0 <= i < j < |es| ==> es[i].0 != es[j].0
  }

  /** Whatever the value, bounds whose shifted upper one is not above the
      shifted lower one give an empty result. */
  lemma SliceEmptyWhenBoundsCross(v: Value, lower: int, upper: int)
    requires !NativeSliced(v) && ((lower >= 0 && upper >= 0) || Sized(v))
    requires ShiftedBounds(v, lower, upper).1 <= ShiftedBounds(v, lower, upper).0
    ensures var r := SliceSpec(v, lower, upper);
      r.Ok? && (if v.Dict? then r.value.entries == [] else r.value.Coll? && r.value.items == [])
  {
  }

  /** The collected elements are exactly those at positions
      `max(lower, 0) .. min(n, lower + upper) - 1`, in their original order. */
  lemma {:induction false} CollectedPositions<T>(s: seq<T>, lower: int, upper: int)
    requires upper > lower
    ensures |Collected(s, lower, upper)| == Max(0, Min(|s|, lower + upper) - Max(lower, 0))
    ensures forall k :: 0 <= k < |Collected(s, lower, upper)| ==>
              Collected(s, lower, upper)[k] == s[Max(lower, 0) + k]
  {
  }

  /** For a list-like value the result holds those elements, rebuilt with the
      input's own type (a generator's become a list). */
  lemma SliceGenericElements(v: Value, lower: int, upper: int)
    requires IsIterableValue(v) && !NativeSliced(v) && !v.Dict?
    requires (lower >= 0 && upper >= 0) || Sized(v)
    ensures var (lo, hi) := ShiftedBounds(v, lower, upper);
      SliceSpec(v, lower, upper) == Ok(Coll(
        if v.kind == GeneratorKind then ListKind else v.kind,
        if hi > lo then Collected(Items(v), lo, hi) else []))
  {
  }

  lemma {:induction false} DictGetAt(es: seq<(Value, Value)>, j: int)
    requires DistinctKeys(es) && 0 <= j < |es|
    ensures DictGet(es, es[j].0) == es[j].1
  {
    if j > 0 {
      assert es[0].0 != es[j].0;
      assert es[1..][j - 1] == es[j];
      DictGetAt(es[1..], j - 1);
    }
  }

  lemma {:induction false} DictSetAbsent(es: seq<(Value, Value)>, k: Value, x: Value)
    requires forall i :: 0 <= i < |es| ==> es[i].0 != k
    ensures DictSet(es, k, x) == es + [(k, x)]
  {
    if es != [] {
      assert es[0].0 != k;
      DictSetAbsent(es[1..], k, x);
      assert [es[0]] + (es[1..] + [(k, x)]) == es + [(k, x)];
    }
  }

  /** No entry of the run `es[a..b - 1]` has the key of entry `b - 1`. */
  lemma RunAvoidsLast(es: seq<(Value, Value)>, a: int, b: int, run: seq<(Value, Value)>)
    requires DistinctKeys(es) && 0 <= a < b <= |es| && run == es[a..b - 1]
    ensures forall i :: 0 <= i < |run| ==> run[i].0 != es[b - 1].0
  {
    forall i | 0 <= i < |run|
      ensures run[i].0 != es[b - 1].0
    {
      assert run[i] == es[a + i];
    }
  }

  /** Re-entering the keys of a run of entries, each with the value the dict
      holds for it, gives back that run. */
  lemma {:induction false} FromKeysRun(es: seq<(Value, Value)>, a: int, b: int)
    requires DistinctKeys(es) && 0 <= a <= b <= |es|
    ensures FromKeys(Keys(es)[a..b], es) == es[a..b]
    decreases b - a
  {
    if a < b {
      var keys := Keys(es)[a..b];
      var last := es[b - 1];
      assert keys[..|keys| - 1] == Keys(es)[a..b - 1];
      assert keys[|keys| - 1] == last.0;
      FromKeysRun(es, a, b - 1);
      DictGetAt(es, b - 1);
      var run := es[a..b - 1];
      assert FromKeys(keys, es) == DictSet(run, last.0, last.1);
      RunAvoidsLast(es, a, b, run);
      DictSetAbsent(run, last.0, last.1);
      assert run + [last] == es[a..b];
    }
  }

  /** Re-entering the keys of a window, each with its value, gives the
      entries in that window. */
  lemma DictWindow(es: seq<(Value, Value)>, lo: int, hi: int)
    requires DistinctKeys(es) && hi > lo
    ensures FromKeys(Collected(Keys(es), lo, hi), es) == Collected(es, lo, hi)
  {
    var a, b := Max(lo, 0), Min(|es|, lo + hi);
    if a < b {
      assert Collected(Keys(es), lo, hi) == Keys(es)[a..b];
      FromKeysRun(es, a, b);
    } else {
      assert Collected(Keys(es), lo, hi) == [];
    }
  }

  /** Slicing a dict gives a plain dict whose entries are the run of the
      original entries in the window: every collected key keeps its value,
      and the order is the original iteration order. */
  lemma SliceDictEntries(ordered: bool, es: seq<(Value, Value)>, lower: int, upper: int)
    requires DistinctKeys(es)
    ensures var lo, hi := Shift(lower, |es|), Shift(upper, |es|);
      SliceSpec(Dict(ordered, es), lower, upper)
        == Ok(Dict(false, if hi > lo then Collected(es, lo, hi) else []))
  {
    var v := Dict(ordered, es);
    var lo, hi := Shift(lower, |es|), Shift(upper, |es|);
    assert |Items(v)| == |es|;
    assert ShiftedBounds(v, lower, upper) == (lo, hi);
    if hi > lo {
      assert SliceSpec(v, lower, upper) == Ok(Assemble(v, Collected(Keys(es), lo, hi)));
      DictWindow(es, lo, hi);
    } else {
      assert SliceSpec(v, lower, upper) == Ok(Assemble(v, []));
    }
  }

  /** The default bounds `slice(iterable)` take every element. */
  lemma SliceDefaultBounds<T>(s: seq<T>)
    requires |s| <= MaxSize
    ensures Collected(s, 0, MaxSize) == s
  {
  }

  // ------------------------------------------- slice: the intended semantics

  /** A bound normalised as Python's native slicing does it: shifted once by
      the length when negative, then clamped to `0 .. n`. */
  function Clamp(bound: int, n: nat): (c: nat)
    ensures c <= n
  {
    var b := Shift(bound, n);
    if b < 0 then 0 else if b > n then n else b
  }

  /** `iterable[lower:upper]`: what the tests expect of `slice` for every kind
      of iterable. */
  function SliceIntended<T>(s: seq<T>, lower: int, upper: int): (r: seq<T>)
    ensures |r| == Max(0, Clamp(upper, |s|) - Clamp(lower, |s|))
    ensures forall k :: 0 <= k < |r| ==> r[k] == s[Clamp(lower, |s|) + k]
  {
    var lo, hi := Clamp(lower, |s|), Clamp(upper, |s|);
    if lo < hi then s[lo..hi] else []
  }

  /** From the start the generic branch and native slicing agree. */
  lemma CollectedFromStart<T>(s: seq<T>, upper: int)
    requires upper > 0
    ensures Collected(s, 0, upper) == SliceIntended(s, 0, upper)
  {
  }

  /** Past the start they do not: on four elements, `slice(x, 1, 2)` collects
      positions 1 and 2 (the loop runs to `lower + upper = 3`), while
      `x[1:2]` is position 1 alone. */
  lemma CollectedWindowOvershoots()
    ensures var s := [Scalar("int", 0), Scalar("int", 1), Scalar("int", 2), Scalar("int", 3)];
      && Collected(s, 1, 2) == [Scalar("int", 1), Scalar("int", 2)]
      && SliceIntended(s, 1, 2) == [Scalar("int", 1)]
  {
    var s := [Scalar("int", 0), Scalar("int", 1), Scalar("int", 2), Scalar("int", 3)];
    assert Collected(s, 1, 2) == s[1..3];
    assert SliceIntended(s, 1, 2) == s[1..2];
  }

  /** `iterable[lower:upper]` for a string, list or tuple: the same type,
      holding the intended window of its elements. */
  function NativeSlice(v: Value, lower: int, upper: int): (r: Value)
    requires NativeSliced(v)
    ensures TypeOf(r) == TypeOf(v) && IsIterableValue(r)
    ensures Items(r) == SliceIntended(Items(v), lower, upper)
  {
    match v
    case Str(s) =>
      var r := Str(SliceIntended(s, lower, upper));
      assert Items(r) == SliceIntended(Items(v), lower, upper);
      r
    case Coll(k, xs) => Coll(k, SliceIntended(xs, lower, upper))
  }

  /** The native branch indexes with the tuple `(lower, upper)`, which raises
      `TypeError` for every string, list and tuple, where `x[lower:upper]`
      was meant. */
  lemma NativeBranchRaises(v: Value, lower: int, upper: int)
    requires NativeSliced(v)
    ensures SliceSpec(v, lower, upper) == Err(TypeError)
    ensures IsIterableValue(v)
  {
  }
}
