/** The dotted-path resolver of b3j0f/utils/path.py.

    `lookup` sees the interpreter through an explicit environment: the
    importable modules by dotted name, the attributes of objects, and the
    caller's local and global bindings. The module-level `__LOOKUP_CACHE`
    is the `cache` field of a `Resolver` object. */
module Path {
  import opened Outcomes
  import opened Dotted

  /** A Python object: a module, or anything else with an identity and its
      `__name__` and `__module__` attributes when it has them. */
  datatype Obj =
    | Module(dotted: string)
    | Object(id: int, name: Option<string>, owner: Option<string>)

  /** `import_module` succeeds exactly for the names in `modules`;
      `getattr(obj, name)` succeeds exactly for the pairs in `attrs`. */
  datatype Env = Env(modules: map<string, Obj>, attrs: map<(Obj, string), Obj>)

  /** The calling frame's `f_locals` and `f_globals`. */
  datatype Scope = Scope(locals: map<string, Obj>, globals: map<string, Obj>)

  // ----------------------------------------------------------- resolution

  /** The first component: an importable module, else a local, else a global
      binding; `import_module('')` raises `ValueError`, which `lookup` does
      not catch. */
  function Root(env: Env, scope: Scope, path: string, name: string): Result<Obj> {
    if name == "" then Err(ValueError)
    else if name in env.modules then Ok(env.modules[name])
    else if name in scope.locals then Ok(scope.locals[name])
    else if name in scope.globals then Ok(scope.globals[name])
    else Err(ImportError(path, None))
  }

  /** The import loop, from component `index` on with `obj` obtained so far:
      the position where an import first failed (or the end) and the last
      module imported. */
  function Imports(env: Env, comps: seq<string>, index: nat, obj: Obj): (r: (nat, Obj))
    requires 1 <= index <= |comps|
    ensures index <= r.0 <= |comps|
    decreases |comps| - index
  {
    if index == |comps| then (index, obj)
    else
      var name := Prefix(comps, index + 1);
      if name in env.modules then Imports(env, comps, index + 1, env.modules[name])
      else (index, obj)
  }

  /** The attribute loop, from component `index` on; a missing attribute is
      reported as `ImportError` with the components before it. */
  function Attrs(env: Env, path: string, comps: seq<string>, index: nat, obj: Obj): Result<Obj>
    requires index <= |comps|
    decreases |comps| - index
  {
    if index == |comps| then Ok(obj)
    else
      var key := (obj, comps[index]);
      if key in env.attrs then Attrs(env, path, comps, index + 1, env.attrs[key])
      else Err(ImportError(path, Some(comps[..index])))
  }

  /** What `lookup(path)` finds when the cache is not consulted. */
  function Resolve(env: Env, scope: Scope, path: string): Result<Obj> {
    if path == "" then Err(ImportError(path, None))
    else
      var comps := Split(path);
      match Root(env, scope, path, comps[0])
      case Err(e) => Err(e)
      case Ok(root) =>
        var (k, obj) := Imports(env, comps, 1, root);
        Attrs(env, path, comps, k, obj)
  }

  /** `lookup(path, cache)` on a cache: its result and the cache afterwards. */
  function LookupSpec(cache: map<string, Obj>, env: Env, scope: Scope, path: string, useCache: bool)
    : (Result<Obj>, map<string, Obj>)
  {
    if path != "" && useCache && path in cache then (Ok(cache[path]), cache)
    else
      var r := Resolve(env, scope, path);
      (r, if useCache && r.Ok? then cache[path := r.value] else cache)
  }

  /** What `clearcache(path)` is documented to leave: nothing for `None`,
      otherwise everything but `path` (a missing `path` is no error). */
  function Cleared(cache: map<string, Obj>, path: Option<string>): (r: map<string, Obj>)
    ensures path.None? ==> r == map[]
    ensures path.Some? ==> r.Keys == cache.Keys - {path.value}
    ensures forall k :: k in r ==> k in cache && r[k] == cache[k]
  {
    match path
    case None => map[]
    case Some(p) => cache - {p}
  }

  // -------------------------------------------------------------- getpath

  /** `getpath(element)` */
  function GetPath(x: Obj): (r: Result<string>)
    ensures r.Err? <==> x.Object? && (x.name.None? || x.owner.None?)
    ensures r.Err? ==> r.error == AttributeError
    ensures x.Module? ==> r == Ok(x.dotted)
  {
    match x
    case Module(n) => Ok(n)
    case Object(_, name, owner) =>
      if name.None? || owner.None? then Err(AttributeError)
      else Ok(owner.value + "." + name.value)
  }

  // ------------------------------------------------------------- resolver

  class Resolver {
    /** `__LOOKUP_CACHE` */
    var cache: map<string, Obj>

    constructor ()
      ensures cache == map[]
    {
      cache := map[];
    }

    /** `lookup(path, cache=useCache)`, called from a frame with bindings `scope`. */
    method Lookup(env: Env, scope: Scope, path: string, useCache: bool) returns (r: Result<Obj>)
      modifies this
      ensures (r, cache) == LookupSpec(old(cache), env, scope, path, useCache)
    {
      if path != "" && useCache && path in cache {
        return Ok(cache[path]);
      }
      if path == "" {
        return Err(ImportError(path, None));
      }
      var components := Split(path);
      var n := |components|;
      var moduleName := components[0];
      var result: Obj;
      if moduleName == "" {
        return Err(ValueError);
      } else if moduleName in env.modules {
        result := env.modules[moduleName];
      } else if moduleName in scope.locals {
        result := scope.locals[moduleName];
      } else if moduleName in scope.globals {
        result := scope.globals[moduleName];
      } else {
        return Err(ImportError(path, None));
      }
      ghost var root := result;
      var index := 1;
      assert components[..1] == [components[0]];
      // import successive dotted prefixes as sub-modules
      while index < n
        invariant 1 <= index <= n && moduleName == Prefix(components, index)
        invariant Imports(env, components, index, result) == Imports(env, components, 1, root)
        invariant cache == old(cache)
        decreases n - index
      {
        var candidate := moduleName + "." + components[index];
        PrefixNext(components, index);
        if candidate !in env.modules {
          break;
        }
        moduleName := candidate;
        result := env.modules[candidate];
        index := index + 1;
      }
      // from the first failed import on, attribute access
      while index < n
        invariant index <= n
        invariant Attrs(env, path, components, index, result) == Resolve(env, scope, path)
        invariant cache == old(cache)
        decreases n - index
      {
        var key := (result, components[index]);
        if key !in env.attrs {
          assert Resolve(env, scope, path) == Err(ImportError(path, Some(components[..index])));
          return Err(ImportError(path, Some(components[..index])));
        }
        result := env.attrs[key];
        index := index + 1;
      }
      if useCache {
        cache := cache[path := result];
      }
      r := Ok(result);
    }

    /** `clearcache(path)` as written: the assignment on the `None` branch
        makes `__LOOKUP_CACHE` a local name of the function, so that branch
        binds a fresh local dict and the other raises `UnboundLocalError`;
        the module cache is never touched. */
    method ClearCacheAsWritten(path: Option<string>) returns (r: Result<()>)
      ensures path.None? ==> r == Ok(())
      ensures path.Some? ==> r == Err(UnboundLocalError)
    {
      if path.None? {
        var localCache: map<string, Obj> := map[];
        r := Ok(());
      } else {
        r := Err(UnboundLocalError);
      }
    }

    /** `clearcache(path)` as documented. */
    method ClearCache(path: Option<string>)
      modifies this
      ensures cache == Cleared(old(cache), path)
    {
      match path {
        case None => cache := map[];
        case Some(p) => cache := cache - {p};
      }
    }
  }

  /** As written, `clearcache()` after a cached lookup leaves the entry in
      place. */
  method ClearAllKeepsEntry() returns (stillCached: bool)
    ensures stillCached
  {
    var resolver := new Resolver();
    var env := Env(map["os" := Module("os")], map[]);
    assert Split("os") == ["os"];
    var found := resolver.Lookup(env, Scope(map[], map[]), "os", true);
    var cleared := resolver.ClearCacheAsWritten(None);
    stillCached := "os" in resolver.cache;
  }

  // ------------------------------------------------------------ properties

  /** An empty path fails with `ImportError` and leaves the cache as it was. */
  lemma EmptyPathFails(cache: map<string, Obj>, env: Env, scope: Scope, useCache: bool)
    ensures LookupSpec(cache, env, scope, "", useCache) == (Err(ImportError("", None)), cache)
  {
  }

  /** A cached path is answered from the cache alone: modules and scope are
      not consulted, and the cache does not change. */
  lemma CacheHit(cache: map<string, Obj>, env: Env, scope: Scope, env': Env, scope': Scope, path: string)
    requires path != "" && path in cache
    ensures LookupSpec(cache, env, scope, path, true) == (Ok(cache[path]), cache)
    ensures LookupSpec(cache, env, scope, path, true) == LookupSpec(cache, env', scope', path, true)
  {
  }

  /** The cache only changes by `cache[path] := result` after a successful
      resolution with caching on; no other key ever changes. */
  lemma CacheFrame(cache: map<string, Obj>, env: Env, scope: Scope, path: string, useCache: bool)
    ensures var (r, after) := LookupSpec(cache, env, scope, path, useCache);
      && (after == cache || (useCache && r.Ok? && after == cache[path := r.value]))
      && (r.Err? || !useCache ==> after == cache)
      && (forall k :: k != path ==> (k in after <==> k in cache))
      && (forall k :: k != path && k in cache ==> after[k] == cache[k])
  {
  }

  /** The first component is looked up as a module first: the scope is then
      not consulted. Failing that, locals are preferred to globals; with
      none of the three, `lookup` raises `ImportError`. */
  lemma RootOrder(env: Env, scope: Scope, scope': Scope, path: string)
    requires path != "" && Split(path)[0] != ""
    ensures Split(path)[0] in env.modules ==> Resolve(env, scope, path) == Resolve(env, scope', path)
    ensures (Split(path)[0] !in env.modules && Split(path)[0] in scope.locals && scope'.locals == scope.locals)
              ==> Resolve(env, scope, path) == Resolve(env, scope', path)
    ensures (Split(path)[0] !in env.modules && Split(path)[0] !in scope.locals && Split(path)[0] !in scope.globals)
              ==> Resolve(env, scope, path) == Err(ImportError(path, None))
  {
  }

  /** The import loop tries the successive prefixes `components[:j]`; at its
      end every prefix up to the stopping point imported, the next one did
      not, and the object is the deepest module imported. */
  lemma {:induction false} ImportsChain(env: Env, comps: seq<string>, index: nat, obj: Obj)
    requires 1 <= index <= |comps|
    ensures var (k, last) := Imports(env, comps, index, obj);
      && (forall j :: index < j <= k ==> Prefix(comps, j) in env.modules)
      && (k < |comps| ==> Prefix(comps, k + 1) !in env.modules)
      && last == (if k == index then obj else env.modules[Prefix(comps, k)])
    decreases |comps| - index
  {
    if index < |comps| && Prefix(comps, index + 1) in env.modules {
      ImportsChain(env, comps, index + 1, env.modules[Prefix(comps, index + 1)]);
    }
  }

  /** The attribute loop never imports: it depends on the attributes alone. */
  lemma {:induction false} AttrsIgnoreModules(env: Env, env': Env, path: string, comps: seq<string>, index: nat, obj: Obj)
    requires index <= |comps| && env.attrs == env'.attrs
    ensures Attrs(env, path, comps, index, obj) == Attrs(env', path, comps, index, obj)
    decreases |comps| - index
  {
    if index < |comps| && (obj, comps[index]) in env.attrs {
      AttrsIgnoreModules(env, env', path, comps, index + 1, env.attrs[(obj, comps[index])]);
    }
  }

  /** Once an import has failed, the remaining components are resolved by
      attribute access from the last module obtained (or the root), and no
      module of a longer name can change the outcome: imports never resume. */
  lemma ImportsNeverResume(env: Env, scope: Scope, path: string, extra: map<string, Obj>)
    requires path != "" && Split(path)[0] != ""
    requires Root(env, scope, path, Split(path)[0]).Ok?
    ensures var comps := Split(path);
      var (k, last) := Imports(env, comps, 1, Root(env, scope, path, comps[0]).value);
      && (forall j :: 1 < j <= k ==> Prefix(comps, j) in env.modules)
      && (k < |comps| ==> Prefix(comps, k + 1) !in env.modules)
      && Resolve(env, scope, path) == Attrs(env, path, comps, k, last)
      && Attrs(env, path, comps, k, last) == Attrs(Env(extra, env.attrs), path, comps, k, last)
  {
    var comps := Split(path);
    var root := Root(env, scope, path, comps[0]).value;
    var (k, last) := Imports(env, comps, 1, root);
    ImportsChain(env, comps, 1, root);
    AttrsIgnoreModules(env, Env(extra, env.attrs), path, comps, k, last);
  }

  lemma {:induction false} AttrsError(env: Env, path: string, comps: seq<string>, index: nat, obj: Obj)
    requires index <= |comps|
    ensures var r := Attrs(env, path, comps, index, obj);
      r.Err? ==> && r.error.ImportError? && r.error.path == path && r.error.resolved.Some?
                 && index <= |r.error.resolved.value| < |comps|
                 && r.error.resolved.value == comps[..|r.error.resolved.value|]
    decreases |comps| - index
  {
    if index < |comps| && (obj, comps[index]) in env.attrs {
      AttrsError(env, path, comps, index + 1, env.attrs[(obj, comps[index])]);
    }
  }

  /** A failed attribute access reports `components[:i]` of the path, with
      `1 <= i < len(components)`; every other failure is about the root. */
  lemma FailureReport(env: Env, scope: Scope, path: string)
    ensures var r := Resolve(env, scope, path);
      r.Err? ==>
        || r.error == ValueError
        || r.error == ImportError(path, None)
        || (&& r.error.ImportError? && r.error.path == path && r.error.resolved.Some?
            && 1 <= |r.error.resolved.value| < |Split(path)|
            && r.error.resolved.value == Split(path)[..|r.error.resolved.value|])
  {
    if path != "" {
      var comps := Split(path);
      var root := Root(env, scope, path, comps[0]);
      if root.Ok? {
        var (k, last) := Imports(env, comps, 1, root.value);
        AttrsError(env, path, comps, k, last);
      }
    }
  }

  /** `x` is a member defined at the top level of its module `m`, every
      prefix of `m` is importable, and `m.name` is not itself a module. */
  ghost predicate TopLevelMember(env: Env, x: Obj) {
    && x.Object? && x.name.Some? && x.owner.Some?
    && var m, n := x.owner.value, x.name.value;
    && '.' !in n && Split(m)[0] != ""
    && (forall k :: 1 <= k <= |Split(m)| ==> Prefix(Split(m), k) in env.modules)
    && m + "." + n !in env.modules
    && m in env.modules
    && (env.modules[m], n) in env.attrs && env.attrs[(env.modules[m], n)] == x
  }

  /** The components of `m + "." + n`: those of `m`, then `n`; its prefixes
      up to `m` are those of `m`, and the whole is the path itself. */
  lemma MemberComponents(m: string, n: string)
    requires '.' !in n
    ensures var comps := Split(m + "." + n);
      && comps == Split(m) + [n]
      && (forall j :: 1 <= j <= |Split(m)| ==> Prefix(comps, j) == Prefix(Split(m), j))
      && Prefix(comps, |Split(m)|) == m
      && Prefix(comps, |comps|) == m + "." + n
      && Prefix(comps, 1) == comps[0]
  {
    var mc := Split(m);
    SplitAppend(m, n);
    forall j | 1 <= j <= |mc|
      ensures Prefix(mc + [n], j) == Prefix(mc, j)
    {
      PrefixAppend(mc, n, j);
    }
    PrefixAll(mc);
    JoinSplit(m);
    PrefixAll(mc + [n]);
    JoinSplit(m + "." + n);
    assert (mc + [n])[..1] == [(mc + [n])[0]];
  }

  /** `lookup(getpath(x))` is `x` for a top-level member of an importable
      module, from any calling scope. */
  lemma GetPathRoundTrip(env: Env, scope: Scope, x: Obj)
    requires TopLevelMember(env, x)
    ensures GetPath(x).Ok? && Resolve(env, scope, GetPath(x).value) == Ok(x)
  {
    var m, n := x.owner.value, x.name.value;
    var path := m + "." + n;
    MemberComponents(m, n);
    var comps := Split(path);
    var K := |Split(m)|;
    var root := env.modules[comps[0]];
    assert Root(env, scope, path, comps[0]) == Ok(root);
    ImportsChain(env, comps, 1, root);
    var (k, last) := Imports(env, comps, 1, root);
    assert k == K;
    assert last == env.modules[m];
    assert Attrs(env, path, comps, K, last) == Attrs(env, path, comps, K + 1, x);
  }

  /** A module whose every prefix is importable resolves to itself. */
  lemma ModuleRoundTrip(env: Env, scope: Scope, m: string)
    requires m != "" && Split(m)[0] != ""
    requires forall k :: 1 <= k <= |Split(m)| ==> Prefix(Split(m), k) in env.modules
    requires m in env.modules && env.modules[m] == Module(m)
    ensures GetPath(Module(m)) == Ok(m) && Resolve(env, scope, m) == Ok(Module(m))
  {
    var comps := Split(m);
    assert Prefix(comps, 1) == comps[0] by {
      assert comps[..1] == [comps[0]];
    }
    JoinSplit(m);
    assert comps[..|comps|] == comps;
    ImportsChain(env, comps, 1, env.modules[comps[0]]);
  }

  /** `lookup(getpath(x))` with the cache consulted, as `lookup` does by
      default: `x` comes back when the cache holds nothing, or `x` itself,
      under `getpath(x)`, and with caching on the cache then maps that path
      to `x`. */
  lemma GetPathLookupRoundTrip(cache: map<string, Obj>, env: Env, scope: Scope, x: Obj, useCache: bool)
    requires TopLevelMember(env, x)
    requires GetPath(x).value !in cache || cache[GetPath(x).value] == x
    ensures LookupSpec(cache, env, scope, GetPath(x).value, useCache).0 == Ok(x)
    ensures useCache ==> LookupSpec(cache, env, scope, GetPath(x).value, useCache).1
                           == cache[GetPath(x).value := x]
  {
    GetPathRoundTrip(env, scope, x);
  }

  /** The cache condition is needed: a different object cached under
      `getpath(x)` is what a cached `lookup` returns. */
  lemma StaleEntryBreaksRoundTrip(cache: map<string, Obj>, env: Env, scope: Scope, x: Obj)
    requires TopLevelMember(env, x)
    requires GetPath(x).value in cache && cache[GetPath(x).value] != x
    ensures LookupSpec(cache, env, scope, GetPath(x).value, true).0 == Ok(cache[GetPath(x).value])
    ensures LookupSpec(cache, env, scope, GetPath(x).value, true).0 != Ok(x)
  {
  }

  /** `lookup(getpath(m))` with the cache consulted, for a module whose every
      prefix is importable and that is not shadowed by another cached
      object. */
  lemma ModuleLookupRoundTrip(cache: map<string, Obj>, env: Env, scope: Scope, m: string, useCache: bool)
    requires m != "" && Split(m)[0] != ""
    requires forall k :: 1 <= k <= |Split(m)| ==> Prefix(Split(m), k) in env.modules
    requires m in env.modules && env.modules[m] == Module(m)
    requires m !in cache || cache[m] == Module(m)
    ensures LookupSpec(cache, env, scope, GetPath(Module(m)).value, useCache).0 == Ok(Module(m))
    ensures useCache ==> LookupSpec(cache, env, scope, m, useCache).1 == cache[m := Module(m)]
  {
    ModuleRoundTrip(env, scope, m);
  }

  /** A path with an empty first component, such as `".a"`, makes
      `import_module('')` raise `ValueError`, which escapes `lookup` although
      only `ImportError` is documented. */
  lemma LeadingDotRaisesValueError(env: Env, scope: Scope, n: string)
    requires '.' !in n
    ensures Resolve(env, scope, "." + n) == Err(ValueError)
  {
    SplitAppend("", n);
    assert "" + "." + n == "." + n;
  }

  /** `lookup` as documented: every failure is an `ImportError` about the
      path. The `ValueError` of an empty first component is reported as an
      unresolved path; everything else is as `Resolve` has it. */
  function ResolveDocumented(env: Env, scope: Scope, path: string): (r: Result<Obj>)
    ensures r.Err? ==> r.error.ImportError? && r.error.path == path
    ensures (Resolve(env, scope, path) != Err(ValueError)) ==> r == Resolve(env, scope, path)
    ensures (Resolve(env, scope, path) == Err(ValueError)) ==> r == Err(ImportError(path, None))
  {
    FailureReport(env, scope, path);
    match Resolve(env, scope, path)
    case Err(ValueError) => Err(ImportError(path, None))
    case other => other
  }

  /** Clearing a looked-up path and looking it up again without the cache
      gives the same object: clearing does not change what resolves. */
  lemma ClearThenLookupAgain(cache: map<string, Obj>, env: Env, scope: Scope, path: string)
    requires path !in cache
    requires LookupSpec(cache, env, scope, path, true).0.Ok?
    ensures var (r, after) := LookupSpec(cache, env, scope, path, true);
      && path in after
      && LookupSpec(Cleared(after, Some(path)), env, scope, path, false).0 == r
      && path !in Cleared(after, Some(path))
  {
  }

  /** A name resolved from one caller's locals is cached under the bare
      name, and a later call from another frame gets that object instead
      of its own binding. */
  lemma CachedScopeNameLeaks()
    ensures var env := Env(map[], map[]);
      var first := Scope(map["a" := Object(1, None, None)], map[]);
      var second := Scope(map["a" := Object(2, None, None)], map[]);
      var (r1, after) := LookupSpec(map[], env, first, "a", true);
      && r1 == Ok(Object(1, None, None))
      && LookupSpec(after, env, second, "a", true).0 == Ok(Object(1, None, None))
      && Resolve(env, second, "a") == Ok(Object(2, None, None))
  {
    assert Split("a") == ["a"];
  }
}
