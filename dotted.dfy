/** Dotted names: `path.split('.')` and its inverse, joining components
    with `'.'` as `'%s.%s' % (module_name, component)` does. */
module Dotted {
  import opened Outcomes

  /** The position of the last `'.'` in `s`, if any. */
  function LastDot(s: string): (r: Option<nat>)
    ensures r.Some? ==> r.value < |s| && s[r.value] == '.' && '.' !in s[r.value + 1..]
    ensures r.None? ==> '.' !in s
  {
    if |s| == 0 then None
    else if s[|s| - 1] == '.' then Some(|s| - 1)
    else
      var r := LastDot(s[..|s| - 1]);
      assert r.Some? ==> s[r.value + 1..] == s[..|s| - 1][r.value + 1..] + [s[|s| - 1]];
      assert r.None? ==> s == s[..|s| - 1] + [s[|s| - 1]];
      r
  }

  /** `s.split('.')`: at least one component, none containing a dot. */
  function Split(s: string): (parts: seq<string>)
    ensures |parts| >= 1
    ensures forall i :: 0 <= i < |parts| ==> '.' !in parts[i]
    decreases |s|
  {
    match LastDot(s)
    case None => [s]
    case Some(i) => Split(s[..i]) + [s[i + 1..]]
  }

  /** The components joined with `'.'`. */
  function Join(parts: seq<string>): string
    requires |parts| >= 1
  {
    if |parts| == 1 then parts[0]
    else Join(parts[..|parts| - 1]) + "." + parts[|parts| - 1]
  }

  /** The dotted prefix `'.'.join(parts[:k])`: the module name `lookup` tries
      after `k - 1` extensions. */
  function Prefix(parts: seq<string>, k: nat): string
    requires 1 <= k <= |parts|
  {
    Join(parts[..k])
  }

  lemma {:induction false} LastDotAppend(a: string, n: string)
    requires '.' !in n
    ensures LastDot(a + "." + n) == Some(|a|)
    decreases |n|
  {
    var s := a + "." + n;
    if |n| > 0 {
      assert s[..|s| - 1] == a + "." + n[..|n| - 1];
      assert s[|s| - 1] == n[|n| - 1];
      LastDotAppend(a, n[..|n| - 1]);
    }
  }

  /** Splitting after appending one dot-free component. */
  lemma SplitAppend(a: string, n: string)
    requires '.' !in n
    ensures Split(a + "." + n) == Split(a) + [n]
  {
    var s := a + "." + n;
    LastDotAppend(a, n);
    assert s[..|a|] == a;
    assert s[|a| + 1..] == n;
  }

  /** Joining the components of a split gives back the string. */
  lemma {:induction false} JoinSplit(s: string)
    ensures Join(Split(s)) == s
    decreases |s|
  {
    match LastDot(s)
    case None =>
    case Some(i) =>
      var parts := Split(s);
      assert parts[..|parts| - 1] == Split(s[..i]);
      JoinSplit(s[..i]);
      assert s == s[..i] + "." + s[i + 1..];
  }

  /** Splitting joined dot-free components gives back the components. */
  lemma {:induction false} SplitJoin(parts: seq<string>)
    requires |parts| >= 1
    requires forall i :: 0 <= i < |parts| ==> '.' !in parts[i]
    ensures Split(Join(parts)) == parts
    decreases |parts|
  {
    if |parts| > 1 {
      var init := parts[..|parts| - 1];
      SplitJoin(init);
      SplitAppend(Join(init), parts[|parts| - 1]);
    } else {
      assert LastDot(parts[0]).None?;
    }
  }

  /** The prefix of every component is the joined whole. */
  lemma PrefixAll(parts: seq<string>)
    requires |parts| >= 1
    ensures Prefix(parts, |parts|) == Join(parts)
  {
    assert parts[..|parts|] == parts;
  }

  /** Appending a component leaves the earlier prefixes as they were. */
  lemma PrefixAppend(parts: seq<string>, n: string, k: nat)
    requires 1 <= k <= |parts|
    ensures Prefix(parts + [n], k) == Prefix(parts, k)
  {
    assert (parts + [n])[..k] == parts[..k];
  }

  /** Each prefix extends the previous one by the next component. */
  lemma PrefixNext(parts: seq<string>, k: nat)
    requires 1 <= k < |parts|
    ensures Prefix(parts, k + 1) == Prefix(parts, k) + "." + parts[k]
  {
    assert parts[..k + 1][..k] == parts[..k];
  }
}
