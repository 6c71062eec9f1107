/**
 * The module loader bundled at the top of public/js/chirp.js: the registry
 * of module definitions and aliases (`require.modules`, `require.aliases`),
 * `require.resolve`, `require.normalize`, `require.register`,
 * `require.alias`, and the resolution done by the relative require that
 * `require.relative(parent)` returns.
 *
 * A module definition is an opaque function in the source; here it is a
 * number naming it. Paths are strings; `split('/')` and `join('/')` are
 * modelled exactly, including the empty segments they produce.
 */
module Loader {
  import opened Wrappers

  /** A registered module definition, by name. */
  type Definition = nat

  /** The error `require.alias` throws: the aliased module does not exist. */
  datatype AliasError = NoSuchModule(from: string)

  /** The error `require` throws when a path resolves to nothing. */
  datatype RequireError = FailedToRequire(orig: string, parent: string)

  function Min(a: int, b: int): int {
    if a <= b then a else b
  }

  // ---------------------------------------------------------------------------
  // split('/') and join('/')

  /** `s.split('/')`: the pieces between slashes; never empty, `""` gives `[""]`. */
  function Split(s: string): (r: seq<string>)
    ensures |r| >= 1
    ensures forall i :: 0 <= i < |r| ==> '/' !in r[i]
  {
    if s == [] then [[]]
    else
      var rest := Split(s[1..]);
      if s[0] == '/' then [[]] + rest
      else [[s[0]] + rest[0]] + rest[1..]
  }

  /** `segs.join('/')`. */
  function Join(segs: seq<string>): string {
    if |segs| == 0 then []
    else if |segs| == 1 then segs[0]
    else segs[0] + "/" + Join(segs[1..])
  }

  /** Splitting on `/` and joining back gives the text unchanged. */
  lemma {:induction false} JoinSplit(s: string)
    ensures Join(Split(s)) == s
  {
    if s != [] {
      JoinSplit(s[1..]);
      var rest := Split(s[1..]);
      if s[0] == '/' {
        assert ([[]] + rest)[1..] == rest;
      } else {
        var r := [[s[0]] + rest[0]] + rest[1..];
        if |rest| == 1 {
          assert Join(rest) == rest[0];
        } else {
          assert r[1..] == rest[1..];
          assert Join(rest) == rest[0] + "/" + Join(rest[1..]);
        }
      }
    }
  }

  /** Text with no `/` splits into itself alone. */
  lemma {:induction false} SplitNoSlash(s: string)
    requires '/' !in s
    ensures Split(s) == [s]
  {
    if s != [] {
      SplitNoSlash(s[1..]);
      assert [s[0]] + s[1..] == s;
    }
  }

  /** Splitting `a + "/" + b` splits `a` and `b` apart when `a` has no `/`. */
  lemma {:induction false} SplitAfterSegment(a: string, b: string)
    requires '/' !in a
    ensures Split(a + "/" + b) == [a] + Split(b)
  {
    if a == [] {
      assert a + "/" + b == ['/'] + b;
      assert (['/'] + b)[1..] == b;
    } else {
      assert (a + "/" + b)[1..] == a[1..] + "/" + b;
      SplitAfterSegment(a[1..], b);
      assert [a[0]] + a[1..] == a;
    }
  }

  /** Joining slash-free segments and splitting again gives the segments back. */
  lemma {:induction false} SplitJoin(segs: seq<string>)
    requires |segs| >= 1
    requires forall i :: 0 <= i < |segs| ==> '/' !in segs[i]
    ensures Split(Join(segs)) == segs
  {
    if |segs| == 1 {
      SplitNoSlash(segs[0]);
    } else {
      SplitJoin(segs[1..]);
      SplitAfterSegment(segs[0], Join(segs[1..]));
      assert [segs[0]] + segs[1..] == segs;
    }
  }

  // ---------------------------------------------------------------------------
  // require.normalize

  /** How many `..` segments a path has. */
  function ParentCount(parts: seq<string>): nat {
    if parts == [] then 0
    else ParentCount(parts[..|parts| - 1]) + (if parts[|parts| - 1] == ".." then 1 else 0)
  }

  /** The segments `normalize` keeps: every one that is not `..`, `.` or empty, in order. */
  function Kept(parts: seq<string>): seq<string> {
    if parts == [] then []
    else
      var last := parts[|parts| - 1];
      Kept(parts[..|parts| - 1]) + (if last != ".." && last != "." && last != "" then [last] else [])
  }

  /** `curr` after `n` pops; popping an empty array leaves it empty. */
  function Popped(curr: seq<string>, n: nat): (r: seq<string>)
    ensures r <= curr && |r| == |curr| - Min(n, |curr|)
  {
    curr[..|curr| - Min(n, |curr|)]
  }

  /** What `require.normalize(curr, path)` returns. */
  function Normalized(curr: string, path: string): string {
    if |path| == 0 || path[0] != '.' then path
    else
      var parts := Split(path);
      Join(Popped(Split(curr), ParentCount(parts)) + Kept(parts))
  }

  /** Kept segments are segments of the path, and none of them is `..`, `.` or empty. */
  lemma {:induction false} KeptSegments(parts: seq<string>)
    ensures |Kept(parts)| + ParentCount(parts) <= |parts|
    ensures forall s :: s in Kept(parts) ==> s in parts && s != ".." && s != "." && s != ""
  {
    if parts != [] {
      KeptSegments(parts[..|parts| - 1]);
    }
  }

  /**
   * The result of `normalize` on a relative path splits back into what was
   * left of `curr` followed by the kept segments of the path: every `..`
   * took one segment off `curr` (wherever it stood in the path) and nothing
   * else did.
   */
  lemma NormalizedSegments(curr: string, path: string)
    requires |path| > 0 && path[0] == '.'
    requires |Split(curr)| > ParentCount(Split(path)) || Kept(Split(path)) != []
    ensures Split(Normalized(curr, path)) ==
      Popped(Split(curr), ParentCount(Split(path))) + Kept(Split(path))
  {
    var parts := Split(path);
    var segs := Popped(Split(curr), ParentCount(parts)) + Kept(parts);
    KeptSegments(parts);
    forall i | 0 <= i < |segs|
      ensures '/' !in segs[i]
    {
      if i >= |Popped(Split(curr), ParentCount(parts))| {
        var j := i - |Popped(Split(curr), ParentCount(parts))|;
        assert segs[i] == Kept(parts)[j];
        assert Kept(parts)[j] in Kept(parts);
      }
    }
    SplitJoin(segs);
  }

  /** `normalize(parent, '..')`, the directory `require.relative` resolves against: all but the last segment. */
  lemma ParentDirectory(parent: string)
    ensures Normalized(parent, "..") == Join(Split(parent)[..|Split(parent)| - 1])
  {
    var parts: seq<string> := [".."];
    assert Split("..") == parts by {
      SplitNoSlash("..");
    }
    assert parts[..0] == [];
    assert ParentCount(parts) == 1;
    assert Kept(parts) == [];
    var c := Split(parent);
    assert Popped(c, 1) + [] == c[..|c| - 1];
  }

  /**
   * `require.normalize(curr, path)`: returns `path` unchanged unless it
   * starts with `.`; otherwise walks its segments left to right, popping
   * `curr` for each `..`, skipping `.` and empty ones and keeping the rest,
   * and joins what is left of `curr` with the kept segments.
   */
  method Normalize(curr: string, path: string) returns (r: string)
    ensures |path| == 0 || path[0] != '.' ==> r == path
    ensures r == Normalized(curr, path)
  {
    if |path| == 0 || path[0] != '.' {
      return path;
    }
    var c := Split(curr);
    var parts := Split(path);
    var stack, segs := c, [];
    for i := 0 to |parts|
      invariant stack == Popped(c, ParentCount(parts[..i]))
      invariant segs == Kept(parts[..i])
    {
      assert parts[..i + 1][..i] == parts[..i];
      if parts[i] == ".." {
        if stack != [] {
          stack := stack[..|stack| - 1];
        }
      } else if parts[i] != "." && parts[i] != "" {
        segs := segs + [parts[i]];
      }
    }
    assert parts[..|parts|] == parts;
    r := Join(stack + segs);
  }

  // ---------------------------------------------------------------------------
  // require.resolve

  /** The path with one leading `/` removed. */
  function StripSlash(path: string): (r: string)
    ensures |path| > 0 && path[0] == '/' ==> r == path[1..]
    ensures |path| == 0 || path[0] != '/' ==> r == path
  {
    if |path| > 0 && path[0] == '/' then path[1..] else path
  }

  /** The names `require.resolve` tries, in order. */
  function Candidates(path: string): (r: seq<string>)
    ensures |r| == 5 && r[0] == StripSlash(path)
    ensures r[1] == r[0] + ".js" && r[2] == r[0] + ".json"
    ensures r[3] == r[0] + "/index.js" && r[4] == r[0] + "/index.json"
  {
    var p := StripSlash(path);
    [p, p + ".js", p + ".json", p + "/index.js", p + "/index.json"]
  }

  /** The first candidate that is a module (itself) or an alias (its target). */
  function Lookup(cands: seq<string>, modules: map<string, Definition>, aliases: map<string, string>): Option<string> {
    if cands == [] then None
    else if cands[0] in modules then Some(cands[0])
    else if cands[0] in aliases then Some(aliases[cands[0]])
    else Lookup(cands[1..], modules, aliases)
  }

  /**
   * A lookup finds nothing exactly when no candidate is a module or an
   * alias; otherwise it answers for the first candidate that is one.
   */
  lemma {:induction false} LookupFirst(cands: seq<string>, modules: map<string, Definition>, aliases: map<string, string>, i: nat)
    requires i < |cands| && (cands[i] in modules || cands[i] in aliases)
    requires forall j :: 0 <= j < i ==> cands[j] !in modules && cands[j] !in aliases
    ensures Lookup(cands, modules, aliases) ==
      if cands[i] in modules then Some(cands[i]) else Some(aliases[cands[i]])
  {
    if i > 0 {
      LookupFirst(cands[1..], modules, aliases, i - 1);
    }
  }

  /** A lookup over names none of which is a module or an alias finds nothing. */
  lemma {:induction false} LookupNone(cands: seq<string>, modules: map<string, Definition>, aliases: map<string, string>)
    ensures Lookup(cands, modules, aliases).None? <==>
      forall j :: 0 <= j < |cands| ==> cands[j] !in modules && cands[j] !in aliases
  {
    if cands != [] {
      LookupNone(cands[1..], modules, aliases);
      if cands[0] !in modules && cands[0] !in aliases {
        forall j | 0 <= j < |cands| - 1
          ensures cands[1..][j] == cands[j + 1]
        {
        }
      }
    }
  }

  /** When every alias points at a module, whatever a lookup finds is a module. */
  lemma {:induction false} LookupRegistered(cands: seq<string>, modules: map<string, Definition>, aliases: map<string, string>)
    requires forall to :: to in aliases ==> aliases[to] in modules
    ensures Lookup(cands, modules, aliases).Some? ==> Lookup(cands, modules, aliases).value in modules
  {
    if cands != [] && cands[0] !in modules && cands[0] !in aliases {
      LookupRegistered(cands[1..], modules, aliases);
    }
  }

  // ---------------------------------------------------------------------------
  // require.relative: lastIndexOf and localRequire.resolve

  /** The last index of `x` in `s`, or -1. */
  function LastIndex(s: seq<string>, x: string): (r: int)
    ensures -1 <= r < |s|
    ensures r >= 0 ==> s[r] == x
    ensures forall j :: r < j < |s| ==> s[j] != x
  {
    if s == [] then -1
    else if s[|s| - 1] == x then |s| - 1
    else LastIndex(s[..|s| - 1], x)
  }

  /** `lastIndexOf(arr, obj)`: scans from the end with `while (i--)`. */
  method LastIndexOf(arr: seq<string>, obj: string) returns (r: int)
    ensures r == LastIndex(arr, obj)
    ensures r == -1 <==> obj !in arr
  {
    var i := |arr|;
    while i > 0
      invariant 0 <= i <= |arr|
      invariant LastIndex(arr, obj) == LastIndex(arr[..i], obj)
    {
      i := i - 1;
      assert arr[..i + 1][..i] == arr[..i];
      if arr[i] == obj {
        return i;
      }
    }
    return -1;
  }

  /** The directory a relative require lives in: `normalize(parent, '..')`. */
  function ParentDir(parent: string): string {
    Normalized(parent, "..")
  }

  /** The prefix a bare name is looked up under: the parent's segments up to just past the nearest `deps`. */
  function DepsRoot(parent: string): string {
    var segs := Split(parent);
    var i := LastIndex(segs, "deps") + 1;
    Join(segs[..Min(i + 1, |segs|)])
  }

  /** What `localRequire.resolve(path)` returns for a require relative to `parent`. */
  function LocalResolved(parent: string, path: string): string {
    if |path| > 0 && path[0] == '/' then path[1..]
    else if |path| > 0 && path[0] == '.' then Normalized(ParentDir(parent), path)
    else DepsRoot(parent) + "/deps/" + path
  }

  /**
   * A bare name is looked for in a `deps` directory: under the package that
   * follows the nearest `deps` segment of the parent, or under the parent's
   * first segment when it has none.
   */
  lemma DepsRootSegments(parent: string)
    ensures var segs := Split(parent);
      Split(DepsRoot(parent)) == segs[..Min(LastIndex(segs, "deps") + 2, |segs|)]
    ensures LastIndex(Split(parent), "deps") == -1 ==> Split(DepsRoot(parent)) == [Split(parent)[0]]
  {
    var segs := Split(parent);
    var n := Min(LastIndex(segs, "deps") + 2, |segs|);
    var root := DepsRoot(parent);
    assert root == Join(segs[..n]);
    PrefixSplitJoin(segs, n);
    assert segs[..1] == [segs[0]];
  }

  /** Joining a leading run of slash-free segments and splitting again gives the run back. */
  lemma PrefixSplitJoin(segs: seq<string>, n: nat)
    requires 1 <= n <= |segs|
    requires forall i :: 0 <= i < |segs| ==> '/' !in segs[i]
    ensures Split(Join(segs[..n])) == segs[..n]
  {
    var pre := segs[..n];
    assert forall i :: 0 <= i < |pre| ==> pre[i] == segs[i];
    SplitJoin(pre);
  }

  /**
   * `localRequire.resolve(path)`: an absolute path loses its `/`, a `.`
   * path is normalized against the parent's directory, and any other name
   * is placed in the nearest `deps` directory.
   */
  method LocalResolve(parent: string, path: string) returns (r: string)
    ensures r == LocalResolved(parent, path)
    ensures |path| > 0 && path[0] == '/' ==> r == path[1..]
  {
    var p := Normalize(parent, "..");
    if |path| > 0 && path[0] == '/' {
      return path[1..];
    }
    if |path| > 0 && path[0] == '.' {
      r := Normalize(p, path);
      return;
    }
    var segs := Split(parent);
    var i := LastIndexOf(segs, "deps");
    i := i + 1;
    r := Join(segs[..Min(i + 1, |segs|)]) + "/deps/" + path;
  }

  // ---------------------------------------------------------------------------
  // The registry

  /** `require.modules` and `require.aliases`. */
  class Registry {
    var modules: map<string, Definition>
    var aliases: map<string, string>

    /** Every alias names a registered module (`alias` checks this, and nothing unregisters). */
    ghost predicate Valid()
      reads this
    {
      forall to :: to in aliases ==> aliases[to] in modules
    }

    constructor ()
      ensures Valid() && modules == map[] && aliases == map[]
    {
      modules, aliases := map[], map[];
    }

    /** `require.register(path, definition)`: adds or replaces the module. */
    method Register(path: string, definition: Definition)
      requires Valid()
      modifies this`modules
      ensures Valid()
      ensures modules == old(modules)[path := definition]
    {
      modules := modules[path := definition];
    }

    /** `require.alias(from, to)`: throws unless `from` is registered; otherwise points `to` at it. */
    method Alias(from: string, to: string) returns (r: Result<(), AliasError>)
      requires Valid()
      modifies this`aliases
      ensures Valid()
      ensures r.Ok? <==> from in modules
      ensures r.Ok? ==> aliases == old(aliases)[to := from]
      ensures r.Err? ==> r.error == NoSuchModule(from) && aliases == old(aliases)
    {
      if from !in modules {
        return Err(NoSuchModule(from));
      }
      aliases := aliases[to := from];
      r := Ok(());
    }

    /**
     * `require.resolve(path)`: strips one leading `/`, then tries the path,
     * `.js`, `.json`, `/index.js` and `/index.json` in turn, answering with
     * the first that is a module, or the target of the first that is an
     * alias; nothing when none is.
     */
    method Resolve(path: string) returns (r: Option<string>)
      ensures r == Lookup(Candidates(path), modules, aliases)
      ensures Valid() && r.Some? ==> r.value in modules
    {
      var p := StripSlash(path);
      var paths := [p, p + ".js", p + ".json", p + "/index.js", p + "/index.json"];
      var i := 0;
      while i < |paths|
        invariant 0 <= i <= |paths|
        invariant Lookup(paths[i..], modules, aliases) == Lookup(paths, modules, aliases)
      {
        if paths[i] in modules {
          r := Some(paths[i]);
          break;
        }
        if paths[i] in aliases {
          r := Some(aliases[paths[i]]);
          break;
        }
        i := i + 1;
      }
      if i == |paths| {
        r := None;
      }
      if Valid() {
        LookupRegistered(paths, modules, aliases);
      }
    }

    /**
     * The lookup `require(path, parent, orig)` does before running a module:
     * the resolved name, or the error naming the original path and the
     * parent (`root` when there is none).
     */
    method Locate(path: string, parent: string, orig: string) returns (r: Result<string, RequireError>)
      ensures r.Ok? <==> Lookup(Candidates(path), modules, aliases).Some?
      ensures r.Ok? ==> r.value == Lookup(Candidates(path), modules, aliases).value
      ensures r.Err? ==> r.error == FailedToRequire(if orig == "" then path else orig, if parent == "" then "root" else parent)
    {
      var resolved := Resolve(path);
      if resolved.None? {
        return Err(FailedToRequire(if orig == "" then path else orig, if parent == "" then "root" else parent));
      }
      r := Ok(resolved.value);
    }

    /** `localRequire.exists(path)`: whether the locally resolved name is a registered module. */
    method Exists(parent: string, path: string) returns (b: bool)
      ensures b <==> LocalResolved(parent, path) in modules
    {
      var resolved := LocalResolve(parent, path);
      b := resolved in modules;
    }
  }

  /** A registered module resolves to itself. */
  lemma RegisteredResolves(modules: map<string, Definition>, aliases: map<string, string>, path: string)
    requires StripSlash(path) in modules
    ensures Lookup(Candidates(path), modules, aliases) == Some(StripSlash(path))
  {
  }

  /**
   * After `alias(from, to)`, requiring `to` gives `from`, provided `to` is
   * not itself a registered module and does not start with `/`.
   */
  lemma AliasResolves(modules: map<string, Definition>, aliases: map<string, string>, from: string, to: string)
    requires to !in modules && (|to| == 0 || to[0] != '/')
    ensures Lookup(Candidates(to), modules, aliases[to := from]) == Some(from)
  {
  }
}
