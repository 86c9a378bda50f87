/** Which local modules a set of copied scripts and modules needs, and which of those are not copied. */
module ImportClosure {
  // For each local module, the names its file imports. A module has a file exactly when it is local.
  type Imports = map<string, set<string>>

  // `scripts` are the command files and what they import; the copy lists name scripts and modules.
  datatype Repository = Repository(modules: Imports, scripts: Imports, copiedScripts: set<string>,
                                   copiedModules: set<string>)

  /** The local modules among a file's imports. */
  function Local(modules: Imports, names: set<string>): set<string> { names * modules.Keys }

  function Dependencies(modules: Imports, m: string): set<string> {
    if m in modules then Local(modules, modules[m]) else {}
  }

  // ----- reachability, independently of any worklist -------------------------------------------------------------

  /** A chain of imports that starts at an entry. */
  predicate Chain(modules: Imports, entries: set<string>, path: seq<string>) {
    && path != [] && path[0] in entries
    && forall i :: 0 <= i < |path| - 1 ==> path[i + 1] in Dependencies(modules, path[i])
  }

  ghost predicate Reachable(modules: Imports, entries: set<string>, m: string) {
    exists path :: Chain(modules, entries, path) && path[|path| - 1] == m
  }

  predicate Closed(modules: Imports, s: set<string>) { forall m :: m in s ==> Dependencies(modules, m) <= s }

  lemma EntryReachable(modules: Imports, entries: set<string>, m: string)
    requires m in entries
    ensures Reachable(modules, entries, m)
  {
    assert Chain(modules, entries, [m]);
  }

  lemma ReachableStep(modules: Imports, entries: set<string>, m: string, d: string)
    requires Reachable(modules, entries, m) && d in Dependencies(modules, m)
    ensures Reachable(modules, entries, d)
  {
    var path :| Chain(modules, entries, path) && path[|path| - 1] == m;
    assert Chain(modules, entries, path + [d]);
  }

  /** A closed set that holds the entries holds everything reachable from them. */
  lemma {:induction false} ClosedHoldsChain(modules: Imports, entries: set<string>, s: set<string>, path: seq<string>)
    requires Closed(modules, s) && entries <= s && Chain(modules, entries, path)
    ensures path[|path| - 1] in s
  {
    var n := |path| - 1;
    if n > 0 {
      assert Chain(modules, entries, path[..n]);
      ClosedHoldsChain(modules, entries, s, path[..n]);
      assert path[n - 1 + 1] in Dependencies(modules, path[n - 1]);
    }
  }

  lemma ClosedIsReachable(modules: Imports, entries: set<string>, s: set<string>)
    requires Closed(modules, s) && entries <= s && forall m :: m in s ==> Reachable(modules, entries, m)
    ensures forall m :: m in s <==> Reachable(modules, entries, m)
  {
    forall m | Reachable(modules, entries, m) ensures m in s {
      var path :| Chain(modules, entries, path) && path[|path| - 1] == m;
      ClosedHoldsChain(modules, entries, s, path);
    }
  }

  // ----- the worklist --------------------------------------------------------------------------------------------

  method Listed(s: set<string>) returns (xs: seq<string>)
    ensures forall x :: x in xs <==> x in s
  {
    var left := s;
    xs := [];
    while left != {}
      invariant left <= s && forall x :: x in xs <==> x in s - left
    {
      var x :| x in left;
      xs, left := xs + [x], left - {x};
    }
  }

  /** The loop's state: everything seen or waiting is reachable, and nothing an entry or a seen module needs has been
      forgotten. */
  ghost predicate Pending(modules: Imports, entries: set<string>, seen: set<string>, stack: seq<string>) {
    && (forall m :: m in seen || m in stack ==> Reachable(modules, entries, m))
    && (forall m :: m in entries ==> m in seen || m in stack)
    && (forall m, d :: m in seen && d in Dependencies(modules, m) ==> d in seen || d in stack)
  }

  lemma Popped(modules: Imports, entries: set<string>, seen: set<string>, stack: seq<string>, m: string)
    requires Pending(modules, entries, seen, stack + [m])
    ensures Reachable(modules, entries, m)
    ensures m in seen ==> Pending(modules, entries, seen, stack)
  {
    assert m in stack + [m];
    assert forall x :: x in stack ==> x in stack + [m];
    assert forall x :: x in stack + [m] ==> x in stack || x == m;
  }

  /** `m` is seen now, and `r` is the stack with what it needs. */
  lemma Visited(modules: Imports, entries: set<string>, seen: set<string>, stack: seq<string>, m: string,
                r: seq<string>)
    requires Pending(modules, entries, seen, stack + [m]) && stack <= r
    requires forall d :: d in Dependencies(modules, m) ==> d in seen + {m} || d in r
    requires forall d :: d in r[|stack|..] ==> Reachable(modules, entries, d)
    ensures Pending(modules, entries, seen + {m}, r)
  {
    Popped(modules, entries, seen, stack, m);
    assert r == stack + r[|stack|..];
    assert forall x :: x in stack ==> x in stack + [m] && x in r;
    assert forall x :: x in stack + [m] ==> x in stack || x == m;
    assert forall x :: x in r ==> x in stack || x in r[|stack|..];
  }

  predicate Inside(all: set<string>, seen: set<string>, stack: seq<string>) {
    seen <= all && forall x :: x in stack ==> x in all
  }

  lemma StaysInside(all: set<string>, seen: set<string>, stack: seq<string>, m: string, r: seq<string>)
    requires Inside(all, seen, stack + [m]) && stack <= r && forall x :: x in r[|stack|..] ==> x in all
    ensures Inside(all, seen, stack) && Inside(all, seen + {m}, r)
    ensures m !in seen ==> all - (seen + {m}) < all - seen
  {
    assert m in stack + [m];
    assert r == stack + r[|stack|..];
    assert forall x :: x in stack ==> x in stack + [m];
    assert m !in seen ==> m in all - seen;
  }

  /** `_transitive_closure`: a module may wait on the stack several times, yet the loop ends, with exactly the modules
      reachable from the entries. */
  method TransitiveClosure(entries: set<string>, modules: Imports) returns (seen: set<string>)
    ensures forall m :: m in seen <==> Reachable(modules, entries, m)
  {
    var stack := Listed(entries);
    seen := {};
    forall m | m in entries ensures Reachable(modules, entries, m) { EntryReachable(modules, entries, m); }
    ghost var all := entries + modules.Keys;
    while stack != []
      invariant Pending(modules, entries, seen, stack) && Inside(all, seen, stack)
      decreases all - seen, |stack|
    {
      var m, rest := stack[|stack| - 1], stack[..|stack| - 1];
      assert stack == rest + [m];
      Popped(modules, entries, seen, rest, m);
      if m in seen {
        StaysInside(all, seen, rest, m, rest);
        stack := rest;
      } else {
        var pushed := PushNew(modules, entries, m, seen + {m}, rest);
        Visited(modules, entries, seen, rest, m, pushed);
        StaysInside(all, seen, rest, m, pushed);
        stack, seen := pushed, seen + {m};
      }
    }
    assert Closed(modules, seen);
    ClosedIsReachable(modules, entries, seen);
  }

  /** Pushes the dependencies of `m`, if it has a file, that have not been seen. */
  method PushNew(modules: Imports, ghost entries: set<string>, m: string, seen: set<string>, stack: seq<string>)
    returns (r: seq<string>)
    requires Reachable(modules, entries, m)
    ensures stack <= r && forall d :: d in Dependencies(modules, m) ==> d in seen || d in r
    ensures forall d :: d in r[|stack|..] ==> d in modules && Reachable(modules, entries, d)
  {
    r := stack;
    if m !in modules { return; }
    var found := Listed(Local(modules, modules[m]));
    for k := 0 to |found|
      invariant stack <= r && forall d :: d in found[..k] ==> d in seen || d in r
      invariant forall d :: d in r[|stack|..] ==> d in modules && Reachable(modules, entries, d)
    {
      assert found[k] in found;
      ReachableStep(modules, entries, m, found[k]);
      if found[k] !in seen {
        assert (r + [found[k]])[|stack|..] == r[|stack|..] + [found[k]];
        r := r + [found[k]];
      }
    }
  }

  // ----- what is missing -----------------------------------------------------------------------------------------

  function ScriptEntries(repo: Repository, script: string): set<string> {
    if script in repo.scripts then Local(repo.modules, repo.scripts[script]) else {}
  }

  /** Needed by a copied script that exists, or by a copied module. */
  ghost predicate Needed(repo: Repository, m: string) {
    || (exists script :: script in repo.copiedScripts && Reachable(repo.modules, ScriptEntries(repo, script), m))
    || Reachable(repo.modules, repo.copiedModules * repo.modules.Keys, m)
  }

  method FindMissingLibDependencies(repo: Repository) returns (missing: set<string>)
    ensures forall m :: m in missing <==> Needed(repo, m) && m !in repo.copiedModules
  {
    var scripts := Listed(repo.copiedScripts);
    var needed := {};
    for k := 0 to |scripts|
      invariant forall m :: m in needed <==>
                  exists i :: 0 <= i < k && Reachable(repo.modules, ScriptEntries(repo, scripts[i]), m)
    {
      if scripts[k] in repo.scripts {
        var closure := TransitiveClosure(ScriptEntries(repo, scripts[k]), repo.modules);
        needed := needed + closure;
      } else {
        NothingFromNothing(repo.modules);
      }
    }
    var direct := TransitiveClosure(repo.copiedModules * repo.modules.Keys, repo.modules);
    needed := needed + direct;
    missing := set m | m in needed && m !in repo.copiedModules;
    forall m ensures m in missing <==> Needed(repo, m) && m !in repo.copiedModules {
      if script :| script in repo.copiedScripts && Reachable(repo.modules, ScriptEntries(repo, script), m) {
        var i :| 0 <= i < |scripts| && scripts[i] == script;
      }
      if i :| 0 <= i < |scripts| && Reachable(repo.modules, ScriptEntries(repo, scripts[i]), m) {
        assert scripts[i] in scripts;
      }
    }
  }

  lemma NothingFromNothing(modules: Imports)
    ensures forall m :: !Reachable(modules, {}, m)
  {
  }

  /** Nothing is missing exactly when the copied set is closed: it holds what every copied script imports, and what
      every module in it imports. So looking one import deep is enough to know that nothing anywhere down is missing. */
  lemma NothingMissingExactly(repo: Repository)
    ensures var copied := repo.copiedModules;
            (forall m :: Needed(repo, m) ==> m in copied) <==>
              && (forall script :: script in repo.copiedScripts ==> ScriptEntries(repo, script) <= copied)
              && Closed(repo.modules, copied)
  {
    var copied := repo.copiedModules;
    if forall m :: Needed(repo, m) ==> m in copied {
      forall script, m | script in repo.copiedScripts && m in ScriptEntries(repo, script) ensures m in copied {
        EntryReachable(repo.modules, ScriptEntries(repo, script), m);
        assert Needed(repo, m);
      }
      forall m, d | m in copied && d in Dependencies(repo.modules, m) ensures d in copied {
        EntryReachable(repo.modules, copied * repo.modules.Keys, m);
        ReachableStep(repo.modules, copied * repo.modules.Keys, m, d);
        assert Needed(repo, d);
      }
    }
    if (forall script :: script in repo.copiedScripts ==> ScriptEntries(repo, script) <= copied)
       && Closed(repo.modules, copied) {
      forall m | Needed(repo, m) ensures m in copied { NeededIsHeld(repo, m); }
    }
  }

  lemma NeededIsHeld(repo: Repository, m: string)
    requires forall script :: script in repo.copiedScripts ==> ScriptEntries(repo, script) <= repo.copiedModules
    requires Closed(repo.modules, repo.copiedModules) && Needed(repo, m)
    ensures m in repo.copiedModules
  {
    var copied := repo.copiedModules;
    if script :| script in repo.copiedScripts && Reachable(repo.modules, ScriptEntries(repo, script), m) {
      var path :| Chain(repo.modules, ScriptEntries(repo, script), path) && path[|path| - 1] == m;
      ClosedHoldsChain(repo.modules, ScriptEntries(repo, script), copied, path);
    } else {
      var path :| Chain(repo.modules, copied * repo.modules.Keys, path) && path[|path| - 1] == m;
      ClosedHoldsChain(repo.modules, copied * repo.modules.Keys, copied, path);
    }
  }
}
