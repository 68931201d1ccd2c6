/**
 * Trimming the workspace to one app (scripts/prune-workspace.ts): the closure of its dependencies,
 * found by a search that marks directories in place, and the root manifest without the rest.
 */
module Workspace {
  import opened Common
  import opened Sequences

  datatype Entry = Entry(name: string, version: string)

  datatype Manifest = Manifest(name: Option<string>, dependencies: Option<seq<Entry>>,
      devDependencies: Option<seq<Entry>>)

  /** `read`: the manifests on disk, by directory. */
  type Disk = map<string, Manifest>

  function Listed(entries: Option<seq<Entry>>): seq<Entry> { if entries.None? then [] else entries.value }

  function NamesOf(entries: seq<Entry>): seq<string> {
    seq(|entries|, i requires 0 <= i < |entries| => entries[i].name)
  }

  /** The keys of both kinds of dependencies. */
  function Names(m: Manifest): seq<string> { NamesOf(Listed(m.dependencies)) + NamesOf(Listed(m.devDependencies)) }

  /** The last of the directories that declares each name. */
  function ByName(disk: Disk, all: seq<string>): map<string, string> {
    if all == [] then map[]
    else
      var before, dir := ByName(disk, all[..|all| - 1]), all[|all| - 1];
      if dir in disk && disk[dir].name.Some? then before[disk[dir].name.value := dir] else before
  }

  /** The manifest in the `i`-th directory declares the name. */
  ghost predicate Declares(disk: Disk, all: seq<string>, i: int, name: string) {
    0 <= i < |all| && all[i] in disk && disk[all[i]].name == Some(name)
  }

  /** A name resolves exactly if a directory declares it, and to the last that does. */
  lemma {:induction false} NamesResolve(disk: Disk, all: seq<string>, name: string)
    ensures name in ByName(disk, all) <==> exists i :: Declares(disk, all, i, name)
    ensures name in ByName(disk, all) ==> exists i ::
      Declares(disk, all, i, name) && ByName(disk, all)[name] == all[i] &&
      forall j :: Declares(disk, all, j, name) ==> j <= i
  {
    if all != [] {
      var init := all[..|all| - 1];
      NamesResolve(disk, init, name);
      forall i ensures Declares(disk, init, i, name) <==> Declares(disk, all, i, name) && i < |init| {}
      if Declares(disk, all, |init|, name) {
        assert ByName(disk, all)[name] == all[|init|];
      } else if name in ByName(disk, all) {
        var i :| Declares(disk, init, i, name) && ByName(disk, init)[name] == init[i] &&
          forall j :: Declares(disk, init, j, name) ==> j <= i;
        assert Declares(disk, all, i, name) && ByName(disk, all)[name] == all[i];
        forall j | Declares(disk, all, j, name) ensures j <= i { assert Declares(disk, init, j, name); }
      }
    }
  }

  // ---- reachability -------------------------------------------------------------------------------------

  /** An entry of these dependencies, if there are any, names the workspace in `b`. */
  ghost predicate NamedIn(entries: Option<seq<Entry>>, byName: map<string, string>, b: string) {
    entries.Some? && exists e :: e in entries.value && e.name in byName && byName[e.name] == b
  }

  /** The manifest in `a` names the workspace in `b`, among its dependencies or its development dependencies. */
  ghost predicate DependsOn(disk: Disk, byName: map<string, string>, a: string, b: string) {
    a in disk && (NamedIn(disk[a].dependencies, byName, b) || NamedIn(disk[a].devDependencies, byName, b))
  }

  /** The keys the search walks are the names of both kinds of entries. */
  lemma NamesAreBothKinds(m: Manifest, byName: map<string, string>, b: string)
    ensures (exists i :: 0 <= i < |Names(m)| && Names(m)[i] in byName && byName[Names(m)[i]] == b) <==>
      NamedIn(m.dependencies, byName, b) || NamedIn(m.devDependencies, byName, b)
  {
    var deps, dev := Listed(m.dependencies), Listed(m.devDependencies);
    forall k | 0 <= k < |deps| ensures Names(m)[k] == deps[k].name {}
    forall k | 0 <= k < |dev| ensures Names(m)[|deps| + k] == dev[k].name {}
    if i :| 0 <= i < |Names(m)| && Names(m)[i] in byName && byName[Names(m)[i]] == b {
      if i < |deps| { assert deps[i] in deps; } else { assert dev[i - |deps|] in dev; }
    }
  }

  ghost predicate IsPath(disk: Disk, byName: map<string, string>, path: seq<string>) {
    forall i :: 0 <= i < |path| - 1 ==> DependsOn(disk, byName, path[i], path[i + 1])
  }

  ghost predicate Reaches(disk: Disk, byName: map<string, string>, from: string, to: string) {
    exists path: seq<string> :: path != [] && path[0] == from && path[|path| - 1] == to && IsPath(disk, byName, path)
  }

  lemma ReachesItself(disk: Disk, byName: map<string, string>, dir: string)
    ensures Reaches(disk, byName, dir, dir)
  {
    var path := [dir];
    assert path[0] == dir && path[|path| - 1] == dir && IsPath(disk, byName, path);
  }

  lemma ReachesThrough(disk: Disk, byName: map<string, string>, a: string, b: string, c: string)
    requires DependsOn(disk, byName, a, b) && Reaches(disk, byName, b, c)
    ensures Reaches(disk, byName, a, c)
  {
    var path: seq<string> :| path != [] && path[0] == b && path[|path| - 1] == c && IsPath(disk, byName, path);
    var longer := [a] + path;
    forall i | 0 <= i < |longer| - 1 ensures DependsOn(disk, byName, longer[i], longer[i + 1]) {
      if i > 0 { assert longer[i] == path[i - 1] && longer[i + 1] == path[i]; }
    }
    assert longer[0] == a && longer[|longer| - 1] == c;
  }

  ghost predicate Closed(disk: Disk, byName: map<string, string>, dirs: set<string>) {
    forall a, b :: a in dirs && DependsOn(disk, byName, a, b) ==> b in dirs
  }

  lemma {:induction false} PathStaysInside(disk: Disk, byName: map<string, string>, dirs: set<string>,
      path: seq<string>)
    requires path != [] && path[0] in dirs && IsPath(disk, byName, path) && Closed(disk, byName, dirs)
    ensures path[|path| - 1] in dirs
  {
    if |path| > 1 {
      var init := path[..|path| - 1];
      assert IsPath(disk, byName, init) by {
        forall i | 0 <= i < |init| - 1 ensures DependsOn(disk, byName, init[i], init[i + 1]) {
          assert DependsOn(disk, byName, path[i], path[i + 1]);
        }
      }
      PathStaysInside(disk, byName, dirs, init);
      assert DependsOn(disk, byName, path[|path| - 2], path[|path| - 1]);
    }
  }

  /** Any set of directories that is closed and has the target has all it reaches. */
  lemma ClosureIsLeast(disk: Disk, byName: map<string, string>, dirs: set<string>, target: string)
    requires target in dirs && Closed(disk, byName, dirs)
    ensures forall dir :: Reaches(disk, byName, target, dir) ==> dir in dirs
  {
    forall dir | Reaches(disk, byName, target, dir) ensures dir in dirs {
      var path: seq<string> :| path != [] && path[0] == target && path[|path| - 1] == dir && IsPath(disk, byName, path);
      PathStaysInside(disk, byName, dirs, path);
    }
  }

  // ---- the search ---------------------------------------------------------------------------------------

  /** `visit` has returned for `dir`: what it marked is reachable from there and has no unmarked dependency. */
  ghost predicate Visited(disk: Disk, byName: map<string, string>, dir: string, before: set<string>,
      after: set<string>) {
    && before <= after && dir in after
    && (forall d :: d in after - before ==> Reaches(disk, byName, dir, d))
    && (forall d, e :: d in after - before && DependsOn(disk, byName, d, e) ==> e in after)
  }

  /** In the middle of `visit`: everything new but `dir` itself is done, and its first `i` names are. */
  ghost predicate Visiting(disk: Disk, byName: map<string, string>, dir: string, before: set<string>,
      now: set<string>, names: seq<string>) {
    && before <= now && dir in now
    && (forall d :: d in now - before ==> Reaches(disk, byName, dir, d))
    && (forall d, e :: d in now - before && d != dir && DependsOn(disk, byName, d, e) ==> e in now)
    && (forall k :: 0 <= k < |names| && names[k] in byName ==> byName[names[k]] in now)
  }

  lemma VisitingStep(disk: Disk, byName: map<string, string>, dir: string, before: set<string>, now: set<string>,
      after: set<string>,
                     names: seq<string>, name: string)
    requires Visiting(disk, byName, dir, before, now, names)
    requires name in byName && DependsOn(disk, byName, dir, byName[name])
    requires Visited(disk, byName, byName[name], now, after)
    ensures Visiting(disk, byName, dir, before, after, names + [name])
  {
    forall d | d in after - before ensures Reaches(disk, byName, dir, d) {
      if d !in now { ReachesThrough(disk, byName, dir, byName[name], d); }
    }
  }

  lemma VisitingStarts(disk: Disk, byName: map<string, string>, dir: string, before: set<string>)
    ensures Visiting(disk, byName, dir, before, before + {dir}, [])
    ensures dir !in disk ==> Visited(disk, byName, dir, before, before + {dir})
  {
    ReachesItself(disk, byName, dir);
  }

  lemma VisitingEnds(disk: Disk, byName: map<string, string>, dir: string, before: set<string>, now: set<string>)
    requires dir in disk && Visiting(disk, byName, dir, before, now, Names(disk[dir]))
    ensures Visited(disk, byName, dir, before, now)
  {
    forall e | DependsOn(disk, byName, dir, e) ensures e in now {
      NamesAreBothKinds(disk[dir], byName, e);
    }
  }

  /**
   * What is left of some dependencies: in the order listed, all that name no workspace, or one the
   * target reaches.
   */
  ghost predicate Trimmed(disk: Disk, byName: map<string, string>, target: string, entries: Option<seq<Entry>>,
      left: Option<seq<Entry>>) {
    && (left.Some? <==> entries.Some?)
    && (entries.Some? ==>
          && Sub(left.value, entries.value)
          && forall e :: e in left.value <==>
               e in entries.value && (e.name in byName ==> Reaches(disk, byName, target, byName[e.name])))
  }

  class Pruner {
    const disk: Disk
    const byName: map<string, string>
    var closure: set<string>

    constructor (disk: Disk, all: seq<string>)
      ensures this.disk == disk && byName == ByName(disk, all) && closure == {}
    {
      this.disk := disk;
      closure := {};
      var names: map<string, string> := map[];
      for i := 0 to |all|
        invariant names == ByName(disk, all[..i])
      {
        assert all[..i + 1][..i] == all[..i];
        if all[i] in disk && disk[all[i]].name.Some? {
          names := names[disk[all[i]].name.value := all[i]];
        }
      }
      assert all[..|all|] == all;
      byName := names;
    }

    /** Every directory the search can come to. */
    ghost function Places(): set<string> { byName.Values }

    method Visit(dir: string)
      modifies this
      ensures Visited(disk, byName, dir, old(closure), closure)
      decreases Places() - closure, dir !in Places(), 1
    {
      if dir in closure {
        return;
      }
      ghost var before := closure;
      closure := closure + {dir};
      VisitingStarts(disk, byName, dir, before);
      if dir !in disk {
        return;
      }
      var names := Names(disk[dir]);
      for i := 0 to |names|
        invariant before + {dir} <= closure
        invariant Visiting(disk, byName, dir, before, closure, names[..i])
      {
        assert names[..i + 1] == names[..i] + [names[i]];
        if names[i] in byName {
          VisitNext(dir, i, before);
        }
      }
      assert names[..|names|] == names;
      VisitingEnds(disk, byName, dir, before, closure);
    }

    /** One turn of the loop of `visit`. */
    method VisitNext(dir: string, i: nat, ghost before: set<string>)
      requires dir in disk && i < |Names(disk[dir])| && Names(disk[dir])[i] in byName
      requires dir !in before && before + {dir} <= closure
      requires Visiting(disk, byName, dir, before, closure, Names(disk[dir])[..i])
      modifies this
      ensures before + {dir} <= closure
      ensures Visiting(disk, byName, dir, before, closure, Names(disk[dir])[..i] + [Names(disk[dir])[i]])
      decreases Places() - before, dir !in Places(), 0
    {
      var name := Names(disk[dir])[i];
      ghost var now := closure;
      assert DependsOn(disk, byName, dir, byName[name]) by { NamesAreBothKinds(disk[dir], byName, byName[name]); }
      assert byName[name] in Places();
      assert dir in Places() ==> dir in Places() - before && dir !in Places() - closure;
      assert Places() - closure <= Places() - before;
      Visit(byName[name]);
      VisitingStep(disk, byName, dir, before, now, closure, Names(disk[dir])[..i], name);
    }

    /** The closure of a target is exactly what it reaches, whatever cycles there are. */
    method Close(target: string)
      requires closure == {}
      modifies this
      ensures forall dir :: dir in closure <==> Reaches(disk, byName, target, dir)
    {
      Visit(target);
      ClosureIsLeast(disk, byName, closure, target);
    }

    /** A root dependency stays unless it names a workspace that does not. */
    predicate Keeps(entry: Entry)
      reads this
    {
      entry.name !in byName || byName[entry.name] in closure
    }

    function Filtered(entries: seq<Entry>): (kept: seq<Entry>)
      reads this
      ensures forall e :: e in kept <==> e in entries && Keeps(e)
      ensures Sub(kept, entries)
    {
      if entries == [] then
        SubEmpty<Entry>([]);
        []
      else
        var rest := Filtered(entries[..|entries| - 1]);
        var last := entries[|entries| - 1];
        assert entries == entries[..|entries| - 1] + [last];
        SubAppend(rest, entries[..|entries| - 1], last);
        assert rest + [last] + [] == rest + [last] && rest + [] == rest;
        SubDelete(rest, [last], [], entries);
        if Keeps(last) then rest + [last] else rest
    }

    function WithoutMissing(entries: Option<seq<Entry>>): Option<seq<Entry>>
      reads this
    {
      if entries.None? then None else Some(Filtered(entries.value))
    }

    /**
     * The pruned root: no dependency left names a workspace the target does not reach, and every
     * other one is left.
     */
    method Prune(root: Manifest, target: string) returns (pruned: Manifest)
      requires closure == {}
      modifies this
      ensures forall dir :: dir in closure <==> Reaches(disk, byName, target, dir)
      ensures pruned.name == root.name
      ensures Trimmed(disk, byName, target, root.dependencies, pruned.dependencies)
      ensures Trimmed(disk, byName, target, root.devDependencies, pruned.devDependencies)
    {
      Close(target);
      pruned := Manifest(root.name, WithoutMissing(root.dependencies), WithoutMissing(root.devDependencies));
    }
  }
}
