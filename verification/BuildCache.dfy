/** The build cache as the object a build process holds: its checks and updates, proved against their specification. */
module BuildCaches {
  import opened Basics
  import opened ImportGraph
  import opened ImportClosure
  import Spec = IncrementalCache

  class BuildCache {
    const context: Context
    const fs: FileSystem
    const compiler: Spec.Fingerprint
    var recorded: Option<Spec.Fingerprint>
    var objects: map<string, Spec.Artifact>
    var deps: map<Path, Spec.Info>
    var scans: Scans

    constructor (w: Spec.World, k: Spec.Cache)
      ensures World() == w && Now() == k
    {
      context, fs, compiler := w.context, w.fs, w.compiler;
      recorded, objects, deps, scans := k.recorded, k.objects, k.deps, k.scans;
    }

    function World(): Spec.World {
      Spec.World(context, fs, compiler)
    }

    function Now(): Spec.Cache
      reads this
    {
      Spec.Cache(recorded, objects, deps, scans)
    }

    method InvalidateIfCompilerChanged() returns (changed: bool)
      modifies this
      ensures Now() == Spec.Invalidate(old(Now()), compiler) && changed == (old(recorded) != Some(compiler))
    {
      changed := recorded != Some(compiler);
      if changed {
        objects, deps, scans := map[], map[], map[];
        recorded := Some(compiler);
      }
    }

    /** A file's imports, from the scans kept or a fresh parse. */
    method ScanDirectImports(f: Path) returns (imports: Option<seq<Path>>)
      requires f in fs
      modifies this`scans
      ensures Scanned(imports, scans) == ScanImports(context, fs, old(scans), f)
    {
      if f in scans && scans[f].content == fs[f] && forall g :: g in scans[f].imports ==> g in fs {
        return Some(scans[f].imports);
      }
      match context.parse(fs[f])
      case None => return None;
      case Some(listed) =>
        var found: seq<Path> := [];
        for k := 0 to |listed|
          invariant HitsOf(context, fs, f, listed[k..], found) == HitsOf(context, fs, f, listed, [])
        {
          assert listed[k..][0] == listed[k] && listed[k..][1..] == listed[k + 1..];
          var hit := Resolve(context, fs, listed[k], f).hit;
          if hit.Some? && hit.value !in found {
            found := found + [hit.value];
          }
        }
        scans := scans[f := Scan(fs[f], found)];
        imports := Some(found);
    }

    /** Adds to `visited` all that `f` depends on. */
    method GetTransitiveDependencies(f: Path, visited: set<Path>) returns (all: set<Path>, ok: bool)
      requires f in fs
      modifies this`scans
      ensures Gathered(all, scans, ok) == Gather(context, fs, Gathered(visited, old(scans), true), f)
      decreases Unmet(fs, visited)
    {
      if f in visited {
        return visited, true;
      }
      FewerUnmet(fs, visited, f);
      all := visited + {f};
      var imports := ScanDirectImports(f);
      if imports.None? {
        return all, false;
      }
      ok := true;
      ghost var whole := GatherAll(context, fs, Gathered(all, scans, ok), imports.value);
      for k := 0 to |imports.value|
        invariant ok && visited + {f} <= all
        invariant GatherAll(context, fs, Gathered(all, scans, ok), imports.value[k..]) == whole
      {
        var rest := imports.value[k..];
        assert rest[0] == imports.value[k] && rest[1..] == imports.value[k + 1..];
        if imports.value[k] in fs {
          NoMoreUnmet(fs, visited + {f}, all);
          all, ok := GetTransitiveDependencies(imports.value[k], all);
          if !ok {
            return;
          }
        }
      }
    }

    /** Whether a source must be compiled again. */
    method NeedsRebuild(src: Path) returns (rebuild: bool)
      requires src in fs
      modifies this`scans
      ensures Spec.Verdict(rebuild, scans) == Spec.NeedsRebuild(World(), old(Now()), src)
    {
      if recorded != Some(compiler) || Spec.SafeName(src) !in objects || src !in deps || deps[src].content != fs[src] {
        return true;
      }
      var builtAgainst := deps[src].builtAgainst;
      var all, ok := GetTransitiveDependencies(src, {});
      if !ok {
        return true;
      }
      var rest := all;
      while rest != {}
        invariant rest <= all
        invariant forall d :: d in all - rest && d != src ==> d in builtAgainst && d in fs && fs[d] == builtAgainst[d]
        decreases |rest|
      {
        var d :| d in rest;
        if d != src && (d !in builtAgainst || d !in fs || fs[d] != builtAgainst[d]) {
          return true;
        }
        rest := rest - {d};
      }
      rebuild := builtAgainst.Keys - all != {};
    }

    /** Records a compile. */
    method UpdateCache(src: Path, a: Spec.Artifact) returns (ok: bool)
      requires src in fs
      modifies this
      ensures Now() == Spec.UpdateCache(World(), old(Now()), src, a)
    {
      recorded := Some(compiler);
      objects := objects[Spec.SafeName(src) := a];
      var all;
      all, ok := GetTransitiveDependencies(src, {});
      if ok {
        deps := deps[src := Spec.Info(fs[src], map d | d in all - {src} && d in fs :: fs[d])];
      }
    }

    /** Builds a source: the cached artifact if it is valid, else a compile. In a cache that holds, whose names are
        distinct, that is always what a compile gives, and the cache goes on holding. */
    method Build(src: Path, ghost sources: iset<Path>) returns (a: Option<Spec.Artifact>)
      requires src in fs
      modifies this
      ensures Spec.Built(a, Now()) == Spec.BuildSource(World(), old(Now()), src)
      ensures src in sources && old(Spec.BuildHolds(World(), Now(), sources)) ==>
        a == Spec.Compile(World(), src) && Spec.BuildHolds(World(), Now(), sources)
    {
      if src in sources && Spec.BuildHolds(World(), Now(), sources) {
        Spec.ChecksAreExact(World(), Now(), src, sources);
        Spec.BuildSourceKeeps(World(), Now(), src, sources);
      }
      var rebuild := NeedsRebuild(src);
      if !rebuild {
        return Some(objects[Spec.SafeName(src)]);
      }
      a := Spec.Compile(World(), src);
      if a.Some? {
        var _ := UpdateCache(src, a.value);
      }
    }
  }
}
