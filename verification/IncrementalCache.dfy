/** The incremental build cache: which cached artifact may be reused, and what every run of builds keeps. */
module IncrementalCache {
  import opened Basics
  import opened ImportGraph
  import opened ImportClosure

  type Fingerprint = string

  /** A compiled module, as the record of all it was compiled from: any compiler's output is a function of it. */
  datatype Artifact = Artifact(compiler: Fingerprint, src: Path, inputs: FileSystem)

  /** A source's entry: its own content and its dependencies' when it was compiled. */
  datatype Info = Info(content: Content, builtAgainst: FileSystem)

  /** What is on disk: the compiler recorded, artifacts under their safe names, entries, scans. */
  datatype Cache = Cache(recorded: Option<Fingerprint>, objects: map<string, Artifact>, deps: map<Path, Info>,
    scans: Scans)

  /** A build's surroundings, fixed while it runs: import resolution, files and compiler. */
  datatype World = World(context: Context, fs: FileSystem, compiler: Fingerprint)

  const EMPTY := Cache(None, map[], map[], map[])

  function SafeName(p: Path): string {
    seq(|p|, k requires 0 <= k < |p| => if p[k] == '/' || p[k] == '\\' then '_' else p[k])
  }

  predicate Separates(c: char) {
    c == '/' || c == '\\' || c == '_'
  }

  /** Two sources share a name if and only if their paths differ, if at all, in which of the separators they have
      where; and a safe name is one file name, with no directories. */
  lemma SafeNamesAgreeExactly(p: Path, q: Path)
    ensures SafeName(p) == SafeName(q) <==>
      |p| == |q| && forall k :: 0 <= k < |p| ==> p[k] == q[k] || (Separates(p[k]) && Separates(q[k]))
    ensures '/' !in SafeName(p) && '\\' !in SafeName(p)
  {
    if SafeName(p) == SafeName(q) {
      forall k | 0 <= k < |p| ensures p[k] == q[k] || (Separates(p[k]) && Separates(q[k])) {
        assert SafeName(p)[k] == SafeName(q)[k];
      }
    }
  }

  function Contents(fs: FileSystem, files: set<Path>): FileSystem {
    map f | f in files && f in fs :: fs[f]
  }

  /** A compile without any cache; none if an import is missing or a file does not parse. */
  function Compile(w: World, src: Path): Option<Artifact>
    requires src in w.fs
  {
    var t := ResolveAll(w.context, w.fs, src);
    if t.ok then Some(Artifact(w.compiler, src, Contents(w.fs, t.processed))) else None
  }

  // ---- the operations -----------------------------------------------------

  /** Nothing an earlier compiler left is kept. */
  function Invalidate(k: Cache, compiler: Fingerprint): Cache {
    if k.recorded == Some(compiler) then k else Cache(Some(compiler), map[], map[], map[])
  }

  /** The dependencies and their contents are those the entry was compiled against. */
  predicate SnapshotMatches(fs: FileSystem, src: Path, info: Info, files: set<Path>) {
    && (forall d :: d in files && d != src ==> d in info.builtAgainst && d in fs && fs[d] == info.builtAgainst[d])
    && info.builtAgainst.Keys <= files
  }

  datatype Verdict = Verdict(rebuild: bool, scans: Scans)

  function NeedsRebuild(w: World, k: Cache, src: Path): Verdict
    requires src in w.fs
  {
    if k.recorded != Some(w.compiler) || SafeName(src) !in k.objects || src !in k.deps ||
      k.deps[src].content != w.fs[src] then
      Verdict(true, k.scans)
    else
      var d := Dependencies(w.context, w.fs, k.scans, src);
      Verdict(!d.ok || !SnapshotMatches(w.fs, src, k.deps[src], d.visited), d.scans)
  }

  function UpdateCache(w: World, k: Cache, src: Path, a: Artifact): Cache
    requires src in w.fs
  {
    var d := Dependencies(w.context, w.fs, k.scans, src);
    var k' := k.(recorded := Some(w.compiler), objects := k.objects[SafeName(src) := a], scans := d.scans);
    if d.ok then k'.(deps := k.deps[src := Info(w.fs[src], Contents(w.fs, d.visited - {src}))]) else k'
  }

  /** Reuse the cached artifact if it is valid; compile and record it if not. */
  datatype Built = Built(artifact: Option<Artifact>, cache: Cache)

  function BuildSource(w: World, k: Cache, src: Path): Built
    requires src in w.fs
  {
    var v := NeedsRebuild(w, k, src);
    var k' := k.(scans := v.scans);
    if !v.rebuild then Built(Some(k.objects[SafeName(src)]), k')
    else
      match Compile(w, src)
      case None => Built(None, k')
      case Some(a) => Built(Some(a), UpdateCache(w, k', src, a))
  }

  // ---- one check is exact -------------------------------------------------

  /** The artifact came out of a compile, in some surroundings. */
  ghost predicate WasCompiled(c: Context, a: Artifact) {
    exists fs: FileSystem :: a.src in fs && Compile(World(c, fs, a.compiler), a.src) == Some(a)
  }

  ghost predicate ArtifactHolds(c: Context, k: Cache, n: string) {
    n in k.objects &&
    var a := k.objects[n];
    && SafeName(a.src) == n && a.src in k.deps && Some(a.compiler) == k.recorded
    && a.src !in k.deps[a.src].builtAgainst
    && a.inputs == k.deps[a.src].builtAgainst[a.src := k.deps[a.src].content]
    && WasCompiled(c, a)
  }

  /** Every artifact was compiled by the recorded compiler from what its source's entry says. */
  ghost predicate CacheHolds(c: Context, k: Cache) {
    (forall n :: n in k.objects ==> ArtifactHolds(c, k, n)) &&
    (forall f :: f in k.deps ==> SafeName(f) in k.objects)
  }

  lemma SnapshotIsTheInputs(fs: FileSystem, src: Path, info: Info, files: set<Path>)
    requires src in files && files <= fs.Keys && src !in info.builtAgainst
    ensures Contents(fs, files) == info.builtAgainst[src := info.content] <==>
            info.content == fs[src] && SnapshotMatches(fs, src, info, files)
  {
    var all, inputs := Contents(fs, files), info.builtAgainst[src := info.content];
    if all == inputs {
      assert forall d :: d in info.builtAgainst ==> d in all;
      assert forall d :: d in files ==> d in inputs && inputs[d] == fs[d];
    }
  }

  /** What a compile that succeeds reads, and that the build's scan finds the same. */
  lemma CompileReads(w: World, scans: Scans, src: Path)
    requires src in w.fs && Current(w.context, w.fs, scans) && ResolveAll(w.context, w.fs, src).ok
    ensures
      var files := ResolveAll(w.context, w.fs, src).processed;
      var d := Dependencies(w.context, w.fs, scans, src);
      d.ok && d.visited == files && src in files && files <= w.fs.Keys
  {
    DependenciesAreWhatIsRead(w.context, w.fs, scans, src);
    DependenciesAreTheClosure(w.context, w.fs, scans, src);
    var files := ResolveAll(w.context, w.fs, src).processed;
    ClosureExists(w.context, w.fs, src, files);
  }

  lemma FreshIsReused(w: World, k: Cache, src: Path)
    requires src in w.fs && k.recorded == Some(w.compiler) && Current(w.context, w.fs, k.scans)
    requires ArtifactHolds(w.context, k, SafeName(src))
    requires Compile(w, src) == Some(k.objects[SafeName(src)])
    ensures !NeedsRebuild(w, k, src).rebuild
  {
    CompileReads(w, k.scans, src);
    SnapshotIsTheInputs(w.fs, src, k.deps[src], ResolveAll(w.context, w.fs, src).processed);
  }

  /** An artifact whose inputs are still the closure with the same content is what a compile gives. */
  lemma CompilesAgain(w: World, a: Artifact, files: set<Path>)
    requires WasCompiled(w.context, a) && a.compiler == w.compiler
    requires IsClosure(w.context, w.fs, a.src, files) && files <= w.fs.Keys && a.inputs == Contents(w.fs, files)
    ensures a.src in w.fs && Compile(w, a.src) == Some(a)
  {
    var fs: FileSystem :| a.src in fs && Compile(World(w.context, fs, a.compiler), a.src) == Some(a);
    var t := ResolveAll(w.context, fs, a.src);
    CompileReads(World(w.context, fs, a.compiler), map[], a.src);
    assert Contents(fs, t.processed) == Contents(w.fs, files);
    assert Contents(fs, t.processed).Keys == t.processed && Contents(w.fs, files).Keys == files;
    forall f | f in files ensures f in fs && fs[f] == w.fs[f] {
      assert Contents(fs, t.processed)[f] == Contents(w.fs, files)[f];
    }
    ResolvesAgain(w.context, fs, w.fs, a.src);
  }

  lemma ReusedIsFresh(w: World, k: Cache, src: Path)
    requires src in w.fs && Current(w.context, w.fs, k.scans)
    requires ArtifactHolds(w.context, k, SafeName(src)) && k.objects[SafeName(src)].src == src
    requires !NeedsRebuild(w, k, src).rebuild
    ensures Compile(w, src) == Some(k.objects[SafeName(src)])
  {
    var files := Dependencies(w.context, w.fs, k.scans, src).visited;
    DependenciesAreTheClosure(w.context, w.fs, k.scans, src);
    ClosureExists(w.context, w.fs, src, files);
    SnapshotIsTheInputs(w.fs, src, k.deps[src], files);
    CompilesAgain(w, k.objects[SafeName(src)], files);
  }

  lemma ClosureExists(c: Context, fs: FileSystem, src: Path, files: set<Path>)
    requires IsClosure(c, fs, src, files)
    ensures files <= fs.Keys
  {
    assert forall f :: f in files ==> HitsWithin(c, fs, f, files);
  }

  /** With the compiler recorded and the scans current, a source is rebuilt exactly when a compile would give something
      else than what is cached for it. */
  lemma NeedsRebuildIsExact(w: World, k: Cache, src: Path)
    requires src in w.fs && k.recorded == Some(w.compiler) && CacheHolds(w.context, k) &&
      Current(w.context, w.fs, k.scans)
    requires SafeName(src) in k.objects ==> k.objects[SafeName(src)].src == src
    ensures !NeedsRebuild(w, k, src).rebuild <==>
            SafeName(src) in k.objects && Compile(w, src) == Some(k.objects[SafeName(src)])
  {
    if !NeedsRebuild(w, k, src).rebuild {
      ReusedIsFresh(w, k, src);
    } else if SafeName(src) in k.objects && Compile(w, src) == Some(k.objects[SafeName(src)]) {
      FreshIsReused(w, k, src);
    }
  }

  /** Two sources under one safe name: what is reused is right exactly if that source was the last compiled under it. */
  lemma ReusedIsRightExactly(w: World, k: Cache, src: Path)
    requires src in w.fs && CacheHolds(w.context, k) && Current(w.context, w.fs, k.scans)
    requires !NeedsRebuild(w, k, src).rebuild
    ensures Compile(w, src) == Some(k.objects[SafeName(src)]) <==> k.objects[SafeName(src)].src == src
  {
    if k.objects[SafeName(src)].src == src {
      ReusedIsFresh(w, k, src);
    }
  }

  // ---- every run ----------------------------------------------------------

  /** The scans were all made, and say what fresh ones would. */
  ghost predicate ScansHold(w: World, scans: Scans) {
    AllScanned(w.context, scans) && Current(w.context, w.fs, scans)
  }

  lemma DependenciesKeepScans(w: World, scans: Scans, src: Path)
    requires src in w.fs && ScansHold(w, scans)
    ensures ScansHold(w, Dependencies(w.context, w.fs, scans, src).scans)
  {
    DependenciesAreTheClosure(w.context, w.fs, scans, src);
    GatherKeepsScans(w.context, w.fs, Gathered({}, scans, true), src);
  }

  lemma UpdateKeeps(w: World, k: Cache, src: Path, a: Artifact)
    requires src in w.fs && k.recorded == Some(w.compiler) && CacheHolds(w.context, k) && ScansHold(w, k.scans)
    requires Compile(w, src) == Some(a)
    ensures CacheHolds(w.context, UpdateCache(w, k, src, a)) && ScansHold(w, UpdateCache(w, k, src, a).scans)
  {
    DependenciesKeepScans(w, k.scans, src);
    var k' := UpdateCache(w, k, src, a);
    UpdatedEntry(w, k, src, a);
    forall n | n in k'.objects ensures ArtifactHolds(w.context, k', n) {
      if n == SafeName(src) {
        NewArtifactHolds(w, k, src, a);
      } else {
        OldArtifactHolds(w, k, src, a, n);
      }
    }
  }

  lemma UpdatedEntry(w: World, k: Cache, src: Path, a: Artifact)
    requires src in w.fs && Current(w.context, w.fs, k.scans) && Compile(w, src) == Some(a)
    ensures
      var k' := UpdateCache(w, k, src, a);
      && k'.objects == k.objects[SafeName(src) := a] && k'.recorded == Some(w.compiler)
      && k'.deps == k.deps[src := Info(w.fs[src], Contents(w.fs, ResolveAll(w.context, w.fs, src).processed - {src}))]
  {
    CompileReads(w, k.scans, src);
  }

  lemma NewArtifactHolds(w: World, k: Cache, src: Path, a: Artifact)
    requires src in w.fs && Current(w.context, w.fs, k.scans) && Compile(w, src) == Some(a)
    ensures ArtifactHolds(w.context, UpdateCache(w, k, src, a), SafeName(src))
  {
    UpdatedEntry(w, k, src, a);
    CompileReads(w, k.scans, src);
    var files := ResolveAll(w.context, w.fs, src).processed;
    assert a.inputs == Contents(w.fs, files - {src})[src := w.fs[src]];
    assert w == World(w.context, w.fs, a.compiler);
  }

  lemma OldArtifactHolds(w: World, k: Cache, src: Path, a: Artifact, n: string)
    requires src in w.fs && Current(w.context, w.fs, k.scans) && Compile(w, src) == Some(a)
    requires k.recorded == Some(w.compiler) && n != SafeName(src) && ArtifactHolds(w.context, k, n)
    ensures ArtifactHolds(w.context, UpdateCache(w, k, src, a), n)
  {
    UpdatedEntry(w, k, src, a);
  }

  /** A safe name stands for one source. */
  ghost predicate NamesDistinct(sources: iset<Path>) {
    forall f, g :: f in sources && g in sources && SafeName(f) == SafeName(g) ==> f == g
  }

  predicate OnlyFrom(k: Cache, sources: iset<Path>) {
    forall n :: n in k.objects ==> k.objects[n].src in sources
  }

  /** The state a build keeps. */
  ghost predicate BuildHolds(w: World, k: Cache, sources: iset<Path>) {
    && k.recorded == Some(w.compiler) && CacheHolds(w.context, k) && ScansHold(w, k.scans)
    && OnlyFrom(k, sources) && NamesDistinct(sources)
  }

  /** The check says rebuild exactly when the cache has something else than a compile would give,
      and what is delivered is what a compile gives. */
  ghost predicate ExactAt(w: World, k: Cache, src: Path)
    requires src in w.fs
  {
    && (!NeedsRebuild(w, k, src).rebuild <==>
        SafeName(src) in k.objects && Compile(w, src) == Some(k.objects[SafeName(src)]))
    && BuildSource(w, k, src).artifact == Compile(w, src)
  }

  lemma ChecksAreExact(w: World, k: Cache, src: Path, sources: iset<Path>)
    requires src in w.fs && src in sources && BuildHolds(w, k, sources)
    ensures ExactAt(w, k, src)
  {
    if SafeName(src) in k.objects {
      assert ArtifactHolds(w.context, k, SafeName(src));
    }
    NeedsRebuildIsExact(w, k, src);
  }

  lemma BuildSourceKeeps(w: World, k: Cache, src: Path, sources: iset<Path>)
    requires src in w.fs && src in sources && BuildHolds(w, k, sources)
    ensures BuildHolds(w, BuildSource(w, k, src).cache, sources)
  {
    DependenciesKeepScans(w, k.scans, src);
    var k' := k.(scans := NeedsRebuild(w, k, src).scans);
    SameButScans(w.context, k, k');
    if NeedsRebuild(w, k, src).rebuild && Compile(w, src).Some? {
      UpdateKeeps(w, k', src, Compile(w, src).value);
      UpdateIsFrom(w, k', src, Compile(w, src).value, sources);
    }
  }

  lemma UpdateIsFrom(w: World, k: Cache, src: Path, a: Artifact, sources: iset<Path>)
    requires src in w.fs && OnlyFrom(k, sources) && a.src in sources
    ensures OnlyFrom(UpdateCache(w, k, src, a), sources)
  {
  }

  lemma SameButScans(c: Context, k: Cache, k': Cache)
    requires CacheHolds(c, k) && k' == k.(scans := k'.scans)
    ensures CacheHolds(c, k')
  {
    forall n | n in k'.objects ensures ArtifactHolds(c, k', n) {
      assert ArtifactHolds(c, k, n);
    }
  }

  /** One build: its sources in whatever order. */
  function BuildAll(w: World, k: Cache, order: seq<Path>): Cache
    requires forall f :: f in order ==> f in w.fs
    decreases |order|
  {
    if order == [] then k else BuildAll(w, BuildSource(w, k, order[0]).cache, order[1..])
  }

  ghost predicate AllExact(w: World, k: Cache, order: seq<Path>)
    requires forall f :: f in order ==> f in w.fs
    decreases |order|
  {
    order == [] || (ExactAt(w, k, order[0]) && AllExact(w, BuildSource(w, k, order[0]).cache, order[1..]))
  }

  lemma {:induction false} BuildIsExact(w: World, k: Cache, order: seq<Path>, sources: iset<Path>)
    requires forall f :: f in order ==> f in w.fs && f in sources
    requires BuildHolds(w, k, sources)
    ensures AllExact(w, k, order) && BuildHolds(w, BuildAll(w, k, order), sources)
    decreases |order|
  {
    if order != [] {
      ChecksAreExact(w, k, order[0], sources);
      BuildSourceKeeps(w, k, order[0], sources);
      BuildIsExact(w, BuildSource(w, k, order[0]).cache, order[1..], sources);
    }
  }

  /** A build in its surroundings. */
  datatype Session = Session(world: World, order: seq<Path>)

  predicate Sensible(s: Session, sources: iset<Path>) {
    forall f :: f in s.order ==> f in s.world.fs && f in sources
  }

  function RunSession(k: Cache, s: Session): Cache
    requires forall f :: f in s.order ==> f in s.world.fs
  {
    BuildAll(s.world, Invalidate(k, s.world.compiler), s.order)
  }

  /** Builds one after another, files and compiler changing between them: how imports resolve is up to the
      compiler, and when a build begins no file is there that a scan still in use missed. */
  ghost predicate Undisturbed(resolution: Fingerprint -> Context, k: Cache, run: seq<Session>, sources: iset<Path>)
    decreases |run|
  {
    run == [] ||
    var w := run[0].world;
    && Sensible(run[0], sources) && w.context == resolution(w.compiler)
    && NothingMissedAppeared(w.context, w.fs, Invalidate(k, w.compiler).scans)
    && Undisturbed(resolution, RunSession(k, run[0]), run[1..], sources)
  }

  ghost predicate RunExact(k: Cache, run: seq<Session>)
    decreases |run|
  {
    run == [] || (SessionExact(k, run[0]) && RunExact(RunSession(k, run[0]), run[1..]))
  }

  ghost predicate SessionExact(k: Cache, s: Session) {
    (forall f :: f in s.order ==> f in s.world.fs) && AllExact(s.world, Invalidate(k, s.world.compiler), s.order)
  }

  /** What is kept between builds. */
  ghost predicate CacheIsSound(resolution: Fingerprint -> Context, k: Cache, sources: iset<Path>) {
    k.recorded.Some? ==>
      var c := resolution(k.recorded.value);
      CacheHolds(c, k) && AllScanned(c, k.scans) && OnlyFrom(k, sources)
  }

  /** Over every run of builds each check is exact and every artifact delivered is what a fresh compile gives, in
      whatever order the sources are built, whatever was edited and however the compiler changed in between. */
  lemma {:induction false} EveryRunIsExact(resolution: Fingerprint -> Context, k: Cache, run: seq<Session>,
      sources: iset<Path>)
    requires NamesDistinct(sources) && CacheIsSound(resolution, k, sources) && Undisturbed(resolution, k, run, sources)
    ensures RunExact(k, run)
    decreases |run|
  {
    if run != [] {
      var w := run[0].world;
      var k' := Invalidate(k, w.compiler);
      CurrentExactly(w.context, w.fs, k'.scans);
      BuildIsExact(w, k', run[0].order, sources);
      EveryRunIsExact(resolution, RunSession(k, run[0]), run[1..], sources);
    }
  }

  /** In particular from an empty cache. */
  lemma RunsFromNothingAreExact(resolution: Fingerprint -> Context, run: seq<Session>, sources: iset<Path>)
    requires NamesDistinct(sources) && Undisturbed(resolution, EMPTY, run, sources)
    ensures RunExact(EMPTY, run)
  {
    EveryRunIsExact(resolution, EMPTY, run, sources);
  }

  // ---- where it stops -----------------------------------------------------

  /** The check's part that looks at the source and its dependencies. */
  predicate UpToDate(w: World, k: Cache, src: Path)
    requires src in w.fs
  {
    && src in k.deps && k.deps[src].content == w.fs[src]
    && var d := Dependencies(w.context, w.fs, k.scans, src);
       d.ok && SnapshotMatches(w.fs, src, k.deps[src], d.visited)
  }

  /** Compiling one source leaves what the check sees of another. */
  lemma OthersStayUpToDate(w: World, k: Cache, src: Path, a: Artifact, other: Path)
    requires src in w.fs && other in w.fs && src != other
    requires Current(w.context, w.fs, k.scans) && UpToDate(w, k, other)
    ensures UpToDate(w, UpdateCache(w, k, src, a), other)
  {
    DependenciesAreTheClosure(w.context, w.fs, k.scans, src);
    DependenciesAreTheClosure(w.context, w.fs, k.scans, other);
    DependenciesAreTheClosure(w.context, w.fs, UpdateCache(w, k, src, a).scans, other);
    ClosureParses(w.context, w.fs, other, Dependencies(w.context, w.fs, k.scans, other).visited);
  }

  /** Why a build must invalidate first: after a compiler change, compiling one source records the new compiler,
      and every other source's artifact from the old one then passes for valid. */
  lemma WithoutInvalidationStaleIsReused(w: World, k: Cache, src: Path, a: Artifact, other: Path)
    requires src in w.fs && other in w.fs && SafeName(src) != SafeName(other)
    requires Current(w.context, w.fs, k.scans) && UpToDate(w, k, other) && SafeName(other) in k.objects
    requires k.recorded != Some(w.compiler) && k.objects[SafeName(other)].compiler != w.compiler
    requires Compile(w, src) == Some(a)
    ensures NeedsRebuild(w, k, src).rebuild
    ensures
      var k' := BuildSource(w, k, src).cache;
      !NeedsRebuild(w, k', other).rebuild && Compile(w, other) != Some(k'.objects[SafeName(other)])
  {
    OthersStayUpToDate(w, k, src, a, other);
  }

  /** Why safe names must be distinct: of two sources under one name, the one compiled first is then
      served the other's artifact. */
  lemma SharedNameServesTheOther(w: World, k: Cache, src: Path, a: Artifact, other: Path)
    requires src in w.fs && other in w.fs && src != other && SafeName(src) == SafeName(other)
    requires k.recorded == Some(w.compiler) && Current(w.context, w.fs, k.scans) && UpToDate(w, k, other)
    requires Compile(w, src) == Some(a)
    ensures
      var k' := UpdateCache(w, k, src, a);
      !NeedsRebuild(w, k', other).rebuild && Compile(w, other) != Some(k'.objects[SafeName(other)])
  {
    OthersStayUpToDate(w, k, src, a, other);
  }

  /** A file that imports `g` and nothing else. */
  predicate ImportsOnly(c: Context, fs: FileSystem, f: Path, g: Path) {
    && f in fs && f != g && c.parse(fs[f]).Some? && |c.parse(fs[f]).value| == 1
    && c.candidates(c.parse(fs[f]).value[0], f) == [g]
  }

  lemma OnlyHit(c: Context, fs: FileSystem, f: Path, g: Path)
    requires ImportsOnly(c, fs, f, g)
    ensures DirectImports(c, fs, f) == Some(if g in fs then [g] else [])
    ensures Resolve(c, fs, c.parse(fs[f]).value[0], f).hit == if g in fs then Some(g) else None
  {
    var imports := c.parse(fs[f]).value;
    var candidates := c.candidates(imports[0], f);
    assert candidates == [g] && candidates[1..] == [];
    assert FirstOf(fs, candidates[1..]).hit == None;
    var found: seq<Path> := if g in fs then [g] else [];
    assert [] + [g] == [g] && imports[1..] == [];
    assert HitsOf(c, fs, f, imports[1..], found) == found;
    assert HitsOf(c, fs, f, imports, []) == HitsOf(c, fs, f, imports[1..], found);
  }

  /** Scanned again while `g` is gone, it is recorded as importing nothing, whatever was recorded before. */
  lemma MissingImportIsForgotten(c: Context, fs: FileSystem, fs': FileSystem, scans: Scans, f: Path, g: Path)
    requires ImportsOnly(c, fs, f, g) && g in fs && Current(c, fs, scans) && fs' == fs - {g}
    ensures Dependencies(c, fs', scans, f) == Gathered({f}, scans[f := Scan(fs[f], [])], true)
  {
    OnlyHit(c, fs, f, g);
    OnlyHit(c, fs', f, g);
    assert !Serves(fs', scans, f);
    assert ScanImports(c, fs', scans, f) == Scanned(Some([]), scans[f := Scan(fs[f], [])]);
    assert GatherAll(c, fs', Gathered({} + {f}, scans[f := Scan(fs[f], [])], true), []).visited == {f};
  }

  lemma LoneFileDependsOnItself(c: Context, fs: FileSystem, scans: Scans, f: Path)
    requires f in fs && f in scans && scans[f] == Scan(fs[f], [])
    ensures Dependencies(c, fs, scans, f) == Gathered({f}, scans, true)
  {
    assert Serves(fs, scans, f);
    assert GatherAll(c, fs, Gathered({} + {f}, scans, true), []) == Gathered({f}, scans, true);
    assert ScanImports(c, fs, scans, f) == Scanned(Some([]), scans);
  }

  lemma ReadsItsImport(w: World, f: Path, g: Path)
    requires ImportsOnly(w.context, w.fs, f, g) && Compile(w, f).Some?
    ensures g in w.fs && {f, g} <= ResolveAll(w.context, w.fs, f).processed
    ensures g in Compile(w, f).value.inputs && Compile(w, f).value.inputs[g] == w.fs[g]
  {
    var t := ResolveAll(w.context, w.fs, f);
    ClosureIsReachability(w.context, w.fs, f);
    OnlyHit(w.context, w.fs, f, g);
    ReachesItself(w.context, w.fs, f);
    assert ImportsWithin(w.context, w.fs, f, t.processed);
  }

  /** A first build, of `f` and what it imports. */
  lemma FirstBuild(w: World, f: Path, g: Path) returns (k: Cache)
    requires ImportsOnly(w.context, w.fs, f, g) && Compile(w, f).Some?
    ensures k == RunSession(EMPTY, Session(w, [f]))
    ensures k.recorded == Some(w.compiler) && Current(w.context, w.fs, k.scans)
    ensures SafeName(f) in k.objects && f in k.deps && k.deps[f].content == w.fs[f] && g in k.deps[f].builtAgainst
  {
    var k0 := Invalidate(EMPTY, w.compiler);
    k := BuildSource(w, k0, f).cache;
    DependenciesAreTheClosure(w.context, w.fs, k0.scans, f);
    UpdatedEntry(w, k0, f, Compile(w, f).value);
    ReadsItsImport(w, f, g);
    assert BuildAll(w, k, [f][1..]) == k;
  }

  /** A build while `g` is gone fails, but its scan stays. */
  lemma BuildWithoutImport(w: World, k: Cache, f: Path, g: Path) returns (k': Cache)
    requires ImportsOnly(w.context, w.fs, f, g) && g in w.fs && Current(w.context, w.fs, k.scans)
    requires k.recorded == Some(w.compiler) && SafeName(f) in k.objects && f in k.deps
    requires k.deps[f].content == w.fs[f] && g in k.deps[f].builtAgainst
    ensures k' == RunSession(k, Session(w.(fs := w.fs - {g}), [f])) == k.(scans := k.scans[f := Scan(w.fs[f], [])])
  {
    var w' := w.(fs := w.fs - {g});
    MissingImportIsForgotten(w.context, w.fs, w'.fs, k.scans, f, g);
    if Compile(w', f).Some? {
      ReadsItsImport(w', f, g);
    }
    k' := BuildSource(w', k, f).cache;
    assert BuildAll(w', k', [f][1..]) == k';
  }

  /** Once `g` is back the scan still serves, and what is compiled is recorded without `g`. */
  lemma BuildWithImportBack(w: World, k: Cache, f: Path, g: Path) returns (k': Cache)
    requires ImportsOnly(w.context, w.fs, f, g) && Compile(w, f).Some? && k.recorded == Some(w.compiler)
    requires f in k.scans && k.scans[f] == Scan(w.fs[f], []) && f in k.deps && g in k.deps[f].builtAgainst
    ensures k' == RunSession(k, Session(w, [f])) && k'.recorded == Some(w.compiler) && k'.scans == k.scans
    ensures f in k'.deps && k'.deps[f] == Info(w.fs[f], map[])
    ensures SafeName(f) in k'.objects && Some(k'.objects[SafeName(f)]) == Compile(w, f)
  {
    LoneFileDependsOnItself(w.context, w.fs, k.scans, f);
    k' := BuildSource(w, k, f).cache;
    assert {f} - {f} == {};
    assert BuildAll(w, k', [f][1..]) == k';
  }

  /** Then no later change to `g` is noticed. */
  lemma LaterEditGoesUnseen(w: World, k: Cache, f: Path, g: Path, later: Content)
    requires ImportsOnly(w.context, w.fs, f, g) && Compile(w, f).Some? && g in w.fs && later != w.fs[g]
    requires k.recorded == Some(w.compiler) && f in k.scans && k.scans[f] == Scan(w.fs[f], [])
    requires f in k.deps && k.deps[f] == Info(w.fs[f], map[])
    requires SafeName(f) in k.objects && Some(k.objects[SafeName(f)]) == Compile(w, f)
    ensures
      var w' := w.(fs := w.fs[g := later]);
      !NeedsRebuild(w', k, f).rebuild && BuildSource(w', k, f).artifact != Compile(w', f)
  {
    var w' := w.(fs := w.fs[g := later]);
    LoneFileDependsOnItself(w.context, w'.fs, k.scans, f);
    ReadsItsImport(w, f, g);
    if Compile(w', f).Some? {
      ReadsItsImport(w', f, g);
    }
  }

  /** Why nothing missed may appear: a file built, built again while the one file it imports is gone, again with
      that back, and again after that was edited. The last build delivers what it had. */
  lemma RestoredImportGoesUnseen(w: World, f: Path, g: Path, later: Content)
    requires ImportsOnly(w.context, w.fs, f, g) && Compile(w, f).Some? && g in w.fs && later != w.fs[g]
    ensures
      var without, edited := w.(fs := w.fs - {g}), w.(fs := w.fs[g := later]);
      !RunExact(EMPTY, [Session(w, [f]), Session(without, [f]), Session(w, [f]), Session(edited, [f])])
  {
    var without, edited := w.(fs := w.fs - {g}), w.(fs := w.fs[g := later]);
    ReadsItsImport(w, f, g);
    var k := FirstBuild(w, f, g);
    var k' := BuildWithoutImport(w, k, f, g);
    var k'' := BuildWithImportBack(w, k', f, g);
    LaterEditGoesUnseen(w, k'', f, g, later);
    assert !ExactAt(edited, Invalidate(k'', w.compiler), f);
    assert !RunExact(k'', [Session(edited, [f])]);
    LaterIsInexact(k', Session(w, [f]), [Session(edited, [f])]);
    LaterIsInexact(k, Session(without, [f]), [Session(w, [f]), Session(edited, [f])]);
    LaterIsInexact(EMPTY, Session(w, [f]), [Session(without, [f]), Session(w, [f]), Session(edited, [f])]);
  }

  lemma LaterIsInexact(k: Cache, s: Session, run: seq<Session>)
    requires (forall f :: f in s.order ==> f in s.world.fs) && !RunExact(RunSession(k, s), run)
    ensures !RunExact(k, [s] + run)
  {
    assert ([s] + run)[1..] == run;
  }
}
