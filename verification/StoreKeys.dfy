/** Keys of compiled modules in the shared store: what equal keys say, and the memo that recalls a key
    instead of computing it. */
module StoreKeys {
  import opened Basics
  import opened ImportGraph
  import opened ImportClosure
  import opened BuildCaches
  import opened IncrementalCache

  type Identity = string
  type Digest = seq<int>

  /** How modules are named and what of an import's content is keyed. */
  datatype Naming = Naming(identity: Path -> Identity, digest: Content -> Digest)

  /** What a key depends on besides file contents. */
  datatype Material = Material(src: Path, compiler: Fingerprint, flags: string)

  /** A key, as all that is hashed into it. */
  datatype Key = Key(compiler: Fingerprint, flags: string, name: Identity, source: Content,
    imports: multiset<(Identity, Digest)>)

  function Named(e: Naming, fs: FileSystem, d: Path): (Identity, Digest)
    requires d in fs
  {
    (e.identity(d), e.digest(fs[d]))
  }

  /** The (identity, digest) pairs of a set of files, as a sorted list stands for them. */
  ghost function Pairs(e: Naming, fs: FileSystem, files: set<Path>): (r: multiset<(Identity, Digest)>)
    requires files <= fs.Keys
  {
    if files == {} then multiset{}
    else
      var d :| d in files;
      multiset{Named(e, fs, d)} + Pairs(e, fs, files - {d})
  }

  ghost function ModuleKey(e: Naming, fs: FileSystem, m: Material, closure: set<Path>): Key
    requires closure <= fs.Keys && m.src in fs
  {
    Key(m.compiler, m.flags, e.identity(m.src), fs[m.src], Pairs(e, fs, closure - {m.src}))
  }

  // ---- pairs of a set -----------------------------------------------------

  lemma {:induction false} PairsInAnyOrder(e: Naming, fs: FileSystem, files: set<Path>, d: Path)
    requires files <= fs.Keys && d in files
    ensures Pairs(e, fs, files) == multiset{Named(e, fs, d)} + Pairs(e, fs, files - {d})
    decreases |files|
  {
    var first :| first in files && Pairs(e, fs, files) == multiset{Named(e, fs, first)} + Pairs(e, fs, files - {first});
    if first != d {
      PairsInAnyOrder(e, fs, files - {first}, d);
      PairsInAnyOrder(e, fs, files - {d}, first);
      assert files - {first} - {d} == files - {d} - {first};
    }
  }

  lemma {:induction false} SamePairs(e: Naming, fs: FileSystem, fs': FileSystem, files: set<Path>)
    requires files <= fs.Keys && files <= fs'.Keys
    requires forall d :: d in files ==> e.digest(fs'[d]) == e.digest(fs[d])
    ensures Pairs(e, fs', files) == Pairs(e, fs, files)
    decreases |files|
  {
    if files != {} {
      var d :| d in files;
      PairsInAnyOrder(e, fs, files, d);
      PairsInAnyOrder(e, fs', files, d);
      SamePairs(e, fs, fs', files - {d});
    }
  }

  lemma {:induction false} PairIsOfAFile(e: Naming, fs: FileSystem, files: set<Path>, pair: (Identity, Digest))
    requires files <= fs.Keys
    ensures pair in Pairs(e, fs, files) <==> exists d :: d in files && Named(e, fs, d) == pair
    decreases |files|
  {
    if files != {} {
      var d :| d in files && Pairs(e, fs, files) == multiset{Named(e, fs, d)} + Pairs(e, fs, files - {d});
      PairIsOfAFile(e, fs, files - {d}, pair);
    }
  }

  ghost predicate IdentitiesDistinct(e: Naming, files: set<Path>) {
    forall d, d' :: d in files && d' in files && e.identity(d) == e.identity(d') ==> d == d'
  }

  /** Where identities are distinct, equal pairs mean the same files with the same digests. */
  lemma EqualPairsMeanEqualFiles(e: Naming, fs: FileSystem, fs': FileSystem, files: set<Path>, files': set<Path>)
    requires files <= fs.Keys && files' <= fs'.Keys && IdentitiesDistinct(e, files + files')
    requires Pairs(e, fs, files) == Pairs(e, fs', files')
    ensures files == files' && forall d :: d in files ==> e.digest(fs'[d]) == e.digest(fs[d])
  {
    forall d | d in files ensures d in files' && e.digest(fs'[d]) == e.digest(fs[d]) {
      PairIsOfAFile(e, fs, files, Named(e, fs, d));
      PairIsOfAFile(e, fs', files', Named(e, fs, d));
    }
    forall d | d in files' ensures d in files {
      PairIsOfAFile(e, fs', files', Named(e, fs', d));
      PairIsOfAFile(e, fs, files, Named(e, fs', d));
    }
  }

  // ---- equal keys ---------------------------------------------------------

  /** A digest tells at least what a module imports. */
  ghost predicate DigestTellsImports(e: Naming, c: Context) {
    forall x, y :: e.digest(x) == e.digest(y) ==> c.parse(x) == c.parse(y)
  }

  /** Equal keys mean the same build: the same compiler and flags, the same source, the same closure with the same
      digests, and resolution that goes the same way. */
  lemma EqualKeysMeanTheSameBuild(e: Naming, c: Context, fs: FileSystem, fs': FileSystem, m: Material, m': Material,
      files: set<Path>, files': set<Path>)
    requires m.src in fs && m'.src in fs' && files <= fs.Keys && files' <= fs'.Keys
    requires IsClosure(c, fs, m.src, files) && IsClosure(c, fs', m'.src, files')
    requires IdentitiesDistinct(e, files + files') && DigestTellsImports(e, c)
    requires ModuleKey(e, fs, m, files) == ModuleKey(e, fs', m', files')
    ensures m' == m && files' == files && fs'[m.src] == fs[m.src]
    ensures forall d :: d in files ==> e.digest(fs'[d]) == e.digest(fs[d])
    ensures ResolveAll(c, fs, m.src).ok <==> ResolveAll(c, fs', m.src).ok
    ensures ResolveAll(c, fs, m.src).ok ==>
      ResolveAll(c, fs, m.src).processed == files == ResolveAll(c, fs', m.src).processed
  {
    EqualKeysMeanEqualMaterials(e, fs, fs', m, m', files, files');
    assert m.src in files + files' && m'.src in files + files';
    EqualKeysMeanEqualFiles(e, fs, fs', m, files, files');
    assert ImportAlike(c, fs, fs', files) && ImportAlike(c, fs', fs, files);
    ResolvesAlike(c, fs, fs', m.src, files);
    ResolvesAlike(c, fs', fs, m.src, files);
  }

  /** Whatever the files: a key tells the compiler, the flags, the module's identity and its content. */
  lemma EqualKeysMeanEqualMaterials(e: Naming, fs: FileSystem, fs': FileSystem, m: Material, m': Material,
      files: set<Path>, files': set<Path>)
    requires m.src in fs && m'.src in fs' && files <= fs.Keys && files' <= fs'.Keys
    requires ModuleKey(e, fs, m, files) == ModuleKey(e, fs', m', files')
    ensures m.compiler == m'.compiler && m.flags == m'.flags && e.identity(m.src) == e.identity(m'.src)
    ensures fs'[m'.src] == fs[m.src]
  {
  }

  lemma EqualKeysMeanEqualFiles(e: Naming, fs: FileSystem, fs': FileSystem, m: Material, files: set<Path>,
      files': set<Path>)
    requires m.src in fs && m.src in fs' && files <= fs.Keys && files' <= fs'.Keys && m.src in files && m.src in files'
    requires IdentitiesDistinct(e, files + files') && ModuleKey(e, fs, m, files) == ModuleKey(e, fs', m, files')
    ensures files == files' && fs'[m.src] == fs[m.src]
    ensures forall d :: d in files ==> e.digest(fs'[d]) == e.digest(fs[d])
  {
    EqualPairsMeanEqualFiles(e, fs, fs', files - {m.src}, files' - {m.src});
    assert files == (files - {m.src}) + {m.src} && files' == (files' - {m.src}) + {m.src};
  }

  lemma ResolvesAlike(c: Context, fs: FileSystem, fs': FileSystem, src: Path, files: set<Path>)
    requires src in fs && src in fs' && IsClosure(c, fs, src, files) && IsClosure(c, fs', src, files) &&
      ImportAlike(c, fs, fs', files)
    ensures ResolveAll(c, fs, src).ok ==>
      ResolveAll(c, fs', src).ok && ResolveAll(c, fs, src).processed == files == ResolveAll(c, fs', src).processed
  {
    if ResolveAll(c, fs, src).ok {
      ReadsItsClosure(c, fs, src, files);
      ResolvesAgain(c, fs, fs', src);
    }
  }

  lemma ReadsItsClosure(c: Context, fs: FileSystem, src: Path, files: set<Path>)
    requires src in fs && ResolveAll(c, fs, src).ok && IsClosure(c, fs, src, files)
    ensures ResolveAll(c, fs, src).processed == files
  {
    ClosureIsReachability(c, fs, src);
    ClosureIsUnique(c, fs, src, files, ResolveAll(c, fs, src).processed);
  }

  function Exchange(fs: FileSystem, p: Path, q: Path): FileSystem
    requires p in fs && q in fs
  {
    fs[p := fs[q]][q := fs[p]]
  }

  /** Why identities must be distinct (two files of one name outside the repository share theirs): exchange the contents
      of two imports that import alike, and the closure is the same files, and they have the same key. */
  lemma ExchangedFilesShareAKey(e: Naming, c: Context, fs: FileSystem, m: Material, files: set<Path>, p: Path, q: Path)
    requires m.src in fs && files <= fs.Keys && IsClosure(c, fs, m.src, files)
    requires {p, q} <= files && p != q && p != m.src && q != m.src
    requires e.identity(p) == e.identity(q) && c.parse(fs[p]) == c.parse(fs[q])
    ensures IsClosure(c, Exchange(fs, p, q), m.src, files)
    ensures ModuleKey(e, Exchange(fs, p, q), m, files) == ModuleKey(e, fs, m, files)
  {
    var fs' := Exchange(fs, p, q);
    forall f | f in files ensures HitsWithin(c, fs', f, files) {
      assert HitsWithin(c, fs, f, files) && c.parse(fs'[f]) == c.parse(fs[f]);
      forall i | i in c.parse(fs'[f]).value && Resolve(c, fs', i, f).hit.Some?
        ensures Resolve(c, fs', i, f).hit.value in files
      {
        SameLookup(fs, fs', c.candidates(i, f));
      }
    }
    ClosureStaysExactly(c, fs, fs', m.src, files);
    ExchangedPairsAreTheSame(e, fs, m, files, p, q);
  }

  lemma ExchangedPairsAreTheSame(e: Naming, fs: FileSystem, m: Material, files: set<Path>, p: Path, q: Path)
    requires files <= fs.Keys && m.src in fs && {p, q} <= files && p != q && p != m.src && q != m.src
    requires e.identity(p) == e.identity(q)
    ensures ModuleKey(e, Exchange(fs, p, q), m, files) == ModuleKey(e, fs, m, files)
  {
    var fs', rest := Exchange(fs, p, q), files - {m.src};
    PairsInAnyOrder(e, fs, rest, p);
    PairsInAnyOrder(e, fs, rest - {p}, q);
    PairsInAnyOrder(e, fs', rest, p);
    PairsInAnyOrder(e, fs', rest - {p}, q);
    SamePairs(e, fs, fs', rest - {p} - {q});
  }

  // ---- the memo -----------------------------------------------------------

  /** A key, with the content of every file it was computed from. */
  datatype Entry = Entry(files: FileSystem, value: Key)

  type Entries = map<Material, Entry>

  /** The recorded key, if every file of its closure still has the content it had. */
  function Recall(fs: FileSystem, entries: Entries, m: Material): Option<Key> {
    if m in entries && (forall f :: f in entries[m].files ==> f in fs && fs[f] == entries[m].files[f])
    then Some(entries[m].value)
    else None
  }

  /** The entry's key is that of some file system whose closure it holds. */
  ghost predicate EntryHolds(e: Naming, c: Context, m: Material, entry: Entry) {
    exists fs: FileSystem :: m.src in fs && entry.files.Keys <= fs.Keys && IsClosure(c, fs, m.src, entry.files.Keys) &&
      entry == Entry(Contents(fs, entry.files.Keys), ModuleKey(e, fs, m, entry.files.Keys))
  }

  ghost predicate MemoHolds(e: Naming, c: Context, entries: Entries) {
    forall m :: m in entries ==> EntryHolds(e, c, m, entries[m])
  }

  lemma RecordedKeyIsTheirs(e: Naming, c: Context, fs: FileSystem, m: Material, entry: Entry)
    requires EntryHolds(e, c, m, entry) && forall f :: f in entry.files ==> f in fs && fs[f] == entry.files[f]
    ensures m.src in fs && m.src in entry.files && entry.files.Keys <= fs.Keys
    ensures entry.value == ModuleKey(e, fs, m, entry.files.Keys)
    ensures IsClosure(c, fs, m.src, entry.files.Keys) <==> ClosedBut(c, fs, entry.files.Keys, {})
  {
    var files := entry.files.Keys;
    var before: FileSystem :| m.src in before && files <= before.Keys && IsClosure(c, before, m.src, files) &&
      entry == Entry(Contents(before, files), ModuleKey(e, before, m, files));
    forall f | f in files ensures fs[f] == before[f] {
      assert entry.files[f] == Contents(before, files)[f];
    }
    SamePairs(e, before, fs, files - {m.src});
    ClosureStaysExactly(c, before, fs, m.src, files);
  }

  /** A recalled key is the one a cold computation gives if no import of the recorded files now resolves out of them,
      and, identities being distinct, only then. */
  lemma RecallIsRightExactly(e: Naming, c: Context, fs: FileSystem, entries: Entries, m: Material, closure: set<Path>)
    requires MemoHolds(e, c, entries) && Recall(fs, entries, m).Some?
    requires m.src in fs && closure <= fs.Keys && IsClosure(c, fs, m.src, closure)
    ensures
      var files := entries[m].files.Keys;
      && (ClosedBut(c, fs, files, {}) ==> Recall(fs, entries, m) == Some(ModuleKey(e, fs, m, closure)))
      && (IdentitiesDistinct(e, files + closure) && Recall(fs, entries, m) == Some(ModuleKey(e, fs, m, closure)) ==>
          ClosedBut(c, fs, files, {}))
  {
    var files := entries[m].files.Keys;
    RecordedKeyIsTheirs(e, c, fs, m, entries[m]);
    if ClosedBut(c, fs, files, {}) {
      ClosureIsUnique(c, fs, m.src, files, closure);
    } else if IdentitiesDistinct(e, files + closure) && ModuleKey(e, fs, m, files) == ModuleKey(e, fs, m, closure) {
      EqualKeysMeanEqualFiles(e, fs, fs, m, files, closure);
    }
  }

  /** The recorded files, unchanged, stay closed exactly when no candidate that one of their imports missed has
      appeared. */
  lemma FilesStayClosedExactly(c: Context, fs: FileSystem, fs': FileSystem, src: Path, files: set<Path>)
    requires IsClosure(c, fs, src, files) && files <= fs'.Keys
    requires forall f :: f in files ==> f in fs && fs'[f] == fs[f]
    ensures ClosedBut(c, fs', files, {}) <==> forall f :: f in files ==> MissesStay(c, fs, fs', f, c.parse(fs[f]).value)
  {
    forall f | f in files ensures HitsWithin(c, fs', f, files) <==> MissesStay(c, fs, fs', f, c.parse(fs[f]).value) {
      assert HitsWithin(c, fs, f, files);
      forall i | i in c.parse(fs[f]).value
        ensures Resolve(c, fs, i, f).misses !! fs'.Keys <==>
          (Resolve(c, fs', i, f).hit.Some? ==> Resolve(c, fs', i, f).hit.value in files)
      {
        if Resolve(c, fs, i, f).misses !! fs'.Keys {
          SameLookup(fs, fs', c.candidates(i, f));
        } else {
          NewHit(fs, fs', c.candidates(i, f));
        }
      }
    }
  }

  /** Computes keys for a build process, through the memo the store keeps. */
  class KeyMemo {
    const naming: Naming
    var entries: Entries

    constructor (e: Naming)
      ensures naming == e && entries == map[]
    {
      naming, entries := e, map[];
    }

    method ClosureMemoGet(fs: FileSystem, m: Material) returns (key: Option<Key>)
      ensures key == Recall(fs, entries, m)
    {
      if m !in entries {
        return None;
      }
      var files := entries[m].files;
      var rest := files.Keys;
      while rest != {}
        invariant rest <= files.Keys && forall f :: f in files.Keys - rest ==> f in fs && fs[f] == files[f]
        decreases |rest|
      {
        var f :| f in rest;
        if f !in fs || fs[f] != files[f] {
          return None;
        }
        rest := rest - {f};
      }
      key := Some(entries[m].value);
    }

    method ClosureMemoPut(fs: FileSystem, m: Material, key: Key, files: set<Path>)
      modifies this
      ensures entries == old(entries)[m := Entry(Contents(fs, files), key)]
    {
      entries := entries[m := Entry(map f | f in files && f in fs :: fs[f], key)];
    }

    method ComputeKey(fs: FileSystem, m: Material, closure: set<Path>) returns (key: Key)
      requires closure <= fs.Keys && m.src in fs
      ensures key == ModuleKey(naming, fs, m, closure)
    {
      var pairs, rest := multiset{}, closure - {m.src};
      while rest != {}
        invariant rest <= closure - {m.src}
        invariant pairs + Pairs(naming, fs, rest) == Pairs(naming, fs, closure - {m.src})
        decreases |rest|
      {
        var d :| d in rest;
        PairsInAnyOrder(naming, fs, rest, d);
        pairs, rest := pairs + multiset{Named(naming, fs, d)}, rest - {d};
      }
      key := Key(m.compiler, m.flags, naming.identity(m.src), fs[m.src], pairs);
    }

    /** The key of a module: recalled, or computed from its closure and recorded. None if some of it does not parse. */
    method CasModuleKey(cache: BuildCache, m: Material) returns (key: Option<Key>)
      requires m.src in cache.fs
      modifies this, cache`scans
      ensures Dependencies(cache.context, cache.fs, old(cache.scans), m.src).visited <= cache.fs.Keys
      ensures
        var d := Dependencies(cache.context, cache.fs, old(cache.scans), m.src);
        if Recall(cache.fs, old(entries), m).Some? then
          key == Recall(cache.fs, old(entries), m) && entries == old(entries) && cache.scans == old(cache.scans)
        else if d.ok then
          && key == Some(ModuleKey(naming, cache.fs, m, d.visited)) && cache.scans == d.scans
          && entries == old(entries)[m := Entry(Contents(cache.fs, d.visited), key.value)]
        else
          key == None && entries == old(entries) && cache.scans == d.scans
      ensures old(MemoHolds(naming, cache.context, entries)) && Current(cache.context, cache.fs, old(cache.scans)) ==>
        MemoHolds(naming, cache.context, entries)
    {
      GatheredFilesExist(cache.context, cache.fs, Gathered({}, cache.scans, true), m.src);
      key := ClosureMemoGet(cache.fs, m);
      if key.Some? {
        return;
      }
      var closure, ok := cache.GetTransitiveDependencies(m.src, {});
      if !ok {
        return;
      }
      var k := ComputeKey(cache.fs, m, closure);
      ClosureMemoPut(cache.fs, m, k, closure);
      key := Some(k);
      if Current(cache.context, cache.fs, old(cache.scans)) {
        DependenciesAreTheClosure(cache.context, cache.fs, old(cache.scans), m.src);
        assert Contents(cache.fs, closure).Keys == closure;
        assert EntryHolds(naming, cache.context, m, entries[m]);
      }
    }
  }
}
