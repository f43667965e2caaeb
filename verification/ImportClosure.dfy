/** The build's own view of a module's imports: scans kept between runs, and the set of files they lead to. */
module ImportClosure {
  import opened Basics
  import opened ImportGraph

  // ---- one file's imports -------------------------------------------------

  /** The files the imports resolve to, without repeats; an import that resolves to none is skipped. */
  function HitsOf(c: Context, fs: FileSystem, f: Path, imports: seq<Import>, found: seq<Path>): seq<Path> {
    if imports == [] then found
    else
      var hit := Resolve(c, fs, imports[0], f).hit;
      HitsOf(c, fs, f, imports[1..], if hit.Some? && hit.value !in found then found + [hit.value] else found)
  }

  function DirectImports(c: Context, fs: FileSystem, f: Path): Option<seq<Path>>
    requires f in fs
  {
    match c.parse(fs[f])
    case None => None
    case Some(imports) => Some(HitsOf(c, fs, f, imports, []))
  }

  lemma {:induction false} HitsOfAreHits(c: Context, fs: FileSystem, f: Path, imports: seq<Import>, found: seq<Path>)
    ensures forall g :: g in HitsOf(c, fs, f, imports, found) <==>
      g in found || exists i :: i in imports && Resolve(c, fs, i, f).hit == Some(g)
  {
    if imports != [] {
      var hit := Resolve(c, fs, imports[0], f).hit;
      var found' := if hit.Some? && hit.value !in found then found + [hit.value] else found;
      assert forall g :: g in found' <==> g in found || hit == Some(g);
      HitsOfAreHits(c, fs, f, imports[1..], found');
    }
  }

  lemma DirectImportsAreImports(c: Context, fs: FileSystem, f: Path)
    requires f in fs && DirectImports(c, fs, f).Some?
    ensures forall g :: g in DirectImports(c, fs, f).value <==> Imports(c, fs, f, g)
  {
    HitsOfAreHits(c, fs, f, c.parse(fs[f]).value, []);
  }

  lemma ImportedFilesExist(c: Context, fs: FileSystem, f: Path, g: Path)
    requires Imports(c, fs, f, g)
    ensures g in fs
  {
    var i :| i in c.parse(fs[f]).value && Resolve(c, fs, i, f).hit == Some(g);
  }

  // ---- scans kept between runs --------------------------------------------

  /** What a file's imports were found to be, and the content they were found for. */
  datatype Scan = Scan(content: Content, imports: seq<Path>)

  type Scans = map<Path, Scan>

  /** A scan serves again for the same content, while all it found is still there. */
  predicate Serves(fs: FileSystem, scans: Scans, f: Path)
    requires f in fs
  {
    f in scans && scans[f].content == fs[f] && forall g :: g in scans[f].imports ==> g in fs
  }

  datatype Scanned = Scanned(imports: Option<seq<Path>>, scans: Scans)

  function ScanImports(c: Context, fs: FileSystem, scans: Scans, f: Path): Scanned
    requires f in fs
  {
    if Serves(fs, scans, f) then Scanned(Some(scans[f].imports), scans)
    else
      match DirectImports(c, fs, f)
      case None => Scanned(None, scans)
      case Some(imports) => Scanned(Some(imports), scans[f := Scan(fs[f], imports)])
  }

  /** Every scan that serves says what a fresh one would. */
  predicate Current(c: Context, fs: FileSystem, scans: Scans) {
    forall f :: f in scans && f in fs && Serves(fs, scans, f) ==> DirectImports(c, fs, f) == Some(scans[f].imports)
  }

  lemma CurrentScansAreFresh(c: Context, fs: FileSystem, scans: Scans, f: Path)
    requires Current(c, fs, scans) && f in fs
    ensures ScanImports(c, fs, scans, f).imports == DirectImports(c, fs, f)
    ensures Current(c, fs, ScanImports(c, fs, scans, f).scans)
  {
  }

  // ---- the closure --------------------------------------------------------

  datatype Gathered = Gathered(visited: set<Path>, scans: Scans, ok: bool)

  function Gather(c: Context, fs: FileSystem, g: Gathered, f: Path): (r: Gathered)
    requires f in fs
    ensures g.visited <= r.visited && f in r.visited && (r.ok ==> g.ok)
    decreases Unmet(fs, g.visited), 1
  {
    if f in g.visited then g
    else
      FewerUnmet(fs, g.visited, f);
      var s := ScanImports(c, fs, g.scans, f);
      var g' := Gathered(g.visited + {f}, s.scans, g.ok && s.imports.Some?);
      if s.imports.None? then g' else GatherAll(c, fs, g', s.imports.value)
  }

  function GatherAll(c: Context, fs: FileSystem, g: Gathered, files: seq<Path>): (r: Gathered)
    ensures g.visited <= r.visited && (r.ok ==> g.ok)
    decreases Unmet(fs, g.visited), 2, |files|
  {
    if files == [] || !g.ok then g
    else if files[0] !in fs then GatherAll(c, fs, g, files[1..])
    else
      var g' := Gather(c, fs, g, files[0]);
      NoMoreUnmet(fs, g.visited, g'.visited);
      GatherAll(c, fs, g', files[1..])
  }

  /** No scan is lost, and one that serves stays as it is. */
  predicate KeepsScans(fs: FileSystem, before: Scans, after: Scans) {
    forall f :: f in before ==> f in after && (f in fs && Serves(fs, before, f) ==> after[f] == before[f])
  }

  lemma KeptByBoth(fs: FileSystem, a: Scans, b: Scans, c: Scans)
    requires KeepsScans(fs, a, b) && KeepsScans(fs, b, c)
    ensures KeepsScans(fs, a, c)
  {
    forall f | f in a && f in fs && Serves(fs, a, f) ensures f in c && c[f] == a[f] {
      assert b[f] == a[f] && Serves(fs, b, f);
    }
  }

  lemma {:induction false} GatherLosesNoScan(c: Context, fs: FileSystem, g: Gathered, f: Path)
    requires f in fs
    ensures KeepsScans(fs, g.scans, Gather(c, fs, g, f).scans)
    decreases Unmet(fs, g.visited), 1
  {
    if f !in g.visited {
      FewerUnmet(fs, g.visited, f);
      var s := ScanImports(c, fs, g.scans, f);
      assert KeepsScans(fs, g.scans, s.scans);
      if s.imports.Some? {
        var g' := Gathered(g.visited + {f}, s.scans, g.ok);
        AllGatheredLoseNoScan(c, fs, g', s.imports.value);
        KeptByBoth(fs, g.scans, s.scans, GatherAll(c, fs, g', s.imports.value).scans);
      }
    }
  }

  lemma {:induction false} AllGatheredLoseNoScan(c: Context, fs: FileSystem, g: Gathered, files: seq<Path>)
    ensures KeepsScans(fs, g.scans, GatherAll(c, fs, g, files).scans)
    decreases Unmet(fs, g.visited), 2, |files|
  {
    if files != [] && g.ok {
      if files[0] in fs {
        var g' := Gather(c, fs, g, files[0]);
        GatherLosesNoScan(c, fs, g, files[0]);
        NoMoreUnmet(fs, g.visited, g'.visited);
        AllGatheredLoseNoScan(c, fs, g', files[1..]);
        KeptByBoth(fs, g.scans, g'.scans, GatherAll(c, fs, g', files[1..]).scans);
      } else {
        AllGatheredLoseNoScan(c, fs, g, files[1..]);
      }
    }
  }

  /** The transitive dependencies of a source, itself included. */
  function Dependencies(c: Context, fs: FileSystem, scans: Scans, src: Path): Gathered
    requires src in fs
  {
    Gather(c, fs, Gathered({}, scans, true), src)
  }

  lemma {:induction false} GatheredFilesExist(c: Context, fs: FileSystem, g: Gathered, f: Path)
    requires f in fs && g.visited <= fs.Keys
    ensures Gather(c, fs, g, f).visited <= fs.Keys
    decreases Unmet(fs, g.visited), 1
  {
    if f !in g.visited {
      FewerUnmet(fs, g.visited, f);
      var s := ScanImports(c, fs, g.scans, f);
      if s.imports.Some? {
        AllGatheredFilesExist(c, fs, Gathered(g.visited + {f}, s.scans, g.ok), s.imports.value);
      }
    }
  }

  lemma {:induction false} AllGatheredFilesExist(c: Context, fs: FileSystem, g: Gathered, files: seq<Path>)
    requires g.visited <= fs.Keys
    ensures GatherAll(c, fs, g, files).visited <= fs.Keys
    decreases Unmet(fs, g.visited), 2, |files|
  {
    if files != [] && g.ok {
      if files[0] in fs {
        var g' := Gather(c, fs, g, files[0]);
        GatheredFilesExist(c, fs, g, files[0]);
        NoMoreUnmet(fs, g.visited, g'.visited);
        AllGatheredFilesExist(c, fs, g', files[1..]);
      } else {
        AllGatheredFilesExist(c, fs, g, files[1..]);
      }
    }
  }

  /** All that an import of `f` resolves to is in `files`; `f` parses. */
  predicate HitsWithin(c: Context, fs: FileSystem, f: Path, files: set<Path>) {
    f in fs && c.parse(fs[f]).Some? && forall i :: i in c.parse(fs[f]).value ==>
      Resolve(c, fs, i, f).hit.Some? ==> Resolve(c, fs, i, f).hit.value in files
  }

  ghost predicate AllReached(c: Context, fs: FileSystem, src: Path, files: set<Path>) {
    files <= fs.Keys && forall f :: f in files ==> Reaches(c, fs, src, f)
  }

  predicate ClosedBut(c: Context, fs: FileSystem, files: set<Path>, open: set<Path>) {
    forall f :: f in files && f !in open ==> HitsWithin(c, fs, f, files)
  }

  ghost predicate Unparsed(c: Context, fs: FileSystem, src: Path, f: Path) {
    f in fs && c.parse(fs[f]).None? && Reaches(c, fs, src, f)
  }

  ghost predicate GatherOk(c: Context, fs: FileSystem, src: Path, g: Gathered, open: set<Path>) {
    && Current(c, fs, g.scans) && AllReached(c, fs, src, g.visited)
    && (if g.ok then ClosedBut(c, fs, g.visited, open) else exists f :: Unparsed(c, fs, src, f))
  }

  lemma {:induction false} GatherCloses(c: Context, fs: FileSystem, src: Path, g: Gathered, open: set<Path>, f: Path)
    requires GatherOk(c, fs, src, g, open) && g.ok && open <= g.visited && f in fs && Reaches(c, fs, src, f)
    ensures GatherOk(c, fs, src, Gather(c, fs, g, f), open)
    decreases Unmet(fs, g.visited), 1
  {
    if f !in g.visited {
      FewerUnmet(fs, g.visited, f);
      CurrentScansAreFresh(c, fs, g.scans, f);
      var s := ScanImports(c, fs, g.scans, f);
      if s.imports.None? {
        assert Unparsed(c, fs, src, f);
      } else {
        var g' := Gathered(g.visited + {f}, s.scans, true);
        OpenOneMore(c, fs, g.visited, open, f);
        DirectImportsAreImports(c, fs, f);
        GatherAllCloses(c, fs, src, g', open + {f}, f, s.imports.value);
        var r := GatherAll(c, fs, g', s.imports.value);
        if r.ok {
          ImportsAreWithin(c, fs, f, r.visited, s.imports.value);
        }
      }
    }
  }

  lemma OpenOneMore(c: Context, fs: FileSystem, files: set<Path>, open: set<Path>, f: Path)
    requires ClosedBut(c, fs, files, open)
    ensures ClosedBut(c, fs, files + {f}, open + {f})
  {
  }

  lemma ImportsAreWithin(c: Context, fs: FileSystem, f: Path, files: set<Path>, imports: seq<Path>)
    requires f in fs && c.parse(fs[f]).Some?
    requires forall g :: g in imports <==> Imports(c, fs, f, g)
    requires forall g :: g in imports && g in fs ==> g in files
    ensures HitsWithin(c, fs, f, files)
  {
    forall i | i in c.parse(fs[f]).value && Resolve(c, fs, i, f).hit.Some?
      ensures Resolve(c, fs, i, f).hit.value in files
    {
      assert Imports(c, fs, f, Resolve(c, fs, i, f).hit.value);
    }
  }

  lemma {:induction false} GatherAllCloses(c: Context, fs: FileSystem, src: Path, g: Gathered, open: set<Path>,
      from: Path, files: seq<Path>)
    requires GatherOk(c, fs, src, g, open) && g.ok && open <= g.visited && from in g.visited
    requires forall f :: f in files ==> Imports(c, fs, from, f)
    ensures
      var r := GatherAll(c, fs, g, files);
      && GatherOk(c, fs, src, r, open)
      && (r.ok ==> forall f :: f in files && f in fs ==> f in r.visited)
    decreases Unmet(fs, g.visited), 2, |files|
  {
    if files != [] {
      ImportedFilesExist(c, fs, from, files[0]);
      var g' := Gather(c, fs, g, files[0]);
      ReachesOn(c, fs, src, from, files[0]);
      GatherCloses(c, fs, src, g, open, files[0]);
      NoMoreUnmet(fs, g.visited, g'.visited);
      if g'.ok {
        GatherAllCloses(c, fs, src, g', open, from, files[1..]);
      }
    }
  }

  lemma {:induction false} ChainOfHitsStaysWithin(c: Context, fs: FileSystem, files: set<Path>, chain: seq<Path>)
    requires IsChain(c, fs, chain) && chain[0] in files && ClosedBut(c, fs, files, {})
    ensures chain[|chain| - 1] in files
    decreases |chain|
  {
    if |chain| > 1 {
      assert Imports(c, fs, chain[0], chain[1]);
      assert forall k :: 0 <= k < |chain[1..]| ==> chain[1..][k] == chain[k + 1];
      ChainOfHitsStaysWithin(c, fs, files, chain[1..]);
    }
  }

  /** `files` is all that the source reaches, and every one of them parses. */
  ghost predicate IsClosure(c: Context, fs: FileSystem, src: Path, files: set<Path>) {
    src in files && ClosedBut(c, fs, files, {}) && forall f :: f in files <==> Reaches(c, fs, src, f)
  }

  lemma ClosureIs(c: Context, fs: FileSystem, src: Path, files: set<Path>)
    requires src in files && AllReached(c, fs, src, files) && ClosedBut(c, fs, files, {})
    ensures IsClosure(c, fs, src, files)
  {
    forall g | Reaches(c, fs, src, g) ensures g in files {
      var chain :| IsChain(c, fs, chain) && chain[0] == src && chain[|chain| - 1] == g;
      ChainOfHitsStaysWithin(c, fs, files, chain);
    }
  }

  /** With current scans the build finds exactly what the source reaches, or fails because some of it does not
      parse, and its scans stay current. */
  lemma DependenciesAreTheClosure(c: Context, fs: FileSystem, scans: Scans, src: Path)
    requires src in fs && Current(c, fs, scans)
    ensures
      var r := Dependencies(c, fs, scans, src);
      && Current(c, fs, r.scans)
      && (r.ok ==> IsClosure(c, fs, src, r.visited))
      && (!r.ok ==> exists f :: Unparsed(c, fs, src, f))
  {
    ReachesItself(c, fs, src);
    GatherCloses(c, fs, src, Gathered({}, scans, true), {}, src);
    var r := Dependencies(c, fs, scans, src);
    if r.ok {
      ClosureIs(c, fs, src, r.visited);
    }
  }

  lemma ClosureIsUnique(c: Context, fs: FileSystem, src: Path, files: set<Path>, files': set<Path>)
    requires IsClosure(c, fs, src, files) && IsClosure(c, fs, src, files')
    ensures files == files'
  {
  }

  lemma ClosureParses(c: Context, fs: FileSystem, src: Path, files: set<Path>)
    requires IsClosure(c, fs, src, files)
    ensures !exists f :: Unparsed(c, fs, src, f)
  {
  }

  /** When the compiler resolves the source, the build finds the very set of files the compiler read. */
  lemma DependenciesAreWhatIsRead(c: Context, fs: FileSystem, scans: Scans, src: Path)
    requires src in fs && Current(c, fs, scans) && ResolveAll(c, fs, src).ok
    ensures Dependencies(c, fs, scans, src).ok
    ensures Dependencies(c, fs, scans, src).visited == ResolveAll(c, fs, src).processed
  {
    var t := ResolveAll(c, fs, src);
    ClosureIsReachability(c, fs, src);
    assert IsClosure(c, fs, src, t.processed);
    DependenciesAreTheClosure(c, fs, scans, src);
    ClosureParses(c, fs, src, t.processed);
  }

  // ---- the same files, the same closure -----------------------------------

  /** The files are there in both file systems and import the same. */
  predicate ImportAlike(c: Context, fs: FileSystem, fs': FileSystem, files: set<Path>) {
    forall f :: f in files ==> f in fs && f in fs' && c.parse(fs'[f]) == c.parse(fs[f])
  }

  lemma {:induction false} SameHit(fs: FileSystem, fs': FileSystem, files: set<Path>, candidates: seq<Path>)
    requires files <= fs.Keys && files <= fs'.Keys
    requires FirstOf(fs, candidates).hit.Some? && FirstOf(fs, candidates).hit.value in files
    requires FirstOf(fs', candidates).hit.Some? ==> FirstOf(fs', candidates).hit.value in files
    ensures FirstOf(fs', candidates).hit == FirstOf(fs, candidates).hit
  {
    if candidates[0] !in fs && candidates[0] !in fs' {
      SameHit(fs, fs', files, candidates[1..]);
    }
  }

  lemma SameImports(c: Context, fs: FileSystem, fs': FileSystem, files: set<Path>, f: Path, g: Path)
    requires ImportAlike(c, fs, fs', files) && f in files && g in files && HitsWithin(c, fs', f, files) &&
      Imports(c, fs, f, g)
    ensures Imports(c, fs', f, g)
  {
    var i :| i in c.parse(fs[f]).value && Resolve(c, fs, i, f).hit == Some(g);
    SameHit(fs, fs', files, c.candidates(i, f));
  }

  lemma PartOfChainReaches(c: Context, fs: FileSystem, chain: seq<Path>, k: nat)
    requires IsChain(c, fs, chain) && k < |chain|
    ensures Reaches(c, fs, chain[0], chain[k])
  {
    assert IsChain(c, fs, chain[..k + 1]);
  }

  lemma SameReach(c: Context, fs: FileSystem, fs': FileSystem, src: Path, files: set<Path>, chain: seq<Path>)
    requires IsClosure(c, fs, src, files) && ImportAlike(c, fs, fs', files) && ClosedBut(c, fs', files, {})
    requires IsChain(c, fs, chain) && chain[0] == src
    ensures IsChain(c, fs', chain)
  {
    forall k | 0 <= k < |chain| - 1 ensures Imports(c, fs', chain[k], chain[k + 1]) {
      PartOfChainReaches(c, fs, chain, k);
      PartOfChainReaches(c, fs, chain, k + 1);
      SameImports(c, fs, fs', files, chain[k], chain[k + 1]);
    }
  }

  /** Where the closure's files import the same, it is still the closure exactly when no import of theirs now
      resolves out of it. */
  lemma ClosureStaysExactly(c: Context, fs: FileSystem, fs': FileSystem, src: Path, files: set<Path>)
    requires IsClosure(c, fs, src, files) && ImportAlike(c, fs, fs', files)
    ensures IsClosure(c, fs', src, files) <==> ClosedBut(c, fs', files, {})
  {
    if ClosedBut(c, fs', files, {}) {
      forall f | f in files ensures Reaches(c, fs', src, f) {
        var chain :| IsChain(c, fs, chain) && chain[0] == src && chain[|chain| - 1] == f;
        SameReach(c, fs, fs', src, files, chain);
      }
      ClosureIs(c, fs', src, files);
    }
  }

  /** A closure the compiler resolved still resolves wherever it is still the closure and its files import the same. */
  lemma ResolvesAgain(c: Context, fs: FileSystem, fs': FileSystem, src: Path)
    requires src in fs && ResolveAll(c, fs, src).ok
    requires ImportAlike(c, fs, fs', ResolveAll(c, fs, src).processed) &&
      IsClosure(c, fs', src, ResolveAll(c, fs, src).processed)
    ensures src in fs' && ResolveAll(c, fs', src).ok
    ensures ResolveAll(c, fs', src).processed == ResolveAll(c, fs, src).processed
  {
    var files := ResolveAll(c, fs, src).processed;
    ClosureIsReachability(c, fs, src);
    forall f | f in files ensures ImportsWithin(c, fs', f, files) {
      assert ImportsWithin(c, fs, f, files) && HitsWithin(c, fs', f, files);
      forall i | i in c.parse(fs'[f]).value
        ensures Resolve(c, fs', i, f).hit.Some? && Resolve(c, fs', i, f).hit.value in files
      {
        SameHit(fs, fs', files, c.candidates(i, f));
      }
    }
    ResolvesWithin(c, fs', src, files);
    ClosureIsReachability(c, fs', src);
    assert IsClosure(c, fs', src, ResolveAll(c, fs', src).processed);
  }

  // ---- when scans are current ---------------------------------------------

  lemma {:induction false} HitsAgain(c: Context, fs: FileSystem, fs': FileSystem, f: Path, imports: seq<Import>,
      found: seq<Path>)
    requires forall i :: i in imports ==> Resolve(c, fs', i, f).hit == Resolve(c, fs, i, f).hit
    ensures HitsOf(c, fs', f, imports, found) == HitsOf(c, fs, f, imports, found)
  {
    if imports != [] {
      assert imports[0] in imports;
      var hit := Resolve(c, fs, imports[0], f).hit;
      HitsAgain(c, fs, fs', f, imports[1..], if hit.Some? && hit.value !in found then found + [hit.value] else found);
    }
  }

  /** Where a candidate missed before is there now, the import resolves to one that was not. */
  lemma {:induction false} NewHit(fs: FileSystem, fs': FileSystem, candidates: seq<Path>)
    requires !(FirstOf(fs, candidates).misses !! fs'.Keys)
    ensures FirstOf(fs', candidates).hit.Some? && FirstOf(fs', candidates).hit.value !in fs
  {
    if candidates[0] !in fs' {
      assert FirstOf(fs, candidates).misses == FirstOf(fs, candidates[1..]).misses + {candidates[0]};
      NewHit(fs, fs', candidates[1..]);
    }
  }

  /** None of the imports' candidates that `fs` lacked, up to the hit, is there in `fs'`. */
  predicate MissesStay(c: Context, fs: FileSystem, fs': FileSystem, f: Path, imports: seq<Import>) {
    forall i :: i in imports ==> Resolve(c, fs, i, f).misses !! fs'.Keys
  }

  /** While the file and what it imports are there, its direct imports are the same exactly when no
      candidate missed then has appeared. Files after the hit do no harm. */
  lemma SameDirectImportsExactly(c: Context, fs: FileSystem, fs': FileSystem, f: Path)
    requires f in fs && f in fs' && fs'[f] == fs[f] && DirectImports(c, fs, f).Some?
    requires forall g :: g in DirectImports(c, fs, f).value ==> g in fs'
    ensures DirectImports(c, fs', f) == DirectImports(c, fs, f) <==> MissesStay(c, fs, fs', f, c.parse(fs[f]).value)
  {
    var imports := c.parse(fs[f]).value;
    HitsOfAreHits(c, fs, f, imports, []);
    HitsOfAreHits(c, fs', f, imports, []);
    if MissesStay(c, fs, fs', f, imports) {
      forall i | i in imports ensures Resolve(c, fs', i, f).hit == Resolve(c, fs, i, f).hit {
        assert Resolve(c, fs, i, f).hit.Some? ==> Resolve(c, fs, i, f).hit.value in DirectImports(c, fs, f).value;
        SameLookup(fs, fs', c.candidates(i, f));
      }
      HitsAgain(c, fs, fs', f, imports, []);
    } else {
      var i :| i in imports && !(Resolve(c, fs, i, f).misses !! fs'.Keys);
      NewHit(fs, fs', c.candidates(i, f));
      assert Resolve(c, fs', i, f).hit.value in HitsOf(c, fs', f, imports, []);
    }
  }

  /** The candidates tried before one of those found. */
  function TriedBefore(candidates: seq<Path>, found: seq<Path>): set<Path> {
    if candidates == [] || candidates[0] in found then {} else {candidates[0]} + TriedBefore(candidates[1..], found)
  }

  /** A scan tells what was missed when it was made. */
  predicate Missed(c: Context, f: Path, s: Scan, p: Path) {
    && c.parse(s.content).Some?
    && exists i :: i in c.parse(s.content).value && p in TriedBefore(c.candidates(i, f), s.imports)
  }

  lemma {:induction false} TriedAreMisses(fs: FileSystem, candidates: seq<Path>, found: seq<Path>)
    requires FirstOf(fs, candidates).hit.Some? ==> FirstOf(fs, candidates).hit.value in found
    requires forall g :: g in found ==> g in fs
    ensures TriedBefore(candidates, found) == FirstOf(fs, candidates).misses
  {
    if candidates != [] && candidates[0] !in fs {
      TriedAreMisses(fs, candidates[1..], found);
    }
  }

  /** The scan was made, in some file system. */
  ghost predicate WasScanned(c: Context, f: Path, s: Scan) {
    exists fs: FileSystem :: ScannedIn(c, fs, f, s)
  }

  predicate ScannedIn(c: Context, fs: FileSystem, f: Path, s: Scan) {
    f in fs && fs[f] == s.content && DirectImports(c, fs, f) == Some(s.imports)
  }

  ghost predicate AllScanned(c: Context, scans: Scans) {
    forall f :: f in scans ==> WasScanned(c, f, scans[f])
  }

  lemma MissedWhenScanned(c: Context, fs: FileSystem, f: Path, s: Scan, p: Path)
    requires ScannedIn(c, fs, f, s)
    ensures Missed(c, f, s, p) <==> exists i :: i in c.parse(fs[f]).value && p in Resolve(c, fs, i, f).misses
  {
    HitsOfAreHits(c, fs, f, c.parse(fs[f]).value, []);
    forall i | i in c.parse(fs[f]).value
      ensures TriedBefore(c.candidates(i, f), s.imports) == Resolve(c, fs, i, f).misses
    {
      TriedAreMisses(fs, c.candidates(i, f), s.imports);
    }
  }

  /** No file is there that a scan still in use missed. */
  predicate NothingMissedAppeared(c: Context, fs: FileSystem, scans: Scans) {
    forall f :: f in scans && f in fs && Serves(fs, scans, f) ==> MissedNone(c, fs, f, scans[f])
  }

  predicate MissedNone(c: Context, fs: FileSystem, f: Path, s: Scan) {
    forall p :: p in fs ==> !Missed(c, f, s, p)
  }

  lemma ServesRightlyExactly(c: Context, fs: FileSystem, scans: Scans, f: Path)
    requires f in fs && Serves(fs, scans, f) && WasScanned(c, f, scans[f])
    ensures DirectImports(c, fs, f) == Some(scans[f].imports) <==> MissedNone(c, fs, f, scans[f])
  {
    var s := scans[f];
    var past: FileSystem :| ScannedIn(c, past, f, s);
    SameDirectImportsExactly(c, past, fs, f);
    forall p ensures Missed(c, f, s, p) <==>
      exists i :: i in c.parse(past[f]).value && p in Resolve(c, past, i, f).misses
    {
      MissedWhenScanned(c, past, f, s, p);
    }
  }

  /** Kept scans say what fresh ones would, exactly when no file is there that one still in use missed. */
  lemma CurrentExactly(c: Context, fs: FileSystem, scans: Scans)
    requires AllScanned(c, scans)
    ensures Current(c, fs, scans) <==> NothingMissedAppeared(c, fs, scans)
  {
    forall f | f in scans && f in fs && Serves(fs, scans, f)
      ensures DirectImports(c, fs, f) == Some(scans[f].imports) <==> MissedNone(c, fs, f, scans[f])
    {
      ServesRightlyExactly(c, fs, scans, f);
    }
  }

  lemma ScanWasMade(c: Context, fs: FileSystem, scans: Scans, f: Path)
    requires AllScanned(c, scans) && f in fs
    ensures AllScanned(c, ScanImports(c, fs, scans, f).scans)
  {
    if DirectImports(c, fs, f).Some? {
      assert ScannedIn(c, fs, f, Scan(fs[f], DirectImports(c, fs, f).value));
    }
  }

  lemma {:induction false} GatherKeepsScans(c: Context, fs: FileSystem, g: Gathered, f: Path)
    requires AllScanned(c, g.scans) && f in fs
    ensures AllScanned(c, Gather(c, fs, g, f).scans)
    decreases Unmet(fs, g.visited), 1
  {
    if f !in g.visited {
      FewerUnmet(fs, g.visited, f);
      ScanWasMade(c, fs, g.scans, f);
      var s := ScanImports(c, fs, g.scans, f);
      if s.imports.Some? {
        GatherAllKeepsScans(c, fs, Gathered(g.visited + {f}, s.scans, g.ok && s.imports.Some?), s.imports.value);
      }
    }
  }

  lemma {:induction false} GatherAllKeepsScans(c: Context, fs: FileSystem, g: Gathered, files: seq<Path>)
    requires AllScanned(c, g.scans)
    ensures AllScanned(c, GatherAll(c, fs, g, files).scans)
    decreases Unmet(fs, g.visited), 2, |files|
  {
    if files != [] && g.ok {
      if files[0] in fs {
        var g' := Gather(c, fs, g, files[0]);
        GatherKeepsScans(c, fs, g, files[0]);
        NoMoreUnmet(fs, g.visited, g'.visited);
        GatherAllKeepsScans(c, fs, g', files[1..]);
      } else {
        GatherAllKeepsScans(c, fs, g, files[1..]);
      }
    }
  }
}
