/** Import resolution over a file system: the walk that collects a module's closure, the trace it
    leaves, and what the closure is. */
module ImportGraph {

  import opened Basics

  type Path = string
  type Content = seq<int>
  type Import = seq<string>
  type FileSystem = map<Path, Content>

  /** What resolution depends on besides the files: the parser, and for each import of a
      file the places it may be, in the order they are tried. */
  datatype Context = Context(parse: Content -> Option<seq<Import>>, candidates: (Import, Path) -> seq<Path>)

  // ---- resolving one import -----------------------------------------------

  /** The first candidate that exists, and the ones missed before it. */
  datatype Lookup = Lookup(hit: Option<Path>, misses: set<Path>)

  function FirstOf(fs: FileSystem, candidates: seq<Path>): (r: Lookup)
    ensures r.hit.Some? ==> r.hit.value in fs
    ensures r.misses !! fs.Keys
  {
    if candidates == [] then Lookup(None, {})
    else if candidates[0] in fs then Lookup(Some(candidates[0]), {})
    else
      var r := FirstOf(fs, candidates[1..]);
      r.(misses := r.misses + {candidates[0]})
  }

  /** The lookup hits the first candidate there is, and misses just the ones before it. */
  lemma {:induction false} FirstOfIsFirst(fs: FileSystem, candidates: seq<Path>, k: nat)
    requires k <= |candidates| && (forall j :: 0 <= j < k ==> candidates[j] !in fs)
    requires k < |candidates| ==> candidates[k] in fs
    ensures FirstOf(fs, candidates).hit == if k < |candidates| then Some(candidates[k]) else None
    ensures FirstOf(fs, candidates).misses == set m | m in candidates[..k]
  {
    if k > 0 {
      FirstOfIsFirst(fs, candidates[1..], k - 1);
      assert candidates[..k] == [candidates[0]] + candidates[1..][..k - 1];
    }
  }

  function Resolve(c: Context, fs: FileSystem, i: Import, from: Path): Lookup {
    FirstOf(fs, c.candidates(i, from))
  }

  /** Two file systems agree on a lookup when they agree on the misses and the hit. */
  lemma {:induction false} SameLookup(fs: FileSystem, fs': FileSystem, candidates: seq<Path>)
    requires FirstOf(fs, candidates).misses !! fs'.Keys
    requires FirstOf(fs, candidates).hit.Some? ==> FirstOf(fs, candidates).hit.value in fs'
    ensures FirstOf(fs', candidates) == FirstOf(fs, candidates)
  {
    if candidates != [] && candidates[0] !in fs {
      assert candidates[0] in FirstOf(fs, candidates).misses;
      assert FirstOf(fs, candidates[1..]).misses <= FirstOf(fs, candidates).misses;
      SameLookup(fs, fs', candidates[1..]);
    }
  }

  // ---- the walk -----------------------------------------------------------

  /** The files met, the candidates probed and missed, the files read in order, and whether
      every import was found and every file parsed. */
  datatype Trace = Trace(processed: set<Path>, missed: set<Path>, loaded: seq<Path>, ok: bool)

  /** How many files a walk has left to meet. */
  function Unmet(fs: FileSystem, met: set<Path>): nat {
    |fs.Keys - met|
  }

  lemma FewerUnmet(fs: FileSystem, met: set<Path>, f: Path)
    requires f in fs && f !in met
    ensures Unmet(fs, met + {f}) < Unmet(fs, met)
  {
    assert fs.Keys - (met + {f}) == (fs.Keys - met) - {f};
  }

  lemma NoMoreUnmet(fs: FileSystem, met: set<Path>, met': set<Path>)
    requires met <= met'
    ensures Unmet(fs, met') <= Unmet(fs, met)
  {
    SubsetSize(fs.Keys - met', fs.Keys - met);
  }

  predicate Extends(t: Trace, t': Trace) {
    t.processed <= t'.processed && t.missed <= t'.missed && t.loaded <= t'.loaded && (t'.ok ==> t.ok)
  }

  function Meet(t: Trace, f: Path): Trace {
    t.(processed := t.processed + {f}, loaded := t.loaded + [f])
  }

  /** Reads a file not met before and processes its imports. */
  function Load(c: Context, fs: FileSystem, t: Trace, f: Path): (r: Trace)
    requires f in fs && f !in t.processed
    ensures Extends(t, r) && f in r.processed
    decreases Unmet(fs, t.processed), 0
  {
    FewerUnmet(fs, t.processed, f);
    var t' := Meet(t, f);
    match c.parse(fs[f])
    case None => t'.(ok := false)
    case Some(imports) => ProcessAll(c, fs, t', f, imports)
  }

  function ProcessAll(c: Context, fs: FileSystem, t: Trace, from: Path, imports: seq<Import>): (r: Trace)
    ensures Extends(t, r)
    decreases Unmet(fs, t.processed), 2, |imports|
  {
    if imports == [] || !t.ok then t
    else
      var t' := Process(c, fs, t, from, imports[0]);
      NoMoreUnmet(fs, t.processed, t'.processed);
      ProcessAll(c, fs, t', from, imports[1..])
  }

  function Process(c: Context, fs: FileSystem, t: Trace, from: Path, i: Import): (r: Trace)
    ensures Extends(t, r)
    decreases Unmet(fs, t.processed), 1
  {
    var l := Resolve(c, fs, i, from);
    var t' := t.(missed := t.missed + l.misses);
    match l.hit
    case None => t'.(ok := false)
    case Some(f) => if f in t.processed then t' else Load(c, fs, t', f)
  }

  const START := Trace({}, {}, [], true)

  /** Resolving a module from its source file. */
  function ResolveAll(c: Context, fs: FileSystem, src: Path): Trace
    requires src in fs
  {
    Load(c, fs, START, src)
  }

  /** The resolver as the object it is. */
  class ImportResolver {
    const context: Context
    const fs: FileSystem
    var processed: set<Path>
    var missed: set<Path>
    var loaded: seq<Path>
    // The chain of imports being processed, kept to report a cycle.
    var stack: seq<Path>

    constructor (c: Context, files: FileSystem)
      ensures context == c && fs == files && processed == {} && missed == {} && loaded == [] && stack == []
    {
      context, fs, processed, missed, loaded, stack := c, files, {}, {}, [], [];
    }

    function Now(ok: bool): Trace
      reads this
    {
      Trace(processed, missed, loaded, ok)
    }

    /** Every file on the stack has been met: this is why no cycle is ever reported. */
    ghost predicate StackIsMet()
      reads this
    {
      forall f :: f in stack ==> f in processed
    }

    method Collect(src: Path) returns (ok: bool)
      requires src in fs && processed == {} && missed == {} && loaded == [] && stack == []
      modifies this
      ensures Now(ok) == ResolveAll(context, fs, src) && stack == []
    {
      ok := LoadFile(src);
    }

    method LoadFile(f: Path) returns (ok: bool)
      requires f in fs && f !in processed && forall g :: g in stack ==> g in processed || g == f
      modifies this
      ensures Now(ok) == Load(context, fs, old(Now(true)), f)
      ensures stack == old(stack) && StackIsMet()
      decreases Unmet(fs, processed), 0
    {
      FewerUnmet(fs, processed, f);
      processed, loaded := processed + {f}, loaded + [f];
      match context.parse(fs[f])
      case None => ok := false;
      case Some(imports) => ok := ProcessImports(f, imports);
    }

    method ProcessImports(from: Path, imports: seq<Import>) returns (ok: bool)
      requires StackIsMet()
      modifies this
      ensures Now(ok) == ProcessAll(context, fs, old(Now(true)), from, imports)
      ensures stack == old(stack) && StackIsMet()
      decreases Unmet(fs, processed), 2
    {
      ghost var all := ProcessAll(context, fs, Now(true), from, imports);
      for k := 0 to |imports|
        invariant old(processed) <= processed
        invariant stack == old(stack) && StackIsMet()
        invariant ProcessAll(context, fs, Now(true), from, imports[k..]) == all
      {
        NoMoreUnmet(fs, old(processed), processed);
        var rest := imports[k..];
        assert rest[0] == imports[k] && rest[1..] == imports[k + 1..];
        ok := ProcessImport(from, imports[k]);
        if !ok {
          return;
        }
      }
      ok := true;
    }

    method ProcessImport(from: Path, i: Import) returns (ok: bool)
      requires StackIsMet()
      modifies this
      ensures Now(ok) == Process(context, fs, old(Now(true)), from, i)
      ensures stack == old(stack) && StackIsMet()
      decreases Unmet(fs, processed), 1
    {
      var hit := ResolveImport(from, i);
      match hit
      case None => ok := false;
      case Some(f) =>
        if f in processed {
          ok := true;
        } else if f in stack {
          // "Circular import detected": never reached.
          assert false;
        } else {
          stack := stack + [f];
          ok := LoadFile(f);
          stack := stack[..|stack| - 1];
        }
    }

    /** Tries the candidates in turn, recording those that are not there. */
    method ResolveImport(from: Path, i: Import) returns (hit: Option<Path>)
      modifies this`missed
      ensures
        var l := Resolve(context, fs, i, from);
        hit == l.hit && missed == old(missed) + l.misses
    {
      var candidates := context.candidates(i, from);
      ghost var all := FirstOf(fs, candidates);
      for k := 0 to |candidates|
        invariant FirstOf(fs, candidates[k..]).hit == all.hit
        invariant missed + FirstOf(fs, candidates[k..]).misses == old(missed) + all.misses
      {
        var rest := candidates[k..];
        assert rest[0] == candidates[k] && rest[1..] == candidates[k + 1..];
        if candidates[k] in fs {
          return Some(candidates[k]);
        }
        missed := missed + {candidates[k]};
      }
      return None;
    }
  }

  // ---- the trace is enough ------------------------------------------------

  /** Every file met has the content it had, and no missed candidate has appeared. */
  predicate Unchanged(fs: FileSystem, fs': FileSystem, t: Trace) {
    && (forall f :: f in t.processed && f in fs ==> f in fs' && fs'[f] == fs[f])
    && t.missed !! fs'.Keys
  }

  lemma {:induction false} LoadAgain(c: Context, fs: FileSystem, fs': FileSystem, t: Trace, f: Path)
    requires f in fs && f !in t.processed && t.processed <= fs.Keys
    requires Unchanged(fs, fs', Load(c, fs, t, f))
    ensures f in fs' && Load(c, fs', t, f) == Load(c, fs, t, f)
    ensures Load(c, fs, t, f).processed <= fs.Keys
    decreases Unmet(fs, t.processed), 0
  {
    FewerUnmet(fs, t.processed, f);
    assert f in Load(c, fs, t, f).processed;
    var t' := Meet(t, f);
    match c.parse(fs[f])
    case None =>
    case Some(imports) => ProcessAllAgain(c, fs, fs', t', f, imports);
  }

  lemma {:induction false} ProcessAllAgain(c: Context, fs: FileSystem, fs': FileSystem, t: Trace, from: Path,
      imports: seq<Import>)
    requires t.processed <= fs.Keys && Unchanged(fs, fs', ProcessAll(c, fs, t, from, imports))
    ensures ProcessAll(c, fs', t, from, imports) == ProcessAll(c, fs, t, from, imports)
    ensures ProcessAll(c, fs, t, from, imports).processed <= fs.Keys
    decreases Unmet(fs, t.processed), 2, |imports|
  {
    if imports != [] && t.ok {
      var t' := Process(c, fs, t, from, imports[0]);
      NoMoreUnmet(fs, t.processed, t'.processed);
      assert Extends(t', ProcessAll(c, fs, t', from, imports[1..]));
      ProcessAgain(c, fs, fs', t, from, imports[0]);
      ProcessAllAgain(c, fs, fs', t', from, imports[1..]);
    }
  }

  lemma {:induction false} ProcessAgain(c: Context, fs: FileSystem, fs': FileSystem, t: Trace, from: Path, i: Import)
    requires t.processed <= fs.Keys && Unchanged(fs, fs', Process(c, fs, t, from, i))
    ensures Process(c, fs', t, from, i) == Process(c, fs, t, from, i)
    ensures Process(c, fs, t, from, i).processed <= fs.Keys
    decreases Unmet(fs, t.processed), 1
  {
    var l, r := Resolve(c, fs, i, from), Process(c, fs, t, from, i);
    var t' := t.(missed := t.missed + l.misses);
    if l.hit.Some? && l.hit.value !in t.processed {
      assert Extends(t', r) && l.hit.value in r.processed;
    }
    SameLookup(fs, fs', c.candidates(i, from));
    if l.hit.Some? && l.hit.value !in t.processed {
      LoadAgain(c, fs, fs', t', l.hit.value);
    }
  }

  /** Import traces are sufficient: in any later file system that has the same content for every file met and
      none of the paths missed, resolving again gives the same closure, misses and verdict. */
  lemma TraceIsSufficient(c: Context, fs: FileSystem, fs': FileSystem, src: Path)
    requires src in fs && Unchanged(fs, fs', ResolveAll(c, fs, src))
    ensures src in fs' && ResolveAll(c, fs', src) == ResolveAll(c, fs, src)
  {
    LoadAgain(c, fs, fs', START, src);
  }

  // ---- the closure --------------------------------------------------------

  /** `g` is what an import of `f` resolves to. */
  predicate Imports(c: Context, fs: FileSystem, f: Path, g: Path) {
    f in fs && c.parse(fs[f]).Some? && exists i :: i in c.parse(fs[f]).value && Resolve(c, fs, i, f).hit == Some(g)
  }

  predicate IsChain(c: Context, fs: FileSystem, chain: seq<Path>) {
    chain != [] && forall k :: 0 <= k < |chain| - 1 ==> Imports(c, fs, chain[k], chain[k + 1])
  }

  ghost predicate Reaches(c: Context, fs: FileSystem, src: Path, g: Path) {
    exists chain :: IsChain(c, fs, chain) && chain[0] == src && chain[|chain| - 1] == g
  }

  lemma ReachesItself(c: Context, fs: FileSystem, src: Path)
    ensures Reaches(c, fs, src, src)
  {
    assert IsChain(c, fs, [src]);
  }

  lemma ReachesOn(c: Context, fs: FileSystem, src: Path, f: Path, g: Path)
    requires Reaches(c, fs, src, f) && Imports(c, fs, f, g)
    ensures Reaches(c, fs, src, g)
  {
    var chain :| IsChain(c, fs, chain) && chain[0] == src && chain[|chain| - 1] == f;
    assert IsChain(c, fs, chain + [g]);
  }

  /** Everything an import of `f` resolves to is in `files`. */
  predicate ImportsWithin(c: Context, fs: FileSystem, f: Path, files: set<Path>) {
    f in fs && c.parse(fs[f]).Some? && forall i :: i in c.parse(fs[f]).value ==>
      Resolve(c, fs, i, f).hit.Some? && Resolve(c, fs, i, f).hit.value in files
  }

  /** The files read are those met, each read once. */
  ghost predicate LoadedOnce(t: Trace) {
    && (forall f :: f in t.loaded <==> f in t.processed)
    && forall i, j :: 0 <= i < j < |t.loaded| ==> t.loaded[i] != t.loaded[j]
  }

  /** What the walk keeps while the files in `open` are still being processed: all met is reachable
      from the source, and all met but the open files has its imports met too. */
  ghost predicate WalkOk(c: Context, fs: FileSystem, src: Path, t: Trace, open: set<Path>) {
    && t.processed <= fs.Keys && (forall f :: f in t.processed ==> Reaches(c, fs, src, f))
    && LoadedOnce(t)
    && (t.ok ==> forall f :: f in t.processed && f !in open ==> ImportsWithin(c, fs, f, t.processed))
  }

  lemma {:induction false} LoadCloses(c: Context, fs: FileSystem, src: Path, t: Trace, open: set<Path>, f: Path)
    requires WalkOk(c, fs, src, t, open) && open <= t.processed && f in fs && f !in t.processed &&
      Reaches(c, fs, src, f)
    ensures WalkOk(c, fs, src, Load(c, fs, t, f), open)
    decreases Unmet(fs, t.processed), 0
  {
    FewerUnmet(fs, t.processed, f);
    var t' := Meet(t, f);
    MetOneMore(c, fs, src, t, open, f);
    if c.parse(fs[f]).Some? {
      var imports := c.parse(fs[f]).value;
      var r := ProcessAll(c, fs, t', f, imports);
      HitsAreImports(c, fs, f, imports);
      ProcessAllCloses(c, fs, src, t', open + {f}, f, imports);
      CloseLoaded(c, fs, src, r, open, f, imports);
    } else {
      CloseFailed(c, fs, src, t', open, f);
    }
  }

  lemma CloseLoaded(c: Context, fs: FileSystem, src: Path, t: Trace, open: set<Path>, f: Path, imports: seq<Import>)
    requires WalkOk(c, fs, src, t, open + {f}) && f in fs && c.parse(fs[f]) == Some(imports)
    requires t.ok ==> forall i :: i in imports ==>
      Resolve(c, fs, i, f).hit.Some? && Resolve(c, fs, i, f).hit.value in t.processed
    ensures WalkOk(c, fs, src, t, open)
  {
    CloseOff(c, fs, src, t, open, f);
  }

  lemma CloseFailed(c: Context, fs: FileSystem, src: Path, t: Trace, open: set<Path>, f: Path)
    requires WalkOk(c, fs, src, t, open + {f})
    ensures WalkOk(c, fs, src, t.(ok := false), open)
  {
  }

  lemma HitsAreImports(c: Context, fs: FileSystem, f: Path, imports: seq<Import>)
    requires f in fs && c.parse(fs[f]) == Some(imports)
    ensures forall i :: i in imports && Resolve(c, fs, i, f).hit.Some? ==>
      Imports(c, fs, f, Resolve(c, fs, i, f).hit.value)
  {
  }

  lemma CloseOff(c: Context, fs: FileSystem, src: Path, t: Trace, open: set<Path>, f: Path)
    requires WalkOk(c, fs, src, t, open + {f}) && (t.ok ==> ImportsWithin(c, fs, f, t.processed))
    ensures WalkOk(c, fs, src, t, open)
  {
  }

  lemma MetOneMore(c: Context, fs: FileSystem, src: Path, t: Trace, open: set<Path>, f: Path)
    requires WalkOk(c, fs, src, t, open) && f in fs && f !in t.processed && Reaches(c, fs, src, f)
    ensures WalkOk(c, fs, src, Meet(t, f), open + {f})
  {
  }

  lemma {:induction false} ProcessAllCloses(c: Context, fs: FileSystem, src: Path, t: Trace, open: set<Path>,
      from: Path, imports: seq<Import>)
    requires WalkOk(c, fs, src, t, open) && open <= t.processed && from in open
    requires forall i :: i in imports && Resolve(c, fs, i, from).hit.Some? ==>
      Imports(c, fs, from, Resolve(c, fs, i, from).hit.value)
    ensures
      var r := ProcessAll(c, fs, t, from, imports);
      && WalkOk(c, fs, src, r, open)
      && (r.ok ==> forall i :: i in imports ==>
        Resolve(c, fs, i, from).hit.Some? && Resolve(c, fs, i, from).hit.value in r.processed)
    decreases Unmet(fs, t.processed), 2, |imports|
  {
    if imports != [] && t.ok {
      var t' := Process(c, fs, t, from, imports[0]);
      NoMoreUnmet(fs, t.processed, t'.processed);
      ProcessCloses(c, fs, src, t, open, from, imports[0]);
      ProcessAllCloses(c, fs, src, t', open, from, imports[1..]);
      assert Extends(t', ProcessAll(c, fs, t', from, imports[1..]));
    }
  }

  lemma {:induction false} ProcessCloses(c: Context, fs: FileSystem, src: Path, t: Trace, open: set<Path>, from: Path,
      i: Import)
    requires WalkOk(c, fs, src, t, open) && open <= t.processed && from in open
    requires Resolve(c, fs, i, from).hit.Some? ==> Imports(c, fs, from, Resolve(c, fs, i, from).hit.value)
    ensures
      var r := Process(c, fs, t, from, i);
      && WalkOk(c, fs, src, r, open)
      && (r.ok ==> Resolve(c, fs, i, from).hit.Some? && Resolve(c, fs, i, from).hit.value in r.processed)
    decreases Unmet(fs, t.processed), 1
  {
    var l := Resolve(c, fs, i, from);
    if l.hit.Some? && l.hit.value !in t.processed {
      var t' := t.(missed := t.missed + l.misses);
      ReachesOn(c, fs, src, from, l.hit.value);
      LoadCloses(c, fs, src, t', open, l.hit.value);
    }
  }

  lemma {:induction false} ChainStaysWithin(c: Context, fs: FileSystem, files: set<Path>, chain: seq<Path>)
    requires IsChain(c, fs, chain) && chain[0] in files && forall f :: f in files ==> ImportsWithin(c, fs, f, files)
    ensures chain[|chain| - 1] in files
    decreases |chain|
  {
    if |chain| > 1 {
      assert Imports(c, fs, chain[0], chain[1]);
      assert forall k :: 0 <= k < |chain[1..]| ==> chain[1..][k] == chain[k + 1];
      ChainStaysWithin(c, fs, files, chain[1..]);
    }
  }

  /** When resolution succeeds, cyclic imports or not, it has met exactly the files reachable from the source,
      and read each of them once. */
  lemma ClosureIsReachability(c: Context, fs: FileSystem, src: Path)
    requires src in fs && ResolveAll(c, fs, src).ok
    ensures
      var t := ResolveAll(c, fs, src);
      && (forall g :: g in t.processed <==> Reaches(c, fs, src, g))
      && (forall g :: g in t.processed ==> ImportsWithin(c, fs, g, t.processed))
      && LoadedOnce(t)
  {
    var t := ResolveAll(c, fs, src);
    ReachesItself(c, fs, src);
    LoadCloses(c, fs, src, START, {}, src);
    forall g | Reaches(c, fs, src, g) ensures g in t.processed {
      var chain :| IsChain(c, fs, chain) && chain[0] == src && chain[|chain| - 1] == g;
      ChainStaysWithin(c, fs, t.processed, chain);
    }
  }

  /** The converse: if all imports of a set of files holding the source resolve within it, resolution succeeds,
      and stays in it. */
  lemma ResolvesWithin(c: Context, fs: FileSystem, src: Path, files: set<Path>)
    requires src in files && forall f :: f in files ==> ImportsWithin(c, fs, f, files)
    ensures src in fs && ResolveAll(c, fs, src).ok && ResolveAll(c, fs, src).processed <= files
  {
    LoadStaysWithin(c, fs, START, src, files);
  }

  lemma {:induction false} LoadStaysWithin(c: Context, fs: FileSystem, t: Trace, f: Path, files: set<Path>)
    requires f in files && f !in t.processed && t.processed <= files && t.ok
    requires forall g :: g in files ==> ImportsWithin(c, fs, g, files)
    ensures f in fs
    ensures Load(c, fs, t, f).ok && Load(c, fs, t, f).processed <= files
    decreases Unmet(fs, t.processed), 0
  {
    assert ImportsWithin(c, fs, f, files);
    FewerUnmet(fs, t.processed, f);
    ProcessAllStaysWithin(c, fs, Meet(t, f), f, c.parse(fs[f]).value, files);
  }

  lemma {:induction false} ProcessAllStaysWithin(c: Context, fs: FileSystem, t: Trace, from: Path, imports: seq<Import>,
      files: set<Path>)
    requires t.processed <= files && t.ok
    requires forall g :: g in files ==> ImportsWithin(c, fs, g, files)
    requires forall i :: i in imports ==>
      Resolve(c, fs, i, from).hit.Some? && Resolve(c, fs, i, from).hit.value in files
    ensures ProcessAll(c, fs, t, from, imports).ok && ProcessAll(c, fs, t, from, imports).processed <= files
    decreases Unmet(fs, t.processed), 2, |imports|
  {
    if imports != [] {
      var l := Resolve(c, fs, imports[0], from);
      var t' := Process(c, fs, t, from, imports[0]);
      NoMoreUnmet(fs, t.processed, t'.processed);
      if l.hit.value !in t.processed {
        LoadStaysWithin(c, fs, t.(missed := t.missed + l.misses), l.hit.value, files);
      }
      ProcessAllStaysWithin(c, fs, t', from, imports[1..], files);
    }
  }
}
