/** The monomorphizer: it collects the instances the code calls, specialises them round by
    round until no new one turns up, and rewrites the calls. */
module Monomorphization {
  import opened Basics
  import opened Mangling
  import opened GenericPrograms

  /** How the table of instances names one: the generic and its arguments' mangled names. */
  datatype Key = Key(f: Name, args: seq<string>)

  function Mangled(ts: seq<Type>): (r: seq<string>)
    ensures |r| == |ts| && forall k :: 0 <= k < |ts| ==> r[k] == MangleType(ts[k])
  {
    if ts == [] then [] else [MangleType(ts[0])] + Mangled(ts[1..])
  }

  function KeyOf(i: Instance): Key {
    Key(i.f, Mangled(i.targs))
  }

  function KeyName(k: Key): Name
    requires k.args != []
  {
    k.f + "$" + Join(k.args)
  }

  lemma {:induction false} MangleTypesIsJoin(ts: seq<Type>)
    requires ts != []
    ensures MangleTypes(ts) == Join(Mangled(ts))
  {
    if |ts| > 1 {
      MangleTypesIsJoin(ts[1..]);
      assert Mangled(ts)[1..] == Mangled(ts[1..]);
    }
  }

  lemma KeyNamesTheInstance(i: Instance)
    requires i.targs != []
    ensures KeyOf(i).args != [] && KeyName(KeyOf(i)) == InstanceName(i)
  {
    MangleTypesIsJoin(i.targs);
  }

  // ---- the table ----------------------------------------------------------

  /** The instances found, in the order they were, and the type behind each mangled name met. */
  datatype Table = Table(order: seq<Key>, types: map<string, Type>)

  /** The first type with a mangled name is the one remembered. */
  function Remember(types: map<string, Type>, ts: seq<Type>): map<string, Type>
    decreases |ts|
  {
    if ts == [] then types
    else
      var key := MangleType(ts[0]);
      Remember(if key in types then types else types[key := ts[0]], ts[1..])
  }

  function Add(t: Table, i: Instance): Table {
    var types := Remember(t.types, i.targs);
    Table(if KeyOf(i) in t.order then t.order else t.order + [KeyOf(i)], types)
  }

  function AddAll(t: Table, found: seq<Instance>): Table
    decreases |found|
  {
    if found == [] then t else AddAll(Add(t, found[0]), found[1..])
  }

  lemma {:induction false} AddAllAppend(t: Table, a: seq<Instance>, b: seq<Instance>)
    ensures AddAll(t, a + b) == AddAll(AddAll(t, a), b)
    decreases |a|
  {
    if a == [] {
      assert a + b == b;
    } else {
      assert (a + b)[0] == a[0] && (a + b)[1..] == a[1..] + b;
      AddAllAppend(Add(t, a[0]), a[1..], b);
    }
  }

  /** The types behind a key. */
  function TypesAt(types: map<string, Type>, args: seq<string>): (r: seq<Type>)
    requires forall a :: a in args ==> a in types
    ensures |r| == |args| && forall k :: 0 <= k < |args| ==> r[k] == types[args[k]]
  {
    if args == [] then [] else [types[args[0]]] + TypesAt(types, args[1..])
  }

  predicate KnownKey(t: Table, k: Key) {
    k.args != [] && forall a :: a in k.args ==> a in t.types
  }

  function InstanceAt(t: Table, k: Key): Instance
    requires KnownKey(t, k)
  {
    Instance(k.f, TypesAt(t.types, k.args))
  }

  // ---- what is met --------------------------------------------------------

  /** Each instance is called by the one before it, the first by a function that is not generic. */
  ghost predicate IsCallChain(p: Program, chain: seq<Instance>) {
    && chain != [] && (forall i :: i in chain ==> i.f in p.generics)
    && (exists f :: f in p.plain && chain[0] in PlainCalls(p, f))
    && forall k :: 0 <= k < |chain| - 1 ==> Follows(p, chain[k], chain[k + 1])
  }

  predicate Follows(p: Program, i: Instance, called: Instance) {
    i.f in p.generics && called in Calls(p.generics, p.generics[i.f].body, SubstOf(p, i))
  }

  /** The program needs the instance. */
  ghost predicate Met(p: Program, i: Instance) {
    exists chain :: IsCallChain(p, chain) && chain[|chain| - 1] == i
  }

  /** The program needs the instance, and by calls of at most so many instances. */
  ghost predicate Within(p: Program, i: Instance, n: nat) {
    exists chain :: IsCallChain(p, chain) && chain[|chain| - 1] == i && |chain| <= n
  }

  ghost predicate MetType(p: Program, ty: Type) {
    exists i :: Met(p, i) && ty in i.targs
  }

  /** Names tell apart the types and the instances the program needs. */
  ghost predicate NoClash(p: Program) {
    && (forall t, u :: MetType(p, t) && MetType(p, u) && MangleType(t) == MangleType(u) ==> t == u)
    && (forall i, j :: Met(p, i) && Met(p, j) && InstanceName(i) == InstanceName(j) ==> i == j)
  }

  /** The instances a function that is not generic calls. */
  function PlainCalls(p: Program, f: Name): seq<Instance>
    requires f in p.plain
  {
    Calls(p.generics, p.plain[f].body, map[])
  }

  lemma CalledByPlainIsMet(p: Program, f: Name, i: Instance)
    requires f in p.plain && i in PlainCalls(p, f)
    ensures Met(p, i) && Within(p, i, 1) && i.f in p.generics && i.targs != []
  {
    CallsAreGeneric(p.generics, p.plain[f].body, map[]);
    assert IsCallChain(p, [i]);
  }

  lemma CalledByMetIsMet(p: Program, i: Instance, called: Instance)
    requires Met(p, i) && Follows(p, i, called)
    ensures Met(p, called)
  {
    var chain :| IsCallChain(p, chain) && chain[|chain| - 1] == i;
    ChainGoesOn(p, chain, called);
  }

  lemma CalledIsWithin(p: Program, i: Instance, called: Instance, n: nat)
    requires Within(p, i, n) && Follows(p, i, called)
    ensures Within(p, called, n + 1)
  {
    var chain :| IsCallChain(p, chain) && chain[|chain| - 1] == i && |chain| <= n;
    ChainGoesOn(p, chain, called);
    assert |chain + [called]| <= n + 1;
  }

  lemma ChainGoesOn(p: Program, chain: seq<Instance>, called: Instance)
    requires IsCallChain(p, chain) && Follows(p, chain[|chain| - 1], called)
    ensures IsCallChain(p, chain + [called])
  {
    CallsAreGeneric(p.generics, p.generics[chain[|chain| - 1].f].body, SubstOf(p, chain[|chain| - 1]));
    var longer := chain + [called];
    forall k | 0 <= k < |longer| - 1 ensures Follows(p, longer[k], longer[k + 1]) {
      assert k < |chain| - 1 ==> Follows(p, chain[k], chain[k + 1]);
    }
  }

  /** An instance needed is called by a plain function or by one needed at one call less. */
  lemma CalledBySomething(p: Program, i: Instance, n: nat)
    requires Within(p, i, n)
    ensures n > 0 && Met(p, i)
    ensures (exists f :: f in p.plain && i in PlainCalls(p, f)) || exists c :: Within(p, c, n - 1) && Follows(p, c, i)
  {
    var chain :| IsCallChain(p, chain) && chain[|chain| - 1] == i && |chain| <= n;
    if |chain| > 1 {
      var shorter, c := chain[..|chain| - 1], chain[|chain| - 2];
      forall k | 0 <= k < |shorter| - 1 ensures Follows(p, shorter[k], shorter[k + 1]) {
        assert Follows(p, chain[k], chain[k + 1]);
      }
      assert IsCallChain(p, shorter) && shorter[|shorter| - 1] == c && |shorter| <= n - 1;
      assert Follows(p, chain[|chain| - 2], chain[|chain| - 2 + 1]);
      assert Within(p, c, n - 1);
    }
  }

  lemma {:induction false} CallsAreGeneric(generics: map<Name, Fn>, e: Expr, s: Subst)
    ensures forall i :: i in Calls(generics, e, s) ==> i.f in generics && i.targs != []
    decreases e, 1
  {
    match e
    case Bin(_, l, r) =>
      CallsAreGeneric(generics, l, s);
      CallsAreGeneric(generics, r, s);
    case If(c, t, f) =>
      CallsAreGeneric(generics, c, s);
      CallsAreGeneric(generics, t, s);
      CallsAreGeneric(generics, f, s);
    case Let(_, _, value, body) =>
      CallsAreGeneric(generics, value, s);
      CallsAreGeneric(generics, body, s);
    case Cast(e', _) => CallsAreGeneric(generics, e', s);
    case Call(_, _, args) => AllCallsAreGeneric(generics, args, s);
    case _ =>
  }

  lemma {:induction false} AllCallsAreGeneric(generics: map<Name, Fn>, es: seq<Expr>, s: Subst)
    ensures forall i :: i in CallsAll(generics, es, s) ==> i.f in generics && i.targs != []
    decreases es, 0
  {
    if es != [] {
      CallsAreGeneric(generics, es[0], s);
      AllCallsAreGeneric(generics, es[1..], s);
    }
  }

  // ---- recording ----------------------------------------------------------

  /** Every key is new, known and names a generic, and every remembered type has its name; without clashes all of them
      are met. */
  ghost predicate TableOk(p: Program, t: Table) {
    && (forall i, j :: 0 <= i < j < |t.order| ==> t.order[i] != t.order[j])
    && (forall k :: k in t.order ==> KnownKey(t, k) && k.f in p.generics)
    && TypesOk(t.types) && (NoClash(p) ==> AllMet(p, t))
  }

  predicate TypesOk(types: map<string, Type>) {
    forall a :: a in types ==> MangleType(types[a]) == a
  }

  ghost predicate TypesMet(p: Program, types: map<string, Type>) {
    forall a :: a in types ==> MetType(p, types[a])
  }

  ghost predicate AllMet(p: Program, t: Table)
    requires forall k :: k in t.order ==> KnownKey(t, k)
  {
    TypesMet(p, t.types) && forall k :: k in t.order ==> Met(p, InstanceAt(t, k))
  }

  /** A later table: the keys so far come first and mean the same. */
  ghost predicate Grows(t: Table, t': Table) {
    t.order <= t'.order && Remembers(t.types, t'.types)
  }

  predicate Remembers(types: map<string, Type>, types': map<string, Type>) {
    forall a :: a in types ==> a in types' && types'[a] == types[a]
  }

  lemma {:induction false} RememberIsRight(types: map<string, Type>, ts: seq<Type>)
    requires TypesOk(types)
    ensures TypesOk(Remember(types, ts)) && Remembers(types, Remember(types, ts))
    ensures forall t :: t in ts ==> MangleType(t) in Remember(types, ts)
    decreases |ts|
  {
    if ts != [] {
      var key := MangleType(ts[0]);
      RememberIsRight(if key in types then types else types[key := ts[0]], ts[1..]);
    }
  }

  /** Without clashes the type remembered by a name is the one that has it. */
  lemma {:induction false} RememberTells(p: Program, types: map<string, Type>, ts: seq<Type>)
    requires NoClash(p) && TypesOk(types) && TypesMet(p, types) && forall t :: t in ts ==> MetType(p, t)
    ensures TypesMet(p, Remember(types, ts))
    ensures forall t :: t in ts ==> MangleType(t) in Remember(types, ts) && Remember(types, ts)[MangleType(t)] == t
    decreases |ts|
  {
    RememberIsRight(types, ts);
    if ts != [] {
      var key := MangleType(ts[0]);
      assert ts[0] in ts;
      var types' := if key in types then types else types[key := ts[0]];
      RememberTells(p, types', ts[1..]);
      RememberIsRight(types', ts[1..]);
    }
  }

  lemma AddIsRight(p: Program, t: Table, i: Instance)
    requires TableOk(p, t) && i.f in p.generics && i.targs != [] && (NoClash(p) ==> Met(p, i))
    ensures TableOk(p, Add(t, i)) && Grows(t, Add(t, i)) && Recorded(p, Add(t, i), i)
  {
    RememberIsRight(t.types, i.targs);
    var t', k := Add(t, i), KeyOf(i);
    forall a | a in k.args ensures a in t'.types {
      var j :| 0 <= j < |k.args| && k.args[j] == a;
      assert i.targs[j] in i.targs;
    }
    if NoClash(p) {
      AddTells(p, t, i);
    }
  }

  lemma AddTells(p: Program, t: Table, i: Instance)
    requires NoClash(p) && TypesOk(t.types) && (forall k :: k in t.order ==> KnownKey(t, k)) && AllMet(p, t)
    requires Met(p, i) && i.targs != [] && KnownKey(Add(t, i), KeyOf(i))
    ensures forall k :: k in Add(t, i).order ==> KnownKey(Add(t, i), k)
    ensures AllMet(p, Add(t, i)) && InstanceAt(Add(t, i), KeyOf(i)) == i
  {
    RememberIsRight(t.types, i.targs);
    RememberTells(p, t.types, i.targs);
    var t', k := Add(t, i), KeyOf(i);
    assert TypesAt(t'.types, k.args) == i.targs by {
      forall j | 0 <= j < |i.targs| ensures t'.types[k.args[j]] == i.targs[j] {
        assert i.targs[j] in i.targs;
      }
    }
    forall l | l in t'.order ensures KnownKey(t', l) && Met(p, InstanceAt(t', l)) {
      if l in t.order {
        GrownMeansTheSame(t, t', l);
      }
    }
  }

  lemma {:induction false} AddAllIsRight(p: Program, t: Table, found: seq<Instance>)
    requires TableOk(p, t)
    requires forall i :: i in found ==> i.f in p.generics && i.targs != [] && (NoClash(p) ==> Met(p, i))
    ensures TableOk(p, AddAll(t, found)) && Grows(t, AddAll(t, found)) && Found(p, AddAll(t, found), found)
    decreases |found|
  {
    if found != [] {
      var t' := Add(t, found[0]);
      AddIsRight(p, t, found[0]);
      AddAllIsRight(p, t', found[1..]);
      RecordedStays(p, t', AddAll(t, found), found[0]);
    }
  }

  lemma {:induction false} AddAllStaysWithin(p: Program, t: Table, found: seq<Instance>, n: nat)
    requires TableOk(p, t) && NoClash(p) && KeysWithin(p, t, t.order, n)
    requires forall i :: i in found ==> i.f in p.generics && i.targs != [] && Met(p, i) && Within(p, i, n)
    ensures KeysWithin(p, AddAll(t, found), AddAll(t, found).order, n)
    decreases |found|
  {
    if found != [] {
      AddIsRight(p, t, found[0]);
      AddStaysWithin(p, t, found[0], n);
      AddAllStaysWithin(p, Add(t, found[0]), found[1..], n);
    }
  }

  lemma AddStaysWithin(p: Program, t: Table, i: Instance, n: nat)
    requires KeysWithin(p, t, t.order, n) && Grows(t, Add(t, i)) && Recorded(p, Add(t, i), i)
    requires NoClash(p) && Within(p, i, n)
    ensures KeysWithin(p, Add(t, i), Add(t, i).order, n)
  {
    forall k | k in Add(t, i).order ensures KnownKey(Add(t, i), k) && Within(p, InstanceAt(Add(t, i), k), n) {
      if k in t.order {
        GrownMeansTheSame(t, Add(t, i), k);
      }
    }
  }

  lemma GrowsOn(t: Table, t': Table, t'': Table)
    requires Grows(t, t') && Grows(t', t'')
    ensures Grows(t, t'')
  {
  }

  lemma GrownMeansTheSame(t: Table, t': Table, k: Key)
    requires Grows(t, t') && KnownKey(t, k)
    ensures KnownKey(t', k) && InstanceAt(t', k) == InstanceAt(t, k)
  {
    assert TypesAt(t'.types, k.args) == TypesAt(t.types, k.args);
  }

  // ---- rewriting the code that is not generic -----------------------------

  function Rewrite(generics: map<Name, Fn>, order: seq<Key>, e: Expr): Expr
    decreases e, 1
  {
    match e
    case Num(_) => e
    case Var(_) => e
    case Bin(op, l, r) => Bin(op, Rewrite(generics, order, l), Rewrite(generics, order, r))
    case If(c, t, f) => If(Rewrite(generics, order, c), Rewrite(generics, order, t), Rewrite(generics, order, f))
    case Let(x, ty, value, body) => Let(x, ty, Rewrite(generics, order, value), Rewrite(generics, order, body))
    case Cast(e, ty) => Cast(Rewrite(generics, order, e), ty)
    case SizeOfName(_) => e
    case SizeOfType(_) => e
    case Call(f, targs, args) =>
      var args' := RewriteAll(generics, order, args);
      if targs != [] && f in generics then
        var key := Key(f, Mangled(targs));
        // A call whose instance was never found keeps its name.
        Call(if key in order then KeyName(key) else f, [], args')
      else Call(f, targs, args')
  }

  function RewriteAll(generics: map<Name, Fn>, order: seq<Key>, es: seq<Expr>): (r: seq<Expr>)
    ensures |r| == |es|
    decreases es, 0
  {
    if es == [] then [] else [Rewrite(generics, order, es[0])] + RewriteAll(generics, order, es[1..])
  }

  function RewriteFn(generics: map<Name, Fn>, order: seq<Key>, fn: Fn): Fn {
    Fn([], fn.params, fn.ret, Rewrite(generics, order, fn.body))
  }

  /** When every instance an expression calls was found, rewriting it is specialising it at no types. */
  lemma {:induction false} RewriteIsSpecialize(generics: map<Name, Fn>, order: seq<Key>, e: Expr)
    requires forall i :: i in Calls(generics, e, map[]) ==> KeyOf(i) in order
    ensures Rewrite(generics, order, e) == Specialize(generics, e, map[])
    decreases e, 1
  {
    match e
    case Num(_) =>
    case Var(_) =>
    case Bin(_, l, r) =>
      RewriteIsSpecialize(generics, order, l);
      RewriteIsSpecialize(generics, order, r);
    case If(c, t, f) =>
      RewriteIsSpecialize(generics, order, c);
      RewriteIsSpecialize(generics, order, t);
      RewriteIsSpecialize(generics, order, f);
    case Let(_, ty, value, body) =>
      if ty.Some? { ApplyNothing(ty.value); }
      RewriteIsSpecialize(generics, order, value);
      RewriteIsSpecialize(generics, order, body);
    case Cast(e', ty) =>
      ApplyNothing(ty);
      RewriteIsSpecialize(generics, order, e');
    case SizeOfName(_) =>
    case SizeOfType(ty) => ApplyNothing(ty);
    case Call(f, targs, args) =>
      var i := Instance(f, ApplyAll(map[], targs));
      assert forall c :: c in CallsAll(generics, args, map[]) ==> c in Calls(generics, e, map[]);
      RewriteAllIsSpecialize(generics, order, args);
      ApplyAllNothing(targs);
      if targs != [] && f in generics {
        assert i in Calls(generics, e, map[]);
        KeyNamesTheInstance(i);
      }
  }

  lemma {:induction false} RewriteAllIsSpecialize(generics: map<Name, Fn>, order: seq<Key>, es: seq<Expr>)
    requires forall i :: i in CallsAll(generics, es, map[]) ==> KeyOf(i) in order
    ensures RewriteAll(generics, order, es) == SpecializeAll(generics, es, map[])
    decreases es, 0
  {
    if es != [] {
      RewriteIsSpecialize(generics, order, es[0]);
      RewriteAllIsSpecialize(generics, order, es[1..]);
    }
  }

  lemma {:induction false} ParamsUnchanged(params: seq<Param>)
    ensures SpecializeParams(params, map[]) == params
  {
    if params != [] {
      ApplyNothing(params[0].ty);
      ParamsUnchanged(params[1..]);
      assert params == [params[0]] + params[1..];
    }
  }

  lemma RewriteFnIsSpecializeFn(generics: map<Name, Fn>, order: seq<Key>, fn: Fn)
    requires forall i :: i in Calls(generics, fn.body, map[]) ==> KeyOf(i) in order
    ensures RewriteFn(generics, order, fn) == SpecializeFn(generics, fn, map[])
  {
    RewriteIsSpecialize(generics, order, fn.body);
    ParamsUnchanged(fn.params);
    ApplyNothing(fn.ret);
  }

  // ---- the rounds ---------------------------------------------------------

  const MAX_ROUNDS: nat := 100

  /** The keys not processed yet, in order. */
  function Pending(order: seq<Key>, processed: set<Key>): seq<Key> {
    if order == [] then []
    else (if order[0] in processed then [] else [order[0]]) + Pending(order[1..], processed)
  }

  lemma {:induction false} PendingIsTheRest(order: seq<Key>, n: nat, processed: set<Key>)
    requires n <= |order| && forall i, j :: 0 <= i < j < |order| ==> order[i] != order[j]
    requires forall k :: 0 <= k < |order| ==> (order[k] in processed <==> k < n)
    ensures Pending(order, processed) == order[n..]
    decreases |order|
  {
    if order != [] {
      PendingIsTheRest(order[1..], if n == 0 then 0 else n - 1, processed);
      if n == 0 {
        assert order == [order[0]] + order[1..];
      } else {
        assert order[n..] == order[1..][n - 1..];
      }
    }
  }

  /** The item made for a key is the instance's function under its own name, and
      every instance that calls is in the table. */
  ghost predicate Made(p: Program, t: Table, k: Key, item: (Name, Fn)) {
    && KnownKey(t, k) && k.f in p.generics
    && item == (KeyName(k), InstanceFn(p, InstanceAt(t, k)))
    && Found(p, t, Calls(p.generics, p.generics[k.f].body, SubstOf(p, InstanceAt(t, k))))
  }

  /** The instance's key is in the table, and without clashes it stands for it. */
  ghost predicate Recorded(p: Program, t: Table, i: Instance) {
    && KeyOf(i) in t.order && KnownKey(t, KeyOf(i))
    && (NoClash(p) ==> InstanceAt(t, KeyOf(i)) == i)
  }

  ghost predicate Found(p: Program, t: Table, found: seq<Instance>) {
    forall i :: i in found ==> Recorded(p, t, i)
  }

  lemma RecordedStays(p: Program, t: Table, t': Table, i: Instance)
    requires Recorded(p, t, i) && Grows(t, t')
    ensures Recorded(p, t', i)
  {
    GrownMeansTheSame(t, t', KeyOf(i));
  }

  lemma FoundStays(p: Program, t: Table, t': Table, found: seq<Instance>)
    requires Found(p, t, found) && Grows(t, t')
    ensures Found(p, t', found)
  {
    forall i | i in found ensures Recorded(p, t', i) {
      RecordedStays(p, t, t', i);
    }
  }

  /** What the functions call is in the table. */
  ghost predicate AllFound(p: Program, t: Table, fs: seq<Name>) {
    forall f :: f in fs ==> f in p.plain && Found(p, t, PlainCalls(p, f))
  }

  lemma AllFoundStays(p: Program, t: Table, t': Table, fs: seq<Name>)
    requires AllFound(p, t, fs) && Grows(t, t')
    ensures AllFound(p, t', fs)
  {
    forall f | f in fs ensures f in p.plain && Found(p, t', PlainCalls(p, f)) {
      FoundStays(p, t, t', PlainCalls(p, f));
    }
  }

  lemma MadeStays(p: Program, t: Table, t': Table, k: Key, item: (Name, Fn))
    requires Made(p, t, k, item) && Grows(t, t')
    ensures Made(p, t', k, item)
  {
    GrownMeansTheSame(t, t', k);
    FoundStays(p, t, t', Calls(p.generics, p.generics[k.f].body, SubstOf(p, InstanceAt(t, k))));
  }

  // ---- how far the rounds get ---------------------------------------------

  /** The instances behind the keys are needed by calls of at most n. */
  ghost predicate KeysWithin(p: Program, t: Table, keys: seq<Key>, n: nat) {
    forall k :: k in keys ==> KnownKey(t, k) && Within(p, InstanceAt(t, k), n)
  }

  /** The keys are of all the instances needed by calls of at most n. */
  ghost predicate AllReached(p: Program, keys: seq<Key>, n: nat) {
    forall i :: Within(p, i, n) ==> KeyOf(i) in keys
  }

  /** After r rounds what is specialised are the instances needed by calls of at most r, and what is found those by at
      most r + 1. */
  ghost predicate AtRound(p: Program, t: Table, done: nat, r: nat) {
    && done <= |t.order|
    && KeysWithin(p, t, t.order[..done], r) && AllReached(p, t.order[..done], r)
    && KeysWithin(p, t, t.order, r + 1) && AllReached(p, t.order, r + 1)
  }

  /** Each key specialised has what its instance calls in the table. */
  ghost predicate CallsFound(p: Program, t: Table, k: Key) {
    && KnownKey(t, k) && k.f in p.generics
    && Found(p, t, Calls(p.generics, p.generics[k.f].body, SubstOf(p, InstanceAt(t, k))))
  }

  lemma BeforeTheFirstRound(p: Program, t: Table)
    requires KeysWithin(p, t, t.order, 1) && forall f :: f in p.plain ==> Found(p, t, PlainCalls(p, f))
    ensures AtRound(p, t, 0, 0)
  {
    forall i | Within(p, i, 1) ensures KeyOf(i) in t.order {
      CalledBySomething(p, i, 1);
      if c :| Within(p, c, 0) && Follows(p, c, i) {
        CalledBySomething(p, c, 0);
      } else {
        assert Recorded(p, t, i);
      }
    }
    forall i | Within(p, i, 0) ensures false {
      CalledBySomething(p, i, 0);
    }
  }

  lemma OneMoreRound(p: Program, t: Table, t': Table, done: nat, r: nat)
    requires TableOk(p, t) && TableOk(p, t') && NoClash(p) && Grows(t, t')
    requires AtRound(p, t, done, r) && KeysWithin(p, t', t'.order, r + 2)
    requires forall f :: f in p.plain ==> Found(p, t', PlainCalls(p, f))
    requires forall k :: k in t.order ==> CallsFound(p, t', k)
    ensures AtRound(p, t', |t.order|, r + 1)
  {
    assert t'.order[..|t.order|] == t.order;
    KeysStayWithin(p, t, t', r + 1);
    forall i | Within(p, i, r + 2) ensures KeyOf(i) in t'.order {
      NextIsFound(p, t', t.order, r + 1, i);
    }
  }

  lemma KeysStayWithin(p: Program, t: Table, t': Table, n: nat)
    requires Grows(t, t') && KeysWithin(p, t, t.order, n)
    ensures KeysWithin(p, t', t.order, n)
  {
    forall k | k in t.order ensures KnownKey(t', k) && Within(p, InstanceAt(t', k), n) {
      GrownMeansTheSame(t, t', k);
    }
  }

  lemma RoundGoesOn(p: Program, t: Table, t': Table, items: seq<(Name, Fn)>, done: nat, r: nat)
    requires TableOk(p, t) && TableOk(p, t') && NoClash(p) && Grows(t, t')
    requires AtRound(p, t, done, r) && KeysWithin(p, t', t'.order, r + 2)
    requires forall f :: f in p.plain ==> Found(p, t', PlainCalls(p, f))
    requires |items| == |t.order| && forall k :: 0 <= k < |items| ==> Made(p, t', t'.order[k], items[k])
    ensures AtRound(p, t', |items|, r + 1)
  {
    MadeCallsAreFound(p, t', t.order, items);
    OneMoreRound(p, t, t', done, r);
  }

  lemma MadeCallsAreFound(p: Program, t: Table, keys: seq<Key>, items: seq<(Name, Fn)>)
    requires |items| == |keys| && forall j :: 0 <= j < |items| ==> Made(p, t, keys[j], items[j])
    ensures forall k :: k in keys ==> CallsFound(p, t, k)
  {
    forall k | k in keys ensures CallsFound(p, t, k) {
      var j :| 0 <= j < |keys| && keys[j] == k;
      assert Made(p, t, keys[j], items[j]);
    }
  }

  lemma PlainFoundStays(p: Program, t: Table, t': Table)
    requires Grows(t, t') && forall f :: f in p.plain ==> Found(p, t, PlainCalls(p, f))
    ensures forall f :: f in p.plain ==> Found(p, t', PlainCalls(p, f))
  {
    forall f | f in p.plain ensures Found(p, t', PlainCalls(p, f)) {
      FoundStays(p, t, t', PlainCalls(p, f));
    }
  }

  lemma NextIsFound(p: Program, t: Table, done: seq<Key>, n: nat, i: Instance)
    requires TableOk(p, t) && NoClash(p) && Within(p, i, n + 1)
    requires forall f :: f in p.plain ==> Found(p, t, PlainCalls(p, f))
    requires forall k :: k in done ==> k in t.order && CallsFound(p, t, k)
    requires AllReached(p, done, n)
    ensures KeyOf(i) in t.order
  {
    CalledBySomething(p, i, n + 1);
    if f :| f in p.plain && i in PlainCalls(p, f) {
      assert Recorded(p, t, i);
    } else {
      var c :| Within(p, c, n) && Follows(p, c, i);
      CalledIsFound(p, t, c, i, n);
    }
  }

  lemma CalledIsFound(p: Program, t: Table, c: Instance, i: Instance, n: nat)
    requires TableOk(p, t) && NoClash(p) && Within(p, c, n) && Follows(p, c, i)
    requires KeyOf(c) in t.order && CallsFound(p, t, KeyOf(c))
    ensures KeyOf(i) in t.order
  {
    CalledBySomething(p, c, n);
    StandsForItself(p, t, c);
    assert Recorded(p, t, i);
  }

  /** What a key's instance calls. */
  function CallsOfKey(p: Program, t: Table, k: Key): seq<Instance>
    requires KnownKey(t, k) && k.f in p.generics
  {
    Calls(p.generics, p.generics[k.f].body, SubstOf(p, InstanceAt(t, k)))
  }

  /** Specialising one key finds only instances needed by one call more. */
  lemma KeyStaysWithin(p: Program, t: Table, k: Key, n: nat)
    requires TableOk(p, t) && NoClash(p) && KeysWithin(p, t, t.order, n + 1)
    requires k in t.order && Within(p, InstanceAt(t, k), n)
    ensures KeysWithin(p, AddAll(t, CallsOfKey(p, t, k)), AddAll(t, CallsOfKey(p, t, k)).order, n + 1)
  {
    var i, found := InstanceAt(t, k), CallsOfKey(p, t, k);
    CallsOfKeyAreMet(p, t, k);
    forall c | c in found ensures Within(p, c, n + 1) {
      CalledIsWithin(p, i, c, n);
    }
    AddAllStaysWithin(p, t, found, n + 1);
  }

  /** A table as it grows through a round, from the one at its start. */
  ghost predicate InRound(p: Program, start: Table, t: Table, n: nat) {
    && Grows(start, t)
    && (NoClash(p) ==> KeysWithin(p, start, start.order, n) && KeysWithin(p, t, t.order, n + 1))
  }

  lemma RoundStarts(p: Program, t: Table, n: nat)
    requires NoClash(p) ==> KeysWithin(p, t, t.order, n)
    ensures InRound(p, t, t, n)
  {
    if NoClash(p) {
      KeysWithinMore(p, t, t.order, n);
    }
  }

  lemma StaysInRound(p: Program, start: Table, t: Table, t': Table, k: Key, n: nat)
    requires TableOk(p, t) && InRound(p, start, t, n) && Grows(t, t') && k in start.order && k in t.order
    requires t' == AddAll(t, CallsOfKey(p, t, k))
    ensures InRound(p, start, t', n)
  {
    GrowsOn(start, t, t');
    if NoClash(p) {
      KeysStayWithin(p, start, t, n);
      KeyStaysWithin(p, t, k, n);
    }
  }

  lemma KeysWithinMore(p: Program, t: Table, keys: seq<Key>, n: nat)
    requires KeysWithin(p, t, keys, n)
    ensures KeysWithin(p, t, keys, n + 1)
  {
    forall k | k in keys ensures KnownKey(t, k) && Within(p, InstanceAt(t, k), n + 1) {
      WithinMore(p, InstanceAt(t, k), n, n + 1);
    }
  }

  lemma WithinMore(p: Program, i: Instance, n: nat, m: nat)
    requires Within(p, i, n) && n <= m
    ensures Within(p, i, m)
  {
    var chain :| IsCallChain(p, chain) && chain[|chain| - 1] == i && |chain| <= n;
    assert |chain| <= m;
  }

  /** Without clashes a needed instance's key stands for it. */
  lemma StandsForItself(p: Program, t: Table, i: Instance)
    requires TableOk(p, t) && NoClash(p) && Met(p, i) && KeyOf(i) in t.order
    ensures InstanceAt(t, KeyOf(i)) == i
  {
    var j := InstanceAt(t, KeyOf(i));
    KeyOfInstanceAt(t, KeyOf(i));
    KeyNamesTheInstance(j);
    NeededIsGeneric(p, i);
    KeyNamesTheInstance(i);
  }

  lemma NeededIsGeneric(p: Program, i: Instance)
    requires Met(p, i)
    ensures i.targs != []
  {
    var chain :| IsCallChain(p, chain) && chain[|chain| - 1] == i;
    CalledBySomething(p, i, |chain|);
    if f :| f in p.plain && i in PlainCalls(p, f) {
      CallsAreGeneric(p.generics, p.plain[f].body, map[]);
    } else {
      var c :| Within(p, c, |chain| - 1) && Follows(p, c, i);
      CallsAreGeneric(p.generics, p.generics[c.f].body, SubstOf(p, c));
    }
  }

  /** Every instance needed is needed by calls of at most n. */
  ghost predicate AllNear(p: Program, n: nat) {
    forall i :: Met(p, i) ==> Within(p, i, n)
  }

  /** When nothing is left over every instance needed is that near, and else one is not. */
  lemma SettledIsNear(p: Program, t: Table, items: seq<(Name, Fn)>, r: nat, n: nat)
    requires TableOk(p, t) && NoClash(p) && AllMade(p, t, items) && r <= n
    requires forall f :: f in p.plain ==> Found(p, t, PlainCalls(p, f))
    requires KeysWithin(p, t, t.order[..|t.order|], r)
    ensures AllNear(p, n)
  {
    ClosedWhenMade(p, t, items);
    ListedAreWithin(p, t, r);
    forall i | Met(p, i) ensures Within(p, i, n) {
      WithinMore(p, i, r, n);
    }
  }

  lemma ListedAreWithin(p: Program, t: Table, r: nat)
    requires KeysWithin(p, t, t.order[..|t.order|], r) && Closed(p, InstancesOf(t, t.order))
    ensures forall i :: Met(p, i) ==> Within(p, i, r)
  {
    assert t.order[..|t.order|] == t.order;
    forall i | Met(p, i) ensures Within(p, i, r) {
      MetIsListed(p, InstancesOf(t, t.order), i);
      var j :| 0 <= j < |t.order| && InstancesOf(t, t.order)[j] == i;
      assert t.order[j] in t.order;
    }
  }

  lemma LeftOverIsFar(p: Program, t: Table, done: nat, r: nat)
    requires TypesOk(t.types) && (forall i, j :: 0 <= i < j < |t.order| ==> t.order[i] != t.order[j])
    requires done < |t.order| && AtRound(p, t, done, r)
    ensures !AllNear(p, r)
  {
    var k := t.order[done];
    assert k in t.order && k !in t.order[..done];
    KeyOfInstanceAt(t, k);
    CalledBySomething(p, InstanceAt(t, k), r + 1);
    assert !Within(p, InstanceAt(t, k), r);
  }

  class Monomorphizer {
    const program: Program
    var order: seq<Key>
    var types: map<string, Type>
    var specialized: seq<(Name, Fn)>

    constructor (p: Program)
      ensures program == p && order == [] && types == map[] && specialized == []
    {
      program, order, types, specialized := p, [], map[], [];
    }

    function Current(): Table
      reads this
    {
      Table(order, types)
    }

    /** Records an instance, and the types behind its arguments' names. */
    method Register(f: Name, targs: seq<Type>)
      modifies this`order, this`types
      ensures Current() == Add(old(Current()), Instance(f, targs))
    {
      for k := 0 to |targs|
        invariant order == old(order)
        invariant Remember(types, targs[k..]) == Remember(old(types), targs)
      {
        var name := MangleType(targs[k]);
        assert targs[k..][0] == targs[k] && targs[k..][1..] == targs[k + 1..];
        if name !in types {
          types := types[name := targs[k]];
        }
      }
      var key := Key(f, Mangled(targs));
      if key !in order {
        order := order + [key];
      }
    }

    /** Finds the instances that code which is not generic calls. */
    method Visit(e: Expr)
      modifies this`order, this`types
      ensures Current() == AddAll(old(Current()), Calls(program.generics, e, map[]))
      decreases e, 1
    {
      match e
      case Num(_) =>
      case Var(_) =>
      case Bin(_, l, r) =>
        Visit(l);
        Visit(r);
        AddAllAppend(old(Current()), Calls(program.generics, l, map[]), Calls(program.generics, r, map[]));
      case If(c, t, f) =>
        ghost var cc, ct, cf := Calls(program.generics, c, map[]), Calls(program.generics, t, map[]),
          Calls(program.generics, f, map[]);
        Visit(c);
        Visit(t);
        Visit(f);
        AddAllAppend(old(Current()), cc, ct);
        AddAllAppend(old(Current()), cc + ct, cf);
      case Let(_, _, value, body) =>
        Visit(value);
        Visit(body);
        AddAllAppend(old(Current()), Calls(program.generics, value, map[]), Calls(program.generics, body, map[]));
      case Cast(e', _) =>
        Visit(e');
      case SizeOfName(_) =>
      case SizeOfType(_) =>
      case Call(f, targs, args) =>
        VisitAll(args);
        ApplyAllNothing(targs);
        if targs != [] && f in program.generics {
          ghost var before := Current();
          Register(f, targs);
          AddAllAppend(old(Current()), CallsAll(program.generics, args, map[]), [Instance(f, targs)]);
          assert AddAll(before, [Instance(f, targs)]) == Current();
        } else {
          assert CallsAll(program.generics, args, map[]) + [] == CallsAll(program.generics, args, map[]);
        }
    }

    method VisitAll(es: seq<Expr>)
      modifies this`order, this`types
      ensures Current() == AddAll(old(Current()), CallsAll(program.generics, es, map[]))
      decreases es, 0
    {
      if es != [] {
        Visit(es[0]);
        VisitAll(es[1..]);
        AddAllAppend(old(Current()), Calls(program.generics, es[0], map[]), CallsAll(program.generics, es[1..], map[]));
      }
    }

    /** Makes an expression of a generic body concrete, recording the instances it turns out to call. */
    method SpecializeExpr(e: Expr, s: Subst) returns (r: Expr)
      modifies this`order, this`types
      ensures r == Specialize(program.generics, e, s)
      ensures Current() == AddAll(old(Current()), Calls(program.generics, e, s))
      decreases e, 1
    {
      match e
      case Num(_) => r := e;
      case Var(_) => r := e;
      case Bin(op, l, r1) =>
        var a := SpecializeExpr(l, s);
        var b := SpecializeExpr(r1, s);
        r := Bin(op, a, b);
        AddAllAppend(old(Current()), Calls(program.generics, l, s), Calls(program.generics, r1, s));
      case If(_, _, _) => r := SpecializeIf(e, s);
      case Let(x, ty, value, body) =>
        var v := SpecializeExpr(value, s);
        var b := SpecializeExpr(body, s);
        r := Let(x, if ty.Some? then Some(Apply(s, ty.value)) else None, v, b);
        AddAllAppend(old(Current()), Calls(program.generics, value, s), Calls(program.generics, body, s));
      case Cast(e', ty) =>
        var v := SpecializeExpr(e', s);
        r := Cast(v, Apply(s, ty));
      case SizeOfName(name) =>
        r := if name in s then SizeOfType(Apply(s, Named(name, []))) else e;
      case SizeOfType(ty) =>
        r := SizeOfType(Apply(s, ty));
      case Call(_, _, _) => r := SpecializeCall(e, s);
    }

    method SpecializeIf(e: Expr, s: Subst) returns (r: Expr)
      requires e.If?
      modifies this`order, this`types
      ensures r == Specialize(program.generics, e, s)
      ensures Current() == AddAll(old(Current()), Calls(program.generics, e, s))
      decreases e, 0
    {
      var If(c, t, f) := e;
      ghost var cc, ct, cf := Calls(program.generics, c, s), Calls(program.generics, t, s),
        Calls(program.generics, f, s);
      var c' := SpecializeExpr(c, s);
      var t' := SpecializeExpr(t, s);
      var f' := SpecializeExpr(f, s);
      r := If(c', t', f');
      AddAllAppend(old(Current()), cc, ct);
      AddAllAppend(old(Current()), cc + ct, cf);
    }

    method SpecializeCall(e: Expr, s: Subst) returns (r: Expr)
      requires e.Call?
      modifies this`order, this`types
      ensures r == Specialize(program.generics, e, s)
      ensures Current() == AddAll(old(Current()), Calls(program.generics, e, s))
      decreases e, 0
    {
      var Call(f, targs, args) := e;
      var args' := SpecializeExprs(args, s);
      if targs != [] && f in program.generics {
        var concrete := ApplyAll(s, targs);
        ghost var before, i := Current(), Instance(f, concrete);
        Register(f, concrete);
        KeyNamesTheInstance(i);
        r := Call(KeyName(Key(f, Mangled(concrete))), [], args');
        AddAllAppend(old(Current()), CallsAll(program.generics, args, s), [i]);
        assert AddAll(before, [i]) == Current();
      } else {
        r := Call(f, targs, args');
        assert CallsAll(program.generics, args, s) + [] == CallsAll(program.generics, args, s);
      }
    }

    method SpecializeExprs(es: seq<Expr>, s: Subst) returns (r: seq<Expr>)
      modifies this`order, this`types
      ensures r == SpecializeAll(program.generics, es, s)
      ensures Current() == AddAll(old(Current()), CallsAll(program.generics, es, s))
      decreases es, 0
    {
      r := [];
      if es != [] {
        var first := SpecializeExpr(es[0], s);
        var rest := SpecializeExprs(es[1..], s);
        r := [first] + rest;
        AddAllAppend(old(Current()), Calls(program.generics, es[0], s), CallsAll(program.generics, es[1..], s));
      }
    }

    /** The first `n` keys have been specialised, each once, in order. */
    ghost predicate DoneTo(n: nat)
      reads this
    {
      && n <= |order| && |specialized| == n
      && forall k :: 0 <= k < n ==> Made(program, Current(), order[k], specialized[k])
    }

    /** The processed keys are those specialised. */
    ghost predicate Tracks(processed: set<Key>)
      reads this
    {
      && (forall k :: k in processed ==> k in order)
      && forall k :: 0 <= k < |order| ==> (order[k] in processed <==> k < |specialized|)
    }

    /** What the functions that are not generic call is in the table. */
    ghost predicate PlainFound()
      reads this
    {
      forall f :: f in program.plain ==> Found(program, Current(), PlainCalls(program, f))
    }

    /** Without clashes, so many rounds got just so far. */
    ghost predicate GotTo(round: nat)
      reads this
    {
      NoClash(program) ==> AtRound(program, Current(), |specialized|, round)
    }

    /** What holds between rounds. */
    ghost predicate Running(round: nat, processed: set<Key>)
      reads this
    {
      && TableOk(program, Current()) && PlainFound() && DoneTo(|specialized|)
      && Tracks(processed) && GotTo(round)
    }

    /** Specialises the instances, and those their bodies turn out to call, until a round finds none or the rounds run
        out. Settled: every instance found has been specialised. Without clashes it settles exactly if every instance
        the program needs is needed by a chain of no more calls than there are rounds. */
    method Generate() returns (settled: bool)
      requires TableOk(program, Current()) && specialized == [] && PlainFound()
      requires NoClash(program) ==> KeysWithin(program, Current(), order, 1)
      modifies this
      ensures TableOk(program, Current()) && Grows(old(Current()), Current()) && PlainFound()
      ensures DoneTo(|specialized|) && (settled <==> |specialized| == |order|)
      ensures NoClash(program) ==> (settled <==> AllNear(program, MAX_ROUNDS))
    {
      var processed: set<Key> := {};
      ghost var start := Current();
      if NoClash(program) {
        BeforeTheFirstRound(program, Current());
      }
      for round := 0 to MAX_ROUNDS
        invariant Grows(start, Current()) && Running(round, processed)
      {
        var pending := Pending(order, processed);
        PendingIsTheRest(order, |specialized|, processed);
        if pending == [] {
          SettlesExactly(round, processed);
          return true;
        }
        ghost var t := Current();
        processed := SpecializeRound(pending, processed, round);
        GrowsOn(start, t, Current());
      }
      SettlesExactly(MAX_ROUNDS, processed);
      settled := |specialized| == |order|;
    }

    lemma SettlesExactly(round: nat, processed: set<Key>)
      requires Running(round, processed) && round <= MAX_ROUNDS
      requires round < MAX_ROUNDS ==> |specialized| == |order|
      ensures NoClash(program) ==>
        (|specialized| == |order| <==> AllNear(program, MAX_ROUNDS))
    {
      if NoClash(program) {
        if |specialized| == |order| {
          SettledIsNear(program, Current(), specialized, round, MAX_ROUNDS);
        } else {
          LeftOverIsFar(program, Current(), |specialized|, round);
        }
      }
    }

    method SpecializeRound(pending: seq<Key>, processed: set<Key>, ghost round: nat)
      returns (processed': set<Key>)
      requires Running(round, processed) && pending == order[|specialized|..]
      modifies this
      ensures Grows(old(Current()), Current()) && Running(round + 1, processed')
    {
      ghost var start, t := |specialized|, Current();
      processed' := SpecializeKeys(pending, processed, round + 1);
      assert pending == old(order)[start..];
      RoundTracks(old(order), order, start, processed, processed');
      PlainFoundStays(program, t, Current());
      if NoClash(program) {
        RoundGoesOn(program, t, Current(), specialized, start, round);
      }
    }

    method SpecializeKeys(pending: seq<Key>, processed: set<Key>, ghost depth: nat) returns (processed': set<Key>)
      requires TableOk(program, Current())
      requires DoneTo(|specialized|) && pending == order[|specialized|..]
      requires NoClash(program) ==> KeysWithin(program, Current(), order, depth)
      modifies this
      ensures TableOk(program, Current()) && Grows(old(Current()), Current())
      ensures |specialized| == old(|order|) && DoneTo(|specialized|)
      ensures processed' == processed + Among(pending)
      ensures NoClash(program) ==> KeysWithin(program, Current(), order, depth + 1)
    {
      processed' := processed;
      ghost var start, n := Current(), |specialized|;
      RoundStarts(program, start, depth);
      for j := 0 to |pending|
        invariant Midway(start, n + j, depth)
        invariant processed' == processed + Among(pending[..j])
      {
        assert pending[j] == start.order[n + j];
        SpecializeNext(pending[j], start, n + j, depth);
        AmongFirst(pending, j);
        processed' := processed' + {pending[j]};
      }
      assert pending[..|pending|] == pending;
    }

    /** In a round, when so many keys are done. */
    ghost predicate Midway(start: Table, done: nat, depth: nat)
      reads this
    {
      TableOk(program, Current()) && InRound(program, start, Current(), depth) && DoneTo(done)
    }

    method SpecializeNext(key: Key, ghost start: Table, ghost done: nat, ghost depth: nat)
      requires Midway(start, done, depth) && done < |start.order| && key == start.order[done]
      modifies this
      ensures Midway(start, done + 1, depth)
    {
      ghost var t := Current();
      assert key in start.order;
      SpecializeKey(key);
      StaysInRound(program, start, t, Current(), key, depth);
    }

    /** Visits the functions that are not generic. */
    method VisitItems(items: seq<Name>)
      requires order == [] && types == map[]
      requires (set f | f in items) == program.plain.Keys
      modifies this`order, this`types
      ensures TableOk(program, Current()) && PlainFound()
      ensures NoClash(program) ==> KeysWithin(program, Current(), order, 1)
    {
      for j := 0 to |items|
        invariant Visited(items[..j])
      {
        assert items[j] in (set f | f in items);
        assert items[..j + 1] == items[..j] + [items[j]];
        VisitItem(items[j], items[..j]);
      }
      assert items[..|items|] == items;
      forall f | f in program.plain ensures Found(program, Current(), PlainCalls(program, f)) {
        assert f in (set g | g in items);
      }
    }

    /** What these functions call is in the table, which without clashes holds but what plain functions call. */
    ghost predicate Visited(fs: seq<Name>)
      reads this
    {
      && TableOk(program, Current()) && AllFound(program, Current(), fs)
      && (NoClash(program) ==> KeysWithin(program, Current(), order, 1))
    }

    method VisitItem(f: Name, ghost before: seq<Name>)
      requires Visited(before) && f in program.plain
      modifies this`order, this`types
      ensures Grows(old(Current()), Current()) && Visited(before + [f])
    {
      forall i | i in PlainCalls(program, f)
        ensures Met(program, i) && Within(program, i, 1) && i.f in program.generics && i.targs != []
      {
        CalledByPlainIsMet(program, f, i);
      }
      ghost var t := Current();
      if NoClash(program) {
        AddAllStaysWithin(program, t, PlainCalls(program, f), 1);
      }
      AddAllIsRight(program, t, PlainCalls(program, f));
      Visit(program.plain[f].body);
      AllFoundStays(program, t, Current(), before);
    }

    /** Visits the functions that are not generic, generates the instances, and assembles the program. If that settled:
        every instance the program needs was found as itself, under a name of its own, exactly if no names clash;
        and then the program is the source specialised, and means what it meant. */
    method Monomorphize(items: seq<Name>) returns (q: Program, settled: bool)
      requires order == [] && types == map[] && specialized == []
      requires (set f | f in items) == program.plain.Keys
      modifies this
      ensures TableOk(program, Current()) && DoneTo(|specialized|) && (settled <==> |specialized| == |order|)
      ensures NoClash(program) ==> (settled <==> AllNear(program, MAX_ROUNDS))
      ensures settled ==> (NoClash(program) <==> FoundApart(program, InstancesOf(Current(), order)))
      ensures settled && NoClash(program) && Identifiers(program) ==>
        Specialized(program, InstancesOf(Current(), order), q) && MeansTheSame(program, q)
    {
      VisitItems(items);
      settled := Generate();
      var plain := map f | f in program.plain :: RewriteFn(program.generics, order, program.plain[f]);
      q := Program(map[], WithItems(plain, specialized));
      if settled {
        ApartExactly(program, Current(), specialized);
        if NoClash(program) && Identifiers(program) {
          Assembled(program, Current(), specialized, plain);
          SpecializedMeansTheSame(program, InstancesOf(Current(), order), q);
        }
      }
    }

    /** Specialises one instance. */
    method SpecializeKey(key: Key)
      requires TableOk(program, Current())
      requires DoneTo(|specialized|) && |specialized| < |order| && key == order[|specialized|]
      modifies this
      ensures TableOk(program, Current()) && Grows(old(Current()), Current())
      ensures |specialized| == old(|specialized|) + 1 && DoneTo(|specialized|)
      ensures Current() == AddAll(old(Current()), CallsOfKey(program, old(Current()), key))
    {
      ghost var t, n := Current(), |specialized|;
      var fn := program.generics[key.f];
      var targs := TypesAt(types, key.args);
      var s := Zip(fn.tparams, targs);
      ghost var found := Calls(program.generics, fn.body, s);
      CallsOfKeyAreMet(program, t, key);
      AddAllIsRight(program, t, found);
      var body := SpecializeExpr(fn.body, s);
      specialized := specialized + [(KeyName(key), Fn([], SpecializeParams(fn.params, s), Apply(s, fn.ret), body))];
      GrownMeansTheSame(t, Current(), key);
      assert Found(program, Current(), found);
      forall k | 0 <= k < n + 1 ensures Made(program, Current(), order[k], specialized[k]) {
        if k < n {
          assert order[k] == t.order[k];
          MadeStays(program, t, Current(), order[k], specialized[k]);
        }
      }
    }
  }

  // ---- the whole pass -----------------------------------------------------

  function InstancesOf(t: Table, order: seq<Key>): (r: seq<Instance>)
    requires forall k :: k in order ==> KnownKey(t, k)
    ensures |r| == |order| && forall j :: 0 <= j < |order| ==> r[j] == InstanceAt(t, order[j])
  {
    if order == [] then [] else [InstanceAt(t, order[0])] + InstancesOf(t, order[1..])
  }

  /** The functions by name, once the specialised ones are added to the module. */
  function WithItems(fns: map<Name, Fn>, items: seq<(Name, Fn)>): map<Name, Fn>
    decreases |items|
  {
    if items == [] then fns else WithItems(fns[items[0].0 := items[0].1], items[1..])
  }

  lemma {:induction false} LookupItem(fns: map<Name, Fn>, items: seq<(Name, Fn)>, f: Name)
    requires DistinctNames(items)
    ensures f in WithItems(fns, items) <==> f in fns || exists i :: 0 <= i < |items| && items[i].0 == f
    ensures forall i :: 0 <= i < |items| && items[i].0 == f ==>
      f in WithItems(fns, items) && WithItems(fns, items)[f] == items[i].1
    ensures f in fns && (forall i :: 0 <= i < |items| ==> items[i].0 != f) ==> WithItems(fns, items)[f] == fns[f]
    decreases |items|
  {
    if items != [] {
      LookupItem(fns[items[0].0 := items[0].1], items[1..], f);
      assert forall i :: 0 < i < |items| ==> items[i] == items[1..][i - 1];
      assert forall i :: 0 <= i < |items| - 1 ==> items[1..][i] == items[i + 1];
    }
  }

  lemma KeysHaveTheirOwnNames(p: Program, t: Table, k: Key, l: Key)
    requires TableOk(p, t) && NoClash(p) && k in t.order && l in t.order && KeyName(k) == KeyName(l)
    ensures k == l
  {
    KeyOfInstanceAt(t, k);
    KeyOfInstanceAt(t, l);
    KeyNamesTheInstance(InstanceAt(t, k));
    KeyNamesTheInstance(InstanceAt(t, l));
  }

  lemma KeyOfInstanceAt(t: Table, k: Key)
    requires TypesOk(t.types) && KnownKey(t, k)
    ensures KeyOf(InstanceAt(t, k)) == k && InstanceAt(t, k).targs != []
  {
    MangledBack(t.types, k.args);
  }

  lemma MangledBack(types: map<string, Type>, args: seq<string>)
    requires TypesOk(types) && forall a :: a in args ==> a in types
    ensures Mangled(TypesAt(types, args)) == args
  {
    var back := Mangled(TypesAt(types, args));
    forall j | 0 <= j < |args| ensures back[j] == args[j] {
      assert args[j] in args;
    }
  }

  /** The items are what was made for the table's keys. */
  ghost predicate AllMade(p: Program, t: Table, items: seq<(Name, Fn)>) {
    |items| == |t.order| && forall k :: 0 <= k < |items| ==> Made(p, t, t.order[k], items[k])
  }

  predicate DistinctNames(items: seq<(Name, Fn)>) {
    forall i, j :: 0 <= i < j < |items| ==> items[i].0 != items[j].0
  }

  lemma ItemsHaveDistinctNames(p: Program, t: Table, items: seq<(Name, Fn)>)
    requires TableOk(p, t) && NoClash(p) && AllMade(p, t, items)
    ensures DistinctNames(items)
  {
    forall i, j | 0 <= i < j < |items| ensures items[i].0 != items[j].0 {
      assert Made(p, t, t.order[i], items[i]) && Made(p, t, t.order[j], items[j]);
      if items[i].0 == items[j].0 {
        KeysHaveTheirOwnNames(p, t, t.order[i], t.order[j]);
      }
    }
  }

  lemma PlainFunctionIsRewritten(p: Program, t: Table, items: seq<(Name, Fn)>, plain: map<Name, Fn>, f: Name)
    requires AllMade(p, t, items) && DistinctNames(items) && Identifiers(p)
    requires f in p.plain && Found(p, t, PlainCalls(p, f))
    requires f in plain && plain[f] == RewriteFn(p.generics, t.order, p.plain[f])
    ensures f in WithItems(plain, items) && WithItems(plain, items)[f] == SpecializeFn(p.generics, p.plain[f], map[])
  {
    forall i | 0 <= i < |items| ensures items[i].0 != f {
      assert Made(p, t, t.order[i], items[i]);
      assert items[i].0[|t.order[i].f|] == '$';
    }
    LookupItem(plain, items, f);
    RewriteFnIsSpecializeFn(p.generics, t.order, p.plain[f]);
  }

  lemma ItemOf(p: Program, t: Table, items: seq<(Name, Fn)>, j: nat)
    requires TableOk(p, t) && AllMade(p, t, items) && j < |items|
    ensures
      var i := InstancesOf(t, t.order)[j];
      items[j] == (InstanceName(i), InstanceFn(p, i))
  {
    assert Made(p, t, t.order[j], items[j]);
    KeyOfInstanceAt(t, t.order[j]);
    KeyNamesTheInstance(InstanceAt(t, t.order[j]));
  }

  /** Every instance needed was found as itself, and has its own name. */
  ghost predicate FoundApart(p: Program, instances: seq<Instance>) {
    Closed(p, instances) && NamedApart(instances)
  }

  predicate NamedApart(instances: seq<Instance>) {
    forall i, j :: i in instances && j in instances && InstanceName(i) == InstanceName(j) ==> i == j
  }

  /** A settled pass found every instance as itself, under its own name, exactly if no names clash. */
  lemma ApartExactly(p: Program, t: Table, items: seq<(Name, Fn)>)
    requires TableOk(p, t) && AllMade(p, t, items)
    requires forall f :: f in p.plain ==> Found(p, t, PlainCalls(p, f))
    ensures NoClash(p) <==> FoundApart(p, InstancesOf(t, t.order))
  {
    if NoClash(p) {
      ClosedWhenMade(p, t, items);
      ListedNamesAreDistinct(p, t);
    } else if FoundApart(p, InstancesOf(t, t.order)) {
      ApartMeansNoClash(p, t);
    }
  }

  lemma ListedNamesAreDistinct(p: Program, t: Table)
    requires TableOk(p, t) && NoClash(p)
    ensures NamedApart(InstancesOf(t, t.order))
  {
    forall i, j | i in InstancesOf(t, t.order) && j in InstancesOf(t, t.order) && InstanceName(i) == InstanceName(j)
      ensures i == j
    {
      ListedIsMet(p, t, i);
      ListedIsMet(p, t, j);
    }
  }

  lemma ListedIsMet(p: Program, t: Table, i: Instance)
    requires TableOk(p, t) && NoClash(p) && i in InstancesOf(t, t.order)
    ensures Met(p, i)
  {
    var j :| 0 <= j < |t.order| && InstancesOf(t, t.order)[j] == i;
    assert t.order[j] in t.order;
  }

  lemma ApartMeansNoClash(p: Program, t: Table)
    requires TableOk(p, t) && FoundApart(p, InstancesOf(t, t.order))
    ensures NoClash(p)
  {
    var instances := InstancesOf(t, t.order);
    forall i | Met(p, i) ensures i in instances {
      MetIsListed(p, instances, i);
    }
    forall ty | MetType(p, ty) ensures MangleType(ty) in t.types && t.types[MangleType(ty)] == ty {
      var i :| Met(p, i) && ty in i.targs;
      ListedTypeIsRemembered(p, t, i, ty);
    }
  }

  lemma ListedTypeIsRemembered(p: Program, t: Table, i: Instance, ty: Type)
    requires TableOk(p, t) && i in InstancesOf(t, t.order) && ty in i.targs
    ensures MangleType(ty) in t.types && t.types[MangleType(ty)] == ty
  {
    var j :| 0 <= j < |t.order| && InstancesOf(t, t.order)[j] == i;
    var k :| 0 <= k < |i.targs| && i.targs[k] == ty;
    var args := t.order[j].args;
    assert t.order[j] in t.order && args[k] in args;
    assert ty == t.types[args[k]];
  }

  lemma {:induction false} ChainIsListed(p: Program, instances: seq<Instance>, chain: seq<Instance>, n: nat)
    requires Closed(p, instances) && IsCallChain(p, chain) && n < |chain|
    ensures chain[n] in instances
  {
    if n > 0 {
      ChainIsListed(p, instances, chain, n - 1);
      assert Follows(p, chain[n - 1], chain[n - 1 + 1]);
    }
  }

  lemma MetIsListed(p: Program, instances: seq<Instance>, i: Instance)
    requires Closed(p, instances) && Met(p, i)
    ensures i in instances
  {
    var chain :| IsCallChain(p, chain) && chain[|chain| - 1] == i;
    ChainIsListed(p, instances, chain, |chain| - 1);
  }

  /** Each plain function gives the same values and fails alike, at every depth of calls and on every target. */
  ghost predicate MeansTheSame(p: Program, q: Program) {
    forall f, m, vs, fuel: nat :: f in p.plain ==>
      f in q.plain && Enter(q, m, q.plain[f], map[], vs, fuel) == Enter(p, m, p.plain[f], map[], vs, fuel)
  }

  lemma SpecializedMeansTheSame(p: Program, instances: seq<Instance>, q: Program)
    requires Closed(p, instances) && Specialized(p, instances, q) && Identifiers(p)
    ensures MeansTheSame(p, q)
  {
    var z: Specialization := SpecializationData(p, instances, q);
    forall f, m, vs, fuel: nat | f in p.plain
      ensures Enter(q, m, q.plain[f], map[], vs, fuel) == Enter(p, m, p.plain[f], map[], vs, fuel)
    {
      SpecializedProgramsMeanTheSame(z, m, f, vs, fuel);
    }
  }

  /** The instances a key's body calls are generic, and met if the key's is. */
  lemma CallsOfKeyAreMet(p: Program, t: Table, k: Key)
    requires TableOk(p, t) && k in t.order
    ensures
      var i := InstanceAt(t, k);
      forall c :: c in Calls(p.generics, p.generics[k.f].body, SubstOf(p, i)) ==>
        c.f in p.generics && c.targs != [] && (NoClash(p) ==> Met(p, c))
  {
    var i := InstanceAt(t, k);
    CallsAreGeneric(p.generics, p.generics[k.f].body, SubstOf(p, i));
    forall c | NoClash(p) && c in Calls(p.generics, p.generics[k.f].body, SubstOf(p, i)) ensures Met(p, c) {
      CalledByMetIsMet(p, i, c);
    }
  }

  /** What a settled pass assembles is the source specialised to the instances it found. */
  lemma Assembled(p: Program, t: Table, items: seq<(Name, Fn)>, plain: map<Name, Fn>)
    requires TableOk(p, t) && NoClash(p) && Identifiers(p) && AllMade(p, t, items)
    requires forall f :: f in p.plain ==> Found(p, t, PlainCalls(p, f))
    requires plain == map f | f in p.plain :: RewriteFn(p.generics, t.order, p.plain[f])
    ensures Closed(p, InstancesOf(t, t.order))
    ensures Specialized(p, InstancesOf(t, t.order), Program(map[], WithItems(plain, items)))
  {
    var instances, all := InstancesOf(t, t.order), WithItems(plain, items);
    ClosedWhenMade(p, t, items);
    ItemsHaveDistinctNames(p, t, items);
    forall f | f in p.plain ensures f in all && all[f] == SpecializeFn(p.generics, p.plain[f], map[]) {
      PlainFunctionIsRewritten(p, t, items, plain, f);
    }
    forall i | i in instances ensures InstanceName(i) in all && all[InstanceName(i)] == InstanceFn(p, i) {
      InstanceIsAssembled(p, t, items, plain, i);
    }
    forall f | f in all ensures f in p.plain || exists i :: i in instances && InstanceName(i) == f {
      if f !in p.plain {
        NothingElseIsAssembled(p, t, items, plain, f);
      }
    }
  }

  lemma InstanceIsAssembled(p: Program, t: Table, items: seq<(Name, Fn)>, plain: map<Name, Fn>, i: Instance)
    requires TableOk(p, t) && NoClash(p) && AllMade(p, t, items) && i in InstancesOf(t, t.order)
    requires plain.Keys == p.plain.Keys
    ensures i.f in p.generics
    ensures InstanceName(i) in WithItems(plain, items) && WithItems(plain, items)[InstanceName(i)] == InstanceFn(p, i)
  {
    var j :| 0 <= j < |t.order| && InstancesOf(t, t.order)[j] == i;
    ItemsHaveDistinctNames(p, t, items);
    ItemOf(p, t, items, j);
    LookupItem(plain, items, InstanceName(i));
  }

  lemma NothingElseIsAssembled(p: Program, t: Table, items: seq<(Name, Fn)>, plain: map<Name, Fn>, f: Name)
    requires TableOk(p, t) && NoClash(p) && AllMade(p, t, items)
    requires f in WithItems(plain, items) && f !in plain
    ensures exists i :: i in InstancesOf(t, t.order) && InstanceName(i) == f
  {
    ItemsHaveDistinctNames(p, t, items);
    LookupItem(plain, items, f);
    var j :| 0 <= j < |items| && items[j].0 == f;
    ItemOf(p, t, items, j);
    assert InstancesOf(t, t.order)[j] in InstancesOf(t, t.order);
  }

  lemma ClosedWhenMade(p: Program, t: Table, items: seq<(Name, Fn)>)
    requires TableOk(p, t) && NoClash(p) && AllMade(p, t, items)
    requires forall f :: f in p.plain ==> Found(p, t, PlainCalls(p, f))
    ensures Closed(p, InstancesOf(t, t.order))
  {
    var instances := InstancesOf(t, t.order);
    forall i | i in instances ensures i.f in p.generics && i.targs != [] {
      var j :| 0 <= j < |t.order| && instances[j] == i;
      assert t.order[j] in t.order;
    }
    forall f, i | f in p.plain && i in Calls(p.generics, p.plain[f].body, map[]) ensures i in instances {
      FoundIsListed(t, i);
    }
    forall i, c | i in instances && c in Calls(p.generics, p.generics[i.f].body, SubstOf(p, i)) ensures c in instances {
      CalledIsListed(p, t, items, i, c);
    }
  }

  lemma CalledIsListed(p: Program, t: Table, items: seq<(Name, Fn)>, i: Instance, c: Instance)
    requires (forall k :: k in t.order ==> KnownKey(t, k)) && NoClash(p) && AllMade(p, t, items)
    requires i in InstancesOf(t, t.order) && i.f in p.generics
    requires c in Calls(p.generics, p.generics[i.f].body, SubstOf(p, i))
    ensures c in InstancesOf(t, t.order)
  {
    var j :| 0 <= j < |t.order| && InstancesOf(t, t.order)[j] == i;
    assert Made(p, t, t.order[j], items[j]);
    FoundIsListed(t, c);
  }

  lemma FoundIsListed(t: Table, i: Instance)
    requires forall k :: k in t.order ==> KnownKey(t, k)
    requires KeyOf(i) in t.order && InstanceAt(t, KeyOf(i)) == i
    ensures i in InstancesOf(t, t.order)
  {
    var j :| 0 <= j < |t.order| && t.order[j] == KeyOf(i);
    assert InstancesOf(t, t.order)[j] == i;
  }

  lemma PendingComes(before: seq<Key>, order: seq<Key>, start: nat, pending: seq<Key>, j: nat)
    requires start <= |before| && pending == before[start..] && before <= order && j < |pending|
    ensures start + j < |order| && order[start + j] == pending[j]
  {
    assert before[start + j] == pending[j];
  }

  function Among(ks: seq<Key>): set<Key> {
    set k | k in ks
  }

  lemma AmongFirst(ks: seq<Key>, j: nat)
    requires j < |ks|
    ensures Among(ks[..j + 1]) == Among(ks[..j]) + {ks[j]}
  {
    assert ks[..j + 1] == ks[..j] + [ks[j]];
  }

  /** A round that specialises all that was found before it has processed exactly those. */
  lemma RoundTracks(before: seq<Key>, after: seq<Key>, start: nat, processed: set<Key>, processed': set<Key>)
    requires start <= |before| && before <= after && forall i, j :: 0 <= i < j < |after| ==> after[i] != after[j]
    requires forall p :: p in processed ==> p in before
    requires forall k :: 0 <= k < |before| ==> (before[k] in processed <==> k < start)
    requires processed' == processed + Among(before[start..])
    ensures forall p :: p in processed' ==> p in after
    ensures forall k :: 0 <= k < |after| ==> (after[k] in processed' <==> k < |before|)
  {
    assert forall p :: p in processed' ==> p in before;
    forall k | 0 <= k < |after| ensures after[k] in processed' <==> k < |before| {
      if k >= |before| {
        NotAmongTheFirst(after, |before|, k);
        assert after[..|before|] == before;
      } else if k >= start {
        assert before[start..][k - start] == before[k] == after[k];
      }
    }
  }

  lemma NotAmongTheFirst(order: seq<Key>, n: nat, k: nat)
    requires n <= k < |order| && forall i, j :: 0 <= i < j < |order| ==> order[i] != order[j]
    ensures order[k] !in order[..n]
  {
  }

  // ---- readable programs --------------------------------------------------

  /** Every type argument written in a generic call is readable. */
  predicate ReadableCalls(e: Expr, arities: Arities)
    decreases e
  {
    match e
    case Bin(_, l, r) => ReadableCalls(l, arities) && ReadableCalls(r, arities)
    case If(c, t, f) => ReadableCalls(c, arities) && ReadableCalls(t, arities) && ReadableCalls(f, arities)
    case Let(_, _, value, body) => ReadableCalls(value, arities) && ReadableCalls(body, arities)
    case Cast(e, _) => ReadableCalls(e, arities)
    case Call(_, targs, args) =>
      (forall t :: t in targs ==> Readable(t, arities)) && forall a :: a in args ==> ReadableCalls(a, arities)
    case _ => true
  }

  ghost predicate ReadableProgram(p: Program, arities: Arities) {
    && (forall f :: f in p.plain ==> ReadableCalls(p.plain[f].body, arities))
    && (forall f :: f in p.generics ==> ReadableCalls(p.generics[f].body, arities))
  }

  ghost predicate ReadableInstance(i: Instance, generics: map<Name, Fn>, arities: Arities) {
    i.f in generics && i.targs != [] && forall t :: t in i.targs ==> Readable(t, arities)
  }

  predicate ReadableSubst(s: Subst, arities: Arities) {
    forall x :: x in s ==> Readable(s[x], arities)
  }

  lemma {:induction false} ApplyIsReadable(t: Type, s: Subst, arities: Arities)
    requires Readable(t, arities) && ReadableSubst(s, arities)
    ensures Readable(Apply(s, t), arities)
    decreases t, 1
  {
    match t
    case Named(_, args) => ApplyAllIsReadable(args, s, arities);
    case Ptr(_, inner) => ApplyIsReadable(inner, s, arities);
    case Ref(_, inner) => ApplyIsReadable(inner, s, arities);
    case Arr(_, inner) => ApplyIsReadable(inner, s, arities);
    case Slice(inner) => ApplyIsReadable(inner, s, arities);
  }

  lemma {:induction false} ApplyAllIsReadable(ts: seq<Type>, s: Subst, arities: Arities)
    requires (forall t :: t in ts ==> Readable(t, arities)) && ReadableSubst(s, arities)
    ensures forall t :: t in ApplyAll(s, ts) ==> Readable(t, arities)
    decreases ts, 0
  {
    if ts != [] {
      ApplyIsReadable(ts[0], s, arities);
      ApplyAllIsReadable(ts[1..], s, arities);
    }
  }

  lemma {:induction false} ZipIsReadable(tparams: seq<Name>, targs: seq<Type>, arities: Arities)
    requires forall t :: t in targs ==> Readable(t, arities)
    ensures ReadableSubst(Zip(tparams, targs), arities)
    decreases |tparams|
  {
    if tparams != [] && targs != [] {
      ZipIsReadable(tparams[1..], targs[1..], arities);
    }
  }

  lemma {:induction false} CallsAreReadable(generics: map<Name, Fn>, e: Expr, s: Subst, arities: Arities)
    requires ReadableCalls(e, arities) && ReadableSubst(s, arities)
    ensures forall i :: i in Calls(generics, e, s) ==> ReadableInstance(i, generics, arities)
    decreases e, 1
  {
    match e
    case Bin(_, l, r) =>
      CallsAreReadable(generics, l, s, arities);
      CallsAreReadable(generics, r, s, arities);
    case If(c, t, f) =>
      CallsAreReadable(generics, c, s, arities);
      CallsAreReadable(generics, t, s, arities);
      CallsAreReadable(generics, f, s, arities);
    case Let(_, _, value, body) =>
      CallsAreReadable(generics, value, s, arities);
      CallsAreReadable(generics, body, s, arities);
    case Cast(e', _) => CallsAreReadable(generics, e', s, arities);
    case Call(f, targs, args) =>
      ApplyAllIsReadable(targs, s, arities);
      AllCallsAreReadable(generics, args, s, arities);
    case _ =>
  }

  lemma {:induction false} AllCallsAreReadable(generics: map<Name, Fn>, es: seq<Expr>, s: Subst, arities: Arities)
    requires (forall e :: e in es ==> ReadableCalls(e, arities)) && ReadableSubst(s, arities)
    ensures forall i :: i in CallsAll(generics, es, s) ==> ReadableInstance(i, generics, arities)
    decreases es, 0
  {
    if es != [] {
      CallsAreReadable(generics, es[0], s, arities);
      AllCallsAreReadable(generics, es[1..], s, arities);
    }
  }

  lemma {:induction false} ChainIsReadable(p: Program, arities: Arities, chain: seq<Instance>, n: nat)
    requires ReadableProgram(p, arities) && IsCallChain(p, chain) && n < |chain|
    ensures ReadableInstance(chain[n], p.generics, arities)
  {
    if n == 0 {
      var f :| f in p.plain && chain[0] in PlainCalls(p, f);
      CallsAreReadable(p.generics, p.plain[f].body, map[], arities);
    } else {
      var i := chain[n - 1];
      ChainIsReadable(p, arities, chain, n - 1);
      assert Follows(p, i, chain[n - 1 + 1]);
      ZipIsReadable(p.generics[i.f].tparams, i.targs, arities);
      CallsAreReadable(p.generics, p.generics[i.f].body, SubstOf(p, i), arities);
    }
  }

  lemma MetIsReadable(p: Program, arities: Arities, i: Instance)
    requires ReadableProgram(p, arities) && Met(p, i)
    ensures ReadableInstance(i, p.generics, arities)
  {
    var chain :| IsCallChain(p, chain) && chain[|chain| - 1] == i;
    ChainIsReadable(p, arities, chain, |chain| - 1);
  }

  /** Names do not clash when every type argument written is readable. */
  lemma ReadableProgramsDoNotClash(p: Program, arities: Arities)
    requires ReadableProgram(p, arities) && Identifiers(p)
    ensures NoClash(p)
  {
    forall t, u | MetType(p, t) && MetType(p, u) && MangleType(t) == MangleType(u) ensures t == u {
      var i :| Met(p, i) && t in i.targs;
      var j :| Met(p, j) && u in j.targs;
      MetIsReadable(p, arities, i);
      MetIsReadable(p, arities, j);
      DemangleUndoesMangle(t, arities);
      DemangleUndoesMangle(u, arities);
    }
    forall i, j | Met(p, i) && Met(p, j) && InstanceName(i) == InstanceName(j) ensures i == j {
      MetIsReadable(p, arities, i);
      MetIsReadable(p, arities, j);
      InstanceNamesAreDistinct(i.f, i.targs, j.f, j.targs, arities);
    }
  }
}
