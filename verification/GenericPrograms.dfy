/** Programs with generic functions, what they mean, and what specialising them does. */
module GenericPrograms {
  import opened Basics
  import opened Mangling

  type Name = string

  datatype Expr =
    | Num(n: int)
    | Var(x: Name)
    | Bin(op: Name, l: Expr, r: Expr)
    | If(c: Expr, t: Expr, f: Expr)
    | Let(x: Name, annotation: Option<Type>, value: Expr, body: Expr)
    | Cast(e: Expr, ty: Type)
      // `sizeof(T)`: a type's name, or a type written out.
    | SizeOfName(name: Name)
    | SizeOfType(ty: Type)
    | Call(callee: Name, targs: seq<Type>, args: seq<Expr>)

  datatype Param = Param(x: Name, ty: Type)

  datatype Fn = Fn(tparams: seq<Name>, params: seq<Param>, ret: Type, body: Expr)

  /** `generics` have type parameters, `plain` functions have none. */
  datatype Program = Program(generics: map<Name, Fn>, plain: map<Name, Fn>)

  /** Type parameters and the types they stand for. */
  type Subst = map<Name, Type>

  function Apply(s: Subst, t: Type): Type
    decreases t, 1
  {
    match t
    case Named(name, args) =>
      if name in s && args == [] then s[name] else Named(name, ApplyAll(s, args))
    case Ptr(mutable, inner) => Ptr(mutable, Apply(s, inner))
    case Ref(mutable, inner) => Ref(mutable, Apply(s, inner))
    case Arr(size, inner) => Arr(size, Apply(s, inner))
    case Slice(inner) => Slice(Apply(s, inner))
  }

  function ApplyAll(s: Subst, ts: seq<Type>): (r: seq<Type>)
    ensures |r| == |ts|
    decreases ts, 0
  {
    if ts == [] then [] else [Apply(s, ts[0])] + ApplyAll(s, ts[1..])
  }

  /** Parameters paired with arguments, as far as both go; a later pair wins. */
  function Zip(tparams: seq<Name>, targs: seq<Type>): Subst {
    if tparams == [] || targs == [] then map[]
    else map[tparams[0] := targs[0]] + Zip(tparams[1..], targs[1..])
  }

  lemma {:induction false} ApplyNothing(t: Type)
    ensures Apply(map[], t) == t
    decreases t, 1
  {
    match t
    case Named(_, args) => ApplyAllNothing(args);
    case Ptr(_, inner) => ApplyNothing(inner);
    case Ref(_, inner) => ApplyNothing(inner);
    case Arr(_, inner) => ApplyNothing(inner);
    case Slice(inner) => ApplyNothing(inner);
  }

  lemma {:induction false} ApplyAllNothing(ts: seq<Type>)
    ensures ApplyAll(map[], ts) == ts
    decreases ts, 0
  {
    if ts != [] {
      ApplyNothing(ts[0]);
      ApplyAllNothing(ts[1..]);
    }
  }

  // ---- meaning ------------------------------------------------------------

  /** What the target makes of sizes, of values at types, and of operators. */
  datatype Target = Target(sizeOf: Type -> int, at: (Type, int) -> int, op: (Name, int, int) -> int)

  type Env = map<Name, int>

  /** An expression's value where the type parameters stand for `types`; None if it calls what
      is not there, reads an unbound name, or needs more than `fuel` nested calls. */
  function Eval(p: Program, m: Target, e: Expr, types: Subst, env: Env, fuel: nat): Option<int>
    decreases fuel, 0, e, 1
  {
    match e
    case Num(n) => Some(n)
    case Var(x) => if x in env then Some(env[x]) else None
    case Bin(op, l, r) => (
      match Eval(p, m, l, types, env, fuel)
      case None => None
      case Some(a) => (
        match Eval(p, m, r, types, env, fuel)
        case None => None
        case Some(b) => Some(m.op(op, a, b))))
    case If(c, t, f) => (
      match Eval(p, m, c, types, env, fuel)
      case None => None
      case Some(b) => if b != 0 then Eval(p, m, t, types, env, fuel) else Eval(p, m, f, types, env, fuel))
    case Let(x, ty, value, body) => (
      match Eval(p, m, value, types, env, fuel)
      case None => None
      case Some(v) =>
        var v' := if ty.Some? then m.at(Apply(types, ty.value), v) else v;
        Eval(p, m, body, types, env[x := v'], fuel))
    case Cast(e, ty) => (
      match Eval(p, m, e, types, env, fuel)
      case None => None
      case Some(v) => Some(m.at(Apply(types, ty), v)))
    case SizeOfName(name) => Some(m.sizeOf(if name in types then types[name] else Named(name, [])))
    case SizeOfType(ty) => Some(m.sizeOf(Apply(types, ty)))
    case Call(f, targs, args) => (
      match EvalAll(p, m, args, types, env, fuel)
      case None => None
      case Some(vs) => if fuel == 0 then None else Dispatch(p, m, f, ApplyAll(types, targs), vs, fuel - 1))
  }

  /** A call with type arguments of a generic function enters it at those types. */
  function Dispatch(p: Program, m: Target, f: Name, targs: seq<Type>, vs: seq<int>, fuel: nat): Option<int>
    decreases fuel, 2
  {
    if targs != [] && f in p.generics then Enter(p, m, p.generics[f], Zip(p.generics[f].tparams, targs), vs, fuel)
    else if f in p.plain then Enter(p, m, p.plain[f], map[], vs, fuel)
    else None
  }

  function EvalAll(p: Program, m: Target, es: seq<Expr>, types: Subst, env: Env, fuel: nat): Option<seq<int>>
    decreases fuel, 0, es, 0
  {
    if es == [] then Some([])
    else
      match Eval(p, m, es[0], types, env, fuel)
      case None => None
      case Some(v) =>
        match EvalAll(p, m, es[1..], types, env, fuel)
        case None => None
        case Some(vs) => Some([v] + vs)
  }

  /** Runs a function's body on its arguments. */
  function Enter(p: Program, m: Target, fn: Fn, types: Subst, vs: seq<int>, fuel: nat): Option<int>
    decreases fuel, 1
  {
    if |vs| != |fn.params| then None
    else
      match Eval(p, m, fn.body, types, Bound(m, fn.params, types, vs), fuel)
      case None => None
      case Some(v) => Some(m.at(Apply(types, fn.ret), v))
  }

  function Bound(m: Target, params: seq<Param>, types: Subst, vs: seq<int>): Env
    requires |vs| == |params|
  {
    if params == [] then map[]
    else map[params[0].x := m.at(Apply(types, params[0].ty), vs[0])] + Bound(m, params[1..], types, vs[1..])
  }

  // ---- instances and specialisation ---------------------------------------

  /** A generic function at concrete types. */
  datatype Instance = Instance(f: Name, targs: seq<Type>)

  function InstanceName(i: Instance): Name {
    MangleInstance(i.f, i.targs)
  }

  /** An expression of a generic body with its types made concrete and its generic calls renamed. */
  function Specialize(generics: map<Name, Fn>, e: Expr, s: Subst): Expr
    decreases e, 1
  {
    match e
    case Num(_) => e
    case Var(_) => e
    case Bin(op, l, r) => Bin(op, Specialize(generics, l, s), Specialize(generics, r, s))
    case If(c, t, f) => If(Specialize(generics, c, s), Specialize(generics, t, s), Specialize(generics, f, s))
    case Let(x, ty, value, body) =>
      Let(x, if ty.Some? then Some(Apply(s, ty.value)) else None,
        Specialize(generics, value, s), Specialize(generics, body, s))
    case Cast(e, ty) => Cast(Specialize(generics, e, s), Apply(s, ty))
    case SizeOfName(name) => if name in s then SizeOfType(Apply(s, Named(name, []))) else e
    case SizeOfType(ty) => SizeOfType(Apply(s, ty))
    case Call(f, targs, args) =>
      var args' := SpecializeAll(generics, args, s);
      if targs != [] && f in generics then Call(InstanceName(Instance(f, ApplyAll(s, targs))), [], args')
      else Call(f, targs, args')
  }

  function SpecializeAll(generics: map<Name, Fn>, es: seq<Expr>, s: Subst): (r: seq<Expr>)
    ensures |r| == |es|
    decreases es, 0
  {
    if es == [] then [] else [Specialize(generics, es[0], s)] + SpecializeAll(generics, es[1..], s)
  }

  /** The instances an expression calls where the parameters stand for `s`, in the order they are met. */
  function Calls(generics: map<Name, Fn>, e: Expr, s: Subst): seq<Instance>
    decreases e, 1
  {
    match e
    case Num(_) => []
    case Var(_) => []
    case Bin(_, l, r) => Calls(generics, l, s) + Calls(generics, r, s)
    case If(c, t, f) => Calls(generics, c, s) + Calls(generics, t, s) + Calls(generics, f, s)
    case Let(_, _, value, body) => Calls(generics, value, s) + Calls(generics, body, s)
    case Cast(e, _) => Calls(generics, e, s)
    case SizeOfName(_) => []
    case SizeOfType(_) => []
    case Call(f, targs, args) =>
      CallsAll(generics, args, s) + if targs != [] && f in generics then [Instance(f, ApplyAll(s, targs))] else []
  }

  function CallsAll(generics: map<Name, Fn>, es: seq<Expr>, s: Subst): seq<Instance>
    decreases es, 0
  {
    if es == [] then [] else Calls(generics, es[0], s) + CallsAll(generics, es[1..], s)
  }

  function SpecializeParams(params: seq<Param>, s: Subst): (r: seq<Param>)
    ensures |r| == |params|
  {
    if params == [] then [] else [Param(params[0].x, Apply(s, params[0].ty))] + SpecializeParams(params[1..], s)
  }

  function SpecializeFn(generics: map<Name, Fn>, fn: Fn, s: Subst): Fn {
    Fn([], SpecializeParams(fn.params, s), Apply(s, fn.ret), Specialize(generics, fn.body, s))
  }

  function SubstOf(p: Program, i: Instance): Subst
    requires i.f in p.generics
  {
    Zip(p.generics[i.f].tparams, i.targs)
  }

  // ---- the specialised program --------------------------------------------

  /** Every generic call the plain functions and the instances make is an instance of the list. */
  ghost predicate Closed(p: Program, instances: seq<Instance>) {
    && (forall i :: i in instances ==> i.f in p.generics && i.targs != [])
    && (forall f, i :: f in p.plain && i in Calls(p.generics, p.plain[f].body, map[]) ==> i in instances)
    && (forall i, j :: i in instances && j in Calls(p.generics, p.generics[i.f].body, SubstOf(p, i)) ==> j in instances)
  }

  /** `q` holds the plain functions with their generic calls renamed and each instance
      under its own name, and no generics. */
  ghost predicate Specialized(p: Program, instances: seq<Instance>, q: Program)
    requires forall i :: i in instances ==> i.f in p.generics
  {
    && q.generics == map[]
    && (forall f :: f in p.plain ==> f in q.plain && q.plain[f] == SpecializeFn(p.generics, p.plain[f], map[]))
    && (forall i :: i in instances ==> InstanceName(i) in q.plain && q.plain[InstanceName(i)] == InstanceFn(p, i))
    && (forall f :: f in q.plain ==> f in p.plain || exists i :: i in instances && InstanceName(i) == f)
  }

  function InstanceFn(p: Program, i: Instance): Fn
    requires i.f in p.generics
  {
    SpecializeFn(p.generics, p.generics[i.f], SubstOf(p, i))
  }

  /** Every called name is an identifier: no '$'. */
  predicate CallsIdentifiers(e: Expr)
    decreases e
  {
    match e
    case Bin(_, l, r) => CallsIdentifiers(l) && CallsIdentifiers(r)
    case If(c, t, f) => CallsIdentifiers(c) && CallsIdentifiers(t) && CallsIdentifiers(f)
    case Let(_, _, value, body) => CallsIdentifiers(value) && CallsIdentifiers(body)
    case Cast(e, _) => CallsIdentifiers(e)
    case Call(f, _, args) => '$' !in f && forall a :: a in args ==> CallsIdentifiers(a)
    case _ => true
  }

  /** The source's names are identifiers. */
  ghost predicate Identifiers(p: Program) {
    && (forall f :: f in p.plain ==> '$' !in f && CallsIdentifiers(p.plain[f].body))
    && (forall f :: f in p.generics ==> '$' !in f && CallsIdentifiers(p.generics[f].body))
  }

  /** A source program, the instances it needs, and the program specialised to them. */
  datatype SpecializationData = SpecializationData(p: Program, instances: seq<Instance>, q: Program)

  type Specialization = z: SpecializationData
    | Closed(z.p, z.instances) && Specialized(z.p, z.instances, z.q) && Identifiers(z.p)
    ghost witness SpecializationData(Program(map[], map[]), [], Program(map[], map[]))

  lemma {:induction false} BoundIsKept(m: Target, params: seq<Param>, s: Subst, vs: seq<int>)
    requires |vs| == |params|
    ensures Bound(m, SpecializeParams(params, s), map[], vs) == Bound(m, params, s, vs)
  {
    if params != [] {
      ApplyNothing(Apply(s, params[0].ty));
      BoundIsKept(m, params[1..], s, vs[1..]);
      var ps := SpecializeParams(params, s);
      assert ps[1..] == SpecializeParams(params[1..], s);
    }
  }

  /** A specialised expression means what the generic one means at the types. */
  lemma {:induction false} SpecializeKeepsMeaning(z: Specialization, m: Target, e: Expr, s: Subst, env: Env, fuel: nat)
    requires CallsIdentifiers(e) && forall i :: i in Calls(z.p.generics, e, s) ==> i in z.instances
    ensures Eval(z.q, m, Specialize(z.p.generics, e, s), map[], env, fuel) == Eval(z.p, m, e, s, env, fuel)
    decreases fuel, 0, e, 2
  {
    match e
    case Num(_) =>
    case Var(_) =>
    case Bin(_, l, r) =>
      SpecializeKeepsMeaning(z, m, l, s, env, fuel);
      SpecializeKeepsMeaning(z, m, r, s, env, fuel);
    case If(c, t, f) => IfKeepsMeaning(z, m, e, s, env, fuel);
    case Let(_, _, _, _) => LetKeepsMeaning(z, m, e, s, env, fuel);
    case Cast(e', ty) =>
      SpecializeKeepsMeaning(z, m, e', s, env, fuel);
      ApplyNothing(Apply(s, ty));
    case SizeOfName(name) =>
      if name in s { ApplyNothing(s[name]); }
    case SizeOfType(ty) => ApplyNothing(Apply(s, ty));
    case Call(_, _, _) => CallKeepsMeaning(z, m, e, s, env, fuel);
  }

  lemma {:induction false} IfKeepsMeaning(z: Specialization, m: Target, e: Expr, s: Subst, env: Env, fuel: nat)
    requires e.If?
    requires CallsIdentifiers(e) && forall i :: i in Calls(z.p.generics, e, s) ==> i in z.instances
    ensures Eval(z.q, m, Specialize(z.p.generics, e, s), map[], env, fuel) == Eval(z.p, m, e, s, env, fuel)
    decreases fuel, 0, e, 0
  {
    var If(c, t, f) := e;
    CallsOfAnIf(z.p.generics, e, s, z.instances);
    SpecializeKeepsMeaning(z, m, c, s, env, fuel);
    SpecializeKeepsMeaning(z, m, t, s, env, fuel);
    SpecializeKeepsMeaning(z, m, f, s, env, fuel);
  }

  lemma CallsOfAnIf(generics: map<Name, Fn>, e: Expr, s: Subst, instances: seq<Instance>)
    requires e.If? && forall i :: i in Calls(generics, e, s) ==> i in instances
    ensures forall i :: i in Calls(generics, e.c, s) ==> i in instances
    ensures forall i :: i in Calls(generics, e.t, s) ==> i in instances
    ensures forall i :: i in Calls(generics, e.f, s) ==> i in instances
  {
    var c, t, f := Calls(generics, e.c, s), Calls(generics, e.t, s), Calls(generics, e.f, s);
    assert Calls(generics, e, s) == c + t + f;
    assert forall i :: i in c || i in t || i in f ==> i in c + t + f;
  }

  lemma {:induction false} LetKeepsMeaning(z: Specialization, m: Target, e: Expr, s: Subst, env: Env, fuel: nat)
    requires e.Let?
    requires CallsIdentifiers(e) && forall i :: i in Calls(z.p.generics, e, s) ==> i in z.instances
    ensures Eval(z.q, m, Specialize(z.p.generics, e, s), map[], env, fuel) == Eval(z.p, m, e, s, env, fuel)
    decreases fuel, 0, e, 0
  {
    var Let(x, ty, value, body) := e;
    assert forall i :: i in Calls(z.p.generics, value, s) || i in Calls(z.p.generics, body, s) ==>
      i in Calls(z.p.generics, e, s);
    SpecializeKeepsMeaning(z, m, value, s, env, fuel);
    var v := Eval(z.p, m, value, s, env, fuel);
    if v.Some? {
      if ty.Some? { ApplyNothing(Apply(s, ty.value)); }
      var v' := if ty.Some? then m.at(Apply(s, ty.value), v.value) else v.value;
      SpecializeKeepsMeaning(z, m, body, s, env[x := v'], fuel);
    }
  }

  lemma {:induction false} AllKeepMeaning(z: Specialization, m: Target, es: seq<Expr>, s: Subst, env: Env, fuel: nat)
    requires forall e :: e in es ==> CallsIdentifiers(e)
    requires forall i :: i in CallsAll(z.p.generics, es, s) ==> i in z.instances
    ensures EvalAll(z.q, m, SpecializeAll(z.p.generics, es, s), map[], env, fuel) == EvalAll(z.p, m, es, s, env, fuel)
    decreases fuel, 0, es, 0
  {
    if es != [] {
      SpecializeKeepsMeaning(z, m, es[0], s, env, fuel);
      AllKeepMeaning(z, m, es[1..], s, env, fuel);
      var es' := SpecializeAll(z.p.generics, es, s);
      assert es'[0] == Specialize(z.p.generics, es[0], s) && es'[1..] == SpecializeAll(z.p.generics, es[1..], s);
    }
  }

  lemma {:induction false} CallKeepsMeaning(z: Specialization, m: Target, e: Expr, s: Subst, env: Env, fuel: nat)
    requires e.Call?
    requires CallsIdentifiers(e) && forall i :: i in Calls(z.p.generics, e, s) ==> i in z.instances
    ensures Eval(z.q, m, Specialize(z.p.generics, e, s), map[], env, fuel) == Eval(z.p, m, e, s, env, fuel)
    decreases fuel, 0, e, 1
  {
    CallPartsKeepMeaning(z, m, e, s, env, fuel);
    CallMeansTheSame(z, m, e, s, env, fuel);
  }

  lemma {:induction false} CallPartsKeepMeaning(z: Specialization, m: Target, e: Expr, s: Subst, env: Env, fuel: nat)
    requires e.Call?
    requires CallsIdentifiers(e) && forall i :: i in Calls(z.p.generics, e, s) ==> i in z.instances
    ensures
      EvalAll(z.q, m, SpecializeAll(z.p.generics, e.args, s), map[], env, fuel) == EvalAll(z.p, m, e.args, s, env, fuel)
    ensures
      var vs := EvalAll(z.p, m, e.args, s, env, fuel);
      vs.Some? && fuel > 0 ==> DispatchKept(z, m, e.callee, e.targs, ApplyAll(s, e.targs), vs.value, fuel - 1)
    decreases fuel, 0, e, 0
  {
    CallsOfACall(z.p.generics, e, s, z.instances);
    AllKeepMeaning(z, m, e.args, s, env, fuel);
    var vs := EvalAll(z.p, m, e.args, s, env, fuel);
    if vs.Some? && fuel > 0 {
      DispatchKeepsMeaning(z, m, e.callee, e.targs, ApplyAll(s, e.targs), vs.value, fuel - 1);
    }
  }

  /** Where a call goes in the source, and where the specialised one goes. */
  predicate DispatchKept(z: Specialization, m: Target, f: Name, written: seq<Type>, targs: seq<Type>, vs: seq<int>,
      fuel: nat)
    requires |written| == |targs|
  {
    Dispatch(z.p, m, f, targs, vs, fuel) ==
    if targs != [] && f in z.p.generics then Dispatch(z.q, m, InstanceName(Instance(f, targs)), [], vs, fuel)
    else Dispatch(z.q, m, f, written, vs, fuel)
  }

  lemma CallMeansTheSame(z: Specialization, m: Target, e: Expr, s: Subst, env: Env, fuel: nat)
    requires e.Call?
    requires
      EvalAll(z.q, m, SpecializeAll(z.p.generics, e.args, s), map[], env, fuel) == EvalAll(z.p, m, e.args, s, env, fuel)
    requires
      var vs := EvalAll(z.p, m, e.args, s, env, fuel);
      vs.Some? && fuel > 0 ==> DispatchKept(z, m, e.callee, e.targs, ApplyAll(s, e.targs), vs.value, fuel - 1)
    ensures Eval(z.q, m, Specialize(z.p.generics, e, s), map[], env, fuel) == Eval(z.p, m, e, s, env, fuel)
  {
    SpecializedCall(z.p, z.q, m, e, s, env, fuel);
    EvaluatedCall(z.p, m, e, s, env, fuel);
  }

  /** The call itself, likewise. */
  lemma EvaluatedCall(p: Program, m: Target, e: Expr, s: Subst, env: Env, fuel: nat)
    requires e.Call?
    ensures
      var vs := EvalAll(p, m, e.args, s, env, fuel);
      Eval(p, m, e, s, env, fuel) ==
      if vs.None? || fuel == 0 then None else Dispatch(p, m, e.callee, ApplyAll(s, e.targs), vs.value, fuel - 1)
  {
  }

  lemma CallsOfACall(generics: map<Name, Fn>, e: Expr, s: Subst, instances: seq<Instance>)
    requires e.Call? && forall i :: i in Calls(generics, e, s) ==> i in instances
    ensures forall i :: i in CallsAll(generics, e.args, s) ==> i in instances
    ensures e.targs != [] && e.callee in generics ==> Instance(e.callee, ApplyAll(s, e.targs)) in instances
  {
    var all := CallsAll(generics, e.args, s);
    assert forall i :: i in all ==> i in Calls(generics, e, s);
    assert e.targs != [] && e.callee in generics ==> Instance(e.callee, ApplyAll(s, e.targs)) in Calls(generics, e, s);
  }

  /** The specialised call, one step of its evaluation. */
  lemma SpecializedCall(p: Program, q: Program, m: Target, e: Expr, s: Subst, env: Env, fuel: nat)
    requires e.Call?
    ensures
      var vs := EvalAll(q, m, SpecializeAll(p.generics, e.args, s), map[], env, fuel);
      Eval(q, m, Specialize(p.generics, e, s), map[], env, fuel) ==
      if vs.None? || fuel == 0 then None
      else if e.targs != [] && e.callee in p.generics then
        Dispatch(q, m, InstanceName(Instance(e.callee, ApplyAll(s, e.targs))), [], vs.value, fuel - 1)
      else Dispatch(q, m, e.callee, e.targs, vs.value, fuel - 1)
  {
    ApplyAllNothing(e.targs);
  }

  lemma {:induction false} DispatchKeepsMeaning(z: Specialization, m: Target, f: Name, written: seq<Type>,
      targs: seq<Type>, vs: seq<int>, fuel: nat)
    requires '$' !in f
    requires |written| == |targs| && (targs != [] && f in z.p.generics ==> Instance(f, targs) in z.instances)
    ensures DispatchKept(z, m, f, written, targs, vs, fuel)
    decreases fuel, 2
  {
    if targs != [] && f in z.p.generics {
      var i := Instance(f, targs);
      EnterKeepsMeaning(z, m, z.p.generics[f], SubstOf(z.p, i), vs, fuel);
    } else {
      NotAnInstance(z, f);
      if f in z.p.plain {
        EnterKeepsMeaning(z, m, z.p.plain[f], map[], vs, fuel);
      }
    }
  }

  lemma NotAnInstance(z: Specialization, f: Name)
    requires '$' !in f
    ensures f in z.q.plain <==> f in z.p.plain
  {
    forall i | i in z.instances ensures InstanceName(i) != f {
      assert InstanceName(i)[|i.f|] == '$';
    }
  }

  lemma {:induction false} EnterKeepsMeaning(z: Specialization, m: Target, fn: Fn, s: Subst, vs: seq<int>, fuel: nat)
    requires CallsIdentifiers(fn.body) && forall i :: i in Calls(z.p.generics, fn.body, s) ==> i in z.instances
    ensures Enter(z.q, m, SpecializeFn(z.p.generics, fn, s), map[], vs, fuel) == Enter(z.p, m, fn, s, vs, fuel)
    decreases fuel, 1
  {
    if |vs| == |fn.params| {
      BoundIsKept(m, fn.params, s, vs);
      ApplyNothing(Apply(s, fn.ret));
      SpecializeKeepsMeaning(z, m, fn.body, s, Bound(m, fn.params, s, vs), fuel);
    }
  }

  /** Running a function of the specialised program is running it in the source: same value, same failures,
      at every depth of calls, whatever sizes and operations the target has. */
  lemma SpecializedProgramsMeanTheSame(z: Specialization, m: Target, f: Name, vs: seq<int>, fuel: nat)
    requires f in z.p.plain
    ensures Enter(z.q, m, z.q.plain[f], map[], vs, fuel) == Enter(z.p, m, z.p.plain[f], map[], vs, fuel)
  {
    EnterKeepsMeaning(z, m, z.p.plain[f], map[], vs, fuel);
  }
}
