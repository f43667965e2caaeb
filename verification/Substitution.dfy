/** What substitution does to a type, place by place, and what it leaves of a generic's parameters in its instances. */
module Substitution {
  import opened Basics
  import opened Mangling
  import opened GenericPrograms

  // ---- types by their places ----------------------------------------------

  /** The types directly inside a type. */
  function Inner(t: Type): (r: seq<Type>)
    ensures forall u :: u in r ==> u < t
  {
    match t
    case Named(_, args) => args
    case Ptr(_, inner) => [inner]
    case Ref(_, inner) => [inner]
    case Arr(_, inner) => [inner]
    case Slice(inner) => [inner]
  }

  /** The type at a place: an argument's or pointee's position, and on from there. */
  function Part(t: Type, place: seq<nat>): Option<Type>
    decreases |place|
  {
    if place == [] then Some(t)
    else if place[0] < |Inner(t)| then Part(Inner(t)[place[0]], place[1..])
    else None
  }

  /** What a type is but for the types inside it. */
  datatype Head = NamedHead(name: string, arity: nat) | PtrHead(mutable: bool) | RefHead(mutable: bool)
    | ArrHead(size: nat) | SliceHead

  function HeadOf(t: Type): Head {
    match t
    case Named(name, args) => NamedHead(name, |args|)
    case Ptr(mutable, _) => PtrHead(mutable)
    case Ref(mutable, _) => RefHead(mutable)
    case Arr(size, _) => ArrHead(size)
    case Slice(_) => SliceHead
  }

  /** A type parameter by itself. */
  predicate IsParameter(s: Subst, t: Type) {
    t.Named? && t.args == [] && t.name in s
  }

  lemma {:induction false} ApplyAllAt(s: Subst, ts: seq<Type>, k: nat)
    requires k < |ts|
    ensures ApplyAll(s, ts)[k] == Apply(s, ts[k])
  {
    if k > 0 {
      ApplyAllAt(s, ts[1..], k - 1);
    }
  }

  lemma ApplyInside(s: Subst, t: Type, k: nat)
    requires !IsParameter(s, t) && k < |Inner(t)|
    ensures |Inner(Apply(s, t))| == |Inner(t)| && Inner(Apply(s, t))[k] == Apply(s, Inner(t)[k])
  {
    if t.Named? {
      ApplyAllAt(s, t.args, k);
    }
  }

  /** Substitution, place by place: a parameter by itself becomes what it stands for, and everything else stays. */
  lemma {:induction false} ApplyAt(s: Subst, t: Type, place: seq<nat>)
    requires Part(t, place).Some?
    ensures
      var was, now := Part(t, place).value, Part(Apply(s, t), place);
      now.Some? && if IsParameter(s, was) then now.value == s[was.name] else HeadOf(now.value) == HeadOf(was)
    decreases |place|
  {
    if place != [] {
      ApplyInside(s, t, place[0]);
      ApplyAt(s, Inner(t)[place[0]], place[1..]);
    }
  }

  /** And there is nothing else in the result: each of its places is one of the type's, or in what a parameter of it
      became. */
  lemma {:induction false} NothingElse(s: Subst, t: Type, place: seq<nat>)
    requires Part(Apply(s, t), place).Some? && Part(t, place).None?
    ensures exists k :: 0 <= k <= |place| && Part(t, place[..k]).Some? && IsParameter(s, Part(t, place[..k]).value)
    decreases |place|
  {
    if IsParameter(s, t) {
      assert Part(t, place[..0]) == Some(t);
    } else {
      assert |Inner(Apply(s, t))| == |Inner(t)|;
      ApplyInside(s, t, place[0]);
      NothingElse(s, Inner(t)[place[0]], place[1..]);
      var k :| 0 <= k <= |place[1..]| && Part(Inner(t)[place[0]], place[1..][..k]).Some? &&
        IsParameter(s, Part(Inner(t)[place[0]], place[1..][..k]).value);
      assert place[..k + 1][1..] == place[1..][..k];
      assert Part(t, place[..k + 1]) == Part(Inner(t)[place[0]], place[1..][..k]);
    }
  }

  // ---- parameters and arguments -------------------------------------------

  lemma {:induction false} ZipKeys(tparams: seq<Name>, targs: seq<Type>)
    ensures forall x :: x in Zip(tparams, targs) <==> exists k :: 0 <= k < |tparams| && k < |targs| && tparams[k] == x
    decreases |tparams|
  {
    if tparams != [] && targs != [] {
      ZipKeys(tparams[1..], targs[1..]);
      var rest := Zip(tparams[1..], targs[1..]);
      forall x ensures x in Zip(tparams, targs) <==> exists k :: 0 <= k < |tparams| && k < |targs| && tparams[k] == x {
        if x in rest {
          var k :| 0 <= k < |tparams[1..]| && k < |targs[1..]| && tparams[1..][k] == x;
          assert tparams[k + 1] == x;
        }
        if k :| 0 <= k < |tparams| && k < |targs| && tparams[k] == x {
          assert k > 0 ==> tparams[1..][k - 1] == x;
        }
      }
    }
  }

  /** Each parameter stands for the argument in its position. */
  lemma {:induction false} ZipPairs(tparams: seq<Name>, targs: seq<Type>, k: nat)
    requires k < |tparams| && k < |targs| && forall i, j :: 0 <= i < j < |tparams| ==> tparams[i] != tparams[j]
    ensures tparams[k] in Zip(tparams, targs) && Zip(tparams, targs)[tparams[k]] == targs[k]
    decreases |tparams|
  {
    if k == 0 {
      ZipKeys(tparams[1..], targs[1..]);
    } else {
      ZipPairs(tparams[1..], targs[1..], k - 1);
    }
  }

  // ---- no parameter is left -----------------------------------------------

  predicate Mentions(t: Type, xs: set<Name>)
    decreases t
  {
    (t.Named? && t.args == [] && t.name in xs) || exists u :: u in Inner(t) && Mentions(u, xs)
  }

  predicate SomeMentions(ts: seq<Type>, xs: set<Name>) {
    exists t :: t in ts && Mentions(t, xs)
  }

  lemma {:induction false} ApplyLeavesNone(s: Subst, t: Type, xs: set<Name>)
    requires xs <= s.Keys && forall x :: x in s ==> !Mentions(s[x], xs)
    ensures !Mentions(Apply(s, t), xs)
    decreases t
  {
    if !IsParameter(s, t) {
      forall u | u in Inner(Apply(s, t)) ensures !Mentions(u, xs) {
        var k :| 0 <= k < |Inner(Apply(s, t))| && Inner(Apply(s, t))[k] == u;
        assert |Inner(Apply(s, t))| == |Inner(t)|;
        ApplyInside(s, t, k);
        ApplyLeavesNone(s, Inner(t)[k], xs);
      }
    }
  }

  /** The types written in an expression: annotations, casts, sizes and type arguments. */
  predicate ExprMentions(e: Expr, xs: set<Name>)
    decreases e
  {
    match e
    case Num(_) => false
    case Var(_) => false
    case Bin(_, l, r) => ExprMentions(l, xs) || ExprMentions(r, xs)
    case If(c, t, f) => ExprMentions(c, xs) || ExprMentions(t, xs) || ExprMentions(f, xs)
    case Let(_, ty, value, body) =>
      (ty.Some? && Mentions(ty.value, xs)) || ExprMentions(value, xs) || ExprMentions(body, xs)
    case Cast(e1, ty) => Mentions(ty, xs) || ExprMentions(e1, xs)
    case SizeOfName(name) => name in xs
    case SizeOfType(ty) => Mentions(ty, xs)
    case Call(_, targs, args) => SomeMentions(targs, xs) || exists a :: a in args && ExprMentions(a, xs)
  }

  predicate FnMentions(fn: Fn, xs: set<Name>) {
    || Mentions(fn.ret, xs) || ExprMentions(fn.body, xs)
    || exists q :: q in fn.params && Mentions(q.ty, xs)
  }

  /** Type arguments are given to generic functions only. */
  predicate TypesOnlyGenerics(generics: map<Name, Fn>, e: Expr)
    decreases e
  {
    match e
    case Bin(_, l, r) => TypesOnlyGenerics(generics, l) && TypesOnlyGenerics(generics, r)
    case If(c, t, f) =>
      TypesOnlyGenerics(generics, c) && TypesOnlyGenerics(generics, t) && TypesOnlyGenerics(generics, f)
    case Let(_, _, value, body) => TypesOnlyGenerics(generics, value) && TypesOnlyGenerics(generics, body)
    case Cast(e1, _) => TypesOnlyGenerics(generics, e1)
    case Call(f, targs, args) =>
      (targs != [] ==> f in generics) && forall a :: a in args ==> TypesOnlyGenerics(generics, a)
    case _ => true
  }

  lemma {:induction false} SpecializeLeavesNone(generics: map<Name, Fn>, e: Expr, s: Subst, xs: set<Name>)
    requires xs <= s.Keys && (forall x :: x in s ==> !Mentions(s[x], xs)) && TypesOnlyGenerics(generics, e)
    ensures !ExprMentions(Specialize(generics, e, s), xs)
    decreases e, 1
  {
    match e
    case Num(_) =>
    case Var(_) =>
    case Bin(_, l, r) =>
      SpecializeLeavesNone(generics, l, s, xs);
      SpecializeLeavesNone(generics, r, s, xs);
    case If(c, t, f) =>
      SpecializeLeavesNone(generics, c, s, xs);
      SpecializeLeavesNone(generics, t, s, xs);
      SpecializeLeavesNone(generics, f, s, xs);
    case Let(_, ty, value, body) =>
      if ty.Some? { ApplyLeavesNone(s, ty.value, xs); }
      SpecializeLeavesNone(generics, value, s, xs);
      SpecializeLeavesNone(generics, body, s, xs);
    case Cast(e1, ty) =>
      ApplyLeavesNone(s, ty, xs);
      SpecializeLeavesNone(generics, e1, s, xs);
    case SizeOfName(name) => ApplyLeavesNone(s, Named(name, []), xs);
    case SizeOfType(ty) => ApplyLeavesNone(s, ty, xs);
    case Call(_, _, args) => SpecializeAllLeavesNone(generics, args, s, xs);
  }

  lemma {:induction false} SpecializeAllLeavesNone(generics: map<Name, Fn>, es: seq<Expr>, s: Subst, xs: set<Name>)
    requires xs <= s.Keys && (forall x :: x in s ==> !Mentions(s[x], xs))
    requires forall e :: e in es ==> TypesOnlyGenerics(generics, e)
    ensures forall e :: e in SpecializeAll(generics, es, s) ==> !ExprMentions(e, xs)
    decreases es, 0
  {
    if es != [] {
      SpecializeLeavesNone(generics, es[0], s, xs);
      SpecializeAllLeavesNone(generics, es[1..], s, xs);
    }
  }

  lemma {:induction false} ParamsLeaveNone(params: seq<Param>, s: Subst, xs: set<Name>)
    requires xs <= s.Keys && forall x :: x in s ==> !Mentions(s[x], xs)
    ensures forall q :: q in SpecializeParams(params, s) ==> !Mentions(q.ty, xs)
  {
    if params != [] {
      ApplyLeavesNone(s, params[0].ty, xs);
      ParamsLeaveNone(params[1..], s, xs);
    }
  }

  /** An instance's function has none of its generic's type parameters left, in any type, when it is given an argument
      for each and the arguments mention none. */
  lemma InstancesAreConcrete(p: Program, i: Instance)
    requires i.f in p.generics && |p.generics[i.f].tparams| <= |i.targs|
    requires TypesOnlyGenerics(p.generics, p.generics[i.f].body)
    requires !SomeMentions(i.targs, set x | x in p.generics[i.f].tparams)
    ensures !FnMentions(InstanceFn(p, i), set x | x in p.generics[i.f].tparams)
  {
    var fn := p.generics[i.f];
    var s, xs := SubstOf(p, i), set x | x in fn.tparams;
    ZipKeys(fn.tparams, i.targs);
    ZipValues(fn.tparams, i.targs);
    forall x | x in xs ensures x in s {
      var k :| 0 <= k < |fn.tparams| && fn.tparams[k] == x;
    }
    ApplyLeavesNone(s, fn.ret, xs);
    ParamsLeaveNone(fn.params, s, xs);
    SpecializeLeavesNone(p.generics, fn.body, s, xs);
  }

  lemma {:induction false} ZipValues(tparams: seq<Name>, targs: seq<Type>)
    ensures forall x :: x in Zip(tparams, targs) ==> Zip(tparams, targs)[x] in targs
    decreases |tparams|
  {
    if tparams != [] && targs != [] {
      ZipValues(tparams[1..], targs[1..]);
    }
  }
}
