/** Statement by statement, the generated code uses what was set on every path to it. */
module Dominance {
  import opened Machine
  import opened CFG
  import opened IR
  import opened Codegen
  import opened ValueTypes
  import opened Emission
  import opened Invariants
  import opened Structure
  import opened Simulate
  import opened Typing
  import opened SSA

  // ----- variables in scope -----

  /** The generator forgets no binding, but only those in scope may be used. */
  function Only(vMap: VMap, scope: set<Lvar>): VMap {
    map x | x in vMap && x in scope :: vMap[x]
  }

  lemma {:induction false} ScopedSame(tgt: Target, fns: Fns, vMap: VMap, em: Em, e: Exp, scope: set<Lvar>)
    requires |tgt.stkOffset| == NUM_REGS == |em.regs| && Scoped(fns, e, scope)
    ensures GenExp(tgt, Only(vMap, scope), em, e) == GenExp(tgt, vMap, em, e)
    decreases e
  {
    hide GenLooker, GenPure, Load, Gep, AsPtr;
    match e
    case LOOKER(_, args) => AllScopedSame(tgt, fns, vMap, em, args, scope);
    case PURE(_, args) => AllScopedSame(tgt, fns, vMap, em, args, scope);
    case SELECT(_, arg) => ScopedSame(tgt, fns, vMap, em, arg, scope);
    case _ =>
  }

  lemma {:induction false} AllScopedSame(tgt: Target, fns: Fns, vMap: VMap, em: Em, es: seq<Exp>, scope: set<Lvar>)
    requires |tgt.stkOffset| == NUM_REGS == |em.regs| && ScopedAll(fns, es, scope)
    ensures GenExps(tgt, Only(vMap, scope), em, es) == GenExps(tgt, vMap, em, es)
    decreases es
  {
    hide GenExp, Only, Scoped;
    if es != [] {
      var n := |es| - 1;
      AllScopedSame(tgt, fns, vMap, em, es[..n], scope);
      ScopedSame(tgt, fns, vMap, GenExps(tgt, vMap, em, es[..n]).em, es[n], scope);
    }
  }

  lemma {:induction false} CastScopedSame(tgt: Target, fns: Fns, vMap: VMap, em: Em, es: seq<Exp>, tys: seq<Ty>,
                                          scope: set<Lvar>)
    requires |tgt.stkOffset| == NUM_REGS == |em.regs| && ScopedAll(fns, es, scope) && |es| <= |tys|
    ensures GenCastExps(tgt, Only(vMap, scope), em, es, tys) == GenCastExps(tgt, vMap, em, es, tys)
  {
    hide GenExp, CastTo, Only, Scoped;
    if es != [] {
      var n := |es| - 1;
      CastScopedSame(tgt, fns, vMap, em, es[..n], tys, scope);
      ScopedSame(tgt, fns, vMap, GenCastExps(tgt, vMap, em, es[..n], tys).em, es[n], scope);
    }
  }

  lemma {:induction false} RootsScopedSame(tgt: Target, fns: Fns, vMap: VMap, em: Em, es: seq<Exp>, scope: set<Lvar>)
    requires |tgt.stkOffset| == NUM_REGS == |em.regs| && ScopedAll(fns, es, scope)
    ensures GenRoots(tgt, Only(vMap, scope), em, es) == GenRoots(tgt, vMap, em, es)
  {
    hide GenExp, AsPtr, Only, Scoped;
    if es != [] {
      var n := |es| - 1;
      RootsScopedSame(tgt, fns, vMap, em, es[..n], scope);
      ScopedSame(tgt, fns, vMap, GenRoots(tgt, vMap, em, es[..n]).em, es[n], scope);
    }
  }

  lemma CalleeScopedSame(u: Unit, vMap: VMap, em: Em, f: Exp, kind: FragKind, tys: seq<Ty>, scope: set<Lvar>)
    requires |u.tgt.stkOffset| == NUM_REGS == |em.regs| && Scoped(u.fns, f, scope)
    ensures GenCallee(u, Only(vMap, scope), em, f, kind, tys) == GenCallee(u, vMap, em, f, kind, tys)
  {
    hide GenExp, Only;
    ScopedSame(u.tgt, u.fns, vMap, em, f, scope);
  }

  function TysFor(vMap: VMap, em: Em): Types {
    Types(VarTys(vMap), RegTys(em.regs), true, true, true)
  }

  /** Registers and variables in scope hold what is known here. */
  ghost predicate KnowsHere(u: Unit, cg: CG, av: seq<set<nat>>, lo: nat, scope: set<Lvar>) {
    && |u.tgt.stkOffset| == NUM_REGS && cg.cur < |cg.blocks| == |av|
    && Knows(Here(u.tgt, cg, av, lo), Only(cg.vMap, scope), EmOf(cg))
  }

  lemma BindKnows(b: Blk, vMap: VMap, em: Em, scope: set<Lvar>, x: Lvar, v: Value)
    requires |b.tgt.stkOffset| == NUM_REGS && Knows(b, Only(vMap, scope), em) && Has(b, em, v) && x !in vMap
    ensures Knows(b, Only(InsertVal(vMap, x, v), scope + {x}), em)
  {
    hide Has;
    var vm, vm' := Only(vMap, scope), Only(InsertVal(vMap, x, v), scope + {x});
    forall y | y in vm'
      ensures Has(b, em, vm'[y])
    {
      if y != x {
        assert y in vm && vm[y] == vm'[y];
      }
    }
  }

  lemma BindAllKnows(b: Blk, vMap: VMap, em: Em, scope: set<Lvar>, xs: seq<Lvar>, vs: seq<Value>)
    requires |b.tgt.stkOffset| == NUM_REGS && Knows(b, Only(vMap, scope), em) && HasAll(b, em, vs)
    requires |xs| == |vs| && Distinct(xs) && Elems(xs) !! vMap.Keys
    ensures Knows(b, Only(InsertVals(vMap, xs, vs), scope + Elems(xs)), em)
  {
    hide Has;
    InsertValsAt(vMap, xs, vs);
    var vm, vm' := Only(vMap, scope), Only(InsertVals(vMap, xs, vs), scope + Elems(xs));
    forall y | y in vm'
      ensures Has(b, em, vm'[y])
    {
      if y in vMap {
        assert y in vm && vm[y] == vm'[y];
      } else {
        var j :| 0 <= j < |xs| && xs[j] == y;
        assert vm'[y] == vs[j];
      }
    }
  }

  /** What is known after code that keeps variables. */
  lemma StillKnows(u: Unit, cg: CG, av: seq<set<nat>>, lo: nat, scope: set<Lvar>, em: Em, fits: bool)
    requires Writing(u.tgt, cg, av, lo) && KnowsHere(u, cg, av, lo, scope)
    requires Goes(Here(u.tgt, cg, av, lo), EmOf(cg), em, fits) && |em.regs| == NUM_REGS
    requires HasRegs(Here(u.tgt, cg, av, lo), em)
    ensures Writing(u.tgt, WithEm(cg, em), av, lo) && KnowsHere(u, WithEm(cg, em), av, lo, scope)
    ensures Here(u.tgt, WithEm(cg, em), av, lo) == Here(u.tgt, cg, av, lo) && EmOf(WithEm(cg, em)) == em
  {
    hide Writing, Goes, HasRegs, HasVars, Knows;
    WriteCode(u.tgt, cg, av, lo, em, fits);
    VarsStay(Here(u.tgt, cg, av, lo), Only(cg.vMap, scope), EmOf(cg), em, fits);
    assert EmOf(WithEm(cg, em)) == em;
  }

  lemma SameWriting(u: Unit, cg: CG, av: seq<set<nat>>, lo: nat, vMap: VMap)
    requires Writing(u.tgt, cg, av, lo)
    ensures Writing(u.tgt, cg.(vMap := vMap), av, lo)
  {
    hide Ordered, Sound, IdsOf, PhiIds;
  }

  // ----- statements within a block -----

  lemma LetWrites(u: Unit, cg: CG, av: seq<set<nat>>, lo: nat, scope: set<Lvar>, e: Exp, p: Param)
    requires InRange(u, cg) && Writing(u.tgt, cg, av, lo) && KnowsHere(u, cg, av, lo, scope)
    requires Scoped(u.fns, e, scope) && p.name !in cg.vMap
    ensures var cg' := GenLet(u, cg, e, p);
            Writing(u.tgt, cg', av, lo) && KnowsHere(u, cg', av, lo, scope + {p.name})
  {
    hide Writing, GenExp, Goes, Has, HasRegs, HasVars, Only, ExpFits, Scoped;
    var b, vm := Here(u.tgt, cg, av, lo), Only(cg.vMap, scope);
    ScopedSame(u.tgt, u.fns, cg.vMap, EmOf(cg), e, scope);
    ExpGoes(b, vm, EmOf(cg), e, TysFor(vm, EmOf(cg)));
    var v := GenExp(u.tgt, cg.vMap, EmOf(cg), e);
    StillKnows(u, cg, av, lo, scope, v.em, ExpFits(TysFor(vm, EmOf(cg)), e));
    BindKnows(b, cg.vMap, v.em, scope, p.name, v.v);
    SameWriting(u, WithEm(cg, v.em), av, lo, InsertVal(cg.vMap, p.name, v.v));
  }

  /** Values that are computed first, as the arguments of what follows. */
  lemma ArgsWrite(u: Unit, cg: CG, av: seq<set<nat>>, lo: nat, scope: set<Lvar>, args: seq<Exp>)
    requires InRange(u, cg) && Writing(u.tgt, cg, av, lo) && KnowsHere(u, cg, av, lo, scope)
    requires ScopedAll(u.fns, args, scope)
    ensures var a := GenExps(u.tgt, cg.vMap, EmOf(cg), args);
            var b, cg1 := Here(u.tgt, cg, av, lo), WithEm(cg, a.em);
            && Writing(u.tgt, cg1, av, lo) && KnowsHere(u, cg1, av, lo, scope)
            && Here(u.tgt, cg1, av, lo) == b && EmOf(cg1) == a.em && HasAll(b, a.em, a.vs) && HasRegs(b, a.em)
  {
    hide Writing, GenExps, Goes, HasRegs, HasVars, HasAll, Only, AllFit, ScopedAll;
    var b, vm := Here(u.tgt, cg, av, lo), Only(cg.vMap, scope);
    AllScopedSame(u.tgt, u.fns, cg.vMap, EmOf(cg), args, scope);
    ExpsGoes(b, vm, EmOf(cg), args, TysFor(vm, EmOf(cg)));
    StillKnows(u, cg, av, lo, scope, GenExps(u.tgt, cg.vMap, EmOf(cg), args).em,
               AllFit(TysFor(vm, EmOf(cg)), args));
  }

  lemma AllocWrites(u: Unit, cg: CG, av: seq<set<nat>>, lo: nat, scope: set<Lvar>, alloc: AllocOp, args: seq<Exp>,
                    x: Lvar)
    requires InRange(u, cg) && Writing(u.tgt, cg, av, lo) && KnowsHere(u, cg, av, lo, scope)
    requires ScopedAll(u.fns, args, scope) && x !in cg.vMap && HeapPtrs(RegTys(cg.regs))
    ensures var cg' := GenAllocStm(u, cg, alloc, args, x);
            Writing(u.tgt, cg', av, lo) && KnowsHere(u, cg', av, lo, scope + {x})
  {
    hide Writing, GenExps, GenAlloc, Goes, Has, HasRegs, HasVars, HasAll, Only, AllocFits, ScopedAll, TysOf, RegTys;
    var b := Here(u.tgt, cg, av, lo);
    ArgsWrite(u, cg, av, lo, scope, args);
    var a := GenExps(u.tgt, cg.vMap, EmOf(cg), args);
    var cg1, v := WithEm(cg, a.em), GenAlloc(u.tgt, a.em, alloc, a.vs);
    AllocGoes(b, a.em, alloc, a.vs);
    StillKnows(u, cg1, av, lo, scope, v.em, AllocFits(alloc, TysOf(a.vs)));
    WithEmTwice(cg, a.em, v.em);
    BindKnows(b, cg.vMap, v.em, scope, x, v.v);
    SameWriting(u, WithEm(cg, v.em), av, lo, InsertVal(cg.vMap, x, v.v));
  }

  lemma WithEmTwice(cg: CG, em: Em, em': Em)
    requires cg.cur < |cg.blocks|
    ensures WithEm(WithEm(cg, em), em') == WithEm(cg, em')
  {
    assert WithEm(WithEm(cg, em), em').blocks == WithEm(cg, em').blocks;
  }

  lemma SetterWrites(u: Unit, cg: CG, av: seq<set<nat>>, lo: nat, scope: set<Lvar>, setter: SetterOp, args: seq<Exp>)
    requires InRange(u, cg) && Writing(u.tgt, cg, av, lo) && KnowsHere(u, cg, av, lo, scope)
    requires ScopedAll(u.fns, args, scope) && HeapPtrs(RegTys(cg.regs))
    ensures var cg' := GenSetterStm(u, cg, setter, args);
            Writing(u.tgt, cg', av, lo) && KnowsHere(u, cg', av, lo, scope)
  {
    hide Writing, GenExps, GenSetter, Goes, HasRegs, HasVars, HasAll, Only, SetterFits, ScopedAll, TysOf, RegTys;
    var b := Here(u.tgt, cg, av, lo);
    ArgsWrite(u, cg, av, lo, scope, args);
    var a := GenExps(u.tgt, cg.vMap, EmOf(cg), args);
    var cg1, em := WithEm(cg, a.em), GenSetter(u.tgt, a.em, setter, a.vs);
    SetterGoes(b, a.em, setter, a.vs);
    StillKnows(u, cg1, av, lo, scope, em, SetterFits(setter, TysOf(a.vs)));
    WithEmTwice(cg, a.em, em);
  }

  lemma GcWrites(u: Unit, cg: CG, av: seq<set<nat>>, lo: nat, scope: set<Lvar>, roots: seq<Exp>, xs: seq<Lvar>)
    requires InRange(u, cg) && Writing(u.tgt, cg, av, lo) && KnowsHere(u, cg, av, lo, scope)
    requires ScopedAll(u.fns, roots, scope) && Distinct(xs) && Elems(xs) !! cg.vMap.Keys
    ensures var cg' := GenGCStm(u, cg, roots, xs);
            Writing(u.tgt, cg', av, lo) && KnowsHere(u, cg', av, lo, scope + Elems(xs))
  {
    hide Writing, GenRoots, GcCode, Goes, HasRegs, HasVars, HasAll, Only, ScopedAll, AllFit, AllPoint, HwArgs,
         InsertVals, Elems, Distinct, ArgTys;
    var b, vm, n := Here(u.tgt, cg, av, lo), Only(cg.vMap, scope), |u.tgt.Hw()|;
    var t := TysFor(vm, EmOf(cg));
    RootsScopedSame(u.tgt, u.fns, cg.vMap, EmOf(cg), roots, scope);
    RootsGoes(b, vm, EmOf(cg), roots, t);
    var a := GenRoots(u.tgt, cg.vMap, EmOf(cg), roots);
    var args := HwArgs(u.tgt, a.em.regs) + a.vs;
    HwArgsHave(b, a.em);
    HasBoth(b, a.em, HwArgs(u.tgt, a.em.regs), a.vs);
    GcGoes(b, a.em, |xs|, args);
    var em := GcCode(u.tgt, a.em, |xs|, args);
    GoesTrans(b, EmOf(cg), a.em, em, AllFit(t, roots) && AllPoint(ArgTys(t, roots)), true);
    StillKnows(u, cg, av, lo, scope, em, AllFit(t, roots) && AllPoint(ArgTys(t, roots)));
    GcStmIs(u, cg, roots, xs);
    var vs := Temps(a.em.next + n, Ptrs(|xs|));
    TempsHave(b, em, a.em.next + n, |xs|);
    BindAllKnows(b, cg.vMap, em, scope, xs, vs);
    SameWriting(u, WithEm(cg, em), av, lo, InsertVals(cg.vMap, xs, vs));
  }

  lemma HasBoth(b: Blk, em: Em, vs: seq<Value>, vs': seq<Value>)
    requires |b.tgt.stkOffset| == NUM_REGS && HasAll(b, em, vs) && HasAll(b, em, vs')
    ensures HasAll(b, em, vs + vs')
  {
    hide Has;
  }

  lemma TempsHave(b: Blk, em: Em, base: nat, n: nat)
    requires |b.tgt.stkOffset| == NUM_REGS && b.track && forall id :: base <= id < base + n ==> id in Live(b, em)
    ensures HasAll(b, em, Temps(base, Ptrs(n)))
  {
    hide Live;
  }

  // ----- edges -----

  /** Nothing is known at the entries of fragments and at the overflow block, as any block may jump there. Of the
      blocks from lo to hi, L is known at those of bbs, and only those have been jumped to. */
  ghost predicate Targets(u: Unit, cg: CG, av: seq<set<nat>>, lo: nat, hi: nat, bbs: seq<nat>, L: set<nat>) {
    && |av| == |cg.blocks| && hi <= u.n <= |av|
    && (forall i :: 0 <= i < |u.bbs| ==> u.bbs[i] < u.n && av[u.bbs[i]] == {} && !(lo <= u.bbs[i] < hi))
    && (cg.ovf.Some? ==> u.n <= cg.ovf.value < |av| && av[cg.ovf.value] == {})
    && (forall d :: lo <= d < hi ==> av[d] == if d in bbs then L else {})
    && (forall b: nat, d: nat :: HasEdge(cg.blocks, b, d) ==> !(lo <= d < hi) || d in bbs)
  }

  /** From cg to cg', new edges lead to the blocks from lo to hi, to entries of fragments or to blocks that the
      generator added; and what is known at other blocks is what it was. */
  ghost predicate Grew(u: Unit, cg: CG, cg': CG, av: seq<set<nat>>, av': seq<set<nat>>, lo: nat, hi: nat) {
    && |av| == |cg.blocks| <= |cg'.blocks| == |av'|
    && (forall d :: 0 <= d < |av| && !(lo <= d < hi) ==> av'[d] == av[d])
    && (forall b: nat, d: nat :: HasEdge(cg'.blocks, b, d) ==>
          HasEdge(cg.blocks, b, d) || lo <= d < hi || d in u.bbs || u.n <= d)
    && (cg'.ovf.Some? ==> u.n <= cg'.ovf.value < |av'| && av'[cg'.ovf.value] == {})
  }

  lemma GrewTrans(u: Unit, cg: CG, cg1: CG, cg': CG, av: seq<set<nat>>, av1: seq<set<nat>>, av': seq<set<nat>>,
                  lo: nat, hi: nat, lo1: nat, hi1: nat, lo2: nat, hi2: nat)
    requires Grew(u, cg, cg1, av, av1, lo1, hi1) && Grew(u, cg1, cg', av1, av', lo2, hi2)
    requires (lo1 < hi1 ==> lo <= lo1 && hi1 <= hi) && (lo2 < hi2 ==> lo <= lo2 && hi2 <= hi)
    ensures Grew(u, cg, cg', av, av', lo, hi)
  {
    hide HasEdge;
  }

  lemma TargetsStay(u: Unit, cg: CG, cg': CG, av: seq<set<nat>>, av': seq<set<nat>>, lo: nat, hi: nat, lo': nat,
                    hi': nat, bbs: seq<nat>, L: set<nat>)
    requires Grew(u, cg, cg', av, av', lo, hi) && Targets(u, cg, av, lo', hi', bbs, L) && (hi <= lo' || hi' <= lo)
    requires forall i :: 0 <= i < |u.bbs| ==> !(lo <= u.bbs[i] < hi)
    ensures Targets(u, cg', av', lo', hi', bbs, L)
  {
    hide HasEdge;
  }

  /** Part of the blocks, none of which has been jumped to. */
  lemma TargetsWithin(u: Unit, cg: CG, av: seq<set<nat>>, lo: nat, hi: nat, bbs: seq<nat>, L: set<nat>, lo': nat,
                      hi': nat)
    requires Targets(u, cg, av, lo, hi, bbs, L) && lo <= lo' && hi' <= hi && forall d :: lo' <= d < hi' ==> d !in bbs
    ensures Targets(u, cg, av, lo', hi', [], {})
  {
    hide HasEdge;
  }

  /** Only code and bindings were added. */
  ghost predicate Quiet(cg: CG, cg': CG) {
    && |cg'.blocks| == |cg.blocks| && cg'.ovf == cg.ovf
    && forall d :: 0 <= d < |cg.blocks| ==> cg'.blocks[d].term == cg.blocks[d].term
  }

  lemma QuietGrew(u: Unit, cg: CG, cg': CG, av: seq<set<nat>>, lo: nat, hi: nat)
    requires Quiet(cg, cg') && Targets(u, cg, av, lo, hi, [], {})
    ensures Grew(u, cg, cg', av, av, lo, lo) && Targets(u, cg', av, lo, hi, [], {})
  {
    forall b: nat, d: nat
      ensures HasEdge(cg'.blocks, b, d) == HasEdge(cg.blocks, b, d)
    {
    }
  }

  lemma HeadsQuiet(u: Unit, cg: CG)
    requires InRange(u, cg)
    ensures forall e, p :: Quiet(cg, GenLet(u, cg, e, p))
    ensures forall alloc, args, x :: Quiet(cg, GenAllocStm(u, cg, alloc, args, x))
    ensures forall setter, args :: Quiet(cg, GenSetterStm(u, cg, setter, args))
    ensures forall roots, xs :: Quiet(cg, GenGCStm(u, cg, roots, xs))
  {
    hide GenExp, GenExps, GenRoots, GenAlloc, GenSetter, GcCode, HwArgs, InsertVals, InsertVal, Temps;
  }

  // ----- checked arithmetic -----

  /** The same values are known elsewhere. */
  lemma CarryKnows(b: Blk, em: Em, b': Blk, em': Em, vMap: VMap)
    requires |b.tgt.stkOffset| == NUM_REGS && b'.tgt == b.tgt && b.track && Knows(b, vMap, em)
    requires em'.regs == em.regs && Live(b, em) <= Live(b', em')
    ensures Knows(b', vMap, em')
  {
    hide Live;
    forall r | 0 <= r < |em.regs| && em.regs[r].Some?
      ensures Has(b', em', em'.regs[r].value)
    {
      assert Has(b, em, em.regs[r].value);
    }
    forall x | x in vMap
      ensures Has(b', em', vMap[x])
    {
      assert Has(b, em, vMap[x]);
    }
  }

  /** What is known at the end of the block so far. */
  lemma LiveIsOut(tgt: Target, cg: CG, av: seq<set<nat>>, lo: nat)
    requires |tgt.stkOffset| == NUM_REGS && cg.cur < |cg.blocks| == |av|
    ensures Live(Here(tgt, cg, av, lo), EmOf(cg)) == Out(tgt, av[cg.cur], cg.blocks[cg.cur])
  {
  }

  lemma SoundSize(tgt: Target, blocks: seq<Block>, av: seq<set<nat>>, next: nat)
    requires Sound(tgt, blocks, av, next)
    ensures |tgt.stkOffset| == NUM_REGS && |av| == |blocks|
  {
  }

  lemma EmptySound(tgt: Target, blocks: seq<Block>, av: seq<set<nat>>, next: nat, term: Option<Terminator>,
                   before: set<nat>)
    requires Sound(tgt, blocks, av, next) && SuccsOK(blocks) && (term == None || term == Some(Unreachable))
    ensures Sound(tgt, blocks + [EMPTY.(term := term)], av + [before], next)
  {
    hide Sound;
    var b := EMPTY.(term := term);
    assert PhiIds(b.phis) == {};
    AppendSound(tgt, blocks, av, next, b, before, next);
  }

  /** The overflow block passes on its own phi nodes. */
  lemma OverflowSound(tgt: Target, cg: CG, av: seq<set<nat>>)
    requires |tgt.stkOffset| == NUM_REGS && Sound(tgt, cg.blocks, av, cg.next) && SuccsOK(cg.blocks)
    ensures var cg' := MakeOverflow(tgt, cg);
            Sound(tgt, cg'.blocks, if cg.ovf.Some? then av else av + [{}], cg'.next)
  {
    hide Sound;
    SoundSize(tgt, cg.blocks, av, cg.next);
    if cg.ovf.None? {
      var tys := Ptrs(|tgt.Hw()|);
      var phis := NewPhis(cg.next, tys);
      var b := Block(phis, [], Some(RaiseOverflow(Temps(cg.next, tys))));
      NewPhiIds(cg.next, tys);
      AppendSound(tgt, cg.blocks, av, cg.next, b, {}, cg.next + |tys|);
    }
  }

  lemma NewPhiIds(base: nat, tys: seq<Ty>)
    ensures forall id :: id in PhiIds(NewPhis(base, tys)) <==> base <= id < base + |tys|
    ensures IdsDistinct(NewPhis(base, tys)) && AllKnown(Temps(base, tys), PhiIds(NewPhis(base, tys)))
  {
    forall id | base <= id < base + |tys|
      ensures id in PhiIds(NewPhis(base, tys))
    {
      assert NewPhis(base, tys)[id - base].id == id;
    }
  }

  /** The check of an overflow bit that is known. */
  lemma CheckWrites(u: Unit, cg: CG, av: seq<set<nat>>, lo: nat, scope: set<Lvar>, res: nat,
                    l: nat) returns (av': seq<set<nat>>)
    requires Inv(u, cg) && Writing(u.tgt, cg, av, lo) && KnowsHere(u, cg, av, lo, scope)
    requires cg.ovf.Some? ==> u.n <= cg.ovf.value < |av| && av[cg.ovf.value] == {}
    requires res + 1 in Live(Here(u.tgt, cg, av, lo), EmOf(cg))
    ensures var cg' := BranchOnOverflow(u.tgt, cg, res);
            && Writing(u.tgt, cg', av', cg'.next) && KnowsHere(u, cg', av', cg'.next, scope)
            && Live(Here(u.tgt, cg, av, lo), EmOf(cg)) <= Live(Here(u.tgt, cg', av', cg'.next), EmOf(cg'))
    ensures Grew(u, cg, BranchOnOverflow(u.tgt, cg, res), av, av', l, l)
  {
    hide Sound, Ordered, OthersBelow, Live, IdsOf, HwArgs, AddIncoming, Known, PhisOK, SuccsOK, IdsOK, FragsOK,
         OverflowOK, NewPhis, Knows, Only;
    var L, ok := Out(u.tgt, av[cg.cur], cg.blocks[cg.cur]), |cg.blocks|;
    LiveIsOut(u.tgt, cg, av, lo);
    InvSuccs(u, cg);
    EmptySound(u.tgt, cg.blocks, av, cg.next, None, L);
    var cgA, avA := cg.(blocks := cg.blocks + [EMPTY]), av + [L];
    AppendInv(u, cg, EMPTY);
    InvSuccs(u, cgA);
    OverflowSound(u.tgt, cgA, avA);
    var cg2 := MakeOverflow(u.tgt, cgA);
    MakeOverflowInv(u, cgA);
    InvSuccs(u, cg2);
    av' := if cgA.ovf.Some? then avA else avA + [{}];
    CheckEnds(u, cg, av, lo, scope, res, cg2, av', L, l);
  }

  lemma InvSuccs(u: Unit, cg: CG)
    requires Inv(u, cg)
    ensures SuccsOK(cg.blocks) && PhisOK(cg.blocks) && |u.tgt.stkOffset| == NUM_REGS == |cg.regs|
    ensures InRange(u, cg) && OverflowInRange(u.tgt, cg) && UnitOK(u)
  {
  }

  /** The end of the block that checks, and the start of the one that goes on. */
  lemma CheckEnds(u: Unit, cg: CG, av: seq<set<nat>>, lo: nat, scope: set<Lvar>, res: nat, cg2: CG,
                  av': seq<set<nat>>, L: set<nat>, l: nat)
    requires Inv(u, cg) && Open(cg) && KnowsHere(u, cg, av, lo, scope) && PhisOK(cg2.blocks)
    requires L == Live(Here(u.tgt, cg, av, lo), EmOf(cg)) == Out(u.tgt, av[cg.cur], cg.blocks[cg.cur])
    requires res + 1 in L && cg2 == MakeOverflow(u.tgt, cg.(blocks := cg.blocks + [EMPTY]))
    requires av' == av + [L] || av' == av + [L] + [{}]
    requires Sound(u.tgt, cg2.blocks, av', cg2.next) && cg2.ovf.Some? && OverflowInRange(u.tgt, cg2)
    requires u.n <= cg2.ovf.value < |av'| && av'[cg2.ovf.value] == {}
    ensures var cg' := BranchOnOverflow(u.tgt, cg, res);
            && Writing(u.tgt, cg', av', cg'.next) && KnowsHere(u, cg', av', cg'.next, scope)
            && L <= Live(Here(u.tgt, cg', av', cg'.next), EmOf(cg'))
    ensures Grew(u, cg, BranchOnOverflow(u.tgt, cg, res), av, av', l, l)
  {
    hide Sound, Ordered, OthersBelow, Live, IdsOf, HwArgs, AddIncoming, Known, PhisOK, SuccsOK, IdsOK, FragsOK,
         OverflowOK, NewPhis, Knows, Only;
    SoundSize(u.tgt, cg2.blocks, av', cg2.next);
    var ok, d := |cg.blocks|, cg2.ovf.value;
    var vs := HwArgs(u.tgt, cg2.regs);
    assert cg2.blocks[cg.cur] == cg.blocks[cg.cur];
    HwKnown(Here(u.tgt, cg, av, lo), Only(cg.vMap, scope), EmOf(cg));
    PhisSound(u.tgt, cg2, av', d, vs);
    var cg3, t := PhisFromHere(cg2, d, vs), CondBr(Temp(res + 1, INT(1)), d, ok);
    assert d != ok;
    PhisOut(u.tgt, cg2, av', d, vs);
    assert AllKnown(TermUses(t), L) by { TempKnown(res + 1, L); }
    EndSound(u.tgt, cg3, av', t);
    var cg4 := Terminate(cg3, t).(cur := ok);
    assert cg4.blocks[ok] == EMPTY;
    StartWriting(u.tgt, cg4, av');
    StartLive(u.tgt, cg4, av', cg4.next);
    CarryKnows(Here(u.tgt, cg, av, lo), EmOf(cg), Here(u.tgt, cg4, av', cg4.next), EmOf(cg4), Only(cg.vMap, scope));
    CheckGrew(u, cg, cg2, cg4, av, av', t, d, l);
  }

  lemma TempKnown(id: nat, live: set<nat>)
    requires id in live
    ensures AllKnown([Temp(id, INT(1))], live)
  {
  }

  /** Phi nodes told what comes in are still the same temporaries. */
  lemma PhisOut(tgt: Target, cg: CG, av: seq<set<nat>>, d: nat, vs: seq<Value>)
    requires |tgt.stkOffset| == NUM_REGS && d < |cg.blocks| == |av| && cg.cur < |cg.blocks|
    ensures var cg' := PhisFromHere(cg, d, vs);
            forall e :: 0 <= e < |av| ==> Out(tgt, av[e], cg'.blocks[e]) == Out(tgt, av[e], cg.blocks[e])
  {
    hide PhiIds, DefSet, AddIncoming;
    SamePhiIds(cg.blocks[d].phis, vs, cg.cur);
  }

  lemma HwKnown(b: Blk, vMap: VMap, em: Em)
    requires |b.tgt.stkOffset| == NUM_REGS && b.track && Knows(b, vMap, em)
    ensures AllKnown(HwArgs(b.tgt, em.regs), Live(b, em))
  {
    hide Live;
    HwArgsHave(b, em);
    AllHad(b, em, HwArgs(b.tgt, em.regs));
  }

  /** At the start of an empty block. */
  lemma StartLive(tgt: Target, cg: CG, av: seq<set<nat>>, lo: nat)
    requires |tgt.stkOffset| == NUM_REGS && cg.cur < |cg.blocks| == |av| && cg.blocks[cg.cur].instrs == []
    ensures Live(Here(tgt, cg, av, lo), EmOf(cg)) == av[cg.cur] + PhiIds(cg.blocks[cg.cur].phis)
  {
  }

  lemma CheckGrew(u: Unit, cg: CG, cg2: CG, cg4: CG, av: seq<set<nat>>, av': seq<set<nat>>, t: Terminator, d: nat,
                  l: nat)
    requires cg.cur < |cg.blocks| == |av| && u.n <= |cg.blocks| <= |cg2.blocks| == |cg4.blocks| == |av'|
    requires forall b :: 0 <= b < |cg.blocks| && b != cg.cur ==> cg4.blocks[b].term == cg.blocks[b].term
    requires forall b :: |cg.blocks| <= b < |cg4.blocks| && cg4.blocks[b].term.Some? ==>
               Succs(cg4.blocks[b].term.value) == []
    requires cg4.blocks[cg.cur].term == Some(t) && (forall e :: e in Succs(t) ==> u.n <= e) && av <= av'
    requires cg4.ovf == Some(d) && u.n <= d < |av'| && av'[d] == {}
    ensures Grew(u, cg, cg4, av, av', l, l)
  {
    forall b: nat, e: nat | HasEdge(cg4.blocks, b, e)
      ensures HasEdge(cg.blocks, b, e) || u.n <= e
    {
    }
  }

  // ----- arithmetic, and the ends of blocks -----

  lemma ArithWrites(u: Unit, cg: CG, av: seq<set<nat>>, lo: nat, scope: set<Lvar>, arith: ArithOp, args: seq<Exp>,
                    p: Param, l: nat) returns (av': seq<set<nat>>, lo': nat)
    requires Inv(u, cg) && InRange(u, cg) && Writing(u.tgt, cg, av, lo) && KnowsHere(u, cg, av, lo, scope)
    requires cg.ovf.Some? ==> u.n <= cg.ovf.value < |av| && av[cg.ovf.value] == {}
    requires ScopedAll(u.fns, args, scope) && p.name !in cg.vMap
    ensures var cg' := GenArithStm(u, cg, arith, args, p);
            Writing(u.tgt, cg', av', lo') && KnowsHere(u, cg', av', lo', scope + {p.name})
    ensures Grew(u, cg, GenArithStm(u, cg, arith, args, p), av, av', l, l)
  {
    hide Writing, GenExps, Goes, HasRegs, HasVars, HasAll, Only, ScopedAll, Inv, Grew, GenArith;
    ArgsWrite(u, cg, av, lo, scope, args);
    var a := GenExps(u.tgt, cg.vMap, EmOf(cg), args);
    var cg1 := WithEm(cg, a.em);
    OpenHere(u, cg, av, lo);
    ArgsKeep(u, cg, a.em);
    var v := GenArith(u.tgt, cg1, arith, a.vs);
    av', lo' := OperatorWrites(u, cg1, av, lo, scope, arith, a.vs, l);
    BindKnows(Here(u.tgt, v.cg, av', lo'), v.cg.vMap, EmOf(v.cg), scope, p.name, v.v);
    SameWriting(u, v.cg, av', lo', InsertVal(v.cg.vMap, p.name, v.v));
    GrewFrom(u, cg, cg1, v.cg, InsertVal(v.cg.vMap, p.name, v.v), av, av', l);
  }

  lemma ArgsKeep(u: Unit, cg: CG, em: Em)
    requires Inv(u, cg) && Open(cg) && Grows(EmOf(cg), em)
    ensures Inv(u, WithEm(cg, em)) && InRange(u, WithEm(cg, em)) && Open(WithEm(cg, em))
  {
    hide PhisOK, SuccsOK, IdsOK, FragsOK, OverflowOK;
    WithEmInv(u, cg, em);
  }

  lemma GrewFrom(u: Unit, cg: CG, cg1: CG, cg': CG, vMap: VMap, av: seq<set<nat>>, av': seq<set<nat>>, l: nat)
    requires Grew(u, cg1, cg', av, av', l, l) && Quiet(cg, cg1)
    ensures Grew(u, cg, cg'.(vMap := vMap), av, av', l, l)
  {
    forall b: nat, d: nat
      ensures HasEdge(cg1.blocks, b, d) == HasEdge(cg.blocks, b, d)
    {
    }
  }

  lemma OperatorWrites(u: Unit, cg: CG, av: seq<set<nat>>, lo: nat, scope: set<Lvar>, arith: ArithOp, vs: seq<Value>,
                       l: nat) returns (av': seq<set<nat>>, lo': nat)
    requires Inv(u, cg) && InRange(u, cg) && Writing(u.tgt, cg, av, lo) && KnowsHere(u, cg, av, lo, scope)
    requires HasAll(Here(u.tgt, cg, av, lo), EmOf(cg), vs)
    requires cg.ovf.Some? ==> u.n <= cg.ovf.value < |av| && av[cg.ovf.value] == {}
    ensures var v := GenArith(u.tgt, cg, arith, vs);
            && Writing(u.tgt, v.cg, av', lo') && KnowsHere(u, v.cg, av', lo', scope) && v.cg.vMap == cg.vMap
            && Has(Here(u.tgt, v.cg, av', lo'), EmOf(v.cg), v.v)
    ensures Grew(u, cg, GenArith(u.tgt, cg, arith, vs).cg, av, av', l, l)
  {
    hide Writing, Goes, HasRegs, HasVars, HasAll, Only, Inv, Grew, BranchOnOverflow, ArithCode, AsInts, Live;
    var b := Here(u.tgt, cg, av, lo);
    OpenHere(u, cg, av, lo);
    if arith.checked {
      var em := ArithCode(EmOf(cg), arith, vs);
      ArithCodeGoes(b, EmOf(cg), arith, vs);
      StillKnows(u, cg, av, lo, scope, em, true);
      ArgsKeep(u, cg, em);
      av' := CheckWrites(u, WithEm(cg, em), av, lo, scope, em.next - 2, l);
      var cg' := BranchOnOverflow(u.tgt, WithEm(cg, em), em.next - 2);
      lo' := cg'.next;
      BranchMap(u.tgt, WithEm(cg, em), em.next - 2);
      GrewFrom(u, cg, WithEm(cg, em), cg', cg'.vMap, av, av', l);
    } else {
      var a := AsInts(EmOf(cg), vs, arith.sz);
      var d := Def(a.em, DivOp(arith.code), a.vs, INT(arith.sz));
      DivGoes(b, EmOf(cg), arith, vs);
      StillKnows(u, cg, av, lo, scope, d.em, true);
      av', lo' := av, lo;
      QuietIs(u, cg, WithEm(cg, d.em), av, l);
    }
  }

  lemma BranchMap(tgt: Target, cg: CG, res: nat)
    requires |tgt.stkOffset| == NUM_REGS == |cg.regs| && cg.cur < |cg.blocks| && OverflowInRange(tgt, cg)
    ensures BranchOnOverflow(tgt, cg, res).vMap == cg.vMap
  {
    hide HwArgs, AddIncoming, NewPhis;
  }

  lemma OpenHere(u: Unit, cg: CG, av: seq<set<nat>>, lo: nat)
    requires Writing(u.tgt, cg, av, lo)
    ensures Open(cg) && |u.tgt.stkOffset| == NUM_REGS && |av| == |cg.blocks| && Here(u.tgt, cg, av, lo).track
  {
  }

  lemma QuietIs(u: Unit, cg: CG, cg': CG, av: seq<set<nat>>, l: nat)
    requires Quiet(cg, cg') && |av| == |cg.blocks|
    requires cg.ovf.Some? ==> u.n <= cg.ovf.value < |av| && av[cg.ovf.value] == {}
    ensures Grew(u, cg, cg', av, av, l, l)
  {
    forall b: nat, d: nat
      ensures HasEdge(cg'.blocks, b, d) == HasEdge(cg.blocks, b, d)
    {
    }
  }

  /** Ending a block with edges that need nothing: to entries of fragments or to blocks that the generator added. */
  lemma EndGrew(u: Unit, cg: CG, av: seq<set<nat>>, lo: nat, hi: nat, t: Terminator)
    requires Open(cg) && Targets(u, cg, av, lo, hi, [], {})
    requires forall d :: d in Succs(t) ==> d in u.bbs || u.n <= d
    ensures Grew(u, cg, Terminate(cg, t), av, av, lo, lo)
  {
    var cg' := Terminate(cg, t);
    forall b: nat, d: nat | HasEdge(cg'.blocks, b, d)
      ensures HasEdge(cg.blocks, b, d) || d in u.bbs || u.n <= d
    {
    }
  }

  lemma CallSound(u: Unit, cg: CG, av: seq<set<nat>>, base: nat, scope: set<Lvar>, f: Exp, kind: FragKind,
                  kind': FragKind, args: seq<Exp>, tys: seq<Ty>, lo: nat, hi: nat)
    requires InRange(u, cg) && Writing(u.tgt, cg, av, base) && KnowsHere(u, cg, av, base, scope)
    requires Targets(u, cg, av, lo, hi, [], {})
    requires Scoped(u.fns, f, scope) && ScopedAll(u.fns, args, scope)
    requires |args| == |if f.LABEL? then u.fns[f.lab].paramTys else tys|
    ensures var cg' := GenCall(u, cg, GenCallee(u, cg.vMap, EmOf(cg), f, kind, tys), kind', args);
            Sound(u.tgt, cg'.blocks, av, cg'.next) && Grew(u, cg, cg', av, av, lo, lo)
  {
    hide Writing, GenCallee, GenCastExps, Goes, Has, HasRegs, HasVars, HasAll, Only, ScopedAll, ExpFits, ExpTy, AllFit,
         CastsFit, ArgTys, HwArgs, Grew, Targets;
    var b, vm := Here(u.tgt, cg, av, base), Only(cg.vMap, scope);
    var t := TysFor(vm, EmOf(cg));
    var c := GenCallee(u, cg.vMap, EmOf(cg), f, kind, tys);
    CalleeScopedSame(u, cg.vMap, EmOf(cg), f, kind, tys, scope);
    CalleeGoes(b, u, vm, EmOf(cg), f, kind, tys, t);
    assert |c.tys| == |args| && args[..|args|] == args;
    CastScopedSame(u.tgt, u.fns, cg.vMap, c.em, args, c.tys, scope);
    CastExpsGoes(b, vm, c.em, args, c.tys, t);
    var a := GenCastExps(u.tgt, cg.vMap, c.em, args, c.tys);
    var fits1 := (f.LABEL? && f.lab in u.fns) || (ExpFits(t, f) && ExpTy(t, f) == PTR);
    var fits2 := AllFit(t, args) && CastsFit(ArgTys(t, args), c.tys);
    GoesTrans(b, EmOf(cg), c.em, a.em, fits1, fits2);
    StillKnows(u, cg, av, base, scope, a.em, fits1 && fits2);
    OneStays(b, c.em, a.em, fits2, c.fn);
    CallUses(u, cg, av, base, scope, a.em, c.fn, a.vs, kind', lo, hi);
  }

  /** The call at the end, when all that it passes is known. */
  lemma CallUses(u: Unit, cg: CG, av: seq<set<nat>>, base: nat, scope: set<Lvar>, em: Em, fn: Value, vs: seq<Value>,
                 kind: FragKind, lo: nat, hi: nat)
    requires InRange(u, cg) && Targets(u, cg, av, lo, hi, [], {}) && em.regs == cg.regs
    requires Writing(u.tgt, WithEm(cg, em), av, base) && KnowsHere(u, WithEm(cg, em), av, base, scope)
    requires var b := Here(u.tgt, WithEm(cg, em), av, base); Has(b, em, fn) && HasAll(b, em, vs)
    ensures var cg' := Terminate(WithEm(cg, em), TailCall(fn, HwArgs(u.tgt, cg.regs) + Unused(kind) + vs));
            Sound(u.tgt, cg'.blocks, av, cg'.next) && Grew(u, cg, cg', av, av, lo, lo)
  {
    hide Sound, Ordered, OthersBelow, HasRegs, HasVars, Only, HwArgs, Grew, Targets, Live, IdsOf;
    var cg1 := WithEm(cg, em);
    var b, hw := Here(u.tgt, cg1, av, base), HwArgs(u.tgt, cg.regs);
    assert EmOf(cg1) == em;
    HwArgsHave(b, em);
    assert HasAll(b, em, Unused(kind));
    HasBoth(b, em, hw, Unused(kind));
    HasBoth(b, em, hw + Unused(kind), vs);
    HasBoth(b, em, [fn], hw + Unused(kind) + vs);
    AllHad(b, em, [fn] + (hw + Unused(kind) + vs));
    LiveIsOut(u.tgt, cg1, av, base);
    var t := TailCall(fn, hw + Unused(kind) + vs);
    EndSound(u.tgt, cg1, av, t);
    QuietGrew(u, cg, cg1, av, lo, hi);
    EndGrew(u, cg1, av, lo, hi, t);
    GrewTrans(u, cg, cg1, Terminate(cg1, t), av, av, av, lo, lo, lo, lo, lo, lo);
  }

  lemma GotoSound(u: Unit, cg: CG, av: seq<set<nat>>, base: nat, scope: set<Lvar>, i: nat, args: seq<Exp>, lo: nat,
                  hi: nat)
    requires Inv(u, cg) && InRange(u, cg) && Writing(u.tgt, cg, av, base) && KnowsHere(u, cg, av, base, scope)
    requires Targets(u, cg, av, lo, hi, [], {}) && ScopedAll(u.fns, args, scope) && i < |u.bbs| && u.bbs[i] < |av|
    ensures var cg' := GenGoto(u, cg, u.bbs[i], args);
            Sound(u.tgt, cg'.blocks, av, cg'.next) && Grew(u, cg, cg', av, av, lo, lo)
  {
    hide Writing, GenExps, CastAll, Goes, HasRegs, HasVars, Only, ScopedAll, CastsFit, HwArgs, Grew, Targets, TysOf,
         PhiTys, Inv;
    var b, d := Here(u.tgt, cg, av, base), u.bbs[i];
    ArgsWrite(u, cg, av, base, scope, args);
    var a := GenExps(u.tgt, cg.vMap, EmOf(cg), args);
    OpenHere(u, cg, av, base);
    HwArgsHave(b, a.em);
    var vs, tys := HwArgs(u.tgt, cg.regs) + a.vs, PhiTys(cg.blocks[d].phis);
    HasBoth(b, a.em, HwArgs(u.tgt, cg.regs), a.vs);
    var vs' := vs[..if |vs| <= |tys| then |vs| else |tys|];
    HasTake(b, a.em, vs, |vs'|);
    CastAllGoes(b, a.em, vs', tys);
    var c := CastAll(a.em, vs', tys);
    RegsStay(b, a.em, c.em, CastsFit(TysOf(vs'), tys));
    StillKnows(u, WithEm(cg, a.em), av, base, scope, c.em, CastsFit(TysOf(vs'), tys));
    WithEmTwice(cg, a.em, c.em);
    ArgsKeep(u, cg, c.em);
    JumpSound(u, cg, av, base, d, c, lo, hi);
  }

  lemma HasTake(b: Blk, em: Em, vs: seq<Value>, n: nat)
    requires |b.tgt.stkOffset| == NUM_REGS && HasAll(b, em, vs) && n <= |vs|
    ensures HasAll(b, em, vs[..n])
  {
    hide Has;
  }

  lemma JumpSound(u: Unit, cg: CG, av: seq<set<nat>>, base: nat, d: nat, c: EVs, lo: nat, hi: nat)
    requires cg.cur < |cg.blocks| && Inv(u, WithEm(cg, c.em)) && d in u.bbs && d < |av|
    requires Targets(u, cg, av, lo, hi, [], {}) && Writing(u.tgt, WithEm(cg, c.em), av, base)
    requires HasAll(Here(u.tgt, WithEm(cg, c.em), av, base), c.em, c.vs)
    ensures var cg' := Terminate(PhisFromHere(WithEm(cg, c.em), d, c.vs), Br(d));
            Sound(u.tgt, cg'.blocks, av, cg'.next) && Grew(u, cg, cg', av, av, lo, lo)
  {
    hide Sound, Ordered, OthersBelow, AddIncoming, Grew, Live, IdsOf, Known, HasAll;
    var cg1 := WithEm(cg, c.em);
    var b := Here(u.tgt, cg1, av, base);
    assert EmOf(cg1) == c.em;
    InvSuccs(u, cg1);
    AllHad(b, c.em, c.vs);
    LiveIsOut(u.tgt, cg1, av, base);
    PhisSound(u.tgt, cg1, av, d, c.vs);
    var cg2 := PhisFromHere(cg1, d, c.vs);
    PhisOut(u.tgt, cg1, av, d, c.vs);
    assert av[d] == {};
    EndSound(u.tgt, cg2, av, Br(d));
    assert Quiet(cg, cg2);
    QuietGrew(u, cg, cg2, av, lo, hi);
    EndGrew(u, cg2, av, lo, hi, Br(d));
    GrewTrans(u, cg, cg2, Terminate(cg2, Br(d)), av, av, av, lo, lo, lo, lo, lo, lo);
  }

  // ----- splits -----

  /** From now on L is known at the blocks of bbs. */
  function Supply(av: seq<set<nat>>, bbs: seq<nat>, L: set<nat>): (av': seq<set<nat>>)
    ensures |av'| == |av|
  {
    seq(|av|, d requires 0 <= d < |av| => if d in bbs then L else av[d])
  }

  /** Registers and variables in scope hold what is known where exactly L is known. */
  ghost predicate KnownAt(u: Unit, vMap: VMap, regs: seq<Option<Value>>, L: set<nat>, scope: set<Lvar>) {
    |u.tgt.stkOffset| == NUM_REGS && Knows(Blk(u.tgt, true, L, 0), Only(vMap, scope), Em([], 0, regs))
  }

  /** Ending a block with edges to arms. */
  lemma SplitSound(u: Unit, cg: CG, av: seq<set<nat>>, base: nat, lo: nat, hi: nat, bbs: seq<nat>, t: Terminator,
                   L: set<nat>)
    requires Writing(u.tgt, cg, av, base) && Targets(u, cg, av, lo, hi, [], {}) && !(lo <= cg.cur < hi)
    requires (forall i :: 0 <= i < |bbs| ==> lo <= bbs[i] < hi) && L == Out(u.tgt, av[cg.cur], cg.blocks[cg.cur])
    requires forall d :: d in Succs(t) ==> d in bbs || (u.n <= d && (d < |av| ==> av[d] == {}))
    requires AllKnown(TermUses(t), L)
    ensures var cg', av' := Terminate(cg, t), Supply(av, bbs, L);
            && Sound(u.tgt, cg'.blocks, av', cg'.next) && Targets(u, cg', av', lo, hi, bbs, L)
            && Grew(u, cg, cg', av, av', lo, hi)
  {
    hide SetOnce, IdsBelow, AllUsesKnown, PhisSupplied, EdgesSupply, IdsOf, Ordered, OthersBelow, Known;
    var av' := Supply(av, bbs, L);
    Widen(u.tgt, cg.blocks, av, av', cg.next);
    EndSound(u.tgt, cg, av', t);
    var cg' := Terminate(cg, t);
    forall b: nat, d: nat | HasEdge(cg'.blocks, b, d)
      ensures HasEdge(cg.blocks, b, d) || d in Succs(t)
    {
    }
  }

  lemma HereKnown(u: Unit, cg: CG, av: seq<set<nat>>, base: nat, scope: set<Lvar>)
    requires KnowsHere(u, cg, av, base, scope)
    ensures KnownAt(u, cg.vMap, cg.regs, Out(u.tgt, av[cg.cur], cg.blocks[cg.cur]), scope)
  {
    hide Live, Knows, Only, IdsOf;
    var L := Out(u.tgt, av[cg.cur], cg.blocks[cg.cur]);
    LiveIsOut(u.tgt, cg, av, base);
    NoCode(Blk(u.tgt, true, L, 0), Em([], 0, cg.regs));
    CarryKnows(Here(u.tgt, cg, av, base), EmOf(cg), Blk(u.tgt, true, L, 0), Em([], 0, cg.regs), Only(cg.vMap, scope));
  }

  lemma NoCode(b: Blk, em: Em)
    requires |b.tgt.stkOffset| == NUM_REGS && em.code == []
    ensures Live(b, em) == b.avail
  {
  }

  /** Variables in scope keep their values when others are bound. */
  lemma OnlyScope(vMap: VMap, vMap': VMap, binders: set<Lvar>, scope: set<Lvar>)
    requires MapExt(vMap, vMap', binders) && scope <= vMap.Keys
    ensures Only(vMap', scope) == Only(vMap, scope)
  {
  }

  lemma BranchSound(u: Unit, cg: CG, av: seq<set<nat>>, base: nat, scope: set<Lvar>, test: BranchOp, args: seq<Exp>,
                    lo: nat, mid: nat, hi: nat) returns (av': seq<set<nat>>, L: set<nat>)
    requires InRange(u, cg) && Writing(u.tgt, cg, av, base) && KnowsHere(u, cg, av, base, scope)
    requires Targets(u, cg, av, lo, hi, [], {}) && !(lo <= cg.cur < hi) && ScopedAll(u.fns, args, scope)
    requires lo <= mid < hi
    ensures var cg' := GenCondBr(u, cg, test, args, lo, mid);
            && Sound(u.tgt, cg'.blocks, av', cg'.next) && Targets(u, cg', av', lo, hi, [lo, mid], L)
            && Grew(u, cg, cg', av, av', lo, hi) && KnownAt(u, cg'.vMap, cg'.regs, L, scope)
  {
    hide Writing, GenExps, GenBranch, Goes, HasRegs, HasVars, HasAll, Only, ScopedAll, Targets, Grew, Sound, IdsOf,
         Live, Known, KnownAt;
    ArgsWrite(u, cg, av, base, scope, args);
    var a := GenExps(u.tgt, cg.vMap, EmOf(cg), args);
    var b, v := Here(u.tgt, cg, av, base), GenBranch(u.tgt, a.em, test, a.vs);
    BranchGoes(b, a.em, test, a.vs);
    StillKnows(u, WithEm(cg, a.em), av, base, scope, v.em, true);
    WithEmTwice(cg, a.em, v.em);
    var cg1 := WithEm(cg, v.em);
    HereKnown(u, cg1, av, base, scope);
    L := Out(u.tgt, av[cg1.cur], cg1.blocks[cg1.cur]);
    LiveIsOut(u.tgt, cg1, av, base);
    OneKnown(b, v.em, v.v);
    av' := Supply(av, [lo, mid], L);
    QuietGrew(u, cg, cg1, av, lo, hi);
    SplitSound(u, cg1, av, base, lo, hi, [lo, mid], CondBr(v.v, lo, mid), L);
    GrewTrans(u, cg, cg1, Terminate(cg1, CondBr(v.v, lo, mid)), av, av, av', lo, hi, lo, lo, lo, hi);
  }

  lemma OneKnown(b: Blk, em: Em, v: Value)
    requires |b.tgt.stkOffset| == NUM_REGS && b.track && Has(b, em, v)
    ensures AllKnown([v], Live(b, em))
  {
  }

  lemma SwitchSound(u: Unit, cg: CG, av: seq<set<nat>>, base: nat, scope: set<Lvar>, e: Exp, bbs: seq<nat>, lo: nat,
                    hi: nat) returns (av': seq<set<nat>>, L: set<nat>)
    requires Inv(u, cg) && InRange(u, cg) && Writing(u.tgt, cg, av, base) && KnowsHere(u, cg, av, base, scope)
    requires Targets(u, cg, av, lo, hi, [], {}) && !(lo <= cg.cur < hi) && Scoped(u.fns, e, scope)
    requires forall i :: 0 <= i < |bbs| ==> lo <= bbs[i] < hi
    ensures var cg' := GenSwitch(u, cg, e, bbs);
            && Sound(u.tgt, cg'.blocks, av', cg'.next) && Targets(u, cg', av', lo, hi, bbs, L)
            && Grew(u, cg, cg', av, av', lo, hi) && KnownAt(u, cg'.vMap, cg'.regs, L, scope)
  {
    hide Writing, GenExp, Goes, Has, HasRegs, HasVars, HasAll, Only, Scoped, Targets, Grew, Sound, IdsOf, Live, Known,
         KnownAt, AsInt, ExpFits, Inv;
    var b, vm := Here(u.tgt, cg, av, base), Only(cg.vMap, scope);
    OpenHere(u, cg, av, base);
    ScopedSame(u.tgt, u.fns, cg.vMap, EmOf(cg), e, scope);
    var fits := ExpFits(TysFor(vm, EmOf(cg)), e);
    ExpGoes(b, vm, EmOf(cg), e, TysFor(vm, EmOf(cg)));
    var v := GenExp(u.tgt, cg.vMap, EmOf(cg), e);
    var i := AsInt(v.em, v.v, Native(u.tgt));
    CastGoes(b, v.em, v.v, PTR, Native(u.tgt));
    var t := Def(i.em, Trunc32Op, [i.v], INT(32));
    HasOne(b, i.em, i.v);
    DefGoes(b, i.em, Trunc32Op, [i.v], INT(32));
    GoesTrans(b, EmOf(cg), v.em, i.em, fits, true);
    GoesTrans(b, EmOf(cg), i.em, t.em, fits, true);
    RegsStay(b, EmOf(cg), t.em, fits);
    StillKnows(u, cg, av, base, scope, t.em, fits);
    ArgsKeep(u, cg, t.em);
    OneKnown(b, t.em, t.v);
    QuietIs(u, cg, WithEm(cg, t.em), av, lo) by { TargetsOvf(u, cg, av, lo, hi); }
    QuietGrew(u, cg, WithEm(cg, t.em), av, lo, hi);
    av', L := SwitchEnds(u, WithEm(cg, t.em), av, base, scope, t.v, bbs, lo, hi);
    GrewTrans(u, cg, WithEm(cg, t.em), GenSwitch(u, cg, e, bbs), av, av, av', lo, hi, lo, lo, lo, hi);
  }

  lemma HasOne(b: Blk, em: Em, v: Value)
    requires |b.tgt.stkOffset| == NUM_REGS && Has(b, em, v)
    ensures HasAll(b, em, [v])
  {
  }

  lemma TargetsOvf(u: Unit, cg: CG, av: seq<set<nat>>, lo: nat, hi: nat)
    requires Targets(u, cg, av, lo, hi, [], {})
    ensures |av| == |cg.blocks| && u.n <= |av|
    ensures cg.ovf.Some? ==> u.n <= cg.ovf.value < |av| && av[cg.ovf.value] == {}
  {
  }

  /** The default block of a switch is new, and unreachable in the CFG. */
  lemma SwitchEnds(u: Unit, cg: CG, av: seq<set<nat>>, base: nat, scope: set<Lvar>, v: Value, bbs: seq<nat>, lo: nat,
                   hi: nat) returns (av': seq<set<nat>>, L: set<nat>)
    requires Inv(u, cg) && Writing(u.tgt, cg, av, base) && KnowsHere(u, cg, av, base, scope)
    requires Targets(u, cg, av, lo, hi, [], {}) && !(lo <= cg.cur < hi)
    requires AllKnown([v], Live(Here(u.tgt, cg, av, base), EmOf(cg)))
    requires forall i :: 0 <= i < |bbs| ==> lo <= bbs[i] < hi
    ensures var cgB := cg.(blocks := cg.blocks + [EMPTY.(term := Some(Unreachable))]);
            var cg' := Terminate(cgB, Switch(v, bbs, |cg.blocks|));
            && Sound(u.tgt, cg'.blocks, av', cg'.next) && Targets(u, cg', av', lo, hi, bbs, L)
            && Grew(u, cg, cg', av, av', lo, hi) && KnownAt(u, cg'.vMap, cg'.regs, L, scope)
  {
    hide Sound, OthersBelow, Ordered, Live, Known, KnownAt, Only, Targets, Grew, IdsOf, PhisOK, IdsOK, FragsOK,
         OverflowOK, SuccsOK;
    var blk := EMPTY.(term := Some(Unreachable));
    var cgB, avB, t := cg.(blocks := cg.blocks + [blk]), av + [{}], Switch(v, bbs, |cg.blocks|);
    InvSuccs(u, cg);
    EmptySound(u.tgt, cg.blocks, av, cg.next, Some(Unreachable), {});
    BlockWriting(u, cg, av, base, blk);
    BlockGrew(u, cg, av, lo, hi, blk);
    HereKnown(u, cg, av, base, scope);
    LiveIsOut(u.tgt, cg, av, base);
    L := Out(u.tgt, av[cg.cur], cg.blocks[cg.cur]);
    av' := Supply(avB, bbs, L);
    TargetsOvf(u, cg, av, lo, hi);
    SplitSound(u, cgB, avB, base, lo, hi, bbs, t, L);
    GrewTrans(u, cg, cgB, Terminate(cgB, t), av, avB, av', lo, hi, lo, lo, lo, hi);
  }

  lemma BlockWriting(u: Unit, cg: CG, av: seq<set<nat>>, base: nat, blk: Block)
    requires Writing(u.tgt, cg, av, base) && Sound(u.tgt, cg.blocks + [blk], av + [{}], cg.next)
    requires blk.phis == [] && blk.instrs == []
    ensures Writing(u.tgt, cg.(blocks := cg.blocks + [blk]), av + [{}], base)
  {
    hide Sound, Ordered, DefSet;
    SoundSize(u.tgt, cg.blocks, av, cg.next);
    NoDefs(u.tgt);
    assert PhiIds(blk.phis) == {};
    var cg' := cg.(blocks := cg.blocks + [blk]);
    assert Here(u.tgt, cg', av + [{}], base) == Here(u.tgt, cg, av, base);
  }

  lemma NoDefs(tgt: Target)
    requires |tgt.stkOffset| == NUM_REGS
    ensures DefSet(tgt, []) == {}
  {
  }

  lemma BlockGrew(u: Unit, cg: CG, av: seq<set<nat>>, lo: nat, hi: nat, blk: Block)
    requires Targets(u, cg, av, lo, hi, [], {}) && blk.term == Some(Unreachable)
    ensures var cg' := cg.(blocks := cg.blocks + [blk]);
            Grew(u, cg, cg', av, av + [{}], lo, lo) && Targets(u, cg', av + [{}], lo, hi, [], {})
  {
    var cg' := cg.(blocks := cg.blocks + [blk]);
    forall b: nat, d: nat
      ensures HasEdge(cg'.blocks, b, d) == HasEdge(cg.blocks, b, d)
    {
    }
  }

  /** At the start of an arm. */
  lemma ArmStarts(u: Unit, cg: CG, av: seq<set<nat>>, bb: nat, regs: seq<Option<Value>>, scope: set<Lvar>)
    requires Sound(u.tgt, cg.blocks, av, cg.next) && bb < |cg.blocks| == |av| && cg.blocks[bb] == EMPTY
    requires KnownAt(u, cg.vMap, regs, av[bb], scope)
    ensures Writing(u.tgt, AtArm(cg, bb, regs), av, cg.next) && KnowsHere(u, AtArm(cg, bb, regs), av, cg.next, scope)
  {
    hide Sound, Ordered, OthersBelow, Live, Knows, Only;
    var a := AtArm(cg, bb, regs);
    StartWriting(u.tgt, a, av);
    StartLive(u.tgt, a, av, cg.next);
    NoCode(Blk(u.tgt, true, av[bb], 0), Em([], 0, regs));
    CarryKnows(Blk(u.tgt, true, av[bb], 0), Em([], 0, regs), Here(u.tgt, a, av, cg.next), EmOf(a),
               Only(cg.vMap, scope));
  }
}
