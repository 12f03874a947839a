/** The types of phi nodes and the conversions that the code generator refuses. Both can be read off the
    source: whether all values passed to phi nodes have the right types, and whether the generator gets
    through without a refused conversion, at which the original stops. */
module Typing {
  import opened Machine
  import opened CFG
  import opened IR
  import opened Codegen
  import opened ValueTypes
  import opened Emission
  import opened Invariants
  import opened Structure
  import opened ClusterGen
  import opened SharedOverflow
  import opened SourceTypes

  // ----- in the generated code -----

  ghost predicate TypedPhi(phi: Phi) {
    forall k :: 0 <= k < |phi.vals| ==> phi.vals[k].TyOf() == LLTy(phi.ty)
  }

  ghost predicate TypedBlock(b: Block) {
    forall i :: 0 <= i < |b.phis| ==> TypedPhi(b.phis[i])
  }

  /** Every incoming value has the type of its phi node. */
  ghost predicate AllTyped(blocks: seq<Block>) {
    forall d :: 0 <= d < |blocks| ==> TypedBlock(blocks[d])
  }

  ghost predicate NothingRefused(blocks: seq<Block>) {
    forall d :: 0 <= d < |blocks| ==> Clean(blocks[d].instrs)
  }

  ghost predicate GotosTyped(cg: CG) {
    forall d :: 0 <= d < |cg.blocks| && cg.ovf != Some(d) ==> TypedBlock(cg.blocks[d])
  }

  ghost predicate ChecksTyped(cg: CG) {
    cg.ovf.Some? && cg.ovf.value < |cg.blocks| ==> TypedBlock(cg.blocks[cg.ovf.value])
  }

  ghost function TypesOf(cg: CG): Types {
    Types(VarTys(cg.vMap), RegTys(cg.regs), GotosTyped(cg), ChecksTyped(cg), NothingRefused(cg.blocks))
  }

  /** The phi nodes have the types that initialisation gave them, those of the overflow block are pointers,
      and so are the heap registers. */
  ghost predicate Fitted(u: Unit, cg: CG) {
    && |u.tgt.stkOffset| == NUM_REGS && |u.bbs| == |u.cl|
    && (cg.ovf.Some? ==>
          u.n <= cg.ovf.value < |cg.blocks|
          && var phis := cg.blocks[cg.ovf.value].phis; PhiTys(phis) == Ptrs(|phis|))
    && (forall i :: 0 <= i < |u.bbs| ==>
          u.bbs[i] < |cg.blocks| && PhiTys(cg.blocks[u.bbs[i]].phis) == EntryTys(u.tgt, u.cl[i]))
    && HeapPtrs(RegTys(cg.regs))
  }

  /** Where temporaries are not tracked, everything is known. */
  function Free(tgt: Target): Blk {
    Blk(tgt, false, {}, 0)
  }

  lemma AllFree(tgt: Target, vMap: VMap, em: Em, vs: seq<Value>)
    requires |tgt.stkOffset| == NUM_REGS == |em.regs|
    ensures Knows(Free(tgt), vMap, em) && HasAll(Free(tgt), em, vs)
  {
  }

  // ----- edits of the current block -----

  /** From cg to cg', only the code of the current block grew, and blocks without phi nodes and without
      instructions were added. */
  ghost predicate Edits(cg: CG, cg': CG, fits: bool) {
    && cg.cur < |cg.blocks| <= |cg'.blocks| && cg'.ovf == cg.ovf
    && (forall d :: 0 <= d < |cg.blocks| ==> cg'.blocks[d].phis == cg.blocks[d].phis)
    && (forall d :: 0 <= d < |cg.blocks| && d != cg.cur ==> cg'.blocks[d].instrs == cg.blocks[d].instrs)
    && (forall d :: |cg.blocks| <= d < |cg'.blocks| ==> cg'.blocks[d].phis == [] && cg'.blocks[d].instrs == [])
    && Clean(cg'.blocks[cg.cur].instrs) == (Clean(cg.blocks[cg.cur].instrs) && fits)
  }

  lemma SamePhisTyped(b: Block, b': Block)
    requires b'.phis == b.phis
    ensures TypedBlock(b') == TypedBlock(b)
  {
  }

  lemma EmptyTyped(b: Block)
    ensures b.phis == [] ==> TypedBlock(b)
    ensures b.instrs == [] ==> Clean(b.instrs)
  {
  }

  lemma EditGotos(cg: CG, cg': CG, fits: bool)
    requires Edits(cg, cg', fits) && (cg.ovf.Some? ==> cg.ovf.value < |cg.blocks|)
    ensures GotosTyped(cg') == GotosTyped(cg) && ChecksTyped(cg') == ChecksTyped(cg)
  {
    hide TypedBlock, Clean;
    forall d | 0 <= d < |cg'.blocks|
      ensures TypedBlock(cg'.blocks[d]) == (d < |cg.blocks| ==> TypedBlock(cg.blocks[d]))
    {
      if d < |cg.blocks| {
        SamePhisTyped(cg.blocks[d], cg'.blocks[d]);
      } else {
        EmptyTyped(cg'.blocks[d]);
      }
    }
  }

  lemma EditRefused(cg: CG, cg': CG, fits: bool)
    requires Edits(cg, cg', fits)
    ensures NothingRefused(cg'.blocks) == (NothingRefused(cg.blocks) && fits)
  {
    hide Clean;
    forall d | |cg.blocks| <= d < |cg'.blocks|
      ensures Clean(cg'.blocks[d].instrs)
    {
      EmptyTyped(cg'.blocks[d]);
    }
    if NothingRefused(cg'.blocks) {
      forall d | 0 <= d < |cg.blocks|
        ensures Clean(cg.blocks[d].instrs)
      {
        assert Clean(cg'.blocks[d].instrs);
      }
    }
  }

  lemma EditTypes(u: Unit, cg: CG, cg': CG, fits: bool)
    requires Fitted(u, cg) && Edits(cg, cg', fits) && HeapPtrs(RegTys(cg'.regs))
    ensures Fitted(u, cg')
    ensures var t := TypesOf(cg);
            TypesOf(cg') == Types(VarTys(cg'.vMap), RegTys(cg'.regs), t.gotos, t.checks, t.fits && fits)
  {
    hide GotosTyped, ChecksTyped, NothingRefused, Clean, VarTys, RegTys, HeapPtrs, EntryTys;
    EditGotos(cg, cg', fits);
    EditRefused(cg, cg', fits);
  }

  /** Replacing the code of the current block, as every step does. */
  lemma WithEmEdits(tgt: Target, cg: CG, em: Em, fits: bool)
    requires |tgt.stkOffset| == NUM_REGS && cg.cur < |cg.blocks| && Goes(Free(tgt), EmOf(cg), em, fits)
    ensures Edits(cg, WithEm(cg, em), fits)
  {
  }

  // ----- statements -----

  lemma LetTypes(u: Unit, cg: CG, e: Exp, p: Param)
    requires InRange(u, cg) && Fitted(u, cg)
    ensures TypesOf(GenLet(u, cg, e, p)) == LetAfter(TypesOf(cg), e, p.name) && Fitted(u, GenLet(u, cg, e, p))
  {
    hide GenExp, TypesOf, Fitted, ExpTy, ExpFits, Goes, Knows, Edits, RegTys, VarTys, HeapPtrs;
    var t, v := TypesOf(cg), GenExp(u.tgt, cg.vMap, EmOf(cg), e);
    TypesAre(cg);
    HeapFitted(u, cg);
    AllFree(u.tgt, cg.vMap, EmOf(cg), []);
    ExpGoes(Free(u.tgt), cg.vMap, EmOf(cg), e, t);
    ExpTyOK(u.tgt, cg.vMap, EmOf(cg), e, t);
    var cg1 := WithEm(cg, v.em);
    WithEmEdits(u.tgt, cg, v.em, ExpFits(t, e));
    EditTypes(u, cg, cg1, ExpFits(t, e));
    BindTypes(u, cg1, p.name, v.v);
    TypesAre(cg1);
  }

  /** What the types of a state consist of. */
  lemma TypesAre(cg: CG)
    ensures var t := TypesOf(cg);
            && t.vars == VarTys(cg.vMap) && t.regs == RegTys(cg.regs) && t.gotos == GotosTyped(cg)
            && t.checks == ChecksTyped(cg) && t.fits == NothingRefused(cg.blocks)
            && (cg.cur < |cg.blocks| && |cg.regs| == NUM_REGS ==> Describes(t, cg.vMap, EmOf(cg)))
  {
  }

  lemma HeapFitted(u: Unit, cg: CG)
    requires Fitted(u, cg)
    ensures HeapPtrs(RegTys(cg.regs)) && |u.tgt.stkOffset| == NUM_REGS && (cg.ovf.Some? ==> cg.ovf.value < |cg.blocks|)
  {
  }

  lemma BindTypes(u: Unit, cg: CG, x: Lvar, v: Value)
    ensures TypesOf(Bind(cg, x, v)) == TypesOf(cg).(vars := InsertTy(VarTys(cg.vMap), x, v.TyOf()))
    ensures Fitted(u, Bind(cg, x, v)) == Fitted(u, cg)
  {
    assert VarTys(InsertVal(cg.vMap, x, v)) == InsertTy(VarTys(cg.vMap), x, v.TyOf());
  }

  lemma AllocTypes(u: Unit, cg: CG, alloc: AllocOp, args: seq<Exp>, x: Lvar)
    requires InRange(u, cg) && Fitted(u, cg)
    ensures var cg' := GenAllocStm(u, cg, alloc, args, x);
            TypesOf(cg') == AllocAfter(TypesOf(cg), alloc, args, x) && Fitted(u, cg')
  {
    hide GenExps, GenAlloc, TypesOf, Fitted, AllFit, Goes, Knows, HasAll, Edits, RegTys, VarTys, SetReg, AllocFits,
         ArgTys, TysOf;
    var b, t := Free(u.tgt), TypesOf(cg);
    TypesAre(cg);
    HeapFitted(u, cg);
    AllFree(u.tgt, cg.vMap, EmOf(cg), []);
    var a := GenExps(u.tgt, cg.vMap, EmOf(cg), args);
    ExpsGoes(b, cg.vMap, EmOf(cg), args, t);
    ArgTysOK(u.tgt, cg.vMap, EmOf(cg), args, t);
    KnowsRegs(b, cg.vMap, a.em);
    AllocGoes(b, a.em, alloc, a.vs);
    AllocRegsOK(u.tgt, a.em, alloc, a.vs);
    var v := GenAlloc(u.tgt, a.em, alloc, a.vs);
    var fits := AllocFits(alloc, ArgTys(t, args));
    GoesTrans(b, EmOf(cg), a.em, v.em, AllFit(t, args), fits);
    HeapSet(RegTys(cg.regs), ALLOC_PTR, PTR);
    var cg1 := WithEm(cg, v.em);
    WithEmEdits(u.tgt, cg, v.em, AllFit(t, args) && fits);
    EditTypes(u, cg, cg1, AllFit(t, args) && fits);
    BindTypes(u, cg1, x, v.v);
    TypesAre(cg1);
  }

  lemma KnowsRegs(b: Blk, vMap: VMap, em: Em)
    requires |b.tgt.stkOffset| == NUM_REGS && Knows(b, vMap, em)
    ensures HasRegs(b, em) && |em.regs| == NUM_REGS
  {
  }

  /** Registers other than the heap registers may be set to anything. */
  lemma HeapSet(regs: seq<Option<Ty>>, r: nat, ty: Ty)
    requires HeapPtrs(regs) && r < NUM_REGS && (ty == PTR || (r != ALLOC_PTR && r != STORE_PTR))
    ensures HeapPtrs(SetReg(regs, r, ty))
  {
  }

  lemma SetterTypes(u: Unit, cg: CG, setter: SetterOp, args: seq<Exp>)
    requires InRange(u, cg) && Fitted(u, cg)
    ensures var cg' := GenSetterStm(u, cg, setter, args);
            TypesOf(cg') == SetterAfter(TypesOf(cg), setter, args) && Fitted(u, cg')
  {
    hide GenExps, GenSetter, TypesOf, Fitted, AllFit, Goes, Knows, HasAll, Edits, RegTys, VarTys, SetterFits,
         SetterRegs, ArgTys, TysOf;
    var b, t := Free(u.tgt), TypesOf(cg);
    TypesAre(cg);
    HeapFitted(u, cg);
    AllFree(u.tgt, cg.vMap, EmOf(cg), []);
    var a := GenExps(u.tgt, cg.vMap, EmOf(cg), args);
    ExpsGoes(b, cg.vMap, EmOf(cg), args, t);
    ArgTysOK(u.tgt, cg.vMap, EmOf(cg), args, t);
    KnowsRegs(b, cg.vMap, a.em);
    SetterGoes(b, a.em, setter, a.vs);
    SetterRegsOK(u.tgt, a.em, setter, a.vs);
    var em := GenSetter(u.tgt, a.em, setter, a.vs);
    var fits := SetterFits(setter, ArgTys(t, args));
    GoesTrans(b, EmOf(cg), a.em, em, AllFit(t, args), fits);
    HeapSetter(RegTys(cg.regs), setter, ArgTys(t, args));
    var cg1 := WithEm(cg, em);
    WithEmEdits(u.tgt, cg, em, AllFit(t, args) && fits);
    EditTypes(u, cg, cg1, AllFit(t, args) && fits);
  }

  lemma HeapSetter(regs: seq<Option<Ty>>, setter: SetterOp, tys: seq<Ty>)
    requires HeapPtrs(regs)
    ensures HeapPtrs(SetterRegs(regs, setter, tys))
  {
  }

  lemma GcTypes(u: Unit, cg: CG, roots: seq<Exp>, xs: seq<Lvar>)
    requires InRange(u, cg) && Fitted(u, cg)
    ensures var cg' := GenGCStm(u, cg, roots, xs);
            TypesOf(cg') == GcAfter(u.tgt, TypesOf(cg), roots, xs) && Fitted(u, cg')
  {
    hide GenRoots, GcCode, TypesOf, Fitted, AllFit, Goes, Knows, HasAll, Edits, RegTys, VarTys, GcRegTys, ArgTys,
         HwArgs, InsertVals, InsertTys, AllPoint;
    var b, t := Free(u.tgt), TypesOf(cg);
    TypesAre(cg);
    HeapFitted(u, cg);
    AllFree(u.tgt, cg.vMap, EmOf(cg), []);
    var a := GenRoots(u.tgt, cg.vMap, EmOf(cg), roots);
    RootsGoes(b, cg.vMap, EmOf(cg), roots, t);
    KnowsRegs(b, cg.vMap, a.em);
    var args := HwArgs(u.tgt, a.em.regs) + a.vs;
    AllFree(u.tgt, cg.vMap, a.em, args);
    GcGoes(b, a.em, |xs|, args);
    GcCodeRegs(u.tgt, a.em, |xs|, args);
    var em := GcCode(u.tgt, a.em, |xs|, args);
    var fits := AllFit(t, roots) && AllPoint(ArgTys(t, roots));
    GoesTrans(b, EmOf(cg), a.em, em, fits, true);
    HeapGc(u.tgt, RegTys(cg.regs), NUM_REGS);
    InsertTysOK(cg.vMap, xs, Temps(a.em.next + |u.tgt.Hw()|, Ptrs(|xs|)), Ptrs(|xs|));
    GcStmIs(u, cg, roots, xs);
    var cg1 := WithEm(cg, em);
    WithEmEdits(u.tgt, cg, em, fits);
    EditTypes(u, cg, cg1, fits);
    VarsTypes(u, cg1, GenGCStm(u, cg, roots, xs).vMap);
    TypesAre(cg1);
  }

  /** The state after a collection. */
  lemma GcStmIs(u: Unit, cg: CG, roots: seq<Exp>, xs: seq<Lvar>)
    requires InRange(u, cg)
    ensures var a := GenRoots(u.tgt, cg.vMap, EmOf(cg), roots);
            var em := GcCode(u.tgt, a.em, |xs|, HwArgs(u.tgt, a.em.regs) + a.vs);
            GenGCStm(u, cg, roots, xs)
            == WithEm(cg, em).(vMap := InsertVals(cg.vMap, xs, Temps(a.em.next + |u.tgt.Hw()|, Ptrs(|xs|))))
  {
    hide GenRoots, GcCode, HwArgs, InsertVals;
    var a := GenRoots(u.tgt, cg.vMap, EmOf(cg), roots);
    assert EmOf(WithEm(cg, a.em)) == a.em;
    var em := GcCode(u.tgt, a.em, |xs|, HwArgs(u.tgt, a.em.regs) + a.vs);
    assert WithEm(WithEm(cg, a.em), em).blocks == WithEm(cg, em).blocks;
  }

  lemma VarsTypes(u: Unit, cg: CG, vMap: VMap)
    ensures TypesOf(cg.(vMap := vMap)) == TypesOf(cg).(vars := VarTys(vMap))
    ensures Fitted(u, cg.(vMap := vMap)) == Fitted(u, cg)
  {
  }

  lemma {:induction false} HeapGc(tgt: Target, regs: seq<Option<Ty>>, n: nat)
    requires |tgt.stkOffset| == NUM_REGS && HeapPtrs(regs) && n <= NUM_REGS
    ensures HeapPtrs(GcRegTys(tgt, regs, n))
  {
    if n > 0 {
      HeapGc(tgt, regs, n - 1);
      HeapSet(GcRegTys(tgt, regs, n - 1), n - 1, PTR);
    }
  }

  lemma CondBrTypes(u: Unit, cg: CG, test: BranchOp, args: seq<Exp>, tBB: nat, fBB: nat)
    requires InRange(u, cg) && Fitted(u, cg)
    ensures var t, cg' := TypesOf(cg), GenCondBr(u, cg, test, args, tBB, fBB);
            TypesOf(cg') == t.(fits := t.fits && AllFit(t, args)) && Fitted(u, cg')
  {
    hide GenExps, GenBranch, TypesOf, Fitted, AllFit, Goes, Knows, HasAll, RegTys, VarTys, HeapPtrs, Clean;
    var b, t := Free(u.tgt), TypesOf(cg);
    TypesAre(cg);
    HeapFitted(u, cg);
    AllFree(u.tgt, cg.vMap, EmOf(cg), []);
    var a := GenExps(u.tgt, cg.vMap, EmOf(cg), args);
    ExpsGoes(b, cg.vMap, EmOf(cg), args, t);
    KnowsRegs(b, cg.vMap, a.em);
    BranchGoes(b, a.em, test, a.vs);
    var v := GenBranch(u.tgt, a.em, test, a.vs);
    GoesTrans(b, EmOf(cg), a.em, v.em, AllFit(t, args), true);
    WithEmEdits(u.tgt, cg, v.em, AllFit(t, args));
    EditTypes(u, cg, GenCondBr(u, cg, test, args, tBB, fBB), AllFit(t, args));
  }

  lemma SwitchTypes(u: Unit, cg: CG, e: Exp, bbs: seq<nat>)
    requires InRange(u, cg) && Fitted(u, cg)
    ensures var t, cg' := TypesOf(cg), GenSwitch(u, cg, e, bbs);
            TypesOf(cg') == t.(fits := t.fits && ExpFits(t, e)) && Fitted(u, cg')
  {
    hide GenExp, TypesOf, Fitted, ExpFits, Goes, Knows, Has, HasAll, RegTys, VarTys, HeapPtrs, AsInt, Def, Clean;
    var b, t := Free(u.tgt), TypesOf(cg);
    TypesAre(cg);
    HeapFitted(u, cg);
    AllFree(u.tgt, cg.vMap, EmOf(cg), []);
    var v := GenExp(u.tgt, cg.vMap, EmOf(cg), e);
    ExpGoes(b, cg.vMap, EmOf(cg), e, t);
    var i := AsInt(v.em, v.v, Native(u.tgt));
    CastGoes(b, v.em, v.v, PTR, Native(u.tgt));
    AllFree(u.tgt, cg.vMap, i.em, [i.v]);
    DefGoes(b, i.em, Trunc32Op, [i.v], INT(32));
    var d := Def(i.em, Trunc32Op, [i.v], INT(32));
    GoesTrans(b, EmOf(cg), v.em, i.em, ExpFits(t, e), true);
    GoesTrans(b, EmOf(cg), i.em, d.em, ExpFits(t, e), true);
    WithEmEdits(u.tgt, cg, d.em, ExpFits(t, e));
    EditTypes(u, cg, GenSwitch(u, cg, e, bbs), ExpFits(t, e));
  }

  /** A call: its callee and its arguments. */
  lemma CallTypes(u: Unit, cg: CG, f: Exp, kind: FragKind, kind': FragKind, args: seq<Exp>, tys: seq<Ty>)
    requires InRange(u, cg) && Fitted(u, cg)
    ensures var cg' := GenCall(u, cg, GenCallee(u, cg.vMap, EmOf(cg), f, kind, tys), kind', args);
            TypesOf(cg') == CallAfter(u.fns, TypesOf(cg), f, args, tys) && Fitted(u, cg')
  {
    hide GenCallee, GenCall, TypesOf, Fitted, ArgsFit, ExpFits, ExpTy, Goes, RegTys, VarTys, HeapPtrs;
    var t := TypesOf(cg);
    TypesAre(cg);
    AllFree(u.tgt, cg.vMap, EmOf(cg), []);
    CalleeGoes(Free(u.tgt), u, cg.vMap, EmOf(cg), f, kind, tys, t);
    var c := GenCallee(u, cg.vMap, EmOf(cg), f, kind, tys);
    CallEnds(u, cg, c, kind', args, (f.LABEL? && f.lab in u.fns) || (ExpFits(t, f) && ExpTy(t, f) == PTR));
  }

  lemma CallEnds(u: Unit, cg: CG, c: Callee, kind: FragKind, args: seq<Exp>, fits: bool)
    requires InRange(u, cg) && Fitted(u, cg) && c.em.regs == cg.regs && Goes(Free(u.tgt), EmOf(cg), c.em, fits)
    ensures |TypesOf(cg).regs| == NUM_REGS
    ensures var t, cg' := TypesOf(cg), GenCall(u, cg, c, kind, args);
            TypesOf(cg') == t.(fits := t.fits && fits && ArgsFit(t, args, c.tys)) && Fitted(u, cg')
  {
    hide GenCastExps, GenCall, TypesOf, Fitted, ArgsFit, Goes, RegTys, VarTys, HeapPtrs, HwArgs, Edits;
    var t := TypesOf(cg);
    TypesAre(cg);
    HeapFitted(u, cg);
    CallArgsGoes(u, cg, c, args, t);
    var em := GenCastExps(u.tgt, cg.vMap, c.em, args[..if |args| <= |c.tys| then |args| else |c.tys|], c.tys).em;
    GoesTrans(Free(u.tgt), EmOf(cg), c.em, em, fits, ArgsFit(t, args, c.tys));
    CallEdits(u, cg, c, kind, args, em, fits && ArgsFit(t, args, c.tys));
    EditTypes(u, cg, GenCall(u, cg, c, kind, args), fits && ArgsFit(t, args, c.tys));
  }

  lemma CallArgsGoes(u: Unit, cg: CG, c: Callee, args: seq<Exp>, t: Types)
    requires InRange(u, cg) && c.em.regs == cg.regs && Describes(t, cg.vMap, EmOf(cg))
    ensures var em := GenCastExps(u.tgt, cg.vMap, c.em,
                                  args[..if |args| <= |c.tys| then |args| else |c.tys|], c.tys).em;
            Goes(Free(u.tgt), c.em, em, ArgsFit(t, args, c.tys))
  {
    hide GenCastExps, AllFit, CastsFit, ArgTys, Goes, Knows, RegTys, VarTys;
    AllFree(u.tgt, cg.vMap, c.em, []);
    CastExpsGoes(Free(u.tgt), cg.vMap, c.em, args[..if |args| <= |c.tys| then |args| else |c.tys|], c.tys, t);
  }

  lemma CallEdits(u: Unit, cg: CG, c: Callee, kind: FragKind, args: seq<Exp>, em: Em, fits: bool)
    requires InRange(u, cg) && c.em.regs == cg.regs && Goes(Free(u.tgt), EmOf(cg), em, fits)
    requires em == GenCastExps(u.tgt, cg.vMap, c.em, args[..if |args| <= |c.tys| then |args| else |c.tys|], c.tys).em
    ensures Edits(cg, GenCall(u, cg, c, kind, args), fits) && GenCall(u, cg, c, kind, args).regs == cg.regs
    ensures GenCall(u, cg, c, kind, args).vMap == cg.vMap
  {
    hide GenCastExps, HwArgs, Clean;
  }

  // ----- phi nodes -----

  lemma OneMoreTyped(phi: Phi, v: Value, src: nat)
    ensures TypedPhi(phi.(vals := phi.vals + [v], preds := phi.preds + [src]))
            <==> TypedPhi(phi) && v.TyOf() == LLTy(phi.ty)
  {
    var phi' := phi.(vals := phi.vals + [v], preds := phi.preds + [src]);
    assert phi'.vals[|phi.vals|] == v;
    if TypedPhi(phi') {
      forall k | 0 <= k < |phi.vals|
        ensures phi.vals[k].TyOf() == LLTy(phi.ty)
      {
        assert phi'.vals[k] == phi.vals[k];
      }
    }
  }

  /** The values have the types that are wanted. */
  ghost predicate RightTys(vs: seq<Value>, tys: seq<Ty>)
    requires |vs| <= |tys|
  {
    forall i :: 0 <= i < |vs| ==> vs[i].TyOf() == LLTy(tys[i])
  }

  /** One more incoming value for each of the first phi nodes. */
  lemma AddIncomingTyped(b: Block, vs: seq<Value>, src: nat)
    requires |vs| <= |b.phis|
    ensures var b' := b.(phis := AddIncoming(b.phis, vs, src));
            && (TypedBlock(b') <==> TypedBlock(b) && RightTys(vs, PhiTys(b.phis)))
            && PhiTys(b'.phis) == PhiTys(b.phis)
  {
    hide TypedPhi;
    var b' := b.(phis := AddIncoming(b.phis, vs, src));
    forall i | 0 <= i < |b.phis|
      ensures TypedPhi(b'.phis[i]) <==> TypedPhi(b.phis[i]) && (i < |vs| ==> vs[i].TyOf() == LLTy(b.phis[i].ty))
    {
      OneMoreTyped(b.phis[i], if i < |vs| then vs[i] else Undef, src);
    }
    if TypedBlock(b') {
      forall i | 0 <= i < |b.phis|
        ensures TypedPhi(b.phis[i]) && (i < |vs| ==> vs[i].TyOf() == LLTy(b.phis[i].ty))
      {
        assert TypedPhi(b'.phis[i]);
      }
    }
  }

  /** Telling block d what comes in from here. */
  lemma PhisFromHereTyped(u: Unit, cg: CG, d: nat, vs: seq<Value>)
    requires d < |cg.blocks| && |vs| <= |cg.blocks[d].phis| && Fitted(u, cg)
    ensures var t, cg', ok := TypesOf(cg), PhisFromHere(cg, d, vs), RightTys(vs, PhiTys(cg.blocks[d].phis));
            && TypesOf(cg') == (if cg.ovf == Some(d) then t.(checks := t.checks && ok) else t.(gotos := t.gotos && ok))
            && Fitted(u, cg')
  {
    hide TypedBlock, AddIncoming, Clean, EntryTys, Ptrs, HeapPtrs, RightTys, VarTys, RegTys;
    var cg', ok := PhisFromHere(cg, d, vs), RightTys(vs, PhiTys(cg.blocks[d].phis));
    AddIncomingTyped(cg.blocks[d], vs, cg.cur);
    assert forall b :: 0 <= b < |cg.blocks| && b != d ==> cg'.blocks[b] == cg.blocks[b];
    assert forall b :: 0 <= b < |cg.blocks| ==> cg'.blocks[b].instrs == cg.blocks[b].instrs;
    assert TypedBlock(cg'.blocks[d]) == (TypedBlock(cg.blocks[d]) && ok);
    GotosAt(cg, cg', d, ok);
  }

  lemma GotosAt(cg: CG, cg': CG, d: nat, ok: bool)
    requires d < |cg.blocks| == |cg'.blocks| && cg'.ovf == cg.ovf
    requires forall b :: 0 <= b < |cg.blocks| && b != d ==> cg'.blocks[b] == cg.blocks[b]
    requires forall b :: 0 <= b < |cg.blocks| ==> cg'.blocks[b].instrs == cg.blocks[b].instrs
    requires TypedBlock(cg'.blocks[d]) == (TypedBlock(cg.blocks[d]) && ok)
    ensures GotosTyped(cg') == (GotosTyped(cg) && (cg.ovf == Some(d) || ok))
    ensures ChecksTyped(cg') == (ChecksTyped(cg) && (cg.ovf == Some(d) ==> ok))
    ensures NothingRefused(cg'.blocks) == NothingRefused(cg.blocks)
  {
    hide TypedBlock, Clean;
    if GotosTyped(cg') {
      forall b | 0 <= b < |cg.blocks| && cg.ovf != Some(b)
        ensures TypedBlock(cg.blocks[b])
      {
        assert TypedBlock(cg'.blocks[b]);
      }
    }
    if NothingRefused(cg'.blocks) {
      forall b | 0 <= b < |cg.blocks|
        ensures Clean(cg.blocks[b].instrs)
      {
        assert Clean(cg'.blocks[b].instrs);
      }
    }
  }

  /** A jump: the values that it passes have the types of the phi nodes if and only if all of them can be
      converted. */
  lemma GotoTypes(u: Unit, cg: CG, lab: Lvar, args: seq<Exp>)
    requires UnitOK(u) && InRange(u, cg) && Fitted(u, cg)
    ensures var cg' := GenGotoStm(u, cg, lab, args);
            TypesOf(cg') == GotoAfter(u.tgt, u.cl, TypesOf(cg), lab, args) && Fitted(u, cg')
  {
    hide GenGoto, TypesOf, AllFit, JumpFits, HeapPtrs, Fitted;
    TypesAre(cg);
    var i := FindFrag(u.cl, lab);
    if i.Some? {
      JumpTypes(u, cg, i.value, args);
    }
  }

  lemma JumpTypes(u: Unit, cg: CG, i: nat, args: seq<Exp>)
    requires UnitOK(u) && InRange(u, cg) && Fitted(u, cg) && i < |u.cl|
    ensures |TypesOf(cg).regs| == NUM_REGS
    ensures var t, cg' := TypesOf(cg), GenGoto(u, cg, u.bbs[i], args);
            var ok := JumpFits(u.tgt, u.cl, t, i, args);
            && TypesOf(cg') == t.(gotos := t.gotos && ok, fits := t.fits && AllFit(t, args) && ok)
            && Fitted(u, cg')
  {
    hide GenExps, TypesOf, AllFit, ArgTys, Goes, Knows, RegTys, VarTys, HeapPtrs, HwArgs, CastAll, AddIncoming, HwTys,
         CastsFit, TysOf, Edits, Clean, EntryTys, JumpFits, RightTys;
    var b, t, d := Free(u.tgt), TypesOf(cg), u.bbs[i];
    TypesAre(cg);
    AllFree(u.tgt, cg.vMap, EmOf(cg), []);
    var a := GenExps(u.tgt, cg.vMap, EmOf(cg), args);
    ExpsGoes(b, cg.vMap, EmOf(cg), args, t);
    var vs, tys := HwArgs(u.tgt, cg.regs) + a.vs, PhiTys(cg.blocks[d].phis);
    var c, ok := CastAll(a.em, vs[..if |vs| <= |tys| then |vs| else |tys|], tys), JumpFits(u.tgt, u.cl, t, i, args);
    GotoArgTys(u, cg, args, t);
    JumpFitsIs(u, cg, i, args, t, vs, tys);
    GotoCasts(u, cg, a.em, vs, tys, ok);
    GoesTrans(b, EmOf(cg), a.em, c.em, AllFit(t, args), ok);
    JumpEnds(u, cg, d, c, AllFit(t, args) && ok);
  }

  lemma JumpFitsIs(u: Unit, cg: CG, i: nat, args: seq<Exp>, t: Types, vs: seq<Value>, tys: seq<Ty>)
    requires UnitOK(u) && InRange(u, cg) && Fitted(u, cg) && i < |u.cl| && |t.regs| == NUM_REGS
    requires tys == PhiTys(cg.blocks[u.bbs[i]].phis) && TysOf(vs) == HwTys(u.tgt, t.regs) + ArgTys(t, args)
    ensures JumpFits(u.tgt, u.cl, t, i, args) == CastsFit(TysOf(vs), tys)
  {
  }

  /** The phi nodes are told what comes in, and the block ends. */
  lemma JumpEnds(u: Unit, cg: CG, d: nat, c: EVs, fits: bool)
    requires InRange(u, cg) && Fitted(u, cg) && Goes(Free(u.tgt), EmOf(cg), c.em, fits) && c.em.regs == cg.regs
    requires d < u.n && |c.vs| <= |cg.blocks[d].phis| && cg.ovf != Some(d)
    ensures var t, cg' := TypesOf(cg), Terminate(PhisFromHere(WithEm(cg, c.em), d, c.vs), Br(d));
            && TypesOf(cg') == t.(gotos := t.gotos && RightTys(c.vs, PhiTys(cg.blocks[d].phis)), fits := t.fits && fits)
            && Fitted(u, cg')
  {
    hide TypesOf, Goes, RegTys, VarTys, HeapPtrs, Edits, EntryTys, RightTys, AddIncoming;
    var cg1 := WithEm(cg, c.em);
    TypesAre(cg);
    WithEmEdits(u.tgt, cg, c.em, fits);
    EditTypes(u, cg, cg1, fits);
    PhisFromHereTyped(u, cg1, d, c.vs);
    var cg2 := PhisFromHere(cg1, d, c.vs);
    EndEdits(cg2, Br(d));
    EditTypes(u, cg2, Terminate(cg2, Br(d)), true);
    TypesAre(cg1);
    TypesAre(cg2);
  }

  lemma EndEdits(cg: CG, end: Terminator)
    requires cg.cur < |cg.blocks|
    ensures Edits(cg, Terminate(cg, end), true)
  {
  }

  /** Converting the values that a jump passes. */
  lemma GotoCasts(u: Unit, cg: CG, em: Em, vs: seq<Value>, tys: seq<Ty>, ok: bool)
    requires |u.tgt.stkOffset| == NUM_REGS == |em.regs| && ok == CastsFit(TysOf(vs), tys)
    ensures var vs' := vs[..if |vs| <= |tys| then |vs| else |tys|];
            var c := CastAll(em, vs', tys);
            Goes(Free(u.tgt), em, c.em, ok) && RightTys(c.vs, tys) == ok && c.em.regs == em.regs
  {
    hide Goes, CastsFit, TysOf;
    var vs' := vs[..if |vs| <= |tys| then |vs| else |tys|];
    AllFree(u.tgt, map[], em, vs');
    CastAllGoes(Free(u.tgt), em, vs', tys);
    CastAllTys(em, vs', tys);
    CastsFitTake(TysOf(vs), tys);
    TysOfTake(vs, |vs'|);
    RightIfFit(vs', CastAll(em, vs', tys).vs, tys);
  }

  lemma TysOfTake(vs: seq<Value>, n: nat)
    requires n <= |vs|
    ensures TysOf(vs[..n]) == TysOf(vs)[..n]
  {
  }

  lemma RightIfFit(vs: seq<Value>, vs': seq<Value>, tys: seq<Ty>)
    requires |vs'| == |vs| <= |tys|
    requires forall i :: 0 <= i < |vs| ==> (vs'[i].TyOf() == LLTy(tys[i]) <==> Castable(vs[i].TyOf(), LLTy(tys[i])))
    ensures RightTys(vs', tys) == CastsFit(TysOf(vs), tys)
  {
    if CastsFit(TysOf(vs), tys) {
      forall i | 0 <= i < |vs|
        ensures vs'[i].TyOf() == LLTy(tys[i])
      {
        assert TysOf(vs)[i] == vs[i].TyOf();
      }
    }
  }

  /** Values without a phi node, and phi nodes without a value, do not matter. */
  lemma CastsFitTake(srcs: seq<Ty>, dsts: seq<Ty>)
    ensures CastsFit(srcs, dsts) == CastsFit(srcs[..if |srcs| <= |dsts| then |srcs| else |dsts|], dsts)
  {
    var srcs' := srcs[..if |srcs| <= |dsts| then |srcs| else |dsts|];
    if CastsFit(srcs', dsts) {
      forall i | 0 <= i < |srcs| && i < |dsts|
        ensures Castable(srcs[i], LLTy(dsts[i]))
      {
        assert srcs'[i] == srcs[i];
      }
    }
  }

  /** The types of registers and arguments at a jump. */
  lemma GotoArgTys(u: Unit, cg: CG, args: seq<Exp>, t: Types)
    requires InRange(u, cg) && Describes(t, cg.vMap, EmOf(cg))
    ensures TysOf(HwArgs(u.tgt, cg.regs) + GenExps(u.tgt, cg.vMap, EmOf(cg), args).vs)
            == HwTys(u.tgt, t.regs) + ArgTys(t, args)
  {
    hide GenExps, ArgTys;
    ArgTysOK(u.tgt, cg.vMap, EmOf(cg), args, t);
    HwArgTys(u.tgt, cg.regs);
    var hw, vs := HwArgs(u.tgt, cg.regs), GenExps(u.tgt, cg.vMap, EmOf(cg), args).vs;
    assert TysOf(hw + vs) == TysOf(hw) + TysOf(vs);
  }

  lemma HwArgTys(tgt: Target, regs: seq<Option<Value>>)
    requires |tgt.stkOffset| == NUM_REGS == |regs|
    ensures TysOf(HwArgs(tgt, regs)) == HwTys(tgt, RegTys(regs)) && |HwArgs(tgt, regs)| == |tgt.Hw()|
  {
  }

  // ----- overflow checks -----

  lemma NoValuesTyped(phis: seq<Phi>, b: Block)
    requires b.phis == phis && forall i :: 0 <= i < |phis| ==> phis[i].vals == []
    ensures TypedBlock(b)
  {
  }

  lemma MakeOverflowTypes(u: Unit, cg: CG)
    requires Fitted(u, cg) && u.n <= |cg.blocks|
    ensures var cg' := MakeOverflow(u.tgt, cg);
            && TypesOf(cg') == TypesOf(cg) && Fitted(u, cg')
            && cg'.ovf.Some? && cg'.cur == cg.cur && cg'.regs == cg.regs
  {
    hide TypedBlock, EntryTys, HeapPtrs, VarTys, RegTys;
    var cg' := MakeOverflow(u.tgt, cg);
    if cg.ovf.None? {
      var n := |cg.blocks|;
      NoValuesTyped(cg'.blocks[n].phis, cg'.blocks[n]);
      assert PhiTys(cg'.blocks[n].phis) == Ptrs(|cg'.blocks[n].phis|);
      assert forall d :: 0 <= d < n ==> cg'.blocks[d] == cg.blocks[d];
      MoreTyped(cg, cg');
    }
  }

  lemma MoreTyped(cg: CG, cg': CG)
    requires cg.ovf.None? && cg'.ovf == Some(|cg.blocks|) && |cg'.blocks| == |cg.blocks| + 1
    requires forall d :: 0 <= d < |cg.blocks| ==> cg'.blocks[d] == cg.blocks[d]
    requires TypedBlock(cg'.blocks[|cg.blocks|]) && cg'.blocks[|cg.blocks|].instrs == []
    ensures GotosTyped(cg') == GotosTyped(cg) && ChecksTyped(cg') == ChecksTyped(cg)
    ensures NothingRefused(cg'.blocks) == NothingRefused(cg.blocks)
  {
    hide TypedBlock;
    if GotosTyped(cg') {
      forall d | 0 <= d < |cg.blocks|
        ensures TypedBlock(cg.blocks[d])
      {
        assert TypedBlock(cg'.blocks[d]);
      }
    }
    if NothingRefused(cg'.blocks) {
      forall d | 0 <= d < |cg.blocks|
        ensures Clean(cg.blocks[d].instrs)
      {
        assert Clean(cg'.blocks[d].instrs);
      }
    }
  }

  /** An overflow check passes the hardware registers, whatever their types. */
  lemma OverflowTypes(u: Unit, cg: CG, res: nat)
    requires InRange(u, cg) && Fitted(u, cg)
    ensures var t, cg' := TypesOf(cg), BranchOnOverflow(u.tgt, cg, res);
            && TypesOf(cg') == t.(checks := t.checks && HoldsPointers(u.tgt, t.regs)) && Fitted(u, cg')
            && cg'.vMap == cg.vMap && cg'.regs == cg.regs
  {
    hide HwArgs, HoldsPointers, AddIncoming, TypesOf, HeapPtrs, EntryTys, RegTys, Clean, RightTys;
    var cg1 := cg.(blocks := cg.blocks + [EMPTY]);
    HeapFitted(u, cg);
    EditTypes(u, cg, cg1, true);
    var cg2 := MakeOverflow(u.tgt, cg1);
    MakeOverflowTypes(u, cg1);
    var d, vs := cg2.ovf.value, HwArgs(u.tgt, cg2.regs);
    HwArgTys(u.tgt, cg.regs);
    PointersRight(u.tgt, cg.regs);
    PhisFromHereTyped(u, cg2, d, vs);
    var cg3 := PhisFromHere(cg2, d, vs);
    var cg4 := Terminate(cg3, CondBr(Temp(res + 1, INT(1)), d, |cg.blocks|));
    EndEdits(cg3, CondBr(Temp(res + 1, INT(1)), d, |cg.blocks|));
    EditTypes(u, cg3, cg4, true);
    MoveTypes(u, cg4, |cg.blocks|, cg4.regs);
    TypesAre(cg);
    TypesAre(cg1);
    TypesAre(cg2);
    TypesAre(cg3);
    TypesAre(cg4);
  }

  lemma PointersRight(tgt: Target, regs: seq<Option<Value>>)
    requires |tgt.stkOffset| == NUM_REGS == |regs|
    ensures |HwArgs(tgt, regs)| == |tgt.Hw()|
    ensures RightTys(HwArgs(tgt, regs), Ptrs(|tgt.Hw()|)) == HoldsPointers(tgt, RegTys(regs))
  {
    HwArgTys(tgt, regs);
    var hw := HwArgs(tgt, regs);
    assert forall i :: 0 <= i < |hw| ==> TysOf(hw)[i] == hw[i].TyOf();
    assert forall i :: 0 <= i < |hw| ==> HwTys(tgt, RegTys(regs))[i] == hw[i].TyOf();
  }

  /** Going on elsewhere, with other registers. */
  lemma MoveTypes(u: Unit, cg: CG, cur: nat, regs: seq<Option<Value>>)
    requires Fitted(u, cg) && HeapPtrs(RegTys(regs))
    ensures var cg' := cg.(cur := cur, regs := regs);
            TypesOf(cg') == TypesOf(cg).(regs := RegTys(regs)) && Fitted(u, cg')
  {
    hide TypedBlock, HeapPtrs, EntryTys;
  }

  lemma ArithTypes(u: Unit, cg: CG, arith: ArithOp, args: seq<Exp>, p: Param)
    requires InRange(u, cg) && Fitted(u, cg)
    ensures var cg' := GenArithStm(u, cg, arith, args, p);
            TypesOf(cg') == ArithAfter(u.tgt, TypesOf(cg), arith, args, p.name) && Fitted(u, cg')
  {
    hide GenExps, TypesOf, Fitted, AllFit, Goes, Knows, HasAll, RegTys, VarTys, HeapPtrs, HoldsPointers,
         BranchOnOverflow, Edits, ArithCode, AsInts;
    var b, t := Free(u.tgt), TypesOf(cg);
    TypesAre(cg);
    HeapFitted(u, cg);
    AllFree(u.tgt, cg.vMap, EmOf(cg), []);
    var a := GenExps(u.tgt, cg.vMap, EmOf(cg), args);
    ExpsGoes(b, cg.vMap, EmOf(cg), args, t);
    var cg1 := WithEm(cg, a.em);
    WithEmEdits(u.tgt, cg, a.em, AllFit(t, args));
    EditTypes(u, cg, cg1, AllFit(t, args));
    TypesAre(cg1);
    OperatorTypes(u, cg1, arith, a.vs);
    var v := GenArith(u.tgt, cg1, arith, a.vs);
    BindTypes(u, v.cg, p.name, v.v);
    TypesAre(v.cg);
  }

  /** The operator itself, with its check. */
  lemma OperatorTypes(u: Unit, cg: CG, arith: ArithOp, vs: seq<Value>)
    requires InRange(u, cg) && Fitted(u, cg)
    ensures var t, v := TypesOf(cg), GenArith(u.tgt, cg, arith, vs);
            && TypesOf(v.cg) == t.(checks := t.checks && (arith.checked ==> HoldsPointers(u.tgt, t.regs)))
            && Fitted(u, v.cg) && v.cg.vMap == cg.vMap && v.v.TyOf() == LLTy(INT(arith.sz))
  {
    hide TypesOf, Fitted, Goes, Knows, HasAll, RegTys, VarTys, HeapPtrs, HoldsPointers, BranchOnOverflow, Edits,
         ArithCode, AsInts;
    var b := Free(u.tgt);
    HeapFitted(u, cg);
    AllFree(u.tgt, cg.vMap, EmOf(cg), vs);
    KnowsRegs(b, cg.vMap, EmOf(cg));
    TypesAre(cg);
    if arith.checked {
      var em := ArithCode(EmOf(cg), arith, vs);
      ArithCodeGoes(b, EmOf(cg), arith, vs);
      WithEmEdits(u.tgt, cg, em, true);
      EditTypes(u, cg, WithEm(cg, em), true);
      TypesAre(WithEm(cg, em));
      OverflowTypes(u, WithEm(cg, em), em.next - 2);
    } else {
      DivGoes(b, EmOf(cg), arith, vs);
      var a := AsInts(EmOf(cg), vs, arith.sz);
      var d := Def(a.em, DivOp(arith.code), a.vs, INT(arith.sz));
      WithEmEdits(u.tgt, cg, d.em, true);
      EditTypes(u, cg, WithEm(cg, d.em), true);
    }
  }

  /** The types of the generated values, and the verdicts, are those that are read off the source. */
  lemma {:induction false} GenStmTypes(u: Unit, cg: CG, s: Stm)
    requires UnitOK(u) && InRange(u, cg) && BlocksBelow(s, u.n) && Fitted(u, cg)
    ensures |TypesOf(cg).regs| == NUM_REGS
    ensures TypesOf(GenStm(u, cg, s)) == Flow(u.tgt, u.fns, u.cl, TypesOf(cg), s) && Fitted(u, GenStm(u, cg, s))
    decreases s, 1
  {
    hide GenLet, GenAllocStm, GenGotoStm, GenSwitch, GenArithStm, GenSetterStm, GenGCStm, GenCondBr, GenCall, GenCallee,
         Fitted, RegTys, VarTys, LetAfter, AllocAfter, CallAfter, GotoAfter, ArithAfter, SetterAfter, GcAfter, AllFit,
         ExpFits, TypesOf, HeapPtrs;
    TypesAre(cg);
    HeapFitted(u, cg);
    match s
    case LET(e, p, k) =>
      LetTypes(u, cg, e, p);
      GenStmTypes(u, GenLet(u, cg, e, p), k);
    case ALLOC(alloc, args, x, k) =>
      AllocTypes(u, cg, alloc, args, x);
      GenStmTypes(u, GenAllocStm(u, cg, alloc, args, x), k);
    case APPLY(f, args, tys) =>
      CallTypes(u, cg, f, STD_FUN, GenCallee(u, cg.vMap, EmOf(cg), f, STD_FUN, tys).kind, args, tys);
    case THROW(f, args, tys) => CallTypes(u, cg, f, STD_CONT, STD_CONT, args, tys);
    case GOTO(lab, args) => GotoTypes(u, cg, lab, args);
    case SWITCH(e, arms, bbs) =>
      SwitchTypes(u, cg, e, bbs);
      GenArmsTypes(u, GenSwitch(u, cg, e, bbs), arms, bbs);
    case BRANCH(_, _, _, _, _, _) => GenBranchTypes(u, cg, s);
    case ARITH(arith, args, p, k) =>
      ArithTypes(u, cg, arith, args, p);
      GenStmTypes(u, GenArithStm(u, cg, arith, args, p), k);
    case SETTER(setter, args, k) =>
      SetterTypes(u, cg, setter, args);
      GenStmTypes(u, GenSetterStm(u, cg, setter, args), k);
    case CALLGC(roots, xs, k) =>
      GcTypes(u, cg, roots, xs);
      GenStmTypes(u, GenGCStm(u, cg, roots, xs), k);
  }

  lemma {:induction false} GenBranchTypes(u: Unit, cg: CG, s: Stm)
    requires UnitOK(u) && InRange(u, cg) && BlocksBelow(s, u.n) && Fitted(u, cg) && s.BRANCH?
    ensures |TypesOf(cg).regs| == NUM_REGS
    ensures TypesOf(GenStm(u, cg, s)) == Flow(u.tgt, u.fns, u.cl, TypesOf(cg), s) && Fitted(u, GenStm(u, cg, s))
    decreases s, 0
  {
    hide GenCondBr, Fitted, RegTys, VarTys, AllFit, TypesOf, HeapPtrs;
    var BRANCH(test, args, tArm, fArm, tBB, fBB) := s;
    TypesAre(cg);
    HeapFitted(u, cg);
    CondBrTypes(u, cg, test, args, tBB, fBB);
    var cg1 := GenCondBr(u, cg, test, args, tBB, fBB);
    CondBrRegs(u, cg, test, args, tBB, fBB);
    MoveTypes(u, cg1, tBB, cg1.regs);
    TypesAre(cg1);
    GenStmTypes(u, cg1.(cur := tBB), tArm);
    var cg2 := GenStm(u, cg1.(cur := tBB), tArm);
    MoveTypes(u, cg2, fBB, cg1.regs);
    GenStmTypes(u, cg2.(cur := fBB, regs := cg1.regs), fArm);
  }

  lemma CondBrRegs(u: Unit, cg: CG, test: BranchOp, args: seq<Exp>, tBB: nat, fBB: nat)
    requires InRange(u, cg)
    ensures GenCondBr(u, cg, test, args, tBB, fBB).regs == cg.regs
  {
    hide GenExps, GenBranch;
  }

  lemma {:induction false} GenArmsTypes(u: Unit, cg: CG, arms: seq<Stm>, bbs: seq<nat>)
    requires UnitOK(u) && InRange(u, cg) && ArmsBelow(arms, u.n) && |arms| <= |bbs| && Fitted(u, cg)
    requires forall i :: 0 <= i < |bbs| ==> bbs[i] < u.n
    ensures |TypesOf(cg).regs| == NUM_REGS
    ensures TypesOf(GenArms(u, cg, arms, bbs)) == FlowArms(u.tgt, u.fns, u.cl, TypesOf(cg), arms)
    ensures Fitted(u, GenArms(u, cg, arms, bbs))
    decreases arms, 1
  {
    hide GenStm, Flow, Fitted, RegTys, VarTys, TypesOf, HeapPtrs;
    TypesAre(cg);
    HeapFitted(u, cg);
    if arms != [] {
      var n := |arms| - 1;
      GenArmsTypes(u, cg, arms[..n], bbs);
      var cg' := GenArms(u, cg, arms[..n], bbs);
      MoveTypes(u, cg', bbs[n], cg.regs);
      GenStmTypes(u, cg'.(cur := bbs[n], regs := cg.regs), arms[n]);
    }
  }

  // ----- fragments and clusters -----

  /** The phi nodes of an internal fragment, as values. */
  lemma EntryPhiTys(u: Unit, cg: CG, i: nat)
    requires Fitted(u, cg) && i < |u.cl| && u.cl[i].kind == INTERNAL
    ensures u.bbs[i] < |cg.blocks|
    ensures var vs, tys := EntryPhis(u, cg, i), FragTys(u.tgt, u.cl[i]);
            |vs| == |tys| && forall k :: 0 <= k < |vs| ==> vs[k].TyOf() == LLTy(tys[k])
  {
    hide HeapPtrs;
    var phis := cg.blocks[u.bbs[i]].phis;
    forall k | 0 <= k < |phis|
      ensures Temp(phis[k].id, phis[k].ty).TyOf() == LLTy(FragTys(u.tgt, u.cl[i])[k])
    {
      assert PhiTys(phis)[k] == phis[k].ty;
    }
  }

  lemma FragRegTys(tgt: Target, regs: seq<Option<Value>>, vs: seq<Value>)
    requires |tgt.stkOffset| == NUM_REGS == |regs| && |tgt.Hw()| <= |vs| && Shape(regs) == TargetShape(tgt)
    requires forall k :: 0 <= k < |tgt.Hw()| ==> vs[k].TyOf() == PTR
    ensures RegTys(FragRegs(tgt, regs, vs, |tgt.Hw()|)) == StartRegs(tgt)
  {
    FragRegsAt(tgt, regs, vs, |tgt.Hw()|);
    forall r | 0 <= r < NUM_REGS
      ensures RegTys(FragRegs(tgt, regs, vs, |tgt.Hw()|))[r] == StartRegs(tgt)[r]
    {
      assert Shape(regs)[r] == TargetShape(tgt)[r];
      if tgt.IsMachine(r) {
        HwIndexed(tgt, r);
      }
    }
  }

  /** The registers of a fragment start as pointers, and its parameters with their types. */
  lemma BeginTypes(u: Unit, cg: CG, i: nat)
    requires UnitOK(u) && InRange(u, cg) && Fitted(u, cg) && i < |u.cl|
    requires i > 0 ==> u.cl[i].kind == INTERNAL && Shape(cg.regs) == TargetShape(u.tgt)
    ensures var cg' := BeginFrag(u, cg, i);
            TypesOf(cg') == Both(TypesOf(cg), FragTypes(u.tgt, u.cl[i])) && Fitted(u, cg')
  {
    hide TypedBlock, Clean, InsertVals, InsertTys, EntryTys;
    var f, nHw := u.cl[i], |u.tgt.Hw()|;
    var xs, tys := Names(f.params), LLTys(f.params);
    if i == 0 {
      InsertTysOK(map[], xs, EntryArgs(u.tgt, f), tys);
      assert RegTys(EntryRegs(u.tgt)) == StartRegs(u.tgt);
    } else {
      EntryPhiTys(u, cg, i);
      var vs := EntryPhis(u, cg, i);
      InsertTysOK(map[], xs, vs[nHw..], tys);
      FragRegTys(u.tgt, cg.regs, vs);
    }
    assert VarTys(map[]) == map[];
  }

  /** Generating one more fragment. */
  lemma FragVerdict(tgt: Target, fns: Fns, cl: Cluster, cg: CG, i: nat)
    requires tgt.Valid() && WellFormedCluster(tgt, fns, cl) && i < |cl|
    requires var u := UnitOf(tgt, fns, cl);
             UnitOK(u) && InRange(u, cg) && |u.cl| == |cl| && BodiesBelow(u) && Fitted(u, cg) && InvUpto(u, cg, i)
    ensures var u := UnitOf(tgt, fns, cl);
            && Fitted(u, GenFrag(u, cg, i))
            && TypesOf(GenFrag(u, cg, i))
               == Both(TypesOf(cg), Verdict(tgt, fns, cl, cl[i])).(vars := TypesOf(GenFrag(u, cg, i)).vars,
                                                                   regs := TypesOf(GenFrag(u, cg, i)).regs)
  {
    hide InitCluster, Numbered, BlocksBelow, WellFormed, Fitted, TypesOf, GenStm, BeginFrag, Flow, FragTypes, InitStm;
    var u := UnitOf(tgt, fns, cl);
    InitClusterOK(tgt, fns, cl);
    InitClusterFrags(tgt, cl);
    assert FragInit(tgt, cl, InitCluster(tgt, cl), i);
    if i > 0 {
      InvFacts(u, cg);
    }
    BeginTypes(u, cg, i);
    SameFragTypes(tgt, cl[i], u.cl[i]);
    var cg1, t, t0 := BeginFrag(u, cg, i), TypesOf(BeginFrag(u, cg, i)), FragTypes(tgt, cl[i]);
    GenStmTypes(u, cg1, u.cl[i].body);
    FlowInit(tgt, fns, cl, u.cl, t, cl[i].body, u.bbs[i] + 1);
    StepVerdict(tgt, fns, cl, TypesOf(cg), t, t0, cl[i].body);
  }

  lemma SameFragTypes(tgt: Target, f: Frag, f': Frag)
    requires |tgt.stkOffset| == NUM_REGS && f'.params == f.params
    ensures FragTypes(tgt, f') == FragTypes(tgt, f)
  {
  }

  /** Before the first fragment. */
  lemma StartTypes(tgt: Target, fns: Fns, cl: Cluster)
    requires tgt.Valid() && WellFormedCluster(tgt, fns, cl)
    ensures var u, cg := UnitOf(tgt, fns, cl), StartCG(tgt, cl);
            Fitted(u, cg) && TypesOf(cg).gotos && TypesOf(cg).checks && TypesOf(cg).fits
  {
    hide InitCluster, InitStm, Numbered, BlocksBelow, WellFormed;
    InitClusterOK(tgt, fns, cl);
    InitClusterFrags(tgt, cl);
    var u, cg, r := UnitOf(tgt, fns, cl), StartCG(tgt, cl), InitCluster(tgt, cl);
    forall i | 0 <= i < |u.bbs|
      ensures u.bbs[i] < |cg.blocks| && PhiTys(cg.blocks[u.bbs[i]].phis) == EntryTys(tgt, u.cl[i])
    {
      assert FragInit(tgt, cl, r, i);
    }
    forall d | 0 <= d < |cg.blocks|
      ensures TypedBlock(cg.blocks[d]) && Clean(cg.blocks[d].instrs)
    {
      assert cg.blocks[d] == EMPTY.(phis := cg.blocks[d].phis);
    }
  }

  /** After k fragments. */
  lemma {:induction false} GenFragsTypes(tgt: Target, fns: Fns, cl: Cluster, k: nat)
    requires tgt.Valid() && WellFormedCluster(tgt, fns, cl) && k <= |cl|
    ensures var u, cg := UnitOf(tgt, fns, cl), StartCG(tgt, cl);
            && UnitOK(u) && BodiesBelow(u) && InRange(u, cg) && |u.cl| == |cl|
            && Fitted(u, GenFrags(u, cg, k))
            && var t := TypesOf(GenFrags(u, cg, k));
               && (t.gotos <==> forall i :: 0 <= i < k ==> Verdict(tgt, fns, cl, cl[i]).gotos)
               && (t.checks <==> forall i :: 0 <= i < k ==> Verdict(tgt, fns, cl, cl[i]).checks)
               && (t.fits <==> forall i :: 0 <= i < k ==> Verdict(tgt, fns, cl, cl[i]).fits)
  {
    hide InitCluster, GenFrag, Fitted, TypesOf, Verdict, WellFormed, BlocksBelow, Inv, Upto;
    InitClusterOK(tgt, fns, cl);
    var u, cg := UnitOf(tgt, fns, cl), StartCG(tgt, cl);
    if k == 0 {
      StartTypes(tgt, fns, cl);
    } else {
      GenFragsTypes(tgt, fns, cl, k - 1);
      GenFragsInv(tgt, fns, cl, k - 1);
      FragVerdict(tgt, fns, cl, GenFrags(u, cg, k - 1), k - 1);
    }
  }

  // ----- results -----

  /** The block that the generator remembers is the one that raises Overflow. */
  lemma OverflowRaises(tgt: Target, fns: Fns, cl: Cluster, d: nat)
    requires tgt.Valid() && WellFormedCluster(tgt, fns, cl) && d < |GenCluster(tgt, fns, cl)|
    ensures var u := UnitOf(tgt, fns, cl);
            && UnitOK(u) && BodiesBelow(u) && InRange(u, StartCG(tgt, cl)) && |u.cl| == |cl|
            && (GenFrags(u, StartCG(tgt, cl), |cl|).ovf == Some(d) <==> Raises(GenCluster(tgt, fns, cl)[d]))
  {
    hide InitCluster, GenFrags;
    OneOverflowBlock(tgt, fns, cl);
    InitClusterFrags(tgt, cl);
    var u, cg := UnitOf(tgt, fns, cl), StartCG(tgt, cl);
    assert RaisesOnce(cg);
    GenFragsOnce(u, cg, |cl|);
  }

  /** In the blocks that do not raise Overflow, all incoming values have the types of their phi nodes if and
      only if every jump, along any path through a fragment, passes values that can be converted; and in the
      block that does, if and only if every overflow check finds pointers in the hardware registers. */
  lemma PhiTypes(tgt: Target, fns: Fns, cl: Cluster)
    requires tgt.Valid() && WellFormedCluster(tgt, fns, cl)
    ensures var blocks := GenCluster(tgt, fns, cl);
            && ((forall d :: 0 <= d < |blocks| && !Raises(blocks[d]) ==> TypedBlock(blocks[d]))
                <==> JumpsConvert(tgt, fns, cl))
            && ((forall d :: 0 <= d < |blocks| && Raises(blocks[d]) ==> TypedBlock(blocks[d]))
                <==> ChecksFindPointers(tgt, fns, cl))
            && (AllTyped(blocks) <==> JumpsConvert(tgt, fns, cl) && ChecksFindPointers(tgt, fns, cl))
  {
    hide InitCluster, GenFrags, Verdict, TypedBlock, Raises, Fitted, WellFormed;
    GenFragsTypes(tgt, fns, cl, |cl|);
    var u := UnitOf(tgt, fns, cl);
    var cg, blocks := GenFrags(u, StartCG(tgt, cl), |cl|), GenCluster(tgt, fns, cl);
    forall d | 0 <= d < |blocks|
      ensures cg.ovf == Some(d) <==> Raises(blocks[d])
    {
      OverflowRaises(tgt, fns, cl, d);
    }
    TypesAre(cg);
    OverflowInside(u, cg);
  }

  lemma OverflowInside(u: Unit, cg: CG)
    requires Fitted(u, cg)
    ensures cg.ovf.Some? ==> cg.ovf.value < |cg.blocks|
  {
  }

  /** The code generator gets through without a refused conversion if and only if every conversion that the
      source asks for, along any path through a fragment, is between pointers and integers. */
  lemma NothingRefusedIff(tgt: Target, fns: Fns, cl: Cluster)
    requires tgt.Valid() && WellFormedCluster(tgt, fns, cl)
    ensures NothingRefused(GenCluster(tgt, fns, cl)) <==> AllConvert(tgt, fns, cl)
  {
    hide InitCluster, GenFrags, Verdict, NothingRefused, Fitted, WellFormed;
    GenFragsTypes(tgt, fns, cl, |cl|);
    TypesAre(GenFrags(UnitOf(tgt, fns, cl), StartCG(tgt, cl), |cl|));
  }

  /** When the original gets through, all phi nodes outside the overflow block are typed. */
  lemma UnrefusedTyped(tgt: Target, fns: Fns, cl: Cluster)
    requires tgt.Valid() && WellFormedCluster(tgt, fns, cl) && NothingRefused(GenCluster(tgt, fns, cl))
    ensures AllTyped(GenCluster(tgt, fns, cl)) <==> ChecksFindPointers(tgt, fns, cl)
  {
    hide GenCluster, AllTyped, NothingRefused, Flow, WellFormedCluster;
    NothingRefusedIff(tgt, fns, cl);
    PhiTypes(tgt, fns, cl);
    forall i | 0 <= i < |cl|
      ensures Verdict(tgt, fns, cl, cl[i]).gotos
    {
      assert Verdict(tgt, fns, cl, cl[i]).fits;
      FitsJump(tgt, fns, cl, FragTypes(tgt, cl[i]), cl[i].body);
    }
  }

  // ----- examples -----

  /** A fragment that passes an integer of sz bits to one whose parameter has 64. */
  function WideJump(sz: nat): Cluster {
    [Frag(STD_FUN, 1, [], GOTO(2, [NUM(1, sz)])), Frag(INTERNAL, 2, [Param(0, INT(64))], GOTO(2, [VAR(0)]))]
  }

  lemma OneScoped(fns: Fns, e: Exp, scope: set<Lvar>)
    ensures ScopedAll(fns, [e], scope) == Scoped(fns, e, scope)
  {
    assert [e][..0] == [];
  }

  lemma WideJumpFormed(tgt: Target, sz: nat)
    ensures WellFormedCluster(tgt, map[], WideJump(sz))
  {
    var cl, es := WideJump(sz), [NUM(1, sz)];
    assert FindFrag(cl, 2) == Some(1) by {
      assert cl[..1][..0] == [];
      assert FindFrag(cl[..1], 2) == None;
    }
    OneScoped(map[], es[0], {});
    OneScoped(map[], VAR(0), {0});
    assert Names([Param(0, INT(64))]) == [0];
    assert Elems([0]) == {0} && Elems(Names([])) == {};
    assert WellFormed(tgt, map[], cl, cl[0].body, {}) && WellFormed(tgt, map[], cl, cl[1].body, {0});
  }

  lemma OneFits(t: Types, e: Exp)
    requires |t.regs| == NUM_REGS
    ensures AllFit(t, [e]) == ExpFits(t, e) && ArgTys(t, [e]) == [ExpTy(t, e)]
  {
    assert [e][..0] == [];
  }

  /** What the jumps of this cluster need. */
  lemma WideJumpFits(tgt: Target, sz: nat, i: nat, t: Types, e: Exp)
    requires tgt.Valid() && i < 2 && t.regs == StartRegs(tgt) && Fresh(t) == t && ExpFits(t, e)
    ensures var r := Flow(tgt, map[], WideJump(sz), t, GOTO(2, [e]));
            r.checks && r.gotos == r.fits == (ExpTy(t, e).PTR? || ExpTy(t, e) == INT(64))
  {
    var cl := WideJump(sz);
    WideJumpFormed(tgt, sz);
    assert FindFrag(cl, 2) == Some(1) by {
      assert cl[..1][..0] == [];
      assert FindFrag(cl[..1], 2) == None;
    }
    OneFits(t, e);
    StartPoints(tgt);
    var hw, n := HwTys(tgt, t.regs), |tgt.Hw()|;
    var srcs, dsts := hw + [ExpTy(t, e)], EntryTys(tgt, cl[1]);
    assert dsts == Ptrs(n) + [INT(64)];
    assert srcs[n] == ExpTy(t, e) && dsts[n] == INT(64);
    assert forall k :: 0 <= k < n ==> srcs[k] == PTR && dsts[k] == PTR;
  }

  lemma StartPoints(tgt: Target)
    requires |tgt.stkOffset| == NUM_REGS
    ensures HoldsPointers(tgt, StartRegs(tgt))
  {
  }

  /** Integers are not converted to integers of another size: a well-formed cluster without overflow checks in
      which the generator, and the types of the phi nodes, fail unless the sizes agree. */
  lemma WideJumpRefused(tgt: Target, sz: nat)
    requires tgt.Valid()
    ensures var cl := WideJump(sz);
            && WellFormedCluster(tgt, map[], cl) && ChecksFindPointers(tgt, map[], cl)
            && (NothingRefused(GenCluster(tgt, map[], cl)) <==> sz == 64)
            && (AllTyped(GenCluster(tgt, map[], cl)) <==> sz == 64)
  {
    hide GenCluster, AllTyped, NothingRefused, WellFormedCluster, Flow, FragTypes;
    var cl := WideJump(sz);
    WideJumpFormed(tgt, sz);
    NothingRefusedIff(tgt, map[], cl);
    PhiTypes(tgt, map[], cl);
    WideJumpVerdicts(tgt, sz);
    assert Verdict(tgt, map[], cl, cl[0]).checks && Verdict(tgt, map[], cl, cl[1]).checks;
  }

  lemma WideJumpVerdicts(tgt: Target, sz: nat)
    requires tgt.Valid()
    ensures var cl := WideJump(sz);
            && (var v := Verdict(tgt, map[], cl, cl[0]); v.checks && v.gotos == v.fits == (sz == 64))
            && (var v := Verdict(tgt, map[], cl, cl[1]); v.checks && v.gotos && v.fits)
  {
    hide Flow;
    var cl := WideJump(sz);
    WideJumpFits(tgt, sz, 0, FragTypes(tgt, cl[0]), NUM(1, sz));
    var t := FragTypes(tgt, cl[1]);
    assert Names([Param(0, INT(64))]) == [0] && LLTys([Param(0, INT(64))]) == [INT(64)];
    assert t.vars == InsertTys(map[], [0], [INT(64)]) == map[0 := INT(64)] by {
      assert InsertTys(map[], [0][..0], [INT(64)]) == map[];
    }
    WideJumpFits(tgt, sz, 1, t, VAR(0));
  }

  /** A function that makes e its exception handler and adds two numbers. */
  function HandlerThenAdd(lab: Lvar, e: Exp): Frag {
    Frag(STD_FUN, lab, [], SETTER(SET_HDLR, [e], ARITH(ArithOp(0, 64, true), [NUM(1, 64), NUM(2, 64)],
                                                       Param(0, INT(64)), APPLY(LABEL(lab), [], []))))
  }

  lemma HandlerFormed(tgt: Target, lab: Lvar, e: Exp)
    requires e == NUM(1, 64) || e == LABEL(lab)
    ensures WellFormedCluster(tgt, map[lab := FnInfo(STD_FUN, [])], [HandlerThenAdd(lab, e)])
  {
    var fns, f, es := map[lab := FnInfo(STD_FUN, [])], HandlerThenAdd(lab, e), [NUM(1, 64), NUM(2, 64)];
    OneScoped(fns, e, {});
    OneScoped(fns, es[0], {});
    assert es[..1] == [es[0]];
    assert ScopedAll(fns, es, {});
    assert WellFormed(tgt, fns, [f], f.body.k.k, {0});
    assert WellFormed(tgt, fns, [f], f.body.k, {});
    assert WellFormed(tgt, fns, [f], f.body, {});
    assert Elems(Names(f.params)) == {};
  }

  lemma HandlerVerdict(tgt: Target, lab: Lvar, e: Exp)
    requires tgt.Valid() && tgt.IsMachine(EXN_HNDLR) && (e == NUM(1, 64) || e == LABEL(lab))
    ensures var fns, f := map[lab := FnInfo(STD_FUN, [])], HandlerThenAdd(lab, e);
            var v := Verdict(tgt, fns, [f], f);
            v.gotos && v.fits && v.checks == (e == LABEL(lab))
  {
    var fns, f, es := map[lab := FnInfo(STD_FUN, [])], HandlerThenAdd(lab, e), [NUM(1, 64), NUM(2, 64)];
    var t := FragTypes(tgt, f);
    StartPoints(tgt);
    HwIndexed(tgt, EXN_HNDLR);
    OneFits(t, e);
    var t1 := SetterAfter(t, SET_HDLR, [e]);
    assert t1.regs == t.regs[EXN_HNDLR := Some(ExpTy(t, e))];
    assert HwTys(tgt, t1.regs)[tgt.HwIndex(EXN_HNDLR)] == ExpTy(t, e);
    OneFits(t1, es[0]);
    assert es[..1] == [es[0]];
    assert AllFit(t1, es);
    var t2 := ArithAfter(tgt, t1, ArithOp(0, 64, true), es, 0);
    var t3 := CallAfter(fns, t2, LABEL(lab), [], []);
    assert t3 == t2;
    assert Flow(tgt, fns, [f], t2, f.body.k.k) == t3;
    assert Flow(tgt, fns, [f], t1, f.body.k) == t3;
    assert Flow(tgt, fns, [f], t, f.body) == t3;
  }

  /** An integer as exception handler is converted by no one: all conversions of this well-formed cluster are
      allowed, but its overflow check passes an integer where the overflow block expects a pointer. With a
      label as handler all values have the right types. */
  lemma IntegerHandler(tgt: Target, lab: Lvar)
    requires tgt.Valid() && tgt.IsMachine(EXN_HNDLR)
    ensures var fns, cl := map[lab := FnInfo(STD_FUN, [])], [HandlerThenAdd(lab, NUM(1, 64))];
            && WellFormedCluster(tgt, fns, cl) && NothingRefused(GenCluster(tgt, fns, cl))
            && !AllTyped(GenCluster(tgt, fns, cl))
    ensures var fns, cl := map[lab := FnInfo(STD_FUN, [])], [HandlerThenAdd(lab, LABEL(lab))];
            && WellFormedCluster(tgt, fns, cl) && NothingRefused(GenCluster(tgt, fns, cl))
            && AllTyped(GenCluster(tgt, fns, cl))
  {
    HandlerTyped(tgt, lab, NUM(1, 64));
    HandlerTyped(tgt, lab, LABEL(lab));
  }

  lemma HandlerTyped(tgt: Target, lab: Lvar, e: Exp)
    requires tgt.Valid() && tgt.IsMachine(EXN_HNDLR) && (e == NUM(1, 64) || e == LABEL(lab))
    ensures var fns, cl := map[lab := FnInfo(STD_FUN, [])], [HandlerThenAdd(lab, e)];
            && WellFormedCluster(tgt, fns, cl) && NothingRefused(GenCluster(tgt, fns, cl))
            && (AllTyped(GenCluster(tgt, fns, cl)) <==> e == LABEL(lab))
  {
    hide GenCluster, AllTyped, NothingRefused, WellFormedCluster, Verdict;
    var fns, cl := map[lab := FnInfo(STD_FUN, [])], [HandlerThenAdd(lab, e)];
    HandlerFormed(tgt, lab, e);
    HandlerVerdict(tgt, lab, e);
    NothingRefusedIff(tgt, fns, cl);
    PhiTypes(tgt, fns, cl);
    assert cl[0] == HandlerThenAdd(lab, e);
  }
}
