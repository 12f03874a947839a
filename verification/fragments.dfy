/** Whole fragments: running the generated blocks from the start of a statement ends as the
    statement does. */
module Fragments {
  import opened Machine
  import opened CFG
  import opened IR
  import opened Codegen
  import opened Straight
  import opened Invariants
  import opened Structure
  import opened Simulate
  import opened Preserve
  import opened Meaning

  /** Everything that generating s needs: the invariant, the simulation at the insertion
      point, scoping, binders that are new, and a final function that contains the result. */
  ghost predicate Given(u: Unit, x: Exe, fin: seq<Block>, cg: CG, s: Stm, lo: nat, hi: nat, st: State) {
    && Ready(u, cg, s, lo, hi) && Here(u, x, cg, st)
    && WellFormed(u.tgt, u.fns, u.cl, s, st.env.Keys)
    && cg.vMap.Keys !! Binders(s)
    && Ext(GenStm(u, cg, s).blocks, fin)
  }

  /** After n blocks the generated code ends as s does. */
  ghost predicate Finishes(u: Unit, x: Exe, fin: seq<Block>, cg: CG, s: Stm, st: State, n: nat) {
    && |x.m.tgt.stkOffset| == NUM_REGS == |st.regs| && x.m.tgt.wordSz > 0
    && n >= 1 && Ends(u, x.m, fin, RunBlocks(x.m, x.fargs, fin, n, At(cg.cur, x.t0)), RunStm(x.m, u.fns, s, st))
  }

  /** The same end reached through n0 blocks before. */
  lemma After(u: Unit, x: Exe, fin: seq<Block>, cg: CG, s: Stm, st: State, n0: nat, x1: Exe, cg1: CG, k: Stm,
              st1: State, n1: nat)
    requires |x.m.tgt.stkOffset| == NUM_REGS && x.m.tgt.wordSz > 0
    requires |st.regs| == NUM_REGS == |st1.regs| && x1.m == x.m && x1.fargs == x.fargs
    requires RunBlocks(x.m, x.fargs, fin, n0, At(cg.cur, x.t0)) == At(cg1.cur, x1.t0)
    requires RunStm(x.m, u.fns, s, st) == RunStm(x.m, u.fns, k, st1)
    requires Finishes(u, x1, fin, cg1, k, st1, n1)
    ensures Finishes(u, x, fin, cg, s, st, n0 + n1)
  {
    hide Ends, RunStm, StepBlock;
    RunBlocksAdd(x.m, x.fargs, fin, n0, n1, At(cg.cur, x.t0));
  }

  /** What the next statement needs. */
  lemma NextGiven(u: Unit, x: Exe, fin: seq<Block>, cg: CG, s: Stm, lo: nat, hi: nat, st: State,
                  x1: Exe, cg1: CG, k: Stm, st1: State, xs: set<Lvar>)
    requires Given(u, x, fin, cg, s, lo, hi, st) && Step(u, cg, cg1) && Numbered(k, lo, hi) && BlocksBelow(k, u.n)
    requires Here(u, x1, cg1, st1) && st1.env.Keys == st.env.Keys + xs
    requires WellFormed(u.tgt, u.fns, u.cl, k, st.env.Keys + xs)
    requires MapExt(cg.vMap, cg1.vMap, xs) && xs !! Binders(k) && Binders(k) <= Binders(s)
    requires GenStm(u, cg, s) == GenStm(u, cg1, k)
    ensures Given(u, x1, fin, cg1, k, lo, hi, st1)
  {
    hide GenStm, Inv, Here, WellFormed, Step;
    SeqReady(u, cg, cg1, s, k, lo, hi);
  }

  lemma StepExt(u: Unit, cg: CG, cg1: CG, s: Stm, k: Stm, lo: nat, hi: nat, scope: set<Lvar>, fin: seq<Block>)
    requires Ready(u, cg, s, lo, hi) && Step(u, cg, cg1) && Numbered(k, lo, hi) && BlocksBelow(k, u.n)
    requires WellFormed(u.tgt, u.fns, u.cl, k, scope) && Ext(GenStm(u, cg1, k).blocks, fin)
    ensures Ext(cg1.blocks, fin)
  {
    SeqReady(u, cg, cg1, s, k, lo, hi);
    GenStmInv(u, cg1, k, lo, hi, scope);
    ExtTrans(cg1.blocks, GenStm(u, cg1, k).blocks, fin);
  }

  /** Meaning preservation for statements. */
  lemma {:induction false} GenStmOK(u: Unit, x: Exe, fin: seq<Block>, cg: CG, s: Stm, lo: nat, hi: nat, st: State)
      returns (n: nat)
    requires Given(u, x, fin, cg, s, lo, hi, st)
    ensures Finishes(u, x, fin, cg, s, st, n)
    decreases s, 1
  {
    match s
    case LET(_, _, _) => n := LetStmOK(u, x, fin, cg, s, lo, hi, st);
    case ALLOC(_, _, _, _) => n := AllocOK(u, x, fin, cg, s, lo, hi, st);
    case SETTER(_, _, _) => n := SetterOK(u, x, fin, cg, s, lo, hi, st);
    case CALLGC(_, _, _) => n := GcOK(u, x, fin, cg, s, lo, hi, st);
    case ARITH(_, _, _, _) => n := ArithOK(u, x, fin, cg, s, lo, hi, st);
    case BRANCH(_, _, _, _, _, _) => n := BranchOK(u, x, fin, cg, s, lo, hi, st);
    case SWITCH(_, _, _) => n := SwitchStmOK(u, x, fin, cg, s, lo, hi, st);
    case APPLY(_, _, _) => EndOK(u, x, fin, cg, s, lo, hi, st); n := 1;
    case THROW(_, _, _) => EndOK(u, x, fin, cg, s, lo, hi, st); n := 1;
    case GOTO(_, _) => EndOK(u, x, fin, cg, s, lo, hi, st); n := 1;
  }

  lemma EndOK(u: Unit, x: Exe, fin: seq<Block>, cg: CG, s: Stm, lo: nat, hi: nat, st: State)
    requires Given(u, x, fin, cg, s, lo, hi, st) && (s.APPLY? || s.THROW? || s.GOTO?)
    ensures Finishes(u, x, fin, cg, s, st, 1)
  {
    hide Eval, EvalAll, GenExps, RunCode, RegOK, Holds, StepBlock, Ext, PhisOK, SuccsOK, IdsOK, FragsOK, OverflowOK,
         GenCastExps, GenExp, CastAll;
    match s
    case APPLY(f, args, tys) =>
      var c := GenCallee(u, cg.vMap, EmOf(cg), f, STD_FUN, tys);
      CalleeOK(u, x, cg, st, f, STD_FUN, tys);
      CallOK(u, x, cg, st, c, Eval(x.m, f, st), c.kind, args, fin);
    case THROW(f, args, tys) =>
      var c := GenCallee(u, cg.vMap, EmOf(cg), f, STD_CONT, tys);
      CalleeOK(u, x, cg, st, f, STD_CONT, tys);
      CallOK(u, x, cg, st, c, Eval(x.m, f, st), STD_CONT, args, fin);
    case GOTO(lab, args) =>
      GotoOK(u, x, cg, st, FindFrag(u.cl, lab).value, args, fin);
  }

  lemma HeadCur(u: Unit, cg: CG)
    requires InRange(u, cg)
    ensures forall e, p :: GenLet(u, cg, e, p).cur == cg.cur
    ensures forall alloc, args, y :: GenAllocStm(u, cg, alloc, args, y).cur == cg.cur
    ensures forall setter, args :: GenSetterStm(u, cg, setter, args).cur == cg.cur
    ensures forall roots, xs :: GenGCStm(u, cg, roots, xs).cur == cg.cur
  {
  }

  lemma {:induction false} LetStmOK(u: Unit, x: Exe, fin: seq<Block>, cg: CG, s: Stm, lo: nat, hi: nat, st: State)
      returns (n: nat)
    requires Given(u, x, fin, cg, s, lo, hi, st) && s.LET?
    ensures Finishes(u, x, fin, cg, s, st, n)
    decreases s, 0
  {
    hide GenLet, RunCode, RegOK, Holds, Eval;
    HeadInv(u, cg);
    HeadMap(u, cg);
    HeadCur(u, cg);
    var LET(e, p, k) := s;
    LetOK(u, x, cg, st, e, p);
    n := NextOK(u, x, fin, cg, s, lo, hi, st, GenLet(u, cg, e, p), k,
                st.(env := st.env[p.name := Eval(x.m, e, st)]), {p.name});
  }

  lemma {:induction false} AllocOK(u: Unit, x: Exe, fin: seq<Block>, cg: CG, s: Stm, lo: nat, hi: nat, st: State)
      returns (n: nat)
    requires Given(u, x, fin, cg, s, lo, hi, st) && s.ALLOC?
    ensures Finishes(u, x, fin, cg, s, st, n)
    decreases s, 0
  {
    hide GenAllocStm, RunCode, RegOK, Holds, EvalAll, Allocate;
    HeadInv(u, cg);
    HeadMap(u, cg);
    HeadCur(u, cg);
    var ALLOC(alloc, args, y, k) := s;
    var a := Allocate(x.m.tgt, alloc, EvalAll(x.m, args, st), st.regs[ALLOC_PTR], st.mem);
    AllocStmOK(u, x, cg, st, alloc, args, y);
    n := NextOK(u, x, fin, cg, s, lo, hi, st, GenAllocStm(u, cg, alloc, args, y), k,
                State(st.env[y := a.obj], st.regs[ALLOC_PTR := a.next], a.mem), {y});
  }

  lemma {:induction false} SetterOK(u: Unit, x: Exe, fin: seq<Block>, cg: CG, s: Stm, lo: nat, hi: nat, st: State)
      returns (n: nat)
    requires Given(u, x, fin, cg, s, lo, hi, st) && s.SETTER?
    ensures Finishes(u, x, fin, cg, s, st, n)
    decreases s, 0
  {
    hide GenSetterStm, RunCode, RegOK, Holds, EvalAll, Set;
    HeadInv(u, cg);
    HeadMap(u, cg);
    HeadCur(u, cg);
    var SETTER(setter, args, k) := s;
    var a := Set(x.m.tgt, setter, EvalAll(x.m, args, st), st.regs, st.mem);
    SetterStmOK(u, x, cg, st, setter, args);
    n := NextOK(u, x, fin, cg, s, lo, hi, st, GenSetterStm(u, cg, setter, args), k, State(st.env, a.regs, a.mem), {});
  }

  /** Going on with k, in the same block. */
  lemma {:induction false} NextOK(u: Unit, x: Exe, fin: seq<Block>, cg: CG, s: Stm, lo: nat, hi: nat, st: State,
                                  cg1: CG, k: Stm, st1: State, xs: set<Lvar>) returns (n: nat)
    requires Given(u, x, fin, cg, s, lo, hi, st) && Step(u, cg, cg1) && cg1.cur == cg.cur
    requires (s.LET? && k == s.k) || (s.ALLOC? && k == s.k) || (s.SETTER? && k == s.k) || (s.CALLGC? && k == s.k)
    requires BlocksBelow(k, u.n) && GenStm(u, cg, s) == GenStm(u, cg1, k)
    requires Here(u, x, cg1, st1) && st1.env.Keys == st.env.Keys + xs
    requires WellFormed(u.tgt, u.fns, u.cl, k, st.env.Keys + xs)
    requires MapExt(cg.vMap, cg1.vMap, xs) && xs !! Binders(k) && Binders(k) <= Binders(s)
    requires RunStm(x.m, u.fns, s, st) == RunStm(x.m, u.fns, k, st1)
    ensures Finishes(u, x, fin, cg, s, st, n)
    decreases k, 2
  {
    hide GenStm, RunStm, WellFormed, Step, Binders, Inv;
    NextGiven(u, x, fin, cg, s, lo, hi, st, x, cg1, k, st1, xs);
    n := GenStmOK(u, x, fin, cg1, k, lo, hi, st1);
  }

  lemma {:induction false} GcOK(u: Unit, x: Exe, fin: seq<Block>, cg: CG, s: Stm, lo: nat, hi: nat, st: State)
      returns (n: nat)
    requires Given(u, x, fin, cg, s, lo, hi, st) && s.CALLGC?
    ensures Finishes(u, x, fin, cg, s, st, n)
    decreases s, 0
  {
    hide GenGCStm, RunCode, RegOK, Holds, EvalAll, GcRegs, GcRoots;
    var CALLGC(roots, xs, k) := s;
    var vals := EvalAll(x.m, roots, st);
    var st1 := State(BindAll(st.env, xs, GcRoots(x.m, |xs|, st.regs, vals, st.mem)),
                     GcRegs(x.m, st.regs, vals, st.mem), x.m.ops.gcMem(st.regs, vals, st.mem));
    var cg1 := GenGCStm(u, cg, roots, xs);
    GCStmOK(u, x, cg, st, roots, xs);
    GCStmInv(u, cg, roots, xs);
    GCMap(u, cg, roots, xs);
    HeadCur(u, cg);
    n := NextOK(u, x, fin, cg, s, lo, hi, st, cg1, k, st1, Elems(xs));
  }

  lemma ArithFacts(u: Unit, cg: CG, s: Stm, lo: nat, hi: nat, scope: set<Lvar>)
    requires s.ARITH? && Ready(u, cg, s, lo, hi) && WellFormed(u.tgt, u.fns, u.cl, s, scope)
    ensures Numbered(s.k, lo, hi) && BlocksBelow(s.k, u.n) && ScopedAll(u.fns, s.args, scope)
    ensures WellFormed(u.tgt, u.fns, u.cl, s.k, scope + {s.p.name})
    ensures s.p.name !in Binders(s.k) && Binders(s) == {s.p.name} + Binders(s.k)
    ensures UnitOK(u) && InRange(u, cg)
    ensures GenStm(u, cg, s) == GenStm(u, GenArithStm(u, cg, s.arith, s.args, s.p), s.k)
  {
    hide GenArithStm, PhisOK, SuccsOK, IdsOK, FragsOK, OverflowOK;
  }

  lemma ArithStatic(u: Unit, cg: CG, s: Stm, lo: nat, hi: nat, scope: set<Lvar>, fin: seq<Block>)
    requires s.ARITH? && Ready(u, cg, s, lo, hi) && WellFormed(u.tgt, u.fns, u.cl, s, scope)
    requires Ext(GenStm(u, cg, s).blocks, fin)
    ensures var cg1 := GenArithStm(u, cg, s.arith, s.args, s.p);
            Step(u, cg, cg1) && Ext(cg1.blocks, fin) && MapExt(cg.vMap, cg1.vMap, {s.p.name})
  {
    hide GenArithStm, Inv, Numbered, BlocksBelow, WellFormed, Binders, GenStm;
    ArithFacts(u, cg, s, lo, hi, scope);
    ArithStmInv(u, cg, s.arith, s.args, s.p);
    HeadMap(u, cg);
    StepExt(u, cg, GenArithStm(u, cg, s.arith, s.args, s.p), s, s.k, lo, hi, scope + {s.p.name}, fin);
  }

  lemma {:induction false} ArithOK(u: Unit, x: Exe, fin: seq<Block>, cg: CG, s: Stm, lo: nat, hi: nat, st: State)
      returns (n: nat)
    requires Given(u, x, fin, cg, s, lo, hi, st) && s.ARITH?
    ensures Finishes(u, x, fin, cg, s, st, n)
    decreases s, 0
  {
    hide GenArithStm, RunCode, RegOK, Holds, EvalAll, Ext, Step, StepBlock, Inv, Numbered, BlocksBelow,
         WellFormed, Binders, GenStm;
    ArithFacts(u, cg, s, lo, hi, st.env.Keys);
    var ARITH(arith, args, p, k) := s;
    var vals := EvalAll(x.m, args, st);
    var st1 := st.(env := st.env[p.name := x.m.ops.arith(arith.code, vals)]);
    var cg1 := GenArithStm(u, cg, arith, args, p);
    ArithStatic(u, cg, s, lo, hi, st.env.Keys, fin);
    var n0, x1 := ArithStmOK(u, x, cg, st, arith, args, p, fin);
    if arith.checked && x.m.ops.overflows(arith.code, vals) {
      n := n0;
    } else {
      NextGiven(u, x, fin, cg, s, lo, hi, st, x1, cg1, k, st1, {p.name});
      var n1 := GenStmOK(u, x1, fin, cg1, k, lo, hi, st1);
      After(u, x, fin, cg, s, st, n0, x1, cg1, k, st1, n1);
      n := n0 + n1;
    }
  }

  /** What an arm needs, at the empty block where it starts. */
  lemma ArmGiven(u: Unit, x: Exe, fin: seq<Block>, vMap: VMap, em: Em, cg: CG, bb: nat, s: Stm, hi: nat, st: State)
    requires x.m.tgt == u.tgt && Sim(x, vMap, em, st) && em.next <= cg.next && Shape(em.regs) == Shape(cg.regs)
    requires forall y :: y in vMap ==> y in cg.vMap && cg.vMap[y] == vMap[y]
    requires Inv(u, cg) && UnitKinds(u) && bb < hi <= u.n && Numbered(s, bb + 1, hi) && Pristine(cg.blocks, bb, hi)
    requires BlocksBelow(s, u.n) && WellFormed(u.tgt, u.fns, u.cl, s, st.env.Keys) && cg.vMap.Keys !! Binders(s)
    requires Ext(GenStm(u, AtArm(cg, bb, em.regs), s).blocks, fin)
    ensures Given(u, x.(t0 := Mid(x, em).value), fin, AtArm(cg, bb, em.regs), s, bb + 1, hi, st)
  {
    hide GenStm, Binders, WellFormed, Numbered;
    CarrySim(x, vMap, em, st, cg.vMap, cg.next);
    ArmReady(u, cg, bb, em.regs, s, hi);
  }

  lemma {:induction false} BranchOK(u: Unit, x: Exe, fin: seq<Block>, cg: CG, s: Stm, lo: nat, hi: nat, st: State)
      returns (n: nat)
    requires Given(u, x, fin, cg, s, lo, hi, st) && s.BRANCH?
    ensures Finishes(u, x, fin, cg, s, st, n)
    decreases s, 0
  {
    hide GenCondBr, RunCode, RegOK, Holds, EvalAll, Ext, Test, Inv, Pristine, StepBlock, BlocksBelow, Numbered,
         WellFormed;
    InvFacts(u, cg);
    var BRANCH(test, args, t, f, _, mid) := s;
    var em, a1, a2 := BranchParts(u, x, fin, cg, s, lo, hi, st);
    var x1 := x.(t0 := Mid(x, em).value);
    if Test(x.m, test, EvalAll(x.m, args, st), st.regs) {
      var n1 := GenStmOK(u, x1, fin, a1, t, lo + 1, mid, st);
      After(u, x, fin, cg, s, st, 1, x1, a1, t, st, n1);
      n := 1 + n1;
    } else {
      var n1 := GenStmOK(u, x1, fin, a2, f, mid + 1, hi, st);
      After(u, x, fin, cg, s, st, 1, x1, a2, f, st, n1);
      n := 1 + n1;
    }
  }

  /** Both arms of a branch are generated at empty blocks, and end up in the final function. */
  lemma BranchStatic(u: Unit, cg: CG, s: Stm, lo: nat, hi: nat, scope: set<Lvar>, fin: seq<Block>)
    requires s.BRANCH? && Ready(u, cg, s, lo, hi) && WellFormed(u.tgt, u.fns, u.cl, s, scope)
    requires Ext(GenStm(u, cg, s).blocks, fin)
    ensures var cg1 := GenCondBr(u, cg, s.test, s.args, lo, s.fBB);
            var cg2 := GenStm(u, AtArm(cg1, lo, cg1.regs), s.tArm);
            && SplitHead(u, cg, cg1) && Pristine(cg1.blocks, lo, hi) && Ext(cg1.blocks, fin) && Ext(cg2.blocks, fin)
            && Inv(u, cg2) && Pristine(cg2.blocks, s.fBB, hi) && cg1.next <= cg2.next
            && MapExt(cg1.vMap, cg2.vMap, Binders(s.tArm))
  {
    hide GenCondBr, Inv, Ext, BlockExt, GenStm, Numbered, BlocksBelow, WellFormed, Binders;
    BranchFacts(u, cg, s, lo, hi, scope);
    var BRANCH(test, args, t, f, _, mid) := s;
    var cg1 := GenCondBr(u, cg, test, args, lo, mid);
    CondBrInv(u, cg, test, args, lo, mid);
    InvFacts(u, cg1);
    StillPristine(cg.blocks, cg1.blocks, lo, hi);
    ArmInv(u, cg1, lo, cg1.regs, t, mid, scope);
    var cg2 := GenStm(u, AtArm(cg1, lo, cg1.regs), t);
    InvFacts(u, cg2);
    GenStmMap(u, AtArm(cg1, lo, cg1.regs), t);
    StillPristine(cg1.blocks, cg2.blocks, mid, hi);
    ArmInv(u, cg2, mid, cg1.regs, f, hi, scope);
    ExtTrans(cg2.blocks, GenStm(u, AtArm(cg2, mid, cg1.regs), f).blocks, fin);
    ExtTrans(cg1.blocks, cg2.blocks, fin);
  }

  /** Both arms of a branch start from the registers and variables of the split, the false arm
      in spite of all that was generated for the true one. */
  lemma BranchParts(u: Unit, x: Exe, fin: seq<Block>, cg: CG, s: Stm, lo: nat, hi: nat, st: State)
      returns (em: Em, a1: CG, a2: CG)
    requires Given(u, x, fin, cg, s, lo, hi, st) && s.BRANCH?
    ensures |x.m.tgt.stkOffset| == NUM_REGS && Mid(x, em).Some?
    ensures var x1 := x.(t0 := Mid(x, em).value);
            && Given(u, x1, fin, a1, s.tArm, lo + 1, s.fBB, st) && Given(u, x1, fin, a2, s.fArm, s.fBB + 1, hi, st)
            && a1.cur == lo && a2.cur == s.fBB
            && RunBlocks(x.m, x.fargs, fin, 1, At(cg.cur, x.t0)) ==
               At(if Test(x.m, s.test, EvalAll(x.m, s.args, st), st.regs) then lo else s.fBB, x1.t0)
  {
    hide GenCondBr, EvalAll, Test, RunCode, RegOK, Holds, Ext, SameCode, Inv, GenStm, Numbered, BlocksBelow,
         WellFormed, Binders;
    BranchFacts(u, cg, s, lo, hi, st.env.Keys);
    var BRANCH(test, args, t, f, _, mid) := s;
    var cg1 := GenCondBr(u, cg, test, args, lo, mid);
    BranchStatic(u, cg, s, lo, hi, st.env.Keys, fin);
    InvFacts(u, cg1);
    a1 := AtArm(cg1, lo, cg1.regs);
    var cg2 := GenStm(u, a1, t);
    InvFacts(u, cg2);
    a2 := AtArm(cg2, mid, cg1.regs);
    em := CondBrOK(u, x, cg, st, test, args, lo, mid, fin);
    assert Pristine(cg1.blocks, lo, mid) && Pristine(cg.blocks, lo, hi);
    ArmGiven(u, x, fin, cg.vMap, em, cg1, lo, t, mid, st);
    ArmGiven(u, x, fin, cg.vMap, em, cg2, mid, f, hi, st);
  }

  lemma SwitchFacts(u: Unit, cg: CG, s: Stm, lo: nat, hi: nat, scope: set<Lvar>)
    requires s.SWITCH? && Ready(u, cg, s, lo, hi) && WellFormed(u.tgt, u.fns, u.cl, s, scope)
    ensures |s.arms| == |s.bbs| && NumberedArms(s.arms, s.bbs, lo, hi) && ArmsBelow(s.arms, u.n)
    ensures forall i :: 0 <= i < |s.bbs| ==>
              lo <= s.bbs[i] < hi && s.bbs[i] < u.n && cg.blocks[s.bbs[i]] == EMPTY && s.bbs[i] != cg.cur
    ensures Scoped(u.fns, s.e, scope) && WellFormedArms(u.tgt, u.fns, u.cl, s.arms, scope)
    ensures Binders(s) == ArmBinders(s.arms) && UnitOK(u) && InRange(u, cg) && hi <= |cg.blocks|
    ensures GenStm(u, cg, s) == GenArms(u, GenSwitch(u, cg, s.e, s.bbs), s.arms, s.bbs)
  {
    hide GenSwitch, PhisOK, SuccsOK, IdsOK, FragsOK, OverflowOK;
    NumberedArmsBelow(s.arms, s.bbs, lo, hi, u.n);
  }

  lemma SwitchStatic(u: Unit, cg: CG, s: Stm, lo: nat, hi: nat, scope: set<Lvar>, fin: seq<Block>)
    requires s.SWITCH? && Ready(u, cg, s, lo, hi) && WellFormed(u.tgt, u.fns, u.cl, s, scope)
    requires Ext(GenStm(u, cg, s).blocks, fin)
    ensures var cg1 := GenSwitch(u, cg, s.e, s.bbs);
            && SplitHead(u, cg, cg1) && Pristine(cg1.blocks, lo, hi) && Ext(cg1.blocks, fin)
            && forall i :: 0 <= i < |s.bbs| ==> lo <= s.bbs[i] < hi
  {
    hide GenSwitch, Inv, Ext, BlockExt, Numbered, BlocksBelow, WellFormed, Binders, GenStm;
    SwitchFacts(u, cg, s, lo, hi, scope);
    var SWITCH(e, arms, bbs) := s;
    var cg1 := GenSwitch(u, cg, e, bbs);
    SwitchHeadInv(u, cg, e, bbs);
    StillPristine(cg.blocks, cg1.blocks, lo, hi);
    GenArmsInv(u, cg1, arms, bbs, lo, hi, scope);
    ExtTrans(cg1.blocks, GenArms(u, cg1, arms, bbs).blocks, fin);
  }

  lemma {:induction false} SwitchStmOK(u: Unit, x: Exe, fin: seq<Block>, cg: CG, s: Stm, lo: nat, hi: nat, st: State)
      returns (n: nat)
    requires Given(u, x, fin, cg, s, lo, hi, st) && s.SWITCH?
    ensures Finishes(u, x, fin, cg, s, st, n)
    decreases s, 0
  {
    hide GenSwitch, Eval, RunCode, RegOK, Holds, Ext, Inv, Numbered, BlocksBelow, WellFormed, Binders, GenStm;
    SwitchFacts(u, cg, s, lo, hi, st.env.Keys);
    var SWITCH(e, arms, bbs) := s;
    var cg1 := GenSwitch(u, cg, e, bbs);
    SwitchStatic(u, cg, s, lo, hi, st.env.Keys, fin);
    InvFacts(u, cg1);
    var em := SwitchOK(u, x, cg, st, e, bbs, fin);
    var i := Eval(x.m, e, st) % 0x1_0000_0000;
    if i < |arms| {
      var cg', n1 := ArmsOK(u, x, fin, cg.vMap, em, cg1, arms, bbs, lo, hi, st, i);
      After(u, x, fin, cg, s, st, 1, x.(t0 := Mid(x, em).value), cg', arms[i], st, n1);
      n := 1 + n1;
    } else {
      n := 2;
    }
  }

  lemma ArmsStatic(u: Unit, cg: CG, arms: seq<Stm>, bbs: seq<nat>, lo: nat, hi: nat, scope: set<Lvar>, fin: seq<Block>)
    requires Inv(u, cg) && UnitKinds(u) && 0 < |arms| <= |bbs| && NumberedArms(arms, bbs, lo, hi)
             && ArmsBelow(arms, u.n)
    requires forall j :: 0 <= j < |bbs| ==> bbs[j] < u.n
    requires hi <= u.n && Pristine(cg.blocks, lo, hi) && WellFormedArms(u.tgt, u.fns, u.cl, arms, scope)
    requires Ext(GenArms(u, cg, arms, bbs).blocks, fin)
    ensures var last := |arms| - 1;
            var cg1, mid := GenArms(u, cg, arms[..last], bbs), bbs[last];
            && lo <= mid < hi && Inv(u, cg1) && Pristine(cg1.blocks, mid, hi) && cg.next <= cg1.next
            && Pristine(cg.blocks, lo, mid)
            && Ext(cg1.blocks, fin) && Ext(GenStm(u, AtArm(cg1, mid, cg.regs), arms[last]).blocks, fin)
            && MapExt(cg.vMap, cg1.vMap, ArmBinders(arms[..last]))
  {
    var last := |arms| - 1;
    var mid := bbs[last];
    NumberedArmsBelow(arms[..last], bbs, lo, mid, u.n);
    GenArmsInv(u, cg, arms[..last], bbs, lo, mid, scope);
    var cg1 := GenArms(u, cg, arms[..last], bbs);
    StillPristine(cg.blocks, cg1.blocks, mid, hi);
    ArmInv(u, cg1, mid, cg.regs, arms[last], hi, scope);
    ExtTrans(cg1.blocks, GenStm(u, AtArm(cg1, mid, cg.regs), arms[last]).blocks, fin);
    GenArmsMap(u, cg, arms[..last], bbs);
  }

  /** The i-th arm of a switch, generated after the arms before it. */
  lemma {:induction false} ArmsOK(u: Unit, x: Exe, fin: seq<Block>, vMap: VMap, em: Em, cg: CG, arms: seq<Stm>,
                                  bbs: seq<nat>, lo: nat, hi: nat, st: State, i: nat) returns (cg': CG, n: nat)
    requires x.m.tgt == u.tgt && Sim(x, vMap, em, st) && em.next <= cg.next && em.regs == cg.regs && vMap == cg.vMap
    requires Inv(u, cg) && UnitKinds(u) && |arms| <= |bbs| && NumberedArms(arms, bbs, lo, hi) && ArmsBelow(arms, u.n)
    requires forall j :: 0 <= j < |bbs| ==> bbs[j] < u.n
    requires hi <= u.n && Pristine(cg.blocks, lo, hi) && WellFormedArms(u.tgt, u.fns, u.cl, arms, st.env.Keys)
    requires i < |arms| && cg.vMap.Keys !! ArmBinders(arms) && Ext(GenArms(u, cg, arms, bbs).blocks, fin)
    ensures cg'.cur == bbs[i]
    ensures Finishes(u, x.(t0 := Mid(x, em).value), fin, cg', arms[i], st, n)
    decreases arms, 1
  {
    hide RunCode, RunStm, Ends, RegOK, Holds, Ext, Pristine, Inv, Numbered, BlocksBelow, WellFormed, Binders, GenStm;
    InvFacts(u, cg);
    var last := |arms| - 1;
    var mid := bbs[last];
    ArmsStatic(u, cg, arms, bbs, lo, hi, st.env.Keys, fin);
    var cg1 := GenArms(u, cg, arms[..last], bbs);
    InvFacts(u, cg1);
    if i < last {
      cg', n := ArmsOK(u, x, fin, vMap, em, cg, arms[..last], bbs, lo, mid, st, i);
    } else {
      ArmGiven(u, x, fin, vMap, em, cg1, mid, arms[last], hi, st);
      cg' := AtArm(cg1, mid, cg.regs);
      n := GenStmOK(u, x.(t0 := Mid(x, em).value), fin, cg', arms[last], mid + 1, hi, st);
    }
  }
}
