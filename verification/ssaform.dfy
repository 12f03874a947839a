/** The generated function is in SSA form: whole statements, fragments and clusters. */
module SSAForm {
  import opened Machine
  import opened CFG
  import opened IR
  import opened Codegen
  import opened ValueTypes
  import opened Emission
  import opened Invariants
  import opened Structure
  import opened Simulate
  import opened Fragments
  import opened ClusterGen
  import opened Typing
  import opened SSA
  import opened Dominance

  // ----- whole statements -----

  /** Everything that generating s needs. */
  ghost predicate Able(u: Unit, cg: CG, s: Stm, lo: nat, hi: nat, scope: set<Lvar>, av: seq<set<nat>>, base: nat) {
    && Ready(u, cg, s, lo, hi) && WellFormed(u.tgt, u.fns, u.cl, s, scope)
    && cg.vMap.Keys !! Binders(s) && scope <= cg.vMap.Keys && Fitted(u, cg)
    && Writing(u.tgt, cg, av, base) && KnowsHere(u, cg, av, base, scope) && Targets(u, cg, av, lo, hi, [], {})
  }

  ghost predicate Dominated(u: Unit, cg: CG, cg': CG, av: seq<set<nat>>, av': seq<set<nat>>, lo: nat, hi: nat) {
    Sound(u.tgt, cg'.blocks, av', cg'.next) && Grew(u, cg, cg', av, av', lo, hi)
  }

  lemma AbleFacts(u: Unit, cg: CG, s: Stm, lo: nat, hi: nat, scope: set<Lvar>, av: seq<set<nat>>, base: nat)
    requires Able(u, cg, s, lo, hi, scope, av, base)
    ensures Inv(u, cg) && Open(cg) && UnitKinds(u) && InRange(u, cg) && UnitOK(u) && BlocksBelow(s, u.n)
    ensures !(lo <= cg.cur < hi) && Pristine(cg.blocks, lo, hi) && hi <= u.n && Numbered(s, lo, hi)
    ensures cg.ovf.Some? ==> u.n <= cg.ovf.value < |av| && av[cg.ovf.value] == {}
    ensures HeapPtrs(RegTys(cg.regs)) && |av| == |cg.blocks|
  {
    hide Numbered, BlocksBelow, PhisOK, SuccsOK, IdsOK, FragsOK, OverflowOK, HeapPtrs, Sound;
  }

  /** The next statement. */
  lemma {:induction false} NextSound(u: Unit, cg: CG, s: Stm, lo: nat, hi: nat, scope: set<Lvar>, av: seq<set<nat>>,
                                     base: nat, cg1: CG, k: Stm, xs: set<Lvar>, av1: seq<set<nat>>, base1: nat)
      returns (av': seq<set<nat>>)
    requires Able(u, cg, s, lo, hi, scope, av, base) && Step(u, cg, cg1) && Numbered(k, lo, hi) && BlocksBelow(k, u.n)
    requires UnitOK(u) && InRange(u, cg1) && WellFormed(u.tgt, u.fns, u.cl, k, scope + xs)
    requires MapExt(cg.vMap, cg1.vMap, xs) && xs <= cg1.vMap.Keys && xs !! Binders(k) && Binders(k) <= Binders(s)
    requires Fitted(u, cg1) && Writing(u.tgt, cg1, av1, base1) && KnowsHere(u, cg1, av1, base1, scope + xs)
    requires Grew(u, cg, cg1, av, av1, lo, lo)
    ensures Dominated(u, cg, GenStm(u, cg1, k), av, av', lo, hi)
    decreases k, 2
  {
    hide GenStm, Inv, WellFormed, Step, Fitted, Writing, KnowsHere, Targets, Grew, Numbered, BlocksBelow, Binders,
         Sound;
    SeqReady(u, cg, cg1, s, k, lo, hi);
    TargetsApart(u, cg, av, lo, hi);
    TargetsStay(u, cg, cg1, av, av1, lo, lo, lo, hi, [], {});
    av' := GenStmSound(u, cg1, k, lo, hi, scope + xs, av1, base1);
    GrewTrans(u, cg, cg1, GenStm(u, cg1, k), av, av1, av', lo, hi, lo, lo, lo, hi);
  }

  lemma TargetsApart(u: Unit, cg: CG, av: seq<set<nat>>, lo: nat, hi: nat)
    requires Targets(u, cg, av, lo, hi, [], {})
    ensures forall i :: 0 <= i < |u.bbs| ==> !(lo <= u.bbs[i] < lo) && !(lo <= u.bbs[i] < hi)
  {
  }

  /** On every path to it, what the code of a statement uses was set. */
  lemma {:induction false} GenStmSound(u: Unit, cg: CG, s: Stm, lo: nat, hi: nat, scope: set<Lvar>, av: seq<set<nat>>,
                                       base: nat) returns (av': seq<set<nat>>)
    requires Able(u, cg, s, lo, hi, scope, av, base)
    ensures UnitOK(u) && InRange(u, cg) && BlocksBelow(s, u.n)
    ensures Dominated(u, cg, GenStm(u, cg, s), av, av', lo, hi)
    decreases s, 1
  {
    match s
    case LET(_, _, _) => av' := LetSound(u, cg, s, lo, hi, scope, av, base);
    case ALLOC(_, _, _, _) => av' := AllocSound(u, cg, s, lo, hi, scope, av, base);
    case SETTER(_, _, _) => av' := SetterSound(u, cg, s, lo, hi, scope, av, base);
    case CALLGC(_, _, _) => av' := GcSound(u, cg, s, lo, hi, scope, av, base);
    case ARITH(_, _, _, _) => av' := ArithSound(u, cg, s, lo, hi, scope, av, base);
    case BRANCH(_, _, _, _, _, _) => av' := ArmsOfBranch(u, cg, s, lo, hi, scope, av, base);
    case SWITCH(_, _, _) => av' := ArmsOfSwitch(u, cg, s, lo, hi, scope, av, base);
    case APPLY(_, _, _) => EndSounds(u, cg, s, lo, hi, scope, av, base); av' := av;
    case THROW(_, _, _) => EndSounds(u, cg, s, lo, hi, scope, av, base); av' := av;
    case GOTO(_, _) => EndSounds(u, cg, s, lo, hi, scope, av, base); av' := av;
  }

  lemma {:induction false} LetSound(u: Unit, cg: CG, s: Stm, lo: nat, hi: nat, scope: set<Lvar>, av: seq<set<nat>>,
                                    base: nat) returns (av': seq<set<nat>>)
    requires Able(u, cg, s, lo, hi, scope, av, base) && s.LET?
    ensures UnitOK(u) && InRange(u, cg) && BlocksBelow(s, u.n)
    ensures Dominated(u, cg, GenStm(u, cg, s), av, av', lo, hi)
    decreases s, 0
  {
    hide GenLet, Inv, Step, Fitted, Writing, KnowsHere, Targets, Grew, Sound, Dominated, MapExt, Quiet;
    var LET(e, p, k) := s;
    AbleFacts(u, cg, s, lo, hi, scope, av, base);
    HeadInv(u, cg);
    HeadMap(u, cg);
    HeadsQuiet(u, cg);
    var cg1 := GenLet(u, cg, e, p);
    LetTypes(u, cg, e, p);
    LetWrites(u, cg, av, base, scope, e, p);
    QuietGrew(u, cg, cg1, av, lo, hi);
    Bound(u, cg, e, p);
    av' := NextSound(u, cg, s, lo, hi, scope, av, base, cg1, k, {p.name}, av, base);
  }

  lemma Bound(u: Unit, cg: CG, e: Exp, p: Param)
    requires InRange(u, cg)
    ensures p.name in GenLet(u, cg, e, p).vMap
  {
    hide GenExp;
  }

  lemma {:induction false} AllocSound(u: Unit, cg: CG, s: Stm, lo: nat, hi: nat, scope: set<Lvar>, av: seq<set<nat>>,
                                      base: nat) returns (av': seq<set<nat>>)
    requires Able(u, cg, s, lo, hi, scope, av, base) && s.ALLOC?
    ensures UnitOK(u) && InRange(u, cg) && BlocksBelow(s, u.n)
    ensures Dominated(u, cg, GenStm(u, cg, s), av, av', lo, hi)
    decreases s, 0
  {
    hide GenAllocStm, Inv, Step, Fitted, Writing, KnowsHere, Targets, Grew, Sound, Dominated, MapExt, Quiet, HeapPtrs,
         RegTys;
    var ALLOC(alloc, args, x, k) := s;
    AbleFacts(u, cg, s, lo, hi, scope, av, base);
    HeadInv(u, cg);
    HeadMap(u, cg);
    HeadsQuiet(u, cg);
    var cg1 := GenAllocStm(u, cg, alloc, args, x);
    AllocTypes(u, cg, alloc, args, x);
    AllocWrites(u, cg, av, base, scope, alloc, args, x);
    QuietGrew(u, cg, cg1, av, lo, hi);
    AllocBound(u, cg, alloc, args, x);
    av' := NextSound(u, cg, s, lo, hi, scope, av, base, cg1, k, {x}, av, base);
  }

  lemma AllocBound(u: Unit, cg: CG, alloc: AllocOp, args: seq<Exp>, x: Lvar)
    requires InRange(u, cg)
    ensures x in GenAllocStm(u, cg, alloc, args, x).vMap
  {
    hide GenExps, GenAlloc;
  }

  lemma {:induction false} SetterSound(u: Unit, cg: CG, s: Stm, lo: nat, hi: nat, scope: set<Lvar>,
                                       av: seq<set<nat>>, base: nat) returns (av': seq<set<nat>>)
    requires Able(u, cg, s, lo, hi, scope, av, base) && s.SETTER?
    ensures UnitOK(u) && InRange(u, cg) && BlocksBelow(s, u.n)
    ensures Dominated(u, cg, GenStm(u, cg, s), av, av', lo, hi)
    decreases s, 0
  {
    hide GenSetterStm, Inv, Step, Fitted, Writing, KnowsHere, Targets, Grew, Sound, Dominated, Quiet, HeapPtrs, RegTys;
    var SETTER(setter, args, k) := s;
    AbleFacts(u, cg, s, lo, hi, scope, av, base);
    HeadInv(u, cg);
    HeadMap(u, cg);
    HeadsQuiet(u, cg);
    var cg1 := GenSetterStm(u, cg, setter, args);
    SetterTypes(u, cg, setter, args);
    SetterWrites(u, cg, av, base, scope, setter, args);
    QuietGrew(u, cg, cg1, av, lo, hi);
    assert scope + {} == scope;
    av' := NextSound(u, cg, s, lo, hi, scope, av, base, cg1, k, {}, av, base);
  }

  lemma {:induction false} GcSound(u: Unit, cg: CG, s: Stm, lo: nat, hi: nat, scope: set<Lvar>, av: seq<set<nat>>,
                                   base: nat) returns (av': seq<set<nat>>)
    requires Able(u, cg, s, lo, hi, scope, av, base) && s.CALLGC?
    ensures UnitOK(u) && InRange(u, cg) && BlocksBelow(s, u.n)
    ensures Dominated(u, cg, GenStm(u, cg, s), av, av', lo, hi)
    decreases s, 0
  {
    hide GenGCStm, Inv, Step, Fitted, Writing, KnowsHere, Targets, Grew, Sound, Dominated, Quiet, MapExt, HeapPtrs,
         RegTys, Elems, Distinct;
    var CALLGC(roots, xs, k) := s;
    AbleFacts(u, cg, s, lo, hi, scope, av, base);
    GCStmInv(u, cg, roots, xs);
    GCMap(u, cg, roots, xs);
    HeadsQuiet(u, cg);
    var cg1 := GenGCStm(u, cg, roots, xs);
    GcTypes(u, cg, roots, xs);
    GcWrites(u, cg, av, base, scope, roots, xs);
    QuietGrew(u, cg, cg1, av, lo, hi);
    GcBound(u, cg, roots, xs);
    av' := NextSound(u, cg, s, lo, hi, scope, av, base, cg1, k, Elems(xs), av, base);
  }

  lemma GcBound(u: Unit, cg: CG, roots: seq<Exp>, xs: seq<Lvar>)
    requires InRange(u, cg) && Distinct(xs) && Elems(xs) !! cg.vMap.Keys
    ensures Elems(xs) <= GenGCStm(u, cg, roots, xs).vMap.Keys
  {
    hide GenRoots, GcCode, HwArgs, InsertVals;
    var a := GenRoots(u.tgt, cg.vMap, EmOf(cg), roots);
    GcStmIs(u, cg, roots, xs);
    InsertValsAt(cg.vMap, xs, Temps(a.em.next + |u.tgt.Hw()|, Ptrs(|xs|)));
  }

  lemma {:induction false} ArithSound(u: Unit, cg: CG, s: Stm, lo: nat, hi: nat, scope: set<Lvar>, av: seq<set<nat>>,
                                      base: nat) returns (av': seq<set<nat>>)
    requires Able(u, cg, s, lo, hi, scope, av, base) && s.ARITH?
    ensures UnitOK(u) && InRange(u, cg) && BlocksBelow(s, u.n)
    ensures Dominated(u, cg, GenStm(u, cg, s), av, av', lo, hi)
    decreases s, 0
  {
    hide GenArithStm, Inv, Step, Fitted, Writing, KnowsHere, Targets, Grew, Sound, Dominated, MapExt;
    AbleFacts(u, cg, s, lo, hi, scope, av, base);
    ArithFacts(u, cg, s, lo, hi, scope);
    var ARITH(arith, args, p, k) := s;
    ArithStmInv(u, cg, arith, args, p);
    HeadMap(u, cg);
    var cg1 := GenArithStm(u, cg, arith, args, p);
    ArithTypes(u, cg, arith, args, p);
    var av1, base1 := ArithWrites(u, cg, av, base, scope, arith, args, p, lo);
    ArithBound(u, cg, arith, args, p);
    av' := NextSound(u, cg, s, lo, hi, scope, av, base, cg1, k, {p.name}, av1, base1);
  }

  lemma ArithBound(u: Unit, cg: CG, arith: ArithOp, args: seq<Exp>, p: Param)
    requires InRange(u, cg)
    ensures p.name in GenArithStm(u, cg, arith, args, p).vMap
  {
    hide GenExps, GenArith;
  }

  lemma EndSounds(u: Unit, cg: CG, s: Stm, lo: nat, hi: nat, scope: set<Lvar>, av: seq<set<nat>>, base: nat)
    requires Able(u, cg, s, lo, hi, scope, av, base) && (s.APPLY? || s.THROW? || s.GOTO?)
    ensures UnitOK(u) && InRange(u, cg) && BlocksBelow(s, u.n)
    ensures Dominated(u, cg, GenStm(u, cg, s), av, av, lo, hi)
  {
    hide GenCallee, GenCall, GenGoto, Inv, Fitted, Writing, KnowsHere, Targets, Grew, Sound;
    AbleFacts(u, cg, s, lo, hi, scope, av, base);
    TargetsApart(u, cg, av, lo, hi);
    match s
    case APPLY(f, args, tys) =>
      var c := GenCallee(u, cg.vMap, EmOf(cg), f, STD_FUN, tys);
      CallSound(u, cg, av, base, scope, f, STD_FUN, c.kind, args, tys, lo, hi);
    case THROW(f, args, tys) => CallSound(u, cg, av, base, scope, f, STD_CONT, STD_CONT, args, tys, lo, hi);
    case GOTO(lab, args) =>
      EntryIn(u, cg, av, lo, hi, FindFrag(u.cl, lab).value);
      GotoSound(u, cg, av, base, scope, FindFrag(u.cl, lab).value, args, lo, hi);
  }

  lemma EntryIn(u: Unit, cg: CG, av: seq<set<nat>>, lo: nat, hi: nat, i: nat)
    requires Targets(u, cg, av, lo, hi, [], {}) && UnitOK(u) && i < |u.cl|
    ensures i < |u.bbs| && u.bbs[i] < |av|
  {
  }

  // ----- arms -----

  /** One arm, at block bb, where L is known. */
  lemma {:induction false} ArmSound(u: Unit, cg: CG, bb: nat, regs: seq<Option<Value>>, s: Stm, hi: nat,
                                    scope: set<Lvar>, av: seq<set<nat>>, bbs: seq<nat>, L: set<nat>)
      returns (av': seq<set<nat>>)
    requires Inv(u, cg) && UnitKinds(u) && Shape(regs) == Shape(cg.regs) && |regs| == NUM_REGS
    requires bb < hi <= u.n && Numbered(s, bb + 1, hi) && Pristine(cg.blocks, bb, hi) && BlocksBelow(s, u.n)
    requires WellFormed(u.tgt, u.fns, u.cl, s, scope) && cg.vMap.Keys !! Binders(s) && scope <= cg.vMap.Keys
    requires Fitted(u, cg) && HeapPtrs(RegTys(regs)) && Sound(u.tgt, cg.blocks, av, cg.next)
    requires KnownAt(u, cg.vMap, regs, L, scope) && Targets(u, cg, av, bb, hi, bbs, L)
    requires bb in bbs && forall d :: bb < d < hi ==> d !in bbs
    ensures UnitOK(u) && InRange(u, AtArm(cg, bb, regs))
    ensures var cg' := GenStm(u, AtArm(cg, bb, regs), s); Dominated(u, cg, cg', av, av', bb, hi) && Fitted(u, cg')
    decreases s, 2
  {
    hide GenStm, Inv, WellFormed, Numbered, BlocksBelow, Binders, Fitted, HeapPtrs, RegTys, Sound, KnownAt, Grew,
         Writing, KnowsHere;
    var a := AtArm(cg, bb, regs);
    InvFacts(u, cg);
    ArmReady(u, cg, bb, regs, s, hi);
    ReadyRange(u, a, s, bb + 1, hi);
    ArmTargets(u, cg, bb, regs, av, hi, bbs, L);
    ArmStarts(u, cg, av, bb, regs, scope);
    MoveTypes(u, cg, bb, regs);
    av' := GenStmSound(u, a, s, bb + 1, hi, scope, av, cg.next);
    GenStmTypes(u, a, s);
    ArmGrew(u, cg, bb, regs, GenStm(u, a, s), av, av', hi);
  }

  lemma ReadyRange(u: Unit, cg: CG, s: Stm, lo: nat, hi: nat)
    requires Ready(u, cg, s, lo, hi)
    ensures UnitOK(u) && InRange(u, cg) && BlocksBelow(s, u.n)
  {
    hide PhisOK, SuccsOK, IdsOK, FragsOK, OverflowOK, BlocksBelow, Numbered;
  }

  lemma ArmTargets(u: Unit, cg: CG, bb: nat, regs: seq<Option<Value>>, av: seq<set<nat>>, hi: nat, bbs: seq<nat>,
                   L: set<nat>)
    requires Targets(u, cg, av, bb, hi, bbs, L) && bb in bbs && bb < hi && forall d :: bb < d < hi ==> d !in bbs
    ensures Targets(u, AtArm(cg, bb, regs), av, bb + 1, hi, [], {}) && av[bb] == L
  {
    TargetsWithin(u, cg, av, bb, hi, bbs, L, bb + 1, hi);
  }

  lemma ArmGrew(u: Unit, cg: CG, bb: nat, regs: seq<Option<Value>>, cg': CG, av: seq<set<nat>>, av': seq<set<nat>>,
                hi: nat)
    requires Grew(u, AtArm(cg, bb, regs), cg', av, av', bb + 1, hi)
    ensures Grew(u, cg, cg', av, av', bb, hi)
  {
    hide HasEdge;
  }

  lemma {:induction false} ArmsOfBranch(u: Unit, cg: CG, s: Stm, lo: nat, hi: nat, scope: set<Lvar>,
                                        av: seq<set<nat>>, base: nat) returns (av': seq<set<nat>>)
    requires Able(u, cg, s, lo, hi, scope, av, base) && s.BRANCH?
    ensures UnitOK(u) && InRange(u, cg) && BlocksBelow(s, u.n)
    ensures Dominated(u, cg, GenStm(u, cg, s), av, av', lo, hi)
    decreases s, 0
  {
    hide GenCondBr, Inv, Ext, GenStm, Numbered, BlocksBelow, WellFormed, Binders, Fitted, Writing, KnowsHere, Targets,
         Grew, Sound, HeapPtrs, RegTys, KnownAt, MapExt, Pristine;
    AbleFacts(u, cg, s, lo, hi, scope, av, base);
    BranchFacts(u, cg, s, lo, hi, scope);
    var BRANCH(test, args, t, f, _, mid) := s;
    var cg1 := GenCondBr(u, cg, test, args, lo, mid);
    var av1, L := BranchSound(u, cg, av, base, scope, test, args, lo, mid, hi);
    BranchArm(u, cg, s, lo, hi, scope);
    TargetsPart(u, cg1, av1, lo, hi, [lo, mid], L, lo, mid);
    var av2 := ArmSound(u, cg1, lo, cg1.regs, t, mid, scope, av1, [lo, mid], L);
    var cg2 := GenStm(u, AtArm(cg1, lo, cg1.regs), t);
    TargetsPart(u, cg1, av1, lo, hi, [lo, mid], L, mid, hi);
    TargetsApart(u, cg, av, lo, hi);
    TargetsStay(u, cg1, cg2, av1, av2, lo, mid, mid, hi, [lo, mid], L);
    OnlyKnown(u, cg1.vMap, cg2.vMap, Binders(t), scope, cg1.regs, L);
    av' := ArmSound(u, cg2, mid, cg1.regs, f, hi, scope, av2, [lo, mid], L);
    var cg' := GenStm(u, AtArm(cg2, mid, cg1.regs), f);
    GrewTrans(u, cg1, cg2, cg', av1, av2, av', lo, hi, lo, mid, mid, hi);
    GrewTrans(u, cg, cg1, cg', av, av1, av', lo, hi, lo, hi, lo, hi);
  }

  lemma TargetsPart(u: Unit, cg: CG, av: seq<set<nat>>, lo: nat, hi: nat, bbs: seq<nat>, L: set<nat>, lo': nat,
                    hi': nat)
    requires Targets(u, cg, av, lo, hi, bbs, L) && lo <= lo' && hi' <= hi
    ensures Targets(u, cg, av, lo', hi', bbs, L)
  {
    hide HasEdge;
  }

  lemma OnlyKnown(u: Unit, vMap: VMap, vMap': VMap, binders: set<Lvar>, scope: set<Lvar>, regs: seq<Option<Value>>,
                  L: set<nat>)
    requires KnownAt(u, vMap, regs, L, scope) && MapExt(vMap, vMap', binders) && scope <= vMap.Keys
    ensures KnownAt(u, vMap', regs, L, scope) && scope <= vMap'.Keys
  {
    hide Knows, Only;
    OnlyScope(vMap, vMap', binders, scope);
  }

  /** What the arms of a branch need of the blocks, as for the invariant. */
  lemma BranchArm(u: Unit, cg: CG, s: Stm, lo: nat, hi: nat, scope: set<Lvar>)
    requires s.BRANCH? && Ready(u, cg, s, lo, hi) && WellFormed(u.tgt, u.fns, u.cl, s, scope) && Fitted(u, cg)
    requires cg.vMap.Keys !! Binders(s) && UnitOK(u) && InRange(u, cg)
    ensures var cg1 := GenCondBr(u, cg, s.test, s.args, lo, s.fBB);
            && s.tBB == lo && lo < s.fBB < hi <= u.n && BlocksBelow(s.tArm, u.n)
            && Inv(u, cg1) && InRange(u, AtArm(cg1, lo, cg1.regs)) && |cg1.regs| == NUM_REGS
            && Pristine(cg1.blocks, lo, s.fBB)
            && Fitted(u, cg1) && HeapPtrs(RegTys(cg1.regs)) && cg1.vMap == cg.vMap
            && var cg2 := GenStm(u, AtArm(cg1, lo, cg1.regs), s.tArm);
               && Inv(u, cg2) && Pristine(cg2.blocks, s.fBB, hi) && Shape(cg2.regs) == Shape(cg1.regs)
               && MapExt(cg1.vMap, cg2.vMap, Binders(s.tArm)) && cg2.vMap.Keys !! Binders(s.fArm)
               && cg1.vMap.Keys !! Binders(s.tArm)
  {
    hide GenCondBr, Inv, Ext, BlockExt, GenStm, Numbered, BlocksBelow, WellFormed, Binders, Fitted, HeapPtrs, RegTys;
    BranchFacts(u, cg, s, lo, hi, scope);
    var BRANCH(test, args, t, f, _, mid) := s;
    var cg1 := GenCondBr(u, cg, test, args, lo, mid);
    CondBrInv(u, cg, test, args, lo, mid);
    InvFacts(u, cg1);
    StillPristine(cg.blocks, cg1.blocks, lo, hi);
    CondBrTypes(u, cg, test, args, lo, mid);
    HeapFitted(u, cg1);
    ArmInv(u, cg1, lo, cg1.regs, t, mid, scope);
    var cg2 := GenStm(u, AtArm(cg1, lo, cg1.regs), t);
    InvFacts(u, cg2);
    GenStmMap(u, AtArm(cg1, lo, cg1.regs), t);
    StillPristine(cg1.blocks, cg2.blocks, mid, hi);
  }

  lemma {:induction false} ArmsOfSwitch(u: Unit, cg: CG, s: Stm, lo: nat, hi: nat, scope: set<Lvar>,
                                        av: seq<set<nat>>, base: nat) returns (av': seq<set<nat>>)
    requires Able(u, cg, s, lo, hi, scope, av, base) && s.SWITCH?
    ensures UnitOK(u) && InRange(u, cg) && BlocksBelow(s, u.n)
    ensures Dominated(u, cg, GenStm(u, cg, s), av, av', lo, hi)
    decreases s, 0
  {
    hide GenSwitch, Inv, Ext, GenStm, BlocksBelow, WellFormed, Binders, ArmBinders, WellFormedArms, NumberedArms,
         ArmsBelow, GenArms, Fitted, Writing, KnowsHere, Targets, Grew, Sound, HeapPtrs, RegTys, KnownAt, Pristine;
    AbleFacts(u, cg, s, lo, hi, scope, av, base);
    SwitchFacts(u, cg, s, lo, hi, scope);
    var SWITCH(e, arms, bbs) := s;
    var cg1 := GenSwitch(u, cg, e, bbs);
    var av1, L := SwitchSound(u, cg, av, base, scope, e, bbs, lo, hi);
    SwitchHeadInv(u, cg, e, bbs);
    InvFacts(u, cg1);
    StillPristine(cg.blocks, cg1.blocks, lo, hi);
    SwitchTypes(u, cg, e, bbs);
    HeapFitted(u, cg1);
    HeadMap(u, cg);
    av' := ArmsSound(u, cg1, arms, bbs, lo, hi, scope, av1, L);
    GrewTrans(u, cg, cg1, GenArms(u, cg1, arms, bbs), av, av1, av', lo, hi, lo, hi, lo, hi);
  }

  lemma {:induction false} ArmsSound(u: Unit, cg: CG, arms: seq<Stm>, bbs: seq<nat>, lo: nat, hi: nat,
                                     scope: set<Lvar>, av: seq<set<nat>>, L: set<nat>) returns (av': seq<set<nat>>)
    requires Inv(u, cg) && UnitOK(u) && InRange(u, cg) && UnitKinds(u) && |arms| <= |bbs|
    requires NumberedArms(arms, bbs, lo, hi) && ArmsBelow(arms, u.n)
    requires (forall i :: 0 <= i < |bbs| ==> bbs[i] < u.n) && forall i :: |arms| <= i < |bbs| ==> !(lo <= bbs[i] < hi)
    requires hi <= u.n && Pristine(cg.blocks, lo, hi) && WellFormedArms(u.tgt, u.fns, u.cl, arms, scope)
    requires cg.vMap.Keys !! ArmBinders(arms) && scope <= cg.vMap.Keys && Fitted(u, cg) && HeapPtrs(RegTys(cg.regs))
    requires Sound(u.tgt, cg.blocks, av, cg.next) && Targets(u, cg, av, lo, hi, bbs, L)
    requires KnownAt(u, cg.vMap, cg.regs, L, scope)
    ensures var cg' := GenArms(u, cg, arms, bbs); Dominated(u, cg, cg', av, av', lo, hi) && Fitted(u, cg')
    decreases arms, 1
  {
    hide Inv, Ext, GenStm, BlocksBelow, WellFormed, Binders, Numbered, Fitted, Targets, Grew, Sound, HeapPtrs, RegTys,
         KnownAt, Pristine, MapExt;
    if arms == [] {
      av' := av;
      NoArmsGrew(u, cg, av, lo, hi, bbs, L);
    } else {
      var n := |arms| - 1;
      var mid := bbs[n];
      ArmsParts(u, cg, arms, bbs, lo, hi, scope);
      TargetsPart(u, cg, av, lo, hi, bbs, L, lo, mid);
      var av1 := ArmsSound(u, cg, arms[..n], bbs, lo, mid, scope, av, L);
      var cg1 := GenArms(u, cg, arms[..n], bbs);
      TargetsPart(u, cg, av, lo, hi, bbs, L, mid, hi);
      ArmsApart(u, cg, av, lo, hi, bbs, L);
      TargetsStay(u, cg, cg1, av, av1, lo, mid, mid, hi, bbs, L);
      OnlyKnown(u, cg.vMap, cg1.vMap, ArmBinders(arms[..n]), scope, cg.regs, L);
      av' := ArmSound(u, cg1, mid, cg.regs, arms[n], hi, scope, av1, bbs, L);
      GrewTrans(u, cg, cg1, GenStm(u, AtArm(cg1, mid, cg.regs), arms[n]), av, av1, av', lo, hi, lo, mid, mid, hi);
    }
  }

  lemma NoArmsGrew(u: Unit, cg: CG, av: seq<set<nat>>, lo: nat, hi: nat, bbs: seq<nat>, L: set<nat>)
    requires Targets(u, cg, av, lo, hi, bbs, L)
    ensures Grew(u, cg, cg, av, av, lo, hi)
  {
    hide HasEdge;
  }

  lemma ArmsApart(u: Unit, cg: CG, av: seq<set<nat>>, lo: nat, hi: nat, bbs: seq<nat>, L: set<nat>)
    requires Targets(u, cg, av, lo, hi, bbs, L)
    ensures forall i :: 0 <= i < |u.bbs| ==> !(lo <= u.bbs[i] < hi)
  {
  }

  /** What the arms of a switch need of the blocks, as for the invariant. */
  lemma ArmsParts(u: Unit, cg: CG, arms: seq<Stm>, bbs: seq<nat>, lo: nat, hi: nat, scope: set<Lvar>)
    requires Inv(u, cg) && UnitOK(u) && InRange(u, cg) && UnitKinds(u) && 0 < |arms| <= |bbs|
    requires NumberedArms(arms, bbs, lo, hi) && ArmsBelow(arms, u.n)
    requires (forall i :: 0 <= i < |bbs| ==> bbs[i] < u.n) && forall i :: |arms| <= i < |bbs| ==> !(lo <= bbs[i] < hi)
    requires hi <= u.n && Pristine(cg.blocks, lo, hi) && WellFormedArms(u.tgt, u.fns, u.cl, arms, scope)
    requires cg.vMap.Keys !! ArmBinders(arms)
    ensures var n := |arms| - 1;
            var mid, cg1 := bbs[n], GenArms(u, cg, arms[..n], bbs);
            && lo <= mid < hi && mid in bbs && NumberedArms(arms[..n], bbs, lo, mid) && ArmsBelow(arms[..n], u.n)
            && Numbered(arms[n], mid + 1, hi) && BlocksBelow(arms[n], u.n)
            && WellFormedArms(u.tgt, u.fns, u.cl, arms[..n], scope)
            && WellFormed(u.tgt, u.fns, u.cl, arms[n], scope)
            && (forall i :: n <= i < |bbs| ==> !(lo <= bbs[i] < mid)) && (forall d :: mid < d < hi ==> d !in bbs)
            && Pristine(cg.blocks, lo, mid) && cg.vMap.Keys !! ArmBinders(arms[..n])
            && Inv(u, cg1) && Pristine(cg1.blocks, mid, hi) && Shape(cg.regs) == Shape(cg1.regs)
            && |cg.regs| == NUM_REGS
            && MapExt(cg.vMap, cg1.vMap, ArmBinders(arms[..n])) && cg1.vMap.Keys !! Binders(arms[n])
  {
    hide Inv, Ext, GenStm, BlocksBelow, WellFormed, Binders, Numbered;
    var n := |arms| - 1;
    var mid := bbs[n];
    InvFacts(u, cg);
    NumberedArmsBelow(arms[..n], bbs, lo, mid, u.n);
    GenArmsInv(u, cg, arms[..n], bbs, lo, mid, scope);
    var cg1 := GenArms(u, cg, arms[..n], bbs);
    InvFacts(u, cg1);
    StillPristine(cg.blocks, cg1.blocks, mid, hi);
    GenArmsMap(u, cg, arms[..n], bbs);
  }

  // ----- fragments -----

  /** Nothing is known at the blocks of the fragments from k on, and of those only the entries have been jumped
      to. */
  ghost predicate FragTargets(u: Unit, cg: CG, av: seq<set<nat>>, k: nat) {
    && |u.bbs| == |u.cl| && |av| == |cg.blocks| && u.n <= |av|
    && (forall i :: 0 <= i < |u.bbs| ==> u.bbs[i] < u.n && av[u.bbs[i]] == {})
    && (cg.ovf.Some? ==> u.n <= cg.ovf.value < |av| && av[cg.ovf.value] == {})
    && var start := if k < |u.bbs| then u.bbs[k] else u.n;
       && (forall d :: start <= d < u.n ==> av[d] == {})
       && (forall b: nat, d: nat :: HasEdge(cg.blocks, b, d) && start <= d < u.n ==> d in u.bbs)
  }

  /** The entries of the fragments ascend. */
  lemma {:induction false} EntriesAscend(tgt: Target, fns: Fns, cl: Cluster, i: nat, j: nat)
    requires tgt.Valid() && cl != [] && i < j < |cl|
    ensures |UnitOf(tgt, fns, cl).bbs| == |cl|
    ensures var u := UnitOf(tgt, fns, cl); u.bbs[i] < EndOf(u.bbs, u.n, i) <= u.bbs[j]
    decreases j
  {
    hide InitCluster, Numbered, InitStm;
    InitClusterFrags(tgt, cl);
    var r := InitCluster(tgt, cl);
    assert FragInit(tgt, cl, r, i) && FragInit(tgt, cl, r, j - 1);
    if i < j - 1 {
      EntriesAscend(tgt, fns, cl, i, j - 1);
    }
  }

  lemma OneFragTargets(tgt: Target, fns: Fns, cl: Cluster, cg: CG, av: seq<set<nat>>, k: nat)
    requires tgt.Valid() && cl != [] && k < |cl|
    requires var u := UnitOf(tgt, fns, cl); |u.cl| == |cl| == |u.bbs| && FragTargets(u, cg, av, k)
    ensures var u := UnitOf(tgt, fns, cl);
            && u.bbs[k] < EndOf(u.bbs, u.n, k) <= u.n
            && Targets(u, cg, av, u.bbs[k] + 1, EndOf(u.bbs, u.n, k), [], {})
  {
    hide InitCluster, HasEdge;
    var u, r := UnitOf(tgt, fns, cl), InitCluster(tgt, cl);
    InitClusterFrags(tgt, cl);
    EndMono(tgt, cl, r, k, u.n);
    var lo, hi := u.bbs[k] + 1, EndOf(u.bbs, u.n, k);
    forall i | 0 <= i < |u.bbs|
      ensures !(lo <= u.bbs[i] < hi)
    {
      if i < k {
        EntriesAscend(tgt, fns, cl, i, k);
      } else if k < i {
        EntriesAscend(tgt, fns, cl, k, i);
      }
    }
  }

  lemma NextFragTargets(tgt: Target, fns: Fns, cl: Cluster, cg: CG, cg': CG, av: seq<set<nat>>, av': seq<set<nat>>,
                        k: nat)
    requires tgt.Valid() && cl != [] && k < |cl|
    requires var u := UnitOf(tgt, fns, cl); |u.cl| == |cl| == |u.bbs| && FragTargets(u, cg, av, k)
    requires var u := UnitOf(tgt, fns, cl); Grew(u, cg, cg', av, av', u.bbs[k] + 1, EndOf(u.bbs, u.n, k))
    ensures FragTargets(UnitOf(tgt, fns, cl), cg', av', k + 1)
  {
    hide InitCluster, HasEdge;
    OneFragTargets(tgt, fns, cl, cg, av, k);
  }

  /** What the registers and parameters of a fragment start with is known at its entry. */
  lemma BeginKnows(u: Unit, cg: CG, av: seq<set<nat>>, i: nat)
    requires UnitOK(u) && InRange(u, cg) && i < |u.cl| && Distinct(Names(u.cl[i].params))
    requires i > 0 ==> Shape(cg.regs) == TargetShape(u.tgt)
                       && |EntryPhis(u, cg, i)| == |u.tgt.Hw()| + |u.cl[i].params|
    requires |av| == |cg.blocks|
    ensures var cg', xs := BeginFrag(u, cg, i), Elems(Names(u.cl[i].params));
            && KnowsHere(u, cg', av, cg.next, xs) && xs <= cg'.vMap.Keys <= xs
  {
    hide DefSet;
    var f, nHw, b := u.cl[i], |u.tgt.Hw()|, Here(u.tgt, BeginFrag(u, cg, i), av, cg.next);
    var em, vs0 := EmOf(BeginFrag(u, cg, i)), EntryPhis(u, cg, i);
    var vs := if i == 0 then EntryArgs(u.tgt, f) else vs0[nHw..];
    assert HasRegs(b, em) by {
      if i > 0 {
        EntryRegsKnown(u, cg, i, b, em);
      }
    }
    assert HasAll(b, em, vs) by {
      if i > 0 {
        PhiTempsKnown(b, em, cg.blocks[u.bbs[i]].phis);
      }
    }
    assert Knows(b, Only(map[], {}), em);
    BindAllKnows(b, map[], em, {}, Names(f.params), vs);
    InsertValsAt(map[], Names(f.params), vs);
    assert {} + Elems(Names(f.params)) == Elems(Names(f.params));
  }

  lemma PhiTempsKnown(b: Blk, em: Em, phis: seq<Phi>)
    requires |b.tgt.stkOffset| == NUM_REGS && PhiIds(phis) <= b.avail
    ensures HasAll(b, em, PhiTemps(phis))
  {
    forall i | 0 <= i < |phis|
      ensures Has(b, em, PhiTemps(phis)[i])
    {
      assert phis[i].id in PhiIds(phis);
    }
  }

  lemma EntryRegsKnown(u: Unit, cg: CG, i: nat, b: Blk, em: Em)
    requires UnitOK(u) && InRange(u, cg) && 0 < i < |u.cl| && Shape(cg.regs) == TargetShape(u.tgt) && b.tgt == u.tgt
    requires |u.tgt.Hw()| <= |EntryPhis(u, cg, i)| && PhiIds(cg.blocks[u.bbs[i]].phis) <= b.avail
    requires em.regs == FragRegs(u.tgt, cg.regs, EntryPhis(u, cg, i), |u.tgt.Hw()|)
    ensures HasRegs(b, em)
  {
    hide DefSet;
    var vs := EntryPhis(u, cg, i);
    PhiTempsKnown(b, em, cg.blocks[u.bbs[i]].phis);
    FragRegsAt(u.tgt, cg.regs, vs, |u.tgt.Hw()|);
    forall r | 0 <= r < NUM_REGS && em.regs[r].Some?
      ensures Has(b, em, em.regs[r].value)
    {
      assert Shape(cg.regs)[r] == TargetShape(u.tgt)[r];
      if u.tgt.IsMachine(r) {
        HwIndexed(u.tgt, r);
        assert Has(b, em, vs[u.tgt.HwIndex(r)]);
      }
    }
  }

  /** Generating one more fragment. */
  lemma FragSound(tgt: Target, fns: Fns, cl: Cluster, cg: CG, av: seq<set<nat>>, k: nat) returns (av': seq<set<nat>>)
    requires tgt.Valid() && WellFormedCluster(tgt, fns, cl) && k < |cl|
    requires var u := UnitOf(tgt, fns, cl);
             && UnitOK(u) && InRange(u, cg) && |u.cl| == |cl| && BodiesBelow(u) && InvUpto(u, cg, k) && Fitted(u, cg)
             && FragTargets(u, cg, av, k) && Sound(tgt, cg.blocks, av, cg.next)
    requires var u := UnitOf(tgt, fns, cl); Upto(u, InitCluster(tgt, cl).blocks, cg, k)
    ensures var u := UnitOf(tgt, fns, cl);
            var cg' := GenFrag(u, cg, k);
            FragTargets(u, cg', av', k + 1) && Sound(tgt, cg'.blocks, av', cg'.next)
  {
    hide InitCluster, Numbered, BlocksBelow, WellFormed, Binders, Inv, GenStm, BeginFrag, Fitted, FragTargets, Sound,
         Targets, Grew, Upto, Writing, KnowsHere, Elems, Distinct;
    var u := UnitOf(tgt, fns, cl);
    InitClusterOK(tgt, fns, cl);
    FragReady(tgt, fns, cl, cg, k);
    BeginFragInv(u, cg, k);
    if k > 0 {
      InvFacts(u, cg);
      EntrySize(u, cg, k);
    }
    var cg0, s, scope := BeginFrag(u, cg, k), u.cl[k].body, Elems(Names(u.cl[k].params));
    SoundSize(tgt, cg.blocks, av, cg.next);
    BeginKnows(u, cg, av, k);
    BeginTypes(u, cg, k);
    BeginOvf(u, cg, k);
    ReadyRange(u, cg0, s, u.bbs[k] + 1, EndOf(u.bbs, u.n, k));
    OpenReady(u, cg0, s, u.bbs[k] + 1, EndOf(u.bbs, u.n, k));
    StartWriting(tgt, cg0, av);
    OneFragTargets(tgt, fns, cl, cg, av, k);
    SameTargets(u, cg, cg0, av, u.bbs[k] + 1, EndOf(u.bbs, u.n, k));
    av' := GenStmSound(u, cg0, s, u.bbs[k] + 1, EndOf(u.bbs, u.n, k), scope, av, cg.next);
    SameGrew(u, cg, cg0, GenStm(u, cg0, s), av, av', u.bbs[k] + 1, EndOf(u.bbs, u.n, k));
    NextFragTargets(tgt, fns, cl, cg, GenStm(u, cg0, s), av, av', k);
  }

  lemma EntrySize(u: Unit, cg: CG, k: nat)
    requires Inv(u, cg) && 1 <= k < |u.cl|
    ensures |u.bbs| == |u.cl| && u.bbs[k] < |cg.blocks|
    ensures |EntryPhis(u, cg, k)| == |u.tgt.Hw()| + |u.cl[k].params|
  {
  }

  lemma BeginOvf(u: Unit, cg: CG, k: nat)
    requires UnitOK(u) && InRange(u, cg) && k < |u.cl|
    ensures BeginFrag(u, cg, k).ovf == cg.ovf
  {
    hide FragRegs, InsertVals;
  }

  lemma OpenReady(u: Unit, cg: CG, s: Stm, lo: nat, hi: nat)
    requires Ready(u, cg, s, lo, hi)
    ensures Open(cg)
  {
  }

  lemma SameTargets(u: Unit, cg: CG, cg': CG, av: seq<set<nat>>, lo: nat, hi: nat)
    requires Targets(u, cg, av, lo, hi, [], {}) && cg'.blocks == cg.blocks && cg'.ovf == cg.ovf
    ensures Targets(u, cg', av, lo, hi, [], {})
  {
  }

  lemma SameGrew(u: Unit, cg: CG, cg0: CG, cg': CG, av: seq<set<nat>>, av': seq<set<nat>>, lo: nat, hi: nat)
    requires Grew(u, cg0, cg', av, av', lo, hi) && cg0.blocks == cg.blocks
    ensures Grew(u, cg, cg', av, av', lo, hi)
  {
  }

  // ----- initialisation -----

  function Nothing(n: nat): (av: seq<set<nat>>)
    ensures |av| == n
  {
    seq(n, _ => {})
  }

  ghost predicate NoTerms(blocks: seq<Block>) {
    forall d :: 0 <= d < |blocks| ==> blocks[d].term.None?
  }

  lemma WaitingBlockSound(tgt: Target, blocks: seq<Block>, next: nat, tys: seq<Ty>)
    requires Sound(tgt, blocks, Nothing(|blocks|), next) && NoTerms(blocks)
    ensures var bs := blocks + [EMPTY.(phis := NewPhis(next, tys))];
            Sound(tgt, bs, Nothing(|bs|), next + |tys|) && NoTerms(bs)
  {
    hide Sound;
    var b := EMPTY.(phis := NewPhis(next, tys));
    SoundSize(tgt, blocks, Nothing(|blocks|), next);
    NewPhiIds(next, tys);
    AppendSound(tgt, blocks, Nothing(|blocks|), next, b, {}, next + |tys|);
    assert Nothing(|blocks|) + [{}] == Nothing(|blocks| + 1);
  }

  lemma {:induction false} EmptiesSound(tgt: Target, blocks: seq<Block>, next: nat, n: nat)
    requires Sound(tgt, blocks, Nothing(|blocks|), next) && NoTerms(blocks)
    ensures var bs := blocks + Empties(n); Sound(tgt, bs, Nothing(|bs|), next) && NoTerms(bs)
  {
    hide Sound;
    if n == 0 {
      assert blocks + Empties(0) == blocks;
    } else {
      EmptiesSound(tgt, blocks, next, n - 1);
      WaitingBlockSound(tgt, blocks + Empties(n - 1), next, []);
      assert NewPhis(next, []) == [];
      assert blocks + Empties(n) == blocks + Empties(n - 1) + [EMPTY];
    }
  }

  /** One more fragment: its entry, with phi nodes, and the empty blocks of its arms. */
  lemma InitFragSound(tgt: Target, f: Frag, r: Inited)
    requires Sound(tgt, r.blocks, Nothing(|r.blocks|), r.next) && NoTerms(r.blocks) && |tgt.stkOffset| == NUM_REGS
    ensures var r' := InitFrag(tgt, f, r);
            Sound(tgt, r'.blocks, Nothing(|r'.blocks|), r'.next) && NoTerms(r'.blocks)
  {
    hide Sound, InitStm, FragTys, NoTerms, NewPhis, BlocksBelow;
    var tys := if f.kind == INTERNAL then FragTys(tgt, f) else [];
    assert NewPhis(r.next, []) == [];
    WaitingBlockSound(tgt, r.blocks, r.next, tys);
    EmptiesSound(tgt, r.blocks + [EMPTY.(phis := NewPhis(r.next, tys))], r.next + |tys|,
                 InitStm(f.body, |r.blocks| + 1).n - |r.blocks| - 1);
  }

  lemma {:induction false} InitSound(tgt: Target, cl: Cluster)
    requires |tgt.stkOffset| == NUM_REGS
    ensures var r := InitCluster(tgt, cl); Sound(tgt, r.blocks, Nothing(|r.blocks|), r.next) && NoTerms(r.blocks)
  {
    if cl == [] {
      assert PhisSupplied(tgt, [], []);
    } else {
      hide Sound, InitFrag, NoTerms;
      InitSound(tgt, cl[..|cl| - 1]);
      InitFragSound(tgt, cl[|cl| - 1], InitCluster(tgt, cl[..|cl| - 1]));
    }
  }

  /** Before the first fragment. */
  lemma StartSound(tgt: Target, fns: Fns, cl: Cluster)
    requires tgt.Valid() && cl != []
    ensures var u, cg := UnitOf(tgt, fns, cl), StartCG(tgt, cl);
            && FragTargets(u, cg, Nothing(|cg.blocks|), 0) && Sound(tgt, cg.blocks, Nothing(|cg.blocks|), cg.next)
  {
    hide InitCluster, Sound, BlocksBelow;
    InitClusterOK(tgt, fns, cl);
    InitSound(tgt, cl);
    var cg := StartCG(tgt, cl);
    assert forall b: nat, d: nat :: !HasEdge(cg.blocks, b, d);
  }

  // ----- clusters -----

  /** After k fragments. */
  lemma {:induction false} FragsSound(tgt: Target, fns: Fns, cl: Cluster, k: nat) returns (av: seq<set<nat>>)
    requires tgt.Valid() && WellFormedCluster(tgt, fns, cl) && k <= |cl|
    ensures var u, cg := UnitOf(tgt, fns, cl), StartCG(tgt, cl);
            && UnitOK(u) && BodiesBelow(u) && InRange(u, cg) && |u.cl| == |cl|
            && var cg' := GenFrags(u, cg, k);
               FragTargets(u, cg', av, k) && Sound(tgt, cg'.blocks, av, cg'.next)
  {
    hide InitCluster, GenFrag, Inv, Upto, Fitted, Sound, WellFormed, BlocksBelow, FragTargets, TypesOf;
    InitClusterOK(tgt, fns, cl);
    var u, cg := UnitOf(tgt, fns, cl), StartCG(tgt, cl);
    if k == 0 {
      StartSound(tgt, fns, cl);
      av := Nothing(|cg.blocks|);
    } else {
      var av0 := FragsSound(tgt, fns, cl, k - 1);
      GenFragsInv(tgt, fns, cl, k - 1);
      GenFragsTypes(tgt, fns, cl, k - 1);
      av := FragSound(tgt, fns, cl, GenFrags(u, cg, k - 1), av0, k - 1);
    }
  }

  lemma ClusterSound(tgt: Target, fns: Fns, cl: Cluster) returns (av: seq<set<nat>>, next: nat)
    requires tgt.Valid() && WellFormedCluster(tgt, fns, cl)
    ensures Sound(tgt, GenCluster(tgt, fns, cl), av, next) && |av| > 0 && av[0] == {}
  {
    hide InitCluster, GenFrags, Sound, WellFormed;
    av := FragsSound(tgt, fns, cl, |cl|);
    InitClusterOK(tgt, fns, cl);
    next := GenFrags(UnitOf(tgt, fns, cl), StartCG(tgt, cl), |cl|).next;
  }

  // ----- results -----

  /** Every temporary of the generated function is set by one phi node or instruction only. */
  lemma SingleAssignment(tgt: Target, fns: Fns, cl: Cluster)
    requires tgt.Valid() && WellFormedCluster(tgt, fns, cl)
    ensures SetOnce(tgt, GenCluster(tgt, fns, cl))
  {
    hide GenCluster;
    var av, next := ClusterSound(tgt, fns, cl);
  }

  /** A path along edges, from the entry. */
  ghost predicate IsPath(blocks: seq<Block>, path: seq<nat>) {
    && path != [] && path[0] == 0 && blocks != []
    && forall i :: 0 < i < |path| ==> HasEdge(blocks, path[i - 1], path[i]) && path[i] < |blocks|
  }

  /** The temporaries that are set in the blocks of a path. */
  function Along(tgt: Target, blocks: seq<Block>, path: seq<nat>): set<nat>
    requires |tgt.stkOffset| == NUM_REGS && forall i :: 0 <= i < |path| ==> path[i] < |blocks|
  {
    if path == [] then {}
    else Along(tgt, blocks, path[..|path| - 1]) + IdsOf(tgt, blocks[path[|path| - 1]])
  }

  lemma {:induction false} PathKnown(tgt: Target, blocks: seq<Block>, av: seq<set<nat>>, next: nat, path: seq<nat>)
    requires Sound(tgt, blocks, av, next) && IsPath(blocks, path) && av[0] == {}
    ensures forall i :: 0 <= i < |path| ==> path[i] < |blocks|
    ensures av[path[|path| - 1]] <= Along(tgt, blocks, path[..|path| - 1])
    decreases |path|
  {
    hide SetOnce, IdsBelow, AllUsesKnown, PhisSupplied, IdsOf, HasEdge;
    var n := |path| - 1;
    if n > 0 {
      PathKnown(tgt, blocks, av, next, path[..n]);
      assert HasEdge(blocks, path[n - 1], path[n]);
      assert path[..n][..n - 1] == path[..n - 1];
    }
  }

  /** What comes into a phi node along an edge. */
  lemma PhiComesIn(tgt: Target, blocks: seq<Block>, av: seq<set<nat>>, d: nat, i: nat, src: nat)
    requires |tgt.stkOffset| == NUM_REGS && |av| == |blocks| && PhisSupplied(tgt, blocks, av) && PhisOK(blocks)
    requires d < |blocks| && i < |blocks[d].phis| && HasEdge(blocks, src, d)
    ensures var v := Incoming(blocks[d].phis[i], src);
            v.Some? && Known(v.value, Out(tgt, av[src], blocks[src]))
  {
    hide Out, Known;
    var phi := blocks[d].phis[i];
    assert PhiOK(blocks, d, phi) && PhiSupplied(tgt, blocks, av, phi);
    assert EdgeCount(phi.preds, src) == 1;
    assert src in phi.preds;
  }

  /** The last block of a path uses only temporaries that were set in an earlier block of the path, or earlier in the
      block itself; and what came into its phi nodes was set on the path before. */
  ghost predicate SetBefore(tgt: Target, blocks: seq<Block>, path: seq<nat>)
    requires |tgt.stkOffset| == NUM_REGS && path != [] && forall i :: 0 <= i < |path| ==> path[i] < |blocks|
  {
    var n := |path| - 1;
    var b, before := blocks[path[n]], Along(tgt, blocks, path[..n]);
    && UsesKnown(tgt, before, b)
    && (n > 0 ==> forall i :: 0 <= i < |b.phis| ==> ComesFrom(b.phis[i], path[n - 1], before))
  }

  ghost predicate ComesFrom(phi: Phi, src: nat, before: set<nat>) {
    var v := Incoming(phi, src); v.Some? && Known(v.value, before)
  }

  lemma SoundPath(tgt: Target, blocks: seq<Block>, av: seq<set<nat>>, next: nat, path: seq<nat>)
    requires Sound(tgt, blocks, av, next) && av != [] && av[0] == {} && PhisOK(blocks) && IsPath(blocks, path)
    ensures forall i :: 0 <= i < |path| ==> path[i] < |blocks|
    ensures SetBefore(tgt, blocks, path)
  {
    hide Along, SetOnce, IdsBelow, EdgesSupply, IdsOf, UsesKnown, Known, HasEdge, Incoming, PhisOK, PhisSupplied;
    var n := |path| - 1;
    PathKnown(tgt, blocks, av, next, path);
    var b, before := blocks[path[n]], Along(tgt, blocks, path[..n]);
    UsesMono(tgt, av[path[n]], before, b);
    if n > 0 {
      var src := path[n - 1];
      PathKnown(tgt, blocks, av, next, path[..n]);
      AlongStep(tgt, blocks, path);
      forall i | 0 <= i < |b.phis|
        ensures ComesFrom(b.phis[i], src, before)
      {
        PhiComesIn(tgt, blocks, av, path[n], i, src);
        OutAlong(tgt, av[src], blocks[src], Along(tgt, blocks, path[..n - 1]), Incoming(b.phis[i], src).value);
      }
    }
  }

  lemma AlongStep(tgt: Target, blocks: seq<Block>, path: seq<nat>)
    requires |tgt.stkOffset| == NUM_REGS && |path| > 1 && forall i :: 0 <= i < |path| ==> path[i] < |blocks|
    ensures var n := |path| - 1;
            && path[..n][..n - 1] == path[..n - 1]
            && Along(tgt, blocks, path[..n]) == Along(tgt, blocks, path[..n - 1]) + IdsOf(tgt, blocks[path[n - 1]])
  {
    hide IdsOf;
    assert path[..|path| - 1][..|path| - 2] == path[..|path| - 2];
  }

  lemma OutAlong(tgt: Target, av: set<nat>, b: Block, before: set<nat>, v: Value)
    requires |tgt.stkOffset| == NUM_REGS && av <= before && Known(v, Out(tgt, av, b))
    ensures Known(v, before + IdsOf(tgt, b))
  {
    hide IdsOf;
  }

  /** On every path from the entry to a use, what is used was set. As each temporary is set in one place, that place
      dominates all uses. */
  lemma DefinitionsDominate(tgt: Target, fns: Fns, cl: Cluster, path: seq<nat>)
    requires tgt.Valid() && WellFormedCluster(tgt, fns, cl) && IsPath(GenCluster(tgt, fns, cl), path)
    ensures forall i :: 0 <= i < |path| ==> path[i] < |GenCluster(tgt, fns, cl)|
    ensures SetBefore(tgt, GenCluster(tgt, fns, cl), path)
  {
    hide GenCluster, Sound, IsPath, SetBefore, PhisOK, SuccsOK;
    var av, next := ClusterSound(tgt, fns, cl);
    GenClusterValid(tgt, fns, cl);
    SoundPath(tgt, GenCluster(tgt, fns, cl), av, next, path);
  }
}
