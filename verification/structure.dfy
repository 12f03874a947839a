/** Generating a whole statement: the blocks of its arms are numbered apart, each is
    ended exactly once, and the invariant holds at the end. */
module Structure {
  import opened Machine
  import opened CFG
  import opened IR
  import opened Codegen
  import opened Invariants

  /** The arms within s have the numbers from lo to hi, in the order of initialisation. */
  ghost predicate Numbered(s: Stm, lo: nat, hi: nat)
    decreases s
  {
    lo <= hi &&
    match s
    case LET(_, _, k) => Numbered(k, lo, hi)
    case ALLOC(_, _, _, k) => Numbered(k, lo, hi)
    case APPLY(_, _, _) => lo == hi
    case THROW(_, _, _) => lo == hi
    case GOTO(_, _) => lo == hi
    case SWITCH(_, arms, bbs) => |bbs| == |arms| && NumberedArms(arms, bbs, lo, hi)
    case BRANCH(_, _, t, f, tBB, fBB) =>
      tBB == lo && lo < fBB < hi && Numbered(t, lo + 1, fBB) && Numbered(f, fBB + 1, hi)
    case ARITH(_, _, _, k) => Numbered(k, lo, hi)
    case SETTER(_, _, k) => Numbered(k, lo, hi)
    case CALLGC(_, _, k) => Numbered(k, lo, hi)
  }

  ghost predicate NumberedArms(arms: seq<Stm>, bbs: seq<nat>, lo: nat, hi: nat)
    requires |arms| <= |bbs|
    decreases arms
  {
    if arms == [] then lo == hi
    else
      var n := |arms| - 1;
      lo <= bbs[n] < hi && NumberedArms(arms[..n], bbs, lo, bbs[n]) && Numbered(arms[n], bbs[n] + 1, hi)
  }

  lemma {:induction false} NumberedArmsPrefix(arms: seq<Stm>, bbs: seq<nat>, bbs': seq<nat>, lo: nat, hi: nat)
    requires |arms| <= |bbs| && bbs <= bbs' && NumberedArms(arms, bbs, lo, hi)
    ensures NumberedArms(arms, bbs', lo, hi)
    decreases arms
  {
    if arms != [] {
      NumberedArmsPrefix(arms[..|arms| - 1], bbs, bbs', lo, bbs[|arms| - 1]);
    }
  }

  /** Initialisation numbers the arms. */
  lemma {:induction false} InitStmNumbers(s: Stm, n: nat)
    ensures Numbered(InitStm(s, n).s, n, InitStm(s, n).n)
    decreases s
  {
    match s
    case LET(_, _, k) => InitStmNumbers(k, n);
    case ALLOC(_, _, _, k) => InitStmNumbers(k, n);
    case SWITCH(_, arms, _) => InitSwitchNumbers(arms, n);
    case BRANCH(_, _, t, f, _, _) =>
      InitStmNumbers(t, n + 1);
      InitStmNumbers(f, InitStm(t, n + 1).n + 1);
    case ARITH(_, _, _, k) => InitStmNumbers(k, n);
    case SETTER(_, _, k) => InitStmNumbers(k, n);
    case CALLGC(_, _, k) => InitStmNumbers(k, n);
    case _ =>
  }

  lemma InitSwitchEmpty(n: nat)
    ensures InitSwitch([], n) == InitArms([], [], n)
  {
  }

  lemma InitSwitchSplit(arms: seq<Stm>, n: nat)
    requires arms != []
    ensures var last := |arms| - 1;
            var r0, r := InitSwitch(arms[..last], n), InitSwitch(arms, n);
            var i := InitStm(arms[last], r0.n + 1);
            && r.arms == r0.arms + [i.s] && r.arms[..last] == r0.arms && r.arms[last] == i.s
            && r.bbs == r0.bbs + [r0.n] && r.n == i.n
  {
    hide InitStm, BlocksBelow, ArmsBelow;
  }

  lemma {:induction false} InitSwitchNumbers(arms: seq<Stm>, n: nat)
    ensures var r := InitSwitch(arms, n); NumberedArms(r.arms, r.bbs, n, r.n)
    decreases arms
  {
    hide InitSwitch, InitStm;
    if arms == [] {
      InitSwitchEmpty(n);
    } else {
      var last := |arms| - 1;
      var r0, r := InitSwitch(arms[..last], n), InitSwitch(arms, n);
      InitSwitchSplit(arms, n);
      InitSwitchNumbers(arms[..last], n);
      InitStmNumbers(arms[last], r0.n + 1);
      NumberedArmsPrefix(r0.arms, r0.bbs, r.bbs, n, r0.n);
    }
  }

  /** Initialisation only numbers: it changes no behaviour, and keeps well-formedness. */
  lemma {:induction false} InitStmKeeps(m: Machine, fns: Fns, s: Stm, n: nat, st: State)
    requires |st.regs| == NUM_REGS && m.tgt.wordSz > 0
    ensures RunStm(m, fns, InitStm(s, n).s, st) == RunStm(m, fns, s, st)
    decreases s
  {
    hide Eval, EvalAll, Allocate, Set, Test, NumVal, FindFrag;
    match s
    case LET(e, p, k) => InitStmKeeps(m, fns, k, n, st.(env := st.env[p.name := Eval(m, e, st)]));
    case ALLOC(alloc, args, x, k) =>
      var a := Allocate(m.tgt, alloc, EvalAll(m, args, st), st.regs[ALLOC_PTR], st.mem);
      InitStmKeeps(m, fns, k, n, State(st.env[x := a.obj], st.regs[ALLOC_PTR := a.next], a.mem));
    case SWITCH(e, arms, _) =>
      var i := Eval(m, e, st) % 0x1_0000_0000;
      if i < |arms| {
        InitSwitchKeeps(m, fns, arms, n, st, i);
      }
    case BRANCH(_, _, t, f, _, _) =>
      InitStmKeeps(m, fns, t, n + 1, st);
      InitStmKeeps(m, fns, f, InitStm(t, n + 1).n + 1, st);
    case ARITH(arith, args, p, k) =>
      InitStmKeeps(m, fns, k, n, st.(env := st.env[p.name := m.ops.arith(arith.code, EvalAll(m, args, st))]));
    case SETTER(setter, args, k) =>
      var a := Set(m.tgt, setter, EvalAll(m, args, st), st.regs, st.mem);
      InitStmKeeps(m, fns, k, n, State(st.env, a.regs, a.mem));
    case CALLGC(roots, newRoots, k) =>
      var vals := EvalAll(m, roots, st);
      InitStmKeeps(m, fns, k, n,
        State(BindAll(st.env, newRoots, GcRoots(m, |newRoots|, st.regs, vals, st.mem)),
              GcRegs(m, st.regs, vals, st.mem), m.ops.gcMem(st.regs, vals, st.mem)));
    case _ =>
  }

  lemma {:induction false} InitSwitchKeeps(m: Machine, fns: Fns, arms: seq<Stm>, n: nat, st: State, i: nat)
    requires |st.regs| == NUM_REGS && m.tgt.wordSz > 0 && i < |arms|
    ensures RunStm(m, fns, InitSwitch(arms, n).arms[i], st) == RunStm(m, fns, arms[i], st)
    decreases arms
  {
    var last := |arms| - 1;
    if i < last {
      InitSwitchKeeps(m, fns, arms[..last], n, st, i);
    } else {
      InitStmKeeps(m, fns, arms[last], InitSwitch(arms[..last], n).n + 1, st);
    }
  }

  /** Two clusters with the same headers. */
  ghost predicate SameHeaders(cl: Cluster, cl': Cluster) {
    |cl| == |cl'| && forall i :: 0 <= i < |cl| ==>
      cl'[i].kind == cl[i].kind && cl'[i].lab == cl[i].lab && cl'[i].params == cl[i].params
  }

  lemma {:induction false} SameFragFound(cl: Cluster, cl': Cluster, lab: Lvar)
    requires SameHeaders(cl, cl')
    ensures FindFrag(cl', lab) == FindFrag(cl, lab)
  {
    if cl != [] {
      SameFragFound(cl[..|cl| - 1], cl'[..|cl| - 1], lab);
    }
  }

  lemma SameTarget(cl: Cluster, cl': Cluster, lab: Lvar)
    requires SameHeaders(cl, cl')
    ensures var d := FindFrag(cl, lab);
            && FindFrag(cl', lab) == d && |cl'| == |cl|
            && (d.Some? ==> cl'[d.value].kind == cl[d.value].kind && cl'[d.value].params == cl[d.value].params)
  {
    SameFragFound(cl, cl', lab);
  }

  lemma {:induction false} InitStmWellFormed(tgt: Target, fns: Fns, cl: Cluster, cl': Cluster, s: Stm, n: nat,
                                             scope: set<Lvar>)
    requires SameHeaders(cl, cl')
    ensures Binders(InitStm(s, n).s) == Binders(s)
    ensures WellFormed(tgt, fns, cl, s, scope) ==> WellFormed(tgt, fns, cl', InitStm(s, n).s, scope)
    decreases s
  {
    hide Scoped, ScopedAll, SameHeaders, InitSwitch, WellFormedArms, ArmBinders, Elems;
    match s
    case LET(_, p, k) => InitStmWellFormed(tgt, fns, cl, cl', k, n, scope + {p.name});
    case ALLOC(_, _, x, k) => InitStmWellFormed(tgt, fns, cl, cl', k, n, scope + {x});
    case GOTO(lab, _) => SameTarget(cl, cl', lab);
    case SWITCH(_, arms, _) => InitSwitchWellFormed(tgt, fns, cl, cl', arms, n, scope);
    case BRANCH(_, _, t, f, _, _) =>
      InitStmWellFormed(tgt, fns, cl, cl', t, n + 1, scope);
      InitStmWellFormed(tgt, fns, cl, cl', f, InitStm(t, n + 1).n + 1, scope);
    case ARITH(_, _, p, k) => InitStmWellFormed(tgt, fns, cl, cl', k, n, scope + {p.name});
    case SETTER(_, _, k) => InitStmWellFormed(tgt, fns, cl, cl', k, n, scope);
    case CALLGC(_, xs, k) => InitStmWellFormed(tgt, fns, cl, cl', k, n, scope + Elems(xs));
    case _ =>
  }

  lemma {:induction false} InitSwitchWellFormed(tgt: Target, fns: Fns, cl: Cluster, cl': Cluster, arms: seq<Stm>,
                                                n: nat, scope: set<Lvar>)
    requires SameHeaders(cl, cl')
    ensures ArmBinders(InitSwitch(arms, n).arms) == ArmBinders(arms)
    ensures WellFormedArms(tgt, fns, cl, arms, scope) ==>
            WellFormedArms(tgt, fns, cl', InitSwitch(arms, n).arms, scope)
    decreases arms
  {
    hide InitSwitch, InitStm;
    if arms == [] {
      InitSwitchEmpty(n);
    } else {
      var last := |arms| - 1;
      var r0, r := InitSwitch(arms[..last], n), InitSwitch(arms, n);
      InitSwitchSplit(arms, n);
      InitSwitchWellFormed(tgt, fns, cl, cl', arms[..last], n, scope);
      InitStmWellFormed(tgt, fns, cl, cl', arms[last], r0.n + 1, scope);
    }
  }

  // ----- whole statements -----

  /** Only the first fragment is not internal. */
  ghost predicate UnitKinds(u: Unit) {
    |u.cl| > 0 && u.cl[0].kind != INTERNAL
  }

  ghost predicate Pristine(blocks: seq<Block>, lo: nat, hi: nat) {
    hi <= |blocks| && forall b :: lo <= b < hi ==> blocks[b] == EMPTY
  }

  /** Ready to generate s at the insertion point. */
  ghost predicate Ready(u: Unit, cg: CG, s: Stm, lo: nat, hi: nat) {
    && Inv(u, cg) && Open(cg) && UnitKinds(u)
    && Numbered(s, lo, hi) && BlocksBelow(s, u.n) && hi <= u.n
    && !(lo <= cg.cur < hi) && Pristine(cg.blocks, lo, hi)
  }

  lemma {:induction false} NumberedBelow(s: Stm, lo: nat, hi: nat, n: nat)
    requires Numbered(s, lo, hi) && hi <= n
    ensures BlocksBelow(s, n)
    decreases s
  {
    match s
    case LET(_, _, k) => NumberedBelow(k, lo, hi, n);
    case ALLOC(_, _, _, k) => NumberedBelow(k, lo, hi, n);
    case SWITCH(_, arms, bbs) => NumberedArmsBelow(arms, bbs, lo, hi, n);
    case BRANCH(_, _, t, f, tBB, fBB) =>
      NumberedBelow(t, lo + 1, fBB, n);
      NumberedBelow(f, fBB + 1, hi, n);
    case ARITH(_, _, _, k) => NumberedBelow(k, lo, hi, n);
    case SETTER(_, _, k) => NumberedBelow(k, lo, hi, n);
    case CALLGC(_, _, k) => NumberedBelow(k, lo, hi, n);
    case _ =>
  }

  lemma {:induction false} NumberedArmsBelow(arms: seq<Stm>, bbs: seq<nat>, lo: nat, hi: nat, n: nat)
    requires |arms| <= |bbs| && NumberedArms(arms, bbs, lo, hi) && hi <= n
    ensures ArmsBelow(arms, n) && lo <= hi
    ensures forall i :: 0 <= i < |arms| ==> lo <= bbs[i] < hi
    decreases arms
  {
    if arms != [] {
      var last := |arms| - 1;
      NumberedArmsBelow(arms[..last], bbs, lo, bbs[last], n);
      NumberedBelow(arms[last], bbs[last] + 1, hi, n);
    }
  }

  /** Blocks that were empty are empty still, unless generation went through them. */
  lemma StillPristine(bs: seq<Block>, bs': seq<Block>, lo: nat, hi: nat)
    requires Pristine(bs, lo, hi) && Ext(bs, bs')
    requires forall b :: lo <= b < hi ==> SameCode(bs[b], bs'[b])
    ensures Pristine(bs', lo, hi)
  {
    forall b | lo <= b < hi
      ensures bs'[b] == EMPTY
    {
      assert BlockExt(bs[b], bs'[b]) && SameCode(bs[b], bs'[b]);
    }
  }

  lemma SeqReady(u: Unit, cg: CG, cg1: CG, s: Stm, k: Stm, lo: nat, hi: nat)
    requires Ready(u, cg, s, lo, hi) && Step(u, cg, cg1) && Numbered(k, lo, hi)
    ensures Ready(u, cg1, k, lo, hi)
  {
    NumberedBelow(k, lo, hi, u.n);
    StillPristine(cg.blocks, cg1.blocks, lo, hi);
  }

  lemma SeqPost(u: Unit, cg: CG, cg1: CG, cg': CG, lo: nat, hi: nat)
    requires Step(u, cg, cg1) && Post(u, cg1, cg', lo, hi) && hi <= |cg.blocks| && !(lo <= cg.cur < hi)
    ensures Post(u, cg, cg', lo, hi)
  {
    ExtTrans(cg.blocks, cg1.blocks, cg'.blocks);
    assert Ended(cg'.blocks, cg1.cur);
    if cg1.cur != cg.cur {
      assert SameCode(cg1.blocks[cg.cur], cg'.blocks[cg.cur]);
    }
    forall b | 0 <= b < |cg.blocks| && b != cg.cur && !(lo <= b < hi)
      ensures SameCode(cg.blocks[b], cg'.blocks[b])
    {
      assert SameCode(cg.blocks[b], cg1.blocks[b]) && SameCode(cg1.blocks[b], cg'.blocks[b]);
    }
    forall b | |cg.blocks| <= b < |cg'.blocks|
      ensures Ended(cg'.blocks, b)
    {
      if b < |cg1.blocks| && b != cg1.cur {
        assert Ended(cg1.blocks, b) && SameCode(cg1.blocks[b], cg'.blocks[b]);
      }
    }
  }

  /** The state in which an arm starts: at an empty block, with the registers of the split. */
  function AtArm(cg: CG, bb: nat, regs: seq<Option<Value>>): CG {
    cg.(cur := bb, regs := regs)
  }

  lemma ArmReady(u: Unit, cg: CG, bb: nat, regs: seq<Option<Value>>, s: Stm, hi: nat)
    requires Inv(u, cg) && UnitKinds(u) && Shape(regs) == Shape(cg.regs) && |regs| == NUM_REGS
    requires bb < hi <= u.n && Numbered(s, bb + 1, hi) && Pristine(cg.blocks, bb, hi)
    ensures Ready(u, AtArm(cg, bb, regs), s, bb + 1, hi)
  {
    NumberedBelow(s, bb + 1, hi, u.n);
  }

  /** Generating s restores the invariant, ends the block and all blocks of its arms, and
      leaves the code of other blocks alone. */
  lemma {:induction false} GenStmInv(u: Unit, cg: CG, s: Stm, lo: nat, hi: nat, scope: set<Lvar>)
    requires Ready(u, cg, s, lo, hi) && WellFormed(u.tgt, u.fns, u.cl, s, scope)
    ensures Post(u, cg, GenStm(u, cg, s), lo, hi)
    decreases s, 1
  {
    HeadInv(u, cg);
    match s
    case LET(e, p, k) => GenSeqInv(u, cg, s, GenLet(u, cg, e, p), k, lo, hi, scope + {p.name});
    case ALLOC(alloc, args, x, k) => GenSeqInv(u, cg, s, GenAllocStm(u, cg, alloc, args, x), k, lo, hi, scope + {x});
    case APPLY(f, args, tys) =>
      var c := GenCallee(u, cg.vMap, EmOf(cg), f, STD_FUN, tys);
      CallInv(u, cg, c, c.kind, args, lo);
    case THROW(f, args, tys) =>
      CallInv(u, cg, GenCallee(u, cg.vMap, EmOf(cg), f, STD_CONT, tys), STD_CONT, args, lo);
    case GOTO(lab, args) => GotoInv(u, cg, FindFrag(u.cl, lab).value, args, lo);
    case SWITCH(e, arms, bbs) => SwitchInv(u, cg, e, arms, bbs, lo, hi, scope);
    case BRANCH(_, _, _, _, _, _) => BranchInv(u, cg, s, lo, hi, scope);
    case ARITH(arith, args, p, k) =>
      ArithStmInv(u, cg, arith, args, p);
      GenSeqInv(u, cg, s, GenArithStm(u, cg, arith, args, p), k, lo, hi, scope + {p.name});
    case SETTER(setter, args, k) => GenSeqInv(u, cg, s, GenSetterStm(u, cg, setter, args), k, lo, hi, scope);
    case CALLGC(roots, xs, k) =>
      GCStmInv(u, cg, roots, xs);
      GenSeqInv(u, cg, s, GenGCStm(u, cg, roots, xs), k, lo, hi, scope + Elems(xs));
  }

  lemma {:induction false} GenSeqInv(u: Unit, cg: CG, s: Stm, cg1: CG, k: Stm, lo: nat, hi: nat, scope: set<Lvar>)
    requires Ready(u, cg, s, lo, hi) && Step(u, cg, cg1) && Numbered(k, lo, hi)
    requires WellFormed(u.tgt, u.fns, u.cl, k, scope) && BlocksBelow(k, u.n)
    ensures Post(u, cg, GenStm(u, cg1, k), lo, hi)
    decreases k, 2
  {
    SeqReady(u, cg, cg1, s, k, lo, hi);
    GenStmInv(u, cg1, k, lo, hi, scope);
    SeqPost(u, cg, cg1, GenStm(u, cg1, k), lo, hi);
  }

  /** From cg to cg', arms that own the blocks from lo to hi were generated. */
  ghost predicate ArmPost(u: Unit, cg: CG, cg': CG, lo: nat, hi: nat) {
    && Inv(u, cg') && Ext(cg.blocks, cg'.blocks) && cg.next <= cg'.next
    && (forall b :: 0 <= b < |cg.blocks| && !(lo <= b < hi) ==> SameCode(cg.blocks[b], cg'.blocks[b]))
    && (forall b :: lo <= b < hi || |cg.blocks| <= b < |cg'.blocks| ==> Ended(cg'.blocks, b))
  }

  /** From cg to cg1, the block was ended with a split. */
  ghost predicate SplitHead(u: Unit, cg: CG, cg1: CG) {
    && Inv(u, cg1) && Ext(cg.blocks, cg1.blocks) && cg.next <= cg1.next
    && cg1.regs == cg.regs && cg1.vMap == cg.vMap && Ended(cg1.blocks, cg.cur)
    && (forall b :: 0 <= b < |cg.blocks| && b != cg.cur ==> SameCode(cg.blocks[b], cg1.blocks[b]))
    && (forall b :: |cg.blocks| <= b < |cg1.blocks| ==> Ended(cg1.blocks, b))
  }

  lemma ArmPostTrans(u: Unit, cg: CG, cg1: CG, cg': CG, lo: nat, mid: nat, hi: nat)
    requires ArmPost(u, cg, cg1, lo, mid) && ArmPost(u, cg1, cg', mid, hi) && lo <= mid <= hi <= |cg.blocks|
    ensures ArmPost(u, cg, cg', lo, hi)
  {
    hide Inv;
    ExtTrans(cg.blocks, cg1.blocks, cg'.blocks);
    forall b | 0 <= b < |cg.blocks| && !(lo <= b < hi)
      ensures SameCode(cg.blocks[b], cg'.blocks[b])
    {
      assert SameCode(cg.blocks[b], cg1.blocks[b]) && SameCode(cg1.blocks[b], cg'.blocks[b]);
    }
    forall b | lo <= b < hi || |cg.blocks| <= b < |cg'.blocks|
      ensures Ended(cg'.blocks, b)
    {
      if b < |cg1.blocks| && !(mid <= b < hi) {
        assert Ended(cg1.blocks, b) && SameCode(cg1.blocks[b], cg'.blocks[b]);
      }
    }
  }

  lemma SplitPost(u: Unit, cg: CG, cg1: CG, cg': CG, lo: nat, hi: nat)
    requires cg.cur < |cg.blocks| && SplitHead(u, cg, cg1) && ArmPost(u, cg1, cg', lo, hi)
    requires !(lo <= cg.cur < hi) && hi <= |cg.blocks|
    ensures Post(u, cg, cg', lo, hi)
  {
    hide Inv;
    ExtTrans(cg.blocks, cg1.blocks, cg'.blocks);
    assert SameCode(cg1.blocks[cg.cur], cg'.blocks[cg.cur]);
    forall b | 0 <= b < |cg.blocks| && b != cg.cur && !(lo <= b < hi)
      ensures SameCode(cg.blocks[b], cg'.blocks[b])
    {
      assert SameCode(cg.blocks[b], cg1.blocks[b]) && SameCode(cg1.blocks[b], cg'.blocks[b]);
    }
    forall b | |cg.blocks| <= b < |cg'.blocks|
      ensures Ended(cg'.blocks, b)
    {
      if b < |cg1.blocks| {
        assert Ended(cg1.blocks, b) && SameCode(cg1.blocks[b], cg'.blocks[b]);
      }
    }
  }

  /** One arm, at block bb. */
  lemma {:induction false} ArmInv(u: Unit, cg: CG, bb: nat, regs: seq<Option<Value>>, s: Stm, hi: nat, scope: set<Lvar>)
    requires Inv(u, cg) && UnitKinds(u) && Shape(regs) == Shape(cg.regs) && |regs| == NUM_REGS
    requires bb < hi <= u.n && Numbered(s, bb + 1, hi) && Pristine(cg.blocks, bb, hi) && BlocksBelow(s, u.n)
    requires WellFormed(u.tgt, u.fns, u.cl, s, scope)
    ensures ArmPost(u, cg, GenStm(u, AtArm(cg, bb, regs), s), bb, hi)
    decreases s, 2
  {
    ArmReady(u, cg, bb, regs, s, hi);
    GenStmInv(u, AtArm(cg, bb, regs), s, bb + 1, hi, scope);
  }

  lemma BranchFacts(u: Unit, cg: CG, s: Stm, lo: nat, hi: nat, scope: set<Lvar>)
    requires s.BRANCH? && Ready(u, cg, s, lo, hi) && WellFormed(u.tgt, u.fns, u.cl, s, scope)
    ensures s.tBB == lo && lo < s.fBB < hi && Numbered(s.tArm, lo + 1, s.fBB) && Numbered(s.fArm, s.fBB + 1, hi)
    ensures BlocksBelow(s.tArm, u.n) && BlocksBelow(s.fArm, u.n) && ScopedAll(u.fns, s.args, scope)
    ensures WellFormed(u.tgt, u.fns, u.cl, s.tArm, scope) && WellFormed(u.tgt, u.fns, u.cl, s.fArm, scope)
    ensures Binders(s.tArm) !! Binders(s.fArm) && Binders(s) == Binders(s.tArm) + Binders(s.fArm)
    ensures UnitOK(u) && InRange(u, cg) && lo < u.n <= |cg.blocks| && s.fBB < u.n
    ensures cg.blocks[lo] == EMPTY && cg.blocks[s.fBB] == EMPTY && lo != cg.cur && s.fBB != cg.cur
    ensures var cg1 := GenCondBr(u, cg, s.test, s.args, lo, s.fBB);
            var cg2 := GenStm(u, AtArm(cg1, lo, cg1.regs), s.tArm);
            GenStm(u, cg, s) == GenStm(u, AtArm(cg2, s.fBB, cg1.regs), s.fArm)
  {
    hide GenCondBr, PhisOK, SuccsOK, IdsOK, FragsOK, OverflowOK;
  }

  lemma {:induction false} BranchInv(u: Unit, cg: CG, s: Stm, lo: nat, hi: nat, scope: set<Lvar>)
    requires s.BRANCH? && Ready(u, cg, s, lo, hi) && WellFormed(u.tgt, u.fns, u.cl, s, scope)
    ensures Post(u, cg, GenStm(u, cg, s), lo, hi)
    decreases s, 0
  {
    hide GenCondBr, Inv, Ext, BlockExt, GenStm, Numbered, BlocksBelow, WellFormed, Binders;
    BranchFacts(u, cg, s, lo, hi, scope);
    var BRANCH(test, args, t, f, _, mid) := s;
    var cg1 := GenCondBr(u, cg, test, args, lo, mid);
    CondBrInv(u, cg, test, args, lo, mid);
    InvFacts(u, cg1);
    StillPristine(cg.blocks, cg1.blocks, lo, hi);
    ArmInv(u, cg1, lo, cg1.regs, t, mid, scope);
    InvFacts(u, GenStm(u, AtArm(cg1, lo, cg1.regs), t));
    var cg2 := GenStm(u, AtArm(cg1, lo, cg1.regs), t);
    StillPristine(cg1.blocks, cg2.blocks, mid, hi);
    ArmInv(u, cg2, mid, cg1.regs, f, hi, scope);
    var cg' := GenStm(u, AtArm(cg2, mid, cg1.regs), f);
    ArmPostTrans(u, cg1, cg2, cg', lo, mid, hi);
    SplitPost(u, cg, cg1, cg', lo, hi);
  }

  lemma CondBrInv(u: Unit, cg: CG, test: BranchOp, args: seq<Exp>, t: nat, f: nat)
    requires Inv(u, cg) && Open(cg) && t < |cg.blocks| && f < |cg.blocks|
    requires cg.blocks[t] == EMPTY && cg.blocks[f] == EMPTY
    ensures SplitHead(u, cg, GenCondBr(u, cg, test, args, t, f))
    ensures |GenCondBr(u, cg, test, args, t, f).blocks| == |cg.blocks|
  {
    var a := GenExps(u.tgt, cg.vMap, EmOf(cg), args);
    var v := GenBranch(u.tgt, a.em, test, a.vs);
    WithEmInv(u, cg, v.em);
    TerminateInv(u, WithEm(cg, v.em), CondBr(v.v, t, f));
    ExtTrans(cg.blocks, WithEm(cg, v.em).blocks, GenCondBr(u, cg, test, args, t, f).blocks);
  }

  lemma SwitchHeadInv(u: Unit, cg: CG, e: Exp, bbs: seq<nat>)
    requires Inv(u, cg) && Open(cg)
    requires forall i :: 0 <= i < |bbs| ==> bbs[i] < |cg.blocks| && cg.blocks[bbs[i]] == EMPTY && bbs[i] != cg.cur
    ensures SplitHead(u, cg, GenSwitch(u, cg, e, bbs))
  {
    var v := GenExp(u.tgt, cg.vMap, EmOf(cg), e);
    var i := AsInt(v.em, v.v, Native(u.tgt));
    var t := Def(i.em, Trunc32Op, [i.v], INT(32));
    WithEmInv(u, cg, t.em);
    SwitchEndInv(u, WithEm(cg, t.em), t.v, bbs);
    var cgA := WithEm(cg, t.em);
    ExtTrans(cg.blocks, cgA.blocks, GenSwitch(u, cg, e, bbs).blocks);
  }

  lemma SwitchEndInv(u: Unit, cgA: CG, v: Value, bbs: seq<nat>)
    requires Inv(u, cgA) && Open(cgA)
    requires forall i :: 0 <= i < |bbs| ==> bbs[i] < |cgA.blocks| && cgA.blocks[bbs[i]] == EMPTY && bbs[i] != cgA.cur
    ensures var cgB := cgA.(blocks := cgA.blocks + [EMPTY.(term := Some(Unreachable))]);
            SplitHead(u, cgA, Terminate(cgB, Switch(v, bbs, |cgA.blocks|)))
  {
    var blk := EMPTY.(term := Some(Unreachable));
    AppendInv(u, cgA, blk);
    var cgB := cgA.(blocks := cgA.blocks + [blk]);
    var sw := Switch(v, bbs, |cgA.blocks|);
    forall d | d in Succs(sw)
      ensures d < |cgB.blocks| && cgB.blocks[d].phis == []
    {
    }
    TerminateInv(u, cgB, sw);
    ExtTrans(cgA.blocks, cgB.blocks, Terminate(cgB, sw).blocks);
  }

  lemma {:induction false} SwitchInv(u: Unit, cg: CG, e: Exp, arms: seq<Stm>, bbs: seq<nat>, lo: nat, hi: nat,
                                     scope: set<Lvar>)
    requires Ready(u, cg, SWITCH(e, arms, bbs), lo, hi)
    requires WellFormedArms(u.tgt, u.fns, u.cl, arms, scope)
    ensures Post(u, cg, GenStm(u, cg, SWITCH(e, arms, bbs)), lo, hi)
    decreases arms, 2
  {
    var cg1 := GenSwitch(u, cg, e, bbs);
    NumberedArmsBelow(arms, bbs, lo, hi, u.n);
    SwitchHeadInv(u, cg, e, bbs);
    StillPristine(cg.blocks, cg1.blocks, lo, hi);
    GenArmsInv(u, cg1, arms, bbs, lo, hi, scope);
    SplitPost(u, cg, cg1, GenArms(u, cg1, arms, bbs), lo, hi);
  }

  /** Generating the arms of a switch. */
  lemma {:induction false} GenArmsInv(u: Unit, cg: CG, arms: seq<Stm>, bbs: seq<nat>, lo: nat, hi: nat,
                                      scope: set<Lvar>)
    requires Inv(u, cg) && UnitKinds(u) && |arms| <= |bbs| && NumberedArms(arms, bbs, lo, hi) && ArmsBelow(arms, u.n)
    requires forall i :: 0 <= i < |bbs| ==> bbs[i] < u.n
    requires hi <= u.n && Pristine(cg.blocks, lo, hi) && WellFormedArms(u.tgt, u.fns, u.cl, arms, scope)
    ensures ArmPost(u, cg, GenArms(u, cg, arms, bbs), lo, hi)
    decreases arms, 1
  {
    if arms != [] {
      var n := |arms| - 1;
      var mid := bbs[n];
      NumberedArmsBelow(arms[..n], bbs, lo, mid, u.n);
      GenArmsInv(u, cg, arms[..n], bbs, lo, mid, scope);
      var cg1 := GenArms(u, cg, arms[..n], bbs);
      StillPristine(cg.blocks, cg1.blocks, mid, hi);
      ArmInv(u, cg1, mid, cg.regs, arms[n], hi, scope);
      ArmPostTrans(u, cg, cg1, GenStm(u, AtArm(cg1, mid, cg.regs), arms[n]), lo, mid, hi);
    } else {
      ExtRefl(cg.blocks);
    }
  }

  lemma ExtRefl(bs: seq<Block>)
    ensures Ext(bs, bs)
  {
  }
}
