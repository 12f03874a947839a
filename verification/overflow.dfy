/** No block but the shared one raises Overflow. */
module SharedOverflow {
  import opened Machine
  import opened CFG
  import opened IR
  import opened Codegen
  import opened Invariants
  import opened ClusterGen

  predicate Raises(b: Block) {
    b.term.Some? && b.term.value.RaiseOverflow?
  }

  /** Only the block that the generator remembers raises Overflow. */
  ghost predicate RaisesOnce(cg: CG) {
    forall b :: 0 <= b < |cg.blocks| && Raises(cg.blocks[b]) ==> cg.ovf == Some(b)
  }

  lemma TerminateOnce(cg: CG, t: Terminator)
    requires RaisesOnce(cg) && cg.cur < |cg.blocks| && !t.RaiseOverflow?
    ensures RaisesOnce(Terminate(cg, t))
  {
  }

  lemma WithEmOnce(cg: CG, em: Em)
    requires RaisesOnce(cg) && cg.cur < |cg.blocks|
    ensures RaisesOnce(WithEm(cg, em))
  {
  }

  lemma BranchOnce(tgt: Target, cg: CG, res: nat)
    requires |tgt.stkOffset| == NUM_REGS == |cg.regs| && cg.cur < |cg.blocks| && OverflowInRange(tgt, cg)
             && RaisesOnce(cg)
    ensures RaisesOnce(BranchOnOverflow(tgt, cg, res))
  {
    hide AddIncoming, HwArgs, NewPhis;
    var cg1 := cg.(blocks := cg.blocks + [EMPTY]);
    assert RaisesOnce(cg1);
    var cg2 := MakeOverflow(tgt, cg1);
    assert RaisesOnce(cg2) by {
      forall b | 0 <= b < |cg2.blocks| && Raises(cg2.blocks[b])
        ensures cg2.ovf == Some(b)
      {
        if b < |cg1.blocks| {
          assert Raises(cg1.blocks[b]);
        }
      }
    }
    var cg3 := PhisFromHere(cg2, cg2.ovf.value, HwArgs(tgt, cg2.regs));
    assert RaisesOnce(cg3) by {
      forall b | 0 <= b < |cg3.blocks| && Raises(cg3.blocks[b])
        ensures cg3.ovf == Some(b)
      {
        assert Raises(cg2.blocks[b]);
      }
    }
    TerminateOnce(cg3, CondBr(Temp(res + 1, INT(1)), cg3.ovf.value, |cg.blocks|));
  }

  lemma ArithOnce(u: Unit, cg: CG, arith: ArithOp, args: seq<Exp>, p: Param)
    requires InRange(u, cg) && RaisesOnce(cg)
    ensures RaisesOnce(GenArithStm(u, cg, arith, args, p))
  {
    hide GenExps, BranchOnOverflow, AsInts, RaisesOnce;
    var a := GenExps(u.tgt, cg.vMap, EmOf(cg), args);
    var cg1 := WithEm(cg, a.em);
    WithEmOnce(cg, a.em);
    if arith.checked {
      var em := ArithCode(EmOf(cg1), arith, a.vs);
      WithEmOnce(cg1, em);
      BranchOnce(u.tgt, WithEm(cg1, em), em.next - 2);
    } else {
      var b := AsInts(EmOf(cg1), a.vs, arith.sz);
      WithEmOnce(cg1, Def(b.em, DivOp(arith.code), b.vs, INT(arith.sz)).em);
    }
    var v := GenArith(u.tgt, cg1, arith, a.vs);
    BindOnce(v.cg, p.name, v.v);
  }

  lemma BindOnce(cg: CG, x: Lvar, v: Value)
    requires RaisesOnce(cg)
    ensures RaisesOnce(Bind(cg, x, v))
  {
  }

  lemma GotoOnce(u: Unit, cg: CG, lab: Lvar, args: seq<Exp>)
    requires UnitOK(u) && InRange(u, cg) && RaisesOnce(cg)
    ensures RaisesOnce(GenGotoStm(u, cg, lab, args))
  {
    hide GenExps, CastAll, AddIncoming, HwArgs;
  }

  lemma SwitchOnce(u: Unit, cg: CG, e: Exp, bbs: seq<nat>)
    requires InRange(u, cg) && RaisesOnce(cg)
    ensures RaisesOnce(GenSwitch(u, cg, e, bbs))
  {
    hide GenExp;
  }

  lemma HeadsOnce(u: Unit, cg: CG)
    requires InRange(u, cg) && RaisesOnce(cg)
    ensures forall e, p :: RaisesOnce(GenLet(u, cg, e, p))
    ensures forall a, args, x :: RaisesOnce(GenAllocStm(u, cg, a, args, x))
    ensures forall a, args :: RaisesOnce(GenSetterStm(u, cg, a, args))
  {
    hide GenExp, GenExps, GenAlloc, GenSetter;
  }

  lemma EndsOnce(u: Unit, cg: CG, f: Exp, args: seq<Exp>, tys: seq<Ty>)
    requires InRange(u, cg) && RaisesOnce(cg)
    ensures RaisesOnce(GenApply(u, cg, f, args, tys)) && RaisesOnce(GenThrow(u, cg, f, args, tys))
  {
    hide GenCallee, GenCastExps, HwArgs;
  }

  lemma RestOnce(u: Unit, cg: CG, roots: seq<Exp>, xs: seq<Lvar>, test: BranchOp, args: seq<Exp>, tBB: nat, fBB: nat)
    requires InRange(u, cg) && RaisesOnce(cg)
    ensures RaisesOnce(GenGCStm(u, cg, roots, xs)) && RaisesOnce(GenCondBr(u, cg, test, args, tBB, fBB))
  {
    hide GenRoots, GenExps, GenBranch, GcCode, HwArgs, InsertVals;
  }

  lemma {:induction false} GenStmOnce(u: Unit, cg: CG, s: Stm)
    requires UnitOK(u) && InRange(u, cg) && BlocksBelow(s, u.n) && RaisesOnce(cg)
    ensures RaisesOnce(GenStm(u, cg, s))
    decreases s
  {
    hide GenLet, GenAllocStm, GenApply, GenThrow, GenGotoStm, GenSwitch, GenArithStm, GenSetterStm, GenGCStm, GenCondBr;
    match s
    case LET(e, p, k) =>
      HeadsOnce(u, cg);
      GenStmOnce(u, GenLet(u, cg, e, p), k);
    case ALLOC(alloc, args, x, k) =>
      HeadsOnce(u, cg);
      GenStmOnce(u, GenAllocStm(u, cg, alloc, args, x), k);
    case APPLY(f, args, tys) => EndsOnce(u, cg, f, args, tys);
    case THROW(f, args, tys) => EndsOnce(u, cg, f, args, tys);
    case GOTO(lab, args) => GotoOnce(u, cg, lab, args);
    case SWITCH(e, arms, bbs) =>
      SwitchOnce(u, cg, e, bbs);
      GenArmsOnce(u, GenSwitch(u, cg, e, bbs), arms, bbs);
    case BRANCH(test, args, tArm, fArm, tBB, fBB) =>
      RestOnce(u, cg, [], [], test, args, tBB, fBB);
      var cg1 := GenCondBr(u, cg, test, args, tBB, fBB);
      GenStmOnce(u, cg1.(cur := tBB), tArm);
      GenStmOnce(u, GenStm(u, cg1.(cur := tBB), tArm).(cur := fBB, regs := cg1.regs), fArm);
    case ARITH(arith, args, p, k) =>
      ArithOnce(u, cg, arith, args, p);
      GenStmOnce(u, GenArithStm(u, cg, arith, args, p), k);
    case SETTER(setter, args, k) =>
      HeadsOnce(u, cg);
      GenStmOnce(u, GenSetterStm(u, cg, setter, args), k);
    case CALLGC(roots, xs, k) =>
      RestOnce(u, cg, roots, xs, LIMIT(0), [], 0, 0);
      GenStmOnce(u, GenGCStm(u, cg, roots, xs), k);
  }

  lemma {:induction false} GenArmsOnce(u: Unit, cg: CG, arms: seq<Stm>, bbs: seq<nat>)
    requires UnitOK(u) && InRange(u, cg) && ArmsBelow(arms, u.n) && |arms| <= |bbs| && RaisesOnce(cg)
    requires forall i :: 0 <= i < |bbs| ==> bbs[i] < u.n
    ensures RaisesOnce(GenArms(u, cg, arms, bbs))
    decreases arms
  {
    hide GenStm;
    if arms != [] {
      var n := |arms| - 1;
      GenArmsOnce(u, cg, arms[..n], bbs);
      GenStmOnce(u, GenArms(u, cg, arms[..n], bbs).(cur := bbs[n], regs := cg.regs), arms[n]);
    }
  }

  lemma {:induction false} GenFragsOnce(u: Unit, cg: CG, k: nat)
    requires UnitOK(u) && InRange(u, cg) && k <= |u.cl| && BodiesBelow(u) && RaisesOnce(cg)
    ensures RaisesOnce(GenFrags(u, cg, k))
  {
    hide GenStm;
    if k > 0 {
      GenFragsOnce(u, cg, k - 1);
      GenStmOnce(u, BeginFrag(u, GenFrags(u, cg, k - 1), k - 1), u.cl[k - 1].body);
    }
  }

  /** All overflow checks of a cluster share one block: any block that raises Overflow is that block,
      which does nothing but pass on its phi nodes, one for each hardware register. */
  lemma OneRaises(tgt: Target, fns: Fns, cl: Cluster, b: nat)
    requires tgt.Valid() && WellFormedCluster(tgt, fns, cl)
    requires b < |GenCluster(tgt, fns, cl)| && Raises(GenCluster(tgt, fns, cl)[b])
    ensures var blocks := GenCluster(tgt, fns, cl);
            && (forall b' :: 0 <= b' < |blocks| && Raises(blocks[b']) ==> b' == b)
            && blocks[b].instrs == [] && |blocks[b].phis| == |tgt.Hw()|
            && blocks[b].term == Some(RaiseOverflow(PhiTemps(blocks[b].phis)))
  {
    hide InitCluster, GenFrags;
    OneOverflowBlock(tgt, fns, cl);
    InitClusterFrags(tgt, cl);
    var u, cg := UnitOf(tgt, fns, cl), StartCG(tgt, cl);
    assert RaisesOnce(cg);
    GenFragsOnce(u, cg, |cl|);
  }
}
