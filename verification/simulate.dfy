/** Meaning preservation: the blocks generated for a statement end as the statement does. */
module Simulate {
  import opened Machine
  import opened CFG
  import opened IR
  import opened Codegen
  import opened Straight
  import opened Invariants
  import opened Structure

  // ----- what is observed -----

  function UnusedVals(m: Machine, kind: FragKind): seq<Val> {
    if kind == STD_CONT then [m.ops.undef, m.ops.undef] else []
  }

  /** An outcome of the CFG as the generated code shows it: hardware registers come first
      among the arguments, the others are in the stack frame. */
  function Observe(m: Machine, o: Outcome): TOutcome
    requires |m.tgt.stkOffset| == NUM_REGS
    requires o.Transfer? ==> |o.regs| == NUM_REGS
    requires o.Overflow? ==> |o.regs| == NUM_REGS
  {
    match o
    case Transfer(fn, kind, args, regs, mem) =>
      Called(fn, HwVals(m.tgt, regs) + UnusedVals(m, kind) + args, StackOf(m.tgt, regs), mem)
    case Overflow(regs, mem) => Raised(HwVals(m.tgt, regs), StackOf(m.tgt, regs), mem)
    case BadSwitch => Impossible
  }

  /** The generated code is about to execute the i-th fragment, whose phi nodes hold the
      hardware registers and the arguments. */
  ghost predicate AtEntry(u: Unit, fin: seq<Block>, r: TRes, i: nat, args: seq<Val>, regs: seq<Val>, mem: Mem) {
    && |u.tgt.stkOffset| == NUM_REGS && |u.bbs| == |u.cl|
    && 1 <= i < |u.cl| && |regs| == NUM_REGS && |args| == |u.cl[i].params|
    && r.At? && r.blk == u.bbs[i] && r.blk < |fin|
    && r.ts.stk == StackOf(u.tgt, regs) && r.ts.mem == mem
    && var vals := HwVals(u.tgt, regs) + args;
       |fin[r.blk].phis| == |vals| &&
       forall k :: 0 <= k < |vals| ==> fin[r.blk].phis[k].id in r.ts.env && r.ts.env[fin[r.blk].phis[k].id] == vals[k]
  }

  ghost predicate Ends(u: Unit, m: Machine, fin: seq<Block>, r: TRes, e: FragEnd) {
    |m.tgt.stkOffset| == NUM_REGS &&
    match e
    case Halt(o) =>
      && (o.Transfer? ==> |o.regs| == NUM_REGS) && (o.Overflow? ==> |o.regs| == NUM_REGS)
      && r == Done(Observe(m, o))
    case Jump(lab, args, regs, mem) =>
      FindFrag(u.cl, lab).Some? && AtEntry(u, fin, r, FindFrag(u.cl, lab).value, args, regs, mem)
  }

  // ----- sequences of temporaries and of bindings -----

  predicate TempIs(env: map<nat, Val>, id: nat, v: Val) {
    id in env && env[id] == v
  }

  lemma {:induction false} SetTempsAt(env: map<nat, Val>, dst: nat, vals: seq<Val>)
    ensures forall i :: 0 <= i < |vals| ==> TempIs(SetTemps(env, dst, vals), dst + i, vals[i])
    ensures Agree(env, SetTemps(env, dst, vals), dst)
  {
    if vals != [] {
      var n := |vals| - 1;
      var r := SetTemps(env, dst, vals[..n]);
      SetTempsAt(env, dst, vals[..n]);
      forall i | 0 <= i < |vals|
        ensures TempIs(SetTemps(env, dst, vals), dst + i, vals[i])
      {
        if i < n {
          assert vals[..n][i] == vals[i] && TempIs(r, dst + i, vals[..n][i]);
        }
      }
    }
  }

  lemma {:induction false} BindAllAt(env: map<Lvar, Val>, xs: seq<Lvar>, vals: seq<Val>)
    requires Distinct(xs) && |xs| <= |vals|
    ensures forall j :: 0 <= j < |xs| ==> xs[j] in BindAll(env, xs, vals) && BindAll(env, xs, vals)[xs[j]] == vals[j]
    ensures forall y :: y !in xs ==> (y in BindAll(env, xs, vals) <==> y in env)
    ensures forall y :: y !in xs && y in env ==> BindAll(env, xs, vals)[y] == env[y]
  {
    if xs != [] {
      BindAllAt(env, xs[..|xs| - 1], vals);
    }
  }

  lemma {:induction false} InsertValsAt(vMap: VMap, xs: seq<Lvar>, vs: seq<Value>)
    requires Distinct(xs) && |xs| <= |vs| && Elems(xs) !! vMap.Keys
    ensures forall j :: 0 <= j < |xs| ==> xs[j] in InsertVals(vMap, xs, vs) && InsertVals(vMap, xs, vs)[xs[j]] == vs[j]
    ensures forall y :: y in vMap ==> y in InsertVals(vMap, xs, vs) && InsertVals(vMap, xs, vs)[y] == vMap[y]
    ensures InsertVals(vMap, xs, vs).Keys <= vMap.Keys + Elems(xs)
  {
    if xs != [] {
      var n := |xs| - 1;
      assert Elems(xs[..n]) <= Elems(xs);
      InsertValsAt(vMap, xs[..n], vs);
      assert xs[n] in Elems(xs);
      assert xs[n] !in vMap.Keys + Elems(xs[..n]);
    }
  }

  /** Binding variables to values that hold keeps the simulation. */
  lemma BindAllSim(x: Exe, vMap: VMap, em: Em, st: State, xs: seq<Lvar>, vs: seq<Value>, vals: seq<Val>)
    requires Sim(x, vMap, em, st) && Distinct(xs) && |xs| == |vs| == |vals|
    requires Elems(xs) !! vMap.Keys
    requires forall j :: 0 <= j < |xs| ==> Holds(x, em, vs[j], vals[j])
    ensures Sim(x, InsertVals(vMap, xs, vs), em, st.(env := BindAll(st.env, xs, vals)))
    ensures BindAll(st.env, xs, vals).Keys == st.env.Keys + Elems(xs)
  {
    BindAllAt(st.env, xs, vals);
    InsertValsAt(vMap, xs, vs);
    var env', vMap' := BindAll(st.env, xs, vals), InsertVals(vMap, xs, vs);
    forall y | y in env'
      ensures y in vMap' && Holds(x, em, vMap'[y], env'[y])
    {
      if y in xs {
        var j :| 0 <= j < |xs| && xs[j] == y;
      }
    }
  }

  lemma BindSim(x: Exe, vMap: VMap, em: Em, st: State, y: Lvar, v: Value, val: Val)
    requires Sim(x, vMap, em, st) && Holds(x, em, v, val) && y !in vMap
    ensures Sim(x, InsertVal(vMap, y, v), em, st.(env := st.env[y := val]))
  {
  }

  /** Variables keep their value, and only binders of s are added. */
  ghost predicate MapExt(vMap: VMap, vMap': VMap, binders: set<Lvar>) {
    (forall y :: y in vMap ==> y in vMap' && vMap'[y] == vMap[y]) && vMap'.Keys <= vMap.Keys + binders
  }

  lemma {:induction false} InsertValsExt(vMap: VMap, xs: seq<Lvar>, vs: seq<Value>)
    requires |xs| <= |vs|
    ensures MapExt(vMap, InsertVals(vMap, xs, vs), Elems(xs))
  {
    if xs != [] {
      InsertValsExt(vMap, xs[..|xs| - 1], vs);
      assert Elems(xs) == Elems(xs[..|xs| - 1]) + {xs[|xs| - 1]};
    }
  }

  lemma HeadMap(u: Unit, cg: CG)
    requires InRange(u, cg)
    ensures forall e, p :: MapExt(cg.vMap, GenLet(u, cg, e, p).vMap, {p.name})
    ensures forall alloc, args, y :: MapExt(cg.vMap, GenAllocStm(u, cg, alloc, args, y).vMap, {y})
    ensures forall arith, args, p :: MapExt(cg.vMap, GenArithStm(u, cg, arith, args, p).vMap, {p.name})
    ensures forall setter, args :: GenSetterStm(u, cg, setter, args).vMap == cg.vMap
    ensures forall e, bbs :: GenSwitch(u, cg, e, bbs).vMap == cg.vMap
    ensures forall test, args, t, f :: GenCondBr(u, cg, test, args, t, f).vMap == cg.vMap
  {
  }

  lemma GCMap(u: Unit, cg: CG, roots: seq<Exp>, xs: seq<Lvar>)
    requires InRange(u, cg)
    ensures MapExt(cg.vMap, GenGCStm(u, cg, roots, xs).vMap, Elems(xs))
  {
    var cg1 := WithEm(cg, GenRoots(u.tgt, cg.vMap, EmOf(cg), roots).em);
    InsertValsExt(cg.vMap, xs, Temps(EmOf(cg1).next + |u.tgt.Hw()|, Ptrs(|xs|)));
  }

  lemma MapExtTrans(a: VMap, b: VMap, c: VMap, s: set<Lvar>, t: set<Lvar>)
    requires MapExt(a, b, s) && MapExt(b, c, t)
    ensures MapExt(a, c, s + t)
  {
  }

  lemma {:induction false} GenStmMap(u: Unit, cg: CG, s: Stm)
    requires UnitOK(u) && InRange(u, cg) && BlocksBelow(s, u.n)
    ensures MapExt(cg.vMap, GenStm(u, cg, s).vMap, Binders(s))
    decreases s, 0
  {
    hide GenLet, GenAllocStm, GenArithStm, GenSetterStm, GenGCStm, GenCondBr, GenSwitch, GenCall, GenGoto, GenCallee;
    HeadMap(u, cg);
    match s
    case LET(e, p, k) => GenSeqMap(u, cg, GenLet(u, cg, e, p), {p.name}, k);
    case ALLOC(alloc, args, x, k) => GenSeqMap(u, cg, GenAllocStm(u, cg, alloc, args, x), {x}, k);
    case APPLY(_, _, _) => EndMap(u, cg, s);
    case THROW(_, _, _) => EndMap(u, cg, s);
    case GOTO(_, _) => EndMap(u, cg, s);
    case SWITCH(e, arms, bbs) => GenArmsMap(u, GenSwitch(u, cg, e, bbs), arms, bbs);
    case BRANCH(test, args, t, f, tBB, fBB) =>
      var cg1 := GenCondBr(u, cg, test, args, tBB, fBB);
      GenStmMap(u, AtArm(cg1, tBB, cg1.regs), t);
      var cg2 := GenStm(u, AtArm(cg1, tBB, cg1.regs), t);
      GenStmMap(u, AtArm(cg2, fBB, cg1.regs), f);
    case ARITH(arith, args, p, k) => GenSeqMap(u, cg, GenArithStm(u, cg, arith, args, p), {p.name}, k);
    case SETTER(setter, args, k) => GenStmMap(u, GenSetterStm(u, cg, setter, args), k);
    case CALLGC(roots, xs, k) =>
      GCMap(u, cg, roots, xs);
      GenSeqMap(u, cg, GenGCStm(u, cg, roots, xs), Elems(xs), k);
  }

  lemma EndMap(u: Unit, cg: CG, s: Stm)
    requires UnitOK(u) && InRange(u, cg) && BlocksBelow(s, u.n) && (s.APPLY? || s.THROW? || s.GOTO?)
    ensures MapExt(cg.vMap, GenStm(u, cg, s).vMap, {})
  {
  }

  lemma {:induction false} GenSeqMap(u: Unit, cg: CG, cg1: CG, xs: set<Lvar>, k: Stm)
    requires UnitOK(u) && InRange(u, cg1) && BlocksBelow(k, u.n) && MapExt(cg.vMap, cg1.vMap, xs)
    ensures MapExt(cg.vMap, GenStm(u, cg1, k).vMap, xs + Binders(k))
    decreases k, 1
  {
    GenStmMap(u, cg1, k);
    MapExtTrans(cg.vMap, cg1.vMap, GenStm(u, cg1, k).vMap, xs, Binders(k));
  }

  lemma {:induction false} GenArmsMap(u: Unit, cg: CG, arms: seq<Stm>, bbs: seq<nat>)
    requires UnitOK(u) && InRange(u, cg) && ArmsBelow(arms, u.n) && |arms| <= |bbs|
    requires forall i :: 0 <= i < |bbs| ==> bbs[i] < u.n
    ensures MapExt(cg.vMap, GenArms(u, cg, arms, bbs).vMap, ArmBinders(arms))
    decreases arms, 0
  {
    if arms != [] {
      var n := |arms| - 1;
      GenArmsMap(u, cg, arms[..n], bbs);
      GenStmMap(u, AtArm(GenArms(u, cg, arms[..n], bbs), bbs[n], cg.regs), arms[n]);
    }
  }

  // ----- edges -----

  /** Past its first occurrence, a prefix does not matter. */
  lemma {:induction false} IndexOfFirst(preds: seq<nat>, preds': seq<nat>, src: nat)
    requires src !in preds && preds + [src] <= preds'
    ensures src in preds' && IndexOf(preds', src) == |preds|
  {
    assert preds'[|preds|] == src;
    if preds != [] {
      assert preds'[0] == preds[0];
      IndexOfFirst(preds[1..], preds'[1..], src);
    }
  }

  /** Along the edge just added, the phi node receives the value just added, whatever is
      added later. */
  lemma IncomingOK(blocks: seq<Block>, d: nat, phi: Phi, v: Value, src: nat, phi': Phi)
    requires PhiOK(blocks, d, phi) && !HasEdge(blocks, src, d)
    requires PhiExt(phi.(vals := phi.vals + [v], preds := phi.preds + [src]), phi')
    ensures Incoming(phi', src) == Some(v)
  {
    assert EdgeCount(phi.preds, src) == 0;
    assert src !in phi.preds;
    IndexOfFirst(phi.preds, phi'.preds, src);
    assert (phi.vals + [v])[|phi.preds|] == v;
  }

  lemma {:induction false} EvalPhisOK(x: Exe, env: map<nat, Val>, phis: seq<Phi>, src: nat, vs: seq<Value>,
                                      vals: seq<Val>)
    requires |phis| == |vs| == |vals| && IdsDistinct(phis)
    requires forall i :: 0 <= i < |phis| ==> Incoming(phis[i], src) == Some(vs[i]) && Means(x, env, vs[i], vals[i])
    ensures var r := EvalPhis(x.m, x.fargs, phis, src, env);
            r.Some? && forall i :: 0 <= i < |phis| ==> phis[i].id in r.value && r.value[phis[i].id] == vals[i]
  {
    if phis != [] {
      var n := |phis| - 1;
      EvalPhisOK(x, env, phis[..n], src, vs[..n], vals[..n]);
      assert Incoming(phis[n], src) == Some(vs[n]) && Means(x, env, vs[n], vals[n]);
      var r0, r := EvalPhis(x.m, x.fargs, phis[..n], src, env), EvalPhis(x.m, x.fargs, phis, src, env);
      forall i | 0 <= i < |phis|
        ensures phis[i].id in r.value && r.value[phis[i].id] == vals[i]
      {
        if i < n {
          assert phis[..n][i].id in r0.value && phis[i].id != phis[n].id;
        }
      }
    }
  }

  /** Following an edge whose target was told the values vs. */
  lemma EnterOK(u: Unit, x: Exe, cg: CG, d: nat, vs: seq<Value>, vals: seq<Val>, ts: TS, fin: seq<Block>)
    requires Inv(u, cg) && Open(cg) && d < |cg.blocks| && |vs| == |cg.blocks[d].phis| == |vals|
    requires Ext(PhisFromHere(cg, d, vs).blocks, fin)
    requires forall i :: 0 <= i < |vs| ==> Means(x, ts.env, vs[i], vals[i])
    ensures var r := Enter(x.m, x.fargs, fin, cg.cur, d, ts);
            && r.At? && r.blk == d && d < |fin| && r.ts.stk == ts.stk && r.ts.mem == ts.mem && |fin[d].phis| == |vs|
            && forall i :: 0 <= i < |vs| ==> fin[d].phis[i].id in r.ts.env && r.ts.env[fin[d].phis[i].id] == vals[i]
  {
    var bs := PhisFromHere(cg, d, vs).blocks;
    assert BlockExt(bs[d], fin[d]);
    forall i | 0 <= i < |vs|
      ensures Incoming(fin[d].phis[i], cg.cur) == Some(vs[i]) && fin[d].phis[i].id == cg.blocks[d].phis[i].id
    {
      assert PhiExt(bs[d].phis[i], fin[d].phis[i]);
      assert PhiOK(cg.blocks, d, cg.blocks[d].phis[i]);
      IncomingOK(cg.blocks, d, cg.blocks[d].phis[i], vs[i], cg.cur, fin[d].phis[i]);
    }
    assert IdsDistinct(cg.blocks[d].phis);
    EvalPhisOK(x, ts.env, fin[d].phis, cg.cur, vs, vals);
  }

  /** A block without phi nodes is entered with nothing changed. */
  lemma EnterArmOK(x: Exe, bs: seq<Block>, src: nat, d: nat, ts: TS, fin: seq<Block>)
    requires Ext(bs, fin) && d < |bs| && bs[d].phis == []
    ensures Enter(x.m, x.fargs, fin, src, d, ts) == At(d, ts)
  {
    assert BlockExt(bs[d], fin[d]);
  }

  /** Executing a block that has ended, up to its terminator. */
  lemma BlockOK(x: Exe, bs: seq<Block>, b: nat, em: Em, t: Terminator, fin: seq<Block>)
    requires |x.m.tgt.stkOffset| == NUM_REGS
    requires Ext(bs, fin) && b < |bs| && bs[b].instrs == em.code && bs[b].term == Some(t) && Mid(x, em).Some?
    ensures RunBlocks(x.m, x.fargs, fin, 1, At(b, x.t0)) == ExecTerm(x.m, x.fargs, fin, b, t, Mid(x, em).value)
  {
    assert BlockExt(bs[b], fin[b]);
    assert RunBlocks(x.m, x.fargs, fin, 0, At(b, x.t0)) == At(b, x.t0);
    assert RunBlocks(x.m, x.fargs, fin, 1, At(b, x.t0)) == StepBlock(x.m, x.fargs, fin, At(b, x.t0));
  }

  /** The simulation carried into a new block. */
  lemma CarrySim(x: Exe, vMap: VMap, em: Em, st: State, vMap': VMap, next: nat)
    requires Sim(x, vMap, em, st) && em.next <= next
    requires forall y :: y in vMap ==> y in vMap' && vMap'[y] == vMap[y]
    ensures Sim(x.(t0 := Mid(x, em).value), vMap', Em([], next, em.regs), st)
  {
    var x', em' := x.(t0 := Mid(x, em).value), Em([], next, em.regs);
    forall r | 0 <= r < NUM_REGS
      ensures RegOK(x', em', r, st.regs[r])
    {
      assert RegOK(x, em, r, st.regs[r]);
    }
  }
}
