/** Checked arithmetic, and whole fragments: running the generated blocks from the start of
    a statement ends as the statement does. */
module Meaning {
  import opened Machine
  import opened CFG
  import opened IR
  import opened Codegen
  import opened Straight
  import opened Invariants
  import opened Simulate
  import opened Preserve

  // ----- checked arithmetic -----

  /** The instruction leaves the result and the overflow bit in its two temporaries. */
  lemma ArithCodeOK(x: Exe, vMap: VMap, em: Em, st: State, arith: ArithOp, vs: seq<Value>, vals: seq<Val>)
    requires Sim(x, vMap, em, st) && HoldAll(x, em, vs, vals)
    ensures var em' := ArithCode(em, arith, vs);
            && Sim(x, vMap, em', st)
            && Holds(x, em', Temp(em'.next - 2, INT(arith.sz)), x.m.ops.arith(arith.code, vals))
            && Holds(x, em', Temp(em'.next - 1, INT(1)), BoolVal(x.m.ops.overflows(arith.code, vals)))
  {
    hide RunCode, RegOK, AsInts, Extends;
    var a := AsInts(em, vs, arith.sz);
    AsIntsOK(x, em, vs, vals, arith.sz);
    SimPure(x, vMap, em, a.em, st);
    var em' := ArithCode(em, arith, vs);
    ArithInstrOK(x, a.em, em', a.em.next, arith.code, a.vs, vals, INT(arith.sz));
    SimPure(x, vMap, a.em, em', st);
  }

  lemma ArithInstrOK(x: Exe, em: Em, em': Em, dst: nat, code: nat, vs: seq<Value>, vals: seq<Val>, ty: Ty)
    requires |x.m.tgt.stkOffset| == NUM_REGS && Mid(x, em).Some? && HoldAll(x, em, vs, vals)
    requires dst == em.next && em' == Em(em.code + [ArithWO(dst, code, vs)], dst + 2, em.regs)
    ensures PureExt(x, em, em')
    ensures Holds(x, em', Temp(dst, ty), x.m.ops.arith(code, vals))
    ensures Holds(x, em', Temp(dst + 1, INT(1)), BoolVal(x.m.ops.overflows(code, vals)))
  {
    EvalHolding(x, em, vs, vals);
    RunEmit(x, em, ArithWO(dst, code, vs), em');
  }

  /** The overflow block raises with the registers that came in. */
  lemma OverflowBlockOK(x: Exe, bs: seq<Block>, b: nat, vals: seq<Val>, fin: seq<Block>)
    requires |x.m.tgt.stkOffset| == NUM_REGS && Ext(bs, fin) && b < |bs|
    requires bs[b].instrs == [] && bs[b].term == Some(RaiseOverflow(PhiTemps(bs[b].phis)))
    requires |bs[b].phis| == |vals|
    requires forall i :: 0 <= i < |vals| ==> fin[b].phis[i].id in x.t0.env && x.t0.env[fin[b].phis[i].id] == vals[i]
    ensures RunBlocks(x.m, x.fargs, fin, 1, At(b, x.t0)) == Done(Raised(vals, x.t0.stk, x.t0.mem))
  {
    assert BlockExt(bs[b], fin[b]);
    var vs := PhiTemps(bs[b].phis);
    forall i | 0 <= i < |vals|
      ensures Means(x, x.t0.env, vs[i], vals[i])
    {
      assert PhiExt(bs[b].phis[i], fin[b].phis[i]);
    }
    assert EvalVs(x.m, x.fargs, x.t0.env, vs) == vals;
    BlockOK(x, bs, b, Em([], 0, []), RaiseOverflow(vs), fin);
  }

  /** The generator's state before the overflow block's phi nodes are updated. */
  function BeforeOverflow(tgt: Target, cg: CG): CG
    requires |tgt.stkOffset| == NUM_REGS
  {
    MakeOverflow(tgt, cg.(blocks := cg.blocks + [EMPTY]))
  }

  lemma BeforeOverflowInv(u: Unit, cg: CG)
    requires Inv(u, cg) && Open(cg)
    ensures var cg2 := BeforeOverflow(u.tgt, cg);
            && Inv(u, cg2) && Open(cg2) && cg2.ovf.Some? && cg2.cur == cg.cur && cg2.regs == cg.regs
            && cg2.vMap == cg.vMap
            && cg2.blocks[cg.cur] == cg.blocks[cg.cur] && |cg.blocks| < |cg2.blocks| && cg2.blocks[|cg.blocks|] == EMPTY
            && cg.next <= cg2.next
  {
    AppendInv(u, cg, EMPTY);
    MakeOverflowInv(u, cg.(blocks := cg.blocks + [EMPTY]));
  }

  /** After the branch on the overflow bit: either the overflow block has raised with exactly
      the current registers, or execution is at the start of the new block. */
  lemma CheckedOK(u: Unit, x: Exe, cg: CG, st: State, res: nat, over: bool, fin: seq<Block>)
    requires Here(u, x, cg, st) && Inv(u, cg) && Open(cg)
    requires Holds(x, EmOf(cg), Temp(res + 1, INT(1)), BoolVal(over))
    requires Ext(BranchOnOverflow(u.tgt, cg, res).blocks, fin)
    ensures var cg' := BranchOnOverflow(u.tgt, cg, res);
            && (over ==>
                  RunBlocks(x.m, x.fargs, fin, 2, At(cg.cur, x.t0))
                  == Done(Observe(x.m, Overflow(st.regs, st.mem))))
            && (!over ==> RunBlocks(x.m, x.fargs, fin, 1, At(cg.cur, x.t0)) == At(cg'.cur, Mid(x, EmOf(cg)).value))
            && EmOf(cg') == Em([], cg'.next, cg.regs) && cg'.vMap == cg.vMap && cg.next <= cg'.next
  {
    var cg2, ok := BeforeOverflow(u.tgt, cg), |cg.blocks|;
    BeforeOverflowInv(u, cg);
    var ovf, hw := cg2.ovf.value, HwArgs(u.tgt, cg2.regs);
    var cg3 := PhisFromHere(cg2, ovf, hw);
    var t := CondBr(Temp(res + 1, INT(1)), ovf, ok);
    var bs := Terminate(cg3, t).blocks;
    var mid := Mid(x, EmOf(cg)).value;
    assert BranchOnOverflow(u.tgt, cg, res) == Terminate(cg3, t).(cur := ok);
    BlockOK(x, bs, cg.cur, EmOf(cg), t, fin);
    TerminateExt(cg3, t, fin);
    if over {
      HwArgsOK(x, cg.vMap, EmOf(cg), st);
      var vals := HwVals(u.tgt, st.regs);
      assert forall i :: 0 <= i < |hw| ==> Holds(x, EmOf(cg), hw[i], vals[i]);
      EnterOK(u, x, cg2, ovf, hw, vals, mid, fin);
      var r := Enter(x.m, x.fargs, fin, cg.cur, ovf, mid);
      EndedStays(u, cg2, hw, t);
      OverflowBlockOK(x.(t0 := r.ts), bs, ovf, vals, fin);
      RunBlocksAdd(x.m, x.fargs, fin, 1, 1, At(cg.cur, x.t0));
    } else {
      EnterArmOK(x, bs, cg.cur, ok, mid, fin);
    }
  }

  /** Updating phi nodes and ending the current block leaves the overflow block as it is. */
  lemma EndedStays(u: Unit, cg2: CG, hw: seq<Value>, t: Terminator)
    requires Inv(u, cg2) && Open(cg2) && cg2.ovf.Some? && |hw| == |u.tgt.Hw()|
    ensures var bs, b := Terminate(PhisFromHere(cg2, cg2.ovf.value, hw), t).blocks, cg2.ovf.value;
            && bs[b].instrs == [] && bs[b].term == Some(RaiseOverflow(PhiTemps(bs[b].phis)))
            && |bs[b].phis| == |hw|
  {
    var bs, b := Terminate(PhisFromHere(cg2, cg2.ovf.value, hw), t).blocks, cg2.ovf.value;
    assert b != cg2.cur;
    assert PhiTemps(bs[b].phis) == PhiTemps(cg2.blocks[b].phis);
  }

  /** Arithmetic raises Overflow with the current registers and memory, or goes on with the
      result bound, in this block or in a new one. */
  lemma ArithStmOK(u: Unit, x: Exe, cg: CG, st: State, arith: ArithOp, args: seq<Exp>, p: Param, fin: seq<Block>)
      returns (n: nat, x': Exe)
    requires Here(u, x, cg, st) && Inv(u, cg) && Open(cg) && ScopedAll(u.fns, args, st.env.Keys) && p.name !in cg.vMap
    requires Ext(GenArithStm(u, cg, arith, args, p).blocks, fin)
    ensures x'.m == x.m && x'.fargs == x.fargs
    ensures var vals, r := EvalAll(x.m, args, st), RunBlocks(x.m, x.fargs, fin, n, At(cg.cur, x.t0));
            if arith.checked && x.m.ops.overflows(arith.code, vals)
            then n == 2 && r == Done(Observe(x.m, Overflow(st.regs, st.mem)))
            else var cg' := GenArithStm(u, cg, arith, args, p);
              && r == At(cg'.cur, x'.t0)
              && Here(u, x', cg', st.(env := st.env[p.name := x.m.ops.arith(arith.code, vals)]))
  {
    var a, vals := GenExps(u.tgt, cg.vMap, EmOf(cg), args), EvalAll(x.m, args, st);
    GenExpsOK(x, cg.vMap, EmOf(cg), st, u.fns, args);
    SimPure(x, cg.vMap, EmOf(cg), a.em, st);
    var cg1 := WithEm(cg, a.em);
    WithEmInv(u, cg, a.em);
    assert EmOf(cg1) == a.em;
    if arith.checked {
      n, x' := CheckedStmOK(u, x, cg1, st, arith, a.vs, vals, p, fin);
    } else {
      n, x' := 0, x;
      UncheckedStmOK(u, x, cg1, st, arith, a.vs, vals, p);
    }
  }

  lemma UncheckedStmOK(u: Unit, x: Exe, cg: CG, st: State, arith: ArithOp, vs: seq<Value>, vals: seq<Val>, p: Param)
    requires Here(u, x, cg, st) && !arith.checked && HoldAll(x, EmOf(cg), vs, vals) && p.name !in cg.vMap
    ensures var v := GenArith(u.tgt, cg, arith, vs);
            && Here(u, x, Bind(v.cg, p.name, v.v), st.(env := st.env[p.name := x.m.ops.arith(arith.code, vals)]))
            && v.cg.cur == cg.cur
  {
    var v := GenArith(u.tgt, cg, arith, vs);
    var a := AsInts(EmOf(cg), vs, arith.sz);
    AsIntsOK(x, EmOf(cg), vs, vals, arith.sz);
    var d := Def(a.em, DivOp(arith.code), a.vs, INT(arith.sz));
    DefOK(x, a.em, DivOp(arith.code), a.vs, vals, INT(arith.sz));
    ExtendsTrans(x, EmOf(cg), a.em, d.em);
    SimPure(x, cg.vMap, EmOf(cg), d.em, st);
    BindSim(x, cg.vMap, d.em, st, p.name, d.v, x.m.ops.arith(arith.code, vals));
    assert EmOf(v.cg) == d.em;
  }

  lemma CheckedStmOK(u: Unit, x: Exe, cg: CG, st: State, arith: ArithOp, vs: seq<Value>, vals: seq<Val>, p: Param,
                     fin: seq<Block>) returns (n: nat, x': Exe)
    requires Here(u, x, cg, st) && Inv(u, cg) && Open(cg) && arith.checked && HoldAll(x, EmOf(cg), vs, vals)
    requires p.name !in cg.vMap && Ext(GenArith(u.tgt, cg, arith, vs).cg.blocks, fin)
    ensures x'.m == x.m && x'.fargs == x.fargs
    ensures var v, r := GenArith(u.tgt, cg, arith, vs), RunBlocks(x.m, x.fargs, fin, n, At(cg.cur, x.t0));
            if x.m.ops.overflows(arith.code, vals) then n == 2 && r == Done(Observe(x.m, Overflow(st.regs, st.mem)))
            else
              && r == At(v.cg.cur, x'.t0)
              && Here(u, x', Bind(v.cg, p.name, v.v), st.(env := st.env[p.name := x.m.ops.arith(arith.code, vals)]))
  {
    hide ArithCode, RunCode, BranchOnOverflow, RegOK, Extends;
    var em := ArithCode(EmOf(cg), arith, vs);
    var res, val, over := em.next - 2, x.m.ops.arith(arith.code, vals), x.m.ops.overflows(arith.code, vals);
    ArithCodeOK(x, cg.vMap, EmOf(cg), st, arith, vs, vals);
    var cg1 := WithEm(cg, em);
    WithEmInv(u, cg, em);
    assert EmOf(cg1) == em;
    CheckedOK(u, x, cg1, st, res, over, fin);
    var v, v' := GenArith(u.tgt, cg, arith, vs), Temp(res, INT(arith.sz));
    assert v.cg == BranchOnOverflow(u.tgt, cg1, res) && v.v == v';
    x' := x.(t0 := Mid(x, em).value);
    if over {
      n := 2;
    } else {
      n := 1;
      var st' := st.(env := st.env[p.name := val]);
      BindSim(x, cg.vMap, em, st, p.name, v', val);
      CarrySim(x, InsertVal(cg.vMap, p.name, v'), em, st', InsertVal(cg.vMap, p.name, v'), v.cg.next);
    }
  }
}
