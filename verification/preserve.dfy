/** Meaning preservation for each statement, and for fragments. */
module Preserve {
  import opened Machine
  import opened CFG
  import opened IR
  import opened Codegen
  import opened Straight
  import opened Effects
  import opened Invariants
  import opened Simulate

  // ----- statements that go on in the same block -----

  /** At the insertion point of cg, the activation represents st. */
  ghost predicate Here(u: Unit, x: Exe, cg: CG, st: State) {
    x.m.tgt == u.tgt && InRange(u, cg) && Sim(x, cg.vMap, EmOf(cg), st)
  }

  lemma LetOK(u: Unit, x: Exe, cg: CG, st: State, e: Exp, p: Param)
    requires Here(u, x, cg, st) && Scoped(u.fns, e, st.env.Keys) && p.name !in cg.vMap
    ensures Here(u, x, GenLet(u, cg, e, p), st.(env := st.env[p.name := Eval(x.m, e, st)]))
  {
    var v := GenExp(u.tgt, cg.vMap, EmOf(cg), e);
    GenExpOK(x, cg.vMap, EmOf(cg), st, u.fns, e);
    SimPure(x, cg.vMap, EmOf(cg), v.em, st);
    BindSim(x, cg.vMap, v.em, st, p.name, v.v, Eval(x.m, e, st));
    assert EmOf(GenLet(u, cg, e, p)) == v.em;
  }

  lemma AllocStmOK(u: Unit, x: Exe, cg: CG, st: State, alloc: AllocOp, args: seq<Exp>, y: Lvar)
    requires Here(u, x, cg, st) && ScopedAll(u.fns, args, st.env.Keys) && y !in cg.vMap
    ensures var a := Allocate(x.m.tgt, alloc, EvalAll(x.m, args, st), st.regs[ALLOC_PTR], st.mem);
            Here(u, x, GenAllocStm(u, cg, alloc, args, y),
                 State(st.env[y := a.obj], st.regs[ALLOC_PTR := a.next], a.mem))
  {
    hide Allocate, GenAlloc;
    var a := GenExps(u.tgt, cg.vMap, EmOf(cg), args);
    var vals := EvalAll(x.m, args, st);
    var r := Allocate(x.m.tgt, alloc, vals, st.regs[ALLOC_PTR], st.mem);
    GenExpsOK(x, cg.vMap, EmOf(cg), st, u.fns, args);
    SimPure(x, cg.vMap, EmOf(cg), a.em, st);
    var v := GenAlloc(u.tgt, a.em, alloc, a.vs);
    GenAllocOK(x, cg.vMap, a.em, st, alloc, a.vs, vals);
    BindSim(x, cg.vMap, v.em, State(st.env, st.regs[ALLOC_PTR := r.next], r.mem), y, v.v, r.obj);
    assert EmOf(GenAllocStm(u, cg, alloc, args, y)) == v.em;
  }

  lemma SetterStmOK(u: Unit, x: Exe, cg: CG, st: State, setter: SetterOp, args: seq<Exp>)
    requires Here(u, x, cg, st) && ScopedAll(u.fns, args, st.env.Keys)
    ensures Here(u, x, GenSetterStm(u, cg, setter, args),
                 After(st, Set(x.m.tgt, setter, EvalAll(x.m, args, st), st.regs, st.mem)))
  {
    hide Set, GenSetter;
    var a := GenExps(u.tgt, cg.vMap, EmOf(cg), args);
    GenExpsOK(x, cg.vMap, EmOf(cg), st, u.fns, args);
    SimPure(x, cg.vMap, EmOf(cg), a.em, st);
    GenSetterOK(x, cg.vMap, a.em, st, setter, a.vs, EvalAll(x.m, args, st));
    assert EmOf(GenSetterStm(u, cg, setter, args)) == GenSetter(u.tgt, a.em, setter, a.vs);
  }

  // ----- values passed along edges and calls -----

  lemma HwArgsOK(x: Exe, vMap: VMap, em: Em, st: State)
    requires Sim(x, vMap, em, st)
    ensures HoldAll(x, em, HwArgs(x.m.tgt, em.regs), HwVals(x.m.tgt, st.regs))
  {
    var tgt := x.m.tgt;
    forall i | 0 <= i < |tgt.Hw()|
      ensures Holds(x, em, HwArgs(tgt, em.regs)[i], HwVals(tgt, st.regs)[i])
    {
      assert RegOK(x, em, tgt.Hw()[i], st.regs[tgt.Hw()[i]]);
    }
  }

  lemma ConcatOK(x: Exe, em: Em, vs: seq<Value>, vals: seq<Val>, vs': seq<Value>, vals': seq<Val>)
    requires |x.m.tgt.stkOffset| == NUM_REGS && HoldAll(x, em, vs, vals) && HoldAll(x, em, vs', vals')
    ensures HoldAll(x, em, vs + vs', vals + vals')
  {
  }

  lemma KeepAll(x: Exe, em: Em, em': Em, vs: seq<Value>, vals: seq<Val>)
    requires |x.m.tgt.stkOffset| == NUM_REGS && Extends(x, em, em') && HoldAll(x, em, vs, vals)
    ensures HoldAll(x, em', vs, vals)
  {
    Keeps(x, em, em');
  }

  // ----- garbage collection -----

  lemma GatherPrefix(tgt: Target, regs: seq<Val>, roots: seq<Val>)
    requires tgt.Valid() && |regs| == NUM_REGS
    ensures Gather(tgt, HwVals(tgt, regs) + roots, StackOf(tgt, regs)) == regs
  {
    GatherSplit(tgt, regs);
    forall r | 0 <= r < NUM_REGS && tgt.IsMachine(r)
      ensures tgt.HwIndex(r) < |tgt.Hw()|
    {
      HwIndexed(tgt, r);
    }
    assert Gather(tgt, HwVals(tgt, regs) + roots, StackOf(tgt, regs))
           == Gather(tgt, HwVals(tgt, regs), StackOf(tgt, regs));
  }

  /** The call hands the collector the registers and roots, and returns what it answers. */
  lemma CollectOK(m: Machine, n: nat, regs: seq<Val>, roots: seq<Val>, mem: Mem)
    requires m.tgt.Valid() && |regs| == NUM_REGS
    ensures Collect(m, n, HwVals(m.tgt, regs) + roots, StackOf(m.tgt, regs), mem) ==
            (HwVals(m.tgt, GcRegs(m, regs, roots, mem)) + GcRoots(m, n, regs, roots, mem),
             StackOf(m.tgt, GcRegs(m, regs, roots, mem)), m.ops.gcMem(regs, roots, mem))
  {
    GatherPrefix(m.tgt, regs, roots);
    assert (HwVals(m.tgt, regs) + roots)[|m.tgt.Hw()|..] == roots;
  }

  lemma {:induction false} GcRestoreOK(tgt: Target, em: Em, base: nat, n: nat)
    requires |tgt.stkOffset| == NUM_REGS && Shape(em.regs) == TargetShape(tgt) && |em.regs| == NUM_REGS && n <= NUM_REGS
    ensures var em' := GcRestore(tgt, em, base, n);
            && em'.code == em.code && em'.next == em.next && |em'.regs| == NUM_REGS
            && forall r :: 0 <= r < NUM_REGS ==>
                 em'.regs[r] == if r < n && tgt.IsMachine(r) then Some(Temp(base + tgt.HwIndex(r), PTR)) else em.regs[r]
  {
    if n > 0 {
      GcRestoreOK(tgt, em, base, n - 1);
      assert Shape(em.regs)[n - 1] == TargetShape(tgt)[n - 1];
    }
  }

  /** What the call leaves behind: memory, stack slots, and its results in new temporaries. */
  lemma GcRun(x: Exe, em: Em, st: State, args: seq<Value>, roots: seq<Val>, n: nat)
    requires x.m.tgt.Valid() && |em.regs| == NUM_REGS == |st.regs| && Shape(em.regs) == TargetShape(x.m.tgt)
    requires Mid(x, em).Some? && Mid(x, em).value.mem == st.mem && Mid(x, em).value.stk == StackOf(x.m.tgt, st.regs)
    requires HoldAll(x, em, args, HwVals(x.m.tgt, st.regs) + roots)
    ensures var em' := GcCode(x.m.tgt, em, n, args);
            var regs' := GcRegs(x.m, st.regs, roots, st.mem);
            var vals := HwVals(x.m.tgt, regs') + GcRoots(x.m, n, st.regs, roots, st.mem);
            && Mid(x, em') == Some(TS(SetTemps(Mid(x, em).value.env, em.next, vals), StackOf(x.m.tgt, regs'),
                                      x.m.ops.gcMem(st.regs, roots, st.mem)))
            && em'.next == em.next + |vals| && em.code <= em'.code
            && forall r :: 0 <= r < NUM_REGS ==>
                 em'.regs[r]
                 == if x.m.tgt.IsMachine(r) then Some(Temp(em.next + x.m.tgt.HwIndex(r), PTR)) else em.regs[r]
  {
    hide Collect, Gather, RunCode, StackOf, GcRegs, GcRoots, SetTemps;
    var tgt := x.m.tgt;
    var i := CallGC(em.next, n, args);
    var call := Emit(em, i).(next := em.next + |tgt.Hw()| + n);
    GcRestoreOK(tgt, call, em.next, NUM_REGS);
    EvalHolding(x, em, args, HwVals(tgt, st.regs) + roots);
    RunEmit(x, em, i, GcCode(tgt, em, n, args));
    CollectOK(x.m, n, st.regs, roots, st.mem);
  }

  lemma GcExtends(x: Exe, em: Em, em': Em, vals: seq<Val>, stk: map<int, Val>, mem: Mem)
    requires |x.m.tgt.stkOffset| == NUM_REGS && Mid(x, em).Some?
    requires Mid(x, em') == Some(TS(SetTemps(Mid(x, em).value.env, em.next, vals), stk, mem))
    requires em'.next == em.next + |vals| && em.code <= em'.code
    ensures Extends(x, em, em')
    ensures HoldAll(x, em', Temps(em.next, Ptrs(|vals|)), vals)
  {
    hide RunCode, SetTemps;
    SetTempsAt(Mid(x, em).value.env, em.next, vals);
  }

  /** The results of the call start with the hardware registers ... */
  lemma GcRegResult(x: Exe, em': Em, base: nat, regs': seq<Val>, gs: seq<Val>, r: nat)
    requires x.m.tgt.Valid() && |regs'| == NUM_REGS && x.m.tgt.IsMachine(r)
    requires var vals := HwVals(x.m.tgt, regs') + gs; HoldAll(x, em', Temps(base, Ptrs(|vals|)), vals)
    ensures Holds(x, em', Temp(base + x.m.tgt.HwIndex(r), PTR), regs'[r])
  {
    hide Holds;
    var vals := HwVals(x.m.tgt, regs') + gs;
    var ts, i := Temps(base, Ptrs(|vals|)), x.m.tgt.HwIndex(r);
    HwIndexed(x.m.tgt, r);
    assert Holds(x, em', ts[i], vals[i]);
  }

  /** ... and end with the roots. */
  lemma GcRootResults(x: Exe, em': Em, base: nat, regs': seq<Val>, gs: seq<Val>)
    requires |x.m.tgt.stkOffset| == NUM_REGS && |regs'| == NUM_REGS
    requires var vals := HwVals(x.m.tgt, regs') + gs; HoldAll(x, em', Temps(base, Ptrs(|vals|)), vals)
    ensures HoldAll(x, em', Temps(base + |x.m.tgt.Hw()|, Ptrs(|gs|)), gs)
  {
    hide Holds;
    var vals := HwVals(x.m.tgt, regs') + gs;
    var ts := Temps(base, Ptrs(|vals|));
    var gts, nHw := Temps(base + |x.m.tgt.Hw()|, Ptrs(|gs|)), |x.m.tgt.Hw()|;
    forall k | 0 <= k < |gs|
      ensures Holds(x, em', gts[k], gs[k])
    {
      assert vals[nHw + k] == gs[k] && ts[nHw + k] == gts[k];
      assert Holds(x, em', ts[nHw + k], vals[nHw + k]);
    }
  }

  /** The register map after a collection. */
  lemma GcSim(x: Exe, em: Em, vMap: VMap, st: State, args: seq<Value>, roots: seq<Val>, n: nat)
    requires Sim(x, vMap, em, st) && Shape(em.regs) == TargetShape(x.m.tgt)
    requires HoldAll(x, em, args, HwVals(x.m.tgt, st.regs) + roots)
    ensures var em' := GcCode(x.m.tgt, em, n, args);
            && Sim(x, vMap, em',
                   State(st.env, GcRegs(x.m, st.regs, roots, st.mem), x.m.ops.gcMem(st.regs, roots, st.mem)))
            && HoldAll(x, em', Temps(em.next + |x.m.tgt.Hw()|, Ptrs(n)), GcRoots(x.m, n, st.regs, roots, st.mem))
  {
    hide GcCode, Extends, StackOf, HwVals, GcRegs, GcRoots, Temps, Holds;
    var em' := GcCode(x.m.tgt, em, n, args);
    var regs', mem' := GcRegs(x.m, st.regs, roots, st.mem), x.m.ops.gcMem(st.regs, roots, st.mem);
    var gs := GcRoots(x.m, n, st.regs, roots, st.mem);
    GcRun(x, em, st, args, roots, n);
    GcExtends(x, em, em', HwVals(x.m.tgt, regs') + gs, StackOf(x.m.tgt, regs'), mem');
    GcRootResults(x, em', em.next, regs', gs);
    Keeps(x, em, em');
    forall r | 0 <= r < NUM_REGS
      ensures RegOK(x, em', r, regs'[r])
    {
      assert RegOK(x, em, r, st.regs[r]);
      if x.m.tgt.IsMachine(r) {
        GcRegResult(x, em', em.next, regs', gs, r);
      }
    }
  }

  /** The code of CALLGC, with its roots. */
  function GcStmCode(u: Unit, cg: CG, roots: seq<Exp>, n: nat): (em': Em)
    requires InRange(u, cg)
  {
    var a := GenRoots(u.tgt, cg.vMap, EmOf(cg), roots);
    GcCode(u.tgt, a.em, n, HwArgs(u.tgt, a.em.regs) + a.vs)
  }

  lemma GcStmCodeOK(u: Unit, x: Exe, cg: CG, st: State, roots: seq<Exp>, n: nat)
    requires Here(u, x, cg, st) && Shape(cg.regs) == TargetShape(u.tgt) && ScopedAll(u.fns, roots, st.env.Keys)
    ensures var vals, em' := EvalAll(x.m, roots, st), GcStmCode(u, cg, roots, n);
            var base := GenRoots(u.tgt, cg.vMap, EmOf(cg), roots).em.next + |u.tgt.Hw()|;
            && Sim(x, cg.vMap, em',
                   State(st.env, GcRegs(x.m, st.regs, vals, st.mem), x.m.ops.gcMem(st.regs, vals, st.mem)))
            && HoldAll(x, em', Temps(base, Ptrs(n)), GcRoots(x.m, n, st.regs, vals, st.mem))
  {
    hide GcCode, RegOK, Extends, Holds, RunCode, GcRegs, GcRoots;
    var a := GenRoots(u.tgt, cg.vMap, EmOf(cg), roots);
    var vals := EvalAll(x.m, roots, st);
    GenRootsOK(x, cg.vMap, EmOf(cg), st, u.fns, roots);
    SimPure(x, cg.vMap, EmOf(cg), a.em, st);
    HwArgsOK(x, cg.vMap, a.em, st);
    var hw := HwArgs(u.tgt, a.em.regs);
    ConcatOK(x, a.em, hw, HwVals(u.tgt, st.regs), a.vs, vals);
    GcSim(x, a.em, cg.vMap, st, hw + a.vs, vals, n);
  }

  lemma GcStmShape(u: Unit, cg: CG, roots: seq<Exp>, xs: seq<Lvar>)
    requires InRange(u, cg)
    ensures var cg' := GenGCStm(u, cg, roots, xs);
            var base := GenRoots(u.tgt, cg.vMap, EmOf(cg), roots).em.next + |u.tgt.Hw()|;
            && InRange(u, cg') && EmOf(cg') == GcStmCode(u, cg, roots, |xs|)
            && cg'.vMap == InsertVals(cg.vMap, xs, Temps(base, Ptrs(|xs|)))
  {
    hide GcCode, GenRoots, InsertVals;
    var a := GenRoots(u.tgt, cg.vMap, EmOf(cg), roots);
    assert EmOf(WithEm(cg, a.em)) == a.em;
  }

  lemma GCStmOK(u: Unit, x: Exe, cg: CG, st: State, roots: seq<Exp>, xs: seq<Lvar>)
    requires Here(u, x, cg, st) && Shape(cg.regs) == TargetShape(u.tgt) && ScopedAll(u.fns, roots, st.env.Keys)
    requires Distinct(xs) && Elems(xs) !! cg.vMap.Keys
    ensures var vals := EvalAll(x.m, roots, st);
            var env' := BindAll(st.env, xs, GcRoots(x.m, |xs|, st.regs, vals, st.mem));
            && Here(u, x, GenGCStm(u, cg, roots, xs),
                    State(env', GcRegs(x.m, st.regs, vals, st.mem), x.m.ops.gcMem(st.regs, vals, st.mem)))
            && env'.Keys == st.env.Keys + Elems(xs)
  {
    hide GenGCStm, GcStmCode, GcRegs, RegOK, Holds, RunCode, GenRoots, BindAll, InsertVals;
    var vals, em' := EvalAll(x.m, roots, st), GcStmCode(u, cg, roots, |xs|);
    var base := GenRoots(u.tgt, cg.vMap, EmOf(cg), roots).em.next + |u.tgt.Hw()|;
    GcStmCodeOK(u, x, cg, st, roots, |xs|);
    GcStmShape(u, cg, roots, xs);
    var st1 := State(st.env, GcRegs(x.m, st.regs, vals, st.mem), x.m.ops.gcMem(st.regs, vals, st.mem));
    BindAllSim(x, cg.vMap, em', st1, xs, Temps(base, Ptrs(|xs|)), GcRoots(x.m, |xs|, st.regs, vals, st.mem));
  }

  // ----- ends of blocks -----

  lemma UnusedOK(x: Exe, em: Em, kind: FragKind)
    requires |x.m.tgt.stkOffset| == NUM_REGS && Mid(x, em).Some?
    ensures HoldAll(x, em, Unused(kind), UnusedVals(x.m, kind))
  {
  }

  lemma CalleeOK(u: Unit, x: Exe, cg: CG, st: State, f: Exp, kind: FragKind, tys: seq<Ty>)
    requires Here(u, x, cg, st) && Scoped(u.fns, f, st.env.Keys)
    ensures var c := GenCallee(u, cg.vMap, EmOf(cg), f, kind, tys);
            PureExt(x, EmOf(cg), c.em) && Holds(x, c.em, c.fn, Eval(x.m, f, st))
  {
    if !f.LABEL? {
      var e := GenExp(u.tgt, cg.vMap, EmOf(cg), f);
      GenExpOK(x, cg.vMap, EmOf(cg), st, u.fns, f);
      CastOK(x, e.em, e.v, Eval(x.m, f, st), PTR, 0);
      ExtendsTrans(x, EmOf(cg), e.em, AsFn(e.em, e.v).em);
    }
  }

  /** A call leaves the cluster with callee, registers, arguments and memory as the CFG has them. */
  lemma CallOK(u: Unit, x: Exe, cg: CG, st: State, c: Callee, fn: Val, kind: FragKind, args: seq<Exp>, fin: seq<Block>)
    requires Here(u, x, cg, st) && ScopedAll(u.fns, args, st.env.Keys) && |args| == |c.tys|
    requires PureExt(x, EmOf(cg), c.em) && Holds(x, c.em, c.fn, fn)
    requires Ext(GenCall(u, cg, c, kind, args).blocks, fin)
    ensures RunBlocks(x.m, x.fargs, fin, 1, At(cg.cur, x.t0)) ==
            Done(Observe(x.m, Transfer(fn, kind, EvalAll(x.m, args, st), st.regs, st.mem)))
  {
    var a, vals := GenCastExps(u.tgt, cg.vMap, c.em, args, c.tys), EvalAll(x.m, args, st);
    assert args[..|args|] == args;
    SimPure(x, cg.vMap, EmOf(cg), c.em, st);
    HwArgsOK(x, cg.vMap, c.em, st);
    GenCastExpsOK(x, cg.vMap, c.em, st, u.fns, args, c.tys);
    Keeps(x, c.em, a.em);
    var hw, hwVals := HwArgs(u.tgt, cg.regs), HwVals(u.tgt, st.regs);
    KeepAll(x, c.em, a.em, hw, hwVals);
    UnusedOK(x, a.em, kind);
    ConcatOK(x, a.em, hw, hwVals, Unused(kind), UnusedVals(x.m, kind));
    ConcatOK(x, a.em, hw + Unused(kind), hwVals + UnusedVals(x.m, kind), a.vs, vals);
    EvalHolding(x, a.em, hw + Unused(kind) + a.vs, hwVals + UnusedVals(x.m, kind) + vals);
    BlockOK(x, GenCall(u, cg, c, kind, args).blocks, cg.cur, a.em, TailCall(c.fn, hw + Unused(kind) + a.vs), fin);
  }

  lemma TerminateExt(cg: CG, t: Terminator, fin: seq<Block>)
    requires Open(cg) && Ext(Terminate(cg, t).blocks, fin)
    ensures Ext(cg.blocks, fin)
  {
    forall b | 0 <= b < |cg.blocks|
      ensures BlockExt(cg.blocks[b], Terminate(cg, t).blocks[b])
    {
    }
    ExtTrans(cg.blocks, Terminate(cg, t).blocks, fin);
  }

  /** The values that a jump passes: registers and arguments, each converted. */
  lemma GotoValues(u: Unit, x: Exe, cg: CG, st: State, args: seq<Exp>, tys: seq<Ty>) returns (c: EVs)
    requires Here(u, x, cg, st) && ScopedAll(u.fns, args, st.env.Keys)
    requires |tys| == |u.tgt.Hw()| + |args|
    ensures var a := GenExps(u.tgt, cg.vMap, EmOf(cg), args);
            var vs := HwArgs(u.tgt, cg.regs) + a.vs;
            && |vs| == |tys| && vs[..|vs|] == vs && c == CastAll(a.em, vs, tys) && |c.vs| == |tys|
    ensures Sim(x, cg.vMap, c.em, st) && c.em.regs == cg.regs && cg.next <= c.em.next
    ensures HoldAll(x, c.em, c.vs, HwVals(u.tgt, st.regs) + EvalAll(x.m, args, st))
  {
    hide RunCode, RegOK, Extends, Holds;
    var a, argVals := GenExps(u.tgt, cg.vMap, EmOf(cg), args), EvalAll(x.m, args, st);
    var vs, vals := HwArgs(u.tgt, cg.regs) + a.vs, HwVals(u.tgt, st.regs) + argVals;
    GenExpsOK(x, cg.vMap, EmOf(cg), st, u.fns, args);
    SimPure(x, cg.vMap, EmOf(cg), a.em, st);
    HwArgsOK(x, cg.vMap, a.em, st);
    ConcatOK(x, a.em, HwArgs(u.tgt, cg.regs), HwVals(u.tgt, st.regs), a.vs, argVals);
    c := CastAll(a.em, vs, tys);
    CastAllOK(x, a.em, vs, vals, tys);
    SimPure(x, cg.vMap, a.em, c.em, st);
  }

  /** A jump enters the fragment with registers and arguments in its phi nodes. */
  lemma GotoOK(u: Unit, x: Exe, cg: CG, st: State, i: nat, args: seq<Exp>, fin: seq<Block>)
    requires Here(u, x, cg, st) && Inv(u, cg) && Open(cg) && ScopedAll(u.fns, args, st.env.Keys)
    requires 1 <= i < |u.cl| && |args| == |u.cl[i].params| && Ext(GenGoto(u, cg, u.bbs[i], args).blocks, fin)
    ensures AtEntry(u, fin, RunBlocks(x.m, x.fargs, fin, 1, At(cg.cur, x.t0)), i, EvalAll(x.m, args, st),
                    st.regs, st.mem)
  {
    hide RunCode, RegOK, StepBlock, PhisOK, SuccsOK, IdsOK, OverflowOK, ScopedAll, HwVals, HwArgs, GenExps, CastAll,
         AddIncoming, EvalAll;
    var d := u.bbs[i];
    var vals := HwVals(u.tgt, st.regs) + EvalAll(x.m, args, st);
    var c := GotoValues(u, x, cg, st, args, PhiTys(cg.blocks[d].phis));
    var cgA := WithEm(cg, c.em);
    WithEmInv(u, cg, c.em);
    TerminateExt(PhisFromHere(cgA, d, c.vs), Br(d), fin);
    var mid := Mid(x, c.em).value;
    assert forall k :: 0 <= k < |c.vs| ==> Holds(x, c.em, c.vs[k], vals[k]);
    EnterOK(u, x, cgA, d, c.vs, vals, mid, fin);
    BlockOK(x, GenGoto(u, cg, d, args).blocks, cg.cur, c.em, Br(d), fin);
  }

  /** A test ends the block with a jump to the arm that the test selects. */
  lemma CondBrOK(u: Unit, x: Exe, cg: CG, st: State, test: BranchOp, args: seq<Exp>, t: nat, f: nat, fin: seq<Block>)
      returns (em: Em)
    requires Here(u, x, cg, st) && ScopedAll(u.fns, args, st.env.Keys)
    requires Ext(GenCondBr(u, cg, test, args, t, f).blocks, fin)
    requires t < |cg.blocks| && f < |cg.blocks| && t != cg.cur && f != cg.cur
    requires cg.blocks[t].phis == [] && cg.blocks[f].phis == []
    ensures Sim(x, cg.vMap, em, st) && em.regs == cg.regs && em.next == GenCondBr(u, cg, test, args, t, f).next
    ensures RunBlocks(x.m, x.fargs, fin, 1, At(cg.cur, x.t0)) ==
            At(if Test(x.m, test, EvalAll(x.m, args, st), st.regs) then t else f, Mid(x, em).value)
  {
    var a, vals := GenExps(u.tgt, cg.vMap, EmOf(cg), args), EvalAll(x.m, args, st);
    GenExpsOK(x, cg.vMap, EmOf(cg), st, u.fns, args);
    SimPure(x, cg.vMap, EmOf(cg), a.em, st);
    var v := GenBranch(u.tgt, a.em, test, a.vs);
    GenBranchOK(x, cg.vMap, a.em, st, test, a.vs, vals);
    SimPure(x, cg.vMap, a.em, v.em, st);
    em := v.em;
    var bs := GenCondBr(u, cg, test, args, t, f).blocks;
    BlockOK(x, bs, cg.cur, em, CondBr(v.v, t, f), fin);
    EnterArmOK(x, bs, cg.cur, t, Mid(x, em).value, fin);
    EnterArmOK(x, bs, cg.cur, f, Mid(x, em).value, fin);
  }

  /** A switch ends the block with a jump to the arm that the low 32 bits select. */
  lemma SwitchOK(u: Unit, x: Exe, cg: CG, st: State, e: Exp, bbs: seq<nat>, fin: seq<Block>) returns (em: Em)
    requires Here(u, x, cg, st) && Scoped(u.fns, e, st.env.Keys)
    requires Ext(GenSwitch(u, cg, e, bbs).blocks, fin)
    requires forall i :: 0 <= i < |bbs| ==> bbs[i] < |cg.blocks| && bbs[i] != cg.cur && cg.blocks[bbs[i]].phis == []
    ensures Sim(x, cg.vMap, em, st) && em.regs == cg.regs && em.next == GenSwitch(u, cg, e, bbs).next
    ensures var i := Eval(x.m, e, st) % 0x1_0000_0000;
            if i < |bbs| then RunBlocks(x.m, x.fargs, fin, 1, At(cg.cur, x.t0)) == At(bbs[i], Mid(x, em).value)
            else RunBlocks(x.m, x.fargs, fin, 2, At(cg.cur, x.t0)) == Done(Impossible)
  {
    var val := Eval(x.m, e, st);
    var t := SelectorCode(u, cg, e);
    SelectorOK(u, x, cg, st, e);
    SimPure(x, cg.vMap, EmOf(cg), t.em, st);
    em := t.em;
    var bs, dflt := GenSwitch(u, cg, e, bbs).blocks, |cg.blocks|;
    SwitchEndOK(x, bs, cg.cur, em, t.v, val % 0x1_0000_0000, bbs, dflt, fin);
  }

  /** The code that computes which arm of a switch is selected. */
  function SelectorCode(u: Unit, cg: CG, e: Exp): (r: EV)
    requires InRange(u, cg)
    ensures r.em.regs == cg.regs
  {
    var v := GenExp(u.tgt, cg.vMap, EmOf(cg), e);
    var i := AsInt(v.em, v.v, Native(u.tgt));
    Def(i.em, Trunc32Op, [i.v], INT(32))
  }

  lemma SelectorOK(u: Unit, x: Exe, cg: CG, st: State, e: Exp)
    requires Here(u, x, cg, st) && Scoped(u.fns, e, st.env.Keys)
    ensures Yields(x, EmOf(cg), SelectorCode(u, cg, e), Eval(x.m, e, st) % 0x1_0000_0000)
  {
    hide GenExp, Eval, Scoped, AsInt, RunCode, Holds, Extends, RegOK;
    var v, val := GenExp(u.tgt, cg.vMap, EmOf(cg), e), Eval(x.m, e, st);
    GenExpOK(x, cg.vMap, EmOf(cg), st, u.fns, e);
    var i := AsInt(v.em, v.v, Native(u.tgt));
    CastOK(x, v.em, v.v, val, PTR, Native(u.tgt));
    YieldsTrans(x, EmOf(cg), v.em, i, val);
    Def1(x, i.em, Trunc32Op, i.v, val, INT(32));
    YieldsTrans(x, EmOf(cg), i.em, SelectorCode(u, cg, e), val % 0x1_0000_0000);
  }

  lemma SwitchEndOK(x: Exe, bs: seq<Block>, cur: nat, em: Em, v: Value, i: nat, bbs: seq<nat>, dflt: nat,
                    fin: seq<Block>)
    requires |x.m.tgt.stkOffset| == NUM_REGS && Ext(bs, fin) && cur < |bs| && dflt < |bs|
    requires bs[cur].instrs == em.code && bs[cur].term == Some(Switch(v, bbs, dflt)) && Holds(x, em, v, i)
    requires bs[dflt] == EMPTY.(term := Some(Unreachable))
    requires forall i :: 0 <= i < |bbs| ==> bbs[i] < |bs| && bs[bbs[i]].phis == []
    ensures if i < |bbs| then RunBlocks(x.m, x.fargs, fin, 1, At(cur, x.t0)) == At(bbs[i], Mid(x, em).value)
            else RunBlocks(x.m, x.fargs, fin, 2, At(cur, x.t0)) == Done(Impossible)
  {
    BlockOK(x, bs, cur, em, Switch(v, bbs, dflt), fin);
    var mid := Mid(x, em).value;
    if i < |bbs| {
      EnterArmOK(x, bs, cur, bbs[i], mid, fin);
    } else {
      EnterArmOK(x, bs, cur, dflt, mid, fin);
      var x' := x.(t0 := mid);
      BlockOK(x', bs, dflt, Em([], 0, []), Unreachable, fin);
      RunBlocksAdd(x.m, x.fargs, fin, 1, 1, At(cur, x.t0));
    }
  }
}
