/** Meaning preservation for clusters: the generated function and the CFG reach the same
    transfers, overflows and impossible switches, or both run forever. */
module Preservation {
  import opened Machine
  import opened CFG
  import opened IR
  import opened Codegen
  import opened Straight
  import opened Invariants
  import opened Structure
  import opened Simulate
  import opened Preserve
  import opened Fragments
  import opened ClusterGen

  /** The arguments of the generated function: registers, unused registers, arguments. */
  function FnArgs(m: Machine, regs: seq<Val>, unused: seq<Val>, args: seq<Val>): seq<Val>
    requires |m.tgt.stkOffset| == NUM_REGS == |regs|
  {
    HwVals(m.tgt, regs) + unused + args
  }

  /** A call of the generated function. */
  function Entry(m: Machine, regs: seq<Val>, mem: Mem): TRes
    requires |m.tgt.stkOffset| == NUM_REGS == |regs|
  {
    At(0, TS(map[], StackOf(m.tgt, regs), mem))
  }

  /** The call of a cluster: what the CFG is given and what the generated function is given. */
  datatype Call = Call(m: Machine, fns: Fns, cl: Cluster, args: seq<Val>, regs: seq<Val>, unused: seq<Val>, mem: Mem) {
    ghost predicate Valid() {
      && m.tgt.Valid() && WellFormedCluster(m.tgt, fns, cl) && |regs| == NUM_REGS
      && |args| == |cl[0].params| && |unused| == |Unused(cl[0].kind)|
    }

    function FArgs(): seq<Val>
      requires |m.tgt.stkOffset| == NUM_REGS == |regs|
    {
      FnArgs(m, regs, unused, args)
    }

    ghost function Fin(): seq<Block>
      requires Valid()
    {
      GenCluster(m.tgt, fns, cl)
    }

    /** The generated function after n blocks. */
    ghost function Run(n: nat): TRes
      requires Valid()
    {
      RunBlocks(m, FArgs(), Fin(), n, Entry(m, regs, mem))
    }

    /** The CFG after k fragments. */
    function Source(k: nat): Progress
      requires m.tgt.wordSz > 0 && |regs| == NUM_REGS
    {
      RunCluster(m, fns, cl, k, AtFrag(0, args, regs, mem))
    }
  }

  /** Registers start as arguments of the function, or as phi nodes. */
  lemma EntrySim(c: Call, ts: TS, em: Em)
    requires c.Valid() && em == Em([], em.next, EntryRegs(c.m.tgt))
    requires ts.stk == StackOf(c.m.tgt, c.regs) && ts.mem == c.mem
    ensures var x := Exe(c.m, c.FArgs(), ts);
            && Sim(x, map[], em, State(map[], c.regs, c.mem))
            && HoldAll(x, em, EntryArgs(c.m.tgt, c.cl[0]), c.args)
  {
    var x, tgt := Exe(c.m, c.FArgs(), ts), c.m.tgt;
    forall r | 0 <= r < NUM_REGS
      ensures RegOK(x, em, r, c.regs[r])
    {
      if tgt.IsMachine(r) {
        HwIndexed(tgt, r);
      }
    }
    var vs := EntryArgs(tgt, c.cl[0]);
    var base := |tgt.Hw()| + |Unused(c.cl[0].kind)|;
    forall i | 0 <= i < |vs|
      ensures Holds(x, em, vs[i], c.args[i])
    {
      assert c.FArgs()[base + i] == c.args[i];
    }
  }

  lemma PhiSim(x: Exe, tgt: Target, regs0: seq<Option<Value>>, phis: seq<Phi>, args: seq<Val>, regs: seq<Val>, em: Em)
    requires tgt.Valid() && x.m.tgt == tgt && |regs| == NUM_REGS == |regs0| && Shape(regs0) == TargetShape(tgt)
    requires |phis| == |tgt.Hw()| + |args| && em == Em([], em.next, FragRegs(tgt, regs0, PhiTemps(phis), |tgt.Hw()|))
    requires x.t0.stk == StackOf(tgt, regs)
    requires var vals := HwVals(tgt, regs) + args;
             forall k :: 0 <= k < |vals| ==>
               phis[k].id < em.next && phis[k].id in x.t0.env && x.t0.env[phis[k].id] == vals[k]
    ensures Sim(x, map[], em, State(map[], regs, x.t0.mem))
    ensures HoldAll(x, em, PhiTemps(phis)[|tgt.Hw()|..], args)
  {
    var vs, vals := PhiTemps(phis), HwVals(tgt, regs) + args;
    FragRegsAt(tgt, regs0, vs, |tgt.Hw()|);
    forall k | 0 <= k < |vals|
      ensures Holds(x, em, vs[k], vals[k])
    {
    }
    forall r | 0 <= r < NUM_REGS
      ensures RegOK(x, em, r, regs[r])
    {
      assert Shape(regs0)[r] == TargetShape(tgt)[r];
      if tgt.IsMachine(r) {
        HwIndexed(tgt, r);
        var i := tgt.HwIndex(r);
        assert em.regs[r] == Some(vs[i]) && vals[i] == regs[r];
        assert Holds(x, em, vs[i], vals[i]);
      }
    }
    var nHw := |tgt.Hw()|;
    forall k | 0 <= k < |args|
      ensures Holds(x, em, vs[nHw..][k], args[k])
    {
      assert vals[nHw + k] == args[k] && vs[nHw..][k] == vs[nHw + k];
      assert Holds(x, em, vs[nHw + k], vals[nHw + k]);
    }
  }

  /** The generated function is where the CFG is about to execute the i-th fragment. */
  ghost predicate AtFragment(c: Call, r: TRes, i: nat, args: seq<Val>, regs: seq<Val>, mem: Mem)
    requires c.Valid()
  {
    && i < |c.cl| && |args| == |c.cl[i].params| && |regs| == NUM_REGS
    && if i == 0 then args == c.args && regs == c.regs && mem == c.mem && r == Entry(c.m, c.regs, c.mem)
       else AtEntry(UnitOf(c.m.tgt, c.fns, c.cl), c.Fin(), r, i, args, regs, mem)
  }

  /** The state in which the i-th fragment is generated. */
  ghost function FragCG(c: Call, i: nat): CG
    requires c.Valid() && i < |c.cl|
  {
    InitClusterOK(c.m.tgt, c.fns, c.cl);
    var u := UnitOf(c.m.tgt, c.fns, c.cl);
    BeginFrag(u, GenFrags(u, StartCG(c.m.tgt, c.cl), i), i)
  }

  lemma FragCGFacts(c: Call, i: nat)
    requires c.Valid() && i < |c.cl|
    ensures var u, cg := UnitOf(c.m.tgt, c.fns, c.cl), FragCG(c, i);
            && InRange(u, cg) && u.tgt == c.m.tgt && |u.cl| == |c.cl| == |u.bbs| && u.cl[i].params == c.cl[i].params
            && u.cl[i].kind == c.cl[i].kind
            && cg.cur == u.bbs[i] && EmOf(cg) == Em([], cg.next, cg.regs) && u.bbs[0] == 0
            && Distinct(Names(u.cl[i].params))
  {
    hide InitCluster, GenFrags, Inv, BeginFrag;
    GenFragsInv(c.m.tgt, c.fns, c.cl, i);
    InitClusterOK(c.m.tgt, c.fns, c.cl);
    var u := UnitOf(c.m.tgt, c.fns, c.cl);
    var cgi := GenFrags(u, StartCG(c.m.tgt, c.cl), i);
    BeginFragInv(u, cgi, i);
    FragReady(c.m.tgt, c.fns, c.cl, cgi, i);
  }

  /** At the start of the i-th fragment the simulation holds. */
  ghost predicate FragStarts(c: Call, r: TRes, i: nat, args: seq<Val>, regs: seq<Val>, mem: Mem)
    requires c.Valid() && i < |c.cl| && |regs| == NUM_REGS
  {
    var u, cg := UnitOf(c.m.tgt, c.fns, c.cl), FragCG(c, i);
    var xs := Names(c.cl[i].params);
    && r.At? && r.blk == cg.cur
    && Here(u, Exe(c.m, c.FArgs(), r.ts), cg, State(BindAll(map[], xs, args), regs, mem))
    && cg.vMap.Keys <= Elems(xs)
    && BindAll(map[], xs, args).Keys == Elems(xs)
  }

  lemma EntrySimAt(c: Call, r: TRes)
    requires c.Valid() && r == Entry(c.m, c.regs, c.mem)
    ensures FragStarts(c, r, 0, c.args, c.regs, c.mem)
  {
    hide InitCluster, GenFrags, Sim, HwVals, EntryArgs, EntryRegs;
    FragCGFacts(c, 0);
    var u, cg := UnitOf(c.m.tgt, c.fns, c.cl), FragCG(c, 0);
    var xs, x, em := Names(c.cl[0].params), Exe(c.m, c.FArgs(), r.ts), EmOf(cg);
    var none: VMap := map[];
    var vs := EntryArgs(u.tgt, u.cl[0]);
    SameEntryArgs(u.tgt, u.cl[0], c.cl[0]);
    EntrySim(c, r.ts, em);
    InsertValsAt(none, xs, vs);
    BindAllSim(x, none, em, State(map[], c.regs, c.mem), xs, vs, c.args);
  }

  lemma SameEntryArgs(tgt: Target, f: Frag, g: Frag)
    requires |tgt.stkOffset| == NUM_REGS && f.params == g.params && f.kind == g.kind
    ensures EntryArgs(tgt, f) == EntryArgs(tgt, g)
  {
  }

  /** The phi nodes of a fragment's entry, when its generation starts and in the end. */
  lemma FragPhis(c: Call, i: nat)
    requires c.Valid() && 1 <= i < |c.cl|
    ensures var u := UnitOf(c.m.tgt, c.fns, c.cl);
            && UnitOK(u) && BodiesBelow(u) && InRange(u, StartCG(c.m.tgt, c.cl)) && |u.cl| == |c.cl|
            && var cgi := GenFrags(u, StartCG(c.m.tgt, c.cl), i);
               && u.bbs[i] < |cgi.blocks| && u.bbs[i] < |c.Fin()| && Shape(cgi.regs) == TargetShape(u.tgt)
               && var phis, phis' := cgi.blocks[u.bbs[i]].phis, c.Fin()[u.bbs[i]].phis;
                  && |phis| == |phis'| == |u.tgt.Hw()| + |c.cl[i].params|
                  && forall k :: 0 <= k < |phis| ==> phis[k].id == phis'[k].id && phis[k].id < cgi.next
  {
    hide InitCluster, GenFrags, Numbered, WellFormed, BlocksBelow;
    GenFragsInv(c.m.tgt, c.fns, c.cl, i);
    GenFragsExt(c.m.tgt, c.fns, c.cl, i, |c.cl|);
    InitClusterOK(c.m.tgt, c.fns, c.cl);
    var u := UnitOf(c.m.tgt, c.fns, c.cl);
    var cgi := GenFrags(u, StartCG(c.m.tgt, c.cl), i);
    var bb := u.bbs[i];
    assert BlockExt(cgi.blocks[bb], c.Fin()[bb]);
    forall k | 0 <= k < |cgi.blocks[bb].phis|
      ensures cgi.blocks[bb].phis[k].id == c.Fin()[bb].phis[k].id
    {
      assert PhiExt(cgi.blocks[bb].phis[k], c.Fin()[bb].phis[k]);
    }
  }

  lemma PhiSimAt(c: Call, r: TRes, i: nat, args: seq<Val>, regs: seq<Val>, mem: Mem)
    requires c.Valid() && 1 <= i < |c.cl| && |regs| == NUM_REGS
             && AtEntry(UnitOf(c.m.tgt, c.fns, c.cl), c.Fin(), r, i, args, regs, mem)
    ensures FragStarts(c, r, i, args, regs, mem)
  {
    hide InitCluster, GenFrags, GenCluster, Sim, HwVals, FragRegs, Inv, PhiTemps, Holds, BindAll, InsertVals,
         BodiesBelow, FragTys;
    FragCGFacts(c, i);
    FragPhis(c, i);
    var u, cg := UnitOf(c.m.tgt, c.fns, c.cl), FragCG(c, i);
    var cgi := GenFrags(u, StartCG(c.m.tgt, c.cl), i);
    var phis := cgi.blocks[u.bbs[i]].phis;
    var xs, x, em := Names(c.cl[i].params), Exe(c.m, c.FArgs(), r.ts), EmOf(cg);
    var none: VMap := map[];
    var vs := PhiTemps(phis)[|u.tgt.Hw()|..];
    PhiSim(x, u.tgt, cgi.regs, phis, args, regs, em);
    InsertValsAt(none, xs, vs);
    BindAllSim(x, none, em, State(map[], regs, mem), xs, vs, args);
  }

  lemma FragSim(c: Call, r: TRes, i: nat, args: seq<Val>, regs: seq<Val>, mem: Mem)
    requires c.Valid() && AtFragment(c, r, i, args, regs, mem)
    ensures FragStarts(c, r, i, args, regs, mem)
  {
    hide GenCluster, InitCluster, FragStarts, AtEntry;
    if i == 0 {
      EntrySimAt(c, r);
    } else {
      PhiSimAt(c, r, i, args, regs, mem);
    }
  }

  /** Executing one fragment. */
  lemma FragOK(c: Call, r: TRes, i: nat, args: seq<Val>, regs: seq<Val>, mem: Mem) returns (n: nat)
    requires c.Valid() && AtFragment(c, r, i, args, regs, mem)
    ensures n >= 1
    ensures var u := UnitOf(c.m.tgt, c.fns, c.cl);
            Ends(u, c.m, c.Fin(), RunBlocks(c.m, c.FArgs(), c.Fin(), n, r),
                 RunStm(c.m, c.fns, c.cl[i].body, State(BindAll(map[], Names(c.cl[i].params), args), regs, mem)))
  {
    hide InitCluster, GenFrags, Inv, Ends, Sim, RunStm, BeginFrag, InitStm, Numbered, BlocksBelow, WellFormed, Binders,
         BindAll, Ext, AtEntry;
    FragSim(c, r, i, args, regs, mem);
    FragCGFacts(c, i);
    var u, cg0 := UnitOf(c.m.tgt, c.fns, c.cl), StartCG(c.m.tgt, c.cl);
    GenFragsInv(c.m.tgt, c.fns, c.cl, i);
    var cgi, cg := GenFrags(u, cg0, i), FragCG(c, i);
    FragReady(c.m.tgt, c.fns, c.cl, cgi, i);
    GenFragsExt(c.m.tgt, c.fns, c.cl, i + 1, |c.cl|);
    var st := State(BindAll(map[], Names(c.cl[i].params), args), regs, mem);
    GenFragsStep(u, cg0, i);
    n := GenStmOK(u, Exe(c.m, c.FArgs(), r.ts), c.Fin(), cg, u.cl[i].body, u.bbs[i] + 1, EndOf(u.bbs, u.n, i), st);
    BodyKeeps(c, i, st);
  }

  /** Initialisation does not change what a fragment's body does. */
  lemma BodyKeeps(c: Call, i: nat, st: State)
    requires c.Valid() && i < |c.cl| && |st.regs| == NUM_REGS
    ensures var u := UnitOf(c.m.tgt, c.fns, c.cl);
            |u.cl| == |c.cl| && RunStm(c.m, c.fns, u.cl[i].body, st) == RunStm(c.m, c.fns, c.cl[i].body, st)
  {
    hide InitCluster, Numbered, RunStm;
    InitClusterFrags(c.m.tgt, c.cl);
    var r := InitCluster(c.m.tgt, c.cl);
    assert FragInit(c.m.tgt, c.cl, r, i);
    InitStmKeeps(c.m, c.fns, c.cl[i].body, r.bbs[i] + 1, st);
  }

  /** The generated function keeps pace with the CFG: after k fragments of the CFG it has
      either finished with the same outcome, or executed at least k blocks and is about to
      execute the same fragment. */
  ghost predicate Paired(c: Call, k: nat, n: nat)
    requires c.Valid()
  {
    match c.Source(k)
    case Finished(o) =>
      && (o.Transfer? ==> |o.regs| == NUM_REGS) && (o.Overflow? ==> |o.regs| == NUM_REGS)
      && c.Run(n) == Done(Observe(c.m, o))
    case AtFrag(i, args, regs, mem) => k <= n && AtFragment(c, c.Run(n), i, args, regs, mem)
    case NoSuchFrag => false
  }

  lemma PairedStep(c: Call, k: nat, n: nat) returns (n': nat)
    requires c.Valid() && Paired(c, k, n)
    ensures Paired(c, k + 1, n')
  {
    hide GenCluster, AtEntry, RunStm, StepBlock, BindAll, InitCluster, RunBlocks, AtFragment;
    if c.Source(k).Finished? {
      n' := n;
    } else {
      var AtFrag(i, args, regs, mem) := c.Source(k);
      n' := PairedFrag(c, k, n, i, args, regs, mem);
    }
  }

  /** What the CFG does after a fragment that ends like this. */
  function GoesOn(cl: Cluster, e: FragEnd): Progress {
    match e
    case Halt(o) => Finished(o)
    case Jump(lab, args, regs, mem) =>
      var d := FindFrag(cl, lab);
      if d.Some? then AtFrag(d.value, args, regs, mem) else NoSuchFrag
  }

  lemma SourceStep(c: Call, k: nat, i: nat, args: seq<Val>, regs: seq<Val>, mem: Mem)
    requires c.m.tgt.wordSz > 0 && |c.regs| == NUM_REGS
    requires c.Source(k) == AtFrag(i, args, regs, mem) && i < |c.cl| && |regs| == NUM_REGS
    ensures c.Source(k + 1) == GoesOn(c.cl, RunStm(c.m, c.fns, c.cl[i].body,
                                                   State(BindAll(map[], Names(c.cl[i].params), args), regs, mem)))
  {
    hide RunStm, BindAll, Names;
  }

  /** Where the generated blocks of a fragment end, both sides are paired again. */
  lemma PairedEnd(c: Call, k: nat, n: nat, e: FragEnd)
    requires c.Valid() && k <= n && c.Source(k) == GoesOn(c.cl, e)
    requires Ends(UnitOf(c.m.tgt, c.fns, c.cl), c.m, c.Fin(), c.Run(n), e)
    ensures Paired(c, k, n)
  {
    hide GenCluster, AtEntry, InitCluster, RunBlocks, RunCluster, AtFragment;
    if e.Jump? {
      InitClusterOK(c.m.tgt, c.fns, c.cl);
      SameFragFound(c.cl, UnitOf(c.m.tgt, c.fns, c.cl).cl, e.lab);
      EntryFacts(c, c.Run(n), FindFrag(c.cl, e.lab).value, e.args, e.regs, e.mem);
    }
  }

  /** The execution of one more fragment. */
  lemma PairedFrag(c: Call, k: nat, n: nat, i: nat, args: seq<Val>, regs: seq<Val>, mem: Mem) returns (n': nat)
    requires c.Valid() && c.Source(k) == AtFrag(i, args, regs, mem) && k <= n
    requires AtFragment(c, c.Run(n), i, args, regs, mem)
    ensures Paired(c, k + 1, n')
  {
    hide GenCluster, AtEntry, RunStm, BindAll, InitCluster, RunBlocks, RunCluster, Ends, Paired, GoesOn;
    var n1 := FragOK(c, c.Run(n), i, args, regs, mem);
    RunBlocksAdd(c.m, c.FArgs(), c.Fin(), n, n1, Entry(c.m, c.regs, c.mem));
    n' := n + n1;
    SourceStep(c, k, i, args, regs, mem);
    PairedEnd(c, k + 1, n', RunStm(c.m, c.fns, c.cl[i].body,
                                   State(BindAll(map[], Names(c.cl[i].params), args), regs, mem)));
  }

  lemma EntryFacts(c: Call, r: TRes, i: nat, args: seq<Val>, regs: seq<Val>, mem: Mem)
    requires c.Valid() && AtEntry(UnitOf(c.m.tgt, c.fns, c.cl), c.Fin(), r, i, args, regs, mem)
    ensures AtFragment(c, r, i, args, regs, mem) && |regs| == NUM_REGS
  {
    hide InitCluster, GenCluster;
    InitClusterOK(c.m.tgt, c.fns, c.cl);
  }

  lemma PairedStart(c: Call)
    requires c.Valid()
    ensures Paired(c, 0, 0)
  {
    hide GenCluster, InitCluster, AtEntry;
    assert c.Source(0) == AtFrag(0, c.args, c.regs, c.mem) && c.Run(0) == Entry(c.m, c.regs, c.mem);
  }

  lemma {:induction false} PairedAll(c: Call, k: nat) returns (n: nat)
    requires c.Valid()
    ensures Paired(c, k, n)
  {
    hide Paired, Call.Valid;
    if k == 0 {
      PairedStart(c);
      n := 0;
    } else {
      var n0 := PairedAll(c, k - 1);
      n := PairedStep(c, k - 1, n0);
    }
  }

  /** The CFG finishes with an outcome that the generated function shows as o. */
  ghost predicate SourceEnds(c: Call, k: nat, o: TOutcome)
    requires c.Valid()
  {
    c.Source(k).Finished? &&
    var s := c.Source(k).outcome;
    (s.Transfer? ==> |s.regs| == NUM_REGS) && (s.Overflow? ==> |s.regs| == NUM_REGS) && Observe(c.m, s) == o
  }

  /** Meaning preservation. Whatever the layout of registers, the generated function finishes
      exactly when the CFG does and with the same callee, arguments, registers and memory;
      it never gets stuck, in particular it never reads a temporary that was not set. */
  lemma MeaningPreserved(c: Call, o: TOutcome)
    requires c.Valid()
    ensures (exists k: nat :: SourceEnds(c, k, o)) <==> (exists n: nat :: c.Run(n) == Done(o))
    ensures forall n: nat :: c.Run(n) != Stuck
  {
    hide GenCluster, RunCluster, RunBlocks;
    forall k: nat | SourceEnds(c, k, o)
      ensures exists n: nat :: c.Run(n) == Done(o)
    {
      var n := PairedAll(c, k);
      assert c.Run(n) == Done(o);
    }
    forall n: nat | c.Run(n) == Done(o)
      ensures exists k: nat :: SourceEnds(c, k, o)
    {
      var n' := PairedAll(c, n + 1);
      StopsTogether(c, n, n', n + 1);
      assert SourceEnds(c, n + 1, o);
    }
    forall n: nat
      ensures c.Run(n) != Stuck
    {
      var n' := PairedAll(c, n + 1);
      if c.Run(n) == Stuck {
        StopsTogether(c, n, n', n + 1);
      }
    }
  }

  /** If the function has stopped after n blocks, the CFG has finished after n + 1 fragments,
      and both agree on how. */
  lemma StopsTogether(c: Call, n: nat, n': nat, k: nat)
    requires c.Valid() && !c.Run(n).At? && k == n + 1 && Paired(c, k, n')
    ensures c.Source(k).Finished?
    ensures var s := c.Source(k).outcome;
            (s.Transfer? ==> |s.regs| == NUM_REGS) && (s.Overflow? ==> |s.regs| == NUM_REGS)
            && c.Run(n) == Done(Observe(c.m, s))
  {
    hide GenCluster, RunCluster, RunBlocks, AtEntry, Observe;
    var e := Entry(c.m, c.regs, c.mem);
    if n <= n' {
      RunBlocksDone(c.m, c.FArgs(), c.Fin(), n, n', e);
      assert c.Run(n') == c.Run(n);
    } else {
      assert !c.Run(n').At?;
      RunBlocksDone(c.m, c.FArgs(), c.Fin(), n', n, e);
      assert c.Run(n') == c.Run(n);
    }
    assert !c.Source(k).AtFrag? by {
      if c.Source(k).AtFrag? {
        var AtFrag(i, args, regs, mem) := c.Source(k);
        assert AtFragment(c, c.Run(n'), i, args, regs, mem);
        AtIsAt(c, c.Run(n'), i, args, regs, mem);
      }
    }
  }

  lemma AtIsAt(c: Call, r: TRes, i: nat, args: seq<Val>, regs: seq<Val>, mem: Mem)
    requires c.Valid() && AtFragment(c, r, i, args, regs, mem)
    ensures r.At?
  {
  }

  // ----- why variables must be bound once -----

  /** Bind variable 0 to one and then to two, and pass it to a function. */
  function Rebinding(lab: Lvar): (s: Stm)
    ensures forall n: nat :: BlocksBelow(s, n)
  {
    var p := Param(0, INT(32));
    var inner := LET(NUM(2, 32), p, APPLY(LABEL(lab), [VAR(0)], [INT(32)]));
    assert forall n: nat :: BlocksBelow(inner, n);
    LET(NUM(1, 32), p, inner)
  }

  lemma RebindingRuns(m: Machine, fns: Fns, st: State, lab: Lvar)
    requires m.tgt.wordSz > 0 && |st.regs| == NUM_REGS && lab in fns && fns[lab] == FnInfo(STD_FUN, [INT(32)])
    ensures RunStm(m, fns, Rebinding(lab), st) == Halt(Transfer(m.ops.fnAddr(lab), STD_FUN, [2], st.regs, st.mem))
  {
    var st1 := st.(env := st.env[0 := 1]);
    var st2 := st1.(env := st1.env[0 := 2]);
    assert [VAR(0)][..0] == [];
    assert EvalAll(m, [VAR(0)], st2) == [2];
    var k := APPLY(LABEL(lab), [VAR(0)], [INT(32)]);
    assert RunStm(m, fns, k, st2) == Halt(Transfer(m.ops.fnAddr(lab), STD_FUN, [2], st.regs, st.mem));
    assert RunStm(m, fns, LET(NUM(2, 32), Param(0, INT(32)), k), st1) == RunStm(m, fns, k, st2);
    assert NumVal(1, 32) == 1 && NumVal(2, 32) == 2;
  }

  lemma RebindingGenerates(u: Unit, cg: CG, lab: Lvar)
    requires UnitOK(u) && InRange(u, cg) && lab in u.fns && u.fns[lab] == FnInfo(STD_FUN, [INT(32)]) && 0 !in cg.vMap
    ensures var r := GenStm(u, cg, Rebinding(lab));
            && r.cur == cg.cur && r.blocks[r.cur].instrs == cg.blocks[cg.cur].instrs
            && r.blocks[r.cur].term == Some(TailCall(Fn(lab), HwArgs(u.tgt, cg.regs) + [Const(1, INT(32))]))
  {
    var p := Param(0, INT(32));
    var cg1 := GenLet(u, cg, NUM(1, 32), p);
    var cg2 := GenLet(u, cg1, NUM(2, 32), p);
    assert cg2.vMap[0] == Const(1, INT(32)) && cg2.regs == cg.regs && EmOf(cg2) == EmOf(cg);
    assert [VAR(0)][..0] == [] && [VAR(0)][..1] == [VAR(0)];
    assert GenCastExps(u.tgt, cg2.vMap, EmOf(cg2), [], [INT(32)]) == EVs(EmOf(cg2), []);
    assert GenCastExps(u.tgt, cg2.vMap, EmOf(cg2), [VAR(0)], [INT(32)]) == EVs(EmOf(cg2), [Const(1, INT(32))]);
    assert HwArgs(u.tgt, cg2.regs) + [] + [Const(1, INT(32))] == HwArgs(u.tgt, cg.regs) + [Const(1, INT(32))];
    LetLet(u, cg, NUM(1, 32), p, NUM(2, 32), p, APPLY(LABEL(lab), [VAR(0)], [INT(32)]));
  }

  lemma LetLet(u: Unit, cg: CG, e1: Exp, p1: Param, e2: Exp, p2: Param, k: Stm)
    requires UnitOK(u) && InRange(u, cg) && BlocksBelow(k, u.n)
    ensures GenStm(u, cg, LET(e1, p1, LET(e2, p2, k))) == GenStm(u, GenLet(u, GenLet(u, cg, e1, p1), e2, p2), k)
  {
    hide GenLet;
    assert GenStm(u, GenLet(u, cg, e1, p1), LET(e2, p2, k)) == GenStm(u, GenLet(u, GenLet(u, cg, e1, p1), e2, p2), k);
  }

  /** A function whose body rebinds. */
  function RebindingCluster(self: Lvar, lab: Lvar): Cluster {
    [Frag(STD_FUN, self, [], Rebinding(lab))]
  }

  lemma RebindingInit(tgt: Target, self: Lvar, lab: Lvar)
    requires |tgt.stkOffset| == NUM_REGS
    ensures InitCluster(tgt, RebindingCluster(self, lab)) == Inited(RebindingCluster(self, lab), [0], [EMPTY], 0)
  {
    var cl := RebindingCluster(self, lab);
    var inner := APPLY(LABEL(lab), [VAR(0)], [INT(32)]);
    assert cl[..0] == [] && InitStm(inner, 1) == Init(inner, 1);
    assert InitStm(LET(NUM(2, 32), Param(0, INT(32)), inner), 1).n == 1;
    assert InitStm(cl[0].body, 1) == Init(cl[0].body, 1);
  }

  lemma RebindingFunction(tgt: Target, fns: Fns, self: Lvar, lab: Lvar)
    requires tgt.Valid() && lab in fns && fns[lab] == FnInfo(STD_FUN, [INT(32)])
    ensures var fin := GenCluster(tgt, fns, RebindingCluster(self, lab));
            && |fin| > 0 && fin[0].instrs == []
            && fin[0].term == Some(TailCall(Fn(lab), HwArgs(tgt, EntryRegs(tgt)) + [Const(1, INT(32))]))
  {
    hide InitCluster, GenStm, HwArgs, EntryRegs;
    var cl := RebindingCluster(self, lab);
    InitClusterOK(tgt, fns, cl);
    RebindingInit(tgt, self, lab);
    var u, cg0 := UnitOf(tgt, fns, cl), StartCG(tgt, cl);
    GenFragsStep(u, cg0, 0);
    RebindingGenerates(u, BeginFrag(u, cg0, 0), lab);
  }

  /** Executing a block that only calls. */
  lemma CallBlock(c: Call, fin: seq<Block>, lab: Lvar, v: Val)
    requires c.m.tgt.Valid() && |c.regs| == NUM_REGS && c.unused == c.args == []
    requires fin != [] && fin[0].instrs == []
    requires fin[0].term == Some(TailCall(Fn(lab), HwArgs(c.m.tgt, EntryRegs(c.m.tgt)) + [Const(v, INT(32))]))
    ensures RunBlocks(c.m, c.FArgs(), fin, 1, Entry(c.m, c.regs, c.mem))
            == Done(Called(c.m.ops.fnAddr(lab), HwVals(c.m.tgt, c.regs) + [v], StackOf(c.m.tgt, c.regs), c.mem))
  {
    var tgt, e := c.m.tgt, Entry(c.m, c.regs, c.mem);
    var none: map<nat, Val> := map[];
    assert c.FArgs() == HwVals(tgt, c.regs);
    var vs := HwArgs(tgt, EntryRegs(tgt)) + [Const(v, INT(32))];
    forall i | 0 <= i < |tgt.Hw()|
      ensures vs[i] == FnArg(i, PTR)
    {
      HwIndexInverse(tgt, i);
    }
    assert EvalVs(c.m, c.FArgs(), none, vs) == HwVals(tgt, c.regs) + [v];
    assert RunBlocks(c.m, c.FArgs(), fin, 0, e) == e;
    assert RunBlocks(c.m, c.FArgs(), fin, 1, e) == StepBlock(c.m, c.FArgs(), fin, e);
  }

  /** A second binding of a variable is ignored by the code generator but not by the CFG: a call
      of a function that rebinds ends differently in the two. So preservation depends on unique
      binding. */
  lemma RebindingDiffers(c: Call, self: Lvar, lab: Lvar)
    requires c.m.tgt.Valid() && |c.regs| == NUM_REGS && c.unused == c.args == []
    requires c.fns == map[lab := FnInfo(STD_FUN, [INT(32)])] && c.cl == RebindingCluster(self, lab)
    ensures c.Source(1) == Finished(Transfer(c.m.ops.fnAddr(lab), STD_FUN, [2], c.regs, c.mem))
    ensures var r := RunBlocks(c.m, c.FArgs(), GenCluster(c.m.tgt, c.fns, c.cl), 1, Entry(c.m, c.regs, c.mem));
            && r == Done(Called(c.m.ops.fnAddr(lab), HwVals(c.m.tgt, c.regs) + [1], StackOf(c.m.tgt, c.regs), c.mem))
            && r != Done(Observe(c.m, c.Source(1).outcome))
    ensures !c.Valid()
  {
    hide GenCluster, RunStm, RunBlocks, HwVals, HwArgs, EntryRegs;
    assert Names(c.cl[0].params) == [];
    RebindingRuns(c.m, c.fns, State(map[], c.regs, c.mem), lab);
    assert RunCluster(c.m, c.fns, c.cl, 0, AtFrag(0, [], c.regs, c.mem)) == AtFrag(0, [], c.regs, c.mem);
    RebindingFunction(c.m.tgt, c.fns, self, lab);
    CallBlock(c, GenCluster(c.m.tgt, c.fns, c.cl), lab, 1);
    var hw := HwVals(c.m.tgt, c.regs);
    assert (hw + [1])[|hw|] == 1 && (hw + [] + [2])[|hw|] == 2;
    RebindingIllFormed(c.m.tgt, c.fns, c.cl, lab, {});
  }

  lemma RebindingIllFormed(tgt: Target, fns: Fns, cl: Cluster, lab: Lvar, scope: set<Lvar>)
    ensures !WellFormed(tgt, fns, cl, Rebinding(lab), scope)
  {
    var p := Param(0, INT(32));
    assert 0 in Binders(LET(NUM(2, 32), p, APPLY(LABEL(lab), [VAR(0)], [INT(32)])));
  }
}
