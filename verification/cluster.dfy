/** Whole clusters: initialisation makes the blocks and phi nodes, then the fragments are
    generated one after the other. */
module ClusterGen {
  import opened Machine
  import opened CFG
  import opened IR
  import opened Codegen
  import opened Invariants
  import opened Structure

  datatype Inited = Inited(cl: Cluster, bbs: seq<nat>, blocks: seq<Block>, next: nat)

  function ParamTys(params: seq<Param>): (tys: seq<Ty>)
    ensures |tys| == |params|
  {
    seq(|params|, i requires 0 <= i < |params| => params[i].ty)
  }

  /** The types of an internal fragment's phi nodes: registers first, then parameters. */
  function FragTys(tgt: Target, f: Frag): (tys: seq<Ty>)
    requires |tgt.stkOffset| == NUM_REGS
    ensures |tys| == |tgt.Hw()| + |f.params|
  {
    Ptrs(|tgt.Hw()|) + ParamTys(f.params)
  }

  function Empties(n: nat): (bs: seq<Block>)
    ensures |bs| == n
  {
    seq(n, _ => EMPTY)
  }

  /** Blocks for a fragment's entry and its arms, and phi nodes at the entry. */
  function InitFrag(tgt: Target, f: Frag, r: Inited): Inited
    requires |tgt.stkOffset| == NUM_REGS
  {
    var bb := |r.blocks|;
    var i := InitStm(f.body, bb + 1);
    var phis := if f.kind == INTERNAL then NewPhis(r.next, FragTys(tgt, f)) else [];
    Inited(r.cl + [f.(body := i.s)], r.bbs + [bb],
           r.blocks + [EMPTY.(phis := phis)] + Empties(i.n - bb - 1), r.next + |phis|)
  }

  function InitCluster(tgt: Target, cl: Cluster): Inited
    requires |tgt.stkOffset| == NUM_REGS
  {
    if cl == [] then Inited([], [], [], 0)
    else InitFrag(tgt, cl[|cl| - 1], InitCluster(tgt, cl[..|cl| - 1]))
  }

  /** At the function's entry, each hardware register is the argument in its position. */
  function EntryRegs(tgt: Target): (regs: seq<Option<Value>>)
    requires |tgt.stkOffset| == NUM_REGS
    ensures |regs| == NUM_REGS
  {
    seq(NUM_REGS, r requires 0 <= r < NUM_REGS =>
      if tgt.IsMachine(r) then Some(FnArg(tgt.HwIndex(r), PTR)) else None)
  }

  /** The parameters of the entry fragment, after registers and unused arguments. */
  function EntryArgs(tgt: Target, f: Frag): (vs: seq<Value>)
    requires |tgt.stkOffset| == NUM_REGS
    ensures |vs| == |f.params|
  {
    var base := |tgt.Hw()| + |Unused(f.kind)|;
    seq(|f.params|, i requires 0 <= i < |f.params| => FnArg(base + i, f.params[i].ty))
  }

  /** The register map after the first n phi nodes have been made hardware registers. */
  function FragRegs(tgt: Target, regs: seq<Option<Value>>, vs: seq<Value>, n: nat): (regs': seq<Option<Value>>)
    requires |tgt.stkOffset| == NUM_REGS == |regs| && n <= |tgt.Hw()| && n <= |vs|
    ensures |regs'| == NUM_REGS
  {
    if n == 0 then regs else FragRegs(tgt, regs, vs, n - 1)[tgt.Hw()[n - 1] := Some(vs[n - 1])]
  }

  /** The values that the parameters and registers of an internal fragment start with. */
  function EntryPhis(u: Unit, cg: CG, i: nat): seq<Value>
    requires i < |u.bbs| && u.bbs[i] < |cg.blocks|
  {
    PhiTemps(cg.blocks[u.bbs[i]].phis)
  }

  /** The state in which generation of the i-th fragment starts. */
  function BeginFrag(u: Unit, cg: CG, i: nat): (r: CG)
    requires UnitOK(u) && InRange(u, cg) && i < |u.cl|
    ensures InRange(u, r)
  {
    var f := u.cl[i];
    if i == 0 then
      cg.(cur := u.bbs[0], regs := EntryRegs(u.tgt),
          vMap := InsertVals(map[], Names(f.params), EntryArgs(u.tgt, f)))
    else
      var vs := EntryPhis(u, cg, i);
      var nHw := |u.tgt.Hw()|;
      if |vs| == nHw + |f.params| then
        cg.(cur := u.bbs[i], regs := FragRegs(u.tgt, cg.regs, vs, nHw),
            vMap := InsertVals(map[], Names(f.params), vs[nHw..]))
      else cg
  }

  function GenFrag(u: Unit, cg: CG, i: nat): (r: CG)
    requires UnitOK(u) && InRange(u, cg) && i < |u.cl| && BlocksBelow(u.cl[i].body, u.n)
    ensures InRange(u, r)
  {
    GenStm(u, BeginFrag(u, cg, i), u.cl[i].body)
  }

  predicate BodiesBelow(u: Unit) {
    forall i :: 0 <= i < |u.cl| ==> BlocksBelow(u.cl[i].body, u.n)
  }

  /** The state after generating the first k fragments. */
  function GenFrags(u: Unit, cg: CG, k: nat): (r: CG)
    requires UnitOK(u) && InRange(u, cg) && k <= |u.cl| && BodiesBelow(u)
    ensures InRange(u, r)
  {
    if k == 0 then cg else GenFrag(u, GenFrags(u, cg, k - 1), k - 1)
  }

  lemma GenFragsStep(u: Unit, cg: CG, k: nat)
    requires UnitOK(u) && InRange(u, cg) && k < |u.cl| && BodiesBelow(u)
    ensures GenFrags(u, cg, k + 1) == GenStm(u, BeginFrag(u, GenFrags(u, cg, k), k), u.cl[k].body)
  {
  }

  function UnitOf(tgt: Target, fns: Fns, cl: Cluster): Unit
    requires |tgt.stkOffset| == NUM_REGS
  {
    var r := InitCluster(tgt, cl);
    Unit(tgt, fns, r.cl, r.bbs, |r.blocks|)
  }

  /** The state after initialisation. */
  function StartCG(tgt: Target, cl: Cluster): CG
    requires |tgt.stkOffset| == NUM_REGS
  {
    var r := InitCluster(tgt, cl);
    CG(r.blocks, 0, r.next, map[], seq(NUM_REGS, _ => None), None)
  }

  /** The blocks of the function for a cluster; its entry is block 0. */
  function GenCluster(tgt: Target, fns: Fns, cl: Cluster): seq<Block>
    requires tgt.Valid() && cl != []
  {
    InitClusterOK(tgt, fns, cl);
    GenFrags(UnitOf(tgt, fns, cl), StartCG(tgt, cl), |cl|).blocks
  }

  // ----- what initialisation makes -----

  /** Where the blocks of the i-th fragment end. */
  function EndOf(bbs: seq<nat>, n: nat, i: nat): nat
    requires i < |bbs|
  {
    if i + 1 < |bbs| then bbs[i + 1] else n
  }

  ghost predicate FragInit(tgt: Target, cl: Cluster, r: Inited, i: nat)
    requires |tgt.stkOffset| == NUM_REGS && i < |cl| && |r.cl| == |r.bbs| == |cl|
  {
    var bb, hi := r.bbs[i], EndOf(r.bbs, |r.blocks|, i);
    && bb < hi <= |r.blocks|
    && r.cl[i] == cl[i].(body := InitStm(cl[i].body, bb + 1).s)
    && Numbered(r.cl[i].body, bb + 1, hi)
    && r.blocks[bb] == EMPTY.(phis := r.blocks[bb].phis)
    && |r.blocks[bb].phis| == (if cl[i].kind == INTERNAL then |tgt.Hw()| + |cl[i].params| else 0)
    && (cl[i].kind == INTERNAL ==> PhiTys(r.blocks[bb].phis) == FragTys(tgt, cl[i]))
    && Pristine(r.blocks, bb + 1, hi)
  }

  /** Nothing in the blocks but phi nodes that still wait for incoming values. */
  ghost predicate Waiting(blocks: seq<Block>) {
    && (forall b :: 0 <= b < |blocks| ==> blocks[b] == EMPTY.(phis := blocks[b].phis))
    && (forall b, k :: 0 <= b < |blocks| && 0 <= k < |blocks[b].phis| ==>
          blocks[b].phis[k].vals == [] && blocks[b].phis[k].preds == [])
  }

  ghost predicate InitedOK(tgt: Target, cl: Cluster, r: Inited)
    requires |tgt.stkOffset| == NUM_REGS
  {
    && |r.cl| == |r.bbs| == |cl|
    && (forall i :: 0 <= i < |cl| ==> FragInit(tgt, cl, r, i))
    && (|cl| > 0 ==> r.bbs[0] == 0)
    && (cl == [] ==> r.blocks == [])
    && Waiting(r.blocks)
    && IdsOK(r.blocks, r.next)
  }

  /** The fragments before are as they were. */
  lemma InitFragOld(tgt: Target, cl: Cluster, f: Frag, r: Inited, i: nat)
    requires |tgt.stkOffset| == NUM_REGS && |r.cl| == |r.bbs| == |cl| && i < |cl| && FragInit(tgt, cl, r, i)
    requires i + 1 < |cl| ==> FragInit(tgt, cl, r, i + 1)
    ensures FragInit(tgt, cl + [f], InitFrag(tgt, f, r), i)
  {
    hide InitStm, Numbered, BlocksBelow;
    var r' := InitFrag(tgt, f, r);
    assert EndOf(r'.bbs, |r'.blocks|, i) == EndOf(r.bbs, |r.blocks|, i);
    assert forall b :: 0 <= b < |r.blocks| ==> r'.blocks[b] == r.blocks[b];
  }

  lemma InitFragNew(tgt: Target, cl: Cluster, f: Frag, r: Inited)
    requires |tgt.stkOffset| == NUM_REGS && |r.cl| == |r.bbs| == |cl|
    ensures FragInit(tgt, cl + [f], InitFrag(tgt, f, r), |cl|)
  {
    hide InitStm, Numbered, BlocksBelow, FragTys;
    InitStmNumbers(f.body, |r.blocks| + 1);
    assert PhiTys(NewPhis(r.next, FragTys(tgt, f))) == FragTys(tgt, f);
  }

  lemma InitFragWaiting(tgt: Target, f: Frag, r: Inited)
    requires |tgt.stkOffset| == NUM_REGS && Waiting(r.blocks) && IdsOK(r.blocks, r.next)
    ensures Waiting(InitFrag(tgt, f, r).blocks) && IdsOK(InitFrag(tgt, f, r).blocks, InitFrag(tgt, f, r).next)
  {
    hide InitStm, BlocksBelow, FragTys;
    var bb := |r.blocks|;
    var r' := InitFrag(tgt, f, r);
    assert forall b :: 0 <= b < bb ==> r'.blocks[b] == r.blocks[b];
    assert forall b :: bb < b < |r'.blocks| ==> r'.blocks[b] == EMPTY;
    assert r'.blocks[bb] == EMPTY.(phis := r'.blocks[bb].phis);
  }

  lemma InitFragOK(tgt: Target, cl: Cluster, f: Frag, r: Inited)
    requires |tgt.stkOffset| == NUM_REGS && InitedOK(tgt, cl, r)
    ensures InitedOK(tgt, cl + [f], InitFrag(tgt, f, r))
  {
    hide InitStm, FragInit, Waiting, IdsOK, BlocksBelow;
    InitFragNew(tgt, cl, f, r);
    InitFragWaiting(tgt, f, r);
    forall i | 0 <= i < |cl|
      ensures FragInit(tgt, cl + [f], InitFrag(tgt, f, r), i)
    {
      InitFragOld(tgt, cl, f, r, i);
    }
  }

  lemma {:induction false} InitClusterFrags(tgt: Target, cl: Cluster)
    requires |tgt.stkOffset| == NUM_REGS
    ensures InitedOK(tgt, cl, InitCluster(tgt, cl))
  {
    if cl != [] {
      var n := |cl| - 1;
      InitClusterFrags(tgt, cl[..n]);
      InitFragOK(tgt, cl[..n], cl[n], InitCluster(tgt, cl[..n]));
      assert cl == cl[..n] + [cl[n]];
    }
  }

  lemma InitClusterOK(tgt: Target, fns: Fns, cl: Cluster)
    requires tgt.Valid() && cl != []
    ensures var u := UnitOf(tgt, fns, cl);
            && UnitOK(u) && BodiesBelow(u) && InRange(u, StartCG(tgt, cl)) && |u.cl| == |cl|
            && SameHeaders(cl, u.cl) && u.bbs[0] == 0
  {
    hide InitCluster, Numbered, BlocksBelow;
    InitClusterFrags(tgt, cl);
    var u, r := UnitOf(tgt, fns, cl), InitCluster(tgt, cl);
    forall i | 0 <= i < |u.cl|
      ensures BlocksBelow(u.cl[i].body, u.n) && u.bbs[i] < u.n
    {
      assert FragInit(tgt, cl, r, i);
      NumberedBelow(u.cl[i].body, r.bbs[i] + 1, EndOf(r.bbs, |r.blocks|, i), u.n);
    }
    forall i | 0 <= i < |cl|
      ensures u.cl[i].kind == cl[i].kind && u.cl[i].lab == cl[i].lab && u.cl[i].params == cl[i].params
    {
      assert FragInit(tgt, cl, r, i);
    }
  }

  /** After initialisation nothing has been jumped to yet. */
  lemma StartInv(tgt: Target, fns: Fns, cl: Cluster)
    requires tgt.Valid() && cl != [] && WellFormedCluster(tgt, fns, cl)
    ensures Inv(UnitOf(tgt, fns, cl), StartCG(tgt, cl).(regs := EntryRegs(tgt)))
  {
    hide InitCluster;
    InitClusterOK(tgt, fns, cl);
    InitClusterFrags(tgt, cl);
    var u, cg := UnitOf(tgt, fns, cl), StartCG(tgt, cl);
    assert forall b: nat, d: nat :: !HasEdge(cg.blocks, b, d);
    forall d, i | 0 <= d < |cg.blocks| && 0 <= i < |cg.blocks[d].phis|
      ensures PhiOK(cg.blocks, d, cg.blocks[d].phis[i])
    {
      assert cg.blocks[d].phis[i].preds == [];
    }
    forall i | 1 <= i < |u.cl|
      ensures u.bbs[i] < |cg.blocks| && |cg.blocks[u.bbs[i]].phis| == |tgt.Hw()| + |u.cl[i].params|
    {
      assert FragInit(tgt, cl, InitCluster(tgt, cl), i);
    }
    EntryShape(tgt);
  }

  lemma EntryShape(tgt: Target)
    requires |tgt.stkOffset| == NUM_REGS
    ensures Shape(EntryRegs(tgt)) == TargetShape(tgt)
  {
  }

  // ----- fragment by fragment -----

  lemma {:induction false} FragRegsShape(tgt: Target, regs: seq<Option<Value>>, vs: seq<Value>, n: nat)
    requires |tgt.stkOffset| == NUM_REGS == |regs| && n <= |tgt.Hw()| && n <= |vs| && Shape(regs) == TargetShape(tgt)
    ensures Shape(FragRegs(tgt, regs, vs, n)) == TargetShape(tgt)
  {
    if n > 0 {
      FragRegsShape(tgt, regs, vs, n - 1);
      var regs0 := FragRegs(tgt, regs, vs, n - 1);
      assert tgt.IsMachine(tgt.Hw()[n - 1]);
      forall r | 0 <= r < NUM_REGS
        ensures Shape(FragRegs(tgt, regs, vs, n))[r] == TargetShape(tgt)[r]
      {
        assert Shape(regs0)[r] == TargetShape(tgt)[r];
      }
    }
  }

  lemma {:induction false} FragRegsAt(tgt: Target, regs: seq<Option<Value>>, vs: seq<Value>, n: nat)
    requires |tgt.stkOffset| == NUM_REGS == |regs| && n <= |tgt.Hw()| && n <= |vs|
    ensures forall i :: 0 <= i < n ==> FragRegs(tgt, regs, vs, n)[tgt.Hw()[i]] == Some(vs[i])
    ensures forall r :: 0 <= r < NUM_REGS && !tgt.IsMachine(r) ==> FragRegs(tgt, regs, vs, n)[r] == regs[r]
  {
    if n > 0 {
      FragRegsAt(tgt, regs, vs, n - 1);
      forall i | 0 <= i < n - 1
        ensures tgt.Hw()[i] != tgt.Hw()[n - 1]
      {
        HwIndexInverse(tgt, i);
        HwIndexInverse(tgt, n - 1);
      }
    }
  }

  /** The blocks of fragments from k on are as initialisation left them, up to incoming
      values of phi nodes; all others have ended. */
  ghost predicate Upto(u: Unit, bs0: seq<Block>, cg: CG, k: nat) {
    && |u.bbs| == |u.cl| && k <= |u.cl| && u.n == |bs0|
    && Ext(bs0, cg.blocks)
    && var start := if k < |u.bbs| then u.bbs[k] else u.n;
       && (forall b :: start <= b < u.n ==> SameCode(bs0[b], cg.blocks[b]))
       && (forall b :: 0 <= b < |cg.blocks| && !(start <= b < u.n) ==> Ended(cg.blocks, b))
  }

  ghost predicate InvUpto(u: Unit, cg: CG, k: nat) {
    if k == 0 then |u.tgt.stkOffset| == NUM_REGS && Inv(u, cg.(regs := EntryRegs(u.tgt))) else Inv(u, cg)
  }

  lemma BeginFragInv(u: Unit, cg: CG, k: nat)
    requires UnitOK(u) && InRange(u, cg) && k < |u.cl| && InvUpto(u, cg, k)
    ensures Inv(u, BeginFrag(u, cg, k)) && BeginFrag(u, cg, k).cur == u.bbs[k]
    ensures BeginFrag(u, cg, k).blocks == cg.blocks && BeginFrag(u, cg, k).next == cg.next
  {
    if k > 0 {
      assert |cg.blocks[u.bbs[k]].phis| == |u.tgt.Hw()| + |u.cl[k].params|;
      FragRegsShape(u.tgt, cg.regs, EntryPhis(u, cg, k), |u.tgt.Hw()|);
    }
  }

  /** The k-th fragment is ready to be generated. */
  lemma FragReady(tgt: Target, fns: Fns, cl: Cluster, cg: CG, k: nat)
    requires tgt.Valid() && WellFormedCluster(tgt, fns, cl) && k < |cl|
    requires var u := UnitOf(tgt, fns, cl); UnitOK(u) && InRange(u, cg) && |u.cl| == |cl| && InvUpto(u, cg, k)
    requires var u := UnitOf(tgt, fns, cl); Upto(u, InitCluster(tgt, cl).blocks, cg, k)
    ensures var u := UnitOf(tgt, fns, cl);
            && Ready(u, BeginFrag(u, cg, k), u.cl[k].body, u.bbs[k] + 1, EndOf(u.bbs, u.n, k))
            && WellFormed(u.tgt, u.fns, u.cl, u.cl[k].body, Elems(Names(u.cl[k].params)))
            && Binders(u.cl[k].body) == Binders(cl[k].body)
            && BeginFrag(u, cg, k).blocks[u.bbs[k]].instrs == []
  {
    hide InitCluster, Numbered, BlocksBelow, WellFormed, Binders, Inv, InitStm, BeginFrag;
    var u, r := UnitOf(tgt, fns, cl), InitCluster(tgt, cl);
    InitClusterOK(tgt, fns, cl);
    InitClusterFrags(tgt, cl);
    assert FragInit(tgt, cl, r, k) && FragInit(tgt, cl, r, 0);
    BeginFragInv(u, cg, k);
    var bb, hi := u.bbs[k], EndOf(u.bbs, u.n, k);
    InitStmWellFormed(tgt, fns, cl, u.cl, cl[k].body, bb + 1, Elems(Names(cl[k].params)));
    assert SameCode(r.blocks[bb], cg.blocks[bb]);
    EndMono(tgt, cl, r, k, u.n);
    StillPristine(r.blocks, cg.blocks, bb + 1, hi);
  }

  lemma EndMono(tgt: Target, cl: Cluster, r: Inited, k: nat, n: nat)
    requires |tgt.stkOffset| == NUM_REGS && InitedOK(tgt, cl, r) && k < |cl| && n == |r.blocks|
    ensures r.bbs[k] < EndOf(r.bbs, n, k) <= n
  {
    assert FragInit(tgt, cl, r, k);
  }

  /** Generating the k-th fragment ends its blocks and no others. */
  lemma GenFragInv(tgt: Target, fns: Fns, cl: Cluster, cg: CG, k: nat)
    requires tgt.Valid() && WellFormedCluster(tgt, fns, cl) && k < |cl|
    requires var u := UnitOf(tgt, fns, cl);
             UnitOK(u) && InRange(u, cg) && |u.cl| == |cl| && BodiesBelow(u) && InvUpto(u, cg, k)
    requires var u := UnitOf(tgt, fns, cl); Upto(u, InitCluster(tgt, cl).blocks, cg, k)
    ensures var u := UnitOf(tgt, fns, cl);
            && Inv(u, GenFrag(u, cg, k)) && Upto(u, InitCluster(tgt, cl).blocks, GenFrag(u, cg, k), k + 1)
            && Ext(cg.blocks, GenFrag(u, cg, k).blocks)
  {
    hide InitCluster, Numbered, BlocksBelow, WellFormed, Binders, Inv, GenStm, BeginFrag;
    var u, r := UnitOf(tgt, fns, cl), InitCluster(tgt, cl);
    InitClusterFrags(tgt, cl);
    EndMono(tgt, cl, r, k, u.n);
    FragReady(tgt, fns, cl, cg, k);
    BeginFragInv(u, cg, k);
    var lo, hi := u.bbs[k] + 1, EndOf(u.bbs, u.n, k);
    var cg0, cg' := BeginFrag(u, cg, k), GenFrag(u, cg, k);
    GenStmInv(u, cg0, u.cl[k].body, lo, hi, Elems(Names(u.cl[k].params)));
    ExtTrans(r.blocks, cg.blocks, cg'.blocks);
    forall b | hi <= b < u.n
      ensures SameCode(r.blocks[b], cg'.blocks[b])
    {
      assert SameCode(r.blocks[b], cg.blocks[b]) && SameCode(cg.blocks[b], cg'.blocks[b]);
    }
    forall b | 0 <= b < |cg'.blocks| && !(hi <= b < u.n)
      ensures Ended(cg'.blocks, b)
    {
      if b < |cg.blocks| && !(u.bbs[k] <= b < hi) {
        assert Ended(cg.blocks, b) && SameCode(cg.blocks[b], cg'.blocks[b]);
      }
    }
  }

  /** After k fragments. */
  lemma {:induction false} GenFragsInv(tgt: Target, fns: Fns, cl: Cluster, k: nat)
    requires tgt.Valid() && WellFormedCluster(tgt, fns, cl) && k <= |cl|
    ensures var u, cg := UnitOf(tgt, fns, cl), StartCG(tgt, cl);
            && UnitOK(u) && BodiesBelow(u) && InRange(u, cg) && |u.cl| == |cl|
            && InvUpto(u, GenFrags(u, cg, k), k) && Upto(u, InitCluster(tgt, cl).blocks, GenFrags(u, cg, k), k)
  {
    hide InitCluster, GenFrag, Inv;
    InitClusterOK(tgt, fns, cl);
    var u, cg := UnitOf(tgt, fns, cl), StartCG(tgt, cl);
    if k == 0 {
      StartInv(tgt, fns, cl);
      ExtRefl(cg.blocks);
    } else {
      GenFragsInv(tgt, fns, cl, k - 1);
      GenFragInv(tgt, fns, cl, GenFrags(u, cg, k - 1), k - 1);
    }
  }

  lemma {:induction false} GenFragsExt(tgt: Target, fns: Fns, cl: Cluster, j: nat, k: nat)
    requires tgt.Valid() && WellFormedCluster(tgt, fns, cl) && j <= k <= |cl|
    ensures var u, cg := UnitOf(tgt, fns, cl), StartCG(tgt, cl);
            && UnitOK(u) && BodiesBelow(u) && InRange(u, cg) && |u.cl| == |cl|
            && Ext(GenFrags(u, cg, j).blocks, GenFrags(u, cg, k).blocks)
  {
    hide InitCluster, GenFrag, Inv, Upto;
    InitClusterOK(tgt, fns, cl);
    var u, cg := UnitOf(tgt, fns, cl), StartCG(tgt, cl);
    if j == k {
      ExtRefl(GenFrags(u, cg, k).blocks);
    } else {
      GenFragsExt(tgt, fns, cl, j, k - 1);
      GenFragsInv(tgt, fns, cl, k - 1);
      GenFragInv(tgt, fns, cl, GenFrags(u, cg, k - 1), k - 1);
      ExtTrans(GenFrags(u, cg, j).blocks, GenFrags(u, cg, k - 1).blocks, GenFrags(u, cg, k).blocks);
    }
  }

  // ----- the generated function -----

  /** A function that the code generator may hand over: every block ends, every jump has a
      target, and every phi node has exactly one incoming value for each edge into its
      block, and no other. */
  ghost predicate ValidFunction(blocks: seq<Block>) {
    && (forall b :: 0 <= b < |blocks| ==> Ended(blocks, b))
    && SuccsOK(blocks)
    && PhisOK(blocks)
    && (forall d :: 0 <= d < |blocks| ==> IdsDistinct(blocks[d].phis))
  }

  lemma GenClusterValid(tgt: Target, fns: Fns, cl: Cluster)
    requires tgt.Valid() && WellFormedCluster(tgt, fns, cl)
    ensures ValidFunction(GenCluster(tgt, fns, cl))
    ensures GenCluster(tgt, fns, cl) != [] && GenCluster(tgt, fns, cl)[0].phis == []
  {
    hide InitCluster, GenFrags;
    GenFragsInv(tgt, fns, cl, |cl|);
    InitClusterFrags(tgt, cl);
    assert FragInit(tgt, cl, InitCluster(tgt, cl), 0);
    assert BlockExt(InitCluster(tgt, cl).blocks[0], GenCluster(tgt, fns, cl)[0]);
  }

  /** All overflow checks of a cluster share one block, which passes on a phi node for each
      hardware register and does nothing else. */
  lemma OneOverflowBlock(tgt: Target, fns: Fns, cl: Cluster)
    requires tgt.Valid() && WellFormedCluster(tgt, fns, cl)
    ensures var u := UnitOf(tgt, fns, cl);
            && UnitOK(u) && BodiesBelow(u) && InRange(u, StartCG(tgt, cl)) && |u.cl| == |cl|
            && OverflowOK(tgt, GenCluster(tgt, fns, cl), GenFrags(u, StartCG(tgt, cl), |cl|).ovf)
  {
    hide InitCluster, GenFrags;
    GenFragsInv(tgt, fns, cl, |cl|);
  }
}
