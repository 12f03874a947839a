/** Whole clusters in place: the init methods of statements and fragments, the set-up of
    fragment entries, and code generation for fragments and clusters. */
module ClusterCodegen {
  import opened Machine
  import opened CFG
  import opened IR
  import opened Codegen
  import opened Registers
  import opened Contexts
  import opened Invariants
  import opened Structure
  import opened ClusterGen

  // ----- initialisation -----

  /** Blocks after making more, up to n. */
  function GrownTo(bs: seq<Block>, n: nat): (r: seq<Block>)
    requires |bs| <= n
    ensures |r| == n
  {
    bs + Empties(n - |bs|)
  }

  lemma GrownSteps(bs: seq<Block>, m: nat, n: nat)
    requires |bs| <= m <= n
    ensures GrownTo(GrownTo(bs, m), n) == GrownTo(bs, n)
    ensures GrownTo(bs, |bs|) == bs && bs + [EMPTY] == GrownTo(bs, |bs| + 1)
  {
  }

  /** Make the blocks of a statement, and of the arms within it, in the order of the text. */
  method InitializeStm(cxt: Context, s: Stm, blkEntry: bool) returns (s': Stm, bb: nat)
    modifies cxt`blocks
    ensures bb == |old(cxt.blocks)|
    ensures var i := InitStm(s, bb + if blkEntry then 1 else 0);
            s' == i.s && cxt.blocks == GrownTo(old(cxt.blocks), i.n)
    decreases s, 1
  {
    hide InitStm, GrownTo;
    bb := |cxt.blocks|;
    if blkEntry {
      bb := cxt.NewBB();
    }
    GrownSteps(old(cxt.blocks), |cxt.blocks|, InitStm(s, |cxt.blocks|).n);
    s' := InitializeRest(cxt, s);
  }

  method InitializeRest(cxt: Context, s: Stm) returns (s': Stm)
    modifies cxt`blocks
    ensures var i := InitStm(s, |old(cxt.blocks)|); s' == i.s && cxt.blocks == GrownTo(old(cxt.blocks), i.n)
    decreases s, 0
  {
    hide BlocksBelow, ArmsBelow, GrownTo;
    ghost var n := |cxt.blocks|;
    GrownSteps(cxt.blocks, n, InitStm(s, n).n);
    match s
    case LET(e, p, k) =>
      var k', _ := InitializeStm(cxt, k, false);
      s' := LET(e, p, k');
    case ALLOC(a, args, x, k) =>
      var k', _ := InitializeStm(cxt, k, false);
      s' := ALLOC(a, args, x, k');
    case APPLY(_, _, _) => s' := s;
    case THROW(_, _, _) => s' := s;
    case GOTO(_, _) => s' := s;
    case SWITCH(e, arms, _) =>
      var arms', bbs := InitializeArms(cxt, arms);
      s' := SWITCH(e, arms', bbs);
    case BRANCH(test, args, t, f, _, _) =>
      var t', tBB := InitializeStm(cxt, t, true);
      GrownSteps(old(cxt.blocks), |cxt.blocks|, InitStm(s, n).n);
      var f', fBB := InitializeStm(cxt, f, true);
      s' := BRANCH(test, args, t', f', tBB, fBB);
    case ARITH(a, args, p, k) =>
      var k', _ := InitializeStm(cxt, k, false);
      s' := ARITH(a, args, p, k');
    case SETTER(a, args, k) =>
      var k', _ := InitializeStm(cxt, k, false);
      s' := SETTER(a, args, k');
    case CALLGC(roots, xs, k) =>
      var k', _ := InitializeStm(cxt, k, false);
      s' := CALLGC(roots, xs, k');
  }

  method InitializeArms(cxt: Context, arms: seq<Stm>) returns (arms': seq<Stm>, bbs: seq<nat>)
    modifies cxt`blocks
    ensures var r := InitSwitch(arms, |old(cxt.blocks)|);
            arms' == r.arms && bbs == r.bbs && cxt.blocks == GrownTo(old(cxt.blocks), r.n)
    decreases arms, 0
  {
    hide BlocksBelow, ArmsBelow, GrownTo, InitStm;
    ghost var bs, n := cxt.blocks, |cxt.blocks|;
    GrownSteps(bs, n, n);
    arms', bbs := [], [];
    for i := 0 to |arms|
      invariant var r := InitSwitch(arms[..i], n);
                arms' == r.arms && bbs == r.bbs && cxt.blocks == GrownTo(bs, r.n)
    {
      assert arms[..i + 1][..i] == arms[..i];
      ghost var m := |cxt.blocks|;
      var arm, bb := InitializeStm(cxt, arms[i], true);
      GrownSteps(bs, m, InitStm(arms[i], m + 1).n);
      arms', bbs := arms' + [arm], bbs + [bb];
    }
    assert arms[..|arms|] == arms;
  }

  /** Labels and fragments agree; of two fragments with the same label the first counts. */
  ghost predicate MapsFrags(fragMap: map<Lvar, nat>, cl: Cluster) {
    forall lab :: FindFrag(cl, lab) == if lab in fragMap then Some(fragMap[lab]) else None
  }

  /** Types of the phi nodes of an internal fragment. */
  method ParamTypes(cxt: Context, f: Frag) returns (tys: seq<Ty>)
    requires cxt.Wired()
    ensures tys == FragTys(cxt.tgt, f)
  {
    tys := [];
    for i := 0 to cxt.regInfo.nHWRegs
      invariant tys == Ptrs(i)
    {
      tys := tys + [PTR];
    }
    for i := 0 to |f.params|
      invariant tys == Ptrs(|cxt.tgt.Hw()|) + ParamTys(f.params)[..i]
    {
      tys := tys + [f.params[i].ty];
    }
  }

  /** Phi nodes without incoming values at the start of a block. */
  method CreatePhis(cxt: Context, bb: nat, tys: seq<Ty>)
    requires bb < |cxt.blocks|
    modifies cxt`blocks, cxt`next
    ensures cxt.next == old(cxt.next) + |tys|
    ensures cxt.blocks == old(cxt.blocks)[bb := old(cxt.blocks)[bb].(phis := NewPhis(old(cxt.next), tys))]
  {
    var phis := [];
    for k := 0 to |tys|
      invariant phis == NewPhis(old(cxt.next), tys)[..k] && cxt.next == old(cxt.next) + k
                && cxt.blocks == old(cxt.blocks)
    {
      phis := phis + [Phi(cxt.next, tys[k], [], [])];
      cxt.next := cxt.next + 1;
    }
    assert phis == NewPhis(old(cxt.next), tys);
    cxt.blocks := cxt.blocks[bb := cxt.blocks[bb].(phis := phis)];
  }

  method InsertFrag(cxt: Context, ghost before: Cluster, f: Frag, i: nat)
    requires i == |before| && MapsFrags(cxt.fragMap, before)
    modifies cxt`fragMap
    ensures MapsFrags(cxt.fragMap, before + [f])
  {
    if f.lab !in cxt.fragMap {
      cxt.fragMap := cxt.fragMap[f.lab := i];
    }
    assert (before + [f])[..i] == before;
  }

  /** Initialise a fragment; r is what has been initialised before. */
  method InitializeFrag(cxt: Context, f: Frag, i: nat, ghost before: Cluster, ghost r: Inited)
      returns (f': Frag, bb: nat)
    requires cxt.Wired() && i == |before| && MapsFrags(cxt.fragMap, before)
    requires r.blocks == cxt.blocks && r.next == cxt.next
    modifies cxt`fragMap, cxt`blocks, cxt`next
    ensures MapsFrags(cxt.fragMap, before + [f])
    ensures Inited(r.cl + [f'], r.bbs + [bb], cxt.blocks, cxt.next) == InitFrag(cxt.tgt, f, r)
  {
    hide InitStm, CMRegs.Describes, NewPhis, MapsFrags, Empties;
    InsertFrag(cxt, before, f, i);
    var body;
    body, bb := InitializeStm(cxt, f.body, true);
    f' := f.(body := body);
    EntryAndRest(r.blocks, InitStm(f.body, bb + 1).n, []);
    if f.kind == INTERNAL {
      var tys := ParamTypes(cxt, f);
      EntryAndRest(r.blocks, InitStm(f.body, bb + 1).n, NewPhis(cxt.next, tys));
      CreatePhis(cxt, bb, tys);
    }
  }

  lemma EntryAndRest(bs: seq<Block>, n: nat, phis: seq<Phi>)
    requires |bs| < n
    ensures GrownTo(bs, n)[|bs|] == EMPTY
    ensures GrownTo(bs, n)[|bs| := EMPTY.(phis := phis)] == bs + [EMPTY.(phis := phis)] + Empties(n - |bs| - 1)
    ensures GrownTo(bs, n) == bs + [EMPTY] + Empties(n - |bs| - 1)
  {
  }

  // ----- fragment entries -----

  method BindParams(cxt: Context, f: Frag, vs: seq<Value>)
    requires |vs| == |f.params|
    modifies cxt`vMap
    ensures cxt.vMap == InsertVals(old(cxt.vMap), Names(f.params), vs)
  {
    var xs := Names(f.params);
    for i := 0 to |xs|
      invariant cxt.vMap == InsertVals(old(cxt.vMap), xs[..i], vs)
    {
      assert xs[..i + 1][..i] == xs[..i];
      cxt.Insert(xs[i], vs[i]);
    }
    assert xs[..|xs|] == xs;
  }

  /** Registers and parameters of the first fragment are arguments of the function. */
  method SetupStdEntry(cxt: Context, f: Frag)
    requires cxt.Wired()
    modifies cxt`vMap, cxt.regState.vals
    ensures cxt.regState.vals[..] == EntryRegs(cxt.tgt)
    ensures cxt.vMap == InsertVals(old(cxt.vMap), Names(f.params), EntryArgs(cxt.tgt, f))
  {
    var hwIx := 0;
    for i := 0 to NUM_REGS
      invariant hwIx == cxt.tgt.HwIndex(i) && cxt.vMap == old(cxt.vMap)
      invariant forall r :: 0 <= r < i ==> cxt.regState.vals[r] == EntryRegs(cxt.tgt)[r]
    {
      if cxt.regInfo.info[i].IsMachineReg() {
        cxt.regState.vals[i] := Some(FnArg(hwIx, PTR));
        hwIx := hwIx + 1;
      } else {
        cxt.regState.vals[i] := None;
      }
    }
    assert cxt.regState.vals[..] == EntryRegs(cxt.tgt);
    BindParams(cxt, f, EntryArgs(cxt.tgt, f));
  }

  /** Hardware registers and parameters of any other fragment are its phi nodes. */
  method SetupFragEntry(cxt: Context, f: Frag, phis: seq<Phi>)
    requires cxt.Wired() && |phis| == |cxt.tgt.Hw()| + |f.params|
    modifies cxt`vMap, cxt.regState.vals
    ensures cxt.regState.vals[..] == FragRegs(cxt.tgt, old(cxt.regState.vals[..]), PhiTemps(phis), |cxt.tgt.Hw()|)
    ensures cxt.vMap == InsertVals(old(cxt.vMap), Names(f.params), PhiTemps(phis)[|cxt.tgt.Hw()|..])
  {
    var nHw := cxt.regInfo.nHWRegs;
    for i := 0 to nHw
      invariant cxt.vMap == old(cxt.vMap)
      invariant cxt.regState.vals[..] == FragRegs(cxt.tgt, old(cxt.regState.vals[..]), PhiTemps(phis), i)
    {
      cxt.regState.vals[cxt.regInfo.hwRegs[i].id] := Some(Temp(phis[i].id, phis[i].ty));
    }
    BindParams(cxt, f, PhiTemps(phis)[nHw..]);
  }

  // ----- fragments and clusters -----

  /** What the context must be like before the k-th fragment is generated. */
  ghost predicate ReadyForFrag(cxt: Context, fns: Fns, cl: Cluster, k: nat)
    requires cxt.tgt.Valid() && cl != []
    reads cxt, cxt.regInfo, cxt.regInfo.info, cxt.regInfo.hwRegs, cxt.regState, cxt.regState.vals
  {
    var u := UnitOf(cxt.tgt, fns, cl);
    && cxt.Wired() && cxt.fns == fns && cxt.cluster == u && k <= |cl|
    && UnitOK(u) && BodiesBelow(u) && InRange(u, StartCG(cxt.tgt, cl)) && |u.cl| == |cl|
    && MapsFrags(cxt.fragMap, cl)
    && Agree(cxt.State(), GenFrags(u, StartCG(cxt.tgt, cl), k), k)
  }

  /** Before the first fragment is generated, the insertion point, the value map and the
      registers are left over from another cluster. */
  ghost predicate Agree(a: CG, b: CG, k: nat) {
    if k == 0 then a.blocks == b.blocks && a.next == b.next && a.ovf == b.ovf else a == b
  }

  method CodegenFrag(cxt: Context, ghost cl: Cluster, k: nat)
    requires cxt.Wired() && WellFormedCluster(cxt.tgt, cxt.fns, cl) && k < |cl|
    requires ReadyForFrag(cxt, cxt.fns, cl, k)
    modifies cxt, cxt.regState.vals
    ensures cxt.Wired() && ReadyForFrag(cxt, cxt.fns, cl, k + 1)
  {
    hide Inv, InitCluster, GenStm, FindFrag, FragRegs, EntryRegs, WellFormedCluster, InsertVals, CMRegs.Describes,
         GenFrags;
    ghost var u, cg0 := cxt.cluster, StartCG(cxt.tgt, cl);
    ghost var cg := GenFrags(u, cg0, k);
    FragPhiCount(cxt.tgt, cxt.fns, cl, k);
    var f, bb := cxt.cluster.cl[k], cxt.cluster.bbs[k];
    cxt.vMap := map[];
    cxt.SetInsertPoint(bb);
    if k == 0 {
      SetupStdEntry(cxt, f);
    } else {
      SetupFragEntry(cxt, f, cxt.blocks[bb].phis);
    }
    assert cxt.State() == BeginFrag(u, cg, k);
    SameFrags(cxt.tgt, cxt.fns, cl);
    cxt.CodegenStm(f.body);
    GenFragsStep(u, cg0, k);
  }

  lemma FragPhiCount(tgt: Target, fns: Fns, cl: Cluster, k: nat)
    requires tgt.Valid() && WellFormedCluster(tgt, fns, cl) && k < |cl|
    ensures var u, cg0 := UnitOf(tgt, fns, cl), StartCG(tgt, cl);
            && UnitOK(u) && InRange(u, cg0) && BodiesBelow(u) && |u.cl| == |cl|
            && (k == 0 ==> GenFrags(u, cg0, k) == cg0)
            && u.bbs[k] < |GenFrags(u, cg0, k).blocks|
            && (k > 0 ==> |GenFrags(u, cg0, k).blocks[u.bbs[k]].phis| == |tgt.Hw()| + |u.cl[k].params|)
  {
    hide InitCluster, GenFrag;
    GenFragsInv(tgt, fns, cl, k);
    InitClusterOK(tgt, fns, cl);
  }

  lemma SameFrags(tgt: Target, fns: Fns, cl: Cluster)
    requires tgt.Valid() && cl != []
    ensures forall lab :: FindFrag(UnitOf(tgt, fns, cl).cl, lab) == FindFrag(cl, lab)
  {
    hide InitCluster;
    InitClusterOK(tgt, fns, cl);
    forall lab {
      SameFragFound(cl, UnitOf(tgt, fns, cl).cl, lab);
    }
  }

  /** A new function, with the blocks and phi nodes of all fragments. */
  method InitializeFrags(cxt: Context, cl: Cluster)
    requires cxt.Wired()
    modifies cxt
    ensures MapsFrags(cxt.fragMap, cl) && cxt.ovf == None
    ensures cxt.cluster == UnitOf(cxt.tgt, cxt.fns, cl)
    ensures cxt.blocks == StartCG(cxt.tgt, cl).blocks && cxt.next == StartCG(cxt.tgt, cl).next
  {
    hide InitFrag, FindFrag, CMRegs.Describes;
    cxt.ovf, cxt.fragMap, cxt.blocks, cxt.next := None, map[], [], 0;
    var cl', bbs := [], [];
    ghost var r := InitCluster(cxt.tgt, []);
    NoFrags();
    for i := 0 to |cl|
      invariant cxt.Wired() && cxt.ovf == None && MapsFrags(cxt.fragMap, cl[..i])
      invariant Inited(cl', bbs, cxt.blocks, cxt.next) == InitCluster(cxt.tgt, cl[..i])
    {
      assert cl[..i + 1][..i] == cl[..i] && cl[..i + 1] == cl[..i] + [cl[i]];
      var f, bb := InitializeFrag(cxt, cl[i], i, cl[..i], InitCluster(cxt.tgt, cl[..i]));
      cl', bbs := cl' + [f], bbs + [bb];
    }
    assert cl[..|cl|] == cl;
    cxt.cluster := Unit(cxt.tgt, cxt.fns, cl', bbs, |cxt.blocks|);
  }

  /** Generate the function for a cluster, whatever was generated before. */
  method CodegenCluster(cxt: Context, cl: Cluster)
    requires cxt.Wired() && WellFormedCluster(cxt.tgt, cxt.fns, cl)
    modifies cxt, cxt.regState.vals
    ensures cxt.Wired() && cxt.blocks == GenCluster(cxt.tgt, cxt.fns, cl)
    ensures ValidFunction(cxt.blocks)
  {
    hide InitFrag, GenStm, FindFrag, Inv, Numbered, CMRegs.Describes, GenFrag, WellFormed, ValidFunction;
    InitializeFrags(cxt, cl);
    InitClusterOK(cxt.tgt, cxt.fns, cl);
    for i := 0 to |cl|
      invariant cxt.Wired() && ReadyForFrag(cxt, cxt.fns, cl, i)
    {
      CodegenFrag(cxt, cl, i);
    }
    GenClusterValid(cxt.tgt, cxt.fns, cl);
  }

  lemma NoFrags()
    ensures MapsFrags(map[], [])
  {
  }
}
